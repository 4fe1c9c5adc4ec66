/** A client of either FIFO that only pushes and pops, as a list of steps. */
module FifoOps {

  datatype Op<T> = Push(value: T) | Pop

  /** The values the pushes of `ops` append, in order. */
  function Pushed<T>(ops: seq<Op<T>>): seq<T> {
    if ops == [] then []
    else (if ops[0].Push? then [ops[0].value] else []) + Pushed(ops[1..])
  }

  /** The number of pops in `ops`. */
  function Pops<T>(ops: seq<Op<T>>): nat {
    if ops == [] then 0
    else (if ops[0].Pop? then 1 else 0) + Pops(ops[1..])
  }
}
