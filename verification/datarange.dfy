/** Value ranges `{low, high, step}` as produced by the external datarange
    library; its quantising constructor and its progress ratio are carried,
    uninterpreted, by `Ops`. */
module Datarange {

  datatype DataRange = DataRange(low: real, high: real, stepSize: real)

  function Delta(r: DataRange): (d: real)
    ensures r.low + d == r.high
  {
    r.high - r.low
  }

  /** Replaces both boundaries and keeps the step. */
  function ResetBoundaries(r: DataRange, low: real, high: real): (n: DataRange)
    ensures n.low == low && n.high == high && n.stepSize == r.stepSize
  {
    r.(low := low, high := high)
  }

  datatype Ops = Ops(
    make: (real, real, real) -> DataRange,   // Make(low, high, -maxSteps)
    progress: (DataRange, real) -> real
  )
}
