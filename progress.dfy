/** Progress lines printed by both benchmarks after each completed request. */
module ProgressReport {

  /** One progress line: `done` requests out of the fixed `total`.
      The percentage printed beside the counters is a floating-point
      rendering of done/total and is not part of this model. */
  datatype Line = Line(done: int, total: int)

  /** The progress lines printed after k completions, in printing order:
      the counters run 1, 2, ..., k and the denominator never changes. */
  function Lines(k: nat, total: int): (lines: seq<Line>)
    ensures |lines| == k
    ensures forall j :: 0 <= j < k ==> lines[j] == Line(j + 1, total)
  {
    if k == 0 then [] else Lines(k - 1, total) + [Line(k, total)]
  }
}
