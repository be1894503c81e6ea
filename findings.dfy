/** The discrepancy in RandomSlidingWindowSampler: `randint(window_size - 1,
    len(dataset))` includes its lower bound, and the window of a draw `start`
    is `range(start - window_size, start)`, so the smallest draw yields a
    window whose first index is -1. Indexing a tensor with -1 reads the LAST
    record, so that sample is not a run of consecutive flows. */
module Findings {
  import opened Wrappers
  import opened Samplers
  import TabularDatasets

  /** For every window that fits in the table, the draw `window_size - 1` is
      allowed, and its window starts at -1, outside the table. */
  lemma AsWrittenWindowCanLeaveTable(datasetLength: nat, windowSize: int)
    requires 1 <= windowSize <= datasetLength
    ensures var s := NewRandomSlidingWindowSampler(datasetLength, windowSize);
      var draws: nat -> int := _ => windowSize - 1;
      && s.DrawsInRange(draws)
      && s.Iter(draws).Success?
      && |s.Iter(draws).value| > 0
      && s.Iter(draws).value[0][0] == -1
      && !IndicesWithin(s.Iter(draws).value, 0, datasetLength - 1)
  {
    var s := NewRandomSlidingWindowSampler(datasetLength, windowSize);
    var draws: nat -> int := _ => windowSize - 1;
    var windows := s.Iter(draws).value;
    assert windows[0][0] == -1;
  }

  /** Ten records, windows of four: the draw 3 gives the window
      [-1, 0, 1, 2], and index -1 is record 9, the newest one. */
  lemma AsWrittenWindowWrapsAround()
    ensures var s := NewRandomSlidingWindowSampler(10, 4);
      var draws: nat -> int := _ => 3;
      && s.DrawsInRange(draws)
      && s.Iter(draws).Success?
      && s.Iter(draws).value[0] == [-1, 0, 1, 2]
      && TabularDatasets.InBounds(-1, 10)
      && TabularDatasets.Position(-1, 10) == 9
  {
    var s := NewRandomSlidingWindowSampler(10, 4);
    var draws: nat -> int := _ => 3;
    var w := s.Iter(draws).value[0];
    assert |w| == 4 && w[0] == -1 && w[1] == 0 && w[2] == 1 && w[3] == 2;
  }

  /** The corrected sampler draws the last index of the window from
      [window_size - 1, N - 1]: its smallest anchor gives the first full
      window of the table, and every anchor keeps the window inside. */
  lemma CorrectedWindowStaysInTable(datasetLength: nat, windowSize: int, anchors: nat -> int)
    requires 1 <= windowSize <= datasetLength
    ensures var s := NewRandomSlidingWindowSampler(datasetLength, windowSize);
      var first: nat -> int := _ => windowSize - 1;
      && s.AnchorsInRange(first)
      && s.IterCorrected(first).Success?
      && s.IterCorrected(first).value[0] == Range(0, windowSize)
      && (s.AnchorsInRange(anchors) ==> IndicesWithin(s.IterCorrected(anchors).value, 0, datasetLength - 1))
  {
    var s := NewRandomSlidingWindowSampler(datasetLength, windowSize);
    var first: nat -> int := _ => windowSize - 1;
    var w := s.IterCorrected(first).value[0];
    assert |w| == windowSize;
    forall j | 0 <= j < windowSize
      ensures w[j] == Range(0, windowSize)[j]
    {
    }
  }
}
