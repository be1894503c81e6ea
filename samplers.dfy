/** The window samplers: they turn a table of N time-ordered flow records into
    lists of record indices ("windows"), one list per training sample. */
module Samplers {
  import opened Wrappers

  /** Python's `list(range(lo, hi))`: lo, lo + 1, ..., hi - 1, empty when hi <= lo. */
  function Range(lo: int, hi: int): (r: seq<int>)
    ensures |r| == Max(0, hi - lo)
    ensures forall k :: 0 <= k < |r| ==> r[k] == lo + k
    decreases hi - lo
  {
    if hi <= lo then [] else [lo] + Range(lo + 1, hi)
  }

  /** Strictly consecutive indices: each one is the previous one plus one. */
  predicate Consecutive(w: seq<int>)
  {
    forall k :: 0 <= k < |w| ==> w[k] == w[0] + k
  }

  /** Every index of every window lies in [lo, hi]. */
  predicate IndicesWithin(windows: seq<seq<int>>, lo: int, hi: int)
  {
    forall k, j :: 0 <= k < |windows| && 0 <= j < |windows[k]| ==> lo <= windows[k][j] <= hi
  }

  // ---------------------------------------------------------------------------
  // RandomSlidingWindowSampler
  // ---------------------------------------------------------------------------

  /** The random sampler never changes after construction, so it is a value.
      `numSamples` is `len(dataset) - window_size + 1`, computed once. */
  datatype RandomSlidingWindowSampler = RandomSlidingWindowSampler(
    datasetLength: nat,
    windowSize: int,
    numSamples: int)
  {
    /** `__len__`. */
    function Length(): int
    {
      numSamples
    }

    /** The k-th call of `random.randint(window_size - 1, len(dataset))` during
        one pass returns `draws(k)`; randint includes both bounds. Only the
        first `len(self)` calls are made. */
    predicate DrawsInRange(draws: nat -> int)
    {
      forall k: nat :: k < numSamples ==> windowSize - 1 <= draws(k) <= datasetLength
    }

    /** `__iter__`: one window `range(start - window_size, start)` per draw.
        `range(len(self))` goes through the builtin `len`, which raises
        ValueError when `__len__` is negative; a length of 0 yields nothing.
        Every index is at most N - 1, but the smallest draw makes the first
        index -1. */
    function Iter(draws: nat -> int): (r: Result<seq<seq<int>>>)
      requires DrawsInRange(draws)
      ensures r.Failure? <==> Length() < 0
      ensures r.Failure? ==> r.error == ValueError
      ensures r.Success? ==> |r.value| == Length()
      ensures r.Success? ==> forall k :: 0 <= k < |r.value| ==>
        |r.value[k]| == Max(0, windowSize) && Consecutive(r.value[k]) &&
        (windowSize >= 1 ==> r.value[k][0] == draws(k) - windowSize && r.value[k][windowSize - 1] == draws(k) - 1)
      ensures r.Success? ==> IndicesWithin(r.value, -1, datasetLength - 1)
    {
      if numSamples < 0 then Failure(ValueError)
      else
        Success(seq(numSamples, k requires 0 <= k < numSamples =>
          Range(draws(k) - windowSize, draws(k))))
    }

    /** The draws the sampler was evidently meant to make: one anchor per
        call, uniformly from [window_size - 1, N - 1], the anchor being the
        last index of its window. */
    predicate AnchorsInRange(anchors: nat -> int)
    {
      forall k: nat :: k < numSamples ==> windowSize - 1 <= anchors(k) <= datasetLength - 1
    }

    /** The corrected pass: window `[a - window_size + 1 .. a]` per anchor a.
        Only the window changes: a negative `len(self)` still raises
        ValueError. Every index is a valid record offset, and the range of
        anchors has exactly `len(self)` values, one per full window of the
        table. */
    function IterCorrected(anchors: nat -> int): (r: Result<seq<seq<int>>>)
      requires AnchorsInRange(anchors)
      ensures r.Failure? <==> Length() < 0
      ensures r.Failure? ==> r.error == ValueError
      ensures r.Success? ==> |r.value| == Length()
      ensures r.Success? ==> forall k :: 0 <= k < |r.value| ==>
        |r.value[k]| == Max(0, windowSize) && Consecutive(r.value[k]) &&
        (windowSize >= 1 ==> r.value[k][windowSize - 1] == anchors(k))
      ensures r.Success? ==> IndicesWithin(r.value, 0, datasetLength - 1)
    {
      if numSamples < 0 then Failure(ValueError)
      else
        Success(seq(numSamples, k requires 0 <= k < numSamples =>
          Range(anchors(k) - windowSize + 1, anchors(k) + 1)))
    }
  }

  /** `RandomSlidingWindowSampler.__init__`: the length is fixed here, from
      the dataset's length at construction; it is positive exactly when the
      window fits in the dataset. */
  function NewRandomSlidingWindowSampler(datasetLength: nat, windowSize: int): (s: RandomSlidingWindowSampler)
    ensures s.datasetLength == datasetLength && s.windowSize == windowSize
    ensures s.Length() > 0 <==> windowSize <= datasetLength
    ensures s.Length() + windowSize - 1 == datasetLength
    ensures windowSize >= 1 ==> |Range(windowSize - 1, datasetLength)| == Max(0, s.Length())
  {
    RandomSlidingWindowSampler(datasetLength, windowSize, datasetLength - windowSize + 1)
  }

  /** A window one record longer than the dataset gives an empty pass; a
      longer one makes `len(self)` negative, and the pass raises ValueError. */
  lemma OversizedWindow(datasetLength: nat, windowSize: int, draws: nat -> int)
    requires windowSize > datasetLength
    ensures var s := NewRandomSlidingWindowSampler(datasetLength, windowSize);
      && s.DrawsInRange(draws)
      && (windowSize == datasetLength + 1 ==> s.Iter(draws) == Success([]))
      && (windowSize >= datasetLength + 2 ==> s.Iter(draws) == Failure(ValueError))
  {
  }

  // ---------------------------------------------------------------------------
  // FairSlidingWindowSampler
  // ---------------------------------------------------------------------------

  /** The indices i < n with `i > window_size - 1` whose label differs from
      the benign label (malicious == true) or equals it (malicious == false),
      in ascending order: `labels[mask].index.tolist()` over a reset index. */
  function AnchorsBelow<L(==)>(labels: seq<L>, benign: L, windowSize: int, malicious: bool, n: nat): (r: seq<int>)
    requires n <= |labels|
    ensures forall i :: i in r <==> 0 <= i < n && i > windowSize - 1 && (labels[i] != benign) == malicious
    ensures forall p, q :: 0 <= p < q < |r| ==> r[p] < r[q]
  {
    if n == 0 then []
    else
      var i := n - 1;
      var prev := AnchorsBelow(labels, benign, windowSize, malicious, i);
      if i > windowSize - 1 && (labels[i] != benign) == malicious then
        assert forall p :: 0 <= p < |prev| ==> prev[p] < i by {
          forall p | 0 <= p < |prev| ensures prev[p] < i {
            assert prev[p] in prev;
          }
        }
        prev + [i]
      else prev
  }

  /** `_malicious_indices` as built by the constructor. */
  function MaliciousAnchors<L(==)>(labels: seq<L>, benign: L, windowSize: int): (r: seq<int>)
    ensures forall i :: i in r <==> 0 <= i < |labels| && i >= windowSize && labels[i] != benign
  {
    AnchorsBelow(labels, benign, windowSize, true, |labels|)
  }

  /** `_legit_indices` as built by the constructor. */
  function LegitAnchors<L(==)>(labels: seq<L>, benign: L, windowSize: int): (r: seq<int>)
    ensures forall i :: i in r <==> 0 <= i < |labels| && i >= windowSize && labels[i] == benign
  {
    AnchorsBelow(labels, benign, windowSize, false, |labels|)
  }

  /** The two anchor lists are disjoint, cover every index from window_size
      on, and each lists its indices once, in ascending order. */
  lemma AnchorsPartition<L>(labels: seq<L>, benign: L, windowSize: int)
    ensures forall i :: 0 <= i < |labels| ==>
      ((i in MaliciousAnchors(labels, benign, windowSize) || i in LegitAnchors(labels, benign, windowSize)) <==> i >= windowSize)
    ensures forall i :: !(i in MaliciousAnchors(labels, benign, windowSize) && i in LegitAnchors(labels, benign, windowSize))
    ensures forall p, q :: 0 <= p < q < |MaliciousAnchors(labels, benign, windowSize)| ==>
      MaliciousAnchors(labels, benign, windowSize)[p] < MaliciousAnchors(labels, benign, windowSize)[q]
    ensures forall p, q :: 0 <= p < q < |LegitAnchors(labels, benign, windowSize)| ==>
      LegitAnchors(labels, benign, windowSize)[p] < LegitAnchors(labels, benign, windowSize)[q]
  {
  }

  /** The `window_size` indices ending at anchor a: `range(a - W + 1, a + 1)`. */
  function WindowEndingAt(a: int, windowSize: int): (r: seq<int>)
    ensures |r| == Max(0, windowSize) && Consecutive(r)
    ensures windowSize >= 1 ==> r[0] == a - windowSize + 1 && r[windowSize - 1] == a
  {
    Range(a - windowSize + 1, a + 1)
  }

  /** The anchor of position k of an interleaving: the (k / 2)-th malicious
      anchor at even positions, the (k / 2)-th legit anchor at odd ones. */
  function PairAnchor(malicious: seq<int>, legit: seq<int>, k: nat): int
    requires k < 2 * Min(|malicious|, |legit|)
  {
    if k % 2 == 0 then malicious[k / 2] else legit[k / 2]
  }

  /** The windows of one pass of the fair sampler over (already shuffled)
      anchor lists: `zip` pairs them up to the shorter list, and each pair
      contributes the malicious window and then the legit window. */
  function FairWindows(malicious: seq<int>, legit: seq<int>, windowSize: int): (r: seq<seq<int>>)
  {
    seq(2 * Min(|malicious|, |legit|), k requires 0 <= k < 2 * Min(|malicious|, |legit|) =>
      WindowEndingAt(PairAnchor(malicious, legit, k), windowSize))
  }

  /** The sampler whose `__iter__` shuffles its anchor lists in place. */
  class FairSlidingWindowSampler<L(==)> {
    const windowSize: int
    /** The label column, positionally indexed (`reset_index(drop=True)`). */
    const labels: seq<L>
    /** Only used by the constructor's masks; the source does not keep it. */
    ghost const benignLabel: L
    const numSamples: int
    var maliciousIndices: seq<int>
    var legitIndices: seq<int>

    /** Shuffling only reorders: the anchor lists always hold exactly the
        anchors computed from the labels, and the length never changes. */
    ghost predicate Valid()
      reads this
    {
      && windowSize % 2 == 0
      && multiset(maliciousIndices) == multiset(MaliciousAnchors(labels, benignLabel, windowSize))
      && multiset(legitIndices) == multiset(LegitAnchors(labels, benignLabel, windowSize))
      && numSamples == 2 * Min(|maliciousIndices|, |legitIndices|)
    }

    /** `__init__` after its even-window check (see NewFairSlidingWindowSampler). */
    constructor (labels: seq<L>, benignLabel: L, windowSize: int)
      requires windowSize % 2 == 0
      ensures Valid()
      ensures this.labels == labels && this.benignLabel == benignLabel && this.windowSize == windowSize
      ensures maliciousIndices == MaliciousAnchors(labels, benignLabel, windowSize)
      ensures legitIndices == LegitAnchors(labels, benignLabel, windowSize)
    {
      this.windowSize := windowSize;
      this.labels := labels;
      this.benignLabel := benignLabel;
      var malicious := MaliciousAnchors(labels, benignLabel, windowSize);
      var legit := LegitAnchors(labels, benignLabel, windowSize);
      maliciousIndices := malicious;
      legitIndices := legit;
      numSamples := 2 * Min(|malicious|, |legit|);
    }

    /** `__len__`: twice the size of the smaller anchor list. */
    function Length(): (n: int)
      reads this
      requires Valid()
      ensures n == 2 * Min(|maliciousIndices|, |legitIndices|)
      ensures n == 2 * Min(|MaliciousAnchors(labels, benignLabel, windowSize)|, |LegitAnchors(labels, benignLabel, windowSize)|)
    {
      assert |maliciousIndices| == |multiset(maliciousIndices)|;
      assert |legitIndices| == |multiset(legitIndices)|;
      numSamples
    }

    /** `__iter__`: `random.shuffle` rearranges each stored list in place
        (the rearrangements are the inputs), then the loop appends one
        malicious window and one legit window per `zip` pair. */
    method Iter(shuffledMalicious: seq<int>, shuffledLegit: seq<int>) returns (windows: seq<seq<int>>)
      requires Valid()
      requires multiset(shuffledMalicious) == multiset(maliciousIndices)
      requires multiset(shuffledLegit) == multiset(legitIndices)
      modifies this
      ensures Valid()
      ensures maliciousIndices == shuffledMalicious && legitIndices == shuffledLegit
      ensures windows == FairWindows(maliciousIndices, legitIndices, windowSize)
      ensures |windows| == Length()
    {
      assert |shuffledMalicious| == |multiset(shuffledMalicious)| == |multiset(maliciousIndices)| == |maliciousIndices|;
      assert |shuffledLegit| == |multiset(shuffledLegit)| == |multiset(legitIndices)| == |legitIndices|;
      maliciousIndices := shuffledMalicious;
      legitIndices := shuffledLegit;
      var pairs := Min(|maliciousIndices|, |legitIndices|);
      windows := [];
      var k := 0;
      while k < pairs
        invariant 0 <= k <= pairs
        invariant |windows| == 2 * k
        invariant forall i :: 0 <= i < 2 * k ==>
          windows[i] == WindowEndingAt(PairAnchor(maliciousIndices, legitIndices, i), windowSize)
      {
        var malicious, legit := maliciousIndices[k], legitIndices[k];
        windows := windows + [WindowEndingAt(malicious, windowSize)];
        windows := windows + [WindowEndingAt(legit, windowSize)];
        k := k + 1;
      }
    }
  }

  /** `FairSlidingWindowSampler.__init__` as a whole: an odd window size
      raises ValueError before any field is set. */
  method NewFairSlidingWindowSampler<L(==)>(labels: seq<L>, benignLabel: L, windowSize: int)
    returns (r: Result<FairSlidingWindowSampler<L>>)
    ensures r.Failure? <==> windowSize % 2 != 0
    ensures r.Failure? ==> r.error == ValueError
    ensures r.Success? ==> fresh(r.value) && r.value.Valid()
    ensures r.Success? ==> r.value.windowSize == windowSize && r.value.labels == labels
    ensures r.Success? ==> r.value.maliciousIndices == MaliciousAnchors(labels, benignLabel, windowSize)
    ensures r.Success? ==> r.value.legitIndices == LegitAnchors(labels, benignLabel, windowSize)
  {
    if windowSize % 2 != 0 {
      return Failure(ValueError);
    }
    var s := new FairSlidingWindowSampler(labels, benignLabel, windowSize);
    r := Success(s);
  }

  /** What a pass of the fair sampler yields, whatever the shuffles were:
      every window holds window_size consecutive indices inside [1, N - 1]
      (the anchor is at least window_size), windows at even positions end at
      a malicious record and windows at odd positions at a benign one, so
      exactly half of the windows are malicious-anchored. */
  lemma {:induction false} FairWindowsRespectLabels<L>(
    labels: seq<L>, benign: L, windowSize: int, malicious: seq<int>, legit: seq<int>)
    requires multiset(malicious) == multiset(MaliciousAnchors(labels, benign, windowSize))
    requires multiset(legit) == multiset(LegitAnchors(labels, benign, windowSize))
    ensures var r := FairWindows(malicious, legit, windowSize);
      forall k :: 0 <= k < |r| ==> |r[k]| == Max(0, windowSize) && Consecutive(r[k])
    ensures IndicesWithin(FairWindows(malicious, legit, windowSize), 1, |labels| - 1)
    ensures var r := FairWindows(malicious, legit, windowSize);
      windowSize >= 1 ==> forall k :: 0 <= k < |r| ==>
        0 <= r[k][windowSize - 1] < |labels| && (labels[r[k][windowSize - 1]] != benign <==> k % 2 == 0)
  {
    var r := FairWindows(malicious, legit, windowSize);
    forall k | 0 <= k < |r|
      ensures |r[k]| == Max(0, windowSize) && Consecutive(r[k])
      ensures forall j :: 0 <= j < |r[k]| ==> 1 <= r[k][j] <= |labels| - 1
      ensures windowSize >= 1 ==>
        0 <= r[k][windowSize - 1] < |labels| && (labels[r[k][windowSize - 1]] != benign <==> k % 2 == 0)
    {
      var j := k / 2;
      var a: int;
      if k % 2 == 0 {
        assert k == 2 * j;
        a := malicious[j];
        assert a in multiset(MaliciousAnchors(labels, benign, windowSize));
        assert a in MaliciousAnchors(labels, benign, windowSize);
      } else {
        assert k == 2 * j + 1;
        a := legit[j];
        assert a in multiset(LegitAnchors(labels, benign, windowSize));
        assert a in LegitAnchors(labels, benign, windowSize);
      }
      assert r[k] == WindowEndingAt(a, windowSize);
    }
  }
}
