/** The record store: row-aligned numeric features, categorical features and
    labels of N flow records, read one window at a time. Tensor element types
    are abstracted into one type parameter T; the summary statistics into S. */
module TabularDatasets {
  import opened Wrappers

  /** The `{"data": ..., "stats": ...}` dictionary a transformation receives. */
  datatype Sample<D, S> = Sample(data: D, stats: S)

  /** A transformation field: the initial `[]`, which is falsy and therefore
      skipped, or a `Compose` of steps, which is truthy even with no steps. */
  datatype Transformation<!D, !S> = Unset | Composed(steps: seq<Sample<D, S> -> Sample<D, S>>)

  /** `Compose.__call__`: the sample goes through the steps in list order. */
  function ComposeApply<D, S>(steps: seq<Sample<D, S> -> Sample<D, S>>, x: Sample<D, S>): Sample<D, S>
    decreases |steps|
  {
    if steps == [] then x else ComposeApply(steps[1..], steps[0](x))
  }

  /** Composing one more step applies it to the result of the earlier ones. */
  lemma {:induction false} ComposeAppend<D, S>(steps: seq<Sample<D, S> -> Sample<D, S>>, last: Sample<D, S> -> Sample<D, S>, x: Sample<D, S>)
    ensures ComposeApply(steps + [last], x) == last(ComposeApply(steps, x))
    decreases |steps|
  {
    if steps != [] {
      assert (steps + [last])[1..] == steps[1..] + [last];
      ComposeAppend(steps[1..], last, steps[0](x));
    }
  }

  /** The guarded application `if transformation: sample = transformation(sample)`:
      an unset transformation, or one composed of no steps, leaves the sample as it is. */
  function Apply<D, S>(t: Transformation<D, S>, x: Sample<D, S>): (r: Sample<D, S>)
    ensures t.Unset? || t == Composed([]) ==> r == x
  {
    match t
    case Unset => x
    case Composed(steps) => ComposeApply(steps, x)
  }

  /** Torch accepts an integer index i into n rows when -n <= i < n. */
  predicate InBounds(i: int, n: nat)
  {
    -(n as int) <= i < n
  }

  predicate AllInBounds(idx: seq<int>, n: nat)
  {
    forall k :: 0 <= k < |idx| ==> InBounds(idx[k], n)
  }

  /** The row an in-bounds index selects: negative indices count from the end. */
  function Position(i: int, n: nat): (p: nat)
    requires InBounds(i, n)
    ensures p < n
    ensures i >= 0 ==> p == i
    ensures i < 0 ==> p == n + i
  {
    if i < 0 then n + i else i
  }

  /** `tensor[idx]` (or `tensor[idx, :]`) for an index list: the selected rows
      in the order of idx, or IndexError when some index is out of bounds. */
  function Gather<R>(rows: seq<R>, idx: seq<int>): (r: Result<seq<R>>)
    ensures r.Success? <==> AllInBounds(idx, |rows|)
    ensures r.Failure? ==> r.error == IndexError
    ensures r.Success? ==> |r.value| == |idx|
    ensures r.Success? ==> forall k :: 0 <= k < |idx| ==> r.value[k] == rows[Position(idx[k], |rows|)]
  {
    if AllInBounds(idx, |rows|) then
      Success(seq(|idx|, k requires 0 <= k < |idx| && AllInBounds(idx, |rows|) => rows[Position(idx[k], |rows|)]))
    else
      Failure(IndexError)
  }

  /** `torch.cat((a, b), dim=-1)` on two row-aligned 2-D tensors: row k is
      row k of a followed by row k of b. */
  function ConcatRows<T>(a: seq<seq<T>>, b: seq<seq<T>>): (r: seq<seq<T>>)
    requires |a| == |b|
    ensures |r| == |a|
    ensures forall k :: 0 <= k < |r| ==> r[k] == a[k] + b[k]
  {
    seq(|a|, k requires 0 <= k < |a| => a[k] + b[k])
  }

  /** Every row has the given width, as in a 2-D tensor. */
  predicate Rectangular<T>(rows: seq<seq<T>>, width: nat)
  {
    forall k :: 0 <= k < |rows| ==> |rows[k]| == width
  }

  type Samples<T, S> = (Sample<seq<seq<T>>, S>, Sample<seq<seq<T>>, S>, Sample<seq<T>, S>)

  class TabularDataset<T, S> {
    const numericData: seq<seq<T>>
    const categoricalData: seq<seq<T>>
    const labels: seq<T>
    /** Summary statistics of the numeric columns, computed once at construction. */
    const stats: S
    var numericTransformation: Transformation<seq<seq<T>>, S>
    var categoricalTransformation: Transformation<seq<seq<T>>, S>
    var labelsTransformation: Transformation<seq<T>, S>

    /** The three tables describe the same records, row by row. */
    ghost predicate Valid()
      reads this
    {
      |numericData| == |categoricalData| == |labels|
    }

    /** `TabularBase.__init__` and `TabularDataset.__init__`: the data is
        kept as given, no transformation is set, and the statistics are
        those of the numeric table. */
    constructor (numericData: seq<seq<T>>, categoricalData: seq<seq<T>>, labels: seq<T>, statistics: seq<seq<T>> -> S)
      ensures this.numericData == numericData && this.categoricalData == categoricalData && this.labels == labels
      ensures stats == statistics(numericData)
      ensures numericTransformation == Unset && categoricalTransformation == Unset && labelsTransformation == Unset
      ensures |numericData| == |categoricalData| == |labels| ==> Valid()
    {
      this.numericData := numericData;
      this.categoricalData := categoricalData;
      this.labels := labels;
      stats := statistics(numericData);
      numericTransformation := Unset;
      categoricalTransformation := Unset;
      labelsTransformation := Unset;
    }

    /** The `numeric_transformation` setter: wraps the steps in a Compose. */
    method SetNumericTransformation(steps: seq<Sample<seq<seq<T>>, S> -> Sample<seq<seq<T>>, S>>)
      modifies this`numericTransformation
      ensures numericTransformation == Composed(steps)
    {
      numericTransformation := Composed(steps);
    }

    /** The `categorical_transformation` setter. */
    method SetCategoricalTransformation(steps: seq<Sample<seq<seq<T>>, S> -> Sample<seq<seq<T>>, S>>)
      modifies this`categoricalTransformation
      ensures categoricalTransformation == Composed(steps)
    {
      categoricalTransformation := Composed(steps);
    }

    /** The `labels_transformation` setter. */
    method SetLabelsTransformation(steps: seq<Sample<seq<T>, S> -> Sample<seq<T>, S>>)
      modifies this`labelsTransformation
      ensures labelsTransformation == Composed(steps)
    {
      labelsTransformation := Composed(steps);
    }

    /** `__len__`: the number of labels, which is the number of records. */
    function Length(): (n: nat)
      reads this
      ensures n == |labels|
      ensures Valid() ==> n == |numericData| && n == |categoricalData|
    {
      |labels|
    }

    /** `applyTransformation`: numeric rows, categorical rows and labels at
        the positions idx, each paired with the SAME statistics `st` and passed
        through its own transformation when that one is set. An out-of-bounds
        index raises IndexError. */
    function ApplyTransformation(idx: seq<int>, st: S): (r: Result<Samples<T, S>>)
      reads this
      ensures Valid() ==> (r.Success? <==> AllInBounds(idx, |labels|))
      ensures r.Failure? ==> r.error == IndexError
      ensures r.Success? ==>
        && Gather(numericData, idx).Success? && Gather(categoricalData, idx).Success? && Gather(labels, idx).Success?
        && r.value.0 == Apply(numericTransformation, Sample(Gather(numericData, idx).value, st))
        && r.value.1 == Apply(categoricalTransformation, Sample(Gather(categoricalData, idx).value, st))
        && r.value.2 == Apply(labelsTransformation, Sample(Gather(labels, idx).value, st))
    {
      match Gather(numericData, idx)
      case Failure(e) => Failure(e)
      case Success(numericRows) =>
        var numericSample := Apply(numericTransformation, Sample(numericRows, st));
        match Gather(categoricalData, idx)
        case Failure(e) => Failure(e)
        case Success(categoricalRows) =>
          var categoricalSample := Apply(categoricalTransformation, Sample(categoricalRows, st));
          match Gather(labels, idx)
          case Failure(e) => Failure(e)
          case Success(labelRows) =>
            var labelSample := Apply(labelsTransformation, Sample(labelRows, st));
            Success((numericSample, categoricalSample, labelSample))
    }

    /** `__getitem__`: the transformed numeric and categorical rows side by
        side, and the last element of the transformed labels. torch.cat
        refuses row counts that differ (RuntimeError) and `[..., -1]` on an
        empty label tensor raises IndexError. */
    function GetItem(idx: seq<int>): (r: Result<(seq<seq<T>>, T)>)
      reads this
      ensures ApplyTransformation(idx, stats).Failure? ==> r == Failure(ApplyTransformation(idx, stats).error)
      ensures ApplyTransformation(idx, stats).Success? ==>
        var samples := ApplyTransformation(idx, stats).value;
        && (r.Success? <==> |samples.0.data| == |samples.1.data| && |samples.2.data| > 0)
        && (r.Failure? ==> r.error == if |samples.0.data| != |samples.1.data| then RuntimeError else IndexError)
      ensures r.Success? ==>
        var samples := ApplyTransformation(idx, stats).value;
        && |samples.0.data| == |samples.1.data| == |r.value.0|
        && (forall k :: 0 <= k < |r.value.0| ==> r.value.0[k] == samples.0.data[k] + samples.1.data[k])
        && |samples.2.data| > 0 && r.value.1 == samples.2.data[|samples.2.data| - 1]
    {
      match ApplyTransformation(idx, stats)
      case Failure(e) => Failure(e)
      case Success(samples) =>
        var (numericSample, categoricalSample, labelSample) := samples;
        if |numericSample.data| != |categoricalSample.data| then Failure(RuntimeError)
        else if |labelSample.data| == 0 then Failure(IndexError)
        else Success((ConcatRows(numericSample.data, categoricalSample.data), labelSample.data[|labelSample.data| - 1]))
    }
  }

  /** Without transformations, a window of in-bounds indices yields one
      feature row per index, in the order of the window, each the record's
      numeric row followed by its categorical row (so of width D_num + D_cat),
      and the label of the window's last record. */
  lemma GetItemUntransformed<T, S>(d: TabularDataset<T, S>, idx: seq<int>, numericWidth: nat, categoricalWidth: nat)
    requires d.Valid()
    requires d.numericTransformation == Unset && d.categoricalTransformation == Unset && d.labelsTransformation == Unset
    requires |idx| > 0 && AllInBounds(idx, d.Length())
    ensures d.GetItem(idx).Success?
    ensures var (features, target) := d.GetItem(idx).value;
      && |features| == |idx|
      && (forall k :: 0 <= k < |idx| ==>
            features[k] == d.numericData[Position(idx[k], d.Length())] + d.categoricalData[Position(idx[k], d.Length())])
      && target == d.labels[Position(idx[|idx| - 1], d.Length())]
      && (Rectangular(d.numericData, numericWidth) && Rectangular(d.categoricalData, categoricalWidth) ==>
            Rectangular(features, numericWidth + categoricalWidth))
  {
    var samples := d.ApplyTransformation(idx, d.stats).value;
    assert samples.0.data == Gather(d.numericData, idx).value;
    assert samples.1.data == Gather(d.categoricalData, idx).value;
    assert samples.2.data == Gather(d.labels, idx).value;
  }

  /** An index outside [-N, N) makes `__getitem__` raise IndexError, and so
      does an empty window when no transformation is set. */
  lemma GetItemIndexErrors<T, S>(d: TabularDataset<T, S>, idx: seq<int>)
    requires d.Valid()
    requires !AllInBounds(idx, d.Length()) ||
      (idx == [] && d.numericTransformation == Unset && d.categoricalTransformation == Unset && d.labelsTransformation == Unset)
    ensures d.GetItem(idx) == Failure(IndexError)
  {
    if AllInBounds(idx, d.Length()) {
      var samples := d.ApplyTransformation(idx, d.stats).value;
      assert samples.2.data == Gather(d.labels, idx).value;
    }
  }

  /** Every transformation is handed the dataset's own statistics: when
      none is set, each part of the sample is its raw slice paired with
      `stats`, whatever the window. */
  lemma StatsSharedByAllParts<T, S>(d: TabularDataset<T, S>, idx: seq<int>)
    requires d.Valid() && AllInBounds(idx, d.Length())
    requires d.numericTransformation == Unset && d.categoricalTransformation == Unset && d.labelsTransformation == Unset
    ensures d.ApplyTransformation(idx, d.stats).Success?
    ensures var samples := d.ApplyTransformation(idx, d.stats).value;
      samples.0.stats == d.stats && samples.1.stats == d.stats && samples.2.stats == d.stats
  {
  }
}
