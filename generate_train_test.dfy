/** Splitting a flow table into train and test parts, and selecting a
    balanced test subset: the first rows of every attack label together with
    the benign rows around them. Rows are identified by their position in the
    table, which is also their DataFrame index (a fresh RangeIndex). */
module GenerateTrainTest {
  import opened Wrappers

  // ---------------------------------------------------------------------------
  // generate_train_test
  // ---------------------------------------------------------------------------

  /** Python's `int()` on a real: truncation toward zero. */
  function Truncate(x: real): (r: int)
    ensures x >= 0.0 ==> r as real <= x < r as real + 1.0
    ensures x < 0.0 ==> r as real - 1.0 < x <= r as real
  {
    if x >= 0.0 then x.Floor else -((-x).Floor)
  }

  /** A slice bound of `iloc`: negative bounds count from the end, and both
      are clamped to the table. */
  function SliceBound(i: int, n: nat): (k: nat)
    ensures k <= n
    ensures 0 <= i <= n ==> k == i
  {
    if i < 0 then Max(0, i + n) else Min(i, n)
  }

  /** `len(df) * train_fraction`, written as len(df) additions of the
      fraction so that the solver reasons about it linearly; it is the
      product (`ScaleIsProduct`). */
  function Scale(n: nat, fraction: real): real
  {
    if n == 0 then 0.0 else Scale(n - 1, fraction) + fraction
  }

  lemma {:induction false} ScaleIsProduct(n: nat, fraction: real)
    ensures Scale(n, fraction) == n as real * fraction
  {
    if n > 0 {
      ScaleIsProduct(n - 1, fraction);
      assert (n - 1) as real * fraction + fraction == n as real * fraction;
    }
  }

  /** A fraction in [0, 1] of n lies between 0 and n. */
  lemma {:induction false} ScaledWithin(n: nat, fraction: real)
    ensures 0.0 <= fraction <= 1.0 ==> 0.0 <= Scale(n, fraction) <= n as real
  {
    if n > 0 {
      ScaledWithin(n - 1, fraction);
    }
  }

  /** A fraction of 1 or more of n is at least n. */
  lemma {:induction false} ScaledBeyond(n: nat, fraction: real)
    requires fraction >= 1.0
    ensures Scale(n, fraction) >= n as real
  {
    if n > 0 {
      ScaledBeyond(n - 1, fraction);
    }
  }

  /** A fraction of 0 of anything is 0. */
  lemma {:induction false} ScaledByZero(n: nat)
    ensures Scale(n, 0.0) == 0.0
  {
    if n > 0 {
      ScaledByZero(n - 1);
    }
  }

  /** The row where `iloc[:train_size]` ends, for
      `train_size = int(len(df) * train_fraction)`: the floor of the scaled
      length when the fraction lies in [0, 1]. */
  function TrainSize(n: nat, trainFraction: real): (k: nat)
    ensures k <= n
    ensures 0.0 <= trainFraction <= 1.0 ==> k as real <= Scale(n, trainFraction) < k as real + 1.0
  {
    if 0.0 <= trainFraction <= 1.0 then
      ScaledWithin(n, trainFraction);
      TruncateWithin(Scale(n, trainFraction), n);
      SliceBound(Truncate(Scale(n, trainFraction)), n)
    else
      SliceBound(Truncate(Scale(n, trainFraction)), n)
  }

  /** A size between 0 and n truncates to a slice bound that is not clamped. */
  lemma TruncateWithin(scaled: real, n: nat)
    requires 0.0 <= scaled <= n as real
    ensures SliceBound(Truncate(scaled), n) == Truncate(scaled)
    ensures Truncate(scaled) as real <= scaled < Truncate(scaled) as real + 1.0
  {
  }

  /** A size of n or more truncates to a bound that the table clamps to n. */
  lemma TruncateBeyond(scaled: real, n: nat)
    requires scaled >= n as real
    ensures SliceBound(Truncate(scaled), n) == n
  {
  }

  /** A fraction of 1 or more keeps every row for training. */
  lemma TrainSizeFull(n: nat, trainFraction: real)
    requires trainFraction >= 1.0
    ensures TrainSize(n, trainFraction) == n
  {
    ScaledBeyond(n, trainFraction);
    TruncateBeyond(Scale(n, trainFraction), n);
  }

  /** A fraction of 0 keeps no row for training. */
  lemma TrainSizeEmpty(n: nat)
    ensures TrainSize(n, 0.0) == 0
  {
    ScaledByZero(n);
  }

  /** The default fraction 0.85 of 100 rows keeps 85 for training. */
  lemma TrainSizeDefault(n: nat, trainFraction: real)
    requires n == 100 && trainFraction == 0.85
    ensures TrainSize(n, trainFraction) == 85
  {
    ScaleIsProduct(n, trainFraction);
    assert Scale(n, trainFraction) == 85.0;
    TruncateWithin(Scale(n, trainFraction), n);
  }

  /** `iloc[:train_size]` and `iloc[train_size:]`. */
  function Split<R>(rows: seq<R>, trainFraction: real): (parts: (seq<R>, seq<R>))
    ensures parts.0 + parts.1 == rows
    ensures 0.0 <= trainFraction <= 1.0 ==>
      |parts.0| as real <= Scale(|rows|, trainFraction) < |parts.0| as real + 1.0
  {
    var k := TrainSize(|rows|, trainFraction);
    assert rows[..k] + rows[k..] == rows;
    (rows[..k], rows[k..])
  }

  /** For a fraction in [0, 1], the train part has `floor(len * fraction)`
      rows. */
  lemma SplitSizeIsFloor<R>(rows: seq<R>, trainFraction: real)
    requires 0.0 <= trainFraction <= 1.0
    ensures var train := Split(rows, trainFraction).0;
      |train| as real <= |rows| as real * trainFraction < |train| as real + 1.0
  {
    ScaleIsProduct(|rows|, trainFraction);
  }

  /** The train part is a prefix of the table and the test part the rest,
      whatever the fraction; with the default 0.85 and 100 rows the split
      is 85 / 15. */
  lemma SplitIsPrefixSuffix<R>(rows: seq<R>, trainFraction: real)
    ensures var (train, test) := Split(rows, trainFraction);
      && train == rows[..|train|]
      && test == rows[|train|..]
      && (trainFraction >= 1.0 ==> test == [])
      && (trainFraction == 0.0 ==> train == [])
    ensures |rows| == 100 && trainFraction == 0.85 ==> |Split(rows, trainFraction).0| == 85
  {
    var (train, test) := Split(rows, trainFraction);
    assert train + test == rows;
    assert rows[..|train|] == train;
    if trainFraction >= 1.0 {
      TrainSizeFull(|rows|, trainFraction);
    } else if trainFraction == 0.0 {
      TrainSizeEmpty(|rows|);
    } else if |rows| == 100 && trainFraction == 0.85 {
      TrainSizeDefault(|rows|, trainFraction);
    }
  }

  // ---------------------------------------------------------------------------
  // generate_custom: the selection rule
  // ---------------------------------------------------------------------------

  const BENIGN: string := "Benign"
  /** Benign rows within this distance of a chosen attack row are kept. */
  const WINDOW: nat := 2
  /** Rows kept per attack label. */
  const ATTACK_SAMPLES: nat := 200

  predicate Distinct<X(==)>(s: seq<X>)
  {
    forall i, j :: 0 <= i < j < |s| ==> s[i] != s[j]
  }

  predicate StrictlyIncreasing(s: seq<nat>)
  {
    forall i, j :: 0 <= i < j < |s| ==> s[i] < s[j]
  }

  /** `df["Attack"].unique()` without "Benign": each attack label once, in
      order of first appearance. */
  function AttackLabels(attack: seq<string>): (labels: seq<string>)
    ensures forall l :: l in labels <==> l in attack && l != BENIGN
    ensures Distinct(labels)
  {
    if attack == [] then []
    else
      var prev := AttackLabels(attack[..|attack| - 1]);
      var l := attack[|attack| - 1];
      assert attack == attack[..|attack| - 1] + [l];
      if l == BENIGN || l in prev then prev else prev + [l]
  }

  /** The rows among the first n whose label is l, in table order. */
  function RowsWithLabel(attack: seq<string>, l: string, n: nat): (rows: seq<nat>)
    requires n <= |attack|
    ensures forall x :: x in rows <==> 0 <= x < n && attack[x] == l
    ensures StrictlyIncreasing(rows)
  {
    if n == 0 then []
    else
      var prev := RowsWithLabel(attack, l, n - 1);
      assert forall k :: 0 <= k < |prev| ==> prev[k] < n - 1 by {
        forall k | 0 <= k < |prev| ensures prev[k] < n - 1 { assert prev[k] in prev; }
      }
      if attack[n - 1] == l then prev + [n - 1] else prev
  }

  /** How many earlier rows share the label of row x. */
  function Rank(attack: seq<string>, x: nat): nat
    requires x < |attack|
  {
    |RowsWithLabel(attack, attack[x], x)|
  }

  /** The rows the rule keeps for their own sake: attack rows preceded by
      fewer than ATTACK_SAMPLES rows of the same label. */
  predicate Chosen(attack: seq<string>, x: nat)
  {
    x < |attack| && attack[x] != BENIGN && Rank(attack, x) < ATTACK_SAMPLES
  }

  /** `df[df["Attack"] == label].iloc[:ATTACK_SAMPLES]`: the first rows of a
      label, in table order. */
  function FirstRows(attack: seq<string>, l: string): (rows: seq<nat>)
    ensures StrictlyIncreasing(rows)
    ensures forall x :: x in rows ==> x < |attack| && attack[x] == l
  {
    var all := RowsWithLabel(attack, l, |attack|);
    var rows := all[..Min(ATTACK_SAMPLES, |all|)];
    assert forall x :: x in rows ==> x in all by {
      forall x | x in rows ensures x in all {
        var j :| 0 <= j < |rows| && rows[j] == x;
        assert all[j] == x;
      }
    }
    rows
  }

  /** Row x is among the first rows of its label exactly when fewer than
      ATTACK_SAMPLES earlier rows carry that label. */
  lemma FirstRowsAreLowRank(attack: seq<string>, l: string, x: nat)
    ensures x in FirstRows(attack, l) <==> x < |attack| && attack[x] == l && Rank(attack, x) < ATTACK_SAMPLES
  {
    if x < |attack| && attack[x] == l {
      RowsWithLabelPrefix(attack, l, x, |attack|);
      var all := RowsWithLabel(attack, l, |attack|);
      var r := Rank(attack, x);
      assert all[r] == x;
      if x in FirstRows(attack, l) {
        var j :| 0 <= j < Min(ATTACK_SAMPLES, |all|) && all[j] == x;
        assert j == r;
      }
    }
  }

  /** The rows with label l before row x come first among all rows with
      label l, and row x right after them. */
  lemma {:induction false} RowsWithLabelPrefix(attack: seq<string>, l: string, x: nat, n: nat)
    requires x < n <= |attack| && attack[x] == l
    ensures var before := RowsWithLabel(attack, l, x);
      var all := RowsWithLabel(attack, l, n);
      |before| < |all| && all[..|before|] == before && all[|before|] == x
  {
    if n > x + 1 {
      RowsWithLabelPrefix(attack, l, x, n - 1);
    }
  }

  /** The benign rows in [lo, hi), in table order (`benign_rows.loc[a:b]`,
      whose bounds are inclusive). */
  function BenignIn(attack: seq<string>, lo: nat, hi: nat): (rows: seq<nat>)
    requires hi <= |attack|
    ensures forall b :: b in rows <==> 0 <= lo <= b < hi && attack[b] == BENIGN
    ensures StrictlyIncreasing(rows)
  {
    if hi <= lo then []
    else
      var prev := BenignIn(attack, lo, hi - 1);
      assert forall k :: 0 <= k < |prev| ==> prev[k] < hi - 1 by {
        forall k | 0 <= k < |prev| ensures prev[k] < hi - 1 { assert prev[k] in prev; }
      }
      if attack[hi - 1] == BENIGN then prev + [hi - 1] else prev
  }

  /** `benign_rows.loc[max(0, idx - WINDOW) : idx - 1]`. */
  function BenignBefore(attack: seq<string>, idx: nat): seq<nat>
    requires idx < |attack|
  {
    BenignIn(attack, Max(0, idx - WINDOW), idx)
  }

  /** `benign_rows.loc[idx + 1 : idx + WINDOW]`. */
  function BenignAfter(attack: seq<string>, idx: nat): seq<nat>
    requires idx < |attack|
  {
    BenignIn(attack, idx + 1, Min(idx + WINDOW + 1, |attack|))
  }

  /** The benign rows at distance 1..WINDOW from row idx, on either side. */
  function Neighbours(attack: seq<string>, idx: nat): set<nat>
  {
    set b: nat | b < |attack| && attack[b] == BENIGN && b != idx && idx - WINDOW <= b <= idx + WINDOW
  }

  /** The rows the balanced subset is made of: every chosen attack row and
      every benign neighbour of one. */
  function Selection(attack: seq<string>): set<nat>
  {
    set x: nat | x < |attack| && (Chosen(attack, x) || exists i: nat :: i < |attack| && Chosen(attack, i) && x in Neighbours(attack, i))
  }

  /** The rows covered by processing the attack rows `done`: each of them
      and its benign neighbours. */
  function Covered(attack: seq<string>, done: seq<nat>): set<nat>
  {
    if done == [] then {}
    else
      var idx := done[|done| - 1];
      Covered(attack, done[..|done| - 1]) + {idx} + Neighbours(attack, idx)
  }

  lemma {:induction false} CoveredMembership(attack: seq<string>, done: seq<nat>, y: nat)
    ensures y in Covered(attack, done) <==> y in done || exists i :: i in done && y in Neighbours(attack, i)
  {
    if done != [] {
      var prev := done[..|done| - 1];
      CoveredMembership(attack, prev, y);
      assert done == prev + [done[|done| - 1]];
    }
  }

  /** Once every chosen row has been processed, the covered rows are the
      selection. */
  lemma CoveredIsSelection(attack: seq<string>, done: seq<nat>)
    requires forall x :: x in done <==> Chosen(attack, x)
    ensures Covered(attack, done) == Selection(attack)
  {
    forall y | y in Covered(attack, done)
      ensures y in Selection(attack)
    {
      CoveredMembership(attack, done, y);
    }
    forall y | y in Selection(attack)
      ensures y in Covered(attack, done)
    {
      CoveredMembership(attack, done, y);
    }
  }

  // ---------------------------------------------------------------------------
  // sort_index
  // ---------------------------------------------------------------------------

  predicate Sorted(s: seq<nat>)
  {
    forall i, j :: 0 <= i < j < |s| ==> s[i] <= s[j]
  }

  /** Inserting x in front of the first element not below it. */
  function Insert(x: nat, s: seq<nat>): (r: seq<nat>)
    ensures multiset(r) == multiset(s) + multiset{x}
  {
    if s == [] then [x]
    else if x <= s[0] then [x] + s
    else
      assert s == [s[0]] + s[1..];
      [s[0]] + Insert(x, s[1..])
  }

  /** Every element after an insertion is the inserted value or an old one. */
  lemma InsertedOrOld(x: nat, s: seq<nat>)
    ensures forall k :: 0 <= k < |Insert(x, s)| ==> Insert(x, s)[k] == x || Insert(x, s)[k] in s
  {
    var r := Insert(x, s);
    forall k | 0 <= k < |r|
      ensures r[k] == x || r[k] in s
    {
      assert r[k] in multiset(r);
    }
  }

  /** Insertion keeps a sorted sequence sorted. */
  lemma {:induction false} InsertKeepsSorted(x: nat, s: seq<nat>)
    requires Sorted(s)
    ensures Sorted(Insert(x, s))
  {
    if s != [] && x > s[0] {
      InsertKeepsSorted(x, s[1..]);
      InsertedOrOld(x, s[1..]);
    }
  }

  /** Insertion of a new value keeps a strictly increasing sequence strictly
      increasing. */
  lemma {:induction false} InsertKeepsStrict(x: nat, s: seq<nat>)
    requires StrictlyIncreasing(s) && x !in s
    ensures StrictlyIncreasing(Insert(x, s))
  {
    if s != [] && x > s[0] {
      assert x !in s[1..];
      InsertKeepsStrict(x, s[1..]);
      InsertedOrOld(x, s[1..]);
    }
  }

  /** `custom_df.sort_index()`: the same rows, ordered by index; rows whose
      indices are distinct end up strictly increasing. */
  function SortIndex(s: seq<nat>): (r: seq<nat>)
    ensures multiset(r) == multiset(s)
    ensures Sorted(r)
    ensures Distinct(s) ==> StrictlyIncreasing(r)
  {
    if s == [] then []
    else
      var prev := s[..|s| - 1];
      var x := s[|s| - 1];
      assert s == prev + [x];
      var sorted := SortIndex(prev);
      assert x in sorted ==> x in multiset(prev);
      InsertKeepsSorted(x, sorted);
      if Distinct(s) then
        assert Distinct(prev) && x !in prev;
        InsertKeepsStrict(x, sorted);
        Insert(x, sorted)
      else
        Insert(x, sorted)
  }

  // ---------------------------------------------------------------------------
  // generate_custom
  // ---------------------------------------------------------------------------

  /** The state of `generate_custom` after processing the attack rows
      `done`: the labels `names` completely, plus the rows `extra` of the
      current label. `custom` holds each row in `added` exactly once. */
  ghost predicate Bookkeeping(attack: seq<string>, custom: seq<nat>, added: set<nat>, done: seq<nat>, names: seq<string>, extra: seq<nat>)
  {
    && added == Covered(attack, done)
    && (forall y :: y in custom <==> y in added)
    && Distinct(custom)
    && (forall x :: x in done <==> (0 <= x < |attack| && attack[x] in names && Rank(attack, x) < ATTACK_SAMPLES) || x in extra)
    && (forall y :: y in added ==> y < |attack| && (attack[y] == BENIGN || attack[y] in names || y in extra))
  }

  /** `generate_custom` on the "Attack" column of the table: the indices of
      the rows written out, in output order. When no row is selected,
      `custom_df` has no "Attack" column and reading it raises KeyError. */
  method GenerateCustom(attack: seq<string>) returns (r: Result<seq<nat>>)
    ensures r.Failure? <==> Selection(attack) == {}
    ensures r.Failure? ==> r.error == KeyError
    ensures r.Success? ==> StrictlyIncreasing(r.value)
    ensures r.Success? ==> forall x :: x in r.value <==> x in Selection(attack)
  {
    var custom: seq<nat> := [];
    var added: set<nat> := {};
    ghost var done: seq<nat> := [];
    var labels := AttackLabels(attack);
    var li := 0;
    while li < |labels|
      invariant li <= |labels|
      invariant Bookkeeping(attack, custom, added, done, labels[..li], [])
    {
      custom, added, done := TakeLabel(attack, labels, li, custom, added, done);
      li := li + 1;
    }
    assert labels[..li] == labels;
    assert forall x :: x in done <==> Chosen(attack, x);
    CoveredIsSelection(attack, done);
    if custom == [] {
      assert forall y :: y !in added;
      return Failure(KeyError);
    }
    assert custom[0] in added;
    r := Success(SortIndex(custom));
    assert forall x :: x in r.value <==> x in multiset(custom);
  }

  /** The body of `for label in attacks`: the first rows of one label, each
      with its benign neighbours. */
  method TakeLabel(attack: seq<string>, labels: seq<string>, li: nat, custom: seq<nat>, added: set<nat>, ghost done: seq<nat>)
    returns (custom': seq<nat>, added': set<nat>, ghost done': seq<nat>)
    requires labels == AttackLabels(attack) && li < |labels|
    requires Bookkeeping(attack, custom, added, done, labels[..li], [])
    ensures Bookkeeping(attack, custom', added', done', labels[..li + 1], [])
    ensures |custom| <= |custom'| && custom'[..|custom|] == custom
  {
    custom', added', done' := custom, added, done;
    var name := labels[li];
    assert name in labels;
    var attackRows := FirstRows(attack, name);
    var mi := 0;
    while mi < |attackRows|
      invariant mi <= |attackRows|
      invariant Bookkeeping(attack, custom', added', done', labels[..li], attackRows[..mi])
      invariant |custom| <= |custom'| && custom'[..|custom|] == custom
    {
      var idx := attackRows[mi];
      assert idx in attackRows;
      AddAttackRow(attack, labels, li, attackRows, mi, added');
      ghost var (custom0, added0) := (custom', added');
      custom', added' := TakeAttackRow(attack, idx, custom', added');
      assert custom'[..|custom|] == custom'[..|custom0|][..|custom|];
      StepBookkeeping(attack, custom0, added0, done', labels[..li], attackRows, mi, custom', added');
      done' := done' + [idx];
      mi := mi + 1;
    }
    assert attackRows[..mi] == attackRows;
    FinishLabel(attack, labels, li, custom', added', done');
  }

  /** Processing one more attack row keeps the bookkeeping, with the row
      counted among the current label's rows. */
  lemma StepBookkeeping(attack: seq<string>, custom: seq<nat>, added: set<nat>, done: seq<nat>,
                        names: seq<string>, rows: seq<nat>, mi: nat, custom': seq<nat>, added': set<nat>)
    requires mi < |rows| && rows[mi] < |attack|
    requires Bookkeeping(attack, custom, added, done, names, rows[..mi])
    requires var idx := rows[mi];
      added' == added + {idx} + Neighbours(attack, idx)
    requires forall y :: y in custom' <==> y in added'
    requires Distinct(custom')
    ensures Bookkeeping(attack, custom', added', done + [rows[mi]], names, rows[..mi + 1])
  {
    var idx := rows[mi];
    var done' := done + [idx];
    assert done'[..|done|] == done;
    assert Covered(attack, done') == added';
    assert rows[..mi + 1] == rows[..mi] + [idx];
    forall x | x in done'
      ensures (0 <= x < |attack| && attack[x] in names && Rank(attack, x) < ATTACK_SAMPLES) || x in rows[..mi + 1]
    {
      if x != idx {
        assert x in done;
      }
    }
    forall y | y in added'
      ensures y < |attack| && (attack[y] == BENIGN || attack[y] in names || y in rows[..mi + 1])
    {
      if y in added {
        assert y < |attack| && (attack[y] == BENIGN || attack[y] in names || y in rows[..mi]);
      }
    }
  }

  /** Once all first rows of a label are processed, the label counts as done. */
  lemma FinishLabel(attack: seq<string>, labels: seq<string>, li: nat, custom: seq<nat>, added: set<nat>, done: seq<nat>)
    requires li < |labels|
    requires Bookkeeping(attack, custom, added, done, labels[..li], FirstRows(attack, labels[li]))
    ensures Bookkeeping(attack, custom, added, done, labels[..li + 1], [])
  {
    FinishedRows(attack, labels, li, done);
    FinishedAdded(attack, labels, li, added);
  }

  /** The processed attack rows: with the first rows of label li done, they
      are the low-rank rows of the labels up to li. */
  lemma FinishedRows(attack: seq<string>, labels: seq<string>, li: nat, done: seq<nat>)
    requires li < |labels|
    requires forall x :: x in done <==>
      (0 <= x < |attack| && attack[x] in labels[..li] && Rank(attack, x) < ATTACK_SAMPLES) || x in FirstRows(attack, labels[li])
    ensures forall x :: x in done <==>
      (0 <= x < |attack| && attack[x] in labels[..li + 1] && Rank(attack, x) < ATTACK_SAMPLES) || x in []
  {
    var name := labels[li];
    var names := labels[..li + 1];
    assert names == labels[..li] + [name];
    forall x | x in done
      ensures 0 <= x < |attack| && attack[x] in names && Rank(attack, x) < ATTACK_SAMPLES
    {
      if x in FirstRows(attack, name) {
        FirstRowsAreLowRank(attack, name, x);
      }
    }
    forall x | 0 <= x < |attack| && attack[x] in names && Rank(attack, x) < ATTACK_SAMPLES
      ensures x in done
    {
      if attack[x] == name {
        FirstRowsAreLowRank(attack, name, x);
      } else {
        assert attack[x] in labels[..li];
      }
    }
  }

  /** The added rows: with the first rows of label li done, each is benign
      or carries one of the labels up to li. */
  lemma FinishedAdded(attack: seq<string>, labels: seq<string>, li: nat, added: set<nat>)
    requires li < |labels|
    requires forall y :: y in added ==>
      y < |attack| && (attack[y] == BENIGN || attack[y] in labels[..li] || y in FirstRows(attack, labels[li]))
    ensures forall y :: y in added ==>
      y < |attack| && (attack[y] == BENIGN || attack[y] in labels[..li + 1] || y in [])
  {
    assert labels[..li + 1] == labels[..li] + [labels[li]];
  }

  /** `for bg_idx in rows: if bg_idx not in added_indices: ...`: every row
      not yet added is appended once and recorded. */
  method AppendNew(rows: seq<nat>, custom: seq<nat>, added: set<nat>) returns (custom': seq<nat>, added': set<nat>)
    requires forall y :: y in custom <==> y in added
    requires Distinct(custom)
    ensures added' == added + (set b | b in rows)
    ensures forall y :: y in custom' <==> y in added'
    ensures Distinct(custom')
    ensures |custom| <= |custom'| && custom'[..|custom|] == custom
  {
    custom', added' := custom, added;
    var k := 0;
    while k < |rows|
      invariant k <= |rows|
      invariant added' == added + (set b | b in rows[..k])
      invariant forall y :: y in custom' <==> y in added'
      invariant Distinct(custom')
      invariant |custom| <= |custom'| && custom'[..|custom|] == custom
    {
      if rows[k] !in added' {
        custom' := custom' + [rows[k]];
        added' := added' + {rows[k]};
      }
      assert rows[..k + 1] == rows[..k] + [rows[k]];
      k := k + 1;
    }
    assert rows[..k] == rows;
  }

  /** The body of `for idx in attack_mask.index`: the attack row itself, then
      its benign rows before, then its benign rows after. */
  method TakeAttackRow(attack: seq<string>, idx: nat, custom: seq<nat>, added: set<nat>) returns (custom': seq<nat>, added': set<nat>)
    requires idx < |attack| && idx !in added
    requires forall y :: y in custom <==> y in added
    requires Distinct(custom)
    ensures added' == added + {idx} + Neighbours(attack, idx)
    ensures forall y :: y in custom' <==> y in added'
    ensures Distinct(custom')
    ensures |custom| < |custom'| && custom'[..|custom|] == custom && custom'[|custom|] == idx
  {
    var c0, a0 := custom + [idx], added + {idx};
    var c1, a1 := AppendNew(BenignBefore(attack, idx), c0, a0);
    custom', added' := AppendNew(BenignAfter(attack, idx), c1, a1);
    assert custom'[..|c0|] == c0 by {
      assert custom'[..|c0|] == custom'[..|c1|][..|c0|];
    }
    assert custom'[..|custom|] == c0[..|custom|];
    assert c0[..|custom|] == custom && c0[|custom|] == idx;
    assert custom'[|custom|] == c0[|custom|];
    NeighbourLists(attack, idx);
  }

  /** The attack row about to be appended has not been added before: earlier
      rows of other labels differ in label, earlier rows of this label come
      earlier in the table, and neighbours are benign. */
  lemma AddAttackRow(attack: seq<string>, labels: seq<string>, li: nat, attackRows: seq<nat>, mi: nat, added: set<nat>)
    requires Distinct(labels) && li < |labels| && labels[li] != BENIGN
    requires attackRows == FirstRows(attack, labels[li]) && mi < |attackRows|
    requires forall y :: y in added ==> y < |attack| && (attack[y] == BENIGN || attack[y] in labels[..li] || y in attackRows[..mi])
    ensures attackRows[mi] !in added
  {
    var idx := attackRows[mi];
    assert idx in attackRows;
    assert attack[idx] == labels[li];
    assert attack[idx] !in labels[..li] by {
      forall j | 0 <= j < li ensures labels[..li][j] != labels[li] { }
    }
    assert idx !in attackRows[..mi] by {
      forall j | 0 <= j < mi ensures attackRows[..mi][j] < idx { }
    }
  }

  /** The two `loc` slices together hold exactly the benign neighbours. */
  lemma NeighbourLists(attack: seq<string>, idx: nat)
    requires idx < |attack|
    ensures (set b | b in BenignBefore(attack, idx)) + (set b | b in BenignAfter(attack, idx)) == Neighbours(attack, idx)
  {
  }
}
