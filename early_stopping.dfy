/** Early stopping: a small state machine that watches validation losses and
    raises a flag once they stop improving for `patience` calls in a row. */
module EarlyStoppingPolicy {
  import opened Wrappers

  /** The state that decides when to stop: `counter`, `best_score` (None
      until the first call) and `early_stop`. */
  datatype StopState = StopState(counter: int, bestScore: Option<real>, earlyStop: bool)

  /** The state `__init__` leaves: counter 0, no best score, not stopping. */
  const Initial: StopState := StopState(0, None, false)

  /** `val_loss_min`, which starts as `np.Inf`. */
  datatype LossBound = Finite(value: real) | Infinity

  /** The branch `score < best_score - best_score * delta`: the new score is
      not a sufficient improvement on the best one. */
  predicate FallsShort(best: real, delta: real, valLoss: real)
  {
    -valLoss < best - best * delta
  }

  /** Whether the call with this loss saves a checkpoint: on the first call,
      and whenever the loss does not fall short of the best score. */
  predicate Saves(s: StopState, delta: real, valLoss: real)
  {
    s.bestScore.None? || !FallsShort(s.bestScore.value, delta, valLoss)
  }

  /** `EarlyStopping.__call__` on the decision state. */
  function Next(s: StopState, patience: int, delta: real, valLoss: real): (t: StopState)
    ensures s.bestScore.None? ==> t == StopState(s.counter, Some(-valLoss), s.earlyStop)
    ensures s.bestScore.Some? && FallsShort(s.bestScore.value, delta, valLoss) ==>
      t.counter == s.counter + 1 && t.bestScore == s.bestScore &&
      t.earlyStop == (s.earlyStop || s.counter + 1 >= patience)
    ensures Saves(s, delta, valLoss) && s.bestScore.Some? ==>
      t == StopState(0, Some(-valLoss), s.earlyStop)
  {
    var score := -valLoss;
    match s.bestScore
    case None => s.(bestScore := Some(score))
    case Some(best) =>
      if score < best - best * delta then
        var counter := s.counter + 1;
        s.(counter := counter, earlyStop := s.earlyStop || counter >= patience)
      else
        s.(bestScore := Some(score), counter := 0)
  }

  /** The state after a sequence of calls, from the initial state. */
  function Run(patience: int, delta: real, losses: seq<real>): StopState
  {
    if losses == [] then Initial
    else Next(Run(patience, delta, losses[..|losses| - 1]), patience, delta, losses[|losses| - 1])
  }

  /** Once set, `early_stop` is never reset; the counter is never negative,
      and a stop is only ever signalled after a best score exists. */
  lemma {:induction false} RunInvariant(patience: int, delta: real, losses: seq<real>, i: nat)
    requires i <= |losses|
    ensures Run(patience, delta, losses[..i]).earlyStop ==> Run(patience, delta, losses).earlyStop
    ensures Run(patience, delta, losses).counter >= 0
    ensures Run(patience, delta, losses).earlyStop ==> Run(patience, delta, losses).bestScore.Some?
    ensures losses != [] ==> Run(patience, delta, losses).bestScore.Some?
    decreases |losses|
  {
    if losses == [] {
      assert losses[..i] == losses;
    } else if i == |losses| {
      assert losses[..i] == losses;
      RunInvariant(patience, delta, losses[..|losses| - 1], i - 1);
    } else {
      var prefix := losses[..|losses| - 1];
      assert prefix[..i] == losses[..i];
      RunInvariant(patience, delta, prefix, i);
    }
  }

  /** Losses that each improve on the previous one by at least the relative
      `delta` never stop training: the counter stays 0 and the best score is
      always the latest. With delta 0 this is any non-increasing sequence,
      so an equal loss counts as an improvement. */
  lemma {:induction false} ImprovingLossesNeverStop(patience: int, delta: real, losses: seq<real>)
    requires losses != []
    requires forall i :: 0 < i < |losses| ==> losses[i] <= losses[i - 1] - losses[i - 1] * delta
    ensures Run(patience, delta, losses) == StopState(0, Some(-losses[|losses| - 1]), false)
    decreases |losses|
  {
    var prefix := losses[..|losses| - 1];
    if prefix != [] {
      ImprovingLossesNeverStop(patience, delta, prefix);
      var previous := prefix[|prefix| - 1];
      var last := losses[|losses| - 1];
      assert previous == losses[|losses| - 2];
      assert last <= previous - previous * delta;
      assert !FallsShort(-previous, delta, last);
    } else {
      assert Run(patience, delta, prefix) == Initial;
    }
  }

  /** A constant positive loss with a positive delta is never a sufficient
      improvement: after k calls the counter is k - 1, and the stop is
      signalled from the call where the counter first reaches patience
      (never on the first call, which only records the best score). */
  lemma {:induction false} ConstantLossStops(patience: int, delta: real, loss: real, k: nat)
    requires loss > 0.0 && delta > 0.0 && k >= 1
    ensures var s := Run(patience, delta, seq(k, _ => loss));
      s.counter == k - 1 && s.bestScore == Some(-loss) && s.earlyStop == (k - 1 >= Max(patience, 1))
  {
    var losses := seq(k, _ => loss);
    if k == 1 {
      assert losses[..0] == [];
    } else {
      assert losses[..k - 1] == seq(k - 1, _ => loss);
      ConstantLossStops(patience, delta, loss, k - 1);
      assert loss * delta > 0.0;
      assert FallsShort(-loss, delta, loss);
    }
  }

  /** A constant loss of zero or below never stops training for a
      non-negative delta: the score `-loss` is never below
      `best_score - best_score * delta`, so every call after the first one
      counts as an improvement. */
  lemma NonPositiveConstantLossNeverStops(patience: int, delta: real, loss: real, k: nat)
    requires loss <= 0.0 && delta >= 0.0 && k >= 1
    ensures var s := Run(patience, delta, seq(k, _ => loss));
      s.counter == 0 && !s.earlyStop
  {
    var losses := seq(k, _ => loss);
    assert loss * delta <= 0.0;
    forall i | 0 < i < |losses|
      ensures losses[i] <= losses[i - 1] - losses[i - 1] * delta
    {
    }
    ImprovingLossesNeverStop(patience, delta, losses);
  }

  /** `EarlyStopping`: `checkpoint` stands for the file
      `checkpoints/checkpoint.pt`, which only this object writes. */
  class EarlyStopping<W> {
    const patience: int
    const delta: real
    var counter: int
    var bestScore: Option<real>
    var earlyStop: bool
    var valLossMin: LossBound
    var checkpoint: Option<W>

    function State(): StopState
      reads this
    {
      StopState(counter, bestScore, earlyStop)
    }

    /** A stop is only signalled after a checkpoint was saved. */
    ghost predicate Valid()
      reads this
    {
      && (earlyStop ==> bestScore.Some?)
      && (bestScore.Some? ==> checkpoint.Some?)
    }

    /** `__init__`. */
    constructor (patience: int, delta: real)
      ensures Valid()
      ensures this.patience == patience && this.delta == delta
      ensures State() == Initial && valLossMin == Infinity && checkpoint == None
    {
      this.patience := patience;
      this.delta := delta;
      counter := 0;
      bestScore := None;
      earlyStop := false;
      valLossMin := Infinity;
      checkpoint := None;
    }

    /** `__call__`: the state moves as `Next` says, and the current model
        weights are saved exactly when `Saves` holds. */
    method Call(valLoss: real, model: W)
      requires Valid()
      modifies this
      ensures Valid()
      ensures State() == Next(old(State()), patience, delta, valLoss)
      ensures Saves(old(State()), delta, valLoss) ==> checkpoint == Some(model) && valLossMin == Finite(valLoss)
      ensures !Saves(old(State()), delta, valLoss) ==> checkpoint == old(checkpoint) && valLossMin == old(valLossMin)
    {
      var score := -valLoss;
      if bestScore.None? {
        bestScore := Some(score);
        SaveCheckpoint(valLoss, model);
      } else if score < bestScore.value - bestScore.value * delta {
        counter := counter + 1;
        if counter >= patience {
          earlyStop := true;
        }
      } else {
        bestScore := Some(score);
        SaveCheckpoint(valLoss, model);
        counter := 0;
      }
    }

    /** `save_checkpoint`: overwrites the single checkpoint. */
    method SaveCheckpoint(valLoss: real, model: W)
      modifies this`checkpoint, this`valLossMin
      ensures checkpoint == Some(model) && valLossMin == Finite(valLoss)
    {
      checkpoint := Some(model);
      valLossMin := Finite(valLoss);
    }
  }
}
