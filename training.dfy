/** The training-loop controller. The network, the loss and the optimizer are
    abstracted: each batch yields a real loss (an input), each training batch
    moves the weights by one opaque optimizer step, and every hook that fires
    is appended to an event trace. */
module Training {
  import opened Wrappers
  import opened EarlyStoppingPolicy

  /** Hook events, in the order they fire, plus the two calls `test` makes on
      its metric object. */
  datatype Event =
    | BeforeTrain | AfterTrain
    | BeforeEpoch | AfterEpoch
    | BeforeBatch | AfterBatch
    | BeforeValidation | AfterValidation
    | BeforeTest | AfterTest
    | MetricStep(batch: nat) | MetricApply

  /** `losses(p, k)` is the loss of batch k in pass p over a loader. */
  type Losses = (nat, nat) -> real

  /** The sum of the losses of the first n batches of pass p. */
  function Sum(losses: Losses, pass: nat, n: nat): real
  {
    if n == 0 then 0.0 else Sum(losses, pass, n - 1) + losses(pass, n - 1)
  }

  /** The weights after n optimizer steps. */
  function Iterate<W>(step: W -> W, w: W, n: nat): W
  {
    if n == 0 then w else step(Iterate(step, w, n - 1))
  }

  /** The hooks fired by n training batches: each fires before and after. */
  function BatchEvents(n: nat): (r: seq<Event>)
    ensures |r| == 2 * n
  {
    if n == 0 then [] else BatchEvents(n - 1) + [BeforeBatch, AfterBatch]
  }

  /** The batch hooks alternate, BEFORE_BATCH at even positions and
      AFTER_BATCH at odd ones, so no batch starts before the previous one
      has ended. */
  lemma {:induction false} BatchEventsAlternate(n: nat)
    ensures forall i :: 0 <= i < 2 * n ==> BatchEvents(n)[i] == if i % 2 == 0 then BeforeBatch else AfterBatch
  {
    if n > 0 {
      BatchEventsAlternate(n - 1);
      var prev := BatchEvents(n - 1);
      forall i | 0 <= i < 2 * n
        ensures BatchEvents(n)[i] == if i % 2 == 0 then BeforeBatch else AfterBatch
      {
        if i < 2 * (n - 1) {
          assert BatchEvents(n)[i] == prev[i];
        }
      }
    }
  }

  // ---------------------------------------------------------------------------
  // One epoch, one validation pass, one test pass, as values
  // ---------------------------------------------------------------------------

  /** Whether `train_one_epoch` raises: `epoch_steps` larger than the loader
      (ValueError), or a division of the summed loss by a zero count. */
  predicate EpochFails(loaderLength: nat, epochSteps: Option<int>)
  {
    match epochSteps
    case None => loaderLength == 0
    case Some(steps) => steps > loaderLength || steps == 0
  }

  /** How many batches `train_one_epoch` runs: the whole loader, or the
      first `epoch_steps` batches (none when the check fails; `range` of a
      negative count is empty). */
  function EpochBatches(loaderLength: nat, epochSteps: Option<int>): (n: nat)
    ensures n <= loaderLength
  {
    match epochSteps
    case None => loaderLength
    case Some(steps) => if steps > loaderLength || steps < 0 then 0 else steps
  }

  /** What `train_one_epoch` returns: the summed batch losses divided by the
      loader length, or by `epoch_steps` when that is given. */
  function EpochOutcome(loaderLength: nat, epochSteps: Option<int>, losses: Losses, pass: nat): Result<real>
  {
    if EpochFails(loaderLength, epochSteps) then
      if epochSteps.Some? && epochSteps.value > loaderLength then Failure(ValueError) else Failure(ZeroDivisionError)
    else
      var divisor := if epochSteps.None? then loaderLength else epochSteps.value;
      Success(Sum(losses, pass, EpochBatches(loaderLength, epochSteps)) / divisor as real)
  }

  /** The hooks `train_one_epoch` fires: BEFORE_EPOCH first (even when it then
      raises), one pair per batch, and AFTER_EPOCH only when it returns. */
  function EpochTrace(loaderLength: nat, epochSteps: Option<int>): seq<Event>
  {
    [BeforeEpoch] + BatchEvents(EpochBatches(loaderLength, epochSteps))
      + (if EpochFails(loaderLength, epochSteps) then [] else [AfterEpoch])
  }

  /** The hooks of one epoch, grouped as `train_one_epoch` fires them. */
  lemma EpochTraceParts(before: seq<Event>, loaderLength: nat, epochSteps: Option<int>)
    ensures var batches := BatchEvents(EpochBatches(loaderLength, epochSteps));
      && (EpochFails(loaderLength, epochSteps) ==>
            before + [BeforeEpoch] + batches == before + EpochTrace(loaderLength, epochSteps))
      && (!EpochFails(loaderLength, epochSteps) ==>
            before + [BeforeEpoch] + batches + [AfterEpoch] == before + EpochTrace(loaderLength, epochSteps))
  {
  }

  /** `epoch_steps` batches of a loader that has at least that many: exactly
      that many batches run and the epoch loss is their mean; more steps than
      batches raise ValueError after BEFORE_EPOCH and before any batch;
      without `epoch_steps` the whole loader runs. */
  lemma EpochRunsRequestedBatches(loaderLength: nat, epochSteps: Option<int>, losses: Losses, pass: nat)
    ensures epochSteps.Some? && 0 < epochSteps.value <= loaderLength ==>
      && EpochOutcome(loaderLength, epochSteps, losses, pass)
           == Success(Sum(losses, pass, epochSteps.value) / epochSteps.value as real)
      && EpochTrace(loaderLength, epochSteps)
           == [BeforeEpoch] + BatchEvents(epochSteps.value) + [AfterEpoch]
    ensures epochSteps.Some? && epochSteps.value > loaderLength ==>
      && EpochOutcome(loaderLength, epochSteps, losses, pass) == Failure(ValueError)
      && EpochTrace(loaderLength, epochSteps) == [BeforeEpoch]
    ensures epochSteps.None? && loaderLength > 0 ==>
      && EpochOutcome(loaderLength, epochSteps, losses, pass)
           == Success(Sum(losses, pass, loaderLength) / loaderLength as real)
      && EpochTrace(loaderLength, epochSteps)
           == [BeforeEpoch] + BatchEvents(loaderLength) + [AfterEpoch]
  {
  }

  /** What `validate` returns: the mean batch loss, or ZeroDivisionError for
      an empty loader. */
  function ValidationOutcome(loaderLength: nat, losses: Losses, pass: nat): Result<real>
  {
    if loaderLength == 0 then Failure(ZeroDivisionError)
    else Success(Sum(losses, pass, loaderLength) / loaderLength as real)
  }

  /** The hooks `validate` fires (validation batches fire none). */
  function ValidationTrace(loaderLength: nat): seq<Event>
  {
    if loaderLength == 0 then [BeforeValidation] else [BeforeValidation, AfterValidation]
  }

  /** `metric.step` once per batch, in batch order. */
  function MetricSteps(n: nat): (r: seq<Event>)
    ensures |r| == n
    ensures forall k :: 0 <= k < n ==> r[k] == MetricStep(k)
  {
    if n == 0 then [] else MetricSteps(n - 1) + [MetricStep(n - 1)]
  }

  /** The events of a `test` pass that has a metric. */
  function TestTrace(loaderLength: nat): seq<Event>
  {
    [BeforeTest] + MetricSteps(loaderLength) + [MetricApply, AfterTest]
  }

  /** One more `metric.step` extends the steps fired so far. */
  lemma MetricStepAppends(before: seq<Event>, k: nat)
    ensures before + MetricSteps(k) + [MetricStep(k)] == before + MetricSteps(k + 1)
  {
  }

  /** The events of `test`, regrouped as its loop appends them. */
  lemma TestTraceRegroups(before: seq<Event>, n: nat)
    ensures before + [BeforeTest] + MetricSteps(n) + [MetricApply] + [AfterTest] == before + TestTrace(n)
  {
  }

  // ---------------------------------------------------------------------------
  // The training loop as a value
  // ---------------------------------------------------------------------------

  /** The arguments of `train`. A missing loader is `None`; `Some(0)` is a
      loader with no batches. */
  datatype TrainConfig = TrainConfig(
    nEpoch: int,
    trainLength: nat,
    epochSteps: Option<int>,
    epochsUntilValidation: Option<int>,
    validLength: Option<nat>,
    patience: Option<int>,
    delta: Option<real>)

  /** `if valid_data_loader and epochs_until_validation`: a DataLoader is
      falsy when it has no batches, and a period of 0 is falsy. */
  predicate ValidationEnabled(c: TrainConfig)
  {
    c.validLength.Some? && c.validLength.value > 0
    && c.epochsUntilValidation.Some? && c.epochsUntilValidation.value != 0
  }

  /** Whether `train` validates after the epoch with index `epoch`. Python's
      `%` and Dafny's agree on whether a remainder is zero, whatever the
      signs. The last epoch is always validated when validation is on. */
  predicate ValidationDue(c: TrainConfig, epoch: nat)
    ensures ValidationEnabled(c) && epoch + 1 == c.nEpoch ==> ValidationDue(c, epoch)
  {
    ValidationEnabled(c)
    && ((epoch + 1) % c.epochsUntilValidation.value == 0 || epoch + 1 == c.nEpoch)
  }

  /** `early_stopping` is bound only when both patience and delta are given. */
  predicate HasStopper(c: TrainConfig)
  {
    c.patience.Some? && c.delta.Some?
  }

  /** The state of `train` between epochs. */
  datatype Progress<W> = Progress(
    trace: seq<Event>,       // hooks fired since BEFORE_TRAIN
    lossSum: real,           // train_loss before the final division
    epochs: nat,             // epochs completed
    weights: W,              // the model's weights
    stop: StopState,         // the early-stopping state
    checkpoint: Option<W>,   // the saved checkpoint
    stopped: bool,           // the loop was left by `break`
    error: Option<PyError>)  // an exception escaped

  predicate Running<W>(p: Progress<W>)
  {
    !p.stopped && p.error.None?
  }

  function Start<W>(w0: W): Progress<W>
  {
    Progress([], 0.0, 0, w0, Initial, None, false, None)
  }

  /** The mean training loss of the epoch with index `epoch`. */
  function EpochMean(c: TrainConfig, trainLoss: Losses, epoch: nat): real
    requires !EpochFails(c.trainLength, c.epochSteps)
  {
    EpochOutcome(c.trainLength, c.epochSteps, trainLoss, epoch).value
  }

  /** The validation loss after the epoch with index `epoch`. */
  function ValidationMean(c: TrainConfig, validLoss: Losses, epoch: nat): real
    requires ValidationEnabled(c)
  {
    ValidationOutcome(c.validLength.value, validLoss, epoch).value
  }

  /** One iteration of the epoch loop of `train`. */
  function EpochStep<W>(c: TrainConfig, trainLoss: Losses, validLoss: Losses, step: W -> W, epoch: nat, p: Progress<W>): Progress<W>
  {
    var trace := p.trace + EpochTrace(c.trainLength, c.epochSteps);
    var weights := Iterate(step, p.weights, EpochBatches(c.trainLength, c.epochSteps));
    if EpochFails(c.trainLength, c.epochSteps) then
      p.(trace := trace, weights := weights,
         error := Some(EpochOutcome(c.trainLength, c.epochSteps, trainLoss, epoch).error))
    else
      var lossSum := p.lossSum + EpochMean(c, trainLoss, epoch);
      if !ValidationDue(c, epoch) then
        p.(trace := trace, lossSum := lossSum, epochs := p.epochs + 1, weights := weights)
      else
        var validated := trace + ValidationTrace(c.validLength.value);
        if !HasStopper(c) then
          p.(trace := validated, lossSum := lossSum, epochs := p.epochs + 1, weights := weights,
             error := Some(UnboundLocalError))
        else
          var loss := ValidationMean(c, validLoss, epoch);
          var stop := Next(p.stop, c.patience.value, c.delta.value, loss);
          var checkpoint := if Saves(p.stop, c.delta.value, loss) then Some(weights) else p.checkpoint;
          var restored := if stop.earlyStop && checkpoint.Some? then checkpoint.value else weights;
          Progress(validated, lossSum, p.epochs + 1, restored, stop, checkpoint, stop.earlyStop, None)
  }

  /** The state after the loop has been entered `e` times (or fewer, when
      it stopped or raised earlier). */
  function After<W>(c: TrainConfig, trainLoss: Losses, validLoss: Losses, step: W -> W, w0: W, e: nat): Progress<W>
  {
    if e == 0 then Start(w0)
    else
      var p := After(c, trainLoss, validLoss, step, w0, e - 1);
      if Running(p) then EpochStep(c, trainLoss, validLoss, step, e - 1, p) else p
  }

  /** How often the epoch loop is entered: `range(n_epoch)` is empty when
      n_epoch is not positive. */
  function LoopEntries(c: TrainConfig): nat
  {
    if c.nEpoch <= 0 then 0 else c.nEpoch as nat
  }

  /** The stopper `train` created (none when patience or delta is missing)
      holds the early-stopping state and checkpoint of the loop state p. */
  ghost predicate StopperAt<W>(c: TrainConfig, stopper: EarlyStopping?<W>, p: Progress<W>)
    reads stopper
  {
    && (stopper != null <==> HasStopper(c))
    && (stopper != null ==>
          && stopper.Valid() && stopper.patience == c.patience.value && stopper.delta == c.delta.value
          && stopper.State() == p.stop && stopper.checkpoint == p.checkpoint)
  }

  /** What `train` produces: its return value or exception, the hooks fired,
      and the model's weights afterwards. */
  datatype TrainRun<W> = TrainRun(result: Result<real>, trace: seq<Event>, weights: W)

  /** `train` as a value. With no epoch to run, `epoch` is never bound and
      `train_loss /= epoch + 1` raises UnboundLocalError. */
  function TrainSpec<W>(c: TrainConfig, trainLoss: Losses, validLoss: Losses, step: W -> W, w0: W): TrainRun<W>
  {
    if c.nEpoch <= 0 then TrainRun(Failure(UnboundLocalError), [BeforeTrain], w0)
    else
      var p := After(c, trainLoss, validLoss, step, w0, c.nEpoch as nat);
      if p.error.Some? then TrainRun(Failure(p.error.value), [BeforeTrain] + p.trace, p.weights)
      else
        AfterCountsEpochs(c, trainLoss, validLoss, step, w0, c.nEpoch as nat);
        TrainRun(Success(p.lossSum / p.epochs as real), [BeforeTrain] + p.trace + [AfterTrain], p.weights)
  }

  /** The sum of the mean losses of the first n epochs. */
  function SumOfEpochMeans(c: TrainConfig, trainLoss: Losses, n: nat): real
    requires !EpochFails(c.trainLength, c.epochSteps)
  {
    if n == 0 then 0.0 else SumOfEpochMeans(c, trainLoss, n - 1) + EpochMean(c, trainLoss, n - 1)
  }

  /** Bookkeeping of the loop: after e entries at most e epochs completed,
      exactly e while still running; the loss sum is the sum of the epoch
      means; a checkpoint exists once a best score does; a break happens only
      on a stop signal, after a validation. */
  lemma {:induction false} AfterCountsEpochs<W>(c: TrainConfig, trainLoss: Losses, validLoss: Losses, step: W -> W, w0: W, e: nat)
    ensures var p := After(c, trainLoss, validLoss, step, w0, e);
      && p.epochs <= e
      && (Running(p) ==> p.epochs == e)
      && (p.error.None? && e > 0 ==> p.epochs > 0)
      && (p.error.None? ==> !EpochFails(c.trainLength, c.epochSteps) || e == 0)
      && (p.error.None? && !EpochFails(c.trainLength, c.epochSteps) ==> p.lossSum == SumOfEpochMeans(c, trainLoss, p.epochs))
      && (p.stop.bestScore.Some? ==> p.checkpoint.Some?)
      && (p.stop.earlyStop ==> p.stop.bestScore.Some?)
      && (p.stopped ==> p.error.None? && p.epochs > 0 && ValidationDue(c, p.epochs - 1))
      && (p.stopped ==> HasStopper(c) && p.stop.earlyStop && p.checkpoint.Some? && p.weights == p.checkpoint.value)
  {
    if e > 0 {
      AfterCountsEpochs(c, trainLoss, validLoss, step, w0, e - 1);
    }
  }

  /** Once the loop has stopped or raised, nothing changes any more. */
  lemma {:induction false} AfterIsStable<W>(c: TrainConfig, trainLoss: Losses, validLoss: Losses, step: W -> W, w0: W, e: nat, e': nat)
    requires e <= e'
    requires !Running(After(c, trainLoss, validLoss, step, w0, e))
    ensures After(c, trainLoss, validLoss, step, w0, e') == After(c, trainLoss, validLoss, step, w0, e)
    decreases e' - e
  {
    if e < e' {
      AfterIsStable(c, trainLoss, validLoss, step, w0, e, e' - 1);
    }
  }

  /** TrainSpec read off the loop state once the loop has ended, either
      after its last epoch or by a break or an exception at entry e. */
  lemma TrainSpecAtExit<W>(c: TrainConfig, trainLoss: Losses, validLoss: Losses, step: W -> W, w0: W, e: nat)
    requires 0 < c.nEpoch && e <= c.nEpoch
    requires e == c.nEpoch || !Running(After(c, trainLoss, validLoss, step, w0, e))
    ensures var p := After(c, trainLoss, validLoss, step, w0, e);
      && (p.error.Some? ==> TrainSpec(c, trainLoss, validLoss, step, w0) == TrainRun(Failure(p.error.value), [BeforeTrain] + p.trace, p.weights))
      && (p.error.None? ==> p.epochs > 0)
      && (p.error.None? ==>
            TrainSpec(c, trainLoss, validLoss, step, w0)
              == TrainRun(Success(p.lossSum / p.epochs as real), [BeforeTrain] + p.trace + [AfterTrain], p.weights))
  {
    if e < c.nEpoch {
      AfterIsStable(c, trainLoss, validLoss, step, w0, e, c.nEpoch as nat);
    }
    AfterCountsEpochs(c, trainLoss, validLoss, step, w0, e);
  }

  /** The hooks `train` fires, regrouped around the epoch loop's own. */
  lemma TraceRegroups(before: seq<Event>, loop: seq<Event>)
    ensures before + [BeforeTrain] + loop == before + ([BeforeTrain] + loop)
    ensures before + [BeforeTrain] + loop + [AfterTrain] == before + ([BeforeTrain] + loop + [AfterTrain])
  {
  }

  /** `train` returns the mean of the epoch losses over the epochs actually
      run, which are at least one and at most n_epoch; fewer than n_epoch
      only when early stopping fired after a validation of the last epoch
      run, and then the weights are the checkpointed ones. */
  lemma TrainAveragesEpochsRun<W>(c: TrainConfig, trainLoss: Losses, validLoss: Losses, step: W -> W, w0: W)
    requires TrainSpec(c, trainLoss, validLoss, step, w0).result.Success?
    ensures var p := After(c, trainLoss, validLoss, step, w0, c.nEpoch as nat);
      && 1 <= p.epochs <= c.nEpoch
      && !EpochFails(c.trainLength, c.epochSteps)
      && TrainSpec(c, trainLoss, validLoss, step, w0).result.value
           == SumOfEpochMeans(c, trainLoss, p.epochs) / p.epochs as real
      && (p.epochs < c.nEpoch ==>
            p.stopped && ValidationDue(c, p.epochs - 1) && p.stop.earlyStop
            && p.checkpoint.Some? && TrainSpec(c, trainLoss, validLoss, step, w0).weights == p.checkpoint.value)
  {
    AfterCountsEpochs(c, trainLoss, validLoss, step, w0, c.nEpoch as nat);
  }

  /** Without validation and with a valid `epoch_steps`, every one of the
      n_epoch epochs runs. */
  lemma {:induction false} NoValidationRunsAllEpochs<W>(c: TrainConfig, trainLoss: Losses, validLoss: Losses, step: W -> W, w0: W, e: nat)
    requires !ValidationEnabled(c) && !EpochFails(c.trainLength, c.epochSteps)
    ensures var p := After(c, trainLoss, validLoss, step, w0, e);
      Running(p) && p.epochs == e && p.lossSum == SumOfEpochMeans(c, trainLoss, e)
      && p.trace == AllEpochsTrace(c, e)
  {
    if e > 0 {
      NoValidationRunsAllEpochs(c, trainLoss, validLoss, step, w0, e - 1);
    }
  }

  /** The hooks of e epochs with no validation. */
  function AllEpochsTrace(c: TrainConfig, e: nat): seq<Event>
  {
    if e == 0 then [] else AllEpochsTrace(c, e - 1) + EpochTrace(c.trainLength, c.epochSteps)
  }

  /** BEFORE_TRAIN fires first, always; AFTER_TRAIN fires last exactly when
      `train` returns, and never anywhere else. */
  lemma TrainTraceBrackets<W>(c: TrainConfig, trainLoss: Losses, validLoss: Losses, step: W -> W, w0: W)
    ensures var run := TrainSpec(c, trainLoss, validLoss, step, w0);
      && |run.trace| >= 1 && run.trace[0] == BeforeTrain
      && (run.result.Success? <==> run.trace[|run.trace| - 1] == AfterTrain)
      && (forall i :: 0 <= i < |run.trace| - 1 ==> run.trace[i] != AfterTrain)
  {
    if c.nEpoch > 0 {
      NoAfterTrainInLoop(c, trainLoss, validLoss, step, w0, c.nEpoch as nat);
    }
  }

  lemma {:induction false} NoAfterTrainInLoop<W>(c: TrainConfig, trainLoss: Losses, validLoss: Losses, step: W -> W, w0: W, e: nat)
    ensures AfterTrain !in After(c, trainLoss, validLoss, step, w0, e).trace
  {
    if e > 0 {
      NoAfterTrainInLoop(c, trainLoss, validLoss, step, w0, e - 1);
      var n := EpochBatches(c.trainLength, c.epochSteps);
      BatchEventsAlternate(n);
      assert AfterTrain !in BatchEvents(n);
    }
  }

  /** A stop signal always ends the loop: without an exception, the stopper
      has signalled exactly when the loop was left by `break`, and then the
      weights are the checkpointed ones. So while the loop runs, no stop
      signal is pending. */
  lemma {:induction false} StopSignalBreaks<W>(c: TrainConfig, trainLoss: Losses, validLoss: Losses, step: W -> W, w0: W, e: nat)
    ensures var p := After(c, trainLoss, validLoss, step, w0, e);
      && (p.error.None? ==> (p.stop.earlyStop <==> p.stopped))
      && (p.error.None? && p.stop.earlyStop ==> p.checkpoint.Some? && p.weights == p.checkpoint.value)
      && (Running(p) ==> !p.stop.earlyStop)
  {
    AfterCountsEpochs(c, trainLoss, validLoss, step, w0, e);
    if e > 0 {
      StopSignalBreaks(c, trainLoss, validLoss, step, w0, e - 1);
    }
  }

  /** One more loop entry while running: the epoch's hooks, then the
      validation hooks exactly when validation is due after that epoch
      (every `epochs_until_validation` epochs and after the last one). */
  lemma EpochStepTrace<W>(c: TrainConfig, trainLoss: Losses, validLoss: Losses, step: W -> W, w0: W, e: nat)
    requires Running(After(c, trainLoss, validLoss, step, w0, e))
    requires !EpochFails(c.trainLength, c.epochSteps)
    ensures After(c, trainLoss, validLoss, step, w0, e + 1).trace
      == After(c, trainLoss, validLoss, step, w0, e).trace + EpochTrace(c.trainLength, c.epochSteps)
         + (if ValidationDue(c, e) then ValidationTrace(c.validLength.value) else [])
  {
  }

  /** The hooks of the first e epochs under the validation schedule. */
  function ScheduledTrace(c: TrainConfig, e: nat): seq<Event>
  {
    if e == 0 then []
    else
      ScheduledTrace(c, e - 1) + EpochTrace(c.trainLength, c.epochSteps)
      + (if ValidationDue(c, e - 1) then ValidationTrace(c.validLength.value) else [])
  }

  /** Unless an exception escaped, the hooks fired by the loop are those of
      the epochs completed, each followed by a validation exactly when one
      was due after it, whether the loop ran to the end or broke early. */
  lemma {:induction false} TraceFollowsSchedule<W>(c: TrainConfig, trainLoss: Losses, validLoss: Losses, step: W -> W, w0: W, e: nat)
    ensures var p := After(c, trainLoss, validLoss, step, w0, e);
      p.error.None? ==> p.trace == ScheduledTrace(c, p.epochs)
  {
    if e > 0 {
      TraceFollowsSchedule(c, trainLoss, validLoss, step, w0, e - 1);
      var p := After(c, trainLoss, validLoss, step, w0, e - 1);
      if Running(p) {
        RunningCountsEpochs(c, trainLoss, validLoss, step, w0, e - 1);
        EpochStepSchedule(c, trainLoss, validLoss, step, p, e - 1);
      }
    }
  }

  /** While the loop runs, every entry so far completed its epoch. */
  lemma RunningCountsEpochs<W>(c: TrainConfig, trainLoss: Losses, validLoss: Losses, step: W -> W, w0: W, e: nat)
    requires Running(After(c, trainLoss, validLoss, step, w0, e))
    ensures After(c, trainLoss, validLoss, step, w0, e).epochs == e
  {
    AfterCountsEpochs(c, trainLoss, validLoss, step, w0, e);
  }

  /** One loop entry from a state that follows the schedule keeps following
      it, unless it raised. */
  lemma EpochStepSchedule<W>(c: TrainConfig, trainLoss: Losses, validLoss: Losses, step: W -> W, p: Progress<W>, epoch: nat)
    requires p.epochs == epoch && p.trace == ScheduledTrace(c, epoch)
    ensures var q := EpochStep(c, trainLoss, validLoss, step, epoch, p);
      q.error.None? ==> q.trace == ScheduledTrace(c, q.epochs)
  {
  }

  // ---------------------------------------------------------------------------
  // The Trainer object
  // ---------------------------------------------------------------------------

  class Trainer<W> {
    /** The model's weights (`state_dict()`). */
    var weights: W
    /** The hooks fired so far, in order. */
    var trace: seq<Event>
    /** The effect of one zero_grad / forward / backward / optimizer step. */
    const optimizerStep: W -> W

    constructor (weights: W, optimizerStep: W -> W)
      ensures this.weights == weights && this.optimizerStep == optimizerStep && trace == []
    {
      this.weights := weights;
      this.optimizerStep := optimizerStep;
      trace := [];
    }

    /** `_train_one_batch`: BEFORE_BATCH, one optimizer step, AFTER_BATCH,
        and the batch's loss is returned. */
    method TrainOneBatch(batchLoss: real) returns (loss: real)
      modifies this`trace, this`weights
      ensures loss == batchLoss
      ensures trace == old(trace) + [BeforeBatch, AfterBatch]
      ensures weights == optimizerStep(old(weights))
    {
      trace := trace + [BeforeBatch];
      weights := optimizerStep(weights);
      trace := trace + [AfterBatch];
      loss := batchLoss;
    }

    /** The batch loop of `train_one_epoch`: the first n batches of pass
        `pass`, each through `_train_one_batch`, summing their losses. */
    method TrainBatches(n: nat, losses: Losses, pass: nat) returns (sum: real)
      modifies this`trace, this`weights
      ensures sum == Sum(losses, pass, n)
      ensures trace == old(trace) + BatchEvents(n)
      ensures weights == Iterate(optimizerStep, old(weights), n)
    {
      sum := 0.0;
      var k: nat := 0;
      while k < n
        invariant k <= n
        invariant sum == Sum(losses, pass, k)
        invariant trace == old(trace) + BatchEvents(k)
        invariant weights == Iterate(optimizerStep, old(weights), k)
      {
        var loss := TrainOneBatch(losses(pass, k));
        sum := sum + loss;
        k := k + 1;
      }
    }

    /** `train_one_epoch` over pass `pass` of a loader of `loaderLength` batches. */
    method TrainOneEpoch(loaderLength: nat, epochSteps: Option<int>, losses: Losses, pass: nat) returns (r: Result<real>)
      modifies this`trace, this`weights
      ensures r == EpochOutcome(loaderLength, epochSteps, losses, pass)
      ensures trace == old(trace) + EpochTrace(loaderLength, epochSteps)
      ensures weights == Iterate(optimizerStep, old(weights), EpochBatches(loaderLength, epochSteps))
    {
      EpochTraceParts(trace, loaderLength, epochSteps);
      trace := trace + [BeforeEpoch];
      var epochLoss;
      if epochSteps.None? {
        epochLoss := TrainBatches(loaderLength, losses, pass);
        if loaderLength == 0 {
          return Failure(ZeroDivisionError);
        }
        epochLoss := epochLoss / loaderLength as real;
      } else {
        var steps := epochSteps.value;
        if steps > loaderLength {
          return Failure(ValueError);
        }
        // `range(steps)` is empty for a negative count
        epochLoss := TrainBatches(if steps < 0 then 0 else steps, losses, pass);
        if steps == 0 {
          return Failure(ZeroDivisionError);
        }
        epochLoss := epochLoss / steps as real;
      }
      trace := trace + [AfterEpoch];
      r := Success(epochLoss);
    }

    /** `validate` over pass `pass` of a loader of `loaderLength` batches. */
    method Validate(loaderLength: nat, losses: Losses, pass: nat) returns (r: Result<real>)
      modifies this`trace
      ensures r == ValidationOutcome(loaderLength, losses, pass)
      ensures trace == old(trace) + ValidationTrace(loaderLength)
    {
      trace := trace + [BeforeValidation];
      var validationLoss := 0.0;
      var k: nat := 0;
      while k < loaderLength
        invariant k <= loaderLength
        invariant validationLoss == Sum(losses, pass, k)
      {
        validationLoss := validationLoss + losses(pass, k);
        k := k + 1;
      }
      if loaderLength == 0 {
        return Failure(ZeroDivisionError);
      }
      validationLoss := validationLoss / loaderLength as real;
      trace := trace + [AfterValidation];
      r := Success(validationLoss);
    }

    /** `test`: without a metric it raises ValueError before any hook fires;
        otherwise `metric.step` once per batch and `metric.apply` once, after
        the last batch. */
    method Test(loaderLength: nat, hasMetric: bool) returns (r: Result<()>)
      modifies this`trace
      ensures r.Failure? <==> !hasMetric
      ensures r.Failure? ==> r.error == ValueError && trace == old(trace)
      ensures r.Success? ==> trace == old(trace) + TestTrace(loaderLength)
    {
      if !hasMetric {
        return Failure(ValueError);
      }
      ghost var start := trace + [BeforeTest];
      trace := trace + [BeforeTest];
      var k: nat := 0;
      while k < loaderLength
        invariant k <= loaderLength
        invariant trace == start + MetricSteps(k)
      {
        MetricStepAppends(start, k);
        trace := trace + [MetricStep(k)];
        k := k + 1;
      }
      TestTraceRegroups(old(trace), loaderLength);
      trace := trace + [MetricApply];
      trace := trace + [AfterTest];
      r := Success(());
    }

    /** One pass through the epoch loop of `train`, from the loop state `p`:
        `status` is the exception that escapes, or whether the loop breaks. */
    method TrainLoopBody(c: TrainConfig, trainLoss: Losses, validLoss: Losses, epoch: nat,
                         stopper: EarlyStopping?<W>, lossSum: real, ghost prefix: seq<Event>, ghost p: Progress<W>)
      returns (status: Result<bool>, newLossSum: real)
      requires Running(p) && trace == prefix + p.trace && lossSum == p.lossSum && weights == p.weights
      requires StopperAt(c, stopper, p)
      modifies this`trace, this`weights, stopper
      ensures var q := EpochStep(c, trainLoss, validLoss, optimizerStep, epoch, p);
        && trace == prefix + q.trace
        && weights == q.weights
        && (status.Failure? <==> q.error.Some?)
        && (status.Failure? ==> status.error == q.error.value)
        && (status.Success? ==> status.value == q.stopped && newLossSum == q.lossSum)
        && (status.Success? ==> q.epochs == p.epochs + 1 && q.error.None?)
        && (status.Success? ==> StopperAt(c, stopper, q))
    {
      newLossSum := lossSum;
      var epochLoss := TrainOneEpoch(c.trainLength, c.epochSteps, trainLoss, epoch);
      if epochLoss.Failure? {
        return Failure(epochLoss.error), newLossSum;
      }
      newLossSum := lossSum + epochLoss.value;
      if ValidationDue(c, epoch) {
        var validationLoss := Validate(c.validLength.value, validLoss, epoch);
        if stopper == null {
          return Failure(UnboundLocalError), newLossSum;
        }
        stopper.Call(validationLoss.value, weights);
        if stopper.earlyStop {
          weights := stopper.checkpoint.value;
          return Success(true), newLossSum;
        }
      }
      status := Success(false);
    }

    /** The epoch loop of `train`, with the stopper `train` created (null
        when it created none): it ends in the state After(n_epoch). */
    method TrainEpochs(c: TrainConfig, trainLoss: Losses, validLoss: Losses, stopper: EarlyStopping?<W>)
      returns (error: Option<PyError>, lossSum: real, epochsRun: nat)
      requires StopperAt(c, stopper, Start(weights))
      modifies this`trace, this`weights, stopper
      ensures var p := After(c, trainLoss, validLoss, optimizerStep, old(weights), LoopEntries(c));
        && trace == old(trace) + p.trace
        && weights == p.weights
        && error == p.error
        && (error.None? ==> lossSum == p.lossSum && epochsRun == p.epochs)
    {
      ghost var w0 := weights;
      ghost var prefix := trace;
      ghost var n := LoopEntries(c);
      lossSum := 0.0;
      epochsRun := 0;
      error := None;
      var epoch: nat := 0;
      while epoch < c.nEpoch
        invariant epoch <= n
        invariant epochsRun == epoch
        invariant var p := After(c, trainLoss, validLoss, optimizerStep, w0, epoch);
          && Running(p)
          && p.epochs == epoch
          && trace == prefix + p.trace
          && lossSum == p.lossSum
          && weights == p.weights
        invariant StopperAt(c, stopper, After(c, trainLoss, validLoss, optimizerStep, w0, epoch))
      {
        ghost var p := After(c, trainLoss, validLoss, optimizerStep, w0, epoch);
        var status;
        status, lossSum := TrainLoopBody(c, trainLoss, validLoss, epoch, stopper, lossSum, prefix, p);
        ghost var q := After(c, trainLoss, validLoss, optimizerStep, w0, epoch + 1);
        assert q == EpochStep(c, trainLoss, validLoss, optimizerStep, epoch, p);
        epoch := epoch + 1;
        epochsRun := epoch;
        if status.Failure? {
          error := Some(status.error);
          break;
        } else if status.value {
          break;
        }
      }
      if epoch < n {
        AfterIsStable(c, trainLoss, validLoss, optimizerStep, w0, epoch, n);
      }
    }

    /** `train`: proved to behave as TrainSpec says. */
    method Train(c: TrainConfig, trainLoss: Losses, validLoss: Losses) returns (r: Result<real>)
      modifies this`trace, this`weights
      ensures var run := TrainSpec(c, trainLoss, validLoss, optimizerStep, old(weights));
        r == run.result && trace == old(trace) + run.trace && weights == run.weights
    {
      ghost var t0 := trace;
      trace := trace + [BeforeTrain];
      var stopper: EarlyStopping?<W> := null;
      if c.patience.Some? && c.delta.Some? {
        stopper := new EarlyStopping(c.patience.value, c.delta.value);
      }
      var error, trainLossSum, epochsRun := TrainEpochs(c, trainLoss, validLoss, stopper);
      if c.nEpoch <= 0 {
        return Failure(UnboundLocalError);
      }
      ghost var p := After(c, trainLoss, validLoss, optimizerStep, old(weights), c.nEpoch as nat);
      TrainSpecAtExit(c, trainLoss, validLoss, optimizerStep, old(weights), c.nEpoch as nat);
      TraceRegroups(t0, p.trace);
      if error.Some? {
        return Failure(error.value);
      }
      r := Success(trainLossSum / epochsRun as real);
      trace := trace + [AfterTrain];
    }
  }
}
