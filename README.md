# NIDS-Framework core, modelled in Dafny

This project models the data-handling and training-control core of
NIDS-Framework, a network intrusion detection system. The system trains a
transformer on windows of consecutive NetFlow records. The model covers five
parts:

- **Window samplers** (`samplers.dfy`). `RandomSlidingWindowSampler` draws
  random window ends. `FairSlidingWindowSampler` alternates windows that end
  at a malicious record with windows that end at a benign one.
- **Tabular dataset** (`tabular_datasets.dfy`). It holds the numeric,
  categorical and label tables. A window of indices becomes the transformed
  feature rows plus the label of the window's last record.
- **Early stopping** (`early_stopping.dfy`). A state machine over validation
  losses that keeps one checkpoint of the best weights.
- **Trainer** (`training.dfy`). It covers `train`, `train_one_epoch`,
  `_train_one_batch`, `validate` and `test`. The network, loss and optimizer
  are abstracted:
  - every batch yields a real loss;
  - every training batch applies one opaque optimizer step to the weights;
  - every hook that fires is appended to an event trace.

  `Train` is proved equal to a pure specification, `TrainSpec`. Its
  properties are proved as lemmas: averaging, epoch counts, early-stop
  truncation and hook order.
- **Dataset preparation** (`generate_train_test.dfy`). It covers the
  prefix/suffix train–test split, and the balanced test subset of
  `generate_custom`. That subset is the first 200 rows of each attack label,
  the benign rows within two positions of them, with no duplicates, sorted
  by row index.

`findings.dfy` shows the one discrepancy the proofs exposed (see Findings).
`wrappers.dfy` holds `Option`, `Result` and the Python exception classes the
code can raise. A raised exception is modelled as `Failure(...)`, never as a
precondition.

Random choices become inputs:
- each `random.randint` result is a draw constrained to its inclusive range;
- each `random.shuffle` result is any rearrangement with the same multiset.

The system's documented intent differs from its code in three places; the
model follows the code:
- Intent: a window longer than the dataset is a configuration error that
  fails fast. Code: construction never fails. A window of N + 1 records
  gives `len(self) == 0` and an empty pass without error. A window of
  N + 2 or more records makes `len(self)` negative. The builtin `len`
  behind `range(len(self))` then raises ValueError, but only when a pass
  starts (`Samplers.OversizedWindow`).
- Intent: with `patience = 2`, a constant loss stops on the third
  non-improving call. Code: the first call only records the best score,
  and a constant positive loss with `delta > 0` stops on the call where the
  counter reaches `patience`. That is call number `patience + 1` in all,
  and call 2 when `patience` is 1 or less
  (`EarlyStoppingPolicy.ConstantLossStops`). With `delta = 0`, a loss equal
  to the best one counts as an improvement, so a constant loss never stops.
  A constant loss of zero or below never stops either, for any
  non-negative `delta` (`EarlyStoppingPolicy.NonPositiveConstantLossNeverStops`).
- Intent: a window is valid whenever its anchor (last index) is at least
  `window_size - 1`. Code: the fair sampler takes anchors strictly above
  `window_size - 1`. So record `window_size - 1` never anchors a window,
  and record 0 never appears in a fair window.

## Model

| member | source | states |
|---|---|---|
| Samplers.Range | src/NIDS_Framework/data/samplers.py:27 | `list(range(lo, hi))` has `max(0, hi - lo)` elements, the k-th being `lo + k` |
| Samplers.NewRandomSlidingWindowSampler | src/NIDS_Framework/data/samplers.py:15-18 | the length is `N - W + 1`, fixed at construction; it is positive exactly when the window fits; for W ≥ 1, max(0, length) is the number of full windows of the table (the length itself is negative once W ≥ N + 2) |
| Samplers.RandomSlidingWindowSampler.Iter | src/NIDS_Framework/data/samplers.py:20-31 | a pass raises ValueError exactly when `len(self)` is negative; otherwise it yields exactly `len(self)` windows (none, without error, only when the length is 0); each window holds W strictly consecutive indices from `start - W` to `start - 1`; every index lies in [-1, N-1] |
| Samplers.RandomSlidingWindowSampler.IterCorrected | src/NIDS_Framework/data/samplers.py:20-28 | the corrected pass draws window ends from [W-1, N-1]; it keeps the ValueError for a negative `len(self)` and the same count and shape, and every index lies in [0, N-1] |
| Samplers.OversizedWindow | src/NIDS_Framework/data/samplers.py:18-31 | a window of N + 1 records gives an empty pass; a longer one makes `len(self)` negative and the pass raises ValueError |
| Samplers.AnchorsBelow | src/NIDS_Framework/data/samplers.py:50-55 | the masked index list holds exactly the positions below n with index > W-1 and the requested label relation, in strictly ascending order |
| Samplers.MaliciousAnchors | src/NIDS_Framework/data/samplers.py:51-54 | malicious anchors are exactly the indices ≥ W whose label differs from the benign label |
| Samplers.LegitAnchors | src/NIDS_Framework/data/samplers.py:52-55 | legit anchors are exactly the indices ≥ W whose label is the benign label |
| Samplers.AnchorsPartition | src/NIDS_Framework/data/samplers.py:51-55 | the two anchor lists are disjoint, together cover every index ≥ W, and each is strictly ascending |
| Samplers.WindowEndingAt | src/NIDS_Framework/data/samplers.py:65-66 | the window of anchor a has W consecutive indices from `a - W + 1` to `a` |
| Samplers.FairSlidingWindowSampler.constructor | src/NIDS_Framework/data/samplers.py:47-57 | after the even-window check, the anchor lists are the masked index lists and `num_samples` is twice the shorter one |
| Samplers.NewFairSlidingWindowSampler | src/NIDS_Framework/data/samplers.py:43-57 | an odd `window_size` raises ValueError, and nothing is built; an even one builds a sampler whose lists are the two anchor lists |
| Samplers.FairSlidingWindowSampler.Length | src/NIDS_Framework/data/samplers.py:57-71 | `len(self)` is `2 * min(|malicious|, |legit|)`, for the stored lists and for the anchor lists computed from the labels |
| Samplers.FairSlidingWindowSampler.Iter | src/NIDS_Framework/data/samplers.py:59-68 | the stored lists become their shuffles, so their multisets never change; the pass yields the `zip`-truncated interleaving of malicious and legit windows, `len(self)` of them |
| Samplers.FairWindowsRespectLabels | src/NIDS_Framework/data/samplers.py:51-66 | whatever the shuffles: each window has W consecutive indices in [1, N-1]; the window at position k ends at a malicious record exactly when k is even |
| TabularDatasets.ComposeAppend | src/NIDS_Framework/data/tabular_datasets.py:44-46 | a Compose applies its steps in list order: appending a step applies it last |
| TabularDatasets.Apply | src/NIDS_Framework/data/tabular_datasets.py:81-82 | the initial `[]` (falsy) and an empty Compose both leave the sample unchanged |
| TabularDatasets.Position | src/NIDS_Framework/data/tabular_datasets.py:78 | a tensor index in [-N, N) names a row; a negative one counts from the end |
| TabularDatasets.Gather | src/NIDS_Framework/data/tabular_datasets.py:78-92 | `t[idx]` succeeds exactly when every index is in [-N, N), with one row per index in `idx` order; otherwise IndexError |
| TabularDatasets.ConcatRows | src/NIDS_Framework/data/tabular_datasets.py:133-135 | `torch.cat(dim=-1)` of row-aligned tables puts each numeric row before its categorical row |
| TabularDatasets.TabularDataset.constructor | src/NIDS_Framework/data/tabular_datasets.py:107-120 | the tables are stored, the statistics are computed from the numeric table, and no transformation is set; tables with equal row counts give a valid dataset |
| TabularDatasets.TabularDataset.SetNumericTransformation | src/NIDS_Framework/data/tabular_datasets.py:44-46 | the setter wraps the list in a Compose and changes nothing else |
| TabularDatasets.TabularDataset.SetCategoricalTransformation | src/NIDS_Framework/data/tabular_datasets.py:52-54 | the setter wraps the list in a Compose and changes nothing else |
| TabularDatasets.TabularDataset.SetLabelsTransformation | src/NIDS_Framework/data/tabular_datasets.py:60-62 | the setter wraps the list in a Compose and changes nothing else |
| TabularDatasets.TabularDataset.Length | src/NIDS_Framework/data/tabular_datasets.py:122-123 | `len(dataset)` is the number of labels, which equals both table heights |
| TabularDatasets.TabularDataset.ApplyTransformation | src/NIDS_Framework/data/tabular_datasets.py:72-98 | succeeds exactly when every index is in bounds (else IndexError); each part is its own slice, paired with the given statistics, through its own transformation when set |
| TabularDatasets.TabularDataset.GetItem | src/NIDS_Framework/data/tabular_datasets.py:125-137 | errors from the slicing propagate; after a successful slicing it succeeds exactly when the transformed numeric and categorical parts have equal row counts and the transformed labels are non-empty, and otherwise raises RuntimeError (`torch.cat` on unequal row counts) or IndexError (`[..., -1]` on no labels); on success each feature row is the numeric row followed by the categorical row, and the target is the last transformed label |
| TabularDatasets.GetItemUntransformed | src/NIDS_Framework/data/tabular_datasets.py:125-137 | without transformations: one feature row per index, in `idx` order; each is the record's numeric row followed by its categorical row, so of width num + cat; the target is the label of the last index |
| TabularDatasets.GetItemIndexErrors | src/NIDS_Framework/data/tabular_datasets.py:125-137 | an out-of-bounds index, or an empty window with no transformation, raises IndexError |
| TabularDatasets.StatsSharedByAllParts | src/NIDS_Framework/data/tabular_datasets.py:77-94 | when no transformation is set, all three parts carry the dataset's own statistics (with transformations, `ApplyTransformation` hands each of them those statistics) |
| EarlyStoppingPolicy.Next | src/NIDS_Framework/training/trainer.py:36-52 | the first call records the best score and keeps the counter; an insufficient improvement adds one to the counter and sets the stop flag once it reaches patience, never clearing it; otherwise the best score is updated and the counter reset |
| EarlyStoppingPolicy.RunInvariant | src/NIDS_Framework/training/trainer.py:31-52 | across any sequence of calls the stop flag is never cleared, the counter is never negative, and a stop is only signalled after a best score exists |
| EarlyStoppingPolicy.ImprovingLossesNeverStop | src/NIDS_Framework/training/trainer.py:42-52 | losses that each improve by the relative delta keep the counter at 0, the best score at the latest loss, and never stop |
| EarlyStoppingPolicy.ConstantLossStops | src/NIDS_Framework/training/trainer.py:39-48 | a constant positive loss with positive delta: after k calls the counter is k - 1, and the stop flag is set exactly when k - 1 ≥ max(patience, 1) |
| EarlyStoppingPolicy.NonPositiveConstantLossNeverStops | src/NIDS_Framework/training/trainer.py:37-52 | a constant loss of zero or below, with delta ≥ 0: every call after the first counts as an improvement, so the counter stays 0 and no stop is signalled |
| EarlyStoppingPolicy.EarlyStopping.constructor | src/NIDS_Framework/training/trainer.py:28-34 | counter 0, no best score, no stop, `val_loss_min` infinite, no checkpoint |
| EarlyStoppingPolicy.EarlyStopping.Call | src/NIDS_Framework/training/trainer.py:36-52 | the state moves as `Next` says; the weights are checkpointed exactly when the call records a new best; a stop is only signalled once a checkpoint exists |
| EarlyStoppingPolicy.EarlyStopping.SaveCheckpoint | src/NIDS_Framework/training/trainer.py:54-59 | the single checkpoint is overwritten with the weights, and `val_loss_min` with the loss |
| Training.BatchEvents | src/NIDS_Framework/training/trainer.py:175-186 | n batches fire 2n hooks |
| Training.BatchEventsAlternate | src/NIDS_Framework/training/trainer.py:174-187 | batch hooks alternate BEFORE_BATCH, AFTER_BATCH, so batches never overlap |
| Training.EpochBatches | src/NIDS_Framework/training/trainer.py:156-168 | an epoch never runs more batches than the loader has |
| Training.EpochRunsRequestedBatches | src/NIDS_Framework/training/trainer.py:150-172 | with `0 < epoch_steps ≤ len`: exactly that many batches, and the loss is their mean; with `epoch_steps > len`: ValueError after BEFORE_EPOCH, before any batch; without `epoch_steps`: the whole loader, mean loss |
| Training.MetricSteps | src/NIDS_Framework/training/trainer.py:223-225 | `metric.step` is called once per batch, in batch order |
| Training.ValidationDue | src/NIDS_Framework/training/trainer.py:128-129 | when validation is enabled, the last epoch is always validated |
| Training.AfterCountsEpochs | src/NIDS_Framework/training/trainer.py:120-142 | loop bookkeeping: epochs completed ≤ epochs entered (equal while running); the loss sum is the sum of epoch means; a checkpoint exists once a best score does; a break happens only after a validation that signalled a stop, with the checkpointed weights restored |
| Training.AfterIsStable | src/NIDS_Framework/training/trainer.py:124-140 | after a break or an exception, no further epoch changes anything |
| Training.TrainSpecAtExit | src/NIDS_Framework/training/trainer.py:123-148 | once the loop has ended, `train` returns the loss sum divided by the epochs run (at least one), or propagates the exception |
| Training.TrainAveragesEpochsRun | src/NIDS_Framework/training/trainer.py:120-148 | a successful `train` returns the mean of the epoch losses over the epochs run, with 1 ≤ epochs ≤ n_epoch; fewer epochs only after an early stop at a validated epoch, with the checkpoint weights restored |
| Training.NoValidationRunsAllEpochs | src/NIDS_Framework/training/trainer.py:123-128 | without validation and with a valid `epoch_steps`, every epoch runs: the loss sum is the sum of all epoch means, and the trace is the epochs' traces in order |
| Training.TrainTraceBrackets | src/NIDS_Framework/training/trainer.py:115-147 | BEFORE_TRAIN fires first, always; AFTER_TRAIN fires last exactly when `train` returns, and nowhere else |
| Training.NoAfterTrainInLoop | src/NIDS_Framework/training/trainer.py:123-142 | the epoch loop itself never fires AFTER_TRAIN |
| Training.StopSignalBreaks | src/NIDS_Framework/training/trainer.py:131-140 | unless an exception escaped, the stopper has signalled exactly when the loop was left by `break`, and then the checkpointed weights are loaded; while the loop runs no stop signal is pending |
| Training.EpochStepTrace | src/NIDS_Framework/training/trainer.py:123-130 | one more loop entry while running (and with a valid `epoch_steps`) appends the epoch's hooks, then the validation hooks exactly when validation is due after that epoch |
| Training.TraceFollowsSchedule | src/NIDS_Framework/training/trainer.py:123-130 | unless an exception escaped, the loop's hooks are those of the epochs completed, each followed by the validation hooks exactly when `(epoch + 1) % epochs_until_validation == 0` or it was the last epoch (and validation is on) |
| Training.Trainer.constructor | src/NIDS_Framework/training/trainer.py:84-91 | a trainer starts from the given weights and optimizer, with no hook fired |
| Training.Trainer.TrainOneBatch | src/NIDS_Framework/training/trainer.py:174-187 | BEFORE_BATCH, one optimizer step, AFTER_BATCH; returns the batch loss |
| Training.Trainer.TrainBatches | src/NIDS_Framework/training/trainer.py:157-168 | n batches: the sum of their losses, 2n batch hooks, n optimizer steps |
| Training.Trainer.TrainOneEpoch | src/NIDS_Framework/training/trainer.py:150-172 | result, hooks and weights are those of `EpochOutcome`, `EpochTrace` and `EpochBatches` steps, including ValueError and ZeroDivisionError |
| Training.Trainer.Validate | src/NIDS_Framework/training/trainer.py:189-213 | returns the mean validation loss (ZeroDivisionError for an empty loader); fires BEFORE_VALIDATION and then AFTER_VALIDATION; the weights are unchanged |
| Training.Trainer.Test | src/NIDS_Framework/training/trainer.py:215-230 | no metric: ValueError before any hook; otherwise BEFORE_TEST, one `metric.step` per batch in order, `metric.apply` once, AFTER_TEST |
| Training.Trainer.TrainLoopBody | src/NIDS_Framework/training/trainer.py:124-142 | one pass of the epoch loop moves trace, weights, loss sum and early-stopping state as `EpochStep` says |
| Training.Trainer.TrainEpochs | src/NIDS_Framework/training/trainer.py:117-142 | the epoch loop ends in the state `After(n_epoch)` |
| Training.Trainer.Train | src/NIDS_Framework/training/trainer.py:104-148 | `train` returns, fires and leaves exactly what `TrainSpec` says, including UnboundLocalError when `n_epoch ≤ 0` or when validation runs without an early stopper |
| GenerateTrainTest.Truncate | generate_train_test.py:13 | `int()` truncates toward zero |
| GenerateTrainTest.SliceBound | generate_train_test.py:15-16 | a slice bound counts from the end when negative and is clamped to the table |
| GenerateTrainTest.TrainSize | generate_train_test.py:13-15 | the train size never exceeds the row count (the slice is clamped); for a fraction in [0, 1] it is the integer part of `len * fraction` |
| GenerateTrainTest.ScaleIsProduct | generate_train_test.py:13 | the repeated sum used for `len(df) * train_fraction` equals the product |
| GenerateTrainTest.Split | generate_train_test.py:13-16 | train followed by test is the original table; for a fraction in [0, 1] the train part's size is the integer part of `len * fraction` |
| GenerateTrainTest.SplitSizeIsFloor | generate_train_test.py:13-16 | for a fraction in [0, 1], the train part has `floor(len * fraction)` rows: `|train| <= len * fraction < |train| + 1` |
| GenerateTrainTest.TrainSizeFull | generate_train_test.py:13-15 | a fraction of 1 or more puts every row in train |
| GenerateTrainTest.TrainSizeEmpty | generate_train_test.py:13-15 | a fraction of 0 puts no row in train |
| GenerateTrainTest.TrainSizeDefault | generate_train_test.py:7-15 | 100 rows at the default fraction 0.85 give 85 training rows |
| GenerateTrainTest.SplitIsPrefixSuffix | generate_train_test.py:7-16 | train is a prefix and test the matching suffix, for any fraction; fraction ≥ 1 leaves test empty, 0 leaves train empty; 100 rows at 0.85 split 85 / 15 |
| GenerateTrainTest.AttackLabels | generate_train_test.py:34-35 | each label other than "Benign" that occurs, exactly once |
| GenerateTrainTest.RowsWithLabel | generate_train_test.py:43 | the rows of a label, exactly, in table order |
| GenerateTrainTest.FirstRows | generate_train_test.py:43-44 | the taken rows of a label carry that label, in table order |
| GenerateTrainTest.RowsWithLabelPrefix | generate_train_test.py:43-44 | the rows of a label before row x are the first ones in that label's list, and x comes right after them |
| GenerateTrainTest.FirstRowsAreLowRank | generate_train_test.py:43-44 | a row is taken for its label exactly when fewer than 200 earlier rows carry that label |
| GenerateTrainTest.BenignIn | generate_train_test.py:37-51 | a `loc` slice of the benign rows holds exactly the benign rows in the range, ascending |
| GenerateTrainTest.NeighbourLists | generate_train_test.py:50-51 | the two slices together hold exactly the benign rows at distance 1..2 of the attack row |
| GenerateTrainTest.CoveredMembership | generate_train_test.py:46-65 | a row is covered exactly when it is a processed attack row or a benign neighbour of one |
| GenerateTrainTest.CoveredIsSelection | generate_train_test.py:42-65 | once every chosen attack row is processed, the covered rows are the selection |
| GenerateTrainTest.Insert | generate_train_test.py:67 | insertion adds exactly the one element |
| GenerateTrainTest.InsertedOrOld | generate_train_test.py:67 | every element after an insertion is the new value or an old one |
| GenerateTrainTest.InsertKeepsSorted | generate_train_test.py:67 | insertion keeps a sorted sequence sorted |
| GenerateTrainTest.InsertKeepsStrict | generate_train_test.py:67 | inserting a new value keeps a strictly increasing sequence strictly increasing |
| GenerateTrainTest.SortIndex | generate_train_test.py:67 | `sort_index` is a sorted permutation of the rows; distinct indices come out strictly increasing |
| GenerateTrainTest.AppendNew | generate_train_test.py:53-65 | each listed row not yet added is appended once and recorded; earlier output is kept as is; no row appears twice |
| GenerateTrainTest.TakeAttackRow | generate_train_test.py:46-65 | the attack row is appended, then its benign neighbours not yet added; the added set grows by the row and its neighbours; no duplicates |
| GenerateTrainTest.AddAttackRow | generate_train_test.py:46-48 | an attack row about to be appended has not been added before |
| GenerateTrainTest.TakeLabel | generate_train_test.py:42-65 | processing one label keeps the bookkeeping invariant, with that label now complete; rows are only appended, so what was collected before keeps its place |
| GenerateTrainTest.StepBookkeeping | generate_train_test.py:46-65 | processing one attack row keeps the loop's bookkeeping: the added set is exactly the rows and neighbours covered so far, and every added row is benign, of an earlier label, or an already processed row of this label |
| GenerateTrainTest.FinishLabel | generate_train_test.py:42-44 | once all first rows of a label are processed, the label counts as done |
| GenerateTrainTest.GenerateCustom | generate_train_test.py:29-68 | the output holds exactly the chosen attack rows and their benign neighbours, strictly increasing (so no duplicates); KeyError when nothing is selected |
| Findings.AsWrittenWindowCanLeaveTable | src/NIDS_Framework/data/samplers.py:22-27 | for every window that fits, the allowed draw `W - 1` gives a window starting at -1, outside the table |
| Findings.AsWrittenWindowWrapsAround | src/NIDS_Framework/data/samplers.py:22-27 | ten records, W = 4, draw 3: the window is [-1, 0, 1, 2], and index -1 reads record 9 |
| Findings.CorrectedWindowStaysInTable | src/NIDS_Framework/data/samplers.py:20-28 | the corrected smallest anchor gives the table's first full window, and every allowed anchor keeps the window inside the table |

## Left out

- `src/NIDS_Framework/core.py`: pipeline wiring (CSV loading, transformation builders, device selection, class weights). It is not part of this model.
- The transformer and classification-head modules: neural-network layers and floating-point numerics. The model is an opaque step on weights, and each batch yields an opaque real loss.
- Torch side effects: `.to(device)`, `zero_grad`/`backward`/`step` internals, `model.train()`/`model.eval()`, `no_grad`. The checkpoint file is the `checkpoint` field of `EarlyStopping`. Its reload in `train` is assigning those weights back.
- `Trainer.save_model`, `Trainer.load_model`, `Trainer.add_callback` and `_test_one_batch`: file I/O, hook registration and the forward pass. Hooks are modelled as the appended event trace. `test` is modelled by its calls on the metric.
- The hook system and metrics modules are not part of this model. Metric internals are not modelled, only the `step`/`apply` calls.
- Python's RNG: `random.seed(42)` and the `randint`/`shuffle` algorithms. Draws are constrained inputs and shuffles are arbitrary permutations.
- Floating point: losses, statistics and the split fraction are exact reals. Float32 rounding and `np.Inf` arithmetic are not modelled.
- Tensor dtypes: numeric, categorical and label values share one element type. The float32/long conversion is not modelled.
- TabularDatasets.TabularDataset.GetItem: labels are taken to be one-dimensional, so `[..., -1]` is the last label of the window. A 2-D label table is not modelled.
- TabularDatasets.TabularDataset.constructor: the mean/std/min/max computation is an opaque function of the numeric table. A missing `labels` argument (the `None` default) is not modelled.
- The Compose transformation internals (log scaling, one-hot and the rest) are opaque functions on samples.
- `labels.reset_index(drop=True, inplace=True)` also changes the caller's Series. The model only uses the positional labels.
- Samplers.FairSlidingWindowSampler.constructor: `benign_label` is kept as a ghost field, because the source does not store it after the constructor.
- EarlyStoppingPolicy.EarlyStopping.constructor: the defaults `patience = 7`, `delta = 0` are not modelled. `train` always passes both values.
- Training.Trainer.Train: `epoch_steps` batches are assumed to come from the loader's first batches. The loader's batch assembly, and its own shuffling, are not modelled.
- CSV reading and writing, `os.makedirs`, `logging`, `tqdm` and `print`. In `generate_custom`, the printed `value_counts` is only modelled through the KeyError it raises on an empty result.
- GenerateTrainTest.GenerateCustom: the table is identified by its "Attack" column. The other columns are not modelled, and the output is the list of row indices written, in order.

## Findings

| source | as written | input that shows it | evidently intended | confidence | as-written member | corrected member |
|---|---|---|---|---|---|---|
| src/NIDS_Framework/data/samplers.py:22,27 | `start` is drawn with `randint(window_size - 1, len(dataset))` and the window is `range(start - window_size, start)`, so the smallest draw starts the window at -1 | N = 10, W = 4, draw 3 gives [-1, 0, 1, 2]; torch reads index -1 as record 9, so the sample is not consecutive | the window ends at an anchor drawn from [W - 1, N - 1] (`range(a - W + 1, a + 1)`), staying inside [0, N - 1] | high for the index arithmetic; not executed | Findings.AsWrittenWindowWrapsAround | Samplers.RandomSlidingWindowSampler.IterCorrected |
