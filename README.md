# Reverse-mode hypergradients of BOML, modelled in Dafny

This project models the core of the reverse hypergradient method `BOMLOuterGradReverse` of BOML (`boml/ul_problem/BOMLOuterGradReverse.py`). The method computes the hypergradient of a bilevel problem with the discrete adjoint method. A forward pass runs the inner optimisation and saves a snapshot of the inner state after each step in a history. The history is a list, or a deque bounded to `truncate_iter + 1` entries. A backward sweep replays the saved snapshots newest first. Each backward step accumulates `alpha . B` into one accumulator per hyperparameter and then overwrites the Lagrange multipliers `alpha`.

The modules are:

- `Horizon` (`horizon.dfy`): a horizon is a step count or an explicit list of step indices. The module covers the indices the horizon yields and `_adjust_step`, the virtual step index used on-line.
- `History` (`history.dfy`): the history buffer. Its capacity comes from `truncate_iter`, and `_save_history` evicts the oldest snapshot when the buffer is full. The buffer is `Window`, the newest snapshots of everything appended.
- `Driver` (`driver.dfy`): the class `ReverseHG` with its `history` field.
  - `ApplyGradients` is the imperative `apply_gradients`: the preamble, the forward loop, the reverse initialisation, the deletion of the newest snapshot, and the backward loop. Its backward loop computes the step index as line 188 writes it, `T - pt - 1`.
  - It is proved equal to the specification function `Run` with `corrected = false`. `Run` returns the trace of events (engine runs, callbacks, the reverse initialisation), the history left behind, and the outcome, which is normal completion or Python's `IndexError`.
  - `Run`, `Finish`, `BackwardTrace` and `BackwardFeeds` take a flag `corrected`. With `false` they follow line 188 as written. With `true` they use the corrected index `T - pt` of the first finding below.
  - `HypergradRecorder` is the closure `hypergrad_callback` returns.
- `DriverProperties` (`driver_properties.dfy`): what `Run` promises.
  - When a call fails.
  - Which forward and backward steps run, in order, and which callbacks follow them.
  - Which snapshot each backward step restores: the input of forward step `N - 1 - j`.
  - Which index that backward step receives: that forward step's index less one as written, and that index itself when corrected. Every lemma about `Run` takes `corrected` and holds for both values.
  - How many backward steps there are.
  - The backward index of line 188 (see Findings).
- `Classification` (`classification.dfy`): the loop of `compute_gradients` (lines 70-92).
  - It sorts every hyperparameter into detached, accumulator, accumulator plus boundary offset, or boundary only.
  - It builds the `assign_add` updates of the backward step.
  - The class `OuterGradient` keeps the hypergradient dictionary and the set of accumulators the reverse initializer resets. As lines 89-92 do, it adds only the accumulators without a boundary offset to that set (`SourceResetTargets`). The corrected set `ResetTargets` is defined and proved beside it.
- `Adjoint` (`adjoint.dfy`): the backward step for a scalar state and a scalar hyperparameter, over integers.
  - The accumulation reads `alpha` before `alpha` is reassigned (lines 82-86).
  - The whole sweep equals forward-mode differentiation of the trajectory.
  - Each kind of hypergradient entry yields the total derivative under the condition its classification stands for.

The execution engine is a parameter. `start` is the inner state at the start of the forward pass; off-line it is the snapshot the initialisation returns. `step(s, t)` is the snapshot one inner iteration returns from state `s` with virtual index `t`. The evaluated global step is an `Option<int>`. Which callback slots hold a callable is a `seq<bool>`: `callback` after `as_tuple_or_list`, where `false` is a `None` slot that `maybe_call` skips.

Two details of the source decide how the hypergradient entries are modelled:

- The accumulator for a per-step contribution is a slot whose initial value is the direct derivative of the outer objective with respect to the hyperparameter, or zero when that derivative is undefined (lines 75, 110-116). It starts from zero only when that derivative is undefined, and never from the boundary term.
- The reverse initializer resets the multipliers and the hypergradient entries that have an `initializer` (lines 89-92). Those are the entries that are variables themselves. An accumulator with a boundary offset is the sum built at line 79, so it is not reset. This is reported below as a finding.

## Model

| member | source | states |
|---|---|---|
| Horizon.Indices | boml/ul_problem/BOMLOuterGradReverse.py:158 | An integer horizon n yields 0, ..., n-1 (nothing when n <= 0); a list horizon yields its own indices. |
| Horizon.AdjustStep | boml/ul_problem/BOMLOuterGradReverse.py:139-148 | Off-line the index is unchanged. On-line with an integer first horizon `tot` the index is shifted by exactly `tot * g`, where g is the global step. The shift is 0 when the global step is `None`. With a list horizon the index is unchanged. |
| Horizon.LastIndex | boml/ul_problem/BOMLOuterGradReverse.py:157-172 | `T` is 0 before any forward step (line 157). After the loop it is the last index the loop ran, one of the horizon's indices (line 172). |
| Horizon.LastIndexOfCount | boml/ul_problem/BOMLOuterGradReverse.py:188 | With an integer horizon of n >= 1 steps, `T` ends at n - 1, not at the count n that the comment at line 188 supposes. |
| Horizon.OnlineIndicesIncrease | boml/ul_problem/BOMLOuterGradReverse.py:139-146 | On-line, every virtual index of outer iteration g is below every virtual index of outer iteration g + 1. |
| Horizon.OnlineIndicesDistinct | boml/ul_problem/BOMLOuterGradReverse.py:139-146 | On-line, distinct (outer iteration, step) pairs get distinct virtual indices. |
| History.CapacityOf | boml/ul_problem/BOMLOuterGradReverse.py:32 | `truncate_iter < 0` gives an unbounded list; otherwise a bound of exactly `truncate_iter + 1 >= 1`. |
| History.Window | boml/ul_problem/BOMLOuterGradReverse.py:32 | A buffer filled by appends holds the newest `Retention` snapshots, oldest first. |
| History.Push | boml/ul_problem/BOMLOuterGradReverse.py:208-209 | Appending never exceeds the bound. Below the bound it is a plain append. On a full buffer it drops the oldest snapshot and appends. |
| History.PushAllKeepsNewest | boml/ul_problem/BOMLOuterGradReverse.py:208-209 | Appending snapshots one at a time leaves exactly the window of all of them; eviction never keeps an older snapshot over a newer one. |
| History.WindowAppend | boml/ul_problem/BOMLOuterGradReverse.py:208-209 | Appending to a buffer that already evicted gives the same buffer as appending everything to an empty one. |
| Driver.ReverseHG.constructor | boml/ul_problem/BOMLOuterGradReverse.py:19-32 | A new object has an empty history whose capacity comes from `truncate_iter`. |
| Driver.ReverseHG.SaveHistory | boml/ul_problem/BOMLOuterGradReverse.py:208-209 | The history becomes `Push` of the old history and the snapshot, and keeps within its bound. |
| Driver.ReverseHG.ForwardLoop | boml/ul_problem/BOMLOuterGradReverse.py:157-174 | The forward loop produces the steps, history and outcome of `ForwardPass` over the whole trajectory. It also returns the last index of the first horizon as `T`. |
| Driver.ReverseHG.ForwardSteps | boml/ul_problem/BOMLOuterGradReverse.py:157-174 | Loop over the step indices. Each step runs the engine with the adjusted index, saves the snapshot, sets `T` and calls callback 0. Without any callback slot, the first step saves its snapshot and then fails with `IndexError`. |
| Driver.ReverseHG.Reverse | boml/ul_problem/BOMLOuterGradReverse.py:176-206 | After the forward pass: the reverse initialisation runs, and the newest snapshot is deleted. An empty history raises `IndexError`. Otherwise the backward sweep runs with the index `T - pt - 1` of line 188. The result is `Finish` with `corrected = false`. |
| Driver.ReverseHG.ApplyGradients | boml/ul_problem/BOMLOuterGradReverse.py:124-206 | A call's trace, final history and outcome are exactly those of `Run` with `corrected = false`, the code as written, including the backward index of line 188. |
| Driver.BackwardSweep | boml/ul_problem/BOMLOuterGradReverse.py:186-206 | The backward loop zips the last horizon with the history read newest first. For each pair it runs the engine with the adjusted index `T - pt - 1`, as line 188 writes it, then calls callback 1 when there are two slots. |
| Driver.Trajectory | boml/ul_problem/BOMLOuterGradReverse.py:171 | The engine returns one snapshot per forward step. `TrajectoryAt` states what each one is. |
| Driver.Preamble | boml/ul_problem/BOMLOuterGradReverse.py:150-152 | Off-line there is exactly one initialisation event before the forward pass; on-line there is none. |
| Driver.Initial | boml/ul_problem/BOMLOuterGradReverse.py:150-152 | The history starts with exactly the snapshots the initialisation events report: the initialised state off-line, nothing on-line. |
| Driver.Block | boml/ul_problem/BOMLOuterGradReverse.py:171-174 | One step is the engine run with its index and snapshot, followed by a callback with the same index exactly when the callback is present. |
| Driver.Steps | boml/ul_problem/BOMLOuterGradReverse.py:157-174 | A sequence of steps has one event per step, or two when the callback is present. `StepsLayout` states their order. |
| Driver.TrajectoryAt | boml/ul_problem/BOMLOuterGradReverse.py:171 | Every forward snapshot is the engine step applied to the state before it, with that step's virtual index. |
| Driver.ForwardFeeds | boml/ul_problem/BOMLOuterGradReverse.py:161 | Forward step k is fed the adjusted index of the k-th index of the first horizon. |
| Driver.StepsLayout | boml/ul_problem/BOMLOuterGradReverse.py:158-174 | With a callback, the events alternate step, callback, and each callback receives its step's virtual index. Without one, there is exactly one event per step. |
| Driver.ForwardPass | boml/ul_problem/BOMLOuterGradReverse.py:157-174 | The forward pass fails exactly when there is a step but no callback slot, after running and saving only the first step. Otherwise the history is the window of the initial history and every snapshot. |
| Driver.BackwardFeeds | boml/ul_problem/BOMLOuterGradReverse.py:186-192 | Backward step j is fed the adjusted index of position j of the last horizon: `T - pt - 1` as written, `T - pt` corrected. There is one index per backward step. |
| Driver.Restored | boml/ul_problem/BOMLOuterGradReverse.py:118-122 | Backward step j restores entry j of the history read newest first, as `zip` over `reversed(self._history)` pairs them. |
| Driver.BackwardTrace | boml/ul_problem/BOMLOuterGradReverse.py:186-206 | The backward sweep has one event per pair of the last horizon and the history, or two per pair when callback 1 runs. It stops at the shorter of the two. |
| Driver.Finish | boml/ul_problem/BOMLOuterGradReverse.py:176-206 | After the forward pass the call completes exactly when the forward pass completed and the history is not empty. It then leaves the history without its newest snapshot. A failed call leaves the history as the forward pass left it. |
| Driver.Run | boml/ul_problem/BOMLOuterGradReverse.py:124-206 | With no horizon the call fails right after the preamble. The lemmas of `DriverProperties` state the rest. |
| Driver.HypergradRecorder.constructor | boml/ul_problem/BOMLOuterGradReverse.py:213 | The recorder starts with no values. |
| Driver.HypergradRecorder.Record | boml/ul_problem/BOMLOuterGradReverse.py:220-221 | Each call appends the observed value and keeps the earlier ones. |
| DriverProperties.RunFailsExactly | boml/ul_problem/BOMLOuterGradReverse.py:150-184 | A call raises `IndexError` exactly in three cases: there is no horizon; forward steps exist but there is no callback slot; or on-line, the first horizon yields no step. In the last case the history is empty when the newest snapshot is deleted. |
| DriverProperties.OnlineEmptyRunFails | boml/ul_problem/BOMLOuterGradReverse.py:150-184 | On-line with no forward step, the call runs only the reverse initialisation and then fails with an empty history. |
| DriverProperties.CompletedRun | boml/ul_problem/BOMLOuterGradReverse.py:157-206 | A completed call's trace is exactly the preamble, then the forward steps in order with callback 0 right after each when present, then the reverse initialisation, then one backward step per pair of the last horizon and the history read newest first. Each backward step has its `BackwardFeeds` index (as written or corrected) and callback 1 right after it when two slots exist. The call leaves the retained snapshots without the newest. The per-phase selections of steps and callbacks follow. |
| DriverProperties.CompletedHistory | boml/ul_problem/BOMLOuterGradReverse.py:184 | After a completed call the history is the retained window minus its newest snapshot. |
| DriverProperties.UntruncatedOfflineHistory | boml/ul_problem/BOMLOuterGradReverse.py:137-172 | Off-line and untruncated, the history starts empty and gets the initial snapshot and then one snapshot per step, in order. It held n + 1 snapshots before the newest was dropped. |
| DriverProperties.BackwardReplaysForward | boml/ul_problem/BOMLOuterGradReverse.py:184-192 | With integer horizons n and m, backward step j restores the input of forward step N-1-j. As written it gets that step's index less one; corrected, the index itself. The number of backward steps is the smaller of m and the retained snapshots less one. |
| DriverProperties.RetainedCount | boml/ul_problem/BOMLOuterGradReverse.py:184-186 | A completed call with integer horizons n and m runs `ReplayCount` backward steps, at most n. |
| DriverProperties.UntruncatedReplaysAll | boml/ul_problem/BOMLOuterGradReverse.py:184-186 | Off-line, untruncated, with n forward and n backward steps, exactly n backward steps run. |
| DriverProperties.TruncatedReplaysNewest | boml/ul_problem/BOMLOuterGradReverse.py:184-186 | Off-line with `truncate_iter = ti >= 0`, exactly `min(n, ti)` backward steps run. |
| DriverProperties.OnlineReplaysAllButFirst | boml/ul_problem/BOMLOuterGradReverse.py:150-186 | On-line, untruncated, with n >= 1, the call completes with n - 1 backward steps, because no initial snapshot is saved. |
| DriverProperties.StepsOfSteps | boml/ul_problem/BOMLOuterGradReverse.py:171-174 | The steps of one phase are selected in order of their indices, and the other phase sees none of them. |
| DriverProperties.CallbacksOfSteps | boml/ul_problem/BOMLOuterGradReverse.py:205-206 | The callbacks of one phase, when present, receive the indices of its steps in order. |
| DriverProperties.ReplayMatches | boml/ul_problem/BOMLOuterGradReverse.py:118-122 | The pairs `_state_feed_dict_generator` yields, with their step indices, are the forward steps replayed newest first, with each index less one as written (line 188) or unchanged when corrected. |
| DriverProperties.KeptSnapshots | boml/ul_problem/BOMLOuterGradReverse.py:184-186 | Entry j of the kept history, read newest first, is the input of forward step N-1-j. On-line that step is never the first. |
| DriverProperties.SourceIndexMisaligned | boml/ul_problem/BOMLOuterGradReverse.py:188 | With n forward steps, `T - pt - 1` is one below the index of the replayed forward step. For the oldest retained step it is -1, which no forward step has. |
| DriverProperties.SourceIndexCounterexample | boml/ul_problem/BOMLOuterGradReverse.py:188 | With two forward steps, as written the backward indices are 0 and -1 where the replayed steps are 1 and 0. |
| DriverProperties.TwoStepRunIndices | boml/ul_problem/BOMLOuterGradReverse.py:186-192 | A whole off-line call with two forward and two backward steps completes. As written, its backward steps get the indices 0 and -1 and the second restores the initial state. Corrected, they get 1 and 0. |
| DriverProperties.BackwardIndexAligned | boml/ul_problem/BOMLOuterGradReverse.py:188 | The corrected index `T - pt` is the index of forward step n-1-pt. |
| Classification.Classify | boml/ul_problem/BOMLOuterGradReverse.py:73-81 | An accumulator exists exactly when the per-step gradient is defined, and it starts from the direct derivative. The boundary gradient is used, as offset or alone, exactly when it is defined. |
| Classification.CollectHypergradients | boml/ul_problem/BOMLOuterGradReverse.py:70-81 | The loop fails exactly when some hyperparameter is detached, and then at the first such one. Otherwise it builds one `Classify` entry per hyperparameter and one `assign_add` per defined per-step gradient, in order. |
| Classification.SourceResetTargets | boml/ul_problem/BOMLOuterGradReverse.py:89-92 | As written, the reset holds exactly the accumulators whose entry is the variable itself. |
| Classification.SourceResetsExactly | boml/ul_problem/BOMLOuterGradReverse.py:89-92 | As written, a hyperparameter is reset exactly when it has a per-step and no boundary gradient. |
| Classification.SourceResetMissesOffset | boml/ul_problem/BOMLOuterGradReverse.py:89-92 | As written, a hyperparameter with both gradients is updated by the backward step but never reset. |
| Classification.ResetTargets | boml/ul_problem/BOMLOuterGradReverse.py:89-92 | The corrected reset holds every accumulator, with or without offset. |
| Classification.ResetCoversUpdates | boml/ul_problem/BOMLOuterGradReverse.py:89-92 | The corrected reset covers exactly the accumulators the backward step updates. |
| Classification.OuterGradient.constructor | boml/ul_problem/BOMLOuterGradReverse.py:28-29 | The object starts with an empty backward step (line 28) and no reset targets (line 29). The hypergradient dictionary comes from the base class, which is not part of this model, and is taken to start empty. |
| Classification.OuterGradient.Register | boml/ul_problem/BOMLOuterGradReverse.py:88 | Every hyperparameter's list gets its entry appended, in position order. Other lists, the backward step and the reset set are unchanged. |
| Classification.OuterGradient.ComputeGradients | boml/ul_problem/BOMLOuterGradReverse.py:70-92 | A detached hyperparameter leaves the state unchanged. Otherwise this objective's ordered updates are appended to the object's backward step (line 86), and every hyperparameter gets its entry appended to its list. As lines 89-92 are written, only the accumulators without a boundary offset are added to the reset. |
| Adjoint.OrderMatters | boml/ul_problem/BOMLOuterGradReverse.py:82-86 | Reading the reassigned multiplier would change the accumulation by `alpha * b * (a - 1)`. The multiplier itself is the same either way. |
| Adjoint.OverwriteFirstDiffers | boml/ul_problem/BOMLOuterGradReverse.py:82-86 | For one step that doubles the state, the ordered step adds 1 and the unordered one adds 2. |
| Adjoint.BackwardStep | boml/ul_problem/BOMLOuterGradReverse.py:82-86 | The accumulator grows by the old multiplier times dPhi/dh: the multiplier is read before line 84 reassigns it to itself times dPhi/ds. |
| Adjoint.Sweep | boml/ul_problem/BOMLOuterGradReverse.py:82-86 | Repeating the step newest first: when no step depends on the hyperparameter nothing is accumulated, and a zero multiplier stays zero and accumulates nothing. |
| Adjoint.SweepMatchesTangent | boml/ul_problem/BOMLOuterGradReverse.py:83-85 | The backward sweep keeps `acc + alpha * ds/dh` unchanged, so it computes what forward-mode differentiation of the trajectory computes. |
| Adjoint.HypergradientExact | boml/ul_problem/BOMLOuterGradReverse.py:73-81 | An accumulator with offset gives the total derivative. So does a plain accumulator when the initial state does not depend on the hyperparameter. The boundary term alone gives it minus the direct derivative, when the dynamics do not depend on the hyperparameter. |
| Adjoint.Hypergradient | boml/ul_problem/BOMLOuterGradReverse.py:75-81 | The value held after a full sweep by an accumulator, an accumulator with offset, or a boundary term. With a zero outer gradient, the accumulators hold exactly the direct derivative and the boundary term holds 0. |
| Adjoint.UnresetOffsetDrifts | boml/ul_problem/BOMLOuterGradReverse.py:89-92 | If an offset accumulator is not reset, it starts from the previous call's value p, and the hypergradient is off by p minus the direct derivative. |
| Adjoint.ThreeStepScenario | boml/ul_problem/BOMLOuterGradReverse.py:82-86 | Take `x' = x + h` over three steps from 0, with outer objective `x_3^2`. The sweep accumulates `18h`, the derivative of `(3h)^2`. |

## Left out

- TensorFlow graph construction and automatic differentiation (lines 50-66, 96-116): `tf.gradients`, `vectorize_all`, `dot`, slot creation, `tf.group` and control dependencies are foreign library calls. Gradients are abstract optional values in `Classification`. They are integer derivatives of one scalar step in `Adjoint`.
- Session execution (`ss.run`, `maybe_eval`): the engine is the parameter `step`, and the evaluated global step is a parameter.
- Feed dictionaries (lines 161-163, 178-182, 191-196): their contents are caller data. The model records only the index each per-step feed provider and callback receives.
- The 'Aggr' feed tensor (lines 128-130, 164-169, 197-203): `t + 1.0`, `t + 2.0` and the one-hot arrays are float and numpy detail.
- Generators as horizons: `solve_int_or_generator` is taken to yield 0..n-1 for an integer and the listed indices otherwise. The same list is taken to be re-iterable when it is both the first and the last horizon.
- The base class `BOMLOuterGrad` and the `boml.utils` helpers are not part of this model. The hypergradient dictionary is taken to start empty and to create missing lists.
- `hypergrad_callback`'s choice of accumulators and its flattening (lines 214-217): these are TensorFlow reads. Only the recording of one value per call is modelled.
- `_create_lagrangian_multipliers` (lines 96-102): the multipliers start from `dE/ds_T` in `Adjoint`, and their reset is the `ReverseInit` event.
- Adjoint.Hypergradient: one scalar state and one scalar hyperparameter over integers, not vectors of floats.
- Classification.OuterGradient.ComputeGradients: a hyperparameter is identified by its position in `meta_param`. Re-listed or reordered hyperparameters across outer objectives are not modelled.
- Driver.Run: the global step is one value for the whole call, read once. The source re-evaluates it at every `_adjust_step` and only assumes that it does not change during the call.

## Findings

| source | as written | input that shows it | evidently intended | confidence | as-written member | corrected member |
|---|---|---|---|---|---|---|
| boml/ul_problem/BOMLOuterGradReverse.py:188 | The backward index is `t = T - pt - 1`, where `T` is the last forward index, n - 1, not the count n that the comment at lines 188-189 assumes. | A horizon of 2. The forward steps are 0 and 1. The backward steps replay the inputs of steps 1 and 0 but get indices 0 and -1. | `t = T - pt`, the index of the forward step whose input is replayed. The 'Aggr' branch compensates with `t + 2.0` (line 199) against `t + 1.0` forward (line 165). | not executed | Driver.SourceBackwardIndex, used by Driver.BackwardSweep and Driver.ReverseHG.ApplyGradients, shown by DriverProperties.SourceIndexMisaligned, DriverProperties.SourceIndexCounterexample, DriverProperties.TwoStepRunIndices and DriverProperties.BackwardReplaysForward with `corrected = false` | Driver.BackwardIndex, selected in Driver.Run by `corrected = true`, proved by DriverProperties.BackwardIndexAligned and DriverProperties.BackwardReplaysForward with `corrected = true` |
| boml/ul_problem/BOMLOuterGradReverse.py:89-92 | The reverse initializer resets only entries with an `initializer`. An accumulator with a boundary offset is stored as the sum `hgv + a_d_b0`, and that sum has none. | A hyperparameter with both per-step and boundary gradients. Its accumulator is updated by every backward step but never reset. Line 111 takes the slot out of the global variables, and line 91 does not initialize it. What a later `apply_gradients` call does therefore depends on initialization code outside this file. If that code initializes the slot once, each later call starts from the previous call's value. Otherwise the first update reads an uninitialized variable. | Reset every accumulator the backward step updates, as the initializer does for the plain ones. | not executed | Classification.SourceResetTargets, shown by Classification.SourceResetMissesOffset and Adjoint.UnresetOffsetDrifts | Classification.ResetTargets, proved by Classification.ResetCoversUpdates |
