/**
 * Properties of one `apply_gradients` call, stated on the trace and the
 * history that `Driver.Run` describes: which steps and callbacks run, in which
 * order, which snapshot every backward step restores, and when the call fails.
 */
module DriverProperties {
  import opened Wrappers
  import opened Horizon
  import opened History
  import opened Driver

  /** The (virtual index, snapshot) pairs of the steps of one phase, in trace order. */
  function StepsOf<S>(trace: seq<Event<S>>, phase: Phase): seq<(int, S)>
    decreases |trace|
  {
    if |trace| == 0 then []
    else
      var e := trace[0];
      (if e.Step? && e.phase == phase then [(e.feed, e.snapshot)] else []) + StepsOf(trace[1..], phase)
  }

  /** The virtual indices the callbacks of one phase receive, in trace order. */
  function CallbacksOf<S>(trace: seq<Event<S>>, phase: Phase): seq<int>
    decreases |trace|
  {
    if |trace| == 0 then []
    else
      var e := trace[0];
      (if e.Callback? && e.phase == phase then [e.step] else []) + CallbacksOf(trace[1..], phase)
  }

  function Zip<S>(feeds: seq<int>, snaps: seq<S>): (r: seq<(int, S)>)
    requires |feeds| == |snaps|
    ensures |r| == |feeds| && forall k :: 0 <= k < |r| ==> r[k] == (feeds[k], snaps[k])
  {
    seq(|feeds|, k requires 0 <= k < |feeds| => (feeds[k], snaps[k]))
  }

  function Max(a: int, b: int): int {
    if a >= b then a else b
  }

  lemma {:induction false} StepsOfConcat<S>(a: seq<Event<S>>, b: seq<Event<S>>, phase: Phase)
    ensures StepsOf(a + b, phase) == StepsOf(a, phase) + StepsOf(b, phase)
    decreases |a|
  {
    if |a| > 0 {
      assert (a + b)[1..] == a[1..] + b;
      StepsOfConcat(a[1..], b, phase);
    } else {
      assert a + b == b;
    }
  }

  lemma {:induction false} CallbacksOfConcat<S>(a: seq<Event<S>>, b: seq<Event<S>>, phase: Phase)
    ensures CallbacksOf(a + b, phase) == CallbacksOf(a, phase) + CallbacksOf(b, phase)
    decreases |a|
  {
    if |a| > 0 {
      assert (a + b)[1..] == a[1..] + b;
      CallbacksOfConcat(a[1..], b, phase);
    } else {
      assert a + b == b;
    }
  }

  /** The steps of a phase are seen in order of their feeds; another phase sees none of them. */
  lemma {:induction false} StepsOfSteps<S>(phase: Phase, feeds: seq<int>, snaps: seq<S>, cb: bool, q: Phase)
    requires |feeds| == |snaps|
    ensures StepsOf(Steps(phase, feeds, snaps, cb), q) == if phase == q then Zip(feeds, snaps) else []
    decreases |feeds|
  {
    if |feeds| > 0 {
      var n := |feeds| - 1;
      StepsOfSteps(phase, feeds[..n], snaps[..n], cb, q);
      StepsSnoc(phase, feeds, snaps, cb, q);
      if phase == q {
        ZipSnoc(feeds, snaps);
      }
    }
  }

  /** The callbacks of a phase, when present, receive the feeds of its steps in order. */
  lemma {:induction false} CallbacksOfSteps<S>(phase: Phase, feeds: seq<int>, snaps: seq<S>, cb: bool, q: Phase)
    requires |feeds| == |snaps|
    ensures CallbacksOf(Steps(phase, feeds, snaps, cb), q) == if phase == q && cb then feeds else []
    decreases |feeds|
  {
    if |feeds| > 0 {
      var n := |feeds| - 1;
      CallbacksOfSteps(phase, feeds[..n], snaps[..n], cb, q);
      CallbacksSnoc(phase, feeds, snaps, cb, q);
      if phase == q && cb {
        assert feeds == feeds[..n] + [feeds[n]];
      }
    }
  }

  /** The selected steps of a sequence of steps, one step at a time from the end. */
  lemma StepsSnoc<S>(phase: Phase, feeds: seq<int>, snaps: seq<S>, cb: bool, q: Phase)
    requires 0 < |feeds| == |snaps|
    ensures var n := |feeds| - 1;
            StepsOf(Steps(phase, feeds, snaps, cb), q) ==
            StepsOf(Steps(phase, feeds[..n], snaps[..n], cb), q) + (if phase == q then [(feeds[n], snaps[n])] else [])
  {
    var n := |feeds| - 1;
    StepsOfConcat(Steps(phase, feeds[..n], snaps[..n], cb), Block(phase, feeds[n], snaps[n], cb), q);
    BlockSteps(phase, feeds[n], snaps[n], cb, q);
  }

  /** The selected callbacks of a sequence of steps, one step at a time from the end. */
  lemma CallbacksSnoc<S>(phase: Phase, feeds: seq<int>, snaps: seq<S>, cb: bool, q: Phase)
    requires 0 < |feeds| == |snaps|
    ensures var n := |feeds| - 1;
            CallbacksOf(Steps(phase, feeds, snaps, cb), q) ==
            CallbacksOf(Steps(phase, feeds[..n], snaps[..n], cb), q) + (if phase == q && cb then [feeds[n]] else [])
  {
    var n := |feeds| - 1;
    CallbacksOfConcat(Steps(phase, feeds[..n], snaps[..n], cb), Block(phase, feeds[n], snaps[n], cb), q);
    BlockCallbacks(phase, feeds[n], snaps[n], cb, q);
  }

  lemma ZipSnoc<S>(feeds: seq<int>, snaps: seq<S>)
    requires 0 < |feeds| == |snaps|
    ensures var n := |feeds| - 1;
            Zip(feeds, snaps) == Zip(feeds[..n], snaps[..n]) + [(feeds[n], snaps[n])]
  {
  }

  /** One step with its optional callback: one selected step. */
  lemma BlockSteps<S>(phase: Phase, feed: int, snapshot: S, cb: bool, q: Phase)
    ensures StepsOf(Block(phase, feed, snapshot, cb), q) == if phase == q then [(feed, snapshot)] else []
  {
    var block := Block(phase, feed, snapshot, cb);
    var empty: seq<Event<S>> := [];
    if cb {
      var tail: seq<Event<S>> := [Callback(phase, feed)];
      assert block == [Step(phase, feed, snapshot)] + tail;
      assert block[1..] == tail && tail[1..] == empty;
      assert StepsOf(tail, q) == [] + StepsOf(empty, q);
    } else {
      assert block == [Step(phase, feed, snapshot)];
      assert block[1..] == empty;
    }
  }

  /** One step with its optional callback: one selected callback when present. */
  lemma BlockCallbacks<S>(phase: Phase, feed: int, snapshot: S, cb: bool, q: Phase)
    ensures CallbacksOf(Block(phase, feed, snapshot, cb), q) == if phase == q && cb then [feed] else []
  {
    var block := Block(phase, feed, snapshot, cb);
    var empty: seq<Event<S>> := [];
    if cb {
      var tail: seq<Event<S>> := [Callback(phase, feed)];
      assert block == [Step(phase, feed, snapshot)] + tail;
      assert block[1..] == tail && tail[1..] == empty;
      assert CallbacksOf(tail, q) == (if phase == q then [feed] else []) + CallbacksOf(empty, q);
    } else {
      assert block == [Step(phase, feed, snapshot)];
      assert block[1..] == empty;
    }
  }

  /** Events that are neither steps nor callbacks contribute to neither selection. */
  lemma InitializeSilent<S>(start: S, q: Phase)
    ensures StepsOf([Initialize(start)], q) == [] && CallbacksOf([Initialize(start)], q) == []
  {
    assert [Initialize(start)][1..] == [];
  }

  lemma ReverseInitSilent<S>(q: Phase)
    ensures StepsOf<S>([ReverseInit], q) == [] && CallbacksOf<S>([ReverseInit], q) == []
  {
    var silent: seq<Event<S>> := [ReverseInit];
    assert silent[1..] == [];
  }

  /**
   * A call completes exactly when there is a horizon, the forward pass finds
   * callback slot 0 (or runs no step), and the history is not empty when the
   * newest snapshot is dropped, which on-line means at least one forward step.
   */
  lemma RunFailsExactly<S>(corrected: bool, cap: Capacity, online: bool, horizons: seq<Horizon>, callbacks: seq<bool>,
                           globalStep: Option<int>, start: S, step: (S, int) -> S)
    requires WellFormed(cap)
    ensures var r := Run(corrected, cap, online, horizons, callbacks, globalStep, start, step);
            r.outcome == IndexError <==>
              |horizons| == 0 ||
              (|Indices(horizons[0])| > 0 && |callbacks| == 0) ||
              (online && |Indices(horizons[0])| == 0)
  {
    if |horizons| > 0 {
      var feeds := ForwardFeeds(online, horizons[0], globalStep);
      var states := Trajectory(start, step, feeds);
      var all := Initial(online, start) + states;
      assert |Window(all, cap)| == Retention(cap, |all|);
      if !online {
        assert |all| >= 1;
      }
    }
  }

  /** An on-line call whose first horizon yields no step fails when it drops the newest snapshot, after the reverse initialisation. */
  lemma OnlineEmptyRunFails<S>(corrected: bool, cap: Capacity, horizons: seq<Horizon>, callbacks: seq<bool>,
                               globalStep: Option<int>, start: S, step: (S, int) -> S)
    requires |horizons| > 0 && |Indices(horizons[0])| == 0
    ensures var r := Run(corrected, cap, true, horizons, callbacks, globalStep, start, step);
            r.outcome == IndexError && r.trace == [ReverseInit] && r.history == []
  {
    var feeds := ForwardFeeds(true, horizons[0], globalStep);
    assert |feeds| == 0;
    assert Initial(true, start) + Trajectory(start, step, feeds) == [];
  }

  /**
   * What a completed call did: every forward step in order, the forward
   * callback after each of them when slot 0 holds one, the newest retained
   * snapshots minus the last left in the history, and one backward step per
   * pair of the last horizon and the history read newest first, each with its
   * callback when there are two slots and the second holds one.
   */
  lemma CompletedRun<S>(corrected: bool, cap: Capacity, online: bool, horizons: seq<Horizon>, callbacks: seq<bool>,
                        globalStep: Option<int>, start: S, step: (S, int) -> S)
    requires WellFormed(cap)
    requires Run(corrected, cap, online, horizons, callbacks, globalStep, start, step).outcome == Completed
    ensures |horizons| > 0
    ensures var r := Run(corrected, cap, online, horizons, callbacks, globalStep, start, step);
            var feeds := ForwardFeeds(online, horizons[0], globalStep);
            var states := Trajectory(start, step, feeds);
            var all := Window(Initial(online, start) + states, cap);
            && |all| > 0
            && r.history == all[..|all| - 1]
            && StepsOf(r.trace, Forward) == Zip(feeds, states)
            && CallbacksOf(r.trace, Forward) == (if |callbacks| > 0 && callbacks[0] then feeds else [])
    ensures var r := Run(corrected, cap, online, horizons, callbacks, globalStep, start, step);
            var pts := Indices(horizons[|horizons| - 1]);
            var n := Min(|pts|, |r.history|);
            var back := BackwardFeeds(corrected, online, horizons[0], globalStep, LastIndex(Indices(horizons[0])), pts, n);
            && StepsOf(r.trace, Backward) == Zip(back, Restored(r.history, n))
            && CallbacksOf(r.trace, Backward) == (if |callbacks| == 2 && callbacks[1] then back else [])
    ensures var r := Run(corrected, cap, online, horizons, callbacks, globalStep, start, step);
            var feeds := ForwardFeeds(online, horizons[0], globalStep);
            var pts := Indices(horizons[|horizons| - 1]);
            var n := Min(|pts|, |r.history|);
            var back := BackwardFeeds(corrected, online, horizons[0], globalStep, LastIndex(Indices(horizons[0])), pts, n);
            r.trace == CallTrace(online, start, feeds, Trajectory(start, step, feeds), |callbacks| > 0 && callbacks[0],
                                 back, Restored(r.history, n), |callbacks| == 2 && callbacks[1])
  {
    var r := Run(corrected, cap, online, horizons, callbacks, globalStep, start, step);
    assert |horizons| > 0;
    var feeds := ForwardFeeds(online, horizons[0], globalStep);
    var states := Trajectory(start, step, feeds);
    var fw := ForwardPass(cap, Initial(online, start), feeds, states, callbacks);
    assert r == Finish(corrected, online, horizons, callbacks, globalStep, Preamble(online, start), fw);
    FinishCompleted(corrected, online, horizons, callbacks, globalStep, Preamble(online, start), fw);
    CompletedHistory(corrected, cap, online, horizons, callbacks, globalStep, start, step);
    var cb0 := |callbacks| > 0 && callbacks[0];
    assert fw.trace == Steps(Forward, feeds, states, cb0);
    var kept := r.history;
    var pts := Indices(horizons[|horizons| - 1]);
    var n := Min(|pts|, |kept|);
    var back := BackwardFeeds(corrected, online, horizons[0], globalStep, LastIndex(Indices(horizons[0])), pts, n);
    assert r.trace == CallTrace(online, start, feeds, states, cb0, back, Restored(kept, n), |callbacks| == 2 && callbacks[1]);
    PhaseSelections(online, start, feeds, states, cb0, back, Restored(kept, n), |callbacks| == 2 && callbacks[1]);
  }

  /** The history a completed call leaves behind: the retained snapshots without the newest. */
  lemma CompletedHistory<S>(corrected: bool, cap: Capacity, online: bool, horizons: seq<Horizon>, callbacks: seq<bool>,
                            globalStep: Option<int>, start: S, step: (S, int) -> S)
    requires Run(corrected, cap, online, horizons, callbacks, globalStep, start, step).outcome == Completed
    ensures |horizons| > 0
    ensures var feeds := ForwardFeeds(online, horizons[0], globalStep);
            var all := Window(Initial(online, start) + Trajectory(start, step, feeds), cap);
            && |all| > 0
            && Run(corrected, cap, online, horizons, callbacks, globalStep, start, step).history == all[..|all| - 1]
  {
    assert |horizons| > 0;
    var feeds := ForwardFeeds(online, horizons[0], globalStep);
    var states := Trajectory(start, step, feeds);
    var fw := ForwardPass(cap, Initial(online, start), feeds, states, callbacks);
    assert Run(corrected, cap, online, horizons, callbacks, globalStep, start, step) ==
           Finish(corrected, online, horizons, callbacks, globalStep, Preamble(online, start), fw);
    FinishCompleted(corrected, online, horizons, callbacks, globalStep, Preamble(online, start), fw);
  }

  /** After a completed forward pass, the call ends with the reverse initialisation and the sweep over all but the newest snapshot. */
  lemma FinishCompleted<S>(corrected: bool, online: bool, horizons: seq<Horizon>, callbacks: seq<bool>, globalStep: Option<int>,
                           pre: seq<Event<S>>, fw: RunResult<S>)
    requires |horizons| > 0
    requires Finish(corrected, online, horizons, callbacks, globalStep, pre, fw).outcome == Completed
    ensures fw.outcome == Completed && |fw.history| > 0
    ensures var kept := fw.history[..|fw.history| - 1];
            var backward := BackwardTrace(corrected, online, horizons[0], globalStep, LastIndex(Indices(horizons[0])),
                                          Indices(horizons[|horizons| - 1]), kept, |callbacks| == 2 && callbacks[1]);
            Finish(corrected, online, horizons, callbacks, globalStep, pre, fw) ==
            RunResult(pre + fw.trace + [ReverseInit] + backward, kept, Completed)
  {
  }

  /** The trace of a completed call: the preamble, the forward steps, the reverse initialisation and the backward steps. */
  function CallTrace<S>(online: bool, start: S, feeds: seq<int>, states: seq<S>, cb0: bool,
                        back: seq<int>, restored: seq<S>, cb1: bool): seq<Event<S>>
    requires |feeds| == |states| && |back| == |restored|
  {
    Preamble(online, start) + Steps(Forward, feeds, states, cb0) + [ReverseInit] + Steps(Backward, back, restored, cb1)
  }

  /** The selections of a whole trace: the preamble and the reverse initialisation contribute nothing. */
  lemma PhaseSelections<S>(online: bool, start: S, feeds: seq<int>, states: seq<S>, cb0: bool,
                           back: seq<int>, restored: seq<S>, cb1: bool)
    requires |feeds| == |states| && |back| == |restored|
    ensures var t := Preamble(online, start) + Steps(Forward, feeds, states, cb0) + [ReverseInit] +
                     Steps(Backward, back, restored, cb1);
            && StepsOf(t, Forward) == Zip(feeds, states)
            && CallbacksOf(t, Forward) == (if cb0 then feeds else [])
            && StepsOf(t, Backward) == Zip(back, restored)
            && CallbacksOf(t, Backward) == (if cb1 then back else [])
  {
    PhaseSteps(online, start, feeds, states, cb0, back, restored, cb1, Forward);
    PhaseSteps(online, start, feeds, states, cb0, back, restored, cb1, Backward);
    PhaseCallbacks(online, start, feeds, states, cb0, back, restored, cb1, Forward);
    PhaseCallbacks(online, start, feeds, states, cb0, back, restored, cb1, Backward);
  }

  lemma PhaseSteps<S>(online: bool, start: S, feeds: seq<int>, states: seq<S>, cb0: bool,
                      back: seq<int>, restored: seq<S>, cb1: bool, q: Phase)
    requires |feeds| == |states| && |back| == |restored|
    ensures StepsOf(CallTrace(online, start, feeds, states, cb0, back, restored, cb1), q) ==
            if q == Forward then Zip(feeds, states) else Zip(back, restored)
  {
    var pre := Preamble(online, start);
    var fwd := Steps(Forward, feeds, states, cb0);
    var bwd := Steps(Backward, back, restored, cb1);
    PreambleSilent(online, start, q);
    StepsAroundReverseInit(pre, fwd, bwd, q);
    StepsOfSteps(Forward, feeds, states, cb0, q);
    StepsOfSteps(Backward, back, restored, cb1, q);
  }

  lemma PhaseCallbacks<S>(online: bool, start: S, feeds: seq<int>, states: seq<S>, cb0: bool,
                          back: seq<int>, restored: seq<S>, cb1: bool, q: Phase)
    requires |feeds| == |states| && |back| == |restored|
    ensures CallbacksOf(CallTrace(online, start, feeds, states, cb0, back, restored, cb1), q) ==
            if q == Forward then (if cb0 then feeds else []) else (if cb1 then back else [])
  {
    var pre := Preamble(online, start);
    var fwd := Steps(Forward, feeds, states, cb0);
    var bwd := Steps(Backward, back, restored, cb1);
    PreambleSilent(online, start, q);
    CallbacksAroundReverseInit(pre, fwd, bwd, q);
    CallbacksOfSteps(Forward, feeds, states, cb0, q);
    CallbacksOfSteps(Backward, back, restored, cb1, q);
  }

  lemma PreambleSilent<S>(online: bool, start: S, q: Phase)
    ensures StepsOf(Preamble(online, start), q) == [] && CallbacksOf(Preamble(online, start), q) == []
  {
    if !online {
      InitializeSilent(start, q);
    }
  }

  /** Selecting from a trace that has the reverse initialisation between two parts selects from the parts. */
  lemma StepsAroundReverseInit<S>(pre: seq<Event<S>>, fwd: seq<Event<S>>, bwd: seq<Event<S>>, q: Phase)
    ensures StepsOf(pre + fwd + [ReverseInit] + bwd, q) == StepsOf(pre, q) + StepsOf(fwd, q) + StepsOf(bwd, q)
  {
    ReverseInitSilent<S>(q);
    var ri: seq<Event<S>> := [ReverseInit];
    var a := pre + fwd;
    StepsOfConcat(pre, fwd, q);
    StepsOfConcat(a, ri, q);
    assert StepsOf(a + ri, q) == StepsOf(a, q);
    StepsOfConcat(a + ri, bwd, q);
  }

  lemma CallbacksAroundReverseInit<S>(pre: seq<Event<S>>, fwd: seq<Event<S>>, bwd: seq<Event<S>>, q: Phase)
    ensures CallbacksOf(pre + fwd + [ReverseInit] + bwd, q) == CallbacksOf(pre, q) + CallbacksOf(fwd, q) + CallbacksOf(bwd, q)
  {
    ReverseInitSilent<S>(q);
    var ri: seq<Event<S>> := [ReverseInit];
    var a := pre + fwd;
    CallbacksOfConcat(pre, fwd, q);
    CallbacksOfConcat(a, ri, q);
    assert CallbacksOf(a + ri, q) == CallbacksOf(a, q);
    CallbacksOfConcat(a + ri, bwd, q);
  }

  /**
   * The history a completed call leaves behind holds the newest retained
   * snapshots `all`, oldest first, without the newest; read newest first, its
   * entry j is the input of forward step |states| - 1 - j.
   */
  lemma KeptSnapshots<S>(online: bool, start: S, states: seq<S>, all: seq<S>, j: nat)
    requires var whole := Initial(online, start) + states;
             |all| <= |whole| && forall i :: 0 <= i < |all| ==> all[i] == whole[|whole| - |all| + i]
    requires 0 < |all| && j < |all| - 1
    ensures 0 <= |states| - 1 - j
    ensures online ==> 1 <= |states| - 1 - j
    ensures all[..|all| - 1][|all| - 2 - j] == Before(start, states, |states| - 1 - j)
  {
    var whole := Initial(online, start) + states;
    var i := |states| - 1 - j;
    assert all[..|all| - 1][|all| - 2 - j] == whole[|whole| - 2 - j];
    if online {
      assert whole == states;
    } else {
      assert whole == [start] + states;
      assert whole[i] == Before(start, states, i);
    }
  }

  /**
   * The number of backward steps with an integer forward horizon n and an
   * integer backward horizon m: the retained snapshots (the forward steps, plus
   * the initial one off-line, up to the capacity) less the dropped newest one,
   * and no more than m.
   */
  function ReplayCount(cap: Capacity, online: bool, n: int, m: int): int {
    Min(Retention(cap, Max(n, 0) + (if online then 0 else 1)) - 1, Max(m, 0))
  }

  /** How far the backward step index trails the index of the forward step it replays: one as written (line 188), none corrected. */
  function Lag(corrected: bool): int {
    if corrected then 0 else 1
  }

  /**
   * The backward steps that undo the forward pass in reverse: step j re-enters
   * forward step N - 1 - j from its input, with that step's index less `lag`.
   */
  function Replay<S>(start: S, feeds: seq<int>, states: seq<S>, count: nat, lag: int): seq<(int, S)>
    requires count <= |feeds| == |states|
  {
    var N := |feeds|;
    seq(count, j requires 0 <= j < count => (feeds[N - 1 - j] - lag, Before(start, states, N - 1 - j)))
  }

  /**
   * With integer forward and backward horizons a call whose callback slot 0
   * exists completes (on-line, once a forward step ran), and its backward
   * steps replay the forward pass newest first, ReplayCount of them.
   */
  lemma BackwardReplaysForward<S>(corrected: bool, cap: Capacity, online: bool, horizons: seq<Horizon>, n: int, m: int,
                                  callbacks: seq<bool>, globalStep: Option<int>, start: S, step: (S, int) -> S)
    requires WellFormed(cap) && |callbacks| > 0
    requires |horizons| > 0 && horizons[0] == Count(n) && horizons[|horizons| - 1] == Count(m)
    requires online ==> n >= 1
    ensures Run(corrected, cap, online, horizons, callbacks, globalStep, start, step).outcome == Completed
    ensures var feeds := ForwardFeeds(online, Count(n), globalStep);
            var count := ReplayCount(cap, online, n, m);
            && 0 <= count <= |feeds|
            && StepsOf(Run(corrected, cap, online, horizons, callbacks, globalStep, start, step).trace, Backward) ==
               Replay(start, feeds, Trajectory(start, step, feeds), count, Lag(corrected))
  {
    RunFailsExactly(corrected, cap, online, horizons, callbacks, globalStep, start, step);
    RetainedCount(corrected, cap, online, horizons, n, m, callbacks, globalStep, start, step);
    CompletedHistory(corrected, cap, online, horizons, callbacks, globalStep, start, step);
    var r := Run(corrected, cap, online, horizons, callbacks, globalStep, start, step);
    var feeds := ForwardFeeds(online, Count(n), globalStep);
    assert forall k :: 0 <= k < |feeds| ==> feeds[k] == AdjustStep(online, k, Count(n), globalStep);
    ReplayMatches(corrected, cap, online, start, n, m, globalStep, feeds, Trajectory(start, step, feeds), r.history);
    CompletedRun(corrected, cap, online, horizons, callbacks, globalStep, start, step);
  }

  /** The number of backward steps of a completed call with integer horizons is ReplayCount. */
  lemma RetainedCount<S>(corrected: bool, cap: Capacity, online: bool, horizons: seq<Horizon>, n: int, m: int,
                         callbacks: seq<bool>, globalStep: Option<int>, start: S, step: (S, int) -> S)
    requires |horizons| > 0 && horizons[0] == Count(n) && horizons[|horizons| - 1] == Count(m)
    requires Run(corrected, cap, online, horizons, callbacks, globalStep, start, step).outcome == Completed
    ensures var r := Run(corrected, cap, online, horizons, callbacks, globalStep, start, step);
            var count := ReplayCount(cap, online, n, m);
            && 0 <= count <= Max(n, 0)
            && Min(|Indices(Count(m))|, |r.history|) == count
  {
    CompletedHistory(corrected, cap, online, horizons, callbacks, globalStep, start, step);
    var feeds := ForwardFeeds(online, Count(n), globalStep);
    KeptCount(cap, online, start, Trajectory(start, step, feeds), n, m,
              Run(corrected, cap, online, horizons, callbacks, globalStep, start, step).history);
  }

  lemma KeptCount<S>(cap: Capacity, online: bool, start: S, states: seq<S>, n: int, m: int, kept: seq<S>)
    requires |states| == Max(n, 0)
    requires var all := Window(Initial(online, start) + states, cap);
             0 < |all| && kept == all[..|all| - 1]
    ensures var count := ReplayCount(cap, online, n, m);
            && 0 <= count <= Max(n, 0)
            && Min(|Indices(Count(m))|, |kept|) == count
  {
    var whole := Initial(online, start) + states;
    assert |whole| == Max(n, 0) + (if online then 0 else 1);
    assert |kept| == Retention(cap, |whole|) - 1;
  }

  /** The pairing the backward loop makes over the retained snapshots less the newest is the replay of the forward pass. */
  lemma ReplayMatches<S>(corrected: bool, cap: Capacity, online: bool, start: S, n: int, m: int, globalStep: Option<int>,
                         feeds: seq<int>, states: seq<S>, kept: seq<S>)
    requires online ==> n >= 1
    requires |feeds| == |states| == Max(n, 0)
    requires forall k :: 0 <= k < |feeds| ==> feeds[k] == AdjustStep(online, k, Count(n), globalStep)
    requires var all := Window(Initial(online, start) + states, cap);
             0 < |all| && kept == all[..|all| - 1]
    ensures var pts := Indices(Count(m));
            var c := Min(|pts|, |kept|);
            && c <= |feeds|
            && Zip(BackwardFeeds(corrected, online, Count(n), globalStep, LastIndex(Indices(Count(n))), pts, c), Restored(kept, c)) ==
               Replay(start, feeds, states, c, Lag(corrected))
  {
    var all := Window(Initial(online, start) + states, cap);
    PairingMatches(corrected, online, start, n, m, globalStep, feeds, states, all, kept);
  }

  lemma PairingMatches<S>(corrected: bool, online: bool, start: S, n: int, m: int, globalStep: Option<int>,
                         feeds: seq<int>, states: seq<S>, all: seq<S>, kept: seq<S>)
    requires online ==> n >= 1
    requires |feeds| == |states| == Max(n, 0)
    requires forall k :: 0 <= k < |feeds| ==> feeds[k] == AdjustStep(online, k, Count(n), globalStep)
    requires var whole := Initial(online, start) + states;
             |all| <= |whole| && forall i :: 0 <= i < |all| ==> all[i] == whole[|whole| - |all| + i]
    requires 0 < |all| && kept == all[..|all| - 1]
    ensures var pts := Indices(Count(m));
            var c := Min(|pts|, |kept|);
            && c <= |feeds|
            && Zip(BackwardFeeds(corrected, online, Count(n), globalStep, LastIndex(Indices(Count(n))), pts, c), Restored(kept, c)) ==
               Replay(start, feeds, states, c, Lag(corrected))
  {
    var pts := Indices(Count(m));
    var c := Min(|pts|, |kept|);
    var N := |feeds|;
    var T := LastIndex(Indices(Count(n)));
    assert N > 0 ==> T == N - 1;
    var back := BackwardFeeds(corrected, online, Count(n), globalStep, T, pts, c);
    var restored := Restored(kept, c);
    var replay := Replay(start, feeds, states, c, Lag(corrected));
    forall j | 0 <= j < c
      ensures Zip(back, restored)[j] == replay[j]
    {
      KeptSnapshots(online, start, states, all, j);
      assert back[j] == AdjustStep(online, BackwardStepIndex(corrected, T, j), Count(n), globalStep);
    }
  }

  /** An untruncated off-line call with n forward and n backward steps replays all n of them. */
  lemma UntruncatedReplaysAll<S>(corrected: bool, n: nat, callbacks: seq<bool>, globalStep: Option<int>, start: S, step: (S, int) -> S)
    requires |callbacks| > 0
    ensures var r := Run(corrected, Unbounded, false, [Count(n)], callbacks, globalStep, start, step);
            |StepsOf(r.trace, Backward)| == n
  {
    BackwardReplaysForward(corrected, Unbounded, false, [Count(n)], n, n, callbacks, globalStep, start, step);
  }

  /** A truncated off-line call (truncate_iter = ti >= 0) with n forward and n backward steps replays Min(n, ti) of them. */
  lemma TruncatedReplaysNewest<S>(corrected: bool, ti: nat, n: nat, callbacks: seq<bool>, globalStep: Option<int>, start: S,
                                  step: (S, int) -> S)
    requires |callbacks| > 0
    ensures var r := Run(corrected, CapacityOf(ti), false, [Count(n)], callbacks, globalStep, start, step);
            |StepsOf(r.trace, Backward)| == Min(n, ti)
  {
    BackwardReplaysForward(corrected, CapacityOf(ti), false, [Count(n)], n, n, callbacks, globalStep, start, step);
  }

  /** An untruncated on-line call with n >= 1 forward and n backward steps replays n - 1 of them: no initial snapshot is kept. */
  lemma OnlineReplaysAllButFirst<S>(corrected: bool, n: nat, callbacks: seq<bool>, globalStep: Option<int>, start: S,
                                    step: (S, int) -> S)
    requires |callbacks| > 0 && n >= 1
    ensures var r := Run(corrected, Unbounded, true, [Count(n)], callbacks, globalStep, start, step);
            r.outcome == Completed && |StepsOf(r.trace, Backward)| == n - 1
  {
    BackwardReplaysForward(corrected, Unbounded, true, [Count(n)], n, n, callbacks, globalStep, start, step);
  }

  /**
   * An untruncated off-line call leaves the initial snapshot followed by the
   * snapshot of every forward step but the last, in order: the history held
   * n + 1 entries before the newest was dropped.
   */
  lemma UntruncatedOfflineHistory<S>(corrected: bool, horizons: seq<Horizon>, callbacks: seq<bool>, globalStep: Option<int>,
                                     start: S, step: (S, int) -> S)
    requires |horizons| > 0 && (|callbacks| > 0 || |Indices(horizons[0])| == 0)
    ensures var r := Run(corrected, Unbounded, false, horizons, callbacks, globalStep, start, step);
            var feeds := ForwardFeeds(false, horizons[0], globalStep);
            var states := Trajectory(start, step, feeds);
            && r.outcome == Completed
            && |r.history| == |feeds|
            && forall k :: 0 <= k < |feeds| ==> r.history[k] == Before(start, states, k)
  {
    RunFailsExactly(corrected, Unbounded, false, horizons, callbacks, globalStep, start, step);
    CompletedHistory(corrected, Unbounded, false, horizons, callbacks, globalStep, start, step);
    var feeds := ForwardFeeds(false, horizons[0], globalStep);
    UntruncatedKept(start, Trajectory(start, step, feeds),
                    Run(corrected, Unbounded, false, horizons, callbacks, globalStep, start, step).history);
  }

  /** Without truncation the off-line history less its newest entry is the input of every forward step, in order. */
  lemma UntruncatedKept<S>(start: S, states: seq<S>, kept: seq<S>)
    requires var all := Window(Initial(false, start) + states, Unbounded);
             0 < |all| && kept == all[..|all| - 1]
    ensures |kept| == |states|
    ensures forall k :: 0 <= k < |states| ==> kept[k] == Before(start, states, k)
  {
    var whole := Initial(false, start) + states;
    assert whole == [start] + states;
    assert Window(whole, Unbounded) == whole;
    forall k | 0 <= k < |states|
      ensures kept[k] == Before(start, states, k)
    {
      assert kept[k] == whole[k];
    }
  }

  /**
   * The backward index as written (line 188) is one below the index of the
   * forward step whose input the backward step replays, and for the oldest
   * retained step it is -1, which no forward step had.
   */
  lemma SourceIndexMisaligned(n: int, j: int)
    requires 0 <= j < n
    ensures var T := LastIndex(Indices(Count(n)));
            && SourceBackwardIndex(T, j) == Indices(Count(n))[n - 1 - j] - 1
            && (j == n - 1 ==> SourceBackwardIndex(T, j) == -1 && -1 !in Indices(Count(n)))
  {
    assert LastIndex(Indices(Count(n))) == n - 1;
    if j == n - 1 {
      forall k | 0 <= k < |Indices(Count(n))|
        ensures Indices(Count(n))[k] != -1
      {
      }
    }
  }

  /** Two forward steps, 0 and 1: as written the backward pass hands out 0 and -1 where the replayed steps are 1 and 0. */
  lemma SourceIndexCounterexample()
    ensures LastIndex(Indices(Count(2))) == 1
    ensures [SourceBackwardIndex(1, 0), SourceBackwardIndex(1, 1)] == [0, -1]
    ensures [BackwardIndex(1, 0), BackwardIndex(1, 1)] == [1, 0]
  {
    assert Indices(Count(2)) == [0, 1];
  }

  /**
   * A whole off-line call as written with two forward and two backward steps:
   * the backward steps replay forward steps 1 and 0 from their inputs, but
   * with the indices 0 and -1; corrected, with 1 and 0.
   */
  lemma TwoStepRunIndices<S>(corrected: bool, globalStep: Option<int>, start: S, step: (S, int) -> S)
    ensures var r := Run(corrected, Unbounded, false, [Count(2)], [false], globalStep, start, step);
            var back := StepsOf(r.trace, Backward);
            && r.outcome == Completed
            && |back| == 2
            && back[0].0 == (if corrected then 1 else 0)
            && back[1] == (if corrected then 0 else -1, start)
  {
    BackwardReplaysForward(corrected, Unbounded, false, [Count(2)], 2, 2, [false], globalStep, start, step);
    var feeds := ForwardFeeds(false, Count(2), globalStep);
    assert Indices(Count(2)) == [0, 1];
    assert feeds == [0, 1];
    assert ReplayCount(Unbounded, false, 2, 2) == 2;
    var replay := Replay(start, feeds, Trajectory(start, step, feeds), 2, Lag(corrected));
    assert replay[0].0 == 1 - Lag(corrected);
    assert Before(start, Trajectory(start, step, feeds), 0) == start;
    assert replay[1].1 == start;
    assert replay[1].0 == 0 - Lag(corrected);
  }

  /** The corrected backward index of position j is the index of forward step N - 1 - j. */
  lemma BackwardIndexAligned(n: int, j: int)
    requires 0 <= j < n
    ensures BackwardIndex(LastIndex(Indices(Count(n))), j) == Indices(Count(n))[n - 1 - j]
  {
    assert LastIndex(Indices(Count(n))) == n - 1;
  }
}
