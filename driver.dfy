/**
 * The forward/backward driver of reverse-mode hypergradients (`apply_gradients`).
 *
 * The execution engine is abstract: `start` is the inner state the forward pass
 * begins from (the result of running the initialisation, off-line) and `step`
 * gives the snapshot the engine returns after one inner iteration, from the
 * current state and the virtual step index handed to the feed providers. What
 * the driver does is recorded as a trace of events.
 */
module Driver {
  import opened Wrappers
  import opened Horizon
  import opened History

  datatype Phase = Forward | Backward

  datatype Event<S> =
    | Initialize(snapshot: S)                      // off-line: the initialisation is run and its snapshot recorded
    | Step(phase: Phase, feed: int, snapshot: S)   // forward: the snapshot returned; backward: the snapshot restored
    | Callback(phase: Phase, step: int)            // an observation callback, with the virtual step index
    | ReverseInit                                  // multipliers and accumulators are (re)initialised

  /** How a call ends: normally, or with Python's IndexError. */
  datatype Outcome = Completed | IndexError

  /** Everything a call produces: the events in order, the history left behind, and how it ended. */
  datatype RunResult<S> = RunResult(trace: seq<Event<S>>, history: seq<S>, outcome: Outcome)

  /** The state the forward step at position k is applied to. */
  function Before<S>(start: S, states: seq<S>, k: nat): S
    requires k <= |states|
  {
    if k == 0 then start else states[k - 1]
  }

  /** The snapshots the engine returns, one per forward step, each computed from the one before. */
  function Trajectory<S>(start: S, step: (S, int) -> S, feeds: seq<int>): (r: seq<S>)
    ensures |r| == |feeds|
    decreases |feeds|
  {
    if |feeds| == 0 then []
    else
      var prev := Trajectory(start, step, feeds[..|feeds| - 1]);
      prev + [step(Before(start, prev, |prev|), feeds[|feeds| - 1])]
  }

  /** Every snapshot of the trajectory is the engine step applied to the one before, with that step's index. */
  lemma {:induction false} TrajectoryAt<S>(start: S, step: (S, int) -> S, feeds: seq<int>, k: nat)
    requires k < |feeds|
    ensures var r := Trajectory(start, step, feeds); r[k] == step(Before(start, r, k), feeds[k])
    decreases |feeds|
  {
    var n := |feeds| - 1;
    if k < n {
      TrajectoryAt(start, step, feeds[..n], k);
    }
  }

  /** The events of one step: the engine run, then the callback when there is one. */
  function Block<S>(phase: Phase, feed: int, snapshot: S, cb: bool): (r: seq<Event<S>>)
    ensures |r| == (if cb then 2 else 1)
    ensures r[0] == Step(phase, feed, snapshot)
    ensures cb ==> r[1] == Callback(phase, feed)
  {
    [Step(phase, feed, snapshot)] + (if cb then [Callback(phase, feed)] else [])
  }

  /** The events of a sequence of steps of one phase; a present callback follows every step. */
  function Steps<S>(phase: Phase, feeds: seq<int>, snaps: seq<S>, cb: bool): (r: seq<Event<S>>)
    requires |feeds| == |snaps|
    ensures |r| == (if cb then 2 * |feeds| else |feeds|)
    decreases |feeds|
  {
    if |feeds| == 0 then []
    else
      var n := |feeds| - 1;
      Steps(phase, feeds[..n], snaps[..n], cb) + Block(phase, feeds[n], snaps[n], cb)
  }

  /** The virtual indices of the forward steps. */
  function ForwardFeeds(online: bool, first: Horizon, globalStep: Option<int>): (r: seq<int>)
    ensures |r| == |Indices(first)|
    ensures forall k :: 0 <= k < |r| ==> r[k] == AdjustStep(online, Indices(first)[k], first, globalStep)
  {
    var ts := Indices(first);
    seq(|ts|, k requires 0 <= k < |ts| => AdjustStep(online, ts[k], first, globalStep))
  }

  /**
   * The backward step index for position pt of the backward horizon when the
   * last forward index is T, as the source computes it.
   */
  function SourceBackwardIndex(T: int, pt: int): int {
    T - pt - 1
  }

  /** The backward step index for position pt: the index of the forward step whose input is replayed. */
  function BackwardIndex(T: int, pt: int): int {
    T - pt
  }

  /**
   * The backward step index the driver uses: as the source computes it, or,
   * when `corrected`, the index of the forward step whose input is replayed.
   */
  function BackwardStepIndex(corrected: bool, T: int, pt: int): int {
    if corrected then BackwardIndex(T, pt) else SourceBackwardIndex(T, pt)
  }

  /** The virtual indices of the first n backward steps: each position of the backward horizon, turned into a step index and adjusted. */
  function BackwardFeeds(corrected: bool, online: bool, first: Horizon, globalStep: Option<int>, T: int,
                         pts: seq<int>, n: nat): (r: seq<int>)
    requires n <= |pts|
    ensures |r| == n
    ensures forall j :: 0 <= j < n ==> r[j] == AdjustStep(online, BackwardStepIndex(corrected, T, pts[j]), first, globalStep)
  {
    seq(n, j requires 0 <= j < n => AdjustStep(online, BackwardStepIndex(corrected, T, pts[j]), first, globalStep))
  }

  /** The snapshots the first n backward steps restore: the retained history read newest first. */
  function Restored<S>(kept: seq<S>, n: nat): (r: seq<S>)
    requires n <= |kept|
    ensures |r| == n
    ensures forall j :: 0 <= j < n ==> r[j] == kept[|kept| - 1 - j]
  {
    seq(n, j requires 0 <= j < n => kept[|kept| - 1 - j])
  }

  /** The events before the first forward step: the initialisation, off-line only. */
  function Preamble<S>(online: bool, start: S): (r: seq<Event<S>>)
    ensures |r| == (if online then 0 else 1)
    ensures forall i :: 0 <= i < |r| ==> r[i] == Initialize(start)
  {
    if online then [] else [Initialize(start)]
  }

  /** The snapshots recorded before the first forward step: the one each initialisation event reports, off-line only. */
  function Initial<S>(online: bool, start: S): (r: seq<S>)
    ensures |r| == |Preamble(online, start)|
    ensures forall i :: 0 <= i < |r| ==> Preamble(online, start)[i] == Initialize(r[i])
  {
    if online then [] else [start]
  }

  /**
   * The forward pass (lines 157-174 of the source): one engine run per index of
   * the first horizon, each snapshot appended to the history, each followed by
   * the forward callback when callback slot 0 holds one. With no callback slot
   * at all the first step raises IndexError right after its snapshot is saved.
   * The trace does not include the preamble.
   */
  function ForwardPass<S>(cap: Capacity, h0: seq<S>, feeds: seq<int>, states: seq<S>, callbacks: seq<bool>): (r: RunResult<S>)
    requires |feeds| == |states|
    ensures r.outcome == IndexError <==> |feeds| > 0 && |callbacks| == 0
    ensures r.outcome == IndexError ==> r.trace == [Step(Forward, feeds[0], states[0])] && r.history == Window(h0 + [states[0]], cap)
    ensures r.outcome == Completed ==> r.history == Window(h0 + states, cap)
  {
    if |feeds| > 0 && |callbacks| == 0 then
      assert states[..1] == [states[0]];
      RunResult([Step(Forward, feeds[0], states[0])], Window(h0 + states[..1], cap), IndexError)
    else
      RunResult(Steps(Forward, feeds, states, |callbacks| > 0 && callbacks[0]), Window(h0 + states, cap), Completed)
  }

  /**
   * The backward sweep (lines 186-206): the retained history newest first,
   * zipped with the indices of the last horizon, one engine run per pair, each
   * followed by the backward callback when there are exactly two callback slots
   * and the second holds one.
   */
  function BackwardTrace<S>(corrected: bool, online: bool, first: Horizon, globalStep: Option<int>, last: int,
                            pts: seq<int>, kept: seq<S>, cb: bool): (r: seq<Event<S>>)
    ensures |r| == (if cb then 2 * Min(|pts|, |kept|) else Min(|pts|, |kept|))
  {
    var n := Min(|pts|, |kept|);
    Steps(Backward, BackwardFeeds(corrected, online, first, globalStep, last, pts, n), Restored(kept, n), cb)
  }

  /**
   * What one `apply_gradients` call does, given the history capacity, the
   * horizons (`T_or_generator`), which callback slots hold a callable, the
   * evaluated global step, and the engine.
   */
  function Run<S>(corrected: bool, cap: Capacity, online: bool, horizons: seq<Horizon>, callbacks: seq<bool>,
                  globalStep: Option<int>, start: S, step: (S, int) -> S): (r: RunResult<S>)
    ensures |horizons| == 0 ==> r.outcome == IndexError && r.trace == Preamble(online, start)
  {
    var pre := Preamble(online, start);
    if |horizons| == 0 then RunResult(pre, Window(Initial(online, start), cap), IndexError)
    else
      var feeds := ForwardFeeds(online, horizons[0], globalStep);
      Finish(corrected, online, horizons, callbacks, globalStep, pre,
             ForwardPass(cap, Initial(online, start), feeds, Trajectory(start, step, feeds), callbacks))
  }

  /**
   * What follows the forward pass `fw` (lines 176-206): a failed forward pass
   * ends the call; otherwise the reverse initialisation runs, the newest
   * snapshot is dropped (IndexError when there is none), and the backward
   * sweep runs over what is left.
   */
  function Finish<S>(corrected: bool, online: bool, horizons: seq<Horizon>, callbacks: seq<bool>, globalStep: Option<int>,
                     pre: seq<Event<S>>, fw: RunResult<S>): (r: RunResult<S>)
    requires |horizons| > 0
    ensures r.outcome == Completed <==> fw.outcome == Completed && |fw.history| > 0
    ensures r.outcome == Completed ==> r.history == fw.history[..|fw.history| - 1]
    ensures r.outcome == IndexError ==> r.history == fw.history
  {
    if fw.outcome.IndexError? then RunResult(pre + fw.trace, fw.history, IndexError)
    else
      var forward := pre + fw.trace + [ReverseInit];
      if |fw.history| == 0 then RunResult(forward, fw.history, IndexError)
      else
        var kept := fw.history[..|fw.history| - 1];
        var backward := BackwardTrace(corrected, online, horizons[0], globalStep, LastIndex(Indices(horizons[0])),
                                      Indices(horizons[|horizons| - 1]), kept, |callbacks| == 2 && callbacks[1]);
        RunResult(forward + backward, kept, Completed)
  }

  /** The backward loop of `apply_gradients`, with the step index of line 188: it only reads the retained history. */
  method BackwardSweep<S>(kept: seq<S>, pts: seq<int>, last: int, online: bool, first: Horizon,
                          globalStep: Option<int>, cb: bool) returns (events: seq<Event<S>>)
    ensures events == BackwardTrace(false, online, first, globalStep, last, pts, kept, cb)
  {
    ghost var n := Min(|pts|, |kept|);
    ghost var feeds := BackwardFeeds(false, online, first, globalStep, last, pts, n);
    ghost var restored := Restored(kept, n);
    events := [];
    assert events == Steps(Backward, feeds[..0], restored[..0], cb);
    var j := 0;
    while j < |pts| && j < |kept|
      invariant 0 <= j <= n
      invariant events == Steps(Backward, feeds[..j], restored[..j], cb)
    {
      var t := SourceBackwardIndex(last, pts[j]);
      var feed := AdjustStep(online, t, first, globalStep);
      var snapshot := kept[|kept| - 1 - j];
      BackwardExtend(kept, pts, last, online, first, globalStep, cb, j);
      events := events + Block(Backward, feed, snapshot, cb);
      j := j + 1;
    }
    assert feeds[..j] == feeds && restored[..j] == restored;
  }

  /** One more iteration of the backward loop extends the events by the block of pair j. */
  lemma BackwardExtend<S>(kept: seq<S>, pts: seq<int>, last: int, online: bool, first: Horizon,
                          globalStep: Option<int>, cb: bool, j: nat)
    requires j < Min(|pts|, |kept|)
    ensures var n := Min(|pts|, |kept|);
            var feeds := BackwardFeeds(false, online, first, globalStep, last, pts, n);
            var restored := Restored(kept, n);
            Steps(Backward, feeds[..j + 1], restored[..j + 1], cb) ==
            Steps(Backward, feeds[..j], restored[..j], cb) +
            Block(Backward, AdjustStep(online, SourceBackwardIndex(last, pts[j]), first, globalStep), kept[|kept| - 1 - j], cb)
  {
    var n := Min(|pts|, |kept|);
    var feeds := BackwardFeeds(false, online, first, globalStep, last, pts, n);
    var restored := Restored(kept, n);
    StepsExtend(Backward, feeds, restored, cb, j);
  }

  /** The callback of a phase, when present, runs right after every step of it: the trace alternates step, callback. */
  lemma {:induction false} StepsLayout<S>(phase: Phase, feeds: seq<int>, snaps: seq<S>, cb: bool)
    requires |feeds| == |snaps|
    ensures var r := Steps(phase, feeds, snaps, cb);
            && |r| == (if cb then 2 * |feeds| else |feeds|)
            && (cb ==> forall k :: 0 <= k < |feeds| ==>
                         r[2 * k] == Step(phase, feeds[k], snaps[k]) && r[2 * k + 1] == Callback(phase, feeds[k]))
            && (!cb ==> forall k :: 0 <= k < |feeds| ==> r[k] == Step(phase, feeds[k], snaps[k]))
    decreases |feeds|
  {
    if |feeds| > 0 {
      var n := |feeds| - 1;
      var prev := Steps(phase, feeds[..n], snaps[..n], cb);
      assert Steps(phase, feeds, snaps, cb) == prev + Block(phase, feeds[n], snaps[n], cb);
      StepsLayout(phase, feeds[..n], snaps[..n], cb);
    }
  }

  lemma PrefixExtend<T>(h0: seq<T>, xs: seq<T>, k: nat)
    requires k < |xs|
    ensures h0 + xs[..k] + [xs[k]] == h0 + xs[..k + 1]
  {
    assert xs[..k + 1] == xs[..k] + [xs[k]];
  }

  lemma LastIndexExtend(ts: seq<int>, k: nat)
    requires k < |ts|
    ensures LastIndex(ts[..k + 1]) == ts[k]
  {
  }

  lemma StepsExtend<S>(phase: Phase, feeds: seq<int>, snaps: seq<S>, cb: bool, k: nat)
    requires k < |feeds| == |snaps|
    ensures Steps(phase, feeds[..k + 1], snaps[..k + 1], cb) ==
            Steps(phase, feeds[..k], snaps[..k], cb) + Block(phase, feeds[k], snaps[k], cb)
  {
    assert feeds[..k + 1][..k] == feeds[..k];
    assert snaps[..k + 1][..k] == snaps[..k];
  }

  /** What the forward loop has produced after its first `k` steps, when no step failed. */
  function ForwardPrefix<S>(cap: Capacity, h0: seq<S>, feeds: seq<int>, states: seq<S>, cb: bool, k: nat): RunResult<S>
    requires k <= |feeds| == |states|
  {
    RunResult(Steps(Forward, feeds[..k], states[..k], cb), Window(h0 + states[..k], cap), Completed)
  }

  /** One more forward step adds its block to the trace and pushes its snapshot. */
  lemma ForwardPrefixNext<S>(cap: Capacity, h0: seq<S>, feeds: seq<int>, states: seq<S>, cb: bool, k: nat)
    requires k < |feeds| == |states|
    ensures Fits(|ForwardPrefix(cap, h0, feeds, states, cb, k).history|, cap)
    ensures ForwardPrefix(cap, h0, feeds, states, cb, k + 1).trace ==
            ForwardPrefix(cap, h0, feeds, states, cb, k).trace + Block(Forward, feeds[k], states[k], cb)
    ensures ForwardPrefix(cap, h0, feeds, states, cb, k + 1).history ==
            Push(ForwardPrefix(cap, h0, feeds, states, cb, k).history, cap, states[k])
  {
    StepsExtend(Forward, feeds, states, cb, k);
    WindowAppend(h0 + states[..k], [states[k]], cap);
    PrefixExtend(h0, states, k);
  }

  /** The reverse hypergradient object: its history of forward snapshots and that history's capacity. */
  class ReverseHG<S> {
    const capacity: Capacity
    var history: seq<S>

    ghost predicate Valid()
      reads this
    {
      WellFormed(capacity) && Fits(|history|, capacity)
    }

    /** `__init__`: an empty history, bounded to truncate_iter + 1 snapshots when truncate_iter >= 0. */
    constructor(truncateIter: int)
      ensures Valid()
      ensures capacity == CapacityOf(truncateIter) && history == []
    {
      capacity := CapacityOf(truncateIter);
      history := [];
    }

    /** `_save_history`: append one snapshot, evicting the oldest when the history is full. */
    method SaveHistory(snapshot: S)
      requires Valid()
      modifies this
      ensures Valid()
      ensures history == Push(old(history), capacity, snapshot)
    {
      history := Window(history + [snapshot], capacity);
    }

    /** The forward loop of `apply_gradients`, from a history holding only what the initialisation recorded. */
    method ForwardLoop(first: Horizon, callbacks: seq<bool>, online: bool, globalStep: Option<int>,
                       start: S, step: (S, int) -> S)
      returns (events: seq<Event<S>>, last: int, outcome: Outcome)
      requires Valid()
      modifies this
      ensures Valid()
      ensures var feeds := ForwardFeeds(online, first, globalStep);
              RunResult(events, history, outcome) ==
              ForwardPass(capacity, old(history), feeds, Trajectory(start, step, feeds), callbacks)
      ensures outcome == Completed ==> last == LastIndex(Indices(first))
    {
      ghost var feeds := ForwardFeeds(online, first, globalStep);
      ghost var states := Trajectory(start, step, feeds);
      forall k | 0 <= k < |states|
        ensures states[k] == step(Before(start, states, k), feeds[k])
      {
        TrajectoryAt(start, step, feeds, k);
      }
      events, last, outcome := ForwardSteps(Indices(first), callbacks, online, first, globalStep, start, step, feeds, states);
    }

    /** The loop itself, over the step indices `forward`, against the feeds and states they produce. */
    method ForwardSteps(forward: seq<int>, callbacks: seq<bool>, online: bool, first: Horizon,
                        globalStep: Option<int>, start: S, step: (S, int) -> S,
                        ghost feeds: seq<int>, ghost states: seq<S>)
      returns (events: seq<Event<S>>, last: int, outcome: Outcome)
      requires Valid()
      requires |feeds| == |forward| == |states|
      requires forall k :: 0 <= k < |forward| ==> feeds[k] == AdjustStep(online, forward[k], first, globalStep)
      requires forall k :: 0 <= k < |states| ==> states[k] == step(Before(start, states, k), feeds[k])
      modifies this
      ensures Valid()
      ensures RunResult(events, history, outcome) == ForwardPass(capacity, old(history), feeds, states, callbacks)
      ensures outcome == Completed ==> last == LastIndex(forward)
    {
      ghost var h0 := history;
      last := 0;
      if |forward| > 0 && |callbacks| == 0 {
        // The first step runs and saves its snapshot; reading `callback[0]` then fails.
        var feed := AdjustStep(online, forward[0], first, globalStep);
        var s := step(start, feed);
        SaveHistory(s);
        assert h0 + states[..1] == h0 + [s];
        events := [Step(Forward, feed, s)];
        last := forward[0];
        outcome := IndexError;
        return;
      }
      ghost var cb0 := |callbacks| > 0 && callbacks[0];
      assert Window(h0, capacity) == h0;
      assert h0 + [] == h0;
      events := [];
      assert events == ForwardPrefix(capacity, h0, feeds, states, cb0, 0).trace;
      var s := start;
      var k := 0;
      while k < |forward|
        invariant 0 <= k <= |forward|
        invariant Valid()
        invariant last == LastIndex(forward[..k])
        invariant s == Before(start, states, k)
        invariant events == ForwardPrefix(capacity, h0, feeds, states, cb0, k).trace
        invariant history == ForwardPrefix(capacity, h0, feeds, states, cb0, k).history
      {
        ForwardPrefixNext(capacity, h0, feeds, states, cb0, k);
        var t := forward[k];
        var feed := AdjustStep(online, t, first, globalStep);
        assert feed == feeds[k];
        s := step(s, feed);
        assert s == states[k];
        SaveHistory(s);
        last := t;
        LastIndexExtend(forward, k);
        events := events + Block(Forward, feed, s, callbacks[0]);
        k := k + 1;
      }
      assert feeds[..k] == feeds && states[..k] == states && forward[..k] == forward;
      outcome := Completed;
    }

    /** `apply_gradients`: the forward pass, the reverse initialisation, and the backward sweep. */
    method ApplyGradients(horizons: seq<Horizon>, callbacks: seq<bool>, online: bool,
                          globalStep: Option<int>, start: S, step: (S, int) -> S)
      returns (trace: seq<Event<S>>, outcome: Outcome)
      requires Valid()
      modifies this
      ensures Valid()
      ensures RunResult(trace, history, outcome) == Run(false, capacity, online, horizons, callbacks, globalStep, start, step)
    {
      trace := [];
      history := [];
      if !online {
        trace := trace + [Initialize(start)];
        SaveHistory(start);
      }
      ghost var pre := Preamble(online, start);
      assert trace == pre && history == Initial(online, start);
      if |horizons| == 0 {
        assert Window(history, capacity) == history;
        outcome := IndexError;
        return;
      }
      var events, last, forwardOutcome := ForwardLoop(horizons[0], callbacks, online, globalStep, start, step);
      trace, outcome := Reverse(horizons, callbacks, online, globalStep, trace, events, last, forwardOutcome);
    }

    /** The rest of `apply_gradients`, once the forward loop produced `events` and left the history behind. */
    method Reverse(horizons: seq<Horizon>, callbacks: seq<bool>, online: bool, globalStep: Option<int>,
                   pre: seq<Event<S>>, events: seq<Event<S>>, last: int, forwardOutcome: Outcome)
      returns (trace: seq<Event<S>>, outcome: Outcome)
      requires Valid() && |horizons| > 0
      requires forwardOutcome == Completed ==> last == LastIndex(Indices(horizons[0]))
      modifies this
      ensures Valid()
      ensures RunResult(trace, history, outcome) ==
              Finish(false, online, horizons, callbacks, globalStep, pre, RunResult(events, old(history), forwardOutcome))
    {
      trace := pre + events;
      outcome := forwardOutcome;
      if outcome == IndexError {
        return;
      }
      trace := trace + [ReverseInit];
      if |history| == 0 {
        outcome := IndexError;
        return;
      }
      history := history[..|history| - 1];
      var backward := BackwardSweep(history, Indices(horizons[|horizons| - 1]), last, online, horizons[0], globalStep,
                                    |callbacks| == 2 && callbacks[1]);
      trace := trace + backward;
      outcome := Completed;
    }
  }

  /** `hypergrad_callback`: a callback that records the observed hypergradient value at every call. */
  class HypergradRecorder<V> {
    var values: seq<V>

    constructor()
      ensures values == []
    {
      values := [];
    }

    method Record(observed: V)
      modifies this
      ensures values == old(values) + [observed]
    {
      values := values + [observed];
    }
  }
}
