/**
 * How `compute_gradients` sorts the hyperparameters of one outer objective
 * (boml/ul_problem/BOMLOuterGradReverse.py, lines 70-92): each one has an
 * optional per-step contribution (the derivative of the iteration-wise
 * Lagrangian), an optional boundary contribution (the derivative of the
 * initial-condition Lagrangian) and an optional direct derivative of the outer
 * objective. The graph values themselves are an abstract type `G`; only which
 * of them are defined decides what is built.
 */
module Classification {
  import opened Wrappers

  /** What the gradient engine reports for one hyperparameter; `None` is an undefined gradient. */
  datatype Contribution<G> = Contribution(perStep: Option<G>, boundary: Option<G>, direct: Option<G>)

  /**
   * The hypergradient built for the hyperparameter at position `hyper`: an
   * accumulator whose initial value is the direct derivative (`None` standing
   * for zero), the same accumulator plus a constant boundary offset, or the
   * boundary term alone.
   */
  datatype Entry<G> =
    | Accumulator(hyper: nat, init: Option<G>)
    | Offset(hyper: nat, init: Option<G>, boundary: G)
    | BoundaryOnly(boundary: G)

  /** One `assign_add` grouped into the backward step: the accumulator of `hyper` grows by `delta`. */
  datatype Update<G> = AssignAdd(hyper: nat, delta: G)

  /** The hypergradients and the backward-step updates, or the position of the first detached hyperparameter. */
  datatype Collected<G> = Collected(entries: seq<Entry<G>>, step: seq<Update<G>>) | Detached(position: nat)

  /** A hyperparameter that appears in neither the per-step nor the boundary Lagrangian. */
  predicate IsDetached<G>(c: Contribution<G>) {
    c.perStep.None? && c.boundary.None?
  }

  predicate HasAccumulator<G>(e: Entry<G>) {
    e.Accumulator? || e.Offset?
  }

  /**
   * The hypergradient of one attached hyperparameter: an accumulator exactly
   * when the per-step contribution is defined, the boundary contribution used
   * exactly when it is defined, and the accumulator started from the direct
   * derivative.
   */
  function Classify<G>(i: nat, c: Contribution<G>): (e: Entry<G>)
    requires !IsDetached(c)
    ensures HasAccumulator(e) <==> c.perStep.Some?
    ensures !e.Accumulator? <==> c.boundary.Some?
    ensures HasAccumulator(e) ==> e.hyper == i && e.init == c.direct
    ensures !e.Accumulator? ==> e.boundary == c.boundary.value
  {
    match c.perStep
    case Some(_) => if c.boundary.Some? then Offset(i, c.direct, c.boundary.value) else Accumulator(i, c.direct)
    case None => BoundaryOnly(c.boundary.value)
  }

  /** The updates a backward step performs: exactly one per defined per-step contribution, in hyperparameter order. */
  predicate StepUpdates<G(==)>(cs: seq<Contribution<G>>, n: nat, step: seq<Update<G>>)
    requires n <= |cs|
  {
    && (forall u :: u in step ==> u.hyper < n && cs[u.hyper].perStep == Some(u.delta))
    && (forall i :: 0 <= i < n && cs[i].perStep.Some? ==> AssignAdd(i, cs[i].perStep.value) in step)
    && (forall a, b :: 0 <= a < b < |step| ==> step[a].hyper < step[b].hyper)
  }

  /**
   * The loop of lines 70-81: fails at the first detached hyperparameter;
   * otherwise builds one entry per hyperparameter and the accumulator updates
   * of the backward step.
   */
  method CollectHypergradients<G(==)>(cs: seq<Contribution<G>>) returns (r: Collected<G>)
    ensures r.Detached? <==> exists i :: 0 <= i < |cs| && IsDetached(cs[i])
    ensures r.Detached? ==> r.position < |cs| && IsDetached(cs[r.position]) &&
                            forall k :: 0 <= k < r.position ==> !IsDetached(cs[k])
    ensures r.Collected? ==> |r.entries| == |cs| &&
                             forall i :: 0 <= i < |cs| ==> !IsDetached(cs[i]) && r.entries[i] == Classify(i, cs[i])
    ensures r.Collected? ==> StepUpdates(cs, |cs|, r.step)
  {
    var entries: seq<Entry<G>> := [];
    var step: seq<Update<G>> := [];
    var i := 0;
    while i < |cs|
      invariant 0 <= i <= |cs|
      invariant |entries| == i
      invariant forall k :: 0 <= k < i ==> !IsDetached(cs[k]) && entries[k] == Classify(k, cs[k])
      invariant StepUpdates(cs, i, step)
    {
      var c := cs[i];
      if IsDetached(c) {
        return Detached(i);
      }
      var hgv: Option<Entry<G>> := None;
      if c.perStep.Some? {
        hgv := Some(Accumulator(i, c.direct));
        step := step + [AssignAdd(i, c.perStep.value)];
      }
      if c.boundary.Some? {
        hgv := if hgv.Some? then Some(Offset(i, c.direct, c.boundary.value)) else Some(BoundaryOnly(c.boundary.value));
      }
      entries := entries + [hgv.value];
      i := i + 1;
    }
    r := Collected(entries, step);
  }

  /**
   * The accumulators the reverse initializer resets as written (lines 89-92):
   * only entries that are variables themselves; an accumulator with a boundary
   * offset has become a sum and is not among them.
   */
  function SourceResetTargets<G>(entries: seq<Entry<G>>): (r: set<nat>)
    ensures forall i :: 0 <= i < |entries| && entries[i].Accumulator? ==> entries[i].hyper in r
    ensures forall h :: h in r ==> exists i :: 0 <= i < |entries| && entries[i].Accumulator? && entries[i].hyper == h
  {
    set i | 0 <= i < |entries| && entries[i].Accumulator? :: entries[i].hyper
  }

  /** The accumulators the reverse initializer should reset: every one the backward step updates. */
  function ResetTargets<G>(entries: seq<Entry<G>>): (r: set<nat>)
    ensures forall i :: 0 <= i < |entries| && HasAccumulator(entries[i]) ==> entries[i].hyper in r
    ensures forall h :: h in r ==> exists i :: 0 <= i < |entries| && HasAccumulator(entries[i]) && entries[i].hyper == h
  {
    set i | 0 <= i < |entries| && HasAccumulator(entries[i]) :: entries[i].hyper
  }

  /** As written, a hyperparameter is reset exactly when it has a per-step and no boundary contribution. */
  lemma SourceResetsExactly<G>(cs: seq<Contribution<G>>, entries: seq<Entry<G>>, h: nat)
    requires |entries| == |cs|
    requires forall i :: 0 <= i < |cs| ==> !IsDetached(cs[i]) && entries[i] == Classify(i, cs[i])
    ensures h in SourceResetTargets(entries) <==> h < |cs| && cs[h].perStep.Some? && cs[h].boundary.None?
  {
    if h < |cs| && cs[h].perStep.Some? && cs[h].boundary.None? {
      assert entries[h].Accumulator?;
    }
  }

  /** As written, a hyperparameter with both contributions is updated by every backward step but never reset. */
  lemma SourceResetMissesOffset<G>(g: G, b: G)
    ensures var cs := [Contribution(Some(g), Some(b), None)];
            var entries := [Classify(0, cs[0])];
            && StepUpdates(cs, 1, [AssignAdd(0, g)])
            && 0 !in SourceResetTargets(entries)
  {
    var entries := [Classify(0, Contribution(Some(g), Some(b), None))];
    assert entries[0].Offset?;
  }

  /** The corrected reset covers exactly the accumulators the backward step updates. */
  lemma ResetCoversUpdates<G>(cs: seq<Contribution<G>>, entries: seq<Entry<G>>, step: seq<Update<G>>, h: nat)
    requires |entries| == |cs|
    requires forall i :: 0 <= i < |cs| ==> !IsDetached(cs[i]) && entries[i] == Classify(i, cs[i])
    requires StepUpdates(cs, |cs|, step)
    ensures h in ResetTargets(entries) <==> exists u :: u in step && u.hyper == h
  {
    if h in ResetTargets(entries) {
      var i :| 0 <= i < |entries| && HasAccumulator(entries[i]) && entries[i].hyper == h;
      assert AssignAdd(i, cs[i].perStep.value) in step;
    }
    if exists u :: u in step && u.hyper == h {
      var u :| u in step && u.hyper == h;
      assert HasAccumulator(entries[h]);
    }
  }

  /** The entries registered so far for one hyperparameter. */
  function Lookup<G(==)>(d: map<nat, seq<Entry<G>>>, h: nat): seq<Entry<G>> {
    if h in d then d[h] else []
  }

  /**
   * The bookkeeping `compute_gradients` leaves behind across outer
   * objectives: the combined backward step, every objective's ordered
   * updates one after the other (line 86); the per-hyperparameter lists of
   * hypergradients (line 88); and the accumulators the reverse initializer
   * resets (lines 89-92).
   */
  class OuterGradient<G(==)> {
    var backwardStep: seq<Update<G>>
    var dictionary: map<nat, seq<Entry<G>>>
    var resets: set<nat>

    constructor()
      ensures backwardStep == [] && dictionary == map[] && resets == {}
    {
      backwardStep := [];
      dictionary := map[];
      resets := {};
    }

    /**
     * One outer objective: nothing is registered when a hyperparameter is
     * detached; otherwise every hyperparameter gets its entry appended and
     * the accumulators of lines 89-92 (those without a boundary offset) are
     * added to the reset.
     */
    method ComputeGradients(cs: seq<Contribution<G>>) returns (r: Collected<G>)
      modifies this
      ensures r.Detached? <==> exists i :: 0 <= i < |cs| && IsDetached(cs[i])
      ensures r.Detached? ==> backwardStep == old(backwardStep) && dictionary == old(dictionary) && resets == old(resets)
      ensures r.Collected? ==> |r.entries| == |cs| &&
                               forall i :: 0 <= i < |cs| ==> !IsDetached(cs[i]) && r.entries[i] == Classify(i, cs[i])
      ensures r.Collected? ==> StepUpdates(cs, |cs|, r.step)
      ensures r.Collected? ==> backwardStep == old(backwardStep) + r.step
      ensures r.Collected? ==> forall h: nat :: Lookup(dictionary, h) ==
                                           Lookup(old(dictionary), h) + (if h < |cs| then [r.entries[h]] else [])
      ensures r.Collected? ==> resets == old(resets) + SourceResetTargets(r.entries)
    {
      r := CollectHypergradients(cs);
      if r.Detached? {
        return;
      }
      backwardStep := backwardStep + r.step;
      Register(r.entries);
      resets := resets + SourceResetTargets(r.entries);
    }

    /** Line 88: the entry of the hyperparameter at position h is appended to its list, for every h. */
    method Register(entries: seq<Entry<G>>)
      modifies this
      ensures backwardStep == old(backwardStep) && resets == old(resets)
      ensures forall h: nat :: Lookup(dictionary, h) ==
                               Lookup(old(dictionary), h) + (if h < |entries| then [entries[h]] else [])
    {
      var i := 0;
      while i < |entries|
        invariant 0 <= i <= |entries|
        invariant backwardStep == old(backwardStep) && resets == old(resets)
        invariant forall h: nat :: Lookup(dictionary, h) ==
                              Lookup(old(dictionary), h) + (if h < i then [entries[h]] else [])
      {
        dictionary := dictionary[i := Lookup(dictionary, i) + [entries[i]]];
        i := i + 1;
      }
    }
  }
}
