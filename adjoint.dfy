/**
 * What one backward step of `_alpha_iter` computes for a single scalar state
 * and a single scalar hyperparameter (boml/ul_problem/BOMLOuterGradReverse.py,
 * lines 53-86): the accumulator grows by alpha times the derivative of the
 * dynamics with respect to the hyperparameter, and only then is alpha
 * overwritten by its product with the derivative of the dynamics with respect
 * to the state. The sweep over a whole trajectory is shown to compute the
 * total derivative that forward-mode differentiation of the same trajectory
 * gives.
 */
module Adjoint {
  import opened Wrappers
  import opened Classification

  /** The derivatives of one inner step s' = Phi(s, h) at the state it started from: a = dPhi/ds, b = dPhi/dh. */
  datatype Jacobian = Jacobian(a: int, b: int)

  /** The Lagrange multiplier of the state and the hypergradient accumulator. */
  datatype Adjoint = Adjoint(alpha: int, acc: int)

  /**
   * One backward step as ordered by the control dependency of line 83: the
   * accumulation reads the multiplier before it is reassigned.
   */
  function BackwardStep(st: Adjoint, j: Jacobian): (r: Adjoint)
    ensures r.acc - st.acc == st.alpha * j.b
    ensures r.alpha == st.alpha * j.a
  {
    var acc := st.acc + st.alpha * j.b;
    Adjoint(st.alpha * j.a, acc)
  }

  /** The same two assignments without the ordering: the accumulation would read the reassigned multiplier. */
  function OverwriteFirst(st: Adjoint, j: Jacobian): Adjoint {
    var alpha := st.alpha * j.a;
    Adjoint(alpha, st.acc + alpha * j.b)
  }

  /**
   * The backward sweep over the Jacobians of a trajectory, oldest first in
   * `js`, processed newest first. Steps that do not depend on the
   * hyperparameter add nothing, and a zero multiplier stays zero and adds
   * nothing.
   */
  function Sweep(st: Adjoint, js: seq<Jacobian>): (r: Adjoint)
    ensures (forall k :: 0 <= k < |js| ==> js[k].b == 0) ==> r.acc == st.acc
    ensures st.alpha == 0 ==> r == st
    decreases |js|
  {
    if |js| == 0 then st
    else Sweep(BackwardStep(st, js[|js| - 1]), js[..|js| - 1])
  }

  /** Forward-mode derivative of the final state with respect to the hyperparameter, from ds_0/dh = d0. */
  function Tangent(d0: int, js: seq<Jacobian>): int
    decreases |js|
  {
    if |js| == 0 then d0
    else
      var last := js[|js| - 1];
      last.a * Tangent(d0, js[..|js| - 1]) + last.b
  }

  /** The total derivative of an outer objective E(s_T, h): its direct part plus dE/ds_T times the tangent. */
  function TotalDerivative(direct: int, e: int, d0: int, js: seq<Jacobian>): int {
    direct + e * Tangent(d0, js)
  }

  /** Within one step the two orders agree exactly when the step leaves the multiplier unchanged or adds nothing. */
  lemma OrderMatters(st: Adjoint, j: Jacobian)
    ensures OverwriteFirst(st, j).alpha == BackwardStep(st, j).alpha
    ensures OverwriteFirst(st, j).acc - BackwardStep(st, j).acc == st.alpha * j.b * (j.a - 1)
  {
    calc {
      OverwriteFirst(st, j).acc - BackwardStep(st, j).acc;
      (st.alpha * j.a) * j.b - st.alpha * j.b;
      { assert (st.alpha * j.a) * j.b == st.alpha * j.b * j.a; }
      st.alpha * j.b * (j.a - 1);
    }
  }

  /** One step that doubles the state, from alpha = 1: the ordered step adds 1, the unordered one 2. */
  lemma OverwriteFirstDiffers()
    ensures BackwardStep(Adjoint(1, 0), Jacobian(2, 1)).acc == 1
    ensures OverwriteFirst(Adjoint(1, 0), Jacobian(2, 1)).acc == 2
  {
  }

  /**
   * The reverse sweep and forward-mode differentiation agree: the quantity
   * acc + alpha * (d state / dh) is the same before and after the sweep.
   */
  lemma {:induction false} SweepMatchesTangent(st: Adjoint, d0: int, js: seq<Jacobian>)
    ensures Sweep(st, js).acc + Sweep(st, js).alpha * d0 == st.acc + st.alpha * Tangent(d0, js)
    decreases |js|
  {
    if |js| > 0 {
      var n := |js| - 1;
      var j := js[n];
      var next := BackwardStep(st, j);
      var t := Tangent(d0, js[..n]);
      SweepMatchesTangent(next, d0, js[..n]);
      assert Sweep(st, js) == Sweep(next, js[..n]);
      assert Tangent(d0, js) == j.a * t + j.b;
      Distribute(st.alpha, j.a, j.b, t);
    }
  }

  lemma Distribute(alpha: int, a: int, b: int, t: int)
    ensures alpha * b + (alpha * a) * t == alpha * (a * t + b)
  {
    assert (alpha * a) * t == alpha * (a * t);
  }

  /**
   * The value a hypergradient entry holds after a full sweep that starts from
   * alpha = dE/ds_T = e and, when there is an accumulator, from the direct
   * derivative `direct`; the boundary term is alpha . d(s_0)/dh read with the
   * final multiplier.
   */
  function Hypergradient<G>(entry: Entry<G>, direct: int, e: int, d0: int, js: seq<Jacobian>): (r: int)
    ensures e == 0 ==> r == (if HasAccumulator(entry) then direct else 0)
  {
    var final := Sweep(Adjoint(e, if HasAccumulator(entry) then direct else 0), js);
    match entry
    case Accumulator(_, _) => final.acc
    case Offset(_, _, _) => final.acc + final.alpha * d0
    case BoundaryOnly(_) => final.alpha * d0
  }

  /**
   * Each kind of entry yields the total derivative under the condition its
   * classification stands for: an accumulator without offset when the initial
   * state does not depend on the hyperparameter, an accumulator with offset
   * always, and the boundary term alone, when the dynamics do not depend on the
   * hyperparameter, short of the direct derivative, which it never includes.
   */
  lemma HypergradientExact<G>(entry: Entry<G>, direct: int, e: int, d0: int, js: seq<Jacobian>)
    requires entry.Accumulator? ==> d0 == 0
    requires entry.BoundaryOnly? ==> forall k :: 0 <= k < |js| ==> js[k].b == 0
    ensures Hypergradient(entry, direct, e, d0, js) ==
            TotalDerivative(direct, e, d0, js) - (if entry.BoundaryOnly? then direct else 0)
  {
    var st := Adjoint(e, if HasAccumulator(entry) then direct else 0);
    SweepMatchesTangent(st, d0, js);
    if entry.Accumulator? {
      assert Sweep(st, js).alpha * d0 == 0;
    }
  }

  /**
   * An accumulator the reverse initializer does not reset starts the next
   * sweep from the value p the previous call left, and the hypergradient is
   * off by p - direct.
   */
  lemma UnresetOffsetDrifts<G>(entry: Entry<G>, p: int, direct: int, e: int, d0: int, js: seq<Jacobian>)
    requires entry.Offset?
    ensures Sweep(Adjoint(e, p), js).acc + Sweep(Adjoint(e, p), js).alpha * d0 ==
            Hypergradient(entry, direct, e, d0, js) + (p - direct)
  {
    SweepMatchesTangent(Adjoint(e, p), d0, js);
    HypergradientExact(entry, direct, e, d0, js);
  }

  /**
   * Dynamics x' = x + h over three steps from x_0 = 0 with outer objective
   * x_3^2: from alpha = 2 * x_3 = 6h the sweep accumulates 18h, the
   * derivative of (3h)^2.
   */
  lemma ThreeStepScenario(h: int)
    ensures var js := [Jacobian(1, 1), Jacobian(1, 1), Jacobian(1, 1)];
            var entry: Entry<int> := Accumulator(0, None);
            Hypergradient(entry, 0, 2 * (3 * h), 0, js) == 18 * h
  {
    var js := [Jacobian(1, 1), Jacobian(1, 1), Jacobian(1, 1)];
    var entry: Entry<int> := Accumulator(0, None);
    assert js[..2] == [Jacobian(1, 1), Jacobian(1, 1)] && js[..2][..1] == [Jacobian(1, 1)];
    assert [Jacobian(1, 1)][..0] == [];
    assert Tangent(0, js) == 3;
    HypergradientExact(entry, 0, 2 * (3 * h), 0, js);
  }
}
