/** Fixed-step midpoint (second-order Runge-Kutta) integrator.

    The state vector, the time and the step size are reals; the caller's
    derivative callback is a pure total function from a state and a time to
    the time derivative of the state.
 */
module Midpoint {

  /** The caller-supplied derivative dy/dt = deriv(y, t). */
  type Deriv = (seq<real>, real) -> seq<real>

  /** The callback fills every entry of a length-n output buffer: on a state of
      length n it yields a derivative of length n. */
  ghost predicate PreservesLength(deriv: Deriv, n: nat) {
    forall s: seq<real>, t: real :: |s| == n ==> |deriv(s, t)| == n
  }

  /** What the integrator observably holds between steps: the state and the time. */
  datatype Snapshot = Snapshot(y: seq<real>, t: real)

  /** The half-step state y[i] + k[i] * dt * 0.5, filled in by the first loop of a step. */
  function HalfState(y: seq<real>, k: seq<real>, dt: real): (m: seq<real>)
    requires |k| == |y|
    ensures |m| == |y|
    ensures forall i :: 0 <= i < |y| ==> m[i] == y[i] + k[i] * dt * 0.5
  {
    seq(|y|, i requires 0 <= i < |y| => y[i] + k[i] * dt * 0.5)
  }

  /** The updated state y[i] + k[i] * dt, written by the second loop of a step. */
  function FullState(y: seq<real>, k: seq<real>, dt: real): (r: seq<real>)
    requires |k| == |y|
    ensures |r| == |y|
    ensures forall i :: 0 <= i < |y| ==> r[i] == y[i] + k[i] * dt
  {
    seq(|y|, i requires 0 <= i < |y| => y[i] + k[i] * dt)
  }

  /** A sequence that agrees entrywise with the half-step formula is the half-step state. */
  lemma HalfStateIs(a: seq<real>, y: seq<real>, k: seq<real>, dt: real)
    requires |a| == |y| == |k|
    requires forall j :: 0 <= j < |a| ==> a[j] == y[j] + k[j] * dt * 0.5
    ensures a == HalfState(y, k, dt)
  {
  }

  /** A sequence that agrees entrywise with the update formula is the updated state. */
  lemma FullStateIs(a: seq<real>, y: seq<real>, k: seq<real>, dt: real)
    requires |a| == |y| == |k|
    requires forall j :: 0 <= j < |a| ==> a[j] == y[j] + k[j] * dt
    ensures a == FullState(y, k, dt)
  {
  }

  /** The half-step state at which the second derivative is taken. */
  function MidState(deriv: Deriv, dt: real, s: Snapshot): (m: seq<real>)
    requires PreservesLength(deriv, |s.y|)
    ensures |m| == |s.y|
  {
    HalfState(s.y, deriv(s.y, s.t), dt)
  }

  /** One midpoint step as a function of the old state. */
  function StepSpec(deriv: Deriv, dt: real, s: Snapshot): (r: Snapshot)
    requires PreservesLength(deriv, |s.y|)
    ensures |r.y| == |s.y|
  {
    var k := deriv(MidState(deriv, dt, s), s.t + dt * 0.5);
    Snapshot(FullState(s.y, k, dt), s.t + dt)
  }

  /** k midpoint steps in sequence. */
  function Iterate(deriv: Deriv, dt: real, s: Snapshot, k: nat): (r: Snapshot)
    requires PreservesLength(deriv, |s.y|)
    ensures |r.y| == |s.y|
  {
    if k == 0 then s else StepSpec(deriv, dt, Iterate(deriv, dt, s, k - 1))
  }

  /** Each step advances the time by exactly dt, so k steps advance it by k * dt. */
  lemma {:induction false} IterateTime(deriv: Deriv, dt: real, s: Snapshot, k: nat)
    requires PreservesLength(deriv, |s.y|)
    ensures Iterate(deriv, dt, s, k).t == s.t + (k as real) * dt
  {
    if k > 0 {
      IterateTime(deriv, dt, s, k - 1);
    }
  }

  /** Running a steps and then b steps is running a + b steps. */
  lemma {:induction false} IterateAdd(deriv: Deriv, dt: real, s: Snapshot, a: nat, b: nat)
    requires PreservesLength(deriv, |s.y|)
    ensures Iterate(deriv, dt, Iterate(deriv, dt, s, a), b) == Iterate(deriv, dt, s, a + b)
  {
    if b > 0 {
      IterateAdd(deriv, dt, s, a, b - 1);
    }
  }

  /** A step written out entry by entry: the new state is the old one plus dt times
      the derivative at the half-step state and the half-step time. */
  lemma StepSpecAt(deriv: Deriv, dt: real, s: Snapshot, i: nat)
    requires PreservesLength(deriv, |s.y|)
    requires i < |s.y|
    ensures MidState(deriv, dt, s)[i] == s.y[i] + deriv(s.y, s.t)[i] * dt * 0.5
    ensures StepSpec(deriv, dt, s).y[i]
         == s.y[i] + deriv(MidState(deriv, dt, s), s.t + dt * 0.5)[i] * dt
    ensures StepSpec(deriv, dt, s).t == s.t + dt
  {
  }

  /** A state where the derivative vanishes at every time is a fixed point of the step:
      the midpoint state equals it, and so does the updated state. */
  lemma EquilibriumIsFixed(deriv: Deriv, dt: real, s: Snapshot)
    requires PreservesLength(deriv, |s.y|)
    requires forall t: real :: deriv(s.y, t) == seq(|s.y|, _ => 0.0)
    ensures StepSpec(deriv, dt, s) == Snapshot(s.y, s.t + dt)
  {
    var zero := seq(|s.y|, _ => 0.0);
    assert deriv(s.y, s.t) == zero;
    assert MidState(deriv, dt, s) == s.y;
    assert deriv(s.y, s.t + dt * 0.5) == zero;
    assert StepSpec(deriv, dt, s).y == s.y;
  }

  /** The integrator object. `y` is the caller's own array, updated in place;
      `k1` and `k2` are scratch buffers allocated once. */
  class Integrator {
    var deriv: Deriv
    var y: array<real>
    var n: nat
    var dt: real
    var t: real
    var k1: array<real>
    var k2: array<real>

    /** Lengths agree, the three arrays are distinct and the callback fills length-n buffers. */
    ghost predicate Valid()
      reads this`y, this`n, this`k1, this`k2, this`deriv
    {
      y.Length == n && k1.Length == n && k2.Length == n &&
      y != k1 && y != k2 && k1 != k2 &&
      PreservesLength(deriv, n)
    }

    /** The state and time the integrator currently holds. */
    ghost function Current(): (s: Snapshot)
      reads this`y, this`t, y
      ensures |s.y| == y.Length
    {
      Snapshot(y[..], t)
    }

    /** Keeps y0 itself (no copy), records n, t and dt, and allocates the two scratch buffers. */
    constructor (y0: array<real>, deriv: Deriv, t: real, dt: real)
      requires PreservesLength(deriv, y0.Length)
      ensures Valid()
      ensures this.y == y0 && this.n == y0.Length
      ensures this.deriv == deriv && this.t == t && this.dt == dt
      ensures fresh(k1) && fresh(k2)
    {
      this.deriv := deriv;
      this.y := y0;
      this.n := y0.Length;
      this.dt := dt;
      this.t := t;
      this.k1 := new real[y0.Length];
      this.k2 := new real[y0.Length];
    }

    /** One call of the callback: it writes deriv(state, time) into `out` and nothing else. */
    method Evaluate(out: array<real>, state: seq<real>, time: real)
      requires Valid()
      requires out.Length == n && |state| == n
      modifies out
      ensures out[..] == deriv(state, time)
    {
      var d := deriv(state, time);
      forall i | 0 <= i < out.Length {
        out[i] := d[i];
      }
    }

    /** The first loop of a step: fills k2 with the half-step state from y and k1,
        writing k2 and nothing else. */
    method FillHalfState()
      requires Valid()
      modifies k2
      ensures k2[..] == HalfState(y[..], k1[..], dt)
    {
      var i := 0;
      while i < n
        invariant 0 <= i <= n
        invariant forall j :: 0 <= j < i ==> k2[j] == y[j] + k1[j] * dt * 0.5
      {
        k2[i] := y[i] + k1[i] * dt * 0.5;
        i := i + 1;
      }
      HalfStateIs(k2[..], y[..], k1[..], dt);
    }

    /** The second loop of a step: adds k1 * dt to y in place, writing y and nothing else. */
    method AddUpdate()
      requires Valid()
      modifies y
      ensures y[..] == FullState(old(y[..]), k1[..], dt)
    {
      var i := 0;
      while i < n
        invariant 0 <= i <= n
        invariant forall j :: 0 <= j < i ==> y[j] == old(y[j]) + k1[j] * dt
        invariant forall j :: i <= j < n ==> y[j] == old(y[j])
      {
        y[i] := y[i] + k1[i] * dt;
        i := i + 1;
      }
      FullStateIs(y[..], old(y[..]), k1[..], dt);
    }

    /** Advances by one midpoint step and returns this same integrator. */
    method Step() returns (r: Integrator)
      requires Valid()
      modifies this`t, y, k1, k2
      ensures Valid()
      ensures r == this
      ensures y == old(y) && n == old(n) && dt == old(dt) && deriv == old(deriv)
      ensures t == old(t) + dt
      ensures k2[..] == MidState(deriv, dt, old(Current()))
      ensures k1[..] == deriv(k2[..], old(t) + dt * 0.5)
      ensures forall i :: 0 <= i < n ==>
        y[i] == old(y[i]) + deriv(k2[..], old(t) + dt * 0.5)[i] * dt
      ensures Current() == StepSpec(deriv, dt, old(Current()))
    {
      Evaluate(k1, y[..], t);
      FillHalfState();
      Evaluate(k1, k2[..], t + dt * 0.5);
      AddUpdate();
      t := t + dt;
      r := this;
    }

    /** Calls Step `count` times in order and returns this same integrator; a count
        of zero or less leaves everything as it was. */
    method Steps(count: int) returns (r: Integrator)
      requires Valid()
      modifies this`t, y, k1, k2
      ensures Valid()
      ensures r == this
      ensures y == old(y) && n == old(n) && dt == old(dt) && deriv == old(deriv)
      ensures Current() == Iterate(deriv, dt, old(Current()), if count < 0 then 0 else count)
      ensures t == old(t) + (if count < 0 then 0 else count) as real * dt
      ensures count <= 0 ==> y[..] == old(y[..]) && t == old(t)
      ensures count <= 0 ==> unchanged(k1) && unchanged(k2)
    {
      ghost var s := Current();
      var step := 0;
      while step < count
        invariant 0 <= step <= (if count < 0 then 0 else count)
        invariant Current() == Iterate(deriv, dt, s, step)
        invariant step == 0 ==> unchanged(k1) && unchanged(k2)
      {
        ghost var before := Current();
        var _ := Step();
        assert Current() == StepSpec(deriv, dt, before);
        step := step + 1;
      }
      IterateTime(deriv, dt, s, step);
      r := this;
    }
  }

  /** The module's export: builds a new integrator around the caller's array. */
  method IntegratorFactory(y0: array<real>, deriv: Deriv, t: real, dt: real) returns (r: Integrator)
    requires PreservesLength(deriv, y0.Length)
    ensures fresh(r) && r.Valid()
    ensures r.y == y0 && r.n == y0.Length
    ensures r.deriv == deriv && r.t == t && r.dt == dt
    ensures fresh(r.k1) && fresh(r.k2)
  {
    r := new Integrator(y0, deriv, t, dt);
  }
}
