# Midpoint ODE integrator — a Dafny model

This project models `ode-midpoint`, a fixed-step integrator for systems of
ordinary differential equations dy/dt = f(y, t). It uses the explicit midpoint
method, a second-order Runge-Kutta method. An integrator object holds:

- the caller's state array `y`, which it updates in place;
- the derivative callback;
- the time `t` and the step size `dt`;
- two scratch buffers `k1` and `k2`.

A step evaluates the derivative at `(y, t)` into `k1`. It then fills `k2` with
the half-step state `y + k1 * dt / 2` and evaluates the derivative at
`(k2, t + dt/2)`, again into `k1`. Finally it adds `k1 * dt` to `y` in place
and advances `t` by `dt`. `steps(n)` calls `step` `n` times. Both return the
integrator itself.

The model, in module `Midpoint` (`midpoint.dfy`):

- `Integrator` is a class whose fields are those of the object. Its methods
  change only the fields and arrays their `modifies` clauses name.
- The derivative callback is a pure total function `Deriv` from a state and a
  time to a derivative. Under the precondition `PreservesLength` it yields a
  derivative of the state's length. `Evaluate` models one call of the callback:
  it writes into the output buffer and nothing else.
- The two loops of `step` are the methods `FillHalfState` and `AddUpdate`.
  Each has its own loop invariants.
- The methods are proved against two pure functions on `Snapshot = (state,
  time)`. `StepSpec` is one midpoint step. `Iterate` is k steps in sequence.
  The lemmas state the properties of these two functions.

Module `MidpointTests` (`midpoint_tests.dfy`) holds the two systems the
repository's tests integrate:

- the rotation `dydt = (-y[1], y[0])`;
- the decay `dydt = -y`.

For each it proves the exact values the integrator reaches over the reals. It
also holds client methods that drive the object as the tests do: they build an
array, wrap it with `IntegratorFactory`, call `Step` or `Steps`, and read the
result back through the caller's own array.

All arithmetic is on mathematical reals. No IEEE floating point is modelled.

The code has no error paths, and neither does the model:

- It accepts an empty state (`n == 0`), and so does
  `Midpoint.Integrator.constructor`. A step on an empty state only advances the
  time.
- It accepts any step count. A count of zero or less runs the loop of
  lib/index.js:38 zero times. `Midpoint.Integrator.Steps` takes an `int`
  and states that such a count changes nothing.
- It accepts any step size `dt`, zero included.

## Model

| member | source | states |
|---|---|---|
| Midpoint.Integrator.constructor | lib/index.js:5-17 | The integrator keeps the caller's array itself rather than a copy. It records n = y0.length, the callback, t and dt. It allocates two new scratch buffers of length n, distinct from y and from each other. |
| Midpoint.IntegratorFactory | lib/index.js:44-46 | Returns a new integrator around y0, with the same guarantees as the constructor. |
| Midpoint.Integrator.Evaluate | lib/index.js:21 | One call of the callback writes deriv(state, time) into the output buffer, entry for entry, and changes nothing else. |
| Midpoint.Integrator.FillHalfState | lib/index.js:23-25 | The first loop leaves k2 equal to the half-step state y[i] + k1[i]*dt*0.5 for every i < n. It writes only k2. |
| Midpoint.Integrator.AddUpdate | lib/index.js:29-31 | The second loop adds k1[i]*dt to each y[i] in place and writes only y. |
| Midpoint.Integrator.Step | lib/index.js:19-35 | Returns this. y is the same array object, and n, dt and the callback are unchanged. t becomes old t + dt. k2 holds the half-step state. k1 holds the derivative at (k2, old t + dt/2). Each y[i] becomes old y[i] + that derivative's entry i times dt. Together, the new (y, t) equals StepSpec of the old (y, t). |
| Midpoint.Integrator.Steps | lib/index.js:37-42 | Returns this and keeps the same fields. The new (y, t) equals StepSpec applied max(count, 0) times to the old (y, t). t advances by max(count, 0)*dt. A count of zero or less leaves y, t, k1 and k2 unchanged. |
| Midpoint.HalfState | lib/index.js:24 | Entry i of the half-step state is y[i] + k[i]*dt*0.5, and it has the length of y. |
| Midpoint.FullState | lib/index.js:30 | Entry i of the updated state is y[i] + k[i]*dt, and it has the length of y. |
| Midpoint.MidState | lib/index.js:21-25 | The state at which the second derivative is taken has the length of the current state. Its entries are given by StepSpecAt. |
| Midpoint.StepSpec | lib/index.js:19-35 | One step as a function of the old (y, t). The new state has the old state's length. Its entries and time are given by StepSpecAt. Integrator.Step is proved equal to it. |
| Midpoint.Iterate | lib/index.js:37-42 | k steps in sequence, each applied to the previous one's result. The state keeps its length. Integrator.Steps is proved equal to it, and IterateTime and IterateAdd state its properties. |
| Midpoint.StepSpecAt | lib/index.js:21-33 | One step, entry by entry. The midpoint entry i is y[i] + f(y, t)[i]*dt*0.5. The new entry i is y[i] + f(mid, t + dt*0.5)[i]*dt. The new time is t + dt. |
| Midpoint.IterateTime | lib/index.js:33 | k steps advance the time by exactly k*dt. |
| Midpoint.IterateAdd | lib/index.js:37-42 | Running a steps and then b steps lands where a + b steps land. |
| Midpoint.EquilibriumIsFixed | lib/index.js:19-35 | Suppose the derivative vanishes at a state for every time. Then a step leaves that state unchanged and only advances t by dt. |
| MidpointTests.Rotation | test/test.js:52-55 | The rotation callback of the two-variable test returns a derivative of the state's length; RotationPreservesLength lifts this to the callback precondition. Its values (-y[1], y[0]) enter the proofs through RotationStep. |
| MidpointTests.Decay | test/test.js:23 | The decay callback of the one-variable test returns -y[i] in every entry i, with the state's length. |
| MidpointTests.RotationStep | test/test.js:52-55 | For the rotation test system, one step is the linear map (a, b) to ((1 - dt²/2)a - dt·b, (1 - dt²/2)b + dt·a), with t advanced by dt. |
| MidpointTests.RotationRadiusGrowth | test/test.js:111-120 | Each rotation step multiplies the squared radius by exactly 1 + dt⁴/4. The method therefore drifts off the circle that the convergence test integrates around. |
| MidpointTests.RotatedRadius | test/test.js:111-120 | The polynomial identity behind that growth factor. |
| MidpointTests.DecayStep | test/test.js:23 | For the decay test system, one step multiplies the state by 1 - dt + dt²/2 and advances t by dt. |
| MidpointTests.ScalarIterate | lib/index.js:37-42 | On one-entry states, suppose every step maps the entry by the same function f. Then k steps map it by f applied k times. |
| MidpointTests.ApplyScale | test/test.js:41-44 | Applying multiplication by g k times multiplies by g^k. |
| MidpointTests.DecayIterate | test/test.js:41-44 | k decay steps multiply the state by (1 - dt + dt²/2)^k. |
| MidpointTests.RotationTestValues | test/test.js:57-90 | From [1, 0] at t = 1.5 with dt = 1, one step reaches [0.5, 1] at t = 2.5. Two steps reach [-0.75, 1] at t = 3.5. |
| MidpointTests.DecayTestValue | test/test.js:22-44 | From [1] at t = 1.5 with dt = 1/10, ten steps give exactly 0.905^10 at t = 2.5. That value lies in (0.3685, 0.3686), within 10⁻³ of exp(-1) = 0.36788. |
| MidpointTests.WorkArrayLengths | test/test.js:36-39 | Both work arrays have the input's length. |
| MidpointTests.StepOnce | test/test.js:80-84 | Stepping through the object once and reading the caller's array back gives StepSpec of the initial state. |
| MidpointTests.StepTwice | test/test.js:73-78 | Two calls of step give the two-fold iterate of the initial state. |
| MidpointTests.RunSteps | test/test.js:86-90 | One call of steps(count) gives the max(count, 0)-fold iterate of the initial state. |
| MidpointTests.StepsMatchesRepeatedStep | lib/index.js:37-42 | For any system, steps(2) and two calls of step produce the same state and time, t0 + 2dt. |
| MidpointTests.RotationSingleStep | test/test.js:80-84 | Driving the object through one step of the rotation test yields [0.5, 1] and t = 2.5. |
| MidpointTests.RotationTwoSteps | test/test.js:73-90 | Two step calls and one steps(2) call both yield [-0.75, 1] and t = 3.5. |
| MidpointTests.DecaySteps | test/test.js:41-44 | steps(10) on the decay test yields a value in (0.3685, 0.3686) at t = 2.5. |

## Left out

- Floating point: states, times and step sizes are mathematical reals. Rounding, overflow, NaN and Infinity are not modelled. The test tolerances of 10⁻³ and 10⁻⁴ are replaced by exact values.
- Element type: the constructor copies `y.constructor` to allocate scratch buffers of the same kind (lib/index.js:14). In the model every array is an `array<real>`, so the Float32Array, Float64Array and plain Array variants of the tests collapse into one.
- Midpoint.Integrator.constructor: the initial contents of the scratch buffers are not stated. Every step overwrites them before reading them.
- The callback is a pure, total function. A callback that writes fewer than n entries, reads or writes the integrator, throws, or depends on hidden state is not modelled. `PreservesLength` is the precondition that stands for "fills all n entries".
- Midpoint.Integrator.Steps: the count is an integer. JavaScript would also accept a fractional or non-numeric count and compare it with `<`, which is not modelled.
- The convergence tests (test/test.js:94-125) need Richardson extrapolation, sin, cos and sqrt, which are not part of this model. What the model proves instead is the exact per-step radius growth factor for the rotation (`MidpointTests.RotationRadiusGrowth`).
- The exp(-1) comparison in the decay test: the model proves the exact result 0.905^10 and a bound on it. The exponential function itself is not defined.
- The mocha/chai test scaffolding is not part of this model, and neither is the checking of `_k1.constructor`.
- `MidpointTests.Rotation` is defined for every state length (zeros off length 2), although the tests only use length 2.
