/**
 * What the optimiser wrappers of the adjoint light tracer compute, as functions of the
 * simulator. The simulator's forward pass followed by its backward pass is an objective
 * `phi` and a gradient `grad` of the reduced parameter vector; both are parameters here.
 */
module OptimSpec {
  import opened Numeric

  type Vec = seq<real>

  /** backward() hands back one derivative per reduced parameter. */
  ghost predicate GradShape(grad: Vec -> Vec)
  {
    forall p :: |grad(p)| == |p|
  }

  /**
   * The gradient argument once operator() returns: the simulator's gradient while the run
   * is on, zero once the user has stopped it.
   */
  function Dp(grad: Vec -> Vec, running: bool, p: Vec): (g: Vec)
    requires GradShape(grad)
    ensures |g| == |p|
  {
    if running then grad(p) else Zeros(|p|)
  }

  /** The stopping test of the descent loops: squaredNorm() against the tolerance squared. */
  predicate KeepGoing(g: Vec, tol: real)
  {
    SquaredNorm(g) > Square(tol)
  }

  /** Once the run is stopped the gradient is zero, so no descent loop takes another step. */
  lemma StoppedRunHalts(grad: Vec -> Vec, p: Vec, tol: real)
    requires GradShape(grad)
    ensures !KeepGoing(Dp(grad, false, p), tol)
  {
    SquaredNormZero(Dp(grad, false, p));
    SquareSign(tol);
  }

  /** The record a wrapper keeps of the best evaluation so far. */
  datatype Best = Best(value: real, params: Vec, grad: Vec)

  /** A fresh wrapper: DBL_MAX and empty vectors. */
  const Unset: Best := Best(DBL_MAX, [], [])

  /** One evaluation: the record is replaced only when phi is strictly smaller. */
  function Track(b: Best, p: Vec, phi: real, g: Vec): (r: Best)
    ensures r.value <= b.value && r.value <= phi
    ensures r == b || r == Best(phi, p, g)
    ensures r != b ==> r.value < b.value
  {
    if phi < b.value then Best(phi, p, g) else b
  }

  /** Each later entry of the history has a strictly smaller objective. */
  ghost predicate Decreasing(h: seq<Vec>, phi: Vec -> real)
  {
    forall i, j :: 0 <= i < j < |h| ==> phi(h[j]) < phi(h[i])
  }

  /**
   * The record is what the history says: the history strictly decreases, its first entry
   * beats DBL_MAX, and the record is the fresh one for an empty history and the last entry
   * (its objective, the entry, its gradient) otherwise.
   */
  ghost predicate Tracked(h: seq<Vec>, b: Best, phi: Vec -> real, grad: Vec -> Vec)
  {
    Decreasing(h, phi) &&
    (h == [] ==> b == Unset) &&
    (h != [] ==> phi(h[0]) < DBL_MAX && b == Best(phi(h[|h| - 1]), h[|h| - 1], grad(h[|h| - 1])))
  }

  /** A fresh wrapper with an empty history is tracked. */
  lemma TrackedStart(phi: Vec -> real, grad: Vec -> Vec)
    ensures Tracked([], Unset, phi, grad)
  {
  }

  /** The record is the least entry of a tracked history. */
  lemma TrackedMinimum(h: seq<Vec>, b: Best, phi: Vec -> real, grad: Vec -> Vec)
    requires Tracked(h, b, phi, grad)
    ensures forall i :: 0 <= i < |h| ==> b.value <= phi(h[i])
    ensures b.value <= DBL_MAX
  {
    if h != [] {
      forall i | 0 <= i < |h|
        ensures b.value <= phi(h[i])
      {
        if i < |h| - 1 {
          assert phi(h[|h| - 1]) < phi(h[i]);
        }
      }
      if |h| > 1 {
        assert phi(h[|h| - 1]) < phi(h[0]);
      }
    }
  }

  /**
   * One evaluation keeps the history and the record in step: the point is appended exactly
   * when it improves on the record, and the record then becomes that point.
   */
  lemma TrackedStep(h: seq<Vec>, b: Best, phi: Vec -> real, grad: Vec -> Vec, p: Vec)
    requires Tracked(h, b, phi, grad)
    ensures var h' := h + (if phi(p) < b.value then [p] else []);
      Tracked(h', Track(b, p, phi(p), grad(p)), phi, grad)
  {
    TrackedMinimum(h, b, phi, grad);
    var h' := h + (if phi(p) < b.value then [p] else []);
    if phi(p) < b.value {
      assert forall i :: 0 <= i < |h| ==> h'[i] == h[i];
    }
  }

  // ---------------------------------------------------------------------------------------
  // Gradient descent

  /** One descent update: params -= step * dp. */
  function GDStep(step: real, x: Vec, dp: Vec): (y: Vec)
    requires |x| == |dp|
    ensures |y| == |x|
  {
    Sub(x, Scale(step, dp))
  }

  /** The k-th gradient-descent iterate: params -= step * dp, from p0. */
  function GDPoint(grad: Vec -> Vec, running: bool, step: real, p0: Vec, k: nat): (x: Vec)
    requires GradShape(grad)
    ensures |x| == |p0|
  {
    if k == 0 then p0
    else
      var x := GDPoint(grad, running, step, p0, k - 1);
      GDStep(step, x, Dp(grad, running, x))
  }

  /** x is the k-th iterate, dp its gradient, and every earlier iterate passed the stopping test. */
  ghost predicate GDTrajectory(grad: Vec -> Vec, running: bool, step: real, tol: real, p0: Vec, k: nat, x: Vec, dp: Vec)
  {
    GradShape(grad) && x == GDPoint(grad, running, step, p0, k) && dp == Dp(grad, running, x) &&
    forall j :: 0 <= j < k ==> KeepGoing(Dp(grad, running, GDPoint(grad, running, step, p0, j)), tol)
  }

  /** An iterate that passes the stopping test leads to the next iterate of the trajectory. */
  /** The starting point begins the trajectory, and a value at most its objective bounds it. */
  lemma GDTrajectoryStart(grad: Vec -> Vec, running: bool, step: real, tol: real, p0: Vec, dp: Vec,
                          v: real, phi: Vec -> real)
    requires GradShape(grad) && dp == Dp(grad, running, p0) && v <= phi(p0)
    ensures GDTrajectory(grad, running, step, tol, p0, 0, p0, dp)
    ensures AtMostAlongGD(v, phi, grad, running, step, p0, 0)
  {
    assert GDPoint(grad, running, step, p0, 0) == p0;
  }

  lemma GDTrajectoryStep(grad: Vec -> Vec, running: bool, step: real, tol: real, p0: Vec, k: nat,
                         x: Vec, dp: Vec, y: Vec, dy: Vec)
    requires GDTrajectory(grad, running, step, tol, p0, k, x, dp) && KeepGoing(dp, tol)
    requires y == GDStep(step, x, dp) && dy == Dp(grad, running, y)
    ensures GDTrajectory(grad, running, step, tol, p0, k + 1, y, dy)
  {
  }

  /**
   * The descent loop stops after k updates: every earlier iterate passed the test, and the
   * k-th fails it or the iteration limit is spent.
   */
  ghost predicate GDStopsAt(grad: Vec -> Vec, running: bool, step: real, tol: real, maxIters: nat, p0: Vec, k: nat)
  {
    GradShape(grad) &&
    (forall j :: 0 <= j < k ==> KeepGoing(Dp(grad, running, GDPoint(grad, running, step, p0, j)), tol)) &&
    !(KeepGoing(Dp(grad, running, GDPoint(grad, running, step, p0, k)), tol) && k <= maxIters)
  }

  /** v is at most the objective at each of the first k + 1 iterates. */
  ghost predicate AtMostAlongGD(v: real, phi: Vec -> real, grad: Vec -> Vec, running: bool, step: real, p0: Vec, k: nat)
  {
    GradShape(grad) && forall j :: 0 <= j <= k ==> v <= phi(GDPoint(grad, running, step, p0, j))
  }

  /** A value bounded along the run is at most the objective at the starting point. */
  lemma AtMostAlongGDFirst(v: real, phi: Vec -> real, grad: Vec -> Vec, running: bool, step: real, p0: Vec, k: nat)
    requires AtMostAlongGD(v, phi, grad, running, step, p0, k)
    ensures v <= phi(p0)
  {
    assert GDPoint(grad, running, step, p0, 0) == p0;
  }

  lemma AtMostAlongGDStep(v: real, w: real, phi: Vec -> real, grad: Vec -> Vec, running: bool, step: real, p0: Vec, k: nat)
    requires AtMostAlongGD(v, phi, grad, running, step, p0, k)
    requires w <= v && w <= phi(GDPoint(grad, running, step, p0, k + 1))
    ensures AtMostAlongGD(w, phi, grad, running, step, p0, k + 1)
  {
  }

  /** A point with zero gradient is a fixed point of every later step. */
  lemma {:induction false} GDFixedPoint(grad: Vec -> Vec, running: bool, step: real, p0: Vec, k: nat)
    requires GradShape(grad)
    requires forall i :: 0 <= i < |p0| ==> Dp(grad, running, p0)[i] == 0.0
    ensures GDPoint(grad, running, step, p0, k) == p0
  {
    if k > 0 {
      GDFixedPoint(grad, running, step, p0, k - 1);
      var x := GDPoint(grad, running, step, p0, k);
      assert forall i :: 0 <= i < |p0| ==> x[i] == p0[i];
    }
  }

  // ---------------------------------------------------------------------------------------
  // Adam

  const BETA1: real := 0.9
  const BETA2: real := 0.999
  const ADAM_EPS: real := 0.00000001

  /** sqrt(): never negative on a non-negative argument. */
  ghost predicate NonNegativeRoot(sqrt: real -> real)
  {
    forall r :: r >= 0.0 ==> sqrt(r) >= 0.0
  }

  /** Adam's iterate, moments and the running powers beta1^k, beta2^k. */
  datatype AdamState = AdamState(x: Vec, m: Vec, v: Vec, beta1Exp: real, beta2Exp: real)

  /** What every Adam state satisfies: matching sizes, bias powers in (0, beta], v >= 0. */
  ghost predicate AdamInv(s: AdamState, n: nat)
  {
    |s.x| == n && |s.m| == n && |s.v| == n &&
    0.0 < s.beta1Exp <= BETA1 && 0.0 < s.beta2Exp <= BETA2 &&
    forall i :: 0 <= i < n ==> s.v[i] >= 0.0
  }

  /** The moments start at zero, the powers at beta1 and beta2. */
  function AdamStart(p0: Vec): (s: AdamState)
    ensures AdamInv(s, |p0|) && s.x == p0
    ensures forall i :: 0 <= i < |p0| ==> s.m[i] == 0.0 && s.v[i] == 0.0
  {
    AdamState(p0, Zeros(|p0|), Zeros(|p0|), BETA1, BETA2)
  }

  lemma SquaresNonNegative(g: Vec)
    ensures forall i :: 0 <= i < |g| ==> Square(g[i]) >= 0.0
  {
    forall i | 0 <= i < |g|
      ensures Square(g[i]) >= 0.0
    {
      SquareSign(g[i]);
    }
  }

  /** The second-moment update: never negative when v is not. */
  function SecondMoment(v: Vec, g: Vec): (r: Vec)
    requires |v| == |g|
    requires forall i :: 0 <= i < |v| ==> v[i] >= 0.0
    ensures |r| == |v| && forall i :: 0 <= i < |v| ==> r[i] >= 0.0
  {
    SquaresNonNegative(g);
    seq(|v|, i requires 0 <= i < |v| => BETA2 * v[i] + (1.0 - BETA2) * Square(g[i]))
  }

  /** One Adam update at the gradient g of the current iterate. */
  function AdamUpdate(step: real, sqrt: real -> real, s: AdamState, g: Vec): (t: AdamState)
    requires NonNegativeRoot(sqrt) && AdamInv(s, |s.x|) && |g| == |s.x|
    ensures AdamInv(t, |s.x|)
  {
    var n := |s.x|;
    var m := seq(n, i requires 0 <= i < n => BETA1 * s.m[i] + (1.0 - BETA1) * g[i]);
    var v := SecondMoment(s.v, g);
    var mBias, vBias := 1.0 - s.beta1Exp, 1.0 - s.beta2Exp;
    var x := seq(n, i requires 0 <= i < n =>
      s.x[i] - step * (sqrt(vBias) / mBias) * (m[i] / (sqrt(v[i]) + ADAM_EPS)));
    AdamState(x, m, v, s.beta1Exp * BETA1, s.beta2Exp * BETA2)
  }

  /** With a zero gradient and zero first moment, an update leaves the iterate where it is. */
  lemma AdamZeroGradient(step: real, sqrt: real -> real, s: AdamState, g: Vec)
    requires NonNegativeRoot(sqrt) && AdamInv(s, |s.x|) && |g| == |s.x|
    requires forall i :: 0 <= i < |g| ==> g[i] == 0.0 && s.m[i] == 0.0
    ensures AdamUpdate(step, sqrt, s, g).x == s.x
    ensures forall i :: 0 <= i < |g| ==> AdamUpdate(step, sqrt, s, g).m[i] == 0.0
  {
    var t := AdamUpdate(step, sqrt, s, g);
    forall i | 0 <= i < |g|
      ensures t.m[i] == 0.0 && t.x[i] == s.x[i]
    {
      assert t.m[i] == BETA1 * 0.0 + (1.0 - BETA1) * 0.0;
    }
  }

  /** The Adam state after k updates from p0. */
  function AdamPoint(grad: Vec -> Vec, running: bool, step: real, sqrt: real -> real, p0: Vec, k: nat): (s: AdamState)
    requires GradShape(grad) && NonNegativeRoot(sqrt)
    ensures AdamInv(s, |p0|)
  {
    if k == 0 then AdamStart(p0)
    else
      var s := AdamPoint(grad, running, step, sqrt, p0, k - 1);
      AdamUpdate(step, sqrt, s, Dp(grad, running, s.x))
  }

  /** s is the k-th Adam state, dp its gradient, and every earlier iterate passed the stopping test. */
  ghost predicate AdamTrajectory(grad: Vec -> Vec, running: bool, step: real, sqrt: real -> real, tol: real,
                                 p0: Vec, k: nat, s: AdamState, dp: Vec)
  {
    GradShape(grad) && NonNegativeRoot(sqrt) &&
    s == AdamPoint(grad, running, step, sqrt, p0, k) && dp == Dp(grad, running, s.x) &&
    forall j :: 0 <= j < k ==> KeepGoing(Dp(grad, running, AdamPoint(grad, running, step, sqrt, p0, j).x), tol)
  }

  /** The starting state begins the Adam trajectory, and a value at most its objective bounds it. */
  lemma AdamTrajectoryStart(grad: Vec -> Vec, running: bool, step: real, sqrt: real -> real, tol: real,
                            p0: Vec, dp: Vec, v: real, phi: Vec -> real)
    requires GradShape(grad) && NonNegativeRoot(sqrt) && dp == Dp(grad, running, p0) && v <= phi(p0)
    ensures AdamTrajectory(grad, running, step, sqrt, tol, p0, 0, AdamStart(p0), dp)
    ensures AtMostAlongAdam(v, phi, grad, running, step, sqrt, p0, 0)
  {
    assert AdamPoint(grad, running, step, sqrt, p0, 0) == AdamStart(p0);
  }

  /** A state on the Adam trajectory, with its gradient, is one that an update accepts. */
  lemma AdamTrajectoryShape(grad: Vec -> Vec, running: bool, step: real, sqrt: real -> real, tol: real,
                            p0: Vec, k: nat, s: AdamState, dp: Vec)
    requires AdamTrajectory(grad, running, step, sqrt, tol, p0, k, s, dp)
    ensures NonNegativeRoot(sqrt) && AdamInv(s, |s.x|) && |dp| == |s.x|
  {
  }

  lemma AdamTrajectoryStep(grad: Vec -> Vec, running: bool, step: real, sqrt: real -> real, tol: real,
                           p0: Vec, k: nat, s: AdamState, dp: Vec, t: AdamState, dt: Vec)
    requires AdamTrajectory(grad, running, step, sqrt, tol, p0, k, s, dp) && KeepGoing(dp, tol)
    requires t == AdamUpdate(step, sqrt, s, dp) && dt == Dp(grad, running, t.x)
    ensures AdamTrajectory(grad, running, step, sqrt, tol, p0, k + 1, t, dt)
  {
  }

  /** The Adam loop stops after k updates. */
  ghost predicate AdamStopsAt(grad: Vec -> Vec, running: bool, step: real, sqrt: real -> real, tol: real,
                              maxIters: nat, p0: Vec, k: nat)
  {
    GradShape(grad) && NonNegativeRoot(sqrt) &&
    (forall j :: 0 <= j < k ==> KeepGoing(Dp(grad, running, AdamPoint(grad, running, step, sqrt, p0, j).x), tol)) &&
    !(KeepGoing(Dp(grad, running, AdamPoint(grad, running, step, sqrt, p0, k).x), tol) && k <= maxIters)
  }

  /** v is at most the objective at each of the first k + 1 Adam iterates. */
  ghost predicate AtMostAlongAdam(v: real, phi: Vec -> real, grad: Vec -> Vec, running: bool, step: real,
                                  sqrt: real -> real, p0: Vec, k: nat)
  {
    GradShape(grad) && NonNegativeRoot(sqrt) &&
    forall j :: 0 <= j <= k ==> v <= phi(AdamPoint(grad, running, step, sqrt, p0, j).x)
  }

  /** A value bounded along the Adam run is at most the objective at the starting point. */
  lemma AtMostAlongAdamFirst(v: real, phi: Vec -> real, grad: Vec -> Vec, running: bool, step: real,
                             sqrt: real -> real, p0: Vec, k: nat)
    requires AtMostAlongAdam(v, phi, grad, running, step, sqrt, p0, k)
    ensures v <= phi(p0)
  {
    assert AdamPoint(grad, running, step, sqrt, p0, 0).x == p0;
  }

  lemma AtMostAlongAdamStep(v: real, w: real, phi: Vec -> real, grad: Vec -> Vec, running: bool, step: real,
                            sqrt: real -> real, p0: Vec, k: nat)
    requires AtMostAlongAdam(v, phi, grad, running, step, sqrt, p0, k)
    requires w <= v && w <= phi(AdamPoint(grad, running, step, sqrt, p0, k + 1).x)
    ensures AtMostAlongAdam(w, phi, grad, running, step, sqrt, p0, k + 1)
  {
  }

  // ---------------------------------------------------------------------------------------
  // Finite-difference checks

  /** The forward-difference gradient estimate (phi(p + h e_k) - phi(p)) / h. */
  function ForwardFD(phi: Vec -> real, p: Vec, h: real): (d: Vec)
    requires h != 0.0
    ensures |d| == |p|
  {
    seq(|p|, k requires 0 <= k < |p| => (phi(p[k := p[k] + h]) - phi(p)) / h)
  }

  /** The central-difference estimate (phi(p + h e_k) - phi(p - h e_k)) / (2h). */
  function CentralFD(phi: Vec -> real, p: Vec, h: real): (d: Vec)
    requires h != 0.0
    ensures |d| == |p|
  {
    seq(|p|, k requires 0 <= k < |p| => (phi(p[k := p[k] + h]) - phi(p[k := p[k] - h])) / (2.0 * h))
  }

  /** The forward check's final array operation: (dpFd - phi) / h, entry by entry. */
  function ForwardEstimate(fd: Vec, phi: real, h: real): (d: Vec)
    requires h != 0.0
    ensures |d| == |fd|
  {
    seq(|fd|, j requires 0 <= j < |fd| => (fd[j] - phi) / h)
  }

  /** Probing every axis and applying the final operation gives the forward estimate. */
  lemma ForwardEstimateIsFD(phi: Vec -> real, p: Vec, h: real, fd: Vec)
    requires h != 0.0 && |fd| == |p| && ProbedUp(phi, p, h, fd)
    ensures ForwardEstimate(fd, phi(p), h) == ForwardFD(phi, p, h)
  {
  }

  /** The central check's final array operation: (dpFd - dpBd) / (2h), entry by entry. */
  function CentralEstimate(fd: Vec, bd: Vec, h: real): (d: Vec)
    requires h != 0.0 && |fd| == |bd|
    ensures |d| == |fd|
  {
    seq(|fd|, j requires 0 <= j < |fd| => (fd[j] - bd[j]) / (2.0 * h))
  }

  /** fd holds the upward probes of the first |fd| components, in component order. */
  ghost predicate ProbedUp(phi: Vec -> real, p: Vec, h: real, fd: Vec)
  {
    |fd| <= |p| && forall j :: 0 <= j < |fd| ==> fd[j] == phi(p[j := p[j] + h])
  }

  /** bd holds the downward probes of the first |bd| components, in component order. */
  ghost predicate ProbedDown(phi: Vec -> real, p: Vec, h: real, bd: Vec)
  {
    |bd| <= |p| && forall j :: 0 <= j < |bd| ==> bd[j] == phi(p[j := p[j] - h])
  }

  /** One more upward probe, of the next component, keeps the probes in component order. */
  lemma UpProbeAppended(phi: Vec -> real, p: Vec, h: real, fd: Vec, v: real)
    requires ProbedUp(phi, p, h, fd) && |fd| < |p|
    requires v == phi(p[|fd| := p[|fd|] + h])
    ensures ProbedUp(phi, p, h, fd + [v])
  {
  }

  /** One more downward probe, of the next component, keeps the probes in component order. */
  lemma DownProbeAppended(phi: Vec -> real, p: Vec, h: real, bd: Vec, v: real)
    requires ProbedDown(phi, p, h, bd) && |bd| < |p|
    requires v == phi(p[|bd| := p[|bd|] - h])
    ensures ProbedDown(phi, p, h, bd + [v])
  {
  }

  /** Probing every axis both ways and applying the final operation gives the central estimate. */
  lemma CentralEstimateIsFD(phi: Vec -> real, p: Vec, h: real, fd: Vec, bd: Vec)
    requires h != 0.0 && |fd| == |p| && |bd| == |p|
    requires ProbedUp(phi, p, h, fd) && ProbedDown(phi, p, h, bd)
    ensures CentralEstimate(fd, bd, h) == CentralFD(phi, p, h)
  {
  }

  /** a . x */
  function Dot(a: Vec, x: Vec): real
    requires |a| == |x|
  {
    if a == [] then 0.0 else Dot(a[..|a| - 1], x[..|x| - 1]) + a[|a| - 1] * x[|x| - 1]
  }

  /** Setting x[k] to w moves a . x by a[k] * (w - x[k]). */
  lemma {:induction false} DotSet(a: Vec, x: Vec, k: nat, w: real)
    requires |a| == |x| && k < |x|
    ensures Dot(a, x[k := w]) == Dot(a, x) + a[k] * (w - x[k])
  {
    var n := |x|;
    var y := x[k := w];
    if k == n - 1 {
      assert y[..n - 1] == x[..n - 1];
      calc {
        a[n - 1] * w;
      ==
        a[n - 1] * (x[n - 1] + (w - x[n - 1]));
      ==
        a[n - 1] * x[n - 1] + a[n - 1] * (w - x[n - 1]);
      }
    } else {
      assert y[..n - 1] == x[..n - 1][k := w];
      DotSet(a[..n - 1], x[..n - 1], k, w);
    }
  }

  /** (u - mid) / h == a when u sits a * h above mid. */
  lemma ForwardQuotient(mid: real, u: real, a: real, h: real)
    requires h != 0.0 && u == mid + a * h
    ensures (u - mid) / h == a
  {
    calc {
      (u - mid) / h;
    ==
      (a * h) / h;
    ==
      a;
    }
  }

  /** (u - d) / (2h) == a when u and d sit a * h above and below mid. */
  lemma CentralQuotient(mid: real, u: real, d: real, a: real, h: real)
    requires h != 0.0 && u == mid + a * h && d == mid - a * h
    ensures (u - d) / (2.0 * h) == a
  {
    calc {
      u - d;
    ==
      a * h + a * h;
    ==
      a * (2.0 * h);
    }
    ForwardQuotient(d, u, a, 2.0 * h);
  }

  /** phi moves by a[k] * h when p[k] is set to w = p[k] + h, for an affine objective. */
  lemma AffineMove(phi: Vec -> real, a: Vec, c: real, p: Vec, k: nat, w: real, h: real)
    requires |a| == |p| && k < |p| && w - p[k] == h
    requires phi(p[k := w]) == c + Dot(a, p[k := w]) && phi(p) == c + Dot(a, p)
    ensures phi(p[k := w]) == phi(p) + a[k] * h
  {
    var y := p[k := w];
    DotSet(a, p, k, w);
    ScaledBy(a[k], w - p[k], h);
    AffineShift(phi(y), phi(p), c, Dot(a, y), Dot(a, p), a[k] * (w - p[k]), a[k] * h);
  }

  /** phi moves by -a[k] * h when p[k] moves down by h, for an affine objective. */
  lemma AffineMoveDown(phi: Vec -> real, a: Vec, c: real, p: Vec, k: nat, h: real)
    requires |a| == |p| && k < |p|
    requires phi(p[k := p[k] - h]) == c + Dot(a, p[k := p[k] - h]) && phi(p) == c + Dot(a, p)
    ensures phi(p[k := p[k] - h]) == phi(p) - a[k] * h
  {
    var w := p[k] - h;
    var y := p[k := w];
    DotSet(a, p, k, w);
    NegatedScale(a[k], w - p[k], h);
    AffineShift(phi(y), phi(p), c, Dot(a, y), Dot(a, p), a[k] * (w - p[k]), -(a[k] * h));
  }

  /** Two values of an affine objective differ by the difference of their dot products. */
  lemma AffineShift(atY: real, atP: real, c: real, dotY: real, dotP: real, moved: real, shift: real)
    requires atY == c + dotY && atP == c + dotP && dotY == dotP + moved && moved == shift
    ensures atY == atP + shift
  {
  }

  lemma ScaledBy(s: real, d: real, h: real)
    requires d == h
    ensures s * d == s * h
  {
  }

  lemma NegatedScale(s: real, d: real, h: real)
    requires d == -h
    ensures s * d == -(s * h)
  {
  }

  /** Along every axis an affine objective moves by a[k] * h up and -a[k] * h down. */
  lemma AffineSlopes(phi: Vec -> real, a: Vec, c: real, p: Vec, h: real)
    requires |a| == |p|
    requires forall x :: |x| == |a| ==> phi(x) == c + Dot(a, x)
    ensures forall k :: 0 <= k < |p| ==> phi(p[k := p[k] + h]) == phi(p) + a[k] * h
    ensures forall k :: 0 <= k < |p| ==> phi(p[k := p[k] - h]) == phi(p) - a[k] * h
  {
    forall k | 0 <= k < |p|
      ensures phi(p[k := p[k] + h]) == phi(p) + a[k] * h
      ensures phi(p[k := p[k] - h]) == phi(p) - a[k] * h
    {
      AffineMove(phi, a, c, p, k, p[k] + h, h);
      AffineMoveDown(phi, a, c, p, k, h);
    }
  }

  /** The forward estimate recovers every axis slope. */
  lemma ForwardFDRecoversSlopes(phi: Vec -> real, a: Vec, p: Vec, h: real)
    requires h != 0.0 && |a| == |p|
    requires forall k :: 0 <= k < |p| ==> phi(p[k := p[k] + h]) == phi(p) + a[k] * h
    ensures ForwardFD(phi, p, h) == a
  {
    var fd := ForwardFD(phi, p, h);
    forall k | 0 <= k < |p|
      ensures fd[k] == a[k]
    {
      ForwardQuotient(phi(p), phi(p[k := p[k] + h]), a[k], h);
    }
  }

  /** The central estimate recovers every axis slope. */
  lemma CentralFDRecoversSlopes(phi: Vec -> real, a: Vec, p: Vec, h: real)
    requires h != 0.0 && |a| == |p|
    requires forall k :: 0 <= k < |p| ==> phi(p[k := p[k] + h]) == phi(p) + a[k] * h
    requires forall k :: 0 <= k < |p| ==> phi(p[k := p[k] - h]) == phi(p) - a[k] * h
    ensures CentralFD(phi, p, h) == a
  {
    var fd := CentralFD(phi, p, h);
    forall k | 0 <= k < |p|
      ensures fd[k] == a[k]
    {
      CentralQuotient(phi(p), phi(p[k := p[k] + h]), phi(p[k := p[k] - h]), a[k], h);
    }
  }

  /** Both estimates are exact for an affine objective phi(x) = c + a . x. */
  lemma FDExactForAffine(phi: Vec -> real, a: Vec, c: real, p: Vec, h: real)
    requires h != 0.0 && |a| == |p|
    requires forall x :: |x| == |a| ==> phi(x) == c + Dot(a, x)
    ensures ForwardFD(phi, p, h) == a
    ensures CentralFD(phi, p, h) == a
  {
    AffineSlopes(phi, a, c, p, h);
    ForwardFDRecoversSlopes(phi, a, p, h);
    CentralFDRecoversSlopes(phi, a, p, h);
  }

  // ---------------------------------------------------------------------------------------
  // Sanitising and colour conversion in the optimiser

  /** A non-finite gradient entry becomes zero. */
  function CleanEntry(d: Double): (r: Double)
    ensures r.Finite? && (d.Finite? ==> r == d) && (d.NonFinite? ==> r.value == 0.0)
  {
    if d.Finite? then d else Finite(0.0)
  }

  /**
   * The objective and constraint value handed on: DBL_MAX and 0 when either is non-finite,
   * so that a broken evaluation never looks like an improvement.
   */
  function SanitizeObjective(phi: Double, phiC: Double): (r: (real, real))
    ensures phi.Finite? && phiC.Finite? ==> r == (phi.value, phiC.value)
    ensures !(phi.Finite? && phiC.Finite?) ==> r == (DBL_MAX, 0.0)
  {
    if phi.NonFinite? || phiC.NonFinite? then (DBL_MAX, 0.0) else (phi.value, phiC.value)
  }

  /** clampToColor: scale by 255, clamp to [0, 255], truncate to an unsigned char. */
  function ClampToColor(c: real): (b: int)
    ensures 0 <= b <= 255
    ensures c <= 0.0 ==> b == 0
    ensures c >= 1.0 ==> b == 255
    ensures 0.0 <= c <= 1.0 ==> b as real <= 255.0 * c < b as real + 1.0
  {
    var s := c * 255.0;
    if s < 0.0 then 0 else if s > 255.0 then 255 else s.Floor
  }

  /** Brighter input never gives a darker byte. */
  lemma ClampToColorMonotone(c1: real, c2: real)
    requires c1 <= c2
    ensures ClampToColor(c1) <= ClampToColor(c2)
  {
    var s1, s2 := c1 * 255.0, c2 * 255.0;
    if 0.0 <= s1 && s2 <= 255.0 {
      assert s1.Floor as real <= s1 <= s2 < s2.Floor as real + 1.0;
    }
  }
}
