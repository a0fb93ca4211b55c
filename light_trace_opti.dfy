/**
 * The optimiser driver of the adjoint light tracer: the LightTraceOptimizer's history and
 * run flag, its optimize() dispatch, and the optimiser wrappers (gradient descent, Adam and
 * the two finite-difference checks) that call back into it.
 *
 * The GPU forward and backward passes are the simulator's `objective` and `gradient`
 * functions; each evaluation of the wrappers is one forward pass followed by one backward
 * pass at the given parameter vector.
 */
module LightTraceOpti {
  import opened Numeric
  import opened OptimSpec
  import opened Wrappers

  /** The pair the wrappers and optimize() return. */
  datatype OptimizationResult = OptimizationResult(bestObjectiveValue: real, lastPhi: real)

  /** The optimiser ids of the Optimizers enumeration. */
  const LBFGS: nat := 0
  const GD: nat := 1
  const ADAM: nat := 2
  const FD_FORWARD: nat := 3
  const FD_CENTRAL: nat := 4
  const FD_CENTRAL_ADAM: nat := 5
  const CMA_ES: nat := 6

  /** The gradient tolerance of the descent wrappers. */
  const GRAD_TOLERANCE: real := 0.000001

  class LightTraceOptimizer {
    /** forward() then backward(): the objective and the reduced gradient at a parameter vector. */
    const objective: Vec -> real
    const gradient: Vec -> Vec
    /** The number of lights the GPU light data holds. */
    const lightCount: nat
    /** mParams: the reduced parameter vector. */
    var params: Vec
    var history: seq<Vec>
    var currentHistoryIndex: int
    var running: bool

    ghost predicate Valid()
      reads this
    {
      currentHistoryIndex == |history| - 1 && GradShape(gradient)
    }

    constructor(objective: Vec -> real, gradient: Vec -> Vec, lightCount: nat, params: Vec)
      requires GradShape(gradient)
      ensures Valid() && history == [] && !running
      ensures this.objective == objective && this.gradient == gradient
      ensures this.lightCount == lightCount && this.params == params
    {
      this.objective := objective;
      this.gradient := gradient;
      this.lightCount := lightCount;
      this.params := params;
      history := [];
      currentHistoryIndex := -1;
      running := false;
    }

    /** addCurrentStateToHistory: one more entry, and the index moves onto it. */
    method AddCurrentStateToHistory(p: Vec)
      requires Valid()
      modifies `history, `currentHistoryIndex
      ensures Valid()
      ensures history == old(history) + [p] && currentHistoryIndex == old(currentHistoryIndex) + 1
    {
      currentHistoryIndex := currentHistoryIndex + 1;
      history := history + [p];
    }

    method GetHistorySize() returns (n: nat)
      requires Valid()
      ensures n == |history| && n == currentHistoryIndex + 1
    {
      n := |history|;
    }

    /** clearHistory: index -1 and nothing stored. */
    method ClearHistory()
      requires Valid()
      modifies this
      ensures Valid() && history == [] && currentHistoryIndex == -1
      ensures params == old(params) && running == old(running)
    {
      currentHistoryIndex := -1;
      history := [];
    }

    /** exportHistory: hands over the stored entries and leaves the history empty. */
    method ExportHistory() returns (h: seq<Vec>)
      requires Valid()
      modifies this
      ensures h == old(history) && history == [] && Valid()
      ensures params == old(params) && running == old(running)
    {
      h := history;
      ClearHistory();
    }

    method SetOptimizationRunning(run: bool)
      modifies this
      ensures running == run
      ensures params == old(params) && history == old(history)
      ensures currentHistoryIndex == old(currentHistoryIndex)
    {
      running := run;
    }

    /**
     * optimize(): nothing happens without lights; otherwise the run flag is raised, the
     * history cleared, the chosen wrapper run on the parameter vector, and the flag lowered.
     * The descent runs leave the best parameters in place; the finite-difference checks leave
     * the parameters as they were. L-BFGS, CMA-ES and the finite-difference Adam are not part
     * of this model: for them and for unknown ids the result is None.
     */
    method Optimize(optimizer: nat, stepSize: real, maxIters: nat, sqrt: real -> real)
      returns (r: Option<OptimizationResult>)
      requires Valid() && NonNegativeRoot(sqrt)
      requires lightCount > 0 && (optimizer == FD_FORWARD || optimizer == FD_CENTRAL) ==> stepSize != 0.0
      modifies this
      ensures Valid()
      ensures lightCount == 0 ==>
        r == Some(OptimizationResult(0.0, 0.0)) &&
        history == old(history) && params == old(params) && running == old(running)
      ensures lightCount > 0 ==> !running && Decreasing(history, objective)
      ensures lightCount > 0 && (optimizer == GD || optimizer == ADAM) ==>
        r.Some? && r.value.bestObjectiveValue <= objective(old(params)) &&
        (history == [] ==> params == [] && r.value.bestObjectiveValue == DBL_MAX) &&
        (history != [] ==> params == history[|history| - 1] && r.value.bestObjectiveValue == objective(params))
      ensures lightCount > 0 && (optimizer == FD_FORWARD || optimizer == FD_CENTRAL) ==>
        r == Some(OptimizationResult(objective(old(params)), objective(old(params)))) &&
        params == old(params)
      ensures lightCount > 0 && !(optimizer in {GD, ADAM, FD_FORWARD, FD_CENTRAL}) ==>
        r == None && history == [] && params == old(params)
    {
      if lightCount == 0 {
        return Some(OptimizationResult(0.0, 0.0));
      }
      SetOptimizationRunning(true);
      ClearHistory();
      if optimizer == GD || optimizer == ADAM {
        var res, best := Descend(optimizer == ADAM, stepSize, maxIters, sqrt);
        params := best;
        r := Some(res);
      } else if optimizer == FD_FORWARD || optimizer == FD_CENTRAL {
        var res := Check(optimizer == FD_CENTRAL, stepSize, maxIters, sqrt);
        r := Some(res);
      } else {
        r := None;
      }
      SetOptimizationRunning(false);
    }

    /** The gradient-descent or Adam branch of optimize(): a fresh wrapper run from params. */
    method Descend(adam: bool, stepSize: real, maxIters: nat, sqrt: real -> real)
      returns (res: OptimizationResult, best: Vec)
      requires Valid() && history == [] && NonNegativeRoot(sqrt)
      modifies this
      ensures Valid() && running == old(running) && params == old(params)
      ensures Decreasing(history, objective)
      ensures res.bestObjectiveValue <= objective(params)
      ensures history == [] ==> best == [] && res.bestObjectiveValue == DBL_MAX
      ensures history != [] ==> best == history[|history| - 1] && res.bestObjectiveValue == objective(best)
    {
      TrackedStart(objective, gradient);
      var w := new OptimWrapper(this, maxIters, stepSize);
      if adam {
        res, best := w.RunAdam(params, sqrt);
        AtMostAlongAdamFirst(w.bestObjectiveValue, objective, gradient, running, stepSize, sqrt, params, w.iters);
      } else {
        res, best := w.RunGradientDescent(params);
        AtMostAlongGDFirst(w.bestObjectiveValue, objective, gradient, running, stepSize, params, w.iters);
      }
    }

    /** The finite-difference branch of optimize(): the check runs on a copy of params in place. */
    method Check(central: bool, stepSize: real, maxIters: nat, sqrt: real -> real) returns (res: OptimizationResult)
      requires Valid() && history == [] && stepSize != 0.0
      modifies this
      ensures Valid() && running == old(running) && params == old(params)
      ensures Decreasing(history, objective)
      ensures res == OptimizationResult(objective(params), objective(params))
    {
      TrackedStart(objective, gradient);
      var w := new OptimWrapper(this, maxIters, stepSize);
      var ps := params;
      var a := new real[|ps|](i requires 0 <= i < |ps| => ps[i]);
      assert a[..] == ps;
      if central {
        res := w.RunCentralCheck(a, sqrt);
      } else {
        res := w.RunForwardCheck(a, sqrt);
      }
    }
  }

  /**
   * The optimiser wrapper: one evaluation per call of operator(), a best-so-far record, and
   * the counters. The descent and check runs are its methods.
   */
  class OptimWrapper {
    const sim: LightTraceOptimizer
    var bestObjectiveValue: real
    var bestRunParameters: Vec
    var bestRunGradient: Vec
    var evals: nat
    var iters: nat
    const maxIters: nat
    const stepSize: real
    const gradTolerance: real

    function Record(): Best
      reads this
    {
      Best(bestObjectiveValue, bestRunParameters, bestRunGradient)
    }

    /** The simulator is consistent and the record follows its history. */
    ghost predicate Valid()
      reads this, sim
    {
      sim.Valid() && Tracked(sim.history, Record(), sim.objective, sim.gradient)
    }

    /**
     * A fresh wrapper: best objective DBL_MAX, empty vectors, tolerance 1e-6. optimize() sets
     * the iteration limit and the step right after construction; here they are arguments.
     */
    constructor(sim: LightTraceOptimizer, maxIters: nat, stepSize: real)
      ensures this.sim == sim && Record() == Unset
      ensures evals == 0 && iters == 0 && this.maxIters == maxIters
      ensures this.stepSize == stepSize && gradTolerance == GRAD_TOLERANCE
    {
      this.sim := sim;
      bestObjectiveValue := DBL_MAX;
      bestRunParameters := [];
      bestRunGradient := [];
      evals := 0;
      iters := 0;
      this.maxIters := maxIters;
      this.stepSize := stepSize;
      gradTolerance := GRAD_TOLERANCE;
    }

    /**
     * operator(): one forward and backward pass. The record and the history take the point
     * only when it strictly improves on the record; the returned gradient is zero once the
     * run has been stopped.
     */
    method Evaluate(p: Vec) returns (phi: real, g: Vec)
      requires Valid()
      modifies this, sim`history, sim`currentHistoryIndex
      ensures Valid()
      ensures phi == sim.objective(p) && g == Dp(sim.gradient, sim.running, p)
      ensures evals == old(evals) + 1 && iters == old(iters)
      ensures Record() == Track(old(Record()), p, phi, sim.gradient(p))
      ensures bestObjectiveValue <= old(bestObjectiveValue) && bestObjectiveValue <= phi
      ensures sim.history == old(sim.history) + (if phi < old(bestObjectiveValue) then [p] else [])
    {
      ghost var h0, b0 := sim.history, Record();
      TrackedStep(h0, b0, sim.objective, sim.gradient, p);
      phi := sim.objective(p);
      g := sim.gradient(p);
      evals := evals + 1;
      if phi < bestObjectiveValue {
        sim.AddCurrentStateToHistory(p);
        bestObjectiveValue := phi;
        bestRunParameters := p;
        bestRunGradient := g;
      }
      assert sim.history == h0 + (if phi < b0.value then [p] else []);
      assert Record() == Track(b0, p, phi, g);
      if !sim.running {
        g := Zeros(|p|);
      }
    }

    /**
     * A descent run from p0 after `iters` updates: x is the iterate, dp its gradient, phi its
     * objective, every earlier iterate passed the stopping test, and the record is at or below
     * b0 and the objective of every iterate so far.
     */
    ghost predicate OnGDRun(p0: Vec, x: Vec, dp: Vec, phi: real, b0: real)
      reads this, sim
    {
      Valid() && evals == iters + 1 &&
      GDTrajectory(sim.gradient, sim.running, stepSize, gradTolerance, p0, iters, x, dp) &&
      phi == sim.objective(x) &&
      AtMostAlongGD(bestObjectiveValue, sim.objective, sim.gradient, sim.running, stepSize, p0, iters) &&
      bestObjectiveValue <= b0
    }

    /** The start of a descent run: counters reset and the starting point evaluated. */
    method GDStart(p0: Vec) returns (x: Vec, phi: real, dp: Vec)
      requires Valid()
      modifies this, sim`history, sim`currentHistoryIndex
      ensures OnGDRun(p0, x, dp, phi, old(bestObjectiveValue)) && iters == 0
    {
      iters := 0;
      evals := 0;
      x := p0;
      phi, dp := Evaluate(x);
      GDTrajectoryStart(sim.gradient, sim.running, stepSize, gradTolerance, p0, dp, bestObjectiveValue, sim.objective);
    }

    /** One pass of the descent loop: count it, step against the gradient, evaluate. */
    method GDIterate(p0: Vec, x: Vec, dp: Vec, ghost phi: real, ghost b0: real) returns (y: Vec, phiY: real, dy: Vec)
      requires OnGDRun(p0, x, dp, phi, b0) && KeepGoing(dp, gradTolerance)
      modifies this, sim`history, sim`currentHistoryIndex
      ensures OnGDRun(p0, y, dy, phiY, b0)
      ensures iters == old(iters) + 1
    {
      ghost var k, v := iters, bestObjectiveValue;
      iters := iters + 1;
      y := GDStep(stepSize, x, dp);
      phiY, dy := Evaluate(y);
      GDTrajectoryStep(sim.gradient, sim.running, stepSize, gradTolerance, p0, k, x, dp, y, dy);
      AtMostAlongGDStep(v, bestObjectiveValue, sim.objective, sim.gradient, sim.running, stepSize, p0, k);
    }

    /**
     * Gradient descent: params -= step * dp while the squared gradient norm exceeds the
     * tolerance squared and at most maxIters + 1 times. The record ends at or below the
     * objective of every iterate, and the best parameters are returned.
     */
    method RunGradientDescent(params: Vec) returns (r: OptimizationResult, best: Vec)
      requires Valid()
      modifies this, sim`history, sim`currentHistoryIndex
      ensures Valid()
      ensures iters <= maxIters + 1 && evals == iters + 1
      ensures GDStopsAt(sim.gradient, sim.running, stepSize, gradTolerance, maxIters, params, iters)
      ensures r.lastPhi == sim.objective(GDPoint(sim.gradient, sim.running, stepSize, params, iters))
      ensures AtMostAlongGD(bestObjectiveValue, sim.objective, sim.gradient, sim.running, stepSize, params, iters)
      ensures bestObjectiveValue <= old(bestObjectiveValue)
      ensures best == bestRunParameters && r.bestObjectiveValue == bestObjectiveValue
    {
      ghost var b0 := bestObjectiveValue;
      var x, phi, dp := GDStart(params);
      while KeepGoing(dp, gradTolerance) && iters <= maxIters
        invariant OnGDRun(params, x, dp, phi, b0) && iters <= maxIters + 1
        decreases maxIters + 1 - iters
      {
        x, phi, dp := GDIterate(params, x, dp, phi, b0);
      }
      best := bestRunParameters;
      r := OptimizationResult(bestObjectiveValue, phi);
    }

    /** An Adam run from p0 after `iters` updates, as OnGDRun for the Adam state s. */
    ghost predicate OnAdamRun(p0: Vec, sqrt: real -> real, s: AdamState, dp: Vec, phi: real, b0: real)
      reads this, sim
    {
      Valid() && evals == iters + 1 &&
      AdamTrajectory(sim.gradient, sim.running, stepSize, sqrt, gradTolerance, p0, iters, s, dp) &&
      phi == sim.objective(s.x) &&
      AtMostAlongAdam(bestObjectiveValue, sim.objective, sim.gradient, sim.running, stepSize, sqrt, p0, iters) &&
      bestObjectiveValue <= b0
    }

    /** The start of an Adam run: counters reset, zero moments, the starting point evaluated. */
    method AdamBegin(p0: Vec, sqrt: real -> real) returns (s: AdamState, phi: real, dp: Vec)
      requires Valid() && NonNegativeRoot(sqrt)
      modifies this, sim`history, sim`currentHistoryIndex
      ensures OnAdamRun(p0, sqrt, s, dp, phi, old(bestObjectiveValue)) && iters == 0
    {
      iters := 0;
      evals := 0;
      s := AdamStart(p0);
      phi, dp := Evaluate(p0);
      AdamTrajectoryStart(sim.gradient, sim.running, stepSize, sqrt, gradTolerance, p0, dp, bestObjectiveValue, sim.objective);
    }

    /** One pass of the Adam loop: count it, update the moments and the iterate, evaluate. */
    method AdamIterate(p0: Vec, sqrt: real -> real, s: AdamState, dp: Vec, ghost phi: real, ghost b0: real)
      returns (t: AdamState, phiT: real, dt: Vec)
      requires OnAdamRun(p0, sqrt, s, dp, phi, b0) && KeepGoing(dp, gradTolerance)
      modifies this, sim`history, sim`currentHistoryIndex
      ensures OnAdamRun(p0, sqrt, t, dt, phiT, b0)
      ensures iters == old(iters) + 1
    {
      ghost var k, v := iters, bestObjectiveValue;
      AdamTrajectoryShape(sim.gradient, sim.running, stepSize, sqrt, gradTolerance, p0, k, s, dp);
      t := AdamUpdate(stepSize, sqrt, s, dp);
      iters := iters + 1;
      phiT, dt := Evaluate(t.x);
      AdamTrajectoryStep(sim.gradient, sim.running, stepSize, sqrt, gradTolerance, p0, k, s, dp, t, dt);
      AtMostAlongAdamStep(v, bestObjectiveValue, sim.objective, sim.gradient, sim.running, stepSize, sqrt, p0, k);
    }

    /**
     * Adam: first and second moments from zero, bias-corrected step, the same stopping test
     * as gradient descent; the best parameters are returned.
     */
    method RunAdam(params: Vec, sqrt: real -> real) returns (r: OptimizationResult, best: Vec)
      requires Valid() && NonNegativeRoot(sqrt)
      modifies this, sim`history, sim`currentHistoryIndex
      ensures Valid()
      ensures iters <= maxIters + 1 && evals == iters + 1
      ensures AdamStopsAt(sim.gradient, sim.running, stepSize, sqrt, gradTolerance, maxIters, params, iters)
      ensures r.lastPhi == sim.objective(AdamPoint(sim.gradient, sim.running, stepSize, sqrt, params, iters).x)
      ensures AtMostAlongAdam(bestObjectiveValue, sim.objective, sim.gradient, sim.running, stepSize, sqrt, params, iters)
      ensures bestObjectiveValue <= old(bestObjectiveValue)
      ensures best == bestRunParameters && r.bestObjectiveValue == bestObjectiveValue
    {
      ghost var b0 := bestObjectiveValue;
      var s, phi, dp := AdamBegin(params, sqrt);
      while KeepGoing(dp, gradTolerance) && iters <= maxIters
        invariant OnAdamRun(params, sqrt, s, dp, phi, b0) && iters <= maxIters + 1
        decreases maxIters + 1 - iters
      {
        s, phi, dp := AdamIterate(params, sqrt, s, dp, phi, b0);
      }
      best := bestRunParameters;
      r := OptimizationResult(bestObjectiveValue, phi);
    }

    /**
     * One probe of a check: component k is set to w, the parameters are evaluated, and the
     * component is restored.
     */
    method EvaluateWith(params: array<real>, k: nat, w: real) returns (phi: real)
      requires Valid() && k < params.Length
      modifies this, sim`history, sim`currentHistoryIndex, params
      ensures Valid()
      ensures evals == old(evals) + 1 && iters == old(iters)
      ensures params[..] == old(params[..])
      ensures phi == sim.objective(old(params[..])[k := w])
    {
      ghost var p := params[..];
      var tmp := params[k];
      params[k] := w;
      assert params[..] == p[k := w];
      var unused;
      phi, unused := Evaluate(params[..]);
      params[k] := tmp;
      assert params[..] == p;
    }

    /**
     * The probing loop of the forward check: p + h e_k evaluated for every component k, the
     * results collected in order.
     */
    method ForwardProbes(params: array<real>, h: real) returns (fd: Vec)
      requires Valid() && iters == 0
      modifies this, sim`history, sim`currentHistoryIndex, params
      ensures Valid()
      ensures iters == params.Length && evals == old(evals) + params.Length
      ensures params[..] == old(params[..])
      ensures |fd| == params.Length && ProbedUp(sim.objective, params[..], h, fd)
    {
      ghost var p, phi := params[..], sim.objective;
      fd := [];
      var k := 0;
      while k < params.Length
        invariant Valid() && sim.objective == phi
        invariant 0 <= k <= params.Length && iters == k && evals == old(evals) + k
        invariant params[..] == p
        invariant |fd| == k && ProbedUp(phi, p, h, fd)
      {
        fd := ForwardProbeStep(params, h, phi, p, fd);
        k := k + 1;
      }
    }

    /** One pass of the forward check's loop: the next component probed upward and appended. */
    method ForwardProbeStep(params: array<real>, h: real, ghost phi: Vec -> real, ghost p: Vec, fd: Vec)
      returns (fd': Vec)
      requires Valid() && sim.objective == phi && params[..] == p
      requires |fd| < params.Length && ProbedUp(phi, p, h, fd)
      modifies this, sim`history, sim`currentHistoryIndex, params
      ensures Valid() && params[..] == p
      ensures iters == old(iters) + 1 && evals == old(evals) + 1
      ensures |fd'| == |fd| + 1 && ProbedUp(phi, p, h, fd')
    {
      var k := |fd|;
      iters := iters + 1;
      var phiFd := EvaluateWith(params, k, params[k] + h);
      UpProbeAppended(phi, p, h, fd, phiFd);
      fd' := fd + [phiFd];
    }

    /**
     * The forward finite-difference check: every component is moved up by the step,
     * evaluated and restored; the record then holds the norm of the difference between the
     * estimate and the supplied gradient, the estimate, and the supplied gradient.
     */
    method RunForwardCheck(params: array<real>, sqrt: real -> real) returns (r: OptimizationResult)
      requires Valid() && stepSize != 0.0
      modifies this, sim`history, sim`currentHistoryIndex, params
      ensures sim.Valid()
      ensures Decreasing(sim.history, sim.objective)
      ensures params[..] == old(params[..])
      ensures iters == params.Length && evals == params.Length + 1
      ensures var p, phi := params[..], sim.objective;
        bestRunGradient == ForwardFD(phi, p, stepSize) &&
        bestRunParameters == Dp(sim.gradient, sim.running, p) &&
        bestObjectiveValue == sqrt(SquaredNorm(Sub(bestRunGradient, bestRunParameters))) &&
        r == OptimizationResult(phi(p), phi(p))
    {
      var h := stepSize;
      iters := 0;
      evals := 0;
      var fd := ForwardProbes(params, h);
      ForwardEstimateIsFD(sim.objective, params[..], h, fd);
      var phi, dp := Evaluate(params[..]);
      assert sim.Valid() && Decreasing(sim.history, sim.objective);
      var est := ForwardEstimate(fd, phi, h);
      bestObjectiveValue := sqrt(SquaredNorm(Sub(est, dp)));
      bestRunGradient := est;
      bestRunParameters := dp;
      r := OptimizationResult(phi, phi);
    }

    /** One pass of the central check's loop: component k moved up, then down, then restored. */
    method EvaluateBothWays(params: array<real>, k: nat, h: real) returns (up: real, down: real)
      requires Valid() && k < params.Length
      modifies this, sim`history, sim`currentHistoryIndex, params
      ensures Valid()
      ensures evals == old(evals) + 2 && iters == old(iters)
      ensures params[..] == old(params[..])
      ensures var p := params[..]; up == sim.objective(p[k := p[k] + h]) && down == sim.objective(p[k := p[k] - h])
    {
      up := EvaluateWith(params, k, params[k] + h);
      down := EvaluateWith(params, k, params[k] - h);
    }

    /**
     * The probing loop of the central check: p + h e_k and p - h e_k evaluated for every
     * component k, the results collected in order.
     */
    method CentralProbes(params: array<real>, h: real) returns (fd: Vec, bd: Vec)
      requires Valid() && iters == 0 && h != 0.0
      modifies this, sim`history, sim`currentHistoryIndex, params
      ensures Valid()
      ensures iters == params.Length && evals == old(evals) + 2 * params.Length
      ensures params[..] == old(params[..])
      ensures |fd| == |bd| == params.Length
      ensures CentralEstimate(fd, bd, h) == CentralFD(sim.objective, params[..], h)
    {
      ghost var p, phi := params[..], sim.objective;
      fd, bd := [], [];
      var k := 0;
      while k < params.Length
        invariant Valid() && sim.objective == phi
        invariant 0 <= k <= params.Length && iters == k && evals == old(evals) + 2 * k
        invariant params[..] == p
        invariant |fd| == k && |bd| == k && ProbedUp(phi, p, h, fd) && ProbedDown(phi, p, h, bd)
      {
        fd, bd := CentralProbeStep(params, h, phi, p, fd, bd);
        k := k + 1;
      }
      CentralEstimateIsFD(phi, p, h, fd, bd);
    }

    /** One pass of the central check's loop: the next component probed both ways and appended. */
    method CentralProbeStep(params: array<real>, h: real, ghost phi: Vec -> real, ghost p: Vec, fd: Vec, bd: Vec)
      returns (fd': Vec, bd': Vec)
      requires Valid() && sim.objective == phi && params[..] == p
      requires |fd| == |bd| < params.Length && ProbedUp(phi, p, h, fd) && ProbedDown(phi, p, h, bd)
      modifies this, sim`history, sim`currentHistoryIndex, params
      ensures Valid() && params[..] == p
      ensures iters == old(iters) + 1 && evals == old(evals) + 2
      ensures |fd'| == |bd'| == |fd| + 1 && ProbedUp(phi, p, h, fd') && ProbedDown(phi, p, h, bd')
    {
      var k := |fd|;
      iters := iters + 1;
      var phiFd, phiBd := EvaluateBothWays(params, k, h);
      UpProbeAppended(phi, p, h, fd, phiFd);
      DownProbeAppended(phi, p, h, bd, phiBd);
      fd', bd' := fd + [phiFd], bd + [phiBd];
    }

    /**
     * The central finite-difference check: every component is moved up and down by the step,
     * evaluated both ways and restored.
     */
    method RunCentralCheck(params: array<real>, sqrt: real -> real) returns (r: OptimizationResult)
      requires Valid() && stepSize != 0.0
      modifies this, sim`history, sim`currentHistoryIndex, params
      ensures sim.Valid()
      ensures Decreasing(sim.history, sim.objective)
      ensures params[..] == old(params[..])
      ensures iters == params.Length && evals == 2 * params.Length + 1
      ensures var p, phi := params[..], sim.objective;
        bestRunGradient == CentralFD(phi, p, stepSize) &&
        bestRunParameters == Dp(sim.gradient, sim.running, p) &&
        bestObjectiveValue == sqrt(SquaredNorm(Sub(bestRunGradient, bestRunParameters))) &&
        r == OptimizationResult(phi(p), phi(p))
    {
      var h := stepSize;
      iters := 0;
      evals := 0;
      var fd, bd := CentralProbes(params, h);
      var phi, dp := Evaluate(params[..]);
      assert sim.Valid() && Decreasing(sim.history, sim.objective);
      var est := CentralEstimate(fd, bd, h);
      bestObjectiveValue := sqrt(SquaredNorm(Sub(est, dp)));
      bestRunGradient := est;
      bestRunParameters := dp;
      r := OptimizationResult(phi, phi);
    }
  }

  /** The tail of backward(): non-finite gradient entries are set to zero in place. */
  method SanitizeGradient(g: array<Double>)
    modifies g
    ensures forall i :: 0 <= i < g.Length ==> g[i] == CleanEntry(old(g[i]))
    ensures forall i :: 0 <= i < g.Length ==> g[i].Finite?
  {
    var i := 0;
    while i < g.Length
      invariant 0 <= i <= g.Length
      invariant forall j :: 0 <= j < i ==> g[j] == CleanEntry(old(g[j]))
      invariant forall j :: i <= j < g.Length ==> g[j] == old(g[j])
    {
      if g[i].NonFinite? {
        g[i] := Finite(0.0);
      }
      i := i + 1;
    }
  }

  /** After the vertex areas are accumulated, every one below FLT_EPSILON is raised to it. */
  method ClampVertexAreas(area: array<real>)
    modifies area
    ensures forall i :: 0 <= i < area.Length ==> area[i] >= FLT_EPSILON
    ensures forall i :: 0 <= i < area.Length ==>
      area[i] == (if old(area[i]) < FLT_EPSILON then FLT_EPSILON else old(area[i]))
  {
    var i := 0;
    while i < area.Length
      invariant 0 <= i <= area.Length
      invariant forall j :: 0 <= j < i ==> area[j] >= FLT_EPSILON
      invariant forall j :: 0 <= j < i ==>
        area[j] == (if old(area[j]) < FLT_EPSILON then FLT_EPSILON else old(area[j]))
      invariant forall j :: i <= j < area.Length ==> area[j] == old(area[j])
    {
      if area[i] < FLT_EPSILON {
        area[i] := FLT_EPSILON;
      }
      i := i + 1;
    }
  }
}
