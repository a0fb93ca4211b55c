/**
 * The objective functions of the light optimisation (objectivefunction.cpp): a weighted,
 * area-scaled least-squares distance between the radiance x at the mesh vertices and a
 * target, and its derivative. The simple objective compares one channel; the multichannel
 * objective compares every channel (column) after tinting it by the vertex colour, and sums
 * the channels with per-channel weights.
 */
module Objective {
  import opened Numeric

  predicate SameLength(w: seq<real>, a: seq<real>, t: seq<real>, x: seq<real>)
  {
    |w| == |x| && |a| == |x| && |t| == |x|
  }

  predicate AllNonNegative(v: seq<real>)
  {
    forall i :: 0 <= i < |v| ==> v[i] >= 0.0
  }

  /** The sum over the first n vertices of w_i * a_i * (x_i - t_i)^2. */
  function WeightedSquares(w: seq<real>, a: seq<real>, t: seq<real>, x: seq<real>, n: nat): real
    requires SameLength(w, a, t, x) && n <= |x|
  {
    if n == 0 then 0.0
    else WeightedSquares(w, a, t, x, n - 1) + Term(w, a, t, x, n - 1)
  }

  /** The term w_i * a_i * (x_i - t_i)^2 of vertex i. */
  function Term(w: seq<real>, a: seq<real>, t: seq<real>, x: seq<real>, i: nat): real
    requires SameLength(w, a, t, x) && i < |x|
  {
    w[i] * (a[i] * Square(x[i] - t[i]))
  }

  /** The residual norm O = 0.5 (x - t)^T W A (x - t). */
  function ResidualNorm(w: seq<real>, a: seq<real>, t: seq<real>, x: seq<real>): real
    requires SameLength(w, a, t, x)
  {
    0.5 * WeightedSquares(w, a, t, x, |x|)
  }

  /** The derivative W A (x - t). */
  function ResidualDerivative(w: seq<real>, a: seq<real>, t: seq<real>, x: seq<real>): (dx: seq<real>)
    requires SameLength(w, a, t, x)
    ensures |dx| == |x|
  {
    seq(|x|, i requires 0 <= i < |x| => w[i] * (a[i] * (x[i] - t[i])))
  }

  /** weightedResidualNormAndDerivative: the value O and the derivative written to aDx. */
  function WeightedResidualNormAndDerivative(w: seq<real>, a: seq<real>, t: seq<real>, x: seq<real>): (r: (real, seq<real>))
    requires SameLength(w, a, t, x)
    ensures |r.1| == |x|
  {
    (ResidualNorm(w, a, t, x), ResidualDerivative(w, a, t, x))
  }

  /** One vertex's term is non-negative, and zero exactly at the target when w, a > 0. */
  lemma TermSign(w: real, a: real, u: real)
    requires w >= 0.0 && a >= 0.0
    ensures w * (a * Square(u)) >= 0.0
    ensures w > 0.0 && a > 0.0 ==> (w * (a * Square(u)) == 0.0 <==> u == 0.0)
  {
    SquareSign(u);
    ScaledSign(a, Square(u));
    ScaledSign(w, a * Square(u));
  }

  lemma {:induction false} WeightedSquaresNonNegative(w: seq<real>, a: seq<real>, t: seq<real>, x: seq<real>, n: nat)
    requires SameLength(w, a, t, x) && n <= |x|
    requires AllNonNegative(w) && AllNonNegative(a)
    ensures WeightedSquares(w, a, t, x, n) >= 0.0
  {
    if n > 0 {
      WeightedSquaresNonNegative(w, a, t, x, n - 1);
      TermSign(w[n - 1], a[n - 1], x[n - 1] - t[n - 1]);
    }
  }

  /** With non-negative weights and areas the objective is non-negative. */
  lemma ResidualNormNonNegative(w: seq<real>, a: seq<real>, t: seq<real>, x: seq<real>)
    requires SameLength(w, a, t, x)
    requires AllNonNegative(w) && AllNonNegative(a)
    ensures ResidualNorm(w, a, t, x) >= 0.0
  {
    WeightedSquaresNonNegative(w, a, t, x, |x|);
  }

  lemma {:induction false} WeightedSquaresZero(w: seq<real>, a: seq<real>, t: seq<real>, x: seq<real>, n: nat)
    requires SameLength(w, a, t, x) && n <= |x|
    requires forall i :: 0 <= i < |x| ==> w[i] > 0.0 && a[i] > 0.0
    ensures WeightedSquares(w, a, t, x, n) == 0.0 <==> forall i :: 0 <= i < n ==> x[i] == t[i]
  {
    if n > 0 {
      WeightedSquaresZero(w, a, t, x, n - 1);
      WeightedSquaresNonNegative(w, a, t, x, n - 1);
      TermSign(w[n - 1], a[n - 1], x[n - 1] - t[n - 1]);
    }
  }

  /**
   * With positive weights and areas the objective vanishes exactly at the target, and there
   * the derivative vanishes too.
   */
  lemma ResidualNormZeroIff(w: seq<real>, a: seq<real>, t: seq<real>, x: seq<real>)
    requires SameLength(w, a, t, x)
    requires forall i :: 0 <= i < |x| ==> w[i] > 0.0 && a[i] > 0.0
    ensures ResidualNorm(w, a, t, x) == 0.0 <==> x == t
    ensures x == t ==> forall i :: 0 <= i < |x| ==> ResidualDerivative(w, a, t, x)[i] == 0.0
  {
    WeightedSquaresZero(w, a, t, x, |x|);
  }

  /** At the target the derivative is zero, whatever the weights. */
  lemma DerivativeZeroAtTarget(w: seq<real>, a: seq<real>, t: seq<real>, x: seq<real>)
    requires SameLength(w, a, t, x) && x == t
    ensures forall i :: 0 <= i < |x| ==> ResidualDerivative(w, a, t, x)[i] == 0.0
  {
    forall i | 0 <= i < |x|
      ensures ResidualDerivative(w, a, t, x)[i] == 0.0
    {
      assert x[i] - t[i] == 0.0;
    }
  }

  /** Moving vertex j changes only its own term of the sum. */
  lemma {:induction false} WeightedSquaresMove(w: seq<real>, a: seq<real>, t: seq<real>, x: seq<real>, j: nat, v: real, n: nat)
    requires SameLength(w, a, t, x) && j < |x| && n <= |x|
    ensures WeightedSquares(w, a, t, x[j := v], n) - WeightedSquares(w, a, t, x, n)
         == (if j < n then Term(w, a, t, x[j := v], j) - Term(w, a, t, x, j) else 0.0)
  {
    if n > 0 {
      WeightedSquaresMove(w, a, t, x, j, v, n - 1);
      if j != n - 1 {
        TermUnmoved(w, a, t, x, j, v, n - 1);
      }
    }
  }

  /** The term of a vertex other than j does not see vertex j move. */
  lemma TermUnmoved(w: seq<real>, a: seq<real>, t: seq<real>, x: seq<real>, j: nat, v: real, i: nat)
    requires SameLength(w, a, t, x) && j < |x| && i < |x| && i != j
    ensures Term(w, a, t, x[j := v], i) == Term(w, a, t, x, i)
  {
    assert x[j := v][i] == x[i];
  }

  /** (u + h)^2 - u^2 = 2hu + h^2, scaled by w a. */
  lemma SquareShift(c: real, u: real, h: real)
    ensures c * Square(u + h) - c * Square(u) == 2.0 * h * (c * u) + h * h * c
  {
    calc {
      c * Square(u + h) - c * Square(u);
    ==
      c * ((u + h) * (u + h) - u * u);
    ==
      c * (2.0 * h * u + h * h);
    ==
      2.0 * h * (c * u) + h * h * c;
    }
  }

  /**
   * The derivative is the exact gradient of the objective: moving vertex j by h changes O by
   * h * dx_j plus the quadratic term 0.5 h^2 w_j a_j.
   */
  lemma DerivativeIsGradient(w: seq<real>, a: seq<real>, t: seq<real>, x: seq<real>, j: nat, h: real)
    requires SameLength(w, a, t, x) && j < |x|
    ensures ResidualNorm(w, a, t, x[j := x[j] + h])
         == ResidualNorm(w, a, t, x) + h * ResidualDerivative(w, a, t, x)[j] + 0.5 * h * h * (w[j] * a[j])
  {
    var y := x[j := x[j] + h];
    var s0, s1 := WeightedSquares(w, a, t, x, |x|), WeightedSquares(w, a, t, y, |x|);
    var t0, t1 := Term(w, a, t, x, j), Term(w, a, t, y, j);
    var d, c := ResidualDerivative(w, a, t, x)[j], w[j] * a[j];
    assert s1 - s0 == t1 - t0 by {
      WeightedSquaresMove(w, a, t, x, j, x[j] + h, |x|);
    }
    TermShift(w, a, t, x, j, h);
    HalfOfDifference(s0, s1, h * d, h * h * c);
  }

  /** Vertex j's term changes by 2 h dx_j + h^2 w_j a_j when x_j moves by h. */
  lemma TermShift(w: seq<real>, a: seq<real>, t: seq<real>, x: seq<real>, j: nat, h: real)
    requires SameLength(w, a, t, x) && j < |x|
    ensures Term(w, a, t, x[j := x[j] + h], j) - Term(w, a, t, x, j)
         == 2.0 * h * ResidualDerivative(w, a, t, x)[j] + h * h * (w[j] * a[j])
  {
    var c, u := w[j] * a[j], x[j] - t[j];
    assert x[j := x[j] + h][j] - t[j] == u + h;
    assert ResidualDerivative(w, a, t, x)[j] == c * u;
    SquareShift(c, u, h);
  }

  lemma HalfOfDifference(s0: real, s1: real, p: real, q: real)
    requires s1 - s0 == 2.0 * p + q
    ensures 0.5 * s1 == 0.5 * s0 + p + 0.5 * q
  {
  }

  /**
   * An objective function: the base class (zero objective), the simple one-channel objective
   * and the multichannel objective. `target` of MultiChannel holds the columns (channels) of
   * mTarget, each with one entry per vertex; `color` is mVertexColor, three entries per vertex.
   */
  datatype ObjectiveFunction =
    | Base
    | Simple(weights: seq<real>, areas: seq<real>, target: seq<real>)
    | MultiChannel(weights: seq<real>, areas: seq<real>, channelWeights: seq<real>, color: seq<real>, columns: seq<seq<real>>)

  /** The number of vertices of a multichannel objective. */
  function Rows(f: ObjectiveFunction): nat
    requires f.MultiChannel?
  {
    |f.weights|
  }

  /** The number of channels of a multichannel objective. */
  function Cols(f: ObjectiveFunction): nat
    requires f.MultiChannel?
  {
    |f.columns|
  }

  /** The sizes an objective and its input x must agree on (Eigen asserts on a mismatch). */
  predicate Fits(f: ObjectiveFunction, x: seq<real>)
  {
    match f
    case Base => true
    case Simple(w, a, t) => SameLength(w, a, t, x)
    case MultiChannel(w, a, cw, c, cols) =>
      |a| == |w| && |cw| == |cols| && |c| == 3 * |w| && |x| == |w| * |cols|
      && forall k :: 0 <= k < |cols| ==> |cols[k]| == |w|
  }

  lemma MulLeq(a: nat, b: nat, c: nat)
    requires a <= b
    ensures a * c <= b * c
  {
    assert b * c - a * c == (b - a) * c;
  }

  lemma MulGap(a: nat, b: nat, c: nat)
    requires a > b
    ensures a * c >= b * c + c
  {
    MulLeq(b + 1, a, c);
  }

  /** Row-major indexing r * cols + k stays inside a rows x cols matrix. */
  lemma RowMajorBound(r: nat, k: nat, rows: nat, cols: nat)
    requires r < rows && k < cols
    ensures r * cols + k < rows * cols
  {
    MulLeq(r + 1, rows, cols);
  }

  /** Row and column of a row-major index. */
  lemma RowMajorSplit(i: nat, rows: nat, cols: nat)
    requires i < rows * cols
    ensures cols > 0 && i / cols < rows && i % cols < cols
  {
    MulLeq(0, rows, cols);
    if i / cols >= rows {
      MulLeq(rows, i / cols, cols);
      assert false;
    }
  }

  /** x(r, k) of the row-major map xMap. */
  function XAt(x: seq<real>, rows: nat, cols: nat, r: nat, k: nat): real
    requires |x| == rows * cols && r < rows && k < cols
  {
    RowMajorBound(r, k, rows, cols);
    x[r * cols + k]
  }

  /** entryData of channel k: column k of xMap tinted by colour channel k % 3. */
  function ChannelEntry(f: ObjectiveFunction, x: seq<real>, k: nat): (e: seq<real>)
    requires f.MultiChannel? && Fits(f, x) && k < Cols(f)
    ensures |e| == Rows(f)
  {
    seq(Rows(f), r requires 0 <= r < Rows(f) => f.color[3 * r + k % 3] * XAt(x, Rows(f), Cols(f), r, k))
  }

  /** The residual of channel k. */
  function ChannelResidual(f: ObjectiveFunction, x: seq<real>, k: nat): real
    requires f.MultiChannel? && Fits(f, x) && k < Cols(f)
  {
    ResidualNorm(f.weights, f.areas, f.columns[k], ChannelEntry(f, x, k))
  }

  /** Column k of dMap: the channel's derivative scaled by the channel weight and the tint. */
  function ChannelGradient(f: ObjectiveFunction, x: seq<real>, k: nat): (g: seq<real>)
    requires f.MultiChannel? && Fits(f, x) && k < Cols(f)
    ensures |g| == Rows(f)
  {
    var d := ResidualDerivative(f.weights, f.areas, f.columns[k], ChannelEntry(f, x, k));
    seq(Rows(f), r requires 0 <= r < Rows(f) => f.channelWeights[k] * (f.color[3 * r + k % 3] * d[r]))
  }



  /** phi over the first n channels: the channel-weighted sum of the channel residuals. */
  function MultiPhi(f: ObjectiveFunction, x: seq<real>, n: nat): real
    requires f.MultiChannel? && Fits(f, x) && n <= Cols(f)
  {
    if n == 0 then 0.0 else MultiPhi(f, x, n - 1) + f.channelWeights[n - 1] * ChannelResidual(f, x, n - 1)
  }

  /** With non-negative vertex and channel weights and areas, phi is non-negative. */
  lemma {:induction false} MultiPhiNonNegative(f: ObjectiveFunction, x: seq<real>, n: nat)
    requires f.MultiChannel? && Fits(f, x) && n <= Cols(f)
    requires AllNonNegative(f.weights) && AllNonNegative(f.areas) && AllNonNegative(f.channelWeights)
    ensures MultiPhi(f, x, n) >= 0.0
  {
    if n > 0 {
      MultiPhiNonNegative(f, x, n - 1);
      var k := n - 1;
      ResidualNormNonNegative(f.weights, f.areas, f.columns[k], ChannelEntry(f, x, k));
      ScaledSign(f.channelWeights[k], ChannelResidual(f, x, k));
    }
  }

  /**
   * When every tinted channel equals its target, phi is zero and so is every column of the
   * derivative.
   */
  lemma {:induction false} MultiPhiZeroAtTarget(f: ObjectiveFunction, x: seq<real>, n: nat)
    requires f.MultiChannel? && Fits(f, x) && n <= Cols(f)
    requires forall k :: 0 <= k < Cols(f) ==> ChannelEntry(f, x, k) == f.columns[k]
    ensures MultiPhi(f, x, n) == 0.0
    ensures forall k, r :: 0 <= k < n && 0 <= r < Rows(f) ==> ChannelGradient(f, x, k)[r] == 0.0
  {
    if n > 0 {
      MultiPhiZeroAtTarget(f, x, n - 1);
      var k := n - 1;
      var e := ChannelEntry(f, x, k);
      WeightedSquaresZeroAtTarget(f.weights, f.areas, f.columns[k], e, |e|);
      DerivativeZeroAtTarget(f.weights, f.areas, f.columns[k], e);
    }
  }

  lemma {:induction false} WeightedSquaresZeroAtTarget(w: seq<real>, a: seq<real>, t: seq<real>, x: seq<real>, n: nat)
    requires SameLength(w, a, t, x) && n <= |x| && x == t
    ensures WeightedSquares(w, a, t, x, n) == 0.0
  {
    if n > 0 {
      WeightedSquaresZeroAtTarget(w, a, t, x, n - 1);
      assert x[n - 1] - t[n - 1] == 0.0;
    }
  }

  /** The columns of dMap for all channels. */
  function ChannelGradients(f: ObjectiveFunction, x: seq<real>): (g: seq<seq<real>>)
    requires f.MultiChannel? && Fits(f, x)
    ensures |g| == Cols(f) && forall k :: 0 <= k < Cols(f) ==> |g[k]| == Rows(f)
  {
    seq(Cols(f), k requires 0 <= k < Cols(f) => ChannelGradient(f, x, k))
  }

  /** The row-major flattening of the columns dMap into aDx. */
  function RowMajor(columns: seq<seq<real>>, rows: nat): (v: seq<real>)
    requires forall k :: 0 <= k < |columns| ==> |columns[k]| == rows
    ensures |v| == rows * |columns|
  {
    seq(rows * |columns|, i requires 0 <= i < rows * |columns| =>
      RowMajorSplit(i, rows, |columns|);
      columns[i % |columns|][i / |columns|])
  }

  /** The division of r * cols + k by cols gives back row r and column k. */
  lemma RowMajorIndex(r: nat, k: nat, cols: nat)
    requires k < cols
    ensures (r * cols + k) / cols == r && (r * cols + k) % cols == k
  {
    var i := r * cols + k;
    var q, m := i / cols, i % cols;
    assert q * cols + m == r * cols + k;
    if q > r {
      MulGap(q, r, cols);
      assert false;
    } else if q < r {
      MulGap(r, q, cols);
      assert false;
    }
  }

  /** Entry (r, k) of the flattened matrix sits at r * cols + k. */
  lemma RowMajorAt(columns: seq<seq<real>>, rows: nat, r: nat, k: nat)
    requires forall c :: 0 <= c < |columns| ==> |columns[c]| == rows
    requires r < rows && k < |columns|
    ensures r * |columns| + k < rows * |columns|
    ensures RowMajor(columns, rows)[r * |columns| + k] == columns[k][r]
  {
    RowMajorBound(r, k, rows, |columns|);
    RowMajorIndex(r, k, |columns|);
  }

  /**
   * With positive vertex weights, areas and channel weights, the multichannel phi over the
   * first n channels is zero exactly when each of those tinted channels equals its target.
   */
  lemma {:induction false} MultiPhiZeroIff(f: ObjectiveFunction, x: seq<real>, n: nat)
    requires f.MultiChannel? && Fits(f, x) && n <= Cols(f)
    requires forall r :: 0 <= r < Rows(f) ==> f.weights[r] > 0.0 && f.areas[r] > 0.0
    requires forall k :: 0 <= k < Cols(f) ==> f.channelWeights[k] > 0.0
    ensures MultiPhi(f, x, n) == 0.0 <==> forall k :: 0 <= k < n ==> ChannelEntry(f, x, k) == f.columns[k]
  {
    if n > 0 {
      var k := n - 1;
      var e := ChannelEntry(f, x, k);
      MultiPhiZeroIff(f, x, k);
      MultiPhiNonNegative(f, x, k);
      var cw, res := f.channelWeights[k], ChannelResidual(f, x, k);
      ResidualNormNonNegative(f.weights, f.areas, f.columns[k], e);
      ResidualNormZeroIff(f.weights, f.areas, f.columns[k], e);
      ScaledSign(cw, res);
      assert MultiPhi(f, x, n) == MultiPhi(f, x, k) + cw * res;
    }
  }


  /** Moving the entry at i = r * cols + k of x moves entry (r, k) of xMap and no other. */
  lemma XAtMoved(x: seq<real>, y: seq<real>, rows: nat, cols: nat, i: nat, r: nat, k: nat, h: real, q: nat, j: nat)
    requires |x| == rows * cols && r < rows && k < cols && q < rows && j < cols
    requires i == r * cols + k && i < |x| && y == x[i := x[i] + h]
    ensures |y| == rows * cols
    ensures q == r && j == k ==> XAt(y, rows, cols, q, j) == XAt(x, rows, cols, q, j) + h
    ensures q != r || j != k ==> XAt(y, rows, cols, q, j) == XAt(x, rows, cols, q, j)
  {
    RowMajorBound(q, j, rows, cols);
    if q * cols + j == i {
      RowMajorIndex(q, j, cols);
      RowMajorIndex(r, k, cols);
    }
  }

  /** Moving entry (r, k) of x moves the tinted entry r of channel k by the tint times the move. */
  lemma ChannelEntryMoved(f: ObjectiveFunction, x: seq<real>, y: seq<real>, i: nat, r: nat, k: nat, h: real)
    requires f.MultiChannel? && Fits(f, x) && r < Rows(f) && k < Cols(f)
    requires i == r * Cols(f) + k && i < |x| && y == x[i := x[i] + h]
    ensures Fits(f, y)
    ensures ChannelEntry(f, y, k)
         == ChannelEntry(f, x, k)[r := ChannelEntry(f, x, k)[r] + f.color[3 * r + k % 3] * h]
  {
    var rows, cols := Rows(f), Cols(f);
    var ex, ey := ChannelEntry(f, x, k), ChannelEntry(f, y, k);
    forall q | 0 <= q < rows
      ensures ey[q] == ex[r := ex[r] + f.color[3 * r + k % 3] * h][q]
    {
      XAtMoved(x, y, rows, cols, i, r, k, h, q, k);
      if q == r {
        var c, v := f.color[3 * r + k % 3], XAt(x, rows, cols, r, k);
        assert c * (v + h) == c * v + c * h;
      }
    }
  }

  /** Moving entry (r, k) of x leaves every channel other than k as it was. */
  lemma ChannelEntryUnmoved(f: ObjectiveFunction, x: seq<real>, y: seq<real>, i: nat, r: nat, k: nat, h: real, j: nat)
    requires f.MultiChannel? && Fits(f, x) && r < Rows(f) && k < Cols(f) && j < Cols(f) && j != k
    requires i == r * Cols(f) + k && i < |x| && y == x[i := x[i] + h]
    ensures Fits(f, y) && ChannelResidual(f, y, j) == ChannelResidual(f, x, j)
  {
    var rows, cols := Rows(f), Cols(f);
    forall q | 0 <= q < rows
      ensures ChannelEntry(f, y, j)[q] == ChannelEntry(f, x, j)[q]
    {
      XAtMoved(x, y, rows, cols, i, r, k, h, q, j);
    }
    assert ChannelEntry(f, y, j) == ChannelEntry(f, x, j);
  }






  /** The gradient identity with the moved vector named. */
  lemma ResidualOfMovedEntry(w: seq<real>, a: seq<real>, t: seq<real>, ex: seq<real>, ey: seq<real>, r: nat, ch: real)
    requires SameLength(w, a, t, ex) && r < |ex| && ey == ex[r := ex[r] + ch]
    ensures SameLength(w, a, t, ey)
    ensures ResidualNorm(w, a, t, ey)
         == ResidualNorm(w, a, t, ex) + ch * ResidualDerivative(w, a, t, ex)[r] + 0.5 * ch * ch * (w[r] * a[r])
  {
    DerivativeIsGradient(w, a, t, ex, r, ch);
  }

  /** Channel k's residual after its tinted entry r moves by c h, by the single-channel gradient identity. */
  lemma ChannelResidualMoved(f: ObjectiveFunction, x: seq<real>, y: seq<real>, r: nat, k: nat, h: real)
    requires f.MultiChannel? && Fits(f, x) && Fits(f, y) && r < Rows(f) && k < Cols(f)
    requires ChannelEntry(f, y, k) == ChannelEntry(f, x, k)[r := ChannelEntry(f, x, k)[r] + f.color[3 * r + k % 3] * h]
    ensures ChannelResidual(f, y, k) == ChannelResidual(f, x, k)
         + (f.color[3 * r + k % 3] * h) * ResidualDerivative(f.weights, f.areas, f.columns[k], ChannelEntry(f, x, k))[r]
         + 0.5 * (f.color[3 * r + k % 3] * h) * (f.color[3 * r + k % 3] * h) * (f.weights[r] * f.areas[r])
  {
    ResidualOfMovedEntry(f.weights, f.areas, f.columns[k], ChannelEntry(f, x, k), ChannelEntry(f, y, k), r,
      f.color[3 * r + k % 3] * h);
  }















  /**
   * operator(): the objective value and its derivative for x. The base objective is zero with
   * a zero derivative of the size of x; the simple objective resizes dx to the target; the
   * multichannel objective loops over the channels and writes dx row-major.
   */
  method Evaluate(f: ObjectiveFunction, x: seq<real>) returns (phi: real, dx: seq<real>)
    requires Fits(f, x)
    ensures f.Base? ==> phi == 0.0 && dx == Zeros(|x|)
    ensures f.Simple? ==> |dx| == |f.target|
                          && (phi, dx) == WeightedResidualNormAndDerivative(f.weights, f.areas, f.target, x)
    ensures f.MultiChannel? ==> phi == MultiPhi(f, x, Cols(f)) && |dx| == Rows(f) * Cols(f)
    ensures f.MultiChannel? ==> dx == RowMajor(ChannelGradients(f, x), Rows(f))
  {
    match f
    case Base =>
      phi, dx := 0.0, Zeros(|x|);
    case Simple(w, a, t) =>
      var r := WeightedResidualNormAndDerivative(w, a, t, x);
      phi, dx := r.0, r.1;
    case MultiChannel(_, _, _, _, _) =>
      phi, dx := EvaluateMultiChannel(f, x);
  }

  /** The loop over the channels of MultiChannelObjectiveFunction::operator(). */
  method EvaluateMultiChannel(f: ObjectiveFunction, x: seq<real>) returns (phi: real, dx: seq<real>)
    requires f.MultiChannel? && Fits(f, x)
    ensures phi == MultiPhi(f, x, Cols(f)) && |dx| == Rows(f) * Cols(f)
    ensures dx == RowMajor(ChannelGradients(f, x), Rows(f))
  {
    ghost var all := ChannelGradients(f, x);
    var dMap: seq<seq<real>> := [];
    phi := 0.0;
    var k := 0;
    while k < Cols(f)
      invariant k <= Cols(f) && dMap == all[..k]
      invariant phi == MultiPhi(f, x, k)
    {
      var term, column := EvaluateChannel(f, x, k);
      phi := phi + term;
      assert all[..k + 1] == all[..k] + [column];
      dMap := dMap + [column];
      k := k + 1;
    }
    assert all[..k] == all;
    dx := RowMajor(dMap, Rows(f));
  }

  /** One pass of the channel loop: channel k's weighted residual and its column of dMap. */
  method EvaluateChannel(f: ObjectiveFunction, x: seq<real>, k: nat) returns (term: real, column: seq<real>)
    requires f.MultiChannel? && Fits(f, x) && k < Cols(f)
    ensures term == f.channelWeights[k] * ChannelResidual(f, x, k)
    ensures column == ChannelGradient(f, x, k)
  {
    var entry := ChannelEntry(f, x, k);
    var r := WeightedResidualNormAndDerivative(f.weights, f.areas, f.columns[k], entry);
    term := f.channelWeights[k] * r.0;
    column := seq(Rows(f), i requires 0 <= i < Rows(f) => f.channelWeights[k] * (f.color[3 * i + k % 3] * r.1[i]));
  }
}
