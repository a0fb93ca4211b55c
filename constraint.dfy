/**
 * Soft penalty constraints on the optimised lights (constraint.hpp): a constraint holds a set
 * of lights, a penalty factor and an active flag; evaluating it returns the penalty value and
 * adds its gradient into the full parameter gradient (MAX_PARAMS entries per light, at offset
 * ref_light_index * MAX_PARAMS).
 *
 * The two concrete constraints (LightsInAABBConstraint, LightsIntensityPenalty) become the two
 * cases of Kind; the virtual evalAndAddToGradient dispatches on it.
 */
module Constraint {
  import opened Numeric
  import opened LightParams

  /**
   * A light as a constraint sees it: `id` stands for the RefLight pointer (the identity the
   * std::set is keyed on), `index` is ref_light_index.
   */
  datatype Light = Light(id: nat, index: nat, position: Vec3, intensity: real)

  /** The box of LightsInAABBConstraint. */
  datatype Box = Box(xmin: real, xmax: real, ymin: real, ymax: real, zmin: real, zmax: real)

  datatype Kind = InAABB(box: Box) | IntensityPenalty

  /** The offset of v from [lo, hi] along one axis: below, above or zero. */
  function AxisOffset(v: real, lo: real, hi: real): (d: real)
    ensures d == 0.0 <==> lo <= v <= hi
    ensures d < 0.0 <==> v < lo
    ensures d > 0.0 <==> lo <= v && hi < v
  {
    if v < lo then v - lo else if v > hi then v - hi else 0.0
  }

  predicate Inside(p: Vec3, b: Box)
  {
    b.xmin <= p.x <= b.xmax && b.ymin <= p.y <= b.ymax && b.zmin <= p.z <= b.zmax
  }

  /** The vector d (an Eigen::Vector3d) from the box to the point. */
  function Offset(p: Vec3, b: Box): (d: seq<real>)
    ensures |d| == 3
  {
    [AxisOffset(p.x, b.xmin, b.xmax), AxisOffset(p.y, b.ymin, b.ymax), AxisOffset(p.z, b.zmin, b.zmax)]
  }

  /** The squared distance to the box is never negative and is zero exactly inside the box. */
  lemma OffsetNormZeroIffInside(p: Vec3, b: Box)
    ensures SquaredNorm(Offset(p, b)) >= 0.0
    ensures SquaredNorm(Offset(p, b)) == 0.0 <==> Inside(p, b)
  {
    var d := Offset(p, b);
    SquaredNormNonNegative(d);
    SquaredNormZero(d);
    assert (forall i :: 0 <= i < 3 ==> d[i] == 0.0) <==> d[0] == 0.0 && d[1] == 0.0 && d[2] == 0.0;
  }

  /** The penalty one light contributes to f. */
  function LightPenalty(k: Kind, pf: real, l: Light): real
  {
    match k
    case InAABB(b) => 0.5 * pf * SquaredNorm(Offset(l.position, b))
    case IntensityPenalty => pf * 0.5 * Square(l.intensity)
  }

  /** Where the light's gradient segment starts: POS_X or INTENSITY of its block. */
  function SegmentStart(k: Kind, l: Light): nat
  {
    l.index * MAX_PARAMS + (if k.InAABB? then POS_X else INTENSITY)
  }

  /** The values the light adds to that segment: pf * d, or pf * intensity. */
  function SegmentValues(k: Kind, pf: real, l: Light): seq<real>
  {
    match k
    case InAABB(b) => Scale(pf, Offset(l.position, b))
    case IntensityPenalty => [pf * l.intensity]
  }

  /** What a segment add of v at start contributes to entry i. */
  function SegmentAt(start: nat, v: seq<real>, i: nat): real
  {
    if start <= i < start + |v| then v[i - start] else 0.0
  }

  /** f accumulated over the first n lights. */
  function PenaltyOf(k: Kind, pf: real, lights: seq<Light>, n: nat): real
    requires n <= |lights|
  {
    if n == 0 then 0.0 else PenaltyOf(k, pf, lights, n - 1) + LightPenalty(k, pf, lights[n - 1])
  }

  /** What the first n lights add to gradient entry i. */
  function ContributionOf(k: Kind, pf: real, lights: seq<Light>, n: nat, i: nat): real
    requires n <= |lights|
  {
    if n == 0 then 0.0
    else
      var l := lights[n - 1];
      ContributionOf(k, pf, lights, n - 1, i) + SegmentAt(SegmentStart(k, l), SegmentValues(k, pf, l), i)
  }

  /** One light's penalty is non-negative for a non-negative factor. */
  lemma LightPenaltyNonNegative(k: Kind, pf: real, l: Light)
    requires pf >= 0.0
    ensures LightPenalty(k, pf, l) >= 0.0
  {
    match k
    case InAABB(b) =>
      OffsetNormZeroIffInside(l.position, b);
      ScaledSign(0.5 * pf, SquaredNorm(Offset(l.position, b)));
    case IntensityPenalty =>
      SquareSign(l.intensity);
      ScaledSign(pf * 0.5, Square(l.intensity));
  }

  /** For a positive factor, a light's AABB penalty is zero exactly when it is in the box. */
  lemma LightPenaltyZeroIff(b: Box, pf: real, l: Light)
    requires pf > 0.0
    ensures LightPenalty(InAABB(b), pf, l) == 0.0 <==> Inside(l.position, b)
  {
    OffsetNormZeroIffInside(l.position, b);
    ScaledSign(0.5 * pf, SquaredNorm(Offset(l.position, b)));
  }

  /** With a non-negative penalty factor the penalty is non-negative. */
  lemma {:induction false} PenaltyNonNegative(k: Kind, pf: real, lights: seq<Light>, n: nat)
    requires n <= |lights| && pf >= 0.0
    ensures PenaltyOf(k, pf, lights, n) >= 0.0
  {
    if n > 0 {
      PenaltyNonNegative(k, pf, lights, n - 1);
      LightPenaltyNonNegative(k, pf, lights[n - 1]);
    }
  }

  /**
   * With a positive penalty factor the AABB penalty is zero exactly when every light lies in
   * the box: the constraint is satisfied.
   */
  lemma {:induction false} AabbPenaltyZeroIff(b: Box, pf: real, lights: seq<Light>, n: nat)
    requires n <= |lights| && pf > 0.0
    ensures PenaltyOf(InAABB(b), pf, lights, n) == 0.0 <==> forall j :: 0 <= j < n ==> Inside(lights[j].position, b)
  {
    if n > 0 {
      AabbPenaltyZeroIff(b, pf, lights, n - 1);
      PenaltyNonNegative(InAABB(b), pf, lights, n - 1);
      LightPenaltyNonNegative(InAABB(b), pf, lights[n - 1]);
      LightPenaltyZeroIff(b, pf, lights[n - 1]);
    }
  }

  /** The AABB penalty touches only the POS_X..POS_Z entries of each block. */
  lemma {:induction false} AabbTouchesOnlyPositions(b: Box, pf: real, lights: seq<Light>, n: nat, i: nat)
    requires n <= |lights|
    requires i % MAX_PARAMS !in {POS_X, POS_Y, POS_Z}
    ensures ContributionOf(InAABB(b), pf, lights, n, i) == 0.0
  {
    if n > 0 {
      AabbTouchesOnlyPositions(b, pf, lights, n - 1, i);
      var l := lights[n - 1];
      if SegmentStart(InAABB(b), l) <= i < SegmentStart(InAABB(b), l) + 3 {
        BlockSlot(l.index, i);
      }
    }
  }

  /** The intensity penalty touches only the INTENSITY entry of each block. */
  lemma {:induction false} IntensityTouchesOnlyIntensity(pf: real, lights: seq<Light>, n: nat, i: nat)
    requires n <= |lights|
    requires i % MAX_PARAMS != INTENSITY
    ensures ContributionOf(IntensityPenalty, pf, lights, n, i) == 0.0
  {
    if n > 0 {
      IntensityTouchesOnlyIntensity(pf, lights, n - 1, i);
      var l := lights[n - 1];
      if i == SegmentStart(IntensityPenalty, l) {
        BlockSlot(l.index, i);
      }
    }
  }

  /** Inside the block of light index x, the slot is the entry index modulo MAX_PARAMS. */
  lemma BlockSlot(x: nat, i: nat)
    requires x * MAX_PARAMS <= i < x * MAX_PARAMS + MAX_PARAMS
    ensures i - x * MAX_PARAMS == i % MAX_PARAMS
  {
    var s := i - x * MAX_PARAMS;
    assert i == x * MAX_PARAMS + s && 0 <= s < MAX_PARAMS;
  }

  /** A light's segment lies inside its own MAX_PARAMS block. */
  lemma SegmentInBlock(k: Kind, pf: real, l: Light)
    ensures l.index * MAX_PARAMS <= SegmentStart(k, l)
    ensures SegmentStart(k, l) + |SegmentValues(k, pf, l)| <= l.index * MAX_PARAMS + MAX_PARAMS
  {
  }

  /**
   * For lights with distinct ref_light_index, entry s of light j's segment ends up holding
   * exactly what light j adds there: pf * d[s] for the AABB penalty, pf * intensity for the
   * intensity penalty.
   */
  lemma {:induction false} SegmentEntry(k: Kind, pf: real, lights: seq<Light>, n: nat, j: nat, s: nat)
    requires j < n <= |lights|
    requires forall a, c :: 0 <= a < c < |lights| ==> lights[a].index != lights[c].index
    requires s < |SegmentValues(k, pf, lights[j])|
    ensures ContributionOf(k, pf, lights, n, SegmentStart(k, lights[j]) + s) == SegmentValues(k, pf, lights[j])[s]
  {
    var i := SegmentStart(k, lights[j]) + s;
    if j < n - 1 {
      SegmentEntry(k, pf, lights, n - 1, j, s);
      OtherSegment(k, pf, lights[n - 1], lights[j], i);
    } else {
      NoEarlierSegment(k, pf, lights, n - 1, j, i);
    }
  }

  /** No light before position m writes into the block of light j. */
  lemma {:induction false} NoEarlierSegment(k: Kind, pf: real, lights: seq<Light>, m: nat, j: nat, i: nat)
    requires m <= j < |lights|
    requires forall a, c :: 0 <= a < c < |lights| ==> lights[a].index != lights[c].index
    requires lights[j].index * MAX_PARAMS <= i < lights[j].index * MAX_PARAMS + MAX_PARAMS
    ensures ContributionOf(k, pf, lights, m, i) == 0.0
  {
    if m > 0 {
      NoEarlierSegment(k, pf, lights, m - 1, j, i);
      OtherSegment(k, pf, lights[m - 1], lights[j], i);
    }
  }

  /** A light adds nothing to the block of a light with another ref_light_index. */
  lemma OtherSegment(k: Kind, pf: real, c: Light, l: Light, i: nat)
    requires c.index != l.index
    requires l.index * MAX_PARAMS <= i < l.index * MAX_PARAMS + MAX_PARAMS
    ensures SegmentAt(SegmentStart(k, c), SegmentValues(k, pf, c), i) == 0.0
  {
    SegmentInBlock(k, pf, c);
  }

  /** The identities held in a light list. */
  function Ids(ls: seq<Light>): set<nat>
  {
    if ls == [] then {} else Ids(ls[..|ls| - 1]) + {ls[|ls| - 1].id}
  }

  /** No identity occurs twice: the list stands for a std::set<RefLight*>. */
  predicate DistinctLights(ls: seq<Light>)
  {
    ls == [] || (DistinctLights(ls[..|ls| - 1]) && ls[|ls| - 1].id !in Ids(ls[..|ls| - 1]))
  }

  /** addLight: set insertion by identity; a light already held leaves the set as it is. */
  function Insert(ls: seq<Light>, l: Light): (r: seq<Light>)
    requires DistinctLights(ls)
    ensures DistinctLights(r) && Ids(r) == Ids(ls) + {l.id}
    ensures l.id in Ids(ls) ==> r == ls
    ensures forall x :: x in ls ==> x in r
  {
    if l.id in Ids(ls) then ls
    else
      var r := ls + [l];
      assert r[..|r| - 1] == ls;
      r
  }

  /** removeLight: set erasure by identity; the other lights keep their order. */
  function Erase(ls: seq<Light>, id: nat): (r: seq<Light>)
    requires DistinctLights(ls)
    ensures DistinctLights(r) && Ids(r) == Ids(ls) - {id}
    ensures forall x :: x in r ==> x in ls
    ensures id !in Ids(ls) ==> r == ls
  {
    if ls == [] then []
    else
      var init := ls[..|ls| - 1];
      var l := ls[|ls| - 1];
      var rest := Erase(init, id);
      if l.id == id then rest
      else
        var r := rest + [l];
        assert r[..|r| - 1] == rest;
        assert forall x :: x in r ==> x in ls by {
          forall x | x in r ensures x in ls {
            if x != l {
              assert x in init;
            }
          }
        }
        assert id !in Ids(ls) ==> r == ls by {
          if id !in Ids(ls) {
            assert ls == init + [l];
          }
        }
        r
  }

  /** Adding the same light twice has the effect of adding it once. */
  lemma InsertIdempotent(ls: seq<Light>, l: Light)
    requires DistinctLights(ls)
    ensures Insert(Insert(ls, l), l) == Insert(ls, l)
  {
  }

  class LightConstraint {
    const kind: Kind
    var lights: seq<Light>
    var penaltyFactor: real
    var active: bool

    predicate Valid()
      reads this
    {
      DistinctLights(lights)
    }

    /** LightsInAABBConstraint(xmin, xmax, ...): factor 1, active, no lights. */
    constructor InAABB(b: Box)
      ensures Valid() && kind == Kind.InAABB(b)
      ensures lights == [] && penaltyFactor == 1.0 && active
    {
      kind := Kind.InAABB(b);
      lights := [];
      penaltyFactor := 1.0;
      active := true;
    }

    /** LightsIntensityPenalty(pf): the given factor, active, no lights. */
    constructor IntensityPenalty(pf: real)
      ensures Valid() && kind == Kind.IntensityPenalty
      ensures lights == [] && penaltyFactor == pf && active
    {
      kind := Kind.IntensityPenalty;
      lights := [];
      penaltyFactor := pf;
      active := true;
    }

    method SetPenaltyFactor(pf: real)
      modifies `penaltyFactor
      ensures penaltyFactor == pf
    {
      penaltyFactor := pf;
    }

    method SetActive(a: bool)
      modifies `active
      ensures active == a
    {
      active := a;
    }

    method AddLight(l: Light)
      requires Valid()
      modifies `lights
      ensures Valid() && lights == Insert(old(lights), l)
    {
      lights := Insert(lights, l);
    }

    method RemoveLight(id: nat)
      requires Valid()
      modifies `lights
      ensures Valid() && lights == Erase(old(lights), id)
    {
      lights := Erase(lights, id);
    }

    /**
     * evalAndAddToGradient: an inactive constraint returns 0 and leaves the gradient alone;
     * an active one returns the summed penalty and adds each light's gradient into its block.
     */
    method EvalAndAddToGradient(grad: array<real>) returns (f: real)
      requires forall j :: 0 <= j < |lights| ==> (lights[j].index + 1) * MAX_PARAMS <= grad.Length
      modifies grad
      ensures !active ==> f == 0.0 && grad[..] == old(grad[..])
      ensures active ==> f == PenaltyOf(kind, penaltyFactor, lights, |lights|)
      ensures active ==> forall i :: 0 <= i < grad.Length ==>
                grad[i] == old(grad[i]) + ContributionOf(kind, penaltyFactor, lights, |lights|, i)
    {
      f := 0.0;
      if active {
        f := AddAll(grad);
      }
    }

    /** The loop over the lights of an active constraint. */
    method AddAll(grad: array<real>) returns (f: real)
      requires forall j :: 0 <= j < |lights| ==> (lights[j].index + 1) * MAX_PARAMS <= grad.Length
      modifies grad
      ensures f == PenaltyOf(kind, penaltyFactor, lights, |lights|)
      ensures forall i :: 0 <= i < grad.Length ==>
                grad[i] == old(grad[i]) + ContributionOf(kind, penaltyFactor, lights, |lights|, i)
    {
      ghost var g0 := grad[..];
      f := 0.0;
      var k := 0;
      while k < |lights|
        invariant k <= |lights|
        invariant f == PenaltyOf(kind, penaltyFactor, lights, k)
        invariant forall i :: 0 <= i < grad.Length ==> grad[i] == g0[i] + ContributionOf(kind, penaltyFactor, lights, k, i)
      {
        var l := lights[k];
        f := f + LightPenalty(kind, penaltyFactor, l);
        AddToSegment(grad, SegmentStart(kind, l), SegmentValues(kind, penaltyFactor, l));
        k := k + 1;
      }
    }
  }

  /** aGradient.segment(start, |v|) += v */
  method AddToSegment(grad: array<real>, start: nat, v: seq<real>)
    requires start + |v| <= grad.Length
    modifies grad
    ensures forall i :: 0 <= i < grad.Length ==> grad[i] == old(grad[i]) + SegmentAt(start, v, i)
  {
    var j := 0;
    while j < |v|
      invariant j <= |v|
      invariant forall i :: 0 <= i < grad.Length ==> grad[i] == old(grad[i]) + SegmentAt(start, v[..j], i)
    {
      grad[start + j] := grad[start + j] + v[j];
      j := j + 1;
    }
    assert v[..j] == v;
  }
}
