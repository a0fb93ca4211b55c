/**
 * Per-light optimisation masks and the codec between the full parameter vector
 * (MAX_PARAMS entries per light, lights first, then emissive meshes) and the
 * vector of active parameters only.
 */
module LightParams {
  import opened Numeric

  /** The PARAMS enumeration. CONE_INNER doubles as EMISSIVE_TEXTURE. */
  const POS_X := 0
  const POS_Y := 1
  const POS_Z := 2
  const INTENSITY := 3
  const ROT_X := 4
  const ROT_Y := 5
  const ROT_Z := 6
  const CONE_INNER := 7
  const EMISSIVE_TEXTURE := CONE_INNER
  const CONE_EDGE := 8
  const COLOR_R := 9
  const COLOR_G := 10
  const COLOR_B := 11
  const MAX_PARAMS := 12

  const Names: seq<string> := ["posX", "posY", "posZ", "intensity", "rotX", "rotY", "rotZ",
    "coneInner", "coneEdge", "colorR", "colorG", "colorB"]

  datatype Result<T> = Ok(value: T) | Err(message: string)

  /** name(param): the display name, or the "unknown parameter" error outside [0, MAX_PARAMS). */
  function Name(param: int): (r: Result<string>)
    ensures r.Ok? <==> 0 <= param < MAX_PARAMS
    ensures r.Ok? ==> r.value == Names[param] && |r.value| > 0
  {
    if param < 0 || param >= MAX_PARAMS then Err("Unknown optimization parameter name")
    else Ok(Names[param])
  }

  /** getParameterIndex: slot of parameter p of light l in the full vector. */
  function ParameterIndex(light: nat, param: nat): (idx: nat)
    ensures param < MAX_PARAMS ==> light * MAX_PARAMS <= idx < (light + 1) * MAX_PARAMS
    ensures idx >= param
  {
    light * MAX_PARAMS + param
  }

  /** The flat index is injective on in-range parameters: light and parameter can be read back. */
  lemma ParameterIndexDecodes(light: nat, param: nat)
    requires param < MAX_PARAMS
    ensures ParameterIndex(light, param) / MAX_PARAMS == light
    ensures ParameterIndex(light, param) % MAX_PARAMS == param
  {}

  lemma ParameterIndexInjective(l1: nat, p1: nat, l2: nat, p2: nat)
    requires p1 < MAX_PARAMS && p2 < MAX_PARAMS
    requires ParameterIndex(l1, p1) == ParameterIndex(l2, p2)
    ensures l1 == l2 && p1 == p2
  {
    ParameterIndexDecodes(l1, p1);
    ParameterIndexDecodes(l2, p2);
  }

  /** Parameters of a smaller light come first: index order follows (light, param) order. */
  lemma ParameterIndexOrdered(l1: nat, p1: nat, l2: nat, p2: nat)
    requires p1 < MAX_PARAMS && p2 < MAX_PARAMS
    requires l1 < l2 || (l1 == l2 && p1 < p2)
    ensures ParameterIndex(l1, p1) < ParameterIndex(l2, p2)
  {
    if l1 < l2 {
      assert (l1 + 1) * MAX_PARAMS <= l2 * MAX_PARAMS;
    }
  }

  /** One light's mask: a flag per parameter, stored in a fixed-size array. */
  class LightOptParams {
    var optimize: array<bool>

    ghost predicate Valid()
      reads this
    {
      optimize.Length == MAX_PARAMS
    }

    /** The constructor calls setDefault: nothing is optimised. */
    constructor ()
      ensures Valid() && fresh(optimize)
      ensures forall k :: 0 <= k < MAX_PARAMS ==> !optimize[k]
    {
      optimize := new bool[MAX_PARAMS](_ => false);
    }

    /** reset: every flag false. */
    method Reset()
      requires Valid()
      modifies optimize
      ensures forall k :: 0 <= k < MAX_PARAMS ==> !optimize[k]
    {
      var k := 0;
      while k < optimize.Length
        invariant 0 <= k <= optimize.Length
        invariant forall i :: 0 <= i < k ==> !optimize[i]
      {
        optimize[k] := false;
        k := k + 1;
      }
    }

    /** setDefault is reset. */
    method SetDefault()
      requires Valid()
      modifies optimize
      ensures forall k :: 0 <= k < MAX_PARAMS ==> !optimize[k]
    {
      Reset();
    }

    /** setAll: every flag true. */
    method SetAll()
      requires Valid()
      modifies optimize
      ensures forall k :: 0 <= k < MAX_PARAMS ==> optimize[k]
    {
      var k := 0;
      while k < optimize.Length
        invariant 0 <= k <= optimize.Length
        invariant forall i :: 0 <= i < k ==> optimize[i]
      {
        optimize[k] := true;
        k := k + 1;
      }
    }

    /** setRotations: the three rotation flags on, the others untouched. */
    method SetRotations()
      requires Valid()
      modifies optimize
      ensures optimize[ROT_X] && optimize[ROT_Y] && optimize[ROT_Z]
      ensures forall k :: 0 <= k < MAX_PARAMS && k != ROT_X && k != ROT_Y && k != ROT_Z ==> optimize[k] == old(optimize[k])
    {
      optimize[ROT_X] := true;
      optimize[ROT_Y] := true;
      optimize[ROT_Z] := true;
    }

    /** setPositions: the three position flags on, the others untouched. */
    method SetPositions()
      requires Valid()
      modifies optimize
      ensures optimize[POS_X] && optimize[POS_Y] && optimize[POS_Z]
      ensures forall k :: 0 <= k < MAX_PARAMS && k != POS_X && k != POS_Y && k != POS_Z ==> optimize[k] == old(optimize[k])
    {
      optimize[POS_X] := true;
      optimize[POS_Y] := true;
      optimize[POS_Z] := true;
    }
  }

  /** ConeAngleTanhParameterization::setActiveParams: the outer angle cannot be optimised alone. */
  function ConeActiveParams(innerActive: bool, edgeActive: bool): (r: (bool, bool))
    ensures r.0 == innerActive
    ensures r.1 ==> r.0
    ensures r.1 <==> innerActive && edgeActive
  {
    if !innerActive && edgeActive then (innerActive, false) else (innerActive, edgeActive)
  }

  // ---------------------------------------------------------------------------
  // The codec. The std::map<Ref*, LightOptParams> is given as the sequence of its
  // entries in key (pointer) order; each entry says what kind of reference it is.

  type Mask = m: seq<bool> | |m| == MAX_PARAMS witness seq(MAX_PARAMS, _ => false)

  datatype RefKind = LightRef(lightIndex: nat) | MeshRef | OtherRef
  datatype Entry = Entry(kind: RefKind, mask: Mask)

  /** Number of true flags in a prefix-built mask. */
  function CountTrue(s: seq<bool>): (n: nat)
    ensures n <= |s|
  {
    if s == [] then 0 else CountTrue(s[..|s| - 1]) + (if s[|s| - 1] then 1 else 0)
  }

  /** getActiveParameterCount, as a specification: the true flags of every entry. */
  function ActiveCount(es: seq<Entry>): nat
  {
    if es == [] then 0 else ActiveCount(es[..|es| - 1]) + CountTrue(es[|es| - 1].mask)
  }

  /** getActiveParameterCount: the loop over all entries and all flags. */
  method GetActiveParameterCount(es: seq<Entry>) returns (n: nat)
    ensures n == ActiveCount(es)
    ensures n <= MAX_PARAMS * |es|
  {
    n := 0;
    var i := 0;
    while i < |es|
      invariant 0 <= i <= |es|
      invariant n == ActiveCount(es[..i])
      invariant n <= MAX_PARAMS * i
    {
      var mask := es[i].mask;
      var k := 0;
      var before := n;
      while k < MAX_PARAMS
        invariant 0 <= k <= MAX_PARAMS
        invariant n == before + CountTrue(mask[..k])
      {
        assert mask[..k + 1][..k] == mask[..k];
        if mask[k] {
          n := n + 1;
        }
        k := k + 1;
      }
      assert mask[..MAX_PARAMS] == mask;
      assert es[..i + 1][..i] == es[..i];
      i := i + 1;
    }
    assert es[..|es|] == es;
  }

  // ----- the order map --------------------------------------------------------

  /** The first loop: every light entry among es[..n] at key ref_light_index; a later entry
      with the same index overwrites an earlier one. Values are entry positions. */
  function LightOrder(es: seq<Entry>, n: nat): (m: map<nat, nat>)
    requires n <= |es|
    ensures forall key :: key in m ==> m[key] < n && es[m[key]].kind.LightRef? && es[m[key]].kind.lightIndex == key
  {
    if n == 0 then map[]
    else
      var m := LightOrder(es, n - 1);
      if es[n - 1].kind.LightRef? then m[es[n - 1].kind.lightIndex := n - 1] else m
  }

  /** Number of mesh entries among es[..n]. */
  function MeshCount(es: seq<Entry>, n: nat): (c: nat)
    requires n <= |es|
    ensures c <= n
  {
    if n == 0 then 0 else MeshCount(es, n - 1) + (if es[n - 1].kind.MeshRef? then 1 else 0)
  }

  /** The second loop: the mesh entries among es[..n], in order, at keys lights, lights + 1, ... */
  function AddMeshes(es: seq<Entry>, n: nat, base: map<nat, nat>, lights: nat): (m: map<nat, nat>)
    requires n <= |es|
    ensures forall key :: key in base && key !in m ==> false
    ensures forall key :: key in m && key !in base ==> lights <= key < lights + MeshCount(es, n)
  {
    if n == 0 then base
    else
      var m := AddMeshes(es, n - 1, base, lights);
      if es[n - 1].kind.MeshRef? then m[lights + MeshCount(es, n - 1) := n - 1] else m
  }

  /** orderByIndex: key -> entry position. */
  function OrderMap(es: seq<Entry>): map<nat, nat>
  {
    var lightMap := LightOrder(es, |es|);
    AddMeshes(es, |es|, lightMap, |lightMap|)
  }

  // ----- walking the order map in ascending key order -------------------------

  /** The full-vector slots of the active flags k < upTo of the entry stored at `key`. */
  function KeySlots(key: nat, mask: Mask, upTo: nat): (s: seq<nat>)
    requires upTo <= MAX_PARAMS
    ensures |s| == CountTrue(mask[..upTo])
    ensures forall j :: 0 <= j < |s| ==> key * MAX_PARAMS <= s[j] < key * MAX_PARAMS + upTo
    ensures forall j :: 0 <= j < |s| ==> mask[s[j] - key * MAX_PARAMS]
    ensures forall j, j' :: 0 <= j < j' < |s| ==> s[j] < s[j']
  {
    if upTo == 0 then []
    else
      assert mask[..upTo][..upTo - 1] == mask[..upTo - 1];
      KeySlots(key, mask, upTo - 1) + (if mask[upTo - 1] then [ParameterIndex(key, upTo - 1)] else [])
  }

  /** The entry positions visited for keys below `bound`, ascending by key. */
  function VisitOrder(m: map<nat, nat>, bound: nat): seq<nat>
  {
    if bound == 0 then [] else VisitOrder(m, bound - 1) + (if bound - 1 in m then [m[bound - 1]] else [])
  }

  /** The slots visited for keys below `bound`, ascending by key and then by parameter. */
  function WalkUpTo(es: seq<Entry>, m: map<nat, nat>, bound: nat): (s: seq<nat>)
    requires forall key :: key in m ==> m[key] < |es|
    ensures forall j :: 0 <= j < |s| ==> s[j] < bound * MAX_PARAMS
    ensures forall j, j' :: 0 <= j < j' < |s| ==> s[j] < s[j']
  {
    if bound == 0 then []
    else
      var prev := WalkUpTo(es, m, bound - 1);
      var here := if bound - 1 in m then KeySlots(bound - 1, es[m[bound - 1]].mask, MAX_PARAMS) else [];
      prev + here
  }

  /** Largest light index among es[..n], or 0. */
  function MaxLightIndex(es: seq<Entry>, n: nat): (r: nat)
    requires n <= |es|
    ensures forall i :: 0 <= i < n && es[i].kind.LightRef? ==> es[i].kind.lightIndex <= r
  {
    if n == 0 then 0
    else
      var r := MaxLightIndex(es, n - 1);
      if es[n - 1].kind.LightRef? && es[n - 1].kind.lightIndex > r then es[n - 1].kind.lightIndex else r
  }

  /** A key bound above every key of the order map. */
  function KeyBound(es: seq<Entry>): nat
  {
    MaxLightIndex(es, |es|) + |es| + 1
  }

  /** The slots reduce reads and expand writes, in the order both use. */
  function Walk(es: seq<Entry>): seq<nat>
  {
    OrderMapFacts(es);
    WalkUpTo(es, OrderMap(es), KeyBound(es))
  }

  lemma {:induction false} LightOrderSize(es: seq<Entry>, n: nat)
    requires n <= |es|
    ensures |LightOrder(es, n)| <= n - MeshCount(es, n)
  {
    if n > 0 {
      LightOrderSize(es, n - 1);
      var m := LightOrder(es, n - 1);
      if es[n - 1].kind.LightRef? {
        var k := es[n - 1].kind.lightIndex;
        assert m[k := n - 1].Keys == m.Keys + {k};
      }
    }
  }

  /** Values of the order map are entry positions, keys are below KeyBound. */
  lemma OrderMapFacts(es: seq<Entry>)
    ensures forall key :: key in OrderMap(es) ==> OrderMap(es)[key] < |es| && key < KeyBound(es)
  {
    var lm := LightOrder(es, |es|);
    LightOrderSize(es, |es|);
    AddMeshesValues(es, |es|, lm, |lm|);
  }

  lemma {:induction false} AddMeshesValues(es: seq<Entry>, n: nat, base: map<nat, nat>, lights: nat)
    requires n <= |es|
    requires forall key :: key in base ==> base[key] < |es| && key <= MaxLightIndex(es, |es|)
    requires lights + MeshCount(es, |es|) <= |es|
    ensures forall key :: key in AddMeshes(es, n, base, lights) ==>
      AddMeshes(es, n, base, lights)[key] < |es| && key < KeyBound(es)
  {
    if n > 0 {
      AddMeshesValues(es, n - 1, base, lights);
      MeshCountMonotone(es, n, |es|);
    }
  }

  lemma {:induction false} MeshCountMonotone(es: seq<Entry>, n: nat, n': nat)
    requires n <= n' <= |es|
    ensures MeshCount(es, n) <= MeshCount(es, n')
    decreases n' - n
  {
    if n < n' { MeshCountMonotone(es, n, n' - 1); }
  }

  // ----- counting what the walk visits ----------------------------------------

  /** Number of active flags of the entry at each position (0 beyond the entries). */
  function Weights(es: seq<Entry>): nat -> nat
  {
    (i: nat) => if i < |es| then CountTrue(es[i].mask) else 0
  }

  /** w summed over the positions listed in v. */
  function SumOver(v: seq<nat>, w: nat -> nat): nat
  {
    if v == [] then 0 else SumOver(v[..|v| - 1], w) + w(v[|v| - 1])
  }

  /** w summed over the positions 0 .. n-1. */
  function SumBelow(n: nat, w: nat -> nat): nat
  {
    if n == 0 then 0 else SumBelow(n - 1, w) + w(n - 1)
  }

  predicate Distinct(v: seq<nat>)
  {
    forall i, j :: 0 <= i < j < |v| ==> v[i] != v[j]
  }

  lemma {:induction false} SumOverAppend(a: seq<nat>, b: seq<nat>, w: nat -> nat)
    ensures SumOver(a + b, w) == SumOver(a, w) + SumOver(b, w)
    decreases |b|
  {
    if b != [] {
      assert (a + b)[..|a + b| - 1] == a + b[..|b| - 1];
      SumOverAppend(a, b[..|b| - 1], w);
    } else {
      assert a + b == a;
    }
  }

  lemma {:induction false} ActiveCountIsSum(es: seq<Entry>, n: nat)
    requires n <= |es|
    ensures ActiveCount(es[..n]) == SumBelow(n, Weights(es))
  {
    if n > 0 {
      assert es[..n][..n - 1] == es[..n - 1];
      ActiveCountIsSum(es, n - 1);
    }
  }

  /** Removing the element at position p from a list of positions. */
  lemma RemoveAt(v: seq<nat>, p: nat, w: nat -> nat)
    requires p < |v|
    ensures SumOver(v, w) == SumOver(v[..p] + v[p + 1..], w) + w(v[p])
  {
    var before, from, after := v[..p], v[p..], v[p + 1..];
    SplitAt(v, p);
    SumOverAppend(before, from, w);
    SumOverAppend([v[p]], after, w);
    SumOverAppend(before, after, w);
    SumOverOne(v[p], w);
  }

  lemma SplitAt(v: seq<nat>, p: nat)
    requires p < |v|
    ensures v == v[..p] + v[p..] && v[p..] == [v[p]] + v[p + 1..]
  {
    assert v[p..][1..] == v[p + 1..];
  }

  lemma SumOverOne(x: nat, w: nat -> nat)
    ensures SumOver([x], w) == w(x)
  {
    assert [x][..0] == [];
  }

  /** Pigeonhole: a list of distinct positions below n has at most n elements. */
  lemma FirstBelow(v: seq<nat>, n: nat)
    requires |v| > 0 && forall i :: 0 <= i < |v| ==> v[i] < n
    ensures v[0] < n
  {}

  lemma {:induction false} DistinctBelowLength(v: seq<nat>, n: nat)
    requires Distinct(v) && forall i :: 0 <= i < |v| ==> v[i] < n
    ensures |v| <= n
    decreases n
  {
    if n == 0 {
      if |v| > 0 { FirstBelow(v, n); assert false; }
    } else if p :| 0 <= p < |v| && v[p] == n - 1 {
      var rest := v[..p] + v[p + 1..];
      assert forall i :: 0 <= i < |rest| ==> rest[i] == (if i < p then v[i] else v[i + 1]);
      DistinctBelowLength(rest, n - 1);
    } else {
      DistinctBelowLength(v, n - 1);
    }
  }

  /** Summing over distinct positions below n gives at most the sum over all of them,
      and exactly that sum when every position is listed. */
  lemma {:induction false} SumOverDistinct(v: seq<nat>, n: nat, w: nat -> nat)
    requires Distinct(v) && forall i :: 0 <= i < |v| ==> v[i] < n
    ensures SumOver(v, w) <= SumBelow(n, w)
    ensures |v| == n ==> SumOver(v, w) == SumBelow(n, w)
    decreases n
  {
    if n == 0 {
      if |v| > 0 { FirstBelow(v, n); assert false; }
    } else if p :| 0 <= p < |v| && v[p] == n - 1 {
      var rest := v[..p] + v[p + 1..];
      assert forall i :: 0 <= i < |rest| ==> rest[i] == (if i < p then v[i] else v[i + 1]);
      RemoveAt(v, p, w);
      SumOverDistinct(rest, n - 1, w);
    } else {
      SumOverDistinct(v, n - 1, w);
      if |v| == n {
        DistinctBelowLength(v, n - 1);
        assert false;
      }
    }
  }

  function KeysBelow(m: map<nat, nat>, bound: nat): set<nat>
  {
    set key | key in m && key < bound
  }

  lemma {:induction false} VisitOrderFacts(m: map<nat, nat>, bound: nat)
    ensures forall j :: 0 <= j < |VisitOrder(m, bound)| ==>
      exists key :: key in m && key < bound && VisitOrder(m, bound)[j] == m[key]
    ensures |VisitOrder(m, bound)| == |KeysBelow(m, bound)|
  {
    if bound > 0 {
      VisitOrderFacts(m, bound - 1);
      var prev := VisitOrder(m, bound - 1);
      var v := VisitOrder(m, bound);
      assert v == if bound - 1 in m then prev + [m[bound - 1]] else prev;
      forall j | 0 <= j < |v|
        ensures exists key :: key in m && key < bound && v[j] == m[key]
      {
        if j < |prev| {
          assert v[j] == prev[j];
          var key :| key in m && key < bound - 1 && prev[j] == m[key];
          assert key < bound;
        } else if bound - 1 in m {
          assert v[j] == m[bound - 1];
        } else {
          assert false;
        }
      }
      var below := KeysBelow(m, bound - 1);
      if bound - 1 in m {
        assert KeysBelow(m, bound) == below + {bound - 1};
      } else {
        assert KeysBelow(m, bound) == below;
      }
    } else {
      assert VisitOrder(m, bound) == [];
      assert KeysBelow(m, bound) == {};
    }
  }

  predicate Injective(m: map<nat, nat>)
  {
    forall k1, k2 :: k1 in m && k2 in m && k1 != k2 ==> m[k1] != m[k2]
  }

  lemma {:induction false} VisitOrderDistinct(m: map<nat, nat>, bound: nat)
    requires Injective(m)
    ensures Distinct(VisitOrder(m, bound))
  {
    if bound > 0 {
      VisitOrderDistinct(m, bound - 1);
      VisitOrderFacts(m, bound - 1);
    }
  }

  lemma {:induction false} WalkLength(es: seq<Entry>, m: map<nat, nat>, bound: nat)
    requires forall key :: key in m ==> m[key] < |es|
    ensures |WalkUpTo(es, m, bound)| == SumOver(VisitOrder(m, bound), Weights(es))
  {
    if bound > 0 {
      WalkLength(es, m, bound - 1);
      var prev := VisitOrder(m, bound - 1);
      if bound - 1 in m {
        var mask := es[m[bound - 1]].mask;
        assert mask[..MAX_PARAMS] == mask;
        assert (prev + [m[bound - 1]])[..|prev|] == prev;
      } else {
        assert VisitOrder(m, bound) == prev;
      }
    }
  }

  lemma {:induction false} LightOrderInjective(es: seq<Entry>, n: nat)
    requires n <= |es|
    ensures Injective(LightOrder(es, n))
  {
    if n > 0 { LightOrderInjective(es, n - 1); }
  }

  lemma {:induction false} AddMeshesInjective(es: seq<Entry>, n: nat, base: map<nat, nat>, lights: nat)
    requires n <= |es|
    requires Injective(base)
    requires forall key :: key in base ==> base[key] < |es| && es[base[key]].kind.LightRef?
    ensures Injective(AddMeshes(es, n, base, lights))
    ensures forall key :: key in AddMeshes(es, n, base, lights) ==>
      AddMeshes(es, n, base, lights)[key] < |es| &&
      (es[AddMeshes(es, n, base, lights)[key]].kind.MeshRef? ==> AddMeshes(es, n, base, lights)[key] < n)
  {
    if n > 0 { AddMeshesInjective(es, n - 1, base, lights); }
  }

  lemma OrderMapInjective(es: seq<Entry>)
    ensures Injective(OrderMap(es))
  {
    var lm := LightOrder(es, |es|);
    LightOrderInjective(es, |es|);
    AddMeshesInjective(es, |es|, lm, |lm|);
  }

  /** The walk never visits more slots than there are active flags. */
  lemma WalkWithinActive(es: seq<Entry>)
    ensures |Walk(es)| <= ActiveCount(es)
  {
    var m := OrderMap(es);
    var v := VisitOrder(m, KeyBound(es));
    OrderMapFacts(es);
    OrderMapInjective(es);
    VisitOrderDistinct(m, KeyBound(es));
    VisitOrderFacts(m, KeyBound(es));
    WalkLength(es, m, KeyBound(es));
    SumOverDistinct(v, |es|, Weights(es));
    ActiveCountIsSum(es, |es|);
    assert es[..|es|] == es;
  }

  // ----- when the walk covers every active flag -------------------------------

  /** Number of light entries among es[..n]. */
  function LightCount(es: seq<Entry>, n: nat): (c: nat)
    requires n <= |es|
    ensures c <= n
  {
    if n == 0 then 0 else LightCount(es, n - 1) + (if es[n - 1].kind.LightRef? then 1 else 0)
  }

  predicate DistinctLightIndices(es: seq<Entry>)
  {
    forall i, j :: 0 <= i < j < |es| && es[i].kind.LightRef? && es[j].kind.LightRef? ==>
      es[i].kind.lightIndex != es[j].kind.lightIndex
  }

  /** The map holds only lights and meshes, and the lights' ref_light_index values are
      distinct and below the number of lights (the scene numbers its lights 0 .. L-1). */
  predicate WellIndexed(es: seq<Entry>)
  {
    DistinctLightIndices(es) &&
    forall i :: 0 <= i < |es| ==>
      !es[i].kind.OtherRef? && (es[i].kind.LightRef? ==> es[i].kind.lightIndex < LightCount(es, |es|))
  }

  lemma {:induction false} LightOrderKeys(es: seq<Entry>, n: nat)
    requires n <= |es| && DistinctLightIndices(es)
    ensures |LightOrder(es, n)| == LightCount(es, n)
  {
    if n > 0 {
      LightOrderKeys(es, n - 1);
      var m := LightOrder(es, n - 1);
      if es[n - 1].kind.LightRef? {
        var k := es[n - 1].kind.lightIndex;
        assert k !in m;
        assert m[k := n - 1].Keys == m.Keys + {k};
      }
    }
  }

  lemma {:induction false} AddMeshesKeys(es: seq<Entry>, n: nat, base: map<nat, nat>, lights: nat)
    requires n <= |es|
    requires forall key :: key in base ==> key < lights
    ensures forall key :: key in AddMeshes(es, n, base, lights) ==> key < lights + MeshCount(es, n)
  {
    if n > 0 {
      AddMeshesKeys(es, n - 1, base, lights);
    }
  }

  lemma {:induction false} AddMeshesSize(es: seq<Entry>, n: nat, base: map<nat, nat>, lights: nat)
    requires n <= |es|
    requires forall key :: key in base ==> key < lights
    ensures |AddMeshes(es, n, base, lights)| == |base| + MeshCount(es, n)
  {
    if n > 0 {
      AddMeshesSize(es, n - 1, base, lights);
      AddMeshesKeys(es, n - 1, base, lights);
      var m := AddMeshes(es, n - 1, base, lights);
      if es[n - 1].kind.MeshRef? {
        assert lights + MeshCount(es, n - 1) !in m;
      }
    }
  }

  lemma {:induction false} CountsPartition(es: seq<Entry>, n: nat)
    requires n <= |es|
    requires forall i :: 0 <= i < |es| ==> !es[i].kind.OtherRef?
    ensures LightCount(es, n) + MeshCount(es, n) == n
  {
    if n > 0 { CountsPartition(es, n - 1); }
  }

  /** With well-indexed lights no key is overwritten: one key per entry, all below |es|. */
  lemma OrderMapSize(es: seq<Entry>)
    requires WellIndexed(es)
    ensures |OrderMap(es)| == |es|
    ensures forall key :: key in OrderMap(es) ==> key < |es|
  {
    var lm := LightOrder(es, |es|);
    LightOrderKeys(es, |es|);
    CountsPartition(es, |es|);
    AddMeshesSize(es, |es|, lm, |lm|);
    AddMeshesKeys(es, |es|, lm, |lm|);
  }

  lemma {:induction false} WalkSlotsBelow(es: seq<Entry>, m: map<nat, nat>, bound: nat, b: nat)
    requires forall key :: key in m ==> m[key] < |es| && key < b
    ensures forall j :: 0 <= j < |WalkUpTo(es, m, bound)| ==> WalkUpTo(es, m, bound)[j] < b * MAX_PARAMS
  {
    if bound > 0 {
      WalkSlotsBelow(es, m, bound - 1, b);
      if bound - 1 in m {
        assert (bound - 1) * MAX_PARAMS + MAX_PARAMS <= b * MAX_PARAMS;
      }
    }
  }

  predicate SlotsBelow(es: seq<Entry>, size: nat)
  {
    forall j :: 0 <= j < |Walk(es)| ==> Walk(es)[j] < size
  }

  /** For a well-indexed map every entry position is visited exactly once. */
  lemma VisitsEveryEntry(es: seq<Entry>)
    requires WellIndexed(es)
    ensures forall key :: key in OrderMap(es) ==> OrderMap(es)[key] < |es| && key < |es|
    ensures |VisitOrder(OrderMap(es), KeyBound(es))| == |es|
    ensures Distinct(VisitOrder(OrderMap(es), KeyBound(es)))
    ensures forall j :: 0 <= j < |es| ==> VisitOrder(OrderMap(es), KeyBound(es))[j] < |es|
  {
    var m := OrderMap(es);
    var bound := KeyBound(es);
    OrderMapFacts(es);
    OrderMapSize(es);
    OrderMapInjective(es);
    VisitOrderDistinct(m, bound);
    VisitOrderFacts(m, bound);
    assert KeysBelow(m, bound) == m.Keys;
  }

  /** For a well-indexed map the walk visits every active flag once, inside the full vector. */
  lemma WalkComplete(es: seq<Entry>)
    requires WellIndexed(es)
    ensures |Walk(es)| == ActiveCount(es)
    ensures SlotsBelow(es, MAX_PARAMS * |es|)
  {
    var m := OrderMap(es);
    var bound := KeyBound(es);
    VisitsEveryEntry(es);
    WalkLength(es, m, bound);
    SumOverDistinct(VisitOrder(m, bound), |es|, Weights(es));
    ActiveCountIsSum(es, |es|);
    assert es[..|es|] == es;
    WalkSlotsBelow(es, m, bound, |es|);
  }

  // ----- which slots the walk visits ------------------------------------------

  lemma {:induction false} KeySlotsMembers(key: nat, mask: Mask, upTo: nat)
    requires upTo <= MAX_PARAMS
    ensures forall i :: i in KeySlots(key, mask, upTo) <==>
      exists k :: 0 <= k < upTo && mask[k] && i == ParameterIndex(key, k)
  {
    if upTo > 0 { KeySlotsMembers(key, mask, upTo - 1); }
  }

  /** Slot i belongs to an active flag k of some key below bound. */
  predicate ActiveSlotBelow(es: seq<Entry>, m: map<nat, nat>, bound: nat, i: nat)
    requires forall key :: key in m ==> m[key] < |es|
  {
    exists key, k :: key in m && key < bound && 0 <= k < MAX_PARAMS && es[m[key]].mask[k] && i == ParameterIndex(key, k)
  }

  /** Active slots below bound are those below bound - 1 and those of key bound - 1. */
  lemma ActiveSlotSplit(es: seq<Entry>, m: map<nat, nat>, bound: nat, i: nat)
    requires forall key :: key in m ==> m[key] < |es|
    requires bound > 0
    ensures ActiveSlotBelow(es, m, bound, i) <==>
      ActiveSlotBelow(es, m, bound - 1, i) ||
      (bound - 1 in m && i in KeySlots(bound - 1, es[m[bound - 1]].mask, MAX_PARAMS))
  {
    if bound - 1 in m {
      KeySlotsMembers(bound - 1, es[m[bound - 1]].mask, MAX_PARAMS);
    }
    if ActiveSlotBelow(es, m, bound, i) {
      var key, k :| key in m && key < bound && 0 <= k < MAX_PARAMS && es[m[key]].mask[k] && i == ParameterIndex(key, k);
      if key < bound - 1 {
        assert ActiveSlotBelow(es, m, bound - 1, i);
      }
    }
    if ActiveSlotBelow(es, m, bound - 1, i) {
      var key, k :| key in m && key < bound - 1 && 0 <= k < MAX_PARAMS && es[m[key]].mask[k] && i == ParameterIndex(key, k);
      assert ActiveSlotBelow(es, m, bound, i);
    }
  }

  lemma {:induction false} WalkMembers(es: seq<Entry>, m: map<nat, nat>, bound: nat)
    requires forall key :: key in m ==> m[key] < |es|
    ensures forall i :: i in WalkUpTo(es, m, bound) <==> ActiveSlotBelow(es, m, bound, i)
  {
    if bound > 0 {
      WalkMembers(es, m, bound - 1);
      var prev := WalkUpTo(es, m, bound - 1);
      var here := if bound - 1 in m then KeySlots(bound - 1, es[m[bound - 1]].mask, MAX_PARAMS) else [];
      assert WalkUpTo(es, m, bound) == prev + here;
      forall i: nat
        ensures i in WalkUpTo(es, m, bound) <==> ActiveSlotBelow(es, m, bound, i)
      {
        ActiveSlotSplit(es, m, bound, i);
      }
    } else {
      assert WalkUpTo(es, m, bound) == [];
    }
  }

  /** The slots of the walk are exactly the active flags (key, k) of the order map. */
  lemma WalkIsActiveSlots(es: seq<Entry>)
    ensures forall key :: key in OrderMap(es) ==> OrderMap(es)[key] < |es|
    ensures forall i :: i in Walk(es) <==>
      exists key, k :: key in OrderMap(es) && 0 <= k < MAX_PARAMS && es[OrderMap(es)[key]].mask[k] &&
        i == ParameterIndex(key, k)
  {
    var m := OrderMap(es);
    OrderMapFacts(es);
    WalkMembers(es, m, KeyBound(es));
    forall i: nat
      ensures ActiveSlotBelow(es, m, KeyBound(es), i) <==>
        exists key, k :: key in m && 0 <= k < MAX_PARAMS && es[m[key]].mask[k] && i == ParameterIndex(key, k)
    {
    }
  }

  // ----- reduce and expand ----------------------------------------------------

  /** The values of p at the listed slots, in order. */
  function Gather(slots: seq<nat>, p: seq<real>): (r: seq<real>)
    requires forall j :: 0 <= j < |slots| ==> slots[j] < |p|
    ensures |r| == |slots|
    ensures forall j :: 0 <= j < |slots| ==> r[j] == p[slots[j]]
  {
    if slots == [] then [] else Gather(slots[..|slots| - 1], p) + [p[slots[|slots| - 1]]]
  }

  /** size zeros, then v[j] written at slots[j] for each j in order. */
  function Scatter(slots: seq<nat>, v: seq<real>, size: nat): (r: seq<real>)
    requires |slots| <= |v|
    requires forall j :: 0 <= j < |slots| ==> slots[j] < size
    ensures |r| == size
  {
    if slots == [] then seq(size, _ => 0.0)
    else Scatter(slots[..|slots| - 1], v, size)[slots[|slots| - 1] := v[|slots| - 1]]
  }

  /** Scattering to distinct slots puts v[j] at slots[j] and leaves zeros elsewhere. */
  lemma {:induction false} ScatterAt(slots: seq<nat>, v: seq<real>, size: nat)
    requires |slots| <= |v|
    requires forall j :: 0 <= j < |slots| ==> slots[j] < size
    requires Distinct(slots)
    ensures forall j :: 0 <= j < |slots| ==> Scatter(slots, v, size)[slots[j]] == v[j]
    ensures forall i :: 0 <= i < size && i !in slots ==> Scatter(slots, v, size)[i] == 0.0
  {
    if slots != [] {
      var prev := slots[..|slots| - 1];
      ScatterAt(prev, v, size);
      forall i | 0 <= i < size && i !in slots
        ensures Scatter(slots, v, size)[i] == 0.0
      {
        assert i !in prev;
      }
    }
  }

  /** reduceVectorToActiveParams: the active values in walk order, padded with zeros up to
      the active count. */
  function Reduce(es: seq<Entry>, p: seq<real>): (r: seq<real>)
    requires SlotsBelow(es, |p|)
    ensures |r| == ActiveCount(es)
  {
    WalkWithinActive(es);
    Gather(Walk(es), p) + seq(ActiveCount(es) - |Walk(es)|, _ => 0.0)
  }

  /** expandVectorToFullParams: a zero vector of MAX_PARAMS entries per map entry with the
      active values written back at their slots. */
  function Expand(es: seq<Entry>, v: seq<real>): (r: seq<real>)
    requires SlotsBelow(es, MAX_PARAMS * |es|) && |Walk(es)| <= |v|
    ensures |r| == MAX_PARAMS * |es|
  {
    Scatter(Walk(es), v, MAX_PARAMS * |es|)
  }

  /** Reduce reads each active slot: the j-th reduced value is the j-th visited slot's value. */
  lemma ReduceReads(es: seq<Entry>, p: seq<real>)
    requires SlotsBelow(es, |p|)
    ensures |Walk(es)| <= ActiveCount(es)
    ensures forall j :: 0 <= j < ActiveCount(es) ==>
      Reduce(es, p)[j] == if j < |Walk(es)| then p[Walk(es)[j]] else 0.0
  {
    WalkWithinActive(es);
  }

  /** Expand writes each active slot and zeroes the others. */
  lemma ExpandWrites(es: seq<Entry>, v: seq<real>)
    requires SlotsBelow(es, MAX_PARAMS * |es|) && |Walk(es)| <= |v|
    ensures forall j :: 0 <= j < |Walk(es)| ==> Expand(es, v)[Walk(es)[j]] == v[j]
    ensures forall i :: 0 <= i < MAX_PARAMS * |es| && i !in Walk(es) ==> Expand(es, v)[i] == 0.0
  {
    ScatterAt(Walk(es), v, MAX_PARAMS * |es|);
  }

  /** Expanding an active vector and reducing it again gives it back. */
  lemma ReduceExpand(es: seq<Entry>, v: seq<real>)
    requires WellIndexed(es) && |v| == ActiveCount(es)
    ensures SlotsBelow(es, MAX_PARAMS * |es|) && |Walk(es)| <= |v|
    ensures Reduce(es, Expand(es, v)) == v
  {
    WalkComplete(es);
    ExpandWrites(es, v);
    var r := Reduce(es, Expand(es, v));
    ReduceReads(es, Expand(es, v));
    assert forall j :: 0 <= j < |v| ==> r[j] == v[j];
  }

  /** Reducing a full vector and expanding it again keeps the active slots and zeroes the rest. */
  lemma ExpandReduce(es: seq<Entry>, p: seq<real>)
    requires WellIndexed(es) && |p| == MAX_PARAMS * |es|
    ensures SlotsBelow(es, |p|) && |Walk(es)| <= ActiveCount(es)
    ensures forall i :: 0 <= i < |p| ==> Expand(es, Reduce(es, p))[i] == if i in Walk(es) then p[i] else 0.0
  {
    WalkComplete(es);
    var r := Reduce(es, p);
    ReduceReads(es, p);
    ExpandWrites(es, r);
    var w := Walk(es);
    forall i | 0 <= i < |p| && i in w
      ensures Expand(es, r)[i] == p[i]
    {
      var j :| 0 <= j < |w| && w[j] == i;
    }
  }

  // ----- the imperative codec -------------------------------------------------

  /** The two loops that build orderByIndex. */
  method BuildOrderMap(es: seq<Entry>) returns (m: map<nat, nat>)
    ensures m == OrderMap(es)
  {
    m := AddLightEntries(es);
    m := AddMeshEntries(es, m);
  }

  /** The first loop: each light entry under its ref_light_index. */
  method AddLightEntries(es: seq<Entry>) returns (m: map<nat, nat>)
    ensures m == LightOrder(es, |es|)
  {
    m := map[];
    var i := 0;
    while i < |es|
      invariant i <= |es| && m == LightOrder(es, i)
    {
      if es[i].kind.LightRef? {
        m := m[es[i].kind.lightIndex := i];
      }
      i := i + 1;
    }
  }

  /** The second loop: the mesh entries in order, at the keys after the lights. */
  method AddMeshEntries(es: seq<Entry>, lightMap: map<nat, nat>) returns (m: map<nat, nat>)
    ensures m == AddMeshes(es, |es|, lightMap, |lightMap|)
  {
    m := lightMap;
    var lights := |m|;
    var models := 0;
    var i := 0;
    while i < |es|
      invariant i <= |es| && models == MeshCount(es, i)
      invariant m == AddMeshes(es, i, lightMap, lights)
    {
      if es[i].kind.MeshRef? {
        m := m[lights + models := i];
        models := models + 1;
      }
      i := i + 1;
    }
  }

  /** What the walk has reached after all keys below `key` and the flags k' < k of `key`. */
  function WalkSoFar(es: seq<Entry>, m: map<nat, nat>, key: nat, k: nat): seq<nat>
    requires forall key' :: key' in m ==> m[key'] < |es|
    requires k <= MAX_PARAMS
  {
    WalkUpTo(es, m, key) + (if key in m then KeySlots(key, es[m[key]].mask, k) else [])
  }

  predicate IsPrefix(a: seq<nat>, b: seq<nat>)
  {
    |a| <= |b| && b[..|a|] == a
  }

  lemma {:induction false} WalkUpToPrefix(es: seq<Entry>, m: map<nat, nat>, a: nat, b: nat)
    requires forall key :: key in m ==> m[key] < |es|
    requires a <= b
    ensures IsPrefix(WalkUpTo(es, m, a), WalkUpTo(es, m, b))
    decreases b - a
  {
    if a < b {
      WalkUpToPrefix(es, m, a, b - 1);
      var prev := WalkUpTo(es, m, b - 1);
      assert WalkUpTo(es, m, b)[..|prev|] == prev;
    }
  }

  lemma PrefixTransitive(a: seq<nat>, b: seq<nat>, c: seq<nat>)
    requires IsPrefix(a, b) && IsPrefix(b, c)
    ensures IsPrefix(a, c)
  {
    assert c[..|a|] == c[..|b|][..|a|];
  }

  lemma PrefixExtend(a: seq<nat>, b: seq<nat>, b': seq<nat>)
    requires IsPrefix(b, b')
    ensures IsPrefix(a + b, a + b')
  {
    assert (a + b')[..|a + b|] == a + b'[..|b|];
  }

  /** Every intermediate state of the walk over keys below bound is a prefix of the whole walk. */
  lemma WalkSoFarPrefix(es: seq<Entry>, m: map<nat, nat>, bound: nat, key: nat, k: nat)
    requires forall key' :: key' in m ==> m[key'] < |es|
    requires k <= MAX_PARAMS && key < bound
    ensures IsPrefix(WalkSoFar(es, m, key, k), WalkUpTo(es, m, bound))
  {
    WalkUpToPrefix(es, m, key + 1, bound);
    var before := WalkUpTo(es, m, key);
    var full := WalkUpTo(es, m, key + 1);
    if key in m {
      var mask := es[m[key]].mask;
      KeySlotsPrefix(key, mask, k);
      assert full == before + KeySlots(key, mask, MAX_PARAMS);
      PrefixExtend(before, KeySlots(key, mask, k), KeySlots(key, mask, MAX_PARAMS));
      PrefixTransitive(WalkSoFar(es, m, key, k), full, WalkUpTo(es, m, bound));
    } else {
      assert full == before;
      assert WalkSoFar(es, m, key, k) == before;
    }
  }

  lemma {:induction false} KeySlotsPrefix(key: nat, mask: Mask, k: nat)
    requires k <= MAX_PARAMS
    ensures IsPrefix(KeySlots(key, mask, k), KeySlots(key, mask, MAX_PARAMS))
    decreases MAX_PARAMS - k
  {
    if k < MAX_PARAMS {
      KeySlotsPrefix(key, mask, k + 1);
      assert KeySlots(key, mask, k + 1)[..|KeySlots(key, mask, k)|] == KeySlots(key, mask, k);
    }
  }

  /** One more flag of the current key: the walk so far grows by that flag's slot if it is active. */
  lemma WalkSoFarStep(es: seq<Entry>, m: map<nat, nat>, key: nat, k: nat)
    requires forall key' :: key' in m ==> m[key'] < |es|
    requires key in m && k < MAX_PARAMS
    ensures WalkSoFar(es, m, key, k + 1) ==
      WalkSoFar(es, m, key, k) + (if es[m[key]].mask[k] then [ParameterIndex(key, k)] else [])
  {
  }

  /** Flag k of key: the walk so far stays a prefix of the whole walk, and an active flag's
      slot is the next one of the whole walk, distinct from all before it. */
  lemma WalkNextSlot(es: seq<Entry>, m: map<nat, nat>, bound: nat, key: nat, k: nat)
    requires forall key' :: key' in m ==> m[key'] < |es|
    requires key in m && key < bound && k < MAX_PARAMS
    ensures IsPrefix(WalkSoFar(es, m, key, k + 1), WalkUpTo(es, m, bound))
    ensures !es[m[key]].mask[k] ==> WalkSoFar(es, m, key, k + 1) == WalkSoFar(es, m, key, k)
    ensures es[m[key]].mask[k] ==>
      |WalkSoFar(es, m, key, k + 1)| == |WalkSoFar(es, m, key, k)| + 1 &&
      WalkUpTo(es, m, bound)[|WalkSoFar(es, m, key, k)|] == ParameterIndex(key, k) &&
      forall t :: 0 <= t < |WalkSoFar(es, m, key, k)| ==> WalkUpTo(es, m, bound)[t] != ParameterIndex(key, k)
  {
    WalkSoFarPrefix(es, m, bound, key, k + 1);
    WalkSoFarStep(es, m, key, k);
    if es[m[key]].mask[k] {
      var n := |WalkSoFar(es, m, key, k)|;
      var after, whole := WalkSoFar(es, m, key, k + 1), WalkUpTo(es, m, bound);
      assert after[n] == ParameterIndex(key, k);
      assert whole[n] == whole[..|after|][n] == after[n];
      forall t | 0 <= t < n
        ensures whole[t] != ParameterIndex(key, k)
      {
        assert whole[t] < whole[n];
      }
    }
  }

  /** r holds p at the first j slots of w, and zeros after them. */
  predicate GatheredUpTo(r: seq<real>, w: seq<nat>, p: seq<real>, j: nat)
  {
    j <= |w| && j <= |r| &&
    (forall t :: 0 <= t < j ==> w[t] < |p| && r[t] == p[w[t]]) &&
    (forall t :: j <= t < |r| ==> r[t] == 0.0)
  }

  /** reduceVectorToActiveParams: orderByIndex is built, then walked in ascending key order. */
  method ReduceVectorToActiveParams(es: seq<Entry>, p: seq<real>) returns (r: seq<real>)
    requires SlotsBelow(es, |p|)
    ensures r == Reduce(es, p)
  {
    var count := GetActiveParameterCount(es);
    var m := BuildOrderMap(es);
    OrderMapFacts(es);
    WalkWithinActive(es);
    r := ReduceWalk(es, m, KeyBound(es), p, count);
    ReduceReads(es, p);
  }

  lemma GatherStep(r: seq<real>, w: seq<nat>, p: seq<real>, j: nat)
    requires GatheredUpTo(r, w, p, j)
    requires j < |w| && j < |r| && w[j] < |p|
    ensures GatheredUpTo(r[j := p[w[j]]], w, p, j + 1)
  {
  }

  /** The walk of reduceVectorToActiveParams over the keys of m below bound. */
  method ReduceWalk(es: seq<Entry>, m: map<nat, nat>, bound: nat, p: seq<real>, count: nat) returns (r: seq<real>)
    requires forall key :: key in m ==> m[key] < |es|
    requires forall t :: 0 <= t < |WalkUpTo(es, m, bound)| ==> WalkUpTo(es, m, bound)[t] < |p|
    requires |WalkUpTo(es, m, bound)| <= count
    ensures |r| == count && GatheredUpTo(r, WalkUpTo(es, m, bound), p, |WalkUpTo(es, m, bound)|)
  {
    ghost var w := WalkUpTo(es, m, bound);
    r := Zeros(count);
    var j := 0;
    var key := 0;
    while key < bound
      invariant key <= bound
      invariant IsPrefix(WalkUpTo(es, m, key), w)
      invariant j == |WalkUpTo(es, m, key)| && |r| == count
      invariant GatheredUpTo(r, w, p, j)
    {
      WalkSoFarPrefix(es, m, bound, key, 0);
      if key in m {
        r, j := ReduceKey(es, m, bound, key, p, r, j);
      } else {
        assert WalkUpTo(es, m, key + 1) == WalkUpTo(es, m, key);
      }
      key := key + 1;
    }
  }

  /** The inner loop of reduceVectorToActiveParams, over the flags of one key. */
  method ReduceKey(es: seq<Entry>, m: map<nat, nat>, bound: nat, key: nat, p: seq<real>, r0: seq<real>, j0: nat)
    returns (r: seq<real>, j: nat)
    requires forall key' :: key' in m ==> m[key'] < |es|
    requires key in m && key < bound
    requires forall t :: 0 <= t < |WalkUpTo(es, m, bound)| ==> WalkUpTo(es, m, bound)[t] < |p|
    requires |WalkUpTo(es, m, bound)| <= |r0|
    requires IsPrefix(WalkUpTo(es, m, key), WalkUpTo(es, m, bound))
    requires j0 == |WalkUpTo(es, m, key)|
    requires GatheredUpTo(r0, WalkUpTo(es, m, bound), p, j0)
    ensures IsPrefix(WalkUpTo(es, m, key + 1), WalkUpTo(es, m, bound))
    ensures j == |WalkUpTo(es, m, key + 1)| && |r| == |r0|
    ensures GatheredUpTo(r, WalkUpTo(es, m, bound), p, j)
  {
    ghost var w := WalkUpTo(es, m, bound);
    r, j := r0, j0;
    var k := 0;
    while k < MAX_PARAMS
      invariant k <= MAX_PARAMS
      invariant IsPrefix(WalkSoFar(es, m, key, k), w)
      invariant j == |WalkSoFar(es, m, key, k)| && |r| == |r0|
      invariant GatheredUpTo(r, w, p, j)
    {
      r, j := ReduceFlag(es, m, bound, key, k, p, r, j);
      k := k + 1;
    }
    assert WalkSoFar(es, m, key, MAX_PARAMS) == WalkUpTo(es, m, key + 1);
  }

  /** One pass of the inner loop: an active flag's parameter is read into the next slot. */
  method ReduceFlag(es: seq<Entry>, m: map<nat, nat>, bound: nat, key: nat, k: nat, p: seq<real>, r0: seq<real>, j0: nat)
    returns (r: seq<real>, j: nat)
    requires forall key' :: key' in m ==> m[key'] < |es|
    requires key in m && key < bound && k < MAX_PARAMS
    requires forall t :: 0 <= t < |WalkUpTo(es, m, bound)| ==> WalkUpTo(es, m, bound)[t] < |p|
    requires |WalkUpTo(es, m, bound)| <= |r0|
    requires IsPrefix(WalkSoFar(es, m, key, k), WalkUpTo(es, m, bound))
    requires j0 == |WalkSoFar(es, m, key, k)|
    requires GatheredUpTo(r0, WalkUpTo(es, m, bound), p, j0)
    ensures IsPrefix(WalkSoFar(es, m, key, k + 1), WalkUpTo(es, m, bound))
    ensures j == |WalkSoFar(es, m, key, k + 1)| && |r| == |r0|
    ensures GatheredUpTo(r, WalkUpTo(es, m, bound), p, j)
  {
    ghost var w := WalkUpTo(es, m, bound);
    WalkNextSlot(es, m, bound, key, k);
    if es[m[key]].mask[k] {
      var slot := ParameterIndex(key, k);
      GatherStep(r0, w, p, j0);
      r, j := r0[j0 := p[slot]], j0 + 1;
    } else {
      r, j := r0, j0;
    }
  }

  /** expandVectorToFullParams: the same walk, writing instead of reading. */
  method ExpandVectorToFullParams(es: seq<Entry>, v: seq<real>) returns (full: seq<real>)
    requires SlotsBelow(es, MAX_PARAMS * |es|) && |Walk(es)| <= |v|
    ensures full == Expand(es, v)
  {
    var m := BuildOrderMap(es);
    OrderMapFacts(es);
    full := ExpandWalk(es, m, KeyBound(es), v, MAX_PARAMS * |es|);
    ScatteredIsScatter(full, Walk(es), v);
  }

  /** full holds v[t] at slot w[t] for t < j and zeros at every other slot. */
  predicate ScatteredUpTo(full: seq<real>, w: seq<nat>, v: seq<real>, j: nat)
  {
    j <= |w| && j <= |v| &&
    (forall t :: 0 <= t < j ==> w[t] < |full| && full[w[t]] == v[t]) &&
    (forall i :: 0 <= i < |full| && i !in w[..j] ==> full[i] == 0.0)
  }

  lemma ScatterStep(full: seq<real>, w: seq<nat>, v: seq<real>, j: nat)
    requires ScatteredUpTo(full, w, v, j)
    requires j < |w| && j < |v| && w[j] < |full|
    requires forall t :: 0 <= t < j ==> w[t] != w[j]
    ensures ScatteredUpTo(full[w[j] := v[j]], w, v, j + 1)
  {
    assert w[..j + 1] == w[..j] + [w[j]];
  }

  lemma ScatteredIsScatter(full: seq<real>, w: seq<nat>, v: seq<real>)
    requires |w| <= |v| && Distinct(w)
    requires ScatteredUpTo(full, w, v, |w|)
    ensures full == Scatter(w, v, |full|)
  {
    ScatterAt(w, v, |full|);
    assert w[..|w|] == w;
    forall i | 0 <= i < |full| && i in w
      ensures full[i] == Scatter(w, v, |full|)[i]
    {
      var t :| 0 <= t < |w| && w[t] == i;
    }
  }

  /** The walk of expandVectorToFullParams over the keys of m below bound. */
  method ExpandWalk(es: seq<Entry>, m: map<nat, nat>, bound: nat, v: seq<real>, size: nat) returns (full: seq<real>)
    requires forall key :: key in m ==> m[key] < |es|
    requires forall t :: 0 <= t < |WalkUpTo(es, m, bound)| ==> WalkUpTo(es, m, bound)[t] < size
    requires |WalkUpTo(es, m, bound)| <= |v|
    ensures |full| == size && ScatteredUpTo(full, WalkUpTo(es, m, bound), v, |WalkUpTo(es, m, bound)|)
  {
    ghost var w := WalkUpTo(es, m, bound);
    full := Zeros(size);
    var j := 0;
    var key := 0;
    while key < bound
      invariant key <= bound
      invariant IsPrefix(WalkUpTo(es, m, key), w)
      invariant j == |WalkUpTo(es, m, key)| && |full| == size
      invariant ScatteredUpTo(full, w, v, j)
    {
      WalkSoFarPrefix(es, m, bound, key, 0);
      if key in m {
        full, j := ExpandKey(es, m, bound, key, v, full, j);
      } else {
        assert WalkUpTo(es, m, key + 1) == WalkUpTo(es, m, key);
      }
      key := key + 1;
    }
  }

  /** The inner loop of expandVectorToFullParams, over the flags of one key. */
  method ExpandKey(es: seq<Entry>, m: map<nat, nat>, bound: nat, key: nat, v: seq<real>, full0: seq<real>, j0: nat)
    returns (full: seq<real>, j: nat)
    requires forall key' :: key' in m ==> m[key'] < |es|
    requires key in m && key < bound
    requires forall t :: 0 <= t < |WalkUpTo(es, m, bound)| ==> WalkUpTo(es, m, bound)[t] < |full0|
    requires |WalkUpTo(es, m, bound)| <= |v|
    requires IsPrefix(WalkUpTo(es, m, key), WalkUpTo(es, m, bound))
    requires j0 == |WalkUpTo(es, m, key)|
    requires ScatteredUpTo(full0, WalkUpTo(es, m, bound), v, j0)
    ensures IsPrefix(WalkUpTo(es, m, key + 1), WalkUpTo(es, m, bound))
    ensures j == |WalkUpTo(es, m, key + 1)| && |full| == |full0|
    ensures ScatteredUpTo(full, WalkUpTo(es, m, bound), v, j)
  {
    ghost var w := WalkUpTo(es, m, bound);
    full, j := full0, j0;
    var k := 0;
    while k < MAX_PARAMS
      invariant k <= MAX_PARAMS
      invariant IsPrefix(WalkSoFar(es, m, key, k), w)
      invariant j == |WalkSoFar(es, m, key, k)| && |full| == |full0|
      invariant ScatteredUpTo(full, w, v, j)
    {
      full, j := ExpandFlag(es, m, bound, key, k, v, full, j);
      k := k + 1;
    }
    assert WalkSoFar(es, m, key, MAX_PARAMS) == WalkUpTo(es, m, key + 1);
  }

  /** One pass of the inner loop: the next value is written to an active flag's slot. */
  method ExpandFlag(es: seq<Entry>, m: map<nat, nat>, bound: nat, key: nat, k: nat, v: seq<real>, full0: seq<real>, j0: nat)
    returns (full: seq<real>, j: nat)
    requires forall key' :: key' in m ==> m[key'] < |es|
    requires key in m && key < bound && k < MAX_PARAMS
    requires forall t :: 0 <= t < |WalkUpTo(es, m, bound)| ==> WalkUpTo(es, m, bound)[t] < |full0|
    requires |WalkUpTo(es, m, bound)| <= |v|
    requires IsPrefix(WalkSoFar(es, m, key, k), WalkUpTo(es, m, bound))
    requires j0 == |WalkSoFar(es, m, key, k)|
    requires ScatteredUpTo(full0, WalkUpTo(es, m, bound), v, j0)
    ensures IsPrefix(WalkSoFar(es, m, key, k + 1), WalkUpTo(es, m, bound))
    ensures j == |WalkSoFar(es, m, key, k + 1)| && |full| == |full0|
    ensures ScatteredUpTo(full, WalkUpTo(es, m, bound), v, j)
  {
    ghost var w := WalkUpTo(es, m, bound);
    WalkNextSlot(es, m, bound, key, k);
    if es[m[key]].mask[k] {
      var slot := ParameterIndex(key, k);
      ScatterStep(full0, w, v, j0);
      full, j := full0[slot := v[j0]], j0 + 1;
    } else {
      full, j := full0, j0;
    }
  }
}
