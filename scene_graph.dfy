/**
 * The scene graph of scene_graph.cpp: a node's local transform (TRS) with its optional
 * keyframe animations, the keyframe search the animation evaluation runs, and the node tree
 * with addChildNode and the pre-order visit.
 */
module SceneGraph {
  import opened Numeric
  import opened Wrappers

  const SIZE_MAX: nat := 0xFFFF_FFFF_FFFF_FFFF

  datatype Vec4 = Vec4(x: real, y: real, z: real, w: real)

  datatype Interpolation = NONE | LINEAR | STEP | CUBIC_SPLINE

  /** TRS: the static transform and, per component, the keyframe times, values and interpolation. */
  datatype TRS = TRS(
    translation: Vec3, translationInterpolation: Interpolation,
    translationTimeSteps: seq<real>, translationSteps: seq<Vec3>,
    rotation: Vec4, rotationInterpolation: Interpolation,
    rotationTimeSteps: seq<real>, rotationSteps: seq<Vec4>,
    scale: Vec3, scaleInterpolation: Interpolation,
    scaleTimeSteps: seq<real>, scaleSteps: seq<Vec3>)

  /** TRS(): no translation or rotation, unit scale, no animation. */
  const DefaultTRS := TRS(Vec3(0.0, 0.0, 0.0), NONE, [], [], Vec4(0.0, 0.0, 0.0, 0.0), NONE, [], [],
                          Vec3(1.0, 1.0, 1.0), NONE, [], [])

  predicate HasTranslation(t: TRS) { t.translation != Vec3(0.0, 0.0, 0.0) }
  predicate HasRotation(t: TRS) { t.rotation != Vec4(0.0, 0.0, 0.0, 0.0) }
  predicate HasScale(t: TRS) { t.scale != Vec3(1.0, 1.0, 1.0) }

  /** An animation runs only with an interpolation mode and at least one keyframe. */
  predicate Animated(mode: Interpolation, timeSteps: seq<real>)
  {
    mode != NONE && timeSteps != []
  }

  predicate HasTranslationAnimation(t: TRS) { Animated(t.translationInterpolation, t.translationTimeSteps) }
  predicate HasRotationAnimation(t: TRS) { Animated(t.rotationInterpolation, t.rotationTimeSteps) }
  predicate HasScaleAnimation(t: TRS) { Animated(t.scaleInterpolation, t.scaleTimeSteps) }

  predicate HasAnimation(t: TRS)
  {
    HasTranslationAnimation(t) || HasRotationAnimation(t) || HasScaleAnimation(t)
  }

  /** Node::hasLocalTransform: a static component or an animation. */
  predicate HasLocalTransform(t: TRS)
  {
    HasTranslation(t) || HasRotation(t) || HasScale(t) || HasAnimation(t)
  }

  /** A fresh TRS is the identity transform: nothing static, nothing animated. */
  lemma DefaultHasNoLocalTransform()
    ensures !HasLocalTransform(DefaultTRS)
  {
  }

  /**
   * setTranslationAnimation: the node gains a translation animation exactly when the mode is
   * not NONE and the time steps are non-empty; the static components are untouched.
   */
  function SetTranslationAnimation(t: TRS, mode: Interpolation, timeSteps: seq<real>, steps: seq<Vec3>): (r: TRS)
    ensures HasTranslationAnimation(r) <==> mode != NONE && |timeSteps| > 0
    ensures HasAnimation(r) <==> (mode != NONE && |timeSteps| > 0) || HasRotationAnimation(t) || HasScaleAnimation(t)
    ensures r.translationInterpolation == mode && r.translationTimeSteps == timeSteps && r.translationSteps == steps
    ensures r.rotationInterpolation == t.rotationInterpolation && r.rotationTimeSteps == t.rotationTimeSteps && r.rotationSteps == t.rotationSteps
    ensures r.scaleInterpolation == t.scaleInterpolation && r.scaleTimeSteps == t.scaleTimeSteps && r.scaleSteps == t.scaleSteps
    ensures r.translation == t.translation && r.rotation == t.rotation && r.scale == t.scale
  {
    t.(translationInterpolation := mode, translationTimeSteps := timeSteps, translationSteps := steps)
  }

  function SetRotationAnimation(t: TRS, mode: Interpolation, timeSteps: seq<real>, steps: seq<Vec4>): (r: TRS)
    ensures HasRotationAnimation(r) <==> mode != NONE && |timeSteps| > 0
    ensures HasAnimation(r) <==> (mode != NONE && |timeSteps| > 0) || HasTranslationAnimation(t) || HasScaleAnimation(t)
    ensures r.rotationInterpolation == mode && r.rotationTimeSteps == timeSteps && r.rotationSteps == steps
    ensures r.translationInterpolation == t.translationInterpolation && r.translationTimeSteps == t.translationTimeSteps && r.translationSteps == t.translationSteps
    ensures r.scaleInterpolation == t.scaleInterpolation && r.scaleTimeSteps == t.scaleTimeSteps && r.scaleSteps == t.scaleSteps
    ensures r.translation == t.translation && r.rotation == t.rotation && r.scale == t.scale
  {
    t.(rotationInterpolation := mode, rotationTimeSteps := timeSteps, rotationSteps := steps)
  }

  function SetScaleAnimation(t: TRS, mode: Interpolation, timeSteps: seq<real>, steps: seq<Vec3>): (r: TRS)
    ensures HasScaleAnimation(r) <==> mode != NONE && |timeSteps| > 0
    ensures HasAnimation(r) <==> (mode != NONE && |timeSteps| > 0) || HasTranslationAnimation(t) || HasRotationAnimation(t)
    ensures r.scaleInterpolation == mode && r.scaleTimeSteps == timeSteps && r.scaleSteps == steps
    ensures r.translationInterpolation == t.translationInterpolation && r.translationTimeSteps == t.translationTimeSteps && r.translationSteps == t.translationSteps
    ensures r.rotationInterpolation == t.rotationInterpolation && r.rotationTimeSteps == t.rotationTimeSteps && r.rotationSteps == t.rotationSteps
    ensures r.translation == t.translation && r.rotation == t.rotation && r.scale == t.scale
  {
    t.(scaleInterpolation := mode, scaleTimeSteps := timeSteps, scaleSteps := steps)
  }

  // ---------------------------------------------------------------------------------------
  // Keyframe search (the loops at the head of computeTranslation/Rotation/Scale)

  /** The index of the first time step after t, or the length when there is none. */
  function FirstAfter(ts: seq<real>, t: real): (k: nat)
    ensures k <= |ts|
    ensures forall j :: 0 <= j < k ==> ts[j] <= t
    ensures k < |ts| ==> ts[k] > t
  {
    if ts == [] then 0 else if ts[0] > t then 0 else 1 + FirstAfter(ts[1..], t)
  }

  predicate Sorted(ts: seq<real>)
  {
    forall i, j :: 0 <= i <= j < |ts| ==> ts[i] <= ts[j]
  }

  /**
   * The LINEAR (and CUBIC_SPLINE) search: previous is the last index before the first step
   * after t (0 if that is the first one), next is that first step after t, or the last index
   * when none is; next starts at size()-1, which wraps round for an empty list.
   */
  method LinearSearch(ts: seq<real>, t: real) returns (previous: nat, next: nat)
    ensures var k := FirstAfter(ts, t);
            previous == (if k == 0 then 0 else k - 1)
            && next == (if k < |ts| then k else if ts == [] then SIZE_MAX else |ts| - 1)
    ensures previous <= next
    ensures ts != [] ==> next < |ts|
  {
    previous := 0;
    next := if ts == [] then SIZE_MAX else |ts| - 1;
    var i := 0;
    while i < |ts|
      invariant 0 <= i <= FirstAfter(ts, t)
      invariant previous == (if i == 0 then 0 else i - 1)
      invariant next == (if ts == [] then SIZE_MAX else |ts| - 1)
    {
      if ts[i] <= t {
        previous := i;
      } else if ts[i] >= t {
        next := i;
        FirstAfterIsFirst(ts, t, i);
        return;
      }
      i := i + 1;
    }
  }

  /** The STEP search: the same previous index, with no next. */
  method StepSearch(ts: seq<real>, t: real) returns (previous: nat)
    ensures var k := FirstAfter(ts, t); previous == (if k == 0 then 0 else k - 1)
    ensures ts != [] ==> previous < |ts|
  {
    previous := 0;
    var i := 0;
    while i < |ts|
      invariant 0 <= i <= FirstAfter(ts, t)
      invariant previous == (if i == 0 then 0 else i - 1)
    {
      if ts[i] <= t {
        previous := i;
      } else if ts[i] >= t {
        FirstAfterIsFirst(ts, t, i);
        return;
      }
      i := i + 1;
    }
  }

  /** An index up to which every step is at most t, and whose step is after t, is FirstAfter. */
  lemma {:induction false} FirstAfterIsFirst(ts: seq<real>, t: real, i: nat)
    requires i < |ts| && ts[i] > t
    requires forall j :: 0 <= j < i ==> ts[j] <= t
    ensures FirstAfter(ts, t) == i
  {
    if i > 0 {
      FirstAfterIsFirst(ts[1..], t, i - 1);
    }
  }

  /**
   * On sorted time steps the STEP search finds the last keyframe at or before t (or 0 when
   * every keyframe is after t), and the LINEAR search brackets t between previous and next
   * when t lies inside the keyframe range.
   */
  lemma SortedSearch(ts: seq<real>, t: real)
    requires Sorted(ts) && ts != []
    ensures var k := FirstAfter(ts, t); var p := if k == 0 then 0 else k - 1;
            (ts[0] <= t ==> ts[p] <= t && forall j :: p < j < |ts| ==> ts[j] > t)
            && (ts[0] <= t && k < |ts| ==> ts[p] <= t < ts[k])
  {
  }

  // ---------------------------------------------------------------------------------------
  // The node tree

  class Node {
    var name: string
    var trs: TRS
    var children: seq<Node>
    /** The attached model, camera and light (shared pointers, by identity). */
    var model: Option<nat>
    var camera: Option<nat>
    var light: Option<nat>
    ghost var Repr: set<object>

    /** The nodes reachable from this one form a tree: each child owns a part of Repr without this. */
    ghost predicate Valid()
      reads this, Repr
      decreases Repr
    {
      this in Repr
      && forall i :: 0 <= i < |children| ==>
           children[i] in Repr && children[i].Repr <= Repr && this !in children[i].Repr && children[i].Valid()
    }

    constructor (aName: string)
      ensures Valid() && fresh(Repr)
      ensures name == aName && trs == DefaultTRS && children == []
      ensures model == None && camera == None && light == None
    {
      name, trs, children := aName, DefaultTRS, [];
      model, camera, light := None, None, None;
      Repr := {this};
    }

    /** The nodes in pre-order: this node, then each child's subtree in turn. */
    ghost function PreOrder(): (r: seq<Node>)
      requires Valid()
      reads Repr
      ensures |r| > 0 && r[0] == this
      ensures forall j :: 0 <= j < |r| ==> r[j] in Repr
      decreases Repr, |children| + 1
    {
      [this] + ChildrenFrom(0)
    }

    /** The pre-orders of children i, i+1, ... one after the other. */
    ghost function ChildrenFrom(i: nat): (r: seq<Node>)
      requires Valid() && i <= |children|
      reads Repr
      ensures forall j :: 0 <= j < |r| ==> r[j] in Repr && r[j] != this
      decreases Repr, |children| - i
    {
      if i == |children| then [] else children[i].PreOrder() + ChildrenFrom(i + 1)
    }

    /** addChildNode: append one new, empty child and hand it back. */
    method AddChildNode(aName: string) returns (c: Node)
      requires Valid()
      modifies this
      ensures Valid() && fresh(c) && fresh(Repr - old(Repr))
      ensures children == old(children) + [c] && c.name == aName && c.children == []
      ensures name == old(name) && trs == old(trs) && model == old(model) && camera == old(camera) && light == old(light)
    {
      c := new Node(aName);
      children := children + [c];
      Repr := Repr + c.Repr;
    }

    /**
     * visit: apply the callback to this node, then visit each child in order. The callback's
     * own effects are not part of this model; the result is the order of the calls.
     */
    method Visit() returns (order: seq<Node>)
      requires Valid()
      ensures order == PreOrder()
      decreases Repr
    {
      order := [this];
      var i := 0;
      while i < |children|
        invariant 0 <= i <= |children|
        invariant order + ChildrenFrom(i) == PreOrder()
      {
        var sub := children[i].Visit();
        assert ChildrenFrom(i) == sub + ChildrenFrom(i + 1);
        order := order + sub;
        i := i + 1;
      }
    }

    /** Node::hasLocalTransform. */
    predicate LocalTransform()
      reads this
    {
      HasLocalTransform(trs)
    }

    /** setTranslationAnimation on the node's TRS. */
    method SetTranslationAnimationOf(mode: Interpolation, timeSteps: seq<real>, steps: seq<Vec3>)
      modifies `trs
      ensures trs == SetTranslationAnimation(old(trs), mode, timeSteps, steps)
    {
      trs := SetTranslationAnimation(trs, mode, timeSteps, steps);
    }
  }
}
