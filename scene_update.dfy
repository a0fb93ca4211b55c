/** The scene's update-request flags (one per kind of GPU-side data) and their combinators. */
module SceneUpdate {

  /** The kinds of scene data a renderer may have to upload again. */
  datatype Part = Images | Textures | Materials | ModelInstances | ModelGeometries | Lights | Camera

  datatype UpdateInfo = UpdateInfo(
    images: bool,
    textures: bool,
    materials: bool,
    modelInstances: bool,
    modelGeometries: bool,
    lights: bool,
    camera: bool)
  {
    /** any(): some flag is set. */
    predicate Any()
    {
      images || textures || materials || modelInstances || modelGeometries || lights || camera
    }

    /** all(): every flag is set. */
    predicate All()
    {
      images && textures && materials && modelInstances && modelGeometries && lights && camera
    }

    /** Reference view: whether the update of one part is requested. */
    predicate Has(p: Part)
    {
      match p
      case Images => images
      case Textures => textures
      case Materials => materials
      case ModelInstances => modelInstances
      case ModelGeometries => modelGeometries
      case Lights => lights
      case Camera => camera
    }
  }

  /** The value-initialised info `{}`: nothing requested. */
  function Nothing(): (u: UpdateInfo)
    ensures forall p :: !u.Has(p)
  {
    UpdateInfo(false, false, false, false, false, false, false)
  }

  /** operator|: a part is requested by a | b iff a or b requests it. */
  function Or(a: UpdateInfo, b: UpdateInfo): (r: UpdateInfo)
    ensures forall p :: r.Has(p) <==> a.Has(p) || b.Has(p)
  {
    var r := UpdateInfo(a.images || b.images, a.textures || b.textures, a.materials || b.materials,
      a.modelInstances || b.modelInstances, a.modelGeometries || b.modelGeometries,
      a.lights || b.lights, a.camera || b.camera);
    OrByPart(a, b, r);
    r
  }

  /** operator&: a part is requested by a & b iff both request it. */
  function And(a: UpdateInfo, b: UpdateInfo): (r: UpdateInfo)
    ensures forall p :: r.Has(p) <==> a.Has(p) && b.Has(p)
  {
    var r := UpdateInfo(a.images && b.images, a.textures && b.textures, a.materials && b.materials,
      a.modelInstances && b.modelInstances, a.modelGeometries && b.modelGeometries,
      a.lights && b.lights, a.camera && b.camera);
    AndByPart(a, b, r);
    r
  }

  /** When each flag of r is the or of the flags of a and b, each part is requested by r iff by a or b. */
  lemma OrByPart(a: UpdateInfo, b: UpdateInfo, r: UpdateInfo)
    requires r.images == (a.images || b.images) && r.textures == (a.textures || b.textures)
    requires r.materials == (a.materials || b.materials) && r.modelInstances == (a.modelInstances || b.modelInstances)
    requires r.modelGeometries == (a.modelGeometries || b.modelGeometries) && r.lights == (a.lights || b.lights)
    requires r.camera == (a.camera || b.camera)
    ensures forall p :: r.Has(p) <==> a.Has(p) || b.Has(p)
  {
    forall p
      ensures r.Has(p) <==> a.Has(p) || b.Has(p)
    {
      match p
      case Images =>
      case Textures =>
      case Materials =>
      case ModelInstances =>
      case ModelGeometries =>
      case Lights =>
      case Camera =>
    }
  }

  /** When each flag of r is the and of the flags of a and b, each part is requested by r iff by both. */
  lemma AndByPart(a: UpdateInfo, b: UpdateInfo, r: UpdateInfo)
    requires r.images == (a.images && b.images) && r.textures == (a.textures && b.textures)
    requires r.materials == (a.materials && b.materials) && r.modelInstances == (a.modelInstances && b.modelInstances)
    requires r.modelGeometries == (a.modelGeometries && b.modelGeometries) && r.lights == (a.lights && b.lights)
    requires r.camera == (a.camera && b.camera)
    ensures forall p :: r.Has(p) <==> a.Has(p) && b.Has(p)
  {
    forall p
      ensures r.Has(p) <==> a.Has(p) && b.Has(p)
    {
      match p
      case Images =>
      case Textures =>
      case Materials =>
      case ModelInstances =>
      case ModelGeometries =>
      case Lights =>
      case Camera =>
    }
  }

  /** any() is "some part requested", all() is "every part requested". */
  lemma AnyAllByPart(u: UpdateInfo)
    ensures u.Any() <==> exists p :: u.Has(p)
    ensures u.All() <==> forall p :: u.Has(p)
  {
    if u.Any() {
      var p :| p in [Images, Textures, Materials, ModelInstances, ModelGeometries, Lights, Camera] && u.Has(p);
    }
    if forall p :: u.Has(p) {
      assert u.Has(Images) && u.Has(Textures) && u.Has(Materials) && u.Has(ModelInstances);
      assert u.Has(ModelGeometries) && u.Has(Lights) && u.Has(Camera);
    }
  }

  /** Two infos that request the same parts are equal. */
  lemma {:induction false} SamePartsSameInfo(a: UpdateInfo, b: UpdateInfo)
    requires forall p :: a.Has(p) == b.Has(p)
    ensures a == b
  {
    assert a.Has(Images) == b.Has(Images) && a.Has(Textures) == b.Has(Textures);
    assert a.Has(Materials) == b.Has(Materials) && a.Has(ModelInstances) == b.Has(ModelInstances);
    assert a.Has(ModelGeometries) == b.Has(ModelGeometries) && a.Has(Lights) == b.Has(Lights);
    assert a.Has(Camera) == b.Has(Camera);
  }

  /** (a|b).any() is a.any() || b.any(), and (a&b).any() needs both. */
  lemma OrAndAny(a: UpdateInfo, b: UpdateInfo)
    ensures Or(a, b).Any() <==> a.Any() || b.Any()
    ensures And(a, b).Any() ==> a.Any() && b.Any()
    ensures And(a, b).All() <==> a.All() && b.All()
  {
    AnyAllByPart(a);
    AnyAllByPart(b);
    AnyAllByPart(Or(a, b));
    AnyAllByPart(And(a, b));
  }

  /** `{}` is the identity of | and & is idempotent. */
  lemma IdentityIdempotence(a: UpdateInfo)
    ensures Or(a, Nothing()) == a && And(a, a) == a
  {
    SamePartsSameInfo(Or(a, Nothing()), a);
    SamePartsSameInfo(And(a, a), a);
  }

  /** Both operators commute. */
  lemma Commutative(a: UpdateInfo, b: UpdateInfo)
    ensures Or(a, b) == Or(b, a) && And(a, b) == And(b, a)
  {
    SamePartsSameInfo(Or(a, b), Or(b, a));
    SamePartsSameInfo(And(a, b), And(b, a));
  }

  /** all() implies any(). */
  lemma AllImpliesAny(a: UpdateInfo)
    ensures a.All() ==> a.Any()
  {}
}
