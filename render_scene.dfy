/**
 * The bookkeeping of RenderScene (scene/render_scene.cpp) for model and light references:
 * adding a reference, removing one (with the renumbering of the remaining references and the
 * release of an asset that no reference uses any more), the material list without
 * duplicates, and the update-request flags.
 *
 * References and assets are objects compared by identity, as the source compares its
 * shared pointers; a material pointer is a natural-number handle.
 */
module SceneRefs {
  import opened SceneUpdate

  // ---------------------------------------------------------------------------------------
  // Sequences as the source's deques use them

  predicate Distinct<T(==)>(s: seq<T>)
  {
    forall i, j :: 0 <= i < j < |s| ==> s[i] != s[j]
  }

  /** std::find: the position of the first x in s, or -1 (end()) when there is none. */
  function Find<T(==)>(s: seq<T>, x: T): (i: int)
    ensures -1 <= i < |s|
    ensures i == -1 <==> x !in s
    ensures i >= 0 ==> s[i] == x && x !in s[..i]
  {
    if s == [] then -1
    else if s[0] == x then 0
    else
      var j := Find(s[1..], x);
      if j == -1 then -1
      else
        assert s[..j + 1] == [s[0]] + s[1..][..j];
        j + 1
  }

  /** erase(find(x)): s without its first x; s itself when x does not occur. */
  function EraseFirst<T(==)>(s: seq<T>, x: T): (r: seq<T>)
  {
    var i := Find(s, x);
    if i == -1 then s else s[..i] + s[i + 1..]
  }

  /** Erasing keeps every other element in order, and of a distinct sequence removes x entirely. */
  lemma EraseFirstSpec<T>(s: seq<T>, x: T)
    requires Distinct(s)
    ensures x in s ==> |EraseFirst(s, x)| == |s| - 1
    ensures x !in s ==> EraseFirst(s, x) == s
    ensures Distinct(EraseFirst(s, x))
    ensures forall y :: y in EraseFirst(s, x) <==> y in s && y != x
  {
    var i := Find(s, x);
    if i != -1 {
      RemoveIndex(s, i);
    }
  }

  /** Removing the element at position i of a distinct sequence. */
  lemma RemoveIndex<T>(s: seq<T>, i: nat)
    requires Distinct(s) && i < |s|
    ensures |s[..i] + s[i + 1..]| == |s| - 1
    ensures Distinct(s[..i] + s[i + 1..])
    ensures forall y :: y in s[..i] + s[i + 1..] <==> y in s && y != s[i]
  {
    var r := s[..i] + s[i + 1..];
    RemovedIndexing(s, i, r);
    forall y | y in s && y != s[i]
      ensures y in r
    {
      var k :| 0 <= k < |s| && s[k] == y;
      if k < i { assert r[k] == y; } else { assert r[k - 1] == y; }
    }
  }

  lemma RemovedIndexing<T>(s: seq<T>, i: nat, r: seq<T>)
    requires i < |s| && r == s[..i] + s[i + 1..]
    ensures |r| == |s| - 1
    ensures forall k :: 0 <= k < |r| ==> r[k] == if k < i then s[k] else s[k + 1]
  {
  }

  // ---------------------------------------------------------------------------------------
  // Entities

  /** What the scene reads of a mesh of a model: its material handle and whether that material emits light. */
  datatype MeshInfo = MeshInfo(material: nat, materialIsLight: bool)

  /** A model asset: its meshes. */
  class ModelAsset {
    const meshes: seq<MeshInfo>
    constructor (meshes: seq<MeshInfo>)
      ensures this.meshes == meshes
    {
      this.meshes := meshes;
    }
  }

  /** A light asset: whether it is an IES light, which brings a candela texture. */
  class LightAsset {
    const isIes: bool
    constructor (isIes: bool)
      ensures this.isIes == isIes
    {
      this.isIes := isIes;
    }
  }

  /** RefModel: an instance of a model in the scene, with its position in the scene's list. */
  class RefModel {
    const model: ModelAsset
    var refModelIndex: int
    constructor (model: ModelAsset, index: int)
      ensures this.model == model && refModelIndex == index
    {
      this.model := model;
      refModelIndex := index;
    }
  }

  /** RefLight: an instance of a light in the scene, with its position in the scene's list. */
  class RefLight {
    const light: LightAsset
    var refLightIndex: int
    constructor (light: LightAsset, index: int)
      ensures this.light == light && refLightIndex == index
    {
      this.light := light;
      refLightIndex := index;
    }
  }

  /** The number of references among the first n of refs that instance model m. */
  function ModelUses(refs: seq<RefModel>, m: ModelAsset, n: nat): nat
    requires n <= |refs|
  {
    if n == 0 then 0 else ModelUses(refs, m, n - 1) + (if refs[n - 1].model == m then 1 else 0)
  }

  /** The count is zero exactly when no reference instances the model. */
  lemma {:induction false} ModelUsesZero(refs: seq<RefModel>, m: ModelAsset, n: nat)
    requires n <= |refs|
    ensures ModelUses(refs, m, n) == 0 <==> forall i :: 0 <= i < n ==> refs[i].model != m
  {
    if n > 0 {
      ModelUsesZero(refs, m, n - 1);
    }
  }

  /** The number of references among the first n of refs that instance light l. */
  function LightUses(refs: seq<RefLight>, l: LightAsset, n: nat): nat
    requires n <= |refs|
  {
    if n == 0 then 0 else LightUses(refs, l, n - 1) + (if refs[n - 1].light == l then 1 else 0)
  }

  /** The count is zero exactly when no reference instances the light. */
  lemma {:induction false} LightUsesZero(refs: seq<RefLight>, l: LightAsset, n: nat)
    requires n <= |refs|
    ensures LightUses(refs, l, n) == 0 <==> forall i :: 0 <= i < n ==> refs[i].light != l
  {
    if n > 0 {
      LightUsesZero(refs, l, n - 1);
    }
  }

  /** Some mesh of the model has a light-emitting material. */
  predicate HasLightMesh(m: ModelAsset)
  {
    exists k :: 0 <= k < |m.meshes| && m.meshes[k].materialIsLight
  }

  /** The material list after addMaterial for each handle of ms in turn. */
  function WithMaterials(materials: seq<nat>, ms: seq<nat>): (r: seq<nat>)
    ensures |r| >= |materials|
    decreases |ms|
  {
    if ms == [] then materials
    else
      var prev := WithMaterials(materials, ms[..|ms| - 1]);
      var m := ms[|ms| - 1];
      if m in prev then prev else prev + [m]
  }

  /**
   * Adding materials keeps the list free of duplicates, keeps what was there in front, and
   * leaves it holding exactly the old handles and the added ones.
   */
  lemma {:induction false} WithMaterialsSpec(materials: seq<nat>, ms: seq<nat>)
    requires Distinct(materials)
    ensures var r := WithMaterials(materials, ms);
            Distinct(r) && r[..|materials|] == materials
            && forall x :: x in r <==> x in materials || x in ms
    decreases |ms|
  {
    if ms != [] {
      var init := ms[..|ms| - 1];
      WithMaterialsSpec(materials, init);
      assert forall x :: x in ms <==> x in init || x == ms[|ms| - 1];
      var prev := WithMaterials(materials, init);
      assert (prev + [ms[|ms| - 1]])[..|materials|] == prev[..|materials|];
    }
  }

  function MeshMaterials(meshes: seq<MeshInfo>): (r: seq<nat>)
    ensures |r| == |meshes| && forall k :: 0 <= k < |meshes| ==> r[k] == meshes[k].material
  {
    seq(|meshes|, k requires 0 <= k < |meshes| => meshes[k].material)
  }

  /** The renumbering loops of removeModel: every reference's index becomes its position. */
  method ReindexModels(refs: seq<RefModel>)
    requires Distinct(refs)
    modifies refs
    ensures forall i :: 0 <= i < |refs| ==> refs[i].refModelIndex == i
  {
    for i := 0 to |refs|
      invariant forall j :: 0 <= j < i ==> refs[j].refModelIndex == j
    {
      refs[i].refModelIndex := i;
    }
  }

  /** The renumbering loop of removeLight. */
  method ReindexLights(refs: seq<RefLight>)
    requires Distinct(refs)
    modifies refs
    ensures forall i :: 0 <= i < |refs| ==> refs[i].refLightIndex == i
  {
    for i := 0 to |refs|
      invariant forall j :: 0 <= j < i ==> refs[j].refLightIndex == j
    {
      refs[i].refLightIndex := i;
    }
  }

  /** The counting loop of removeModel: how many references instance the model. */
  method CountModelUses(refs: seq<RefModel>, m: ModelAsset) returns (count: nat)
    ensures count == ModelUses(refs, m, |refs|)
  {
    count := 0;
    for i := 0 to |refs|
      invariant count == ModelUses(refs, m, i)
    {
      if m == refs[i].model {
        count := count + 1;
      }
    }
  }

  /** The counting loop of removeLight. */
  method CountLightUses(refs: seq<RefLight>, l: LightAsset) returns (count: nat)
    ensures count == LightUses(refs, l, |refs|)
  {
    count := 0;
    for i := 0 to |refs|
      invariant count == LightUses(refs, l, i)
    {
      if l == refs[i].light {
        count := count + 1;
      }
    }
  }

  /** RenderScene: the lists of references and assets, the selection and the pending updates. */
  class RenderScene {
    var refModels: seq<RefModel>
    var refLights: seq<RefLight>
    var models: seq<ModelAsset>
    var lights: seq<LightAsset>
    var materials: seq<nat>
    var selection: object?
    var newlyAddedRefs: seq<object>
    var newlyRemovedRefs: seq<object>
    var newlyRemovedAssets: seq<object>
    var updateRequests: UpdateInfo

    constructor ()
      ensures refModels == [] && refLights == [] && models == [] && lights == [] && materials == []
      ensures selection == null && newlyAddedRefs == [] && newlyRemovedRefs == [] && newlyRemovedAssets == []
      ensures updateRequests == Nothing()
    {
      refModels, refLights, models, lights, materials := [], [], [], [], [];
      selection := null;
      newlyAddedRefs, newlyRemovedRefs, newlyRemovedAssets := [], [], [];
      updateRequests := Nothing();
    }

    /** addMaterial: the handle is appended unless the list already holds it. */
    method AddMaterial(material: nat)
      modifies `materials
      ensures materials == WithMaterials(old(materials), [material])
      ensures material in materials
    {
      assert [material][..0] == [];
      if Find(materials, material) == -1 {
        materials := materials + [material];
      }
    }

    /**
     * addModelRef: the model is appended, a new reference numbered after the existing ones is
     * appended and selected, each mesh's material is added, and materials, geometry and
     * instances are marked for update.
     */
    method AddModelRef(model: ModelAsset) returns (ref: RefModel)
      modifies this
      ensures fresh(ref) && ref.model == model && ref.refModelIndex == |old(refModels)|
      ensures refModels == old(refModels) + [ref] && models == old(models) + [model]
      ensures materials == WithMaterials(old(materials), MeshMaterials(model.meshes))
      ensures selection == ref && newlyAddedRefs == old(newlyAddedRefs) + [ref]
      ensures updateRequests == old(updateRequests).(materials := true, modelGeometries := true, modelInstances := true)
      ensures refLights == old(refLights) && lights == old(lights)
      ensures newlyRemovedRefs == old(newlyRemovedRefs) && newlyRemovedAssets == old(newlyRemovedAssets)
    {
      models := models + [model];
      ref := new RefModel(model, |refModels|);
      AddMeshMaterials(model.meshes);
      refModels := refModels + [ref];
      selection := ref;
      newlyAddedRefs := newlyAddedRefs + [ref];
      RequestMaterialUpdate();
      RequestModelGeometryUpdate();
      RequestModelInstanceUpdate();
    }

    /** addModelRef's loop: addMaterial for the material of each mesh, in order. */
    method AddMeshMaterials(meshes: seq<MeshInfo>)
      modifies `materials
      ensures materials == WithMaterials(old(materials), MeshMaterials(meshes))
    {
      ghost var ms := MeshMaterials(meshes);
      for k := 0 to |meshes|
        invariant materials == WithMaterials(old(materials), ms[..k])
      {
        assert ms[..k + 1][..k] == ms[..k];
        AddMaterial(meshes[k].material);
      }
      assert ms[..|meshes|] == ms;
    }

    /**
     * addLightRef: the light is appended, a new reference numbered after the existing ones is
     * appended and selected, and lights are marked for update; an IES light also marks images
     * and textures, for its candela texture.
     */
    method AddLightRef(light: LightAsset) returns (ref: RefLight)
      modifies this
      ensures fresh(ref) && ref.light == light && ref.refLightIndex == |old(refLights)|
      ensures refLights == old(refLights) + [ref] && lights == old(lights) + [light]
      ensures selection == ref && newlyAddedRefs == old(newlyAddedRefs) + [ref]
      ensures updateRequests == if light.isIes
                                then old(updateRequests).(lights := true, images := true, textures := true)
                                else old(updateRequests).(lights := true)
      ensures refModels == old(refModels) && models == old(models) && materials == old(materials)
      ensures newlyRemovedRefs == old(newlyRemovedRefs) && newlyRemovedAssets == old(newlyRemovedAssets)
    {
      lights := lights + [light];
      ref := new RefLight(light, |refLights|);
      refLights := refLights + [ref];
      selection := ref;
      newlyAddedRefs := newlyAddedRefs + [ref];
      RequestLightUpdate();
      if light.isIes {
        RequestImageUpdate();
        RequestTextureUpdate();
      }
    }

    /**
     * removeModel: nothing happens for a reference that is not in the scene. Otherwise it is
     * erased and recorded as removed, the remaining references are renumbered 0 .. n-1, the
     * model asset is erased and recorded only when no remaining reference instances it,
     * instances and geometry are marked for update, and lights too when a mesh of the model
     * emits light.
     */
    method RemoveModel(ref: RefModel)
      requires Distinct(refModels)
      modifies this, refModels
      ensures ref !in old(refModels) ==>
                refModels == old(refModels) && models == old(models) && updateRequests == old(updateRequests)
                && newlyRemovedRefs == old(newlyRemovedRefs) && newlyRemovedAssets == old(newlyRemovedAssets)
                && forall r :: r in refModels ==> r.refModelIndex == old(r.refModelIndex)
      ensures ref in old(refModels) ==>
                refModels == EraseFirst(old(refModels), ref) && ref !in refModels
                && newlyRemovedRefs == old(newlyRemovedRefs) + [ref]
                && (forall i :: 0 <= i < |refModels| ==> refModels[i].refModelIndex == i)
                && updateRequests == old(updateRequests).(modelInstances := true, modelGeometries := true,
                                                          lights := old(updateRequests).lights || HasLightMesh(ref.model))
      ensures ref in old(refModels) && (exists i :: 0 <= i < |refModels| && refModels[i].model == ref.model) ==>
                models == old(models) && newlyRemovedAssets == old(newlyRemovedAssets)
      ensures ref in old(refModels) && (forall i :: 0 <= i < |refModels| ==> refModels[i].model != ref.model) ==>
                models == EraseFirst(old(models), ref.model)
                && newlyRemovedAssets == old(newlyRemovedAssets) + (if ref.model in old(models) then [ref.model] else [])
      ensures Distinct(refModels)
      ensures refLights == old(refLights) && lights == old(lights) && materials == old(materials)
      ensures selection == old(selection) && newlyAddedRefs == old(newlyAddedRefs)
    {
      if Find(refModels, ref) == -1 {
        return;
      }
      RemoveModelInScene(ref);
    }

    /** removeModel for a reference in the scene. */
    method RemoveModelInScene(ref: RefModel)
      requires Distinct(refModels) && ref in refModels
      modifies this, refModels
      ensures refModels == EraseFirst(old(refModels), ref) && ref !in refModels && Distinct(refModels)
      ensures newlyRemovedRefs == old(newlyRemovedRefs) + [ref]
      ensures forall i :: 0 <= i < |refModels| ==> refModels[i].refModelIndex == i
      ensures updateRequests == old(updateRequests).(modelInstances := true, modelGeometries := true,
                                                     lights := old(updateRequests).lights || HasLightMesh(ref.model))
      ensures (exists i :: 0 <= i < |refModels| && refModels[i].model == ref.model) ==>
                models == old(models) && newlyRemovedAssets == old(newlyRemovedAssets)
      ensures (forall i :: 0 <= i < |refModels| ==> refModels[i].model != ref.model) ==>
                models == EraseFirst(old(models), ref.model)
                && newlyRemovedAssets == old(newlyRemovedAssets) + (if ref.model in old(models) then [ref.model] else [])
      ensures refLights == old(refLights) && lights == old(lights) && materials == old(materials)
      ensures selection == old(selection) && newlyAddedRefs == old(newlyAddedRefs)
    {
      EraseModelRef(ref);
      ghost var remaining := refModels;
      assert forall i :: 0 <= i < |remaining| ==> remaining[i].refModelIndex == i;
      ReleaseModel(ref.model);
      MarkModelRemoved(ref.model);
      assert refModels == remaining;
    }

    /** The first steps of removeModel for a reference in the scene: erase, record, renumber. */
    method EraseModelRef(ref: RefModel)
      requires Distinct(refModels) && ref in refModels
      modifies `refModels, `newlyRemovedRefs, refModels
      ensures refModels == EraseFirst(old(refModels), ref) && ref !in refModels && Distinct(refModels)
      ensures newlyRemovedRefs == old(newlyRemovedRefs) + [ref]
      ensures forall i :: 0 <= i < |refModels| ==> refModels[i].refModelIndex == i
    {
      EraseFirstSpec(refModels, ref);
      refModels := EraseFirst(refModels, ref);
      newlyRemovedRefs := newlyRemovedRefs + [ref];
      ReindexModels(refModels);
    }

    /** removeModel's release of the asset: erased and recorded only when no reference instances it any more. */
    method ReleaseModel(model: ModelAsset)
      modifies `models, `newlyRemovedAssets
      ensures (exists i :: 0 <= i < |refModels| && refModels[i].model == model) ==>
                models == old(models) && newlyRemovedAssets == old(newlyRemovedAssets)
      ensures (forall i :: 0 <= i < |refModels| ==> refModels[i].model != model) ==>
                models == EraseFirst(old(models), model)
                && newlyRemovedAssets == old(newlyRemovedAssets) + (if model in old(models) then [model] else [])
    {
      var count := CountModelUses(refModels, model);
      ModelUsesZero(refModels, model, |refModels|);
      if count == 0 {
        if Find(models, model) != -1 {
          newlyRemovedAssets := newlyRemovedAssets + [model];
          models := EraseFirst(models, model);
        }
      }
    }

    /** removeModel's update requests: instances and geometry, and lights when a mesh of the model emits light. */
    method MarkModelRemoved(model: ModelAsset)
      modifies `updateRequests
      ensures updateRequests == old(updateRequests).(modelInstances := true, modelGeometries := true,
                                                     lights := old(updateRequests).lights || HasLightMesh(model))
    {
      updateRequests := updateRequests.(modelInstances := true, modelGeometries := true);
      var anyLight := false;
      for k := 0 to |model.meshes|
        invariant anyLight <==> exists j :: 0 <= j < k && model.meshes[j].materialIsLight
        invariant updateRequests == old(updateRequests).(modelInstances := true, modelGeometries := true)
      {
        anyLight := anyLight || model.meshes[k].materialIsLight;
      }
      updateRequests := updateRequests.(lights := updateRequests.lights || anyLight);
    }

    /**
     * removeLight: nothing happens for a reference that is not in the scene. Otherwise it is
     * erased and recorded as removed, the remaining references are renumbered 0 .. n-1, the
     * light asset is erased and recorded only when no remaining reference instances it, and
     * lights are marked for update.
     */
    method RemoveLight(ref: RefLight)
      requires Distinct(refLights)
      modifies this, refLights
      ensures ref !in old(refLights) ==>
                refLights == old(refLights) && lights == old(lights) && updateRequests == old(updateRequests)
                && newlyRemovedRefs == old(newlyRemovedRefs) && newlyRemovedAssets == old(newlyRemovedAssets)
                && forall r :: r in refLights ==> r.refLightIndex == old(r.refLightIndex)
      ensures ref in old(refLights) ==>
                refLights == EraseFirst(old(refLights), ref) && ref !in refLights
                && newlyRemovedRefs == old(newlyRemovedRefs) + [ref]
                && (forall i :: 0 <= i < |refLights| ==> refLights[i].refLightIndex == i)
                && updateRequests == old(updateRequests).(lights := true)
      ensures ref in old(refLights) && (exists i :: 0 <= i < |refLights| && refLights[i].light == ref.light) ==>
                lights == old(lights) && newlyRemovedAssets == old(newlyRemovedAssets)
      ensures ref in old(refLights) && (forall i :: 0 <= i < |refLights| ==> refLights[i].light != ref.light) ==>
                lights == EraseFirst(old(lights), ref.light)
                && newlyRemovedAssets == old(newlyRemovedAssets) + (if ref.light in old(lights) then [ref.light] else [])
      ensures Distinct(refLights)
      ensures refModels == old(refModels) && models == old(models) && materials == old(materials)
      ensures selection == old(selection) && newlyAddedRefs == old(newlyAddedRefs)
    {
      if Find(refLights, ref) == -1 {
        return;
      }
      RemoveLightInScene(ref);
    }

    /** removeLight for a reference in the scene. */
    method RemoveLightInScene(ref: RefLight)
      requires Distinct(refLights) && ref in refLights
      modifies this, refLights
      ensures refLights == EraseFirst(old(refLights), ref) && ref !in refLights && Distinct(refLights)
      ensures newlyRemovedRefs == old(newlyRemovedRefs) + [ref]
      ensures forall i :: 0 <= i < |refLights| ==> refLights[i].refLightIndex == i
      ensures updateRequests == old(updateRequests).(lights := true)
      ensures (exists i :: 0 <= i < |refLights| && refLights[i].light == ref.light) ==>
                lights == old(lights) && newlyRemovedAssets == old(newlyRemovedAssets)
      ensures (forall i :: 0 <= i < |refLights| ==> refLights[i].light != ref.light) ==>
                lights == EraseFirst(old(lights), ref.light)
                && newlyRemovedAssets == old(newlyRemovedAssets) + (if ref.light in old(lights) then [ref.light] else [])
      ensures refModels == old(refModels) && models == old(models) && materials == old(materials)
      ensures selection == old(selection) && newlyAddedRefs == old(newlyAddedRefs)
    {
      EraseLightRef(ref);
      ghost var remaining := refLights;
      assert forall i :: 0 <= i < |remaining| ==> remaining[i].refLightIndex == i;
      ReleaseLight(ref.light);
      RequestLightUpdate();
      assert refLights == remaining;
    }

    /** The first steps of removeLight for a reference in the scene: erase, record, renumber. */
    method EraseLightRef(ref: RefLight)
      requires Distinct(refLights) && ref in refLights
      modifies `refLights, `newlyRemovedRefs, refLights
      ensures refLights == EraseFirst(old(refLights), ref) && ref !in refLights && Distinct(refLights)
      ensures newlyRemovedRefs == old(newlyRemovedRefs) + [ref]
      ensures forall i :: 0 <= i < |refLights| ==> refLights[i].refLightIndex == i
    {
      EraseFirstSpec(refLights, ref);
      refLights := EraseFirst(refLights, ref);
      newlyRemovedRefs := newlyRemovedRefs + [ref];
      ReindexLights(refLights);
    }

    /** removeLight's release of the asset: erased and recorded only when no reference instances it any more. */
    method ReleaseLight(light: LightAsset)
      modifies `lights, `newlyRemovedAssets
      ensures (exists i :: 0 <= i < |refLights| && refLights[i].light == light) ==>
                lights == old(lights) && newlyRemovedAssets == old(newlyRemovedAssets)
      ensures (forall i :: 0 <= i < |refLights| ==> refLights[i].light != light) ==>
                lights == EraseFirst(old(lights), light)
                && newlyRemovedAssets == old(newlyRemovedAssets) + (if light in old(lights) then [light] else [])
    {
      var count := CountLightUses(refLights, light);
      LightUsesZero(refLights, light, |refLights|);
      if count == 0 {
        if Find(lights, light) != -1 {
          newlyRemovedAssets := newlyRemovedAssets + [light];
          lights := EraseFirst(lights, light);
        }
      }
    }

    method RequestImageUpdate()
      modifies `updateRequests
      ensures updateRequests == old(updateRequests).(images := true)
    {
      updateRequests := updateRequests.(images := true);
    }

    method RequestTextureUpdate()
      modifies `updateRequests
      ensures updateRequests == old(updateRequests).(textures := true)
    {
      updateRequests := updateRequests.(textures := true);
    }

    method RequestMaterialUpdate()
      modifies `updateRequests
      ensures updateRequests == old(updateRequests).(materials := true)
    {
      updateRequests := updateRequests.(materials := true);
    }

    method RequestModelInstanceUpdate()
      modifies `updateRequests
      ensures updateRequests == old(updateRequests).(modelInstances := true)
    {
      updateRequests := updateRequests.(modelInstances := true);
    }

    method RequestModelGeometryUpdate()
      modifies `updateRequests
      ensures updateRequests == old(updateRequests).(modelGeometries := true)
    {
      updateRequests := updateRequests.(modelGeometries := true);
    }

    method RequestLightUpdate()
      modifies `updateRequests
      ensures updateRequests == old(updateRequests).(lights := true)
    {
      updateRequests := updateRequests.(lights := true);
    }
  }
}
