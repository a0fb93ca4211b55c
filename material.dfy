/**
 * Materials (material.cpp): the emission test that makes a material a light, the setters,
 * and getRawData, which packs a material into the flat GPU record Material_s.
 */
module MaterialAsset {
  import opened Numeric
  import ImageAsset
  import opened Wrappers

  datatype BlendMode = OPAQUE | MASK | BLEND

  /** The texture slots getRawData reports a texture-coordinate index for, in Material_s order. */
  datatype Slot = BaseColor | Metallic | Roughness | Occlusion | Normal | Emission | Specular
                | SpecularColor | Transmission | Light | Custom

  /** The slots of Material_s that always report -1 (clearcoat, clearcoat roughness and normal, sheen colour and roughness). */
  const UNUSED_TEX_COORD_SLOTS: nat := 5
  /** The sixteen texture-index fields of Material_s. */
  const TEX_INDEX_FIELDS: nat := 16

  /** The part of Material_s this model covers. */
  datatype RawMaterial = RawMaterial(
    alphaDiscard: bool, alphaDiscardValue: real,
    texIdx: seq<int>, texCoordIdx: map<Slot, int>, unusedTexCoordIdx: seq<int>,
    emissionFactor: Vec3, emissionStrength: real,
    isEmissive: bool, isDoubleSided: bool)

  /** Material::isLight: a non-zero strength and a non-zero emission colour. */
  predicate EmitsLight(strength: real, factor: Vec3)
  {
    strength != 0.0 && factor != Vec3(0.0, 0.0, 0.0)
  }

  class Material {
    var blendMode: BlendMode
    var alphaDiscardValue: real
    var cullBackface: bool
    var emissionFactor: Vec3
    var emissionStrength: real
    /** The texture in each slot; a slot without an entry holds nullptr. */
    var textures: map<Slot, ImageAsset.Texture>

    constructor ()
      ensures blendMode == OPAQUE && alphaDiscardValue == 0.5 && !cullBackface
      ensures emissionFactor == Vec3(0.0, 0.0, 0.0) && emissionStrength == 1.0 && textures == map[]
      ensures !IsLight()
    {
      blendMode, alphaDiscardValue, cullBackface := OPAQUE, 0.5, false;
      emissionFactor, emissionStrength := Vec3(0.0, 0.0, 0.0), 1.0;
      textures := map[];
    }

    predicate IsLight()
      reads this
    {
      EmitsLight(emissionStrength, emissionFactor)
    }

    method SetCullBackface(cull: bool)
      modifies `cullBackface
      ensures cullBackface == cull
    {
      cullBackface := cull;
    }

    method SetBlendMode(mode: BlendMode)
      modifies `blendMode
      ensures blendMode == mode
    {
      blendMode := mode;
    }

    method SetEmissionStrength(strength: real)
      modifies `emissionStrength
      ensures emissionStrength == strength
      ensures IsLight() <==> strength != 0.0 && emissionFactor != Vec3(0.0, 0.0, 0.0)
    {
      emissionStrength := strength;
    }

    method SetEmissionFactor(factor: Vec3)
      modifies `emissionFactor
      ensures emissionFactor == factor
      ensures IsLight() <==> emissionStrength != 0.0 && factor != Vec3(0.0, 0.0, 0.0)
    {
      emissionFactor := factor;
    }

    /** The set*Texture setters: a null texture empties the slot. */
    method SetTexture(slot: Slot, t: Option<ImageAsset.Texture>)
      modifies `textures
      ensures textures == if t.Some? then old(textures)[slot := t.value] else old(textures) - {slot}
    {
      if t.Some? {
        textures := textures[slot := t.value];
      } else {
        textures := textures - {slot};
      }
    }

    /**
     * getRawData: alpha discarding only in MASK mode; every texture index -1 (the scene fills
     * them in later); per slot the texture's coordinate set, or -1 for an empty slot; the
     * emission test and double-sidedness as the opposite of back-face culling.
     */
    function RawData(): (r: RawMaterial)
      reads this
      ensures r.alphaDiscard <==> blendMode == MASK
      ensures r.alphaDiscardValue == alphaDiscardValue
      ensures |r.texIdx| == TEX_INDEX_FIELDS && forall i :: 0 <= i < |r.texIdx| ==> r.texIdx[i] == -1
      ensures forall s :: s in r.texCoordIdx
      ensures forall s :: s !in textures ==> r.texCoordIdx[s] == -1
      ensures forall s :: s in textures ==> r.texCoordIdx[s] == textures[s].texCoordIndex
      ensures forall s :: (s in textures && textures[s].texCoordIndex >= 0) ==> r.texCoordIdx[s] >= 0
      ensures |r.unusedTexCoordIdx| == UNUSED_TEX_COORD_SLOTS && forall i :: 0 <= i < |r.unusedTexCoordIdx| ==> r.unusedTexCoordIdx[i] == -1
      ensures r.isEmissive <==> IsLight()
      ensures r.isDoubleSided <==> !cullBackface
    {
      RawMaterial(
        blendMode == MASK, alphaDiscardValue,
        seq(TEX_INDEX_FIELDS, _ => -1),
        map s: Slot | true :: if s in textures then textures[s].texCoordIndex else -1,
        seq(UNUSED_TEX_COORD_SLOTS, _ => -1),
        emissionFactor, emissionStrength,
        EmitsLight(emissionStrength, emissionFactor), !cullBackface)
    }
  }

  /**
   * A slot reports -1 exactly when it is empty, as long as every texture present names a
   * coordinate set (the glTF importer always sets one; a default Texture carries -1 itself).
   */
  lemma TexCoordMinusOneIffEmpty(m: Material, s: Slot)
    requires forall t :: t in m.textures ==> m.textures[t].texCoordIndex >= 0
    ensures m.RawData().texCoordIdx[s] == -1 <==> s !in m.textures
  {
  }
}
