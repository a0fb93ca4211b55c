/**
 * The light assets (scene/light.cpp) that hold more than plain fields: the surface light,
 * whose shape decides whether its third dimension is used; the spot light's cone; and the IES
 * light's angle ranges, read from the first and last entries of its angle lists.
 */
module SceneLight {
  import opened Numeric

  /** LightType: one bit per kind of light, with the group masks built from them. */
  const POINT: bv32 := 0x0000_0001
  const SPOT: bv32 := 0x0000_0002
  const DIRECTIONAL: bv32 := 0x0000_0004
  const SQUARE_BIT: bv32 := 0x0000_0008
  const RECTANGLE_BIT: bv32 := 0x0000_0010
  const CUBE_BIT: bv32 := 0x0000_0020
  const CUBOID_BIT: bv32 := 0x0000_0040
  const DISK_BIT: bv32 := 0x0000_0080
  const ELLIPSE_BIT: bv32 := 0x0000_0100
  const SPHERE_BIT: bv32 := 0x0000_0200
  const ELLIPSOID_BIT: bv32 := 0x0000_0400
  const IES: bv32 := 0x0000_0800
  const HYPERRECTANGULAR: bv32 := SQUARE_BIT | RECTANGLE_BIT | CUBE_BIT | CUBOID_BIT
  const ELLIPTICAL: bv32 := DISK_BIT | ELLIPSE_BIT | SPHERE_BIT | ELLIPSOID_BIT
  const SURFACE: bv32 := HYPERRECTANGULAR | ELLIPTICAL

  /** SurfaceLight::Shape. */
  datatype Shape = SQUARE | RECTANGLE | CUBE | CUBOID | DISK | ELLIPSE | SPHERE | ELLIPSOID

  /** The shapes with volume. */
  predicate Is3DShape(shape: Shape)
  {
    shape == CUBE || shape == CUBOID || shape == SPHERE || shape == ELLIPSOID
  }

  /** The dimensions setShape assigns: unit extent, and no depth for a flat shape. */
  function ShapeDimensions(shape: Shape): (d: Vec3)
    ensures d.x == 1.0 && d.y == 1.0
    ensures d.z == (if Is3DShape(shape) then 1.0 else 0.0)
  {
    match shape
    case SQUARE | RECTANGLE | DISK | ELLIPSE => Vec3(1.0, 1.0, 0.0)
    case CUBE | CUBOID | SPHERE | ELLIPSOID => Vec3(1.0, 1.0, 1.0)
  }

  /** The dimensions setDimensions keeps: as given, with the depth cleared for a flat shape. */
  function Flattened(shape: Shape, d: Vec3): (r: Vec3)
    ensures r.x == d.x && r.y == d.y
    ensures Is3DShape(shape) ==> r.z == d.z
    ensures !Is3DShape(shape) ==> r.z == 0.0
  {
    if Is3DShape(shape) then d else Vec3(d.x, d.y, 0.0)
  }

  /**
   * Clearing the depth twice clears it once, and the dimensions setShape assigns are already
   * in the form setDimensions keeps.
   */
  lemma FlattenedIdempotent(shape: Shape, d: Vec3)
    ensures Flattened(shape, Flattened(shape, d)) == Flattened(shape, d)
    ensures Flattened(shape, ShapeDimensions(shape)) == ShapeDimensions(shape)
  {
  }

  /** The LightType bit getRawData writes for a surface light's shape. */
  function ShapeType(shape: Shape): (t: bv32)
  {
    match shape
    case SQUARE => SQUARE_BIT
    case RECTANGLE => RECTANGLE_BIT
    case CUBE => CUBE_BIT
    case CUBOID => CUBOID_BIT
    case DISK => DISK_BIT
    case ELLIPSE => ELLIPSE_BIT
    case SPHERE => SPHERE_BIT
    case ELLIPSOID => ELLIPSOID_BIT
  }

  /**
   * Every shape is written as a surface type, different shapes as different types, and the
   * types with volume are exactly the 3D shapes: a cube or cuboid among the hyperrectangular
   * types, a sphere or ellipsoid among the elliptical ones.
   */
  lemma ShapeTypeFaithful(shape: Shape, other: Shape)
    ensures ShapeType(shape) & SURFACE == ShapeType(shape)
    ensures ShapeType(shape) & (POINT | SPOT | DIRECTIONAL | IES) == 0
    ensures shape != other ==> ShapeType(shape) != ShapeType(other)
    ensures Is3DShape(shape) <==> ShapeType(shape) & (CUBE_BIT | CUBOID_BIT | SPHERE_BIT | ELLIPSOID_BIT) != 0
    ensures ShapeType(shape) & HYPERRECTANGULAR != 0 <==> shape in {SQUARE, RECTANGLE, CUBE, CUBOID}
  {
  }

  class SurfaceLight {
    var shape: Shape
    var dimension: Vec3
    var doubleSided: bool

    /** The default surface light: a one-sided square with dimensions (1, 1, 1). */
    constructor ()
      ensures shape == SQUARE && dimension == Vec3(1.0, 1.0, 1.0) && !doubleSided
    {
      shape := SQUARE;
      dimension := Vec3(1.0, 1.0, 1.0);
      doubleSided := false;
    }

    /** is3D. */
    predicate Is3D()
      reads this
    {
      Is3DShape(shape)
    }

    /** A flat light has no depth. setShape and setDimensions establish it; the constructor does not. */
    predicate Flat()
      reads this
    {
      !Is3D() ==> dimension.z == 0.0
    }

    /** setShape: the new shape with unit width and height, and depth 1 only for a 3D shape. */
    method SetShape(s: Shape)
      modifies this`shape, this`dimension
      ensures shape == s && dimension == ShapeDimensions(s)
      ensures Flat()
    {
      shape := s;
      match shape {
        case SQUARE | RECTANGLE | DISK | ELLIPSE =>
          dimension := Vec3(1.0, 1.0, 0.0);
        case CUBE | CUBOID | SPHERE | ELLIPSOID =>
          dimension := Vec3(1.0, 1.0, 1.0);
      }
    }

    /** setDimensions: the given dimensions, with the depth cleared when the shape is flat. */
    method SetDimensions(d: Vec3)
      modifies this`dimension
      ensures dimension == Flattened(shape, d)
      ensures Flat()
    {
      dimension := d;
      if !Is3D() {
        dimension := dimension.(z := 0.0);
      }
    }

    /** doubleSided(bool). */
    method SetDoubleSided(b: bool)
      modifies this`doubleSided
      ensures doubleSided == b
    {
      doubleSided := b;
    }
  }

  class SpotLight {
    var range: real
    var radius: real
    var innerAngle: real
    var outerAngle: real

    /** SpotLight(inner, outer): no range and no radius; the source's defaults are 0 and pi/4. */
    constructor (inner: real, outer: real)
      ensures innerAngle == inner && outerAngle == outer && range == 0.0 && radius == 0.0
    {
      innerAngle, outerAngle := inner, outer;
      range, radius := 0.0, 0.0;
    }

    /** setCone: both angles stored as given, unchecked; nothing else changes. */
    method SetCone(inner: real, outer: real)
      modifies this`innerAngle, this`outerAngle
      ensures innerAngle == inner && outerAngle == outer
    {
      innerAngle := inner;
      outerAngle := outer;
    }
  }

  /** The first angle of a list, 0 for an empty list. */
  function FirstOr0(angles: seq<real>): (r: real)
    ensures angles == [] ==> r == 0.0
    ensures angles != [] ==> r == angles[0]
  {
    if angles == [] then 0.0 else angles[0]
  }

  /** The last angle of a list, 0 for an empty list. */
  function LastOr0(angles: seq<real>): (r: real)
    ensures angles == [] ==> r == 0.0
    ensures angles != [] ==> r == angles[|angles| - 1]
  {
    if angles == [] then 0.0 else angles[|angles| - 1]
  }

  predicate Ascending(angles: seq<real>)
  {
    forall i, j :: 0 <= i < j < |angles| ==> angles[i] <= angles[j]
  }

  /**
   * For the ascending angle lists of an IES profile, the range read from the ends of the list
   * holds every angle of the list, and an empty list gives the range [0, 0].
   */
  lemma {:induction false} AngleRangeCovers(angles: seq<real>)
    requires Ascending(angles)
    ensures FirstOr0(angles) <= LastOr0(angles)
    ensures forall i :: 0 <= i < |angles| ==> FirstOr0(angles) <= angles[i] <= LastOr0(angles)
  {
    if angles != [] {
      assert angles[0] <= angles[|angles| - 1] by {
        if |angles| > 1 {
          assert 0 < |angles| - 1;
        }
      }
      forall i | 0 <= i < |angles|
        ensures angles[0] <= angles[i] <= angles[|angles| - 1]
      {
        if 0 < i {
          assert angles[0] <= angles[i];
        }
        if i < |angles| - 1 {
          assert angles[i] <= angles[|angles| - 1];
        }
      }
    }
  }

  class IESLight {
    var radius: real
    var verticalAngles: seq<real>
    var horizontalAngles: seq<real>

    /** IESLight(): no radius and no angles. */
    constructor ()
      ensures radius == 0.0 && verticalAngles == [] && horizontalAngles == []
    {
      radius := 0.0;
      verticalAngles := [];
      horizontalAngles := [];
    }

    /** getMinVerticalAngle: the first vertical angle, 0 without any. */
    function MinVerticalAngle(): real
      reads this
    {
      FirstOr0(verticalAngles)
    }

    /** getMaxVerticalAngle: the last vertical angle, 0 without any. */
    function MaxVerticalAngle(): real
      reads this
    {
      LastOr0(verticalAngles)
    }

    /** getMinHorizontalAngle. */
    function MinHorizontalAngle(): real
      reads this
    {
      FirstOr0(horizontalAngles)
    }

    /** getMaxHorizontalAngle. */
    function MaxHorizontalAngle(): real
      reads this
    {
      LastOr0(horizontalAngles)
    }

    /** setVerticalAngles: the list replaced by a copy; the range now comes from its ends. */
    method SetVerticalAngles(angles: seq<real>)
      modifies this`verticalAngles
      ensures verticalAngles == angles
      ensures MinVerticalAngle() == FirstOr0(angles) && MaxVerticalAngle() == LastOr0(angles)
    {
      verticalAngles := angles;
    }

    /** setHorizontalAngles. */
    method SetHorizontalAngles(angles: seq<real>)
      modifies this`horizontalAngles
      ensures horizontalAngles == angles
      ensures MinHorizontalAngle() == FirstOr0(angles) && MaxHorizontalAngle() == LastOr0(angles)
    {
      horizontalAngles := angles;
    }
  }
}
