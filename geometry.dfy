/**
 * The gfx value types the output surface hands to the compositor: sizes,
 * rectangles and transforms.
 */
module Geometry {

  /** gfx::Size. Its constructor clamps a negative extent to zero. */
  datatype Size = Size(width: nat, height: nat)

  function Clamp(v: int): nat {
    if v < 0 then 0 else v
  }

  /** gfx::Size(width, height). */
  function MakeSize(width: int, height: int): Size {
    Size(Clamp(width), Clamp(height))
  }

  /** gfx::Rect: an origin and a non-negative extent. */
  datatype Rect = Rect(x: int, y: int, width: nat, height: nat) {

    /** gfx::Rect::size(). */
    function Extent(): Size {
      Size(width, height)
    }
  }

  /** gfx::Rect(size): the rectangle of that size at the origin. */
  function RectAtOrigin(size: Size): Rect {
    Rect(0, 0, size.width, size.height)
  }

  /** The upper-left 3x3 block of a 4x4 matrix, row by row. */
  datatype Matrix3 = Matrix3(xx: real, xy: real, xz: real,
                             yx: real, yy: real, yz: real,
                             zx: real, zy: real, zz: real)

  /**
   * An affine gfx::Transform: a linear block and a translation column; the
   * bottom row is (0, 0, 0, 1). Entries are exact reals.
   */
  datatype Transform = Transform(linear: Matrix3, tx: real, ty: real, tz: real)

  const IdentityLinear: Matrix3 := Matrix3(1.0, 0.0, 0.0, 0.0, 1.0, 0.0, 0.0, 0.0, 1.0)

  const IdentityTransform: Transform := Transform(IdentityLinear, 0.0, 0.0, 0.0)

  datatype Point3 = Point3(x: real, y: real, z: real)

  /** The image of a point under a transform. */
  function MapPoint(t: Transform, p: Point3): Point3 {
    var m := t.linear;
    Point3(m.xx * p.x + m.xy * p.y + m.xz * p.z + t.tx,
           m.yx * p.x + m.yy * p.y + m.yz * p.z + t.ty,
           m.zx * p.x + m.zy * p.y + m.zz * p.z + t.tz)
  }

  function Shift(p: Point3, dx: real, dy: real, dz: real): Point3 {
    Point3(p.x + dx, p.y + dy, p.z + dz)
  }

  /**
   * SkMatrix44::postTranslate on an affine matrix: the new transform maps
   * every point where the old one did, then moves it by (dx, dy, dz).
   */
  function PostTranslate(t: Transform, dx: real, dy: real, dz: real): (r: Transform)
    ensures r.linear == t.linear
    ensures forall p :: MapPoint(r, p) == Shift(MapPoint(t, p), dx, dy, dz)
  {
    t.(tx := t.tx + dx, ty := t.ty + dy, tz := t.tz + dz)
  }
}
