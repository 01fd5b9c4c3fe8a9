/** The parts of Skia the software draw path reads: a device clip and a canvas. */
module Skia {
  import opened Geometry

  /** SkIRect: four edges rather than an origin and an extent. */
  datatype IRect = IRect(left: int, top: int, right: int, bottom: int)

  /** gfx::SkIRectToRect: an inverted rectangle becomes an empty one. */
  function SkIRectToRect(r: IRect): (g: Rect)
    ensures g.x == r.left && g.y == r.top
    ensures r.left <= r.right ==> g.x + g.width == r.right
    ensures r.top <= r.bottom ==> g.y + g.height == r.bottom
    ensures r.right < r.left ==> g.width == 0
    ensures r.bottom < r.top ==> g.height == 0
  {
    Rect(r.left, r.top, Clamp(r.right - r.left), Clamp(r.bottom - r.top))
  }

  /**
   * An SkCanvas supplied by the host for one software draw. Only what the
   * output surface reads is kept: the device clip bounds, the total matrix
   * (already in its 4x4 form) and the device size. Identity matters: the
   * software device hands this very object back to the compositor.
   */
  class Canvas {
    const clipDeviceBounds: IRect
    const totalMatrix: Transform
    const deviceWidth: int
    const deviceHeight: int

    constructor (clipDeviceBounds: IRect, totalMatrix: Transform, deviceWidth: int, deviceHeight: int)
      ensures this.clipDeviceBounds == clipDeviceBounds && this.totalMatrix == totalMatrix
      ensures this.deviceWidth == deviceWidth && this.deviceHeight == deviceHeight
    {
      this.clipDeviceBounds := clipDeviceBounds;
      this.totalMatrix := totalMatrix;
      this.deviceWidth := deviceWidth;
      this.deviceHeight := deviceHeight;
    }
  }
}
