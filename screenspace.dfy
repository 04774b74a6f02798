/** The pixel translation applied to a label: its normalized device
    coordinates scaled by half the viewport, with the vertical axis flipped
    because device y grows upwards and screen y grows downwards. */
module ScreenSpace {

  datatype Offset = Offset(x: real, y: real)

  function Translation(ndcX: real, ndcY: real, width: real, height: real): Offset {
    Offset(ndcX * width * 0.5, -ndcY * height * 0.5)
  }

  /** Reference inverse: the device coordinates a translation came from. */
  function DeviceCoordinates(t: Offset, width: real, height: real): (real, real)
    requires width > 0.0 && height > 0.0
  {
    (t.x / (width * 0.5), -t.y / (height * 0.5))
  }

  /** The viewport centre maps to no translation; the top-right corner maps to half the
      viewport right and half the viewport up; the bottom-left corner to the opposite. */
  lemma Corners(width: real, height: real)
    ensures Translation(0.0, 0.0, width, height) == Offset(0.0, 0.0)
    ensures Translation(1.0, 1.0, width, height) == Offset(width / 2.0, -height / 2.0)
    ensures Translation(-1.0, -1.0, width, height) == Offset(-width / 2.0, height / 2.0)
  {
  }

  /** In exact arithmetic and for a non-degenerate viewport, the device coordinates can be read
      back from the translation. */
  lemma TranslationRoundTrip(ndcX: real, ndcY: real, width: real, height: real)
    requires width > 0.0 && height > 0.0
    ensures DeviceCoordinates(Translation(ndcX, ndcY, width, height), width, height) == (ndcX, ndcY)
  {
    var t := Translation(ndcX, ndcY, width, height);
    var hw, hh := width * 0.5, height * 0.5;
    assert t.x == ndcX * hw;
    assert t.y == -(ndcY * hh);
    DivCancel(ndcX, hw);
    DivCancel(ndcY, hh);
  }

  /** In exact arithmetic, distinct device coordinates land on distinct screen positions. */
  lemma TranslationInjective(x1: real, y1: real, x2: real, y2: real, width: real, height: real)
    requires width > 0.0 && height > 0.0
    ensures Translation(x1, y1, width, height) == Translation(x2, y2, width, height) ==> x1 == x2 && y1 == y2
  {
    TranslationRoundTrip(x1, y1, width, height);
    TranslationRoundTrip(x2, y2, width, height);
  }

  lemma DivCancel(a: real, b: real)
    requires b > 0.0
    ensures (a * b) / b == a
  {
  }
}
