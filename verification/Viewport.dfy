/** The pan and zoom lens between screen and world coordinates. */
module Viewport {
  import opened Protocol
  import opened Geometry

  datatype View = View(tx: real, ty: real, scale: real)

  const MIN_SCALE := 0.15
  const MAX_SCALE := 6.0
  const RESET_VIEW := View(0.0, 0.0, 1.0)

  predicate ValidView(v: View) { MIN_SCALE <= v.scale <= MAX_SCALE }

  function ToWorld(v: View, sx: real, sy: real): Point
    requires ValidView(v)
  {
    Point((sx - v.tx) / v.scale, (sy - v.ty) / v.scale)
  }

  function ToScreen(v: View, p: Point): Point {
    Point(p.x * v.scale + v.tx, p.y * v.scale + v.ty)
  }

  function PanBy(v: View, dx: real, dy: real): View {
    View(v.tx + dx, v.ty + dy, v.scale)
  }

  function Rescale(scale: real, factor: real): real {
    Clamp(scale * factor, MIN_SCALE, MAX_SCALE)
  }

  predicate Unclamped(scale: real, factor: real) {
    MIN_SCALE <= scale * factor <= MAX_SCALE
  }

  /** Zoom about a screen point; the new scale is clamped, whatever the factor. */
  function ZoomAt(v: View, sx: real, sy: real, factor: real): (z: View)
    requires ValidView(v)
    ensures ValidView(z)
  {
    var ns := Rescale(v.scale, factor);
    var k := ns / v.scale;
    View(sx - (sx - v.tx) * k, sy - (sy - v.ty) * k, ns)
  }

  lemma DivCancels(a: real, b: real)
    requires b != 0.0
    ensures a * b / b == a && a / b * b == a
  {
  }

  lemma {:induction false} WorldOfScreen(v: View, p: Point)
    requires ValidView(v)
    ensures ToWorld(v, ToScreen(v, p).x, ToScreen(v, p).y) == p
  {
    DivCancels(p.x, v.scale);
    DivCancels(p.y, v.scale);
  }

  lemma ScreenOfWorld(v: View, sx: real, sy: real)
    requires ValidView(v)
    ensures ToScreen(v, ToWorld(v, sx, sy)) == Point(sx, sy)
    ensures var w := ToWorld(v, sx, sy); w.x * v.scale + v.tx == sx && w.y * v.scale + v.ty == sy
  {
    DivCancels(sx - v.tx, v.scale);
    DivCancels(sy - v.ty, v.scale);
  }

  lemma RatioCancels(d: real, s0: real, s1: real)
    requires s0 > 0.0 && s1 > 0.0
    ensures d * (s1 / s0) / s1 == d / s0
  {
    var k, r := s1 / s0, d / s0;
    assert k * s0 == s1 && r * s0 == d;
    assert d * k == r * s1 by {
      assert d * k == (r * s0) * k;
      assert (r * s0) * k == r * (k * s0);
    }
    DivCancels(r, s1);
  }

  /** Zooming keeps the world point under the pointer where it is. */
  lemma ZoomKeepsPointer(v: View, sx: real, sy: real, factor: real)
    requires ValidView(v)
    ensures ToWorld(ZoomAt(v, sx, sy, factor), sx, sy) == ToWorld(v, sx, sy)
  {
    var z := ZoomAt(v, sx, sy, factor);
    RatioCancels(sx - v.tx, v.scale, z.scale);
    RatioCancels(sy - v.ty, v.scale, z.scale);
  }

  /** A view is known from its scale and from where it shows one screen point. */
  lemma ViewFromPoint(v: View, w: View, sx: real, sy: real)
    requires ValidView(v) && w.scale == v.scale && ToWorld(v, sx, sy) == ToWorld(w, sx, sy)
    ensures v == w
  {
    DivCancels(sx - v.tx, v.scale);
    DivCancels(sx - w.tx, v.scale);
    DivCancels(sy - v.ty, v.scale);
    DivCancels(sy - w.ty, v.scale);
  }

  lemma MulLess(a: real, b: real, g: real)
    requires a < b && g > 0.0
    ensures a * g < b * g
  {
  }

  lemma ScaleBack(s: real, f: real)
    requires s > 0.0 && f > 0.0
    ensures s * f * (1.0 / f) == s
    ensures s * f > MAX_SCALE ==> MAX_SCALE * (1.0 / f) < s
    ensures s * f < MIN_SCALE ==> MIN_SCALE * (1.0 / f) > s
  {
    var g := 1.0 / f;
    assert f * g == 1.0;
    assert s * f * g == s * (f * g);
    if s * f > MAX_SCALE {
      MulLess(MAX_SCALE, s * f, g);
    } else if s * f < MIN_SCALE {
      MulLess(s * f, MIN_SCALE, g);
    }
  }

  /** Zooming back restores the scale: the first zoom was not clamped, or both ends of the range were hit. */
  predicate Reversible(scale: real, factor: real) {
    || Unclamped(scale, factor)
    || (scale == MIN_SCALE && scale * factor > MAX_SCALE)
    || (scale == MAX_SCALE && scale * factor < MIN_SCALE)
  }

  lemma RescaleBack(s: real, f: real)
    requires MIN_SCALE <= s <= MAX_SCALE && f > 0.0
    ensures Rescale(Rescale(s, f), 1.0 / f) == s <==> Reversible(s, f)
  {
    var p, g := s * f, 1.0 / f;
    ScaleBack(s, f);
    var r := Rescale(s, f);
    if p > MAX_SCALE {
      assert r == MAX_SCALE;
    } else if p < MIN_SCALE {
      assert r == MIN_SCALE;
    } else {
      assert r == p && p * g == s;
    }
  }

  lemma ZoomScale(v: View, sx: real, sy: real, factor: real)
    requires ValidView(v)
    ensures ZoomAt(v, sx, sy, factor).scale == Rescale(v.scale, factor)
  {
  }

  /** Zooming in and back out about one point undoes itself exactly when the scale comes back. */
  lemma ZoomUndone(v: View, sx: real, sy: real, f: real)
    requires ValidView(v) && f > 0.0
    ensures ZoomAt(ZoomAt(v, sx, sy, f), sx, sy, 1.0 / f) == v <==> Reversible(v.scale, f)
  {
    hide ZoomAt, ToWorld, Rescale, Reversible;
    var z := ZoomAt(v, sx, sy, f);
    var back := ZoomAt(z, sx, sy, 1.0 / f);
    ZoomScale(v, sx, sy, f);
    ZoomScale(z, sx, sy, 1.0 / f);
    RescaleBack(v.scale, f);
    if Reversible(v.scale, f) {
      ZoomKeepsPointer(v, sx, sy, f);
      ZoomKeepsPointer(z, sx, sy, 1.0 / f);
      ViewFromPoint(back, v, sx, sy);
    }
  }
}
