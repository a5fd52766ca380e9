/** Exact plane geometry of the scene, over the reals; distances are compared by their squares. */
module Geometry {
  import opened Wrappers
  import opened Protocol
  import opened Scene

  function Min(a: real, b: real): real { if a <= b then a else b }

  function Max(a: real, b: real): real { if a >= b then a else b }

  function Abs(a: real): real { if a >= 0.0 then a else -a }

  function Clamp(v: real, lo: real, hi: real): real { Max(lo, Min(hi, v)) }

  function Prod(a: real, b: real): real { a * b }

  function Sq(a: real): real { Prod(a, a) }

  function Dist2(p: Point, q: Point): real { Sq(p.x - q.x) + Sq(p.y - q.y) }

  /** distance <= t, for a distance given by its square */
  predicate Within(d2: real, t: real) { t >= 0.0 && d2 <= Sq(t) }

  // ---- shapes and their anchors ----

  /**
   * The same rectangle with non-negative extents, named from its least corner; dragging up or left
   * stores negative ones. Nothing else of the shape changes.
   */
  function Normalize(s: SceneObject): (n: SceneObject)
    requires s.Shape?
    ensures n.Shape? && n.(x := s.x, y := s.y, w := s.w, h := s.h) == s
    ensures n.w >= 0.0 && if n.x == s.x then n.x + n.w == s.x + s.w else n.x == s.x + s.w && n.x + n.w == s.x
    ensures n.h >= 0.0 && if n.y == s.y then n.y + n.h == s.y + s.h else n.y == s.y + s.h && n.y + n.h == s.y
  {
    s.(x := Min(s.x, s.x + s.w), y := Min(s.y, s.y + s.h), w := Abs(s.w), h := Abs(s.h))
  }

  function ShapeCenter(s: SceneObject): Point
    requires s.Shape?
  {
    var n := Normalize(s);
    Point(n.x + n.w / 2.0, n.y + n.h / 2.0)
  }

  function ShapeAnchors(s: SceneObject): (anchors: seq<Point>)
    requires s.Shape?
    ensures |anchors| == 4
  {
    var n := Normalize(s);
    [Point(n.x + n.w / 2.0, n.y), Point(n.x + n.w, n.y + n.h / 2.0),
     Point(n.x + n.w / 2.0, n.y + n.h), Point(n.x, n.y + n.h / 2.0)]
  }

  // The sides of a shape's own rectangle, for extents of either sign.
  function Left(s: SceneObject): real
    requires s.Shape?
  {
    if s.w >= 0.0 then s.x else s.x + s.w
  }

  function Right(s: SceneObject): real
    requires s.Shape?
  {
    if s.w >= 0.0 then s.x + s.w else s.x
  }

  function Top(s: SceneObject): real
    requires s.Shape?
  {
    if s.h >= 0.0 then s.y else s.y + s.h
  }

  function Bottom(s: SceneObject): real
    requires s.Shape?
  {
    if s.h >= 0.0 then s.y + s.h else s.y
  }

  /** The point lies on the outline that is drawn for the shape's kind. */
  predicate OnOutline(s: SceneObject, p: Point)
    requires s.Shape?
  {
    var u, v := 2.0 * p.x - 2.0 * s.x - s.w, 2.0 * p.y - 2.0 * s.y - s.h;
    match s.shape
    case Rect =>
      || ((p.x == Left(s) || p.x == Right(s)) && Top(s) <= p.y <= Bottom(s))
      || ((p.y == Top(s) || p.y == Bottom(s)) && Left(s) <= p.x <= Right(s))
    case Ellipse => (u * u) * (s.h * s.h) + (v * v) * (s.w * s.w) == (s.w * s.w) * (s.h * s.h)
    case Diamond => Abs(u) * Abs(s.h) + Abs(v) * Abs(s.w) == Abs(s.w) * Abs(s.h)
  }

  /** The anchors are the middles of the top, right, bottom and left side, and lie on the outline of every kind. */
  lemma AnchorsAreMidpoints(s: SceneObject)
    requires s.Shape?
    ensures ShapeAnchors(s)
         == [Point(s.x + s.w / 2.0, Top(s)), Point(Right(s), s.y + s.h / 2.0),
             Point(s.x + s.w / 2.0, Bottom(s)), Point(Left(s), s.y + s.h / 2.0)]
    ensures forall p :: p in ShapeAnchors(s) ==> OnOutline(s, p)
  {
    forall k | 0 <= k < 4 ensures OnOutline(s, ShapeAnchors(s)[k]) {
      AnchorOnOutline(s, ShapeAnchors(s)[k]);
    }
  }

  lemma AnchorOnOutline(s: SceneObject, p: Point)
    requires s.Shape?
    requires || (2.0 * p.x == 2.0 * s.x + s.w && (p.y == s.y || p.y == s.y + s.h))
             || (2.0 * p.y == 2.0 * s.y + s.h && (p.x == s.x || p.x == s.x + s.w))
    ensures OnOutline(s, p)
  {
    var u, v := 2.0 * p.x - 2.0 * s.x - s.w, 2.0 * p.y - 2.0 * s.y - s.h;
    assert (-s.h) * (-s.h) == s.h * s.h && (-s.w) * (-s.w) == s.w * s.w;
    if 2.0 * p.x == 2.0 * s.x + s.w && (p.y == s.y || p.y == s.y + s.h) {
      assert u == 0.0 && v in {s.h, -s.h};
    } else {
      assert v == 0.0 && u in {s.w, -s.w};
    }
  }

  /** The point that connectors face is the middle of the shape's own rectangle. */
  lemma CenterIsMiddle(s: SceneObject)
    requires s.Shape?
    ensures 2.0 * ShapeCenter(s).x == 2.0 * s.x + s.w && 2.0 * ShapeCenter(s).y == 2.0 * s.y + s.h
  {
  }

  /** `best` is the first of the anchors that is as near to the target as any of them. */
  ghost predicate IsNearest(anchors: seq<Point>, target: Point, best: nat) {
    && best < |anchors|
    && (forall k :: 0 <= k < best ==> Dist2(anchors[best], target) < Dist2(anchors[k], target))
    && (forall k :: best <= k < |anchors| ==> Dist2(anchors[best], target) <= Dist2(anchors[k], target))
  }

  function NearestIndex(anchors: seq<Point>, target: Point): (best: nat)
    requires |anchors| > 0
    ensures IsNearest(anchors, target, best)
  {
    if |anchors| == 1 then 0
    else
      var last := |anchors| - 1;
      var k := NearestIndex(anchors[..last], target);
      if Dist2(anchors[last], target) < Dist2(anchors[k], target) then last else k
  }

  function NearestAnchor(s: SceneObject, target: Point): Point
    requires s.Shape?
  {
    ShapeAnchors(s)[NearestIndex(ShapeAnchors(s), target)]
  }

  lemma NearestUnique(anchors: seq<Point>, target: Point, i: nat, j: nat)
    requires IsNearest(anchors, target, i) && IsNearest(anchors, target, j)
    ensures i == j
  {
    var first, second := anchors[i], anchors[j];
  }

  /** The loop of nearestAnchor: keep the best so far, replace it only by a strictly nearer one. */
  method ComputeNearestAnchor(s: SceneObject, target: Point) returns (best: Point)
    requires s.Shape?
    ensures best == NearestAnchor(s, target)
  {
    var anchors := ShapeAnchors(s);
    var bd: Option<real> := None;  // None stands for the initial Infinity
    best := anchors[0];
    ghost var at: nat := 0;
    for i := 0 to |anchors|
      invariant at < |anchors|
      invariant i > 0 ==> bd == Some(Dist2(best, target)) && best == anchors[at] && IsNearest(anchors[..i], target, at)
      invariant i == 0 ==> bd == None
    {
      var d := Dist2(anchors[i], target);
      if bd.None? || d < bd.value {
        bd, best, at := Some(d), anchors[i], i;
      }
    }
    assert anchors[..|anchors|] == anchors;
    NearestUnique(anchors, target, at, NearestIndex(anchors, target));
  }

  // ---- floating connectors ----

  function FindShape(scene: Objects, id: string): Option<SceneObject> {
    var o := Find(scene, id);
    if o.Some? && o.value.Shape? then o else None
  }

  function BoundShape(scene: Objects, end: Option<string>): (s: Option<SceneObject>)
    ensures s.Some? ==> s.value.Shape?
  {
    if end.Some? then FindShape(scene, end.value) else None
  }

  /** An end is bound to the first object with its id, and to nothing if that is not a shape. */
  lemma BoundShapeExact(scene: Objects, id: string, i: nat)
    requires i < |scene| && scene[i].id == id && forall j :: 0 <= j < i ==> scene[j].id != id
    ensures BoundShape(scene, Some(id)) == if scene[i].Shape? then Some(scene[i]) else None
  {
    FindIndexed(scene, id, i);
  }

  lemma UnboundEnd(scene: Objects, end: Option<string>)
    requires end.None? || forall j :: 0 <= j < |scene| ==> scene[j].id != end.value
    ensures BoundShape(scene, end) == None
  {
    if end.Some? {
      assert end.value !in Ids(scene);
    }
  }

  /** The point that an end bound to a shape faces: the other shape's centre, or the other loose end. */
  function Facing(other: Option<SceneObject>, loose: Point): Point
    requires other.Some? ==> other.value.Shape?
  {
    if other.Some? then ShapeCenter(other.value) else loose
  }

  function ResolveEnd(own: Option<SceneObject>, stored: Point, target: Point): Point
    requires own.Some? ==> own.value.Shape?
  {
    if own.Some? then NearestAnchor(own.value, target) else stored
  }

  datatype Ends = Ends(a: Point, b: Point)

  /** Where a connector's two ends are drawn; the second end is resolved after the first. */
  function ResolveEnds(scene: Objects, c: SceneObject): Ends
    requires c.Connector?
  {
    var fs, ts := BoundShape(scene, c.fromRef), BoundShape(scene, c.toRef);
    var a0, b0 := Point(c.x1, c.y1), Point(c.x2, c.y2);
    var a := ResolveEnd(fs, a0, Facing(ts, b0));
    Ends(a, ResolveEnd(ts, b0, Facing(fs, a)))
  }

  ghost predicate NearestOn(s: SceneObject, target: Point, p: Point)
    requires s.Shape?
  {
    p in ShapeAnchors(s) && forall q :: q in ShapeAnchors(s) ==> Dist2(p, target) <= Dist2(q, target)
  }

  /**
   * A bound end sits on an anchor of its shape, the nearest to the other shape's centre or to the
   * other stored end; an end without a living shape keeps its stored point.
   */
  lemma ResolvedEndsAreNearest(scene: Objects, c: SceneObject)
    requires c.Connector?
    ensures var fs, ts := BoundShape(scene, c.fromRef), BoundShape(scene, c.toRef);
            var e := ResolveEnds(scene, c);
            && (fs.None? ==> e.a == Point(c.x1, c.y1))
            && (ts.None? ==> e.b == Point(c.x2, c.y2))
            && (fs.Some? ==> NearestOn(fs.value, if ts.Some? then ShapeCenter(ts.value) else Point(c.x2, c.y2), e.a))
            && (ts.Some? ==> NearestOn(ts.value, if fs.Some? then ShapeCenter(fs.value) else Point(c.x1, c.y1), e.b))
  {
  }

  /** A connector bound at both ends ignores its stored coordinates. */
  lemma DoublyBoundIgnoresStored(scene: Objects, c: SceneObject, x1: real, y1: real, x2: real, y2: real)
    requires c.Connector?
    requires BoundShape(scene, c.fromRef).Some? && BoundShape(scene, c.toRef).Some?
    ensures ResolveEnds(scene, c.(x1 := x1, y1 := y1, x2 := x2, y2 := y2)) == ResolveEnds(scene, c)
  {
  }

  function Shift(p: Point, d: Point): Point { Point(p.x + d.x, p.y + d.y) }

  function Translate(o: SceneObject, d: Point): (t: SceneObject)
    ensures t.id == o.id
    ensures o.Connector? <==> t.Connector?
  {
    match o
    case Shape(id, shape, x, y, w, h, color, width, caption, fill, z) =>
      Shape(id, shape, x + d.x, y + d.y, w, h, color, width, caption, fill, z)
    case Text(id, x, y, text, color, size, z) => Text(id, x + d.x, y + d.y, text, color, size, z)
    case Connector(_, _, _, _, _, _, _, _, _, _, _) =>
      o.(x1 := o.x1 + d.x, y1 := o.y1 + d.y, x2 := o.x2 + d.x, y2 := o.y2 + d.y)
    case Stroke(_, _, _, points, _) => o.(points := seq(|points|, i requires 0 <= i < |points| => Shift(points[i], d)))
  }

  function TranslateAll(s: Objects, d: Point): (t: Objects)
    ensures |t| == |s| && forall i :: 0 <= i < |s| ==> t[i] == Translate(s[i], d)
  {
    seq(|s|, i requires 0 <= i < |s| => Translate(s[i], d))
  }

  lemma FindTranslated(s: Objects, d: Point, id: string)
    ensures Find(TranslateAll(s, d), id) == match Find(s, id) { case None => None case Some(o) => Some(Translate(o, d)) }
  {
    var t := TranslateAll(s, d);
    var k := IndexOf(s, id);
    if k >= 0 {
      FindIndexed(t, id, k);
    } else {
      forall j | 0 <= j < |s| ensures t[j].id != id { IdsAt(s, j); }
    }
  }

  lemma BoundShapeTranslated(scene: Objects, end: Option<string>, d: Point)
    ensures BoundShape(TranslateAll(scene, d), end)
            == match BoundShape(scene, end) { case None => None case Some(s) => Some(Translate(s, d)) }
  {
    if end.Some? { FindTranslated(scene, d, end.value); }
  }

  lemma AnchorsTranslated(s: SceneObject, d: Point, k: nat)
    requires s.Shape? && k < 4
    ensures ShapeAnchors(Translate(s, d))[k] == Shift(ShapeAnchors(s)[k], d)
  {
  }

  lemma NearestTranslated(s: SceneObject, d: Point, target: Point)
    requires s.Shape?
    ensures NearestAnchor(Translate(s, d), Shift(target, d)) == Shift(NearestAnchor(s, target), d)
  {
    var as0, as1 := ShapeAnchors(s), ShapeAnchors(Translate(s, d));
    forall k: nat | k < 4 ensures as1[k] == Shift(as0[k], d)
                               && Dist2(as1[k], Shift(target, d)) == Dist2(as0[k], target) {
      AnchorsTranslated(s, d, k);
    }
    var i := NearestIndex(as0, target);
    NearestUnique(as1, Shift(target, d), i, NearestIndex(as1, Shift(target, d)));
  }

  lemma CenterTranslated(s: SceneObject, d: Point)
    requires s.Shape?
    ensures ShapeCenter(Translate(s, d)) == Shift(ShapeCenter(s), d)
  {
  }

  lemma ResolveEndTranslated(own: Option<SceneObject>, own': Option<SceneObject>, stored: Point, target: Point, d: Point)
    requires own.Some? ==> own.value.Shape?
    requires own' == match own { case None => None case Some(s) => Some(Translate(s, d)) }
    ensures ResolveEnd(own', Shift(stored, d), Shift(target, d)) == Shift(ResolveEnd(own, stored, target), d)
  {
    if own.Some? { NearestTranslated(own.value, d, target); }
  }

  lemma FacingTranslated(other: Option<SceneObject>, other': Option<SceneObject>, loose: Point, d: Point)
    requires other.Some? ==> other.value.Shape?
    requires other' == match other { case None => None case Some(s) => Some(Translate(s, d)) }
    ensures Facing(other', Shift(loose, d)) == Shift(Facing(other, loose), d)
  {
    if other.Some? { CenterTranslated(other.value, d); }
  }

  lemma StoredEndsTranslated(c: SceneObject, d: Point)
    requires c.Connector?
    ensures var t := Translate(c, d);
            && Point(t.x1, t.y1) == Shift(Point(c.x1, c.y1), d) && Point(t.x2, t.y2) == Shift(Point(c.x2, c.y2), d)
            && t.fromRef == c.fromRef && t.toRef == c.toRef
  {
  }

  /** Moving every shape and every stored end by d moves every resolved end by d. */
  lemma ResolvedEndsTranslate(scene: Objects, c: SceneObject, d: Point)
    requires c.Connector?
    ensures ResolveEnds(TranslateAll(scene, d), Translate(c, d))
            == Ends(Shift(ResolveEnds(scene, c).a, d), Shift(ResolveEnds(scene, c).b, d))
  {
    hide NearestAnchor, ShapeCenter, BoundShape, Shift, TranslateAll, Facing, ResolveEnd;
    var fs, ts := BoundShape(scene, c.fromRef), BoundShape(scene, c.toRef);
    var c' := Translate(c, d);
    var fs', ts' := BoundShape(TranslateAll(scene, d), c'.fromRef), BoundShape(TranslateAll(scene, d), c'.toRef);
    BoundShapeTranslated(scene, c.fromRef, d);
    BoundShapeTranslated(scene, c.toRef, d);
    var a0, b0 := Point(c.x1, c.y1), Point(c.x2, c.y2);
    StoredEndsTranslated(c, d);
    FacingTranslated(ts, ts', b0, d);
    ResolveEndTranslated(fs, fs', a0, Facing(ts, b0), d);
    var a := ResolveEnd(fs, a0, Facing(ts, b0));
    FacingTranslated(fs, fs', a, d);
    ResolveEndTranslated(ts, ts', b0, Facing(fs, a), d);
  }

  // ---- distance to a segment ----

  function Along(a: Point, b: Point, u: real): Point {
    Point(a.x + u * (b.x - a.x), a.y + u * (b.y - a.y))
  }

  function Len2(a: Point, b: Point): real { Sq(b.x - a.x) + Sq(b.y - a.y) }

  function Dot(p: Point, a: Point, b: Point): real {
    Prod(p.x - a.x, b.x - a.x) + Prod(p.y - a.y, b.y - a.y)
  }

  function ClosestParam(p: Point, a: Point, b: Point): real {
    if Len2(a, b) == 0.0 then 0.0 else Clamp(Dot(p, a, b) / Len2(a, b), 0.0, 1.0)
  }

  function DistToSeg2(p: Point, a: Point, b: Point): real {
    Dist2(p, Along(a, b, ClosestParam(p, a, b)))
  }

  /** How much farther the point at parameter u is than the point at t, in squared distance. */
  function Gap(len2: real, q: real, t: real, u: real): real {
    (u - t) * (len2 * (u + t) - 2.0 * q)
  }

  function Quad(base: real, q: real, len2: real, u: real): real {
    base - 2.0 * u * q + u * u * len2
  }

  lemma SquareAlong(p: real, a: real, d: real, u: real, at: real)
    requires at == a + u * d
    ensures Sq(p - at) == Quad(Sq(p - a), Prod(p - a, d), Sq(d), u)
  {
    var e := p - a;
    assert p - at == e - u * d;
    assert Sq(e - u * d) == e * e - 2.0 * u * (e * d) + u * u * (d * d);
  }

  lemma QuadraticSum(u: real, a: real, b: real, c: real, d: real, s: real, t: real)
    ensures Quad(s, a, c, u) + Quad(t, b, d, u) == Quad(s + t, a + b, c + d, u)
  {
  }

  /** The squared distance to the line's point at u is a quadratic in u. */
  lemma Dist2Along(p: Point, a: Point, b: Point, u: real)
    ensures Dist2(p, Along(a, b, u)) == Quad(Dist2(p, a), Dot(p, a, b), Len2(a, b), u)
  {
    hide Sq, Prod, Quad;
    SquareAlong(p.x, a.x, b.x - a.x, u, Along(a, b, u).x);
    SquareAlong(p.y, a.y, b.y - a.y, u, Along(a, b, u).y);
    QuadraticSum(u, Prod(p.x - a.x, b.x - a.x), Prod(p.y - a.y, b.y - a.y),
                 Sq(b.x - a.x), Sq(b.y - a.y), Sq(p.x - a.x), Sq(p.y - a.y));
  }

  lemma GapIsDifference(base: real, len2: real, q: real, t: real, u: real)
    ensures Quad(base, q, len2, u) - Quad(base, q, len2, t) == Gap(len2, q, t, u)
  {
  }

  lemma ClampedGap(len2: real, q: real, u: real)
    requires len2 > 0.0 && 0.0 <= u <= 1.0
    ensures Gap(len2, q, Clamp(q / len2, 0.0, 1.0), u) >= 0.0
  {
    var t, r := Clamp(q / len2, 0.0, 1.0), q / len2;
    assert q == len2 * r;
    assert len2 * (u + t) - 2.0 * q == len2 * (u + t - 2.0 * r);
    assert (u - t) * (len2 * (u + t - 2.0 * r)) == len2 * ((u - t) * (u + t - 2.0 * r));
    assert (u - t) * (u + t - 2.0 * r) >= 0.0;
  }

  lemma ProdPositive(a: real, b: real)
    requires a > 0.0 && b > 0.0
    ensures Prod(a, b) > 0.0
  {
  }

  lemma SquarePositive(x: real)
    ensures Sq(x) >= 0.0 && (x != 0.0 ==> Sq(x) > 0.0)
  {
    if x < 0.0 {
      ProdPositive(-x, -x);
      assert Sq(-x) == Sq(x);
    } else if x > 0.0 {
      ProdPositive(x, x);
    }
  }

  lemma ZeroLength(a: Point, b: Point, u: real)
    requires Len2(a, b) == 0.0
    ensures Along(a, b, u) == a
  {
    SquarePositive(b.x - a.x);
    SquarePositive(b.y - a.y);
  }

  lemma LengthPositive(a: Point, b: Point)
    ensures Len2(a, b) >= 0.0
  {
    SquarePositive(b.x - a.x);
    SquarePositive(b.y - a.y);
  }

  lemma ClosestParamRange(p: Point, a: Point, b: Point)
    ensures 0.0 <= ClosestParam(p, a, b) <= 1.0
  {
  }

  /** The clamped parameter is the closest point of the whole segment. */
  lemma ClosestParamIsClosest(p: Point, a: Point, b: Point, u: real)
    requires 0.0 <= u <= 1.0
    ensures DistToSeg2(p, a, b) <= Dist2(p, Along(a, b, u))
  {
    var t, len2, q := ClosestParam(p, a, b), Len2(a, b), Dot(p, a, b);
    LengthPositive(a, b);
    if len2 == 0.0 {
      ZeroLength(a, b, u);
      ZeroLength(a, b, t);
    } else {
      Dist2Along(p, a, b, u);
      Dist2Along(p, a, b, t);
      GapIsDifference(Dist2(p, a), len2, q, t, u);
      ClampedGap(len2, q, u);
    }
  }

  // ---- hit testing ----

  function LineCount(t: string): nat {
    if t == "" then 1 else (if t[0] == '\n' then 1 else 0) + LineCount(t[1..])
  }

  /** Length of the longest line, where the current line already has `run` characters. */
  function LongestLine(t: string, run: nat): nat {
    if t == "" then run
    else if t[0] == '\n' then var rest := LongestLine(t[1..], 0); if run >= rest then run else rest
    else LongestLine(t[1..], run + 1)
  }

  datatype Box = Box(x: real, y: real, w: real, h: real)

  function TextExtent(o: SceneObject, longest: nat, count: nat): Box
    requires o.Text?
  {
    Box(o.x, o.y, Prod((if longest >= 1 then longest else 1) as real, o.size) * 0.58, Prod(count as real, o.size) * 1.3)
  }

  function TextBox(o: SceneObject): Box
    requires o.Text?
  {
    TextExtent(o, LongestLine(o.text, 0), LineCount(o.text))
  }

  /** The lines of a text with a newline between each two. */
  function JoinedLines(lines: seq<string>): string {
    if lines == [] then ""
    else if |lines| == 1 then lines[0]
    else lines[0] + "\n" + JoinedLines(lines[1..])
  }

  predicate IsLine(line: string) {
    forall i :: 0 <= i < |line| ==> line[i] != '\n'
  }

  predicate AreLines(lines: seq<string>) {
    lines != [] && forall i :: 0 <= i < |lines| ==> IsLine(lines[i])
  }

  /** n is the length of the longest line. */
  ghost predicate IsLongest(lines: seq<string>, n: nat) {
    (forall i :: 0 <= i < |lines| ==> |lines[i]| <= n) && exists i :: 0 <= i < |lines| && |lines[i]| == n
  }

  lemma {:induction false} LineAhead(line: string, rest: string, run: nat)
    requires IsLine(line)
    ensures LineCount(line + rest) == LineCount(rest)
    ensures LongestLine(line + rest, run) == LongestLine(rest, run + |line|)
  {
    if line == "" {
      assert line + rest == rest;
    } else {
      assert (line + rest)[1..] == line[1..] + rest;
      LineAhead(line[1..], rest, run + 1);
    }
  }

  lemma {:induction false} LinesMeasured(lines: seq<string>)
    requires AreLines(lines)
    ensures LineCount(JoinedLines(lines)) == |lines|
    ensures IsLongest(lines, LongestLine(JoinedLines(lines), 0))
  {
    if |lines| == 1 {
      LineAhead(lines[0], "", 0);
      assert lines[0] + "" == lines[0];
    } else {
      var rest := JoinedLines(lines[1..]);
      LinesMeasured(lines[1..]);
      LineAhead(lines[0], "\n" + rest, 0);
      assert lines[0] + "\n" + rest == lines[0] + ("\n" + rest) && ("\n" + rest)[1..] == rest;
      var n, m := LongestLine(rest, 0), LongestLine(JoinedLines(lines), 0);
      assert m == if |lines[0]| >= n then |lines[0]| else n;
      var k :| 0 <= k < |lines[1..]| && |lines[1..][k]| == n;
      assert |lines[k + 1]| == n;
      forall i | 0 <= i < |lines| ensures |lines[i]| <= m {
        assert i > 0 ==> |lines[1..][i - 1]| <= n;
      }
    }
  }

  /** Every text is made of lines. */
  lemma {:induction false} TextHasLines(t: string) returns (lines: seq<string>)
    ensures AreLines(lines) && JoinedLines(lines) == t
  {
    if t == "" {
      lines := [""];
    } else {
      var rest := TextHasLines(t[1..]);
      if t[0] == '\n' {
        lines := [""] + rest;
        assert lines[1..] == rest && "" + "\n" + t[1..] == t;
      } else {
        lines := [[t[0]] + rest[0]] + rest[1..];
        assert lines[1..] == rest[1..];
        assert |rest| > 1 ==> [t[0]] + rest[0] + "\n" + JoinedLines(rest[1..]) == [t[0]] + (rest[0] + "\n" + JoinedLines(rest[1..]));
        assert [t[0]] + t[1..] == t;
      }
    }
  }

  /** A text's box: its longest line, or one character, wide, and its number of lines high. */
  lemma TextBoxExact(o: SceneObject, lines: seq<string>, n: nat)
    requires o.Text? && AreLines(lines) && JoinedLines(lines) == o.text && IsLongest(lines, n)
    ensures TextBox(o)
         == Box(o.x, o.y, Prod((if n >= 1 then n else 1) as real, o.size) * 0.58, Prod(|lines| as real, o.size) * 1.3)
  {
    LongestIs(o.text, lines, n);
    assert TextBox(o) == TextExtent(o, n, |lines|) by { hide LongestLine, LineCount, IsLongest, JoinedLines, AreLines, TextExtent; }
    hide TextBox, Prod;
  }

  lemma LongestIs(t: string, lines: seq<string>, n: nat)
    requires AreLines(lines) && JoinedLines(lines) == t && IsLongest(lines, n)
    ensures LongestLine(t, 0) == n && LineCount(t) == |lines|
  {
    LinesMeasured(lines);
    hide LongestLine, LineCount, JoinedLines;
  }

  predicate InBox(b: Box, p: Point, pad: real) {
    b.x - pad <= p.x <= b.x + b.w + pad && b.y - pad <= p.y <= b.y + b.h + pad
  }

  function ShapeBox(o: SceneObject): Box
    requires o.Shape?
  {
    var n := Normalize(o);
    Box(n.x, n.y, n.w, n.h)
  }

  /** Some segment of the polyline has a point within t of p; a lone point counts as itself. */
  predicate HitsStroke(points: seq<Point>, p: Point, t: real) {
    || (exists i :: 1 <= i < |points| && Within(DistToSeg2(p, points[i - 1], points[i]), t))
    || (|points| == 1 && Within(Dist2(p, points[0]), t))
  }

  predicate HitTest(scene: Objects, o: SceneObject, p: Point, pad: real) {
    match o
    case Stroke(_, _, width, points, _) => HitsStroke(points, p, pad + width / 2.0)
    case Shape(_, _, _, _, _, _, _, _, _, _, _) => InBox(ShapeBox(o), p, pad)
    case Text(_, _, _, _, _, _, _) => InBox(TextBox(o), p, pad)
    case Connector(_, _, _, _, _, _, width, _, _, _, _) =>
      var e := ResolveEnds(scene, o);
      Within(DistToSeg2(p, e.a, e.b), pad + width / 2.0)
  }

  /** The loop of hitTest over a stroke, with its early return. */
  method StrokeIsHit(points: seq<Point>, p: Point, t: real) returns (hit: bool)
    ensures hit == HitsStroke(points, p, t)
  {
    var i := 1;
    while i < |points|
      invariant 1 <= i && (|points| > 0 ==> i <= |points|)
      invariant forall k :: 1 <= k < i && k < |points| ==> !Within(DistToSeg2(p, points[k - 1], points[k]), t)
    {
      if Within(DistToSeg2(p, points[i - 1], points[i]), t) {
        return true;
      }
      i := i + 1;
    }
    return |points| == 1 && Within(Dist2(p, points[0]), t);
  }

  ghost predicate NearSegment(p: Point, a: Point, b: Point, t: real) {
    exists u: real :: 0.0 <= u <= 1.0 && Within(Dist2(p, Along(a, b, u)), t)
  }

  lemma WithinSegment(p: Point, a: Point, b: Point, t: real)
    ensures Within(DistToSeg2(p, a, b), t) <==> NearSegment(p, a, b, t)
  {
    var u0 := ClosestParam(p, a, b);
    ClosestParamRange(p, a, b);
    if Within(DistToSeg2(p, a, b), t) {
      assert Within(Dist2(p, Along(a, b, u0)), t);
    }
    if NearSegment(p, a, b, t) {
      var u :| 0.0 <= u <= 1.0 && Within(Dist2(p, Along(a, b, u)), t);
      ClosestParamIsClosest(p, a, b, u);
    }
  }

  /** A stroke is hit exactly at the points within pad + width/2 of some point of its polyline. */
  lemma StrokeHitExact(scene: Objects, o: SceneObject, p: Point, pad: real)
    requires o.Stroke? && |o.points| >= 2
    ensures HitTest(scene, o, p, pad)
            <==> exists i :: 1 <= i < |o.points| && NearSegment(p, o.points[i - 1], o.points[i], pad + o.width / 2.0)
  {
    forall i | 1 <= i < |o.points|
      ensures Within(DistToSeg2(p, o.points[i - 1], o.points[i]), pad + o.width / 2.0)
              <==> NearSegment(p, o.points[i - 1], o.points[i], pad + o.width / 2.0)
    {
      WithinSegment(p, o.points[i - 1], o.points[i], pad + o.width / 2.0);
    }
  }

  /** A point whose squared distance is at most the square of t. */
  predicate Near(p: Point, q: Point, t: real) {
    t >= 0.0 && (p.x - q.x) * (p.x - q.x) + (p.y - q.y) * (p.y - q.y) <= t * t
  }

  ghost predicate NearLine(p: Point, a: Point, b: Point, t: real) {
    exists u: real :: 0.0 <= u <= 1.0 && Near(p, Along(a, b, u), t)
  }

  lemma NearLineExact(p: Point, a: Point, b: Point, t: real)
    ensures NearLine(p, a, b, t) <==> Within(DistToSeg2(p, a, b), t)
  {
    WithinSegment(p, a, b, t);
    forall u: real ensures Near(p, Along(a, b, u), t) <==> Within(Dist2(p, Along(a, b, u)), t) {
    }
    hide Near, Within, Along, DistToSeg2, Dist2;
  }

  /** What is hit, in coordinates: for shapes the whole rectangle with its pad, whatever the kind. */
  lemma HitExact(scene: Objects, o: SceneObject, p: Point, pad: real)
    ensures o.Shape? ==>
      (HitTest(scene, o, p, pad)
       <==> Left(o) - pad <= p.x <= Right(o) + pad && Top(o) - pad <= p.y <= Bottom(o) + pad)
    ensures o.Text? ==>
      (HitTest(scene, o, p, pad)
       <==> o.x - pad <= p.x <= o.x + TextBox(o).w + pad && o.y - pad <= p.y <= o.y + TextBox(o).h + pad)
    ensures o.Connector? ==>
      (HitTest(scene, o, p, pad)
       <==> NearLine(p, ResolveEnds(scene, o).a, ResolveEnds(scene, o).b, pad + o.width / 2.0))
    ensures o.Stroke? ==>
      (HitTest(scene, o, p, pad)
       <==> || (exists i :: 1 <= i < |o.points| && NearLine(p, o.points[i - 1], o.points[i], pad + o.width / 2.0))
            || (|o.points| == 1 && Near(p, o.points[0], pad + o.width / 2.0)))
  {
    if o.Connector? {
      NearLineExact(p, ResolveEnds(scene, o).a, ResolveEnds(scene, o).b, pad + o.width / 2.0);
    } else if o.Stroke? {
      forall i | 1 <= i < |o.points|
        ensures NearLine(p, o.points[i - 1], o.points[i], pad + o.width / 2.0)
                <==> Within(DistToSeg2(p, o.points[i - 1], o.points[i]), pad + o.width / 2.0)
      {
        NearLineExact(p, o.points[i - 1], o.points[i], pad + o.width / 2.0);
      }
      hide DistToSeg2, NearLine;
    }
  }

  // ---- the export box ----

  ghost predicate Covers(b: Box, p: Point) {
    InBox(b, p, 0.0)
  }

  /** b is the least box around a nonempty polyline. */
  ghost predicate Bounds(points: seq<Point>, b: Box) {
    && (forall q :: q in points ==> Covers(b, q))
    && (exists q :: q in points && q.x == b.x) && (exists q :: q in points && q.x == b.x + b.w)
    && (exists q :: q in points && q.y == b.y) && (exists q :: q in points && q.y == b.y + b.h)
  }

  ghost predicate IsObjBox(o: SceneObject, b: Box) {
    match o
    case Stroke(_, _, _, points, _) => Bounds(points, b)
    case Shape(_, _, _, _, _, _, _, _, _, _, _) => b == ShapeBox(o)
    case Text(_, _, _, _, _, _, _) => b == TextBox(o)
    case Connector(_, x1, y1, x2, y2, _, _, _, _, _, _) => Bounds([Point(x1, y1), Point(x2, y2)], b)
  }

  ghost predicate StrokesNonempty(s: Objects) {
    forall o :: o in s && o.Stroke? ==> |o.points| > 0
  }

  method ObjBBox(o: SceneObject) returns (b: Box)
    requires o.Stroke? ==> |o.points| > 0
    ensures IsObjBox(o, b)
  {
    match o
    case Shape(_, _, _, _, _, _, _, _, _, _, _) => b := ShapeBox(o);
    case Text(_, _, _, _, _, _, _) => b := TextBox(o);
    case Connector(_, x1, y1, x2, y2, _, _, _, _, _, _) =>
      b := Box(Min(x1, x2), Min(y1, y2), Abs(x2 - x1), Abs(y2 - y1));
      var ends := [Point(x1, y1), Point(x2, y2)];
      assert ends[0] in ends && ends[1] in ends;
    case Stroke(_, _, _, points, _) =>
      var minX, minY, maxX, maxY := points[0].x, points[0].y, points[0].x, points[0].y;
      for i := 0 to |points|
        invariant forall k :: 0 <= k < i ==> minX <= points[k].x <= maxX && minY <= points[k].y <= maxY
        invariant exists q :: q in points && q.x == minX
        invariant exists q :: q in points && q.x == maxX
        invariant exists q :: q in points && q.y == minY
        invariant exists q :: q in points && q.y == maxY
      {
        var p := points[i];
        minX, minY, maxX, maxY := Min(minX, p.x), Min(minY, p.y), Max(maxX, p.x), Max(maxY, p.y);
      }
      b := Box(minX, minY, maxX - minX, maxY - minY);
  }

  ghost predicate BoxInside(b: Box, minX: real, minY: real, maxX: real, maxY: real) {
    minX <= b.x && minY <= b.y && b.x + b.w <= maxX && b.y + b.h <= maxY
  }

  ghost predicate Encloses(s: Objects, minX: real, minY: real, maxX: real, maxY: real) {
    forall o, b :: o in s && IsObjBox(o, b) ==> BoxInside(b, minX, minY, maxX, maxY)
  }

  predicate Inside(p: Point, minX: real, minY: real, maxX: real, maxY: real) {
    minX <= p.x <= maxX && minY <= p.y <= maxY
  }

  lemma AnchorsInShapeBox(s: SceneObject, target: Point)
    requires s.Shape?
    ensures Covers(ShapeBox(s), NearestAnchor(s, target))
  {
    var anchors := ShapeAnchors(s);
    assert forall k :: 0 <= k < 4 ==> Covers(ShapeBox(s), anchors[k]);
  }

  lemma ObjBoxUnique(o: SceneObject, b: Box, c: Box)
    requires IsObjBox(o, b) && IsObjBox(o, c)
    ensures b == c
  {
  }

  lemma BoundShapeInScene(scene: Objects, end: Option<string>)
    requires BoundShape(scene, end).Some?
    ensures BoundShape(scene, end).value in scene
  {
  }

  lemma ConnectorBox(c: SceneObject) returns (b: Box)
    requires c.Connector?
    ensures IsObjBox(c, b) && Covers(b, Point(c.x1, c.y1)) && Covers(b, Point(c.x2, c.y2))
  {
    b := Box(Min(c.x1, c.x2), Min(c.y1, c.y2), Abs(c.x2 - c.x1), Abs(c.y2 - c.y1));
    var ends := [Point(c.x1, c.y1), Point(c.x2, c.y2)];
    assert ends[0] in ends && ends[1] in ends;
  }

  /** A frame around every object's own box also holds every end as drawn, bound or loose. */
  lemma EnclosedEnds(s: Objects, c: SceneObject, minX: real, minY: real, maxX: real, maxY: real)
    requires Encloses(s, minX, minY, maxX, maxY) && c in s && c.Connector?
    ensures Inside(ResolveEnds(s, c).a, minX, minY, maxX, maxY)
    ensures Inside(ResolveEnds(s, c).b, minX, minY, maxX, maxY)
  {
    var own := ConnectorBox(c);
    assert BoxInside(own, minX, minY, maxX, maxY);
    var fs, ts := BoundShape(s, c.fromRef), BoundShape(s, c.toRef);
    if fs.Some? {
      BoundShapeInScene(s, c.fromRef);
      assert BoxInside(ShapeBox(fs.value), minX, minY, maxX, maxY);
      AnchorsInShapeBox(fs.value, if ts.Some? then ShapeCenter(ts.value) else Point(c.x2, c.y2));
    }
    if ts.Some? {
      BoundShapeInScene(s, c.toRef);
      assert BoxInside(ShapeBox(ts.value), minX, minY, maxX, maxY);
      AnchorsInShapeBox(ts.value, if fs.Some? then ShapeCenter(fs.value) else Point(c.x1, c.y1));
    }
  }

  /** Each side of the frame is a side of some object's box. */
  ghost predicate Touches(s: Objects, minX: real, minY: real, maxX: real, maxY: real) {
    && (exists o, b :: o in s && IsObjBox(o, b) && b.x == minX)
    && (exists o, b :: o in s && IsObjBox(o, b) && b.y == minY)
    && (exists o, b :: o in s && IsObjBox(o, b) && b.x + b.w == maxX)
    && (exists o, b :: o in s && IsObjBox(o, b) && b.y + b.h == maxY)
  }

  ghost predicate HoldsEnds(s: Objects, minX: real, minY: real, maxX: real, maxY: real) {
    forall c :: c in s && c.Connector? ==>
      && Inside(ResolveEnds(s, c).a, minX, minY, maxX, maxY)
      && Inside(ResolveEnds(s, c).b, minX, minY, maxX, maxY)
  }

  lemma EnclosureHoldsEnds(s: Objects, minX: real, minY: real, maxX: real, maxY: real)
    requires Encloses(s, minX, minY, maxX, maxY)
    ensures HoldsEnds(s, minX, minY, maxX, maxY)
  {
    forall c | c in s && c.Connector?
      ensures Inside(ResolveEnds(s, c).a, minX, minY, maxX, maxY) && Inside(ResolveEnds(s, c).b, minX, minY, maxX, maxY)
    {
      EnclosedEnds(s, c, minX, minY, maxX, maxY);
    }
  }

  lemma FirstEnclosure(s: Objects, b: Box)
    requires |s| > 0 && IsObjBox(s[0], b)
    ensures Encloses(s[..1], b.x, b.y, b.x + b.w, b.y + b.h)
  {
    forall o, c | o in s[..1] && IsObjBox(o, c) ensures BoxInside(c, b.x, b.y, b.x + b.w, b.y + b.h) {
      ObjBoxUnique(s[0], b, c);
    }
  }

  lemma ExtendEnclosure(s: Objects, i: nat, b: Box, minX: real, minY: real, maxX: real, maxY: real)
    requires i < |s| && IsObjBox(s[i], b) && Encloses(s[..i], minX, minY, maxX, maxY)
    ensures Encloses(s[..i + 1], Min(minX, b.x), Min(minY, b.y), Max(maxX, b.x + b.w), Max(maxY, b.y + b.h))
  {
    forall o, c | o in s[..i + 1] && IsObjBox(o, c)
      ensures BoxInside(c, Min(minX, b.x), Min(minY, b.y), Max(maxX, b.x + b.w), Max(maxY, b.y + b.h))
    {
      if o in s[..i] {
        assert BoxInside(c, minX, minY, maxX, maxY);
      } else {
        ObjBoxUnique(s[i], b, c);
      }
    }
  }

  datatype Frame = Frame(minX: real, minY: real, maxX: real, maxY: real)

  const EXPORT_PAD := 48.0

  /** The frame that exportImage draws, or None for an empty board. */
  method ExportFrame(s: Objects) returns (f: Option<Frame>)
    requires StrokesNonempty(s)
    ensures f.None? <==> s == []
    ensures f.Some? ==>
              var g := f.value;
              && Encloses(s, g.minX + 48.0, g.minY + 48.0, g.maxX - 48.0, g.maxY - 48.0)
              && Touches(s, g.minX + 48.0, g.minY + 48.0, g.maxX - 48.0, g.maxY - 48.0)
              && HoldsEnds(s, g.minX + 48.0, g.minY + 48.0, g.maxX - 48.0, g.maxY - 48.0)
  {
    if s == [] {
      return None;
    }
    var b := ObjBBox(s[0]);
    var minX, minY, maxX, maxY := b.x, b.y, b.x + b.w, b.y + b.h;
    assert s[0] in s;
    FirstEnclosure(s, b);
    for i := 1 to |s|
      invariant Encloses(s[..i], minX, minY, maxX, maxY)
      invariant Touches(s, minX, minY, maxX, maxY)
    {
      b := ObjBBox(s[i]);
      assert s[i] in s;
      ExtendEnclosure(s, i, b, minX, minY, maxX, maxY);
      minX, minY, maxX, maxY := Min(minX, b.x), Min(minY, b.y), Max(maxX, b.x + b.w), Max(maxY, b.y + b.h);
    }
    assert s[..|s|] == s;
    EnclosureHoldsEnds(s, minX, minY, maxX, maxY);
    f := Some(Frame(minX - EXPORT_PAD, minY - EXPORT_PAD, maxX + EXPORT_PAD, maxY + EXPORT_PAD));
  }
}
