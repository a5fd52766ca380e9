/**
 * What the editor's gestures come to, in coordinates: each law follows a gesture from the press
 * over any number of pointer moves to the release, whatever its handlers are made of.
 */
module Handling {
  import opened Wrappers
  import opened Protocol
  import opened Sequences
  import opened Scene
  import opened Geometry
  import opened ZOrder
  import opened Viewport
  import opened Gestures
  import opened EditorInvariant
  import opened MirrorLimits

  // ---- what lies at a point ----

  /** The point is in the shape's rectangle, grown by m on every side. */
  predicate Under(o: SceneObject, p: Point, m: real) {
    o.Shape? && Left(o) - m <= p.x <= Right(o) + m && Top(o) - m <= p.y <= Bottom(o) + m
  }

  /** Position i holds the last shape of the scene whose grown rectangle has the point. */
  predicate LastUnder(s: Objects, p: Point, m: real, i: int) {
    0 <= i < |s| && Under(s[i], p, m) && forall j :: i < j < |s| ==> !Under(s[j], p, m)
  }

  lemma {:induction false} ShapeAtExactly(s: Objects, p: Point, m: real)
    ensures var hit := ShapeAt(s, p, m);
      if hit.None? then forall i :: 0 <= i < |s| ==> !Under(s[i], p, m)
      else exists i :: LastUnder(s, p, m, i) && s[i] == hit.value
  {
    if s != [] {
      var n := |s| - 1;
      ShapeAtExactly(s[..n], p, m);
      assert Under(s[n], p, m) <==> s[n].Shape? && InBox(ShapeBox(s[n]), p, m);
      hide Under, InBox, ShapeBox;
      if Under(s[n], p, m) {
        assert LastUnder(s, p, m, n);
      } else if ShapeAt(s, p, m).Some? {
        var i :| LastUnder(s[..n], p, m, i) && s[..n][i] == ShapeAt(s, p, m).value;
        assert LastUnder(s, p, m, i);
      }
    }
  }

  /** The reference that an end dropped at p gets: to the last shape there, if there is one. */
  ghost predicate RefersTo(s: Objects, p: Point, m: real, boundTo: Option<string>) {
    if boundTo.None? then forall i :: 0 <= i < |s| ==> !Under(s[i], p, m)
    else exists i :: LastUnder(s, p, m, i) && s[i].id == boundTo.value
  }

  lemma RefAtExactly(s: Objects, p: Point, m: real)
    ensures RefersTo(s, p, m, RefAt(s, p, m))
  {
    ShapeAtExactly(s, p, m);
    hide ShapeAt, Under;
  }

  /** The object at this position is hit, and the gesture has not erased it before. */
  predicate HitAfresh(s: Objects, erased: set<string>, p: Point, pad: real, i: nat) {
    i < |s| && s[i].id !in erased && HitTest(s, s[i], p, pad)
  }

  /** `at` names, in scene order, exactly the objects newly hit among the first n. */
  ghost predicate NewlyHit(s: Objects, erased: set<string>, p: Point, pad: real, n: nat, at: seq<nat>) {
    && (forall i: nat {:trigger i in at} :: i in at <==> i < n && HitAfresh(s, erased, p, pad, i))
    && (forall k, l :: 0 <= k < l < |at| ==> at[k] < at[l])
  }

  lemma InSnoc(at: seq<nat>, n: nat)
    ensures forall j: nat :: j in at + [n] <==> j in at || j == n
  {
  }

  /** The ids are those of the objects at these positions. */
  ghost predicate Names(ids: seq<string>, s: Objects, at: seq<nat>) {
    |ids| == |at| && forall k :: 0 <= k < |at| ==> at[k] < |s| && ids[k] == s[at[k]].id
  }

  lemma NewlyHitSnoc(s: Objects, erased: set<string>, p: Point, pad: real, n: nat, at: seq<nat>)
    requires 0 < n <= |s| && NewlyHit(s, erased, p, pad, n - 1, at)
    ensures NewlyHit(s, erased, p, pad, n,
                     if HitAfresh(s, erased, p, pad, n - 1) then at + [n - 1] else at)
  {
    hide HitAfresh;
    InSnoc(at, n - 1);
    forall k | 0 <= k < |at| ensures at[k] < n - 1 {
      assert at[k] in at;
    }
  }

  lemma HitBefore(s: Objects, erased: set<string>, p: Point, pad: real, n: nat, at: seq<nat>)
    requires UniqueIds(s) && n < |s| && NewlyHit(s, erased, p, pad, n, at)
    requires Names(HitIds(s, erased, p, pad, n), s, at)
    ensures s[n].id !in HitIds(s, erased, p, pad, n)
  {
    hide HitAfresh, HitIds;
    forall k | 0 <= k < |at| ensures s[at[k]].id != s[n].id {
      assert at[k] in at;
    }
  }

  lemma HitIdsNext(s: Objects, erased: set<string>, p: Point, pad: real, n: nat)
    requires n < |s| && s[n].id !in HitIds(s, erased, p, pad, n)
    ensures HitIds(s, erased, p, pad, n + 1)
         == HitIds(s, erased, p, pad, n) + if HitAfresh(s, erased, p, pad, n) then [s[n].id] else []
  {
    hide HitTest;
  }

  lemma NamesSnoc(ids: seq<string>, s: Objects, at: seq<nat>, n: nat)
    requires Names(ids, s, at) && n < |s|
    ensures Names(ids + [s[n].id], s, at + [n]) && ids + [] == ids
  {
  }

  lemma NoneHit(s: Objects, erased: set<string>, p: Point, pad: real)
    ensures NewlyHit(s, erased, p, pad, 0, []) && Names(HitIds(s, erased, p, pad, 0), s, [])
  {
    hide HitAfresh;
  }

  lemma {:induction false} HitIdsExactly(s: Objects, erased: set<string>, p: Point, pad: real, n: nat) returns (at: seq<nat>)
    requires n <= |s| && UniqueIds(s)
    ensures NewlyHit(s, erased, p, pad, n, at) && Names(HitIds(s, erased, p, pad, n), s, at)
  {
    hide *;
    at := [];
    if n == 0 {
      NoneHit(s, erased, p, pad);
    } else {
      at := HitIdsExactly(s, erased, p, pad, n - 1);
      NewlyHitSnoc(s, erased, p, pad, n, at);
      HitBefore(s, erased, p, pad, n - 1, at);
      HitIdsNext(s, erased, p, pad, n - 1);
      NamesSnoc(HitIds(s, erased, p, pad, n - 1), s, at, n - 1);
      if HitAfresh(s, erased, p, pad, n - 1) {
        at := at + [n - 1];
      }
    }
  }

  // ---- erasing ----

  /** The touch took out exactly what it newly hit within 8 pixels, and told it in one message, in scene order. */
  ghost predicate Erases(st: State, t: State, wp: Point, at: seq<nat>, ids: seq<string>)
    requires ValidView(st.view)
  {
    && NewlyHit(st.scene, st.erased, wp, 8.0 / st.view.scale, |st.scene|, at) && Names(ids, st.scene, at)
    && t == if ids == [] then st
            else st.(scene := Apply(st.scene, Erase(ids)), erased := st.erased + ToSet(ids), log := st.log + [Erase(ids)])
  }

  lemma EraseExactly(st: State, wp: Point) returns (at: seq<nat>, ids: seq<string>)
    requires ValidView(st.view) && UniqueIds(st.scene)
    ensures Erases(st, EraseAt(st, wp), wp, at, ids)
  {
    at := HitIdsExactly(st.scene, st.erased, wp, 8.0 / st.view.scale, |st.scene|);
    ids := HitIds(st.scene, st.erased, wp, 8.0 / st.view.scale, |st.scene|);
    hide HitIds, NewlyHit, Without, UniqueIds;
  }

  lemma EraserPresses(st: State, p: Press) returns (at: seq<nat>, ids: seq<string>)
    requires Inv(st) && Possible(st, PointerDown(p)) && p.tool.EraserTool? && !p.pans
    ensures ValidView(CommitEdit(st).view)
    ensures var c := CommitEdit(st);
      Erases(c.(action := Some(Erasing), erased := {}), Step(st, PointerDown(p)), ToWorld(c.view, p.sx, p.sy), at, ids)
  {
    CommitEditInv(st);
    var c := CommitEdit(st);
    assert ValidView(c.view) && UniqueIds(c.scene);
    assert Step(st, PointerDown(p)) == EraseAt(c.(action := Some(Erasing), erased := {}), ToWorld(c.view, p.sx, p.sy));
    hide CommitEdit, ToWorld, EraseAt, Inv, Step, Erases;
    at, ids := EraseExactly(c.(action := Some(Erasing), erased := {}), ToWorld(c.view, p.sx, p.sy));
  }

  lemma EraserMoves(st: State, sx: real, sy: real) returns (at: seq<nat>, ids: seq<string>)
    requires Inv(st) && st.action == Some(Erasing)
    ensures Erases(st, Step(st, PointerMove(sx, sy)), ToWorld(st.view, sx, sy), at, ids)
    ensures Step(st, PointerUp) == st.(action := None)
  {
    assert ValidView(st.view) && UniqueIds(st.scene) && Step(st, PointerMove(sx, sy)) == EraseAt(st, ToWorld(st.view, sx, sy));
    assert Step(st, PointerUp) == st.(action := None);
    hide ToWorld, EraseAt, Inv, Step, Erases;
    at, ids := EraseExactly(st, ToWorld(st.view, sx, sy));
  }

  // ---- grabbing ----

  /** A loose connector end in the grabbed shape's grown rectangle is bound to the shape; nothing else changes. */
  predicate BoundByGrab(shape: SceneObject, m: real, before: SceneObject, after: SceneObject) {
    if !before.Connector? then after == before
    else
      && after.Connector? && after.(fromRef := before.fromRef, toRef := before.toRef) == before
      && after.fromRef == (if before.fromRef.None? && Under(shape, Point(before.x1, before.y1), m) then Some(shape.id) else before.fromRef)
      && after.toRef == (if before.toRef.None? && Under(shape, Point(before.x2, before.y2), m) then Some(shape.id) else before.toRef)
  }

  lemma GrabExactly(st: State, o: SceneObject, wp: Point)
    requires ValidView(st.view)
    ensures var t, m := BeginMove(st, o, wp), 8.0 / st.view.scale;
      && |t.scene| == |st.scene|
      && (forall i :: 0 <= i < |st.scene| ==>
            if o.Shape? then BoundByGrab(o, m, st.scene[i], t.scene[i]) else t.scene[i] == st.scene[i])
      && t.move.Some? && t.move.value.start == wp && t.move.value.obj == o.id && !t.move.value.moved && t.move.value.orig == o
      && t.log == st.log
  {
  }

  /** The connectors whose binding a grab tells at its release are those that it has changed. */
  lemma GrabTells(st: State, o: SceneObject, wp: Point, id: string)
    requires ValidView(st.view) && UniqueIds(st.scene)
    ensures var t := BeginMove(st, o, wp);
      id in t.move.value.rebound <==> exists i :: 0 <= i < |st.scene| && st.scene[i].id == id && t.scene[i] != st.scene[i]
  {
    if o.Shape? {
      ReboundExact(st.scene, o, BIND_MARGIN_PX / st.view.scale, |st.scene|, id);
      hide Rebound;
    }
  }

  lemma NearIsWithin(p: Point, q: Point, t: real)
    ensures Near(p, q, t) <==> Within(Dist2(p, q), t)
  {
  }

  /** An end of the selected connector is grabbed within 12 pixels of where it is drawn, the first end before the second. */
  lemma GrabbedEndExactly(st: State, wp: Point, i: int)
    requires ValidView(st.view) && UniqueIds(st.scene)
    ensures GrabbedEnd(st, wp).Some? ==> exists j :: 0 <= j < |st.scene| && st.selected == Some(st.scene[j].id) && st.scene[j].Connector?
    ensures 0 <= i < |st.scene| && st.selected == Some(st.scene[i].id) && st.scene[i].id != "" && st.scene[i].Connector? ==>
      var ends, r := ResolveEnds(st.scene, st.scene[i]), 12.0 / st.view.scale;
      GrabbedEnd(st, wp)
      == if Near(wp, ends.a, r) then Some(FirstEnd) else if Near(wp, ends.b, r) then Some(SecondEnd) else None
  {
    hide ResolveEnds, Within, Dist2, Near, UniqueIds, IndexOf;
    var id := if st.selected.Some? then st.selected.value else "";
    if id in Ids(st.scene) {
      var j := FoundIsAt(st.scene, id);
      if 0 <= i < |st.scene| && st.scene[i].id == id {
        FindAt(st.scene, i);
      }
      if st.scene[j].Connector? {
        NearIsWithin(wp, ResolveEnds(st.scene, st.scene[j]).a, 12.0 / st.view.scale);
        NearIsWithin(wp, ResolveEnds(st.scene, st.scene[j]).b, 12.0 / st.view.scale);
      }
    } else {
      assert Find(st.scene, id).None?;
      if 0 <= i < |st.scene| { IdsAt(st.scene, i); }
    }
  }

  // ---- dragging an object ----

  /** r is o at the place of orig displaced by d: nothing else has changed but a connector's bindings, which are gone. */
  predicate Displaced(o: SceneObject, orig: SceneObject, d: Point, r: SceneObject)
    requires SameKind(o, orig)
  {
    match o
    case Shape(_, _, _, _, _, _, _, _, _, _, _) => r == o.(x := orig.x + d.x, y := orig.y + d.y)
    case Text(_, _, _, _, _, _, _) => r == o.(x := orig.x + d.x, y := orig.y + d.y)
    case Connector(_, _, _, _, _, _, _, _, _, _, _) =>
      r == o.(x1 := orig.x1 + d.x, y1 := orig.y1 + d.y, x2 := orig.x2 + d.x, y2 := orig.y2 + d.y, fromRef := None, toRef := None)
    case Stroke(_, _, _, _, _) =>
      && r.Stroke? && r.(points := o.points) == o && |r.points| == |orig.points|
      && forall i :: 0 <= i < |orig.points| ==> r.points[i].x == orig.points[i].x + d.x && r.points[i].y == orig.points[i].y + d.y
  }

  lemma MoveWrites(st: State, sx: real, sy: real) returns (r: SceneObject)
    requires Inv(st) && st.action == Some(Moving)
    ensures var m, wp, o := st.move.value, ToWorld(st.view, sx, sy), Present(st.scene, st.loose, st.move.value.obj);
      && UniqueIds(st.scene) && o.Some? && SameKind(o.value, m.orig) && r.id == m.obj
      && Displaced(o.value, m.orig, Point(wp.x - m.start.x, wp.y - m.start.y), r)
      && Step(st, PointerMove(sx, sy))
         == st.(scene := WriteHeld(st, r).scene, loose := WriteHeld(st, r).loose, move := Some(m.(moved := m.moved || wp != m.start)))
  {
    var wp := ToWorld(st.view, sx, sy);
    r := Dragged(st, wp);
    DraggedFacts(st, wp);
    assert Step(st, PointerMove(sx, sy)) == ApplyMove(st, wp);
    assert WriteHeld(st, r) == st.(scene := WriteHeld(st, r).scene, loose := WriteHeld(st, r).loose);
    MovedIsDisplaced(Present(st.scene, st.loose, st.move.value.obj).value, st.move.value.orig,
                     Point(wp.x - st.move.value.start.x, wp.y - st.move.value.start.y));
    hide ToWorld, Moved, Step, ApplyMove, WriteHeld, Present, Displaced;
  }

  /** The object in hand follows the pointer from where it was grabbed, wherever else it has been. */
  lemma MoveDisplaces(st: State, sx: real, sy: real)
    requires Inv(st) && st.action == Some(Moving)
    ensures var m, wp, t := st.move.value, ToWorld(st.view, sx, sy), Step(st, PointerMove(sx, sy));
      var before, after := Present(st.scene, st.loose, m.obj), Present(t.scene, t.loose, m.obj);
      && before.Some? && after.Some? && SameKind(before.value, m.orig)
      && Displaced(before.value, m.orig, Point(wp.x - m.start.x, wp.y - m.start.y), after.value)
      && t.move == Some(m.(moved := m.moved || wp != m.start))
      && (forall id :: id != m.obj ==> Present(t.scene, t.loose, id) == Present(st.scene, st.loose, id))
      && t.log == st.log && t.view == st.view && t.action == st.action && t.loose.Keys == st.loose.Keys
  {
    hide *;
    var r := MoveWrites(st, sx, sy);
    WriteHeldKeeps(st, r);
  }

  lemma MovedIsDisplaced(o: SceneObject, orig: SceneObject, d: Point)
    requires SameKind(o, orig)
    ensures Displaced(o, orig, d, Moved(o, orig, d.x, d.y))
  {
  }

  function Offset(p: Point, from: Point): Point { Point(p.x - from.x, p.y - from.y) }

  lemma DisplacedAgain(orig: SceneObject, o: SceneObject, d: Point, e: Point, r: SceneObject)
    requires SameKind(o, orig) && Displaced(orig, orig, d, o) && Displaced(o, orig, e, r)
    ensures Displaced(orig, orig, e, r)
  {
  }

  /** With nothing taken out of the scene, a move rewrites the dragged object where it lies. */
  lemma MoveInPlace(st: State, sx: real, sy: real, i: int)
    requires Inv(st) && st.action == Some(Moving) && st.loose == map[]
    requires 0 <= i < |st.scene| && st.scene[i].id == st.move.value.obj
    ensures var m, wp, t := st.move.value, ToWorld(st.view, sx, sy), Step(st, PointerMove(sx, sy));
      && |t.scene| == |st.scene| && t.scene == st.scene[i := t.scene[i]] && t.scene[i].id == m.obj
      && SameKind(st.scene[i], m.orig) && Displaced(st.scene[i], m.orig, Offset(wp, m.start), t.scene[i])
      && t == st.(scene := t.scene, move := Some(m.(moved := m.moved || wp != m.start)))
  {
    var r := MoveWrites(st, sx, sy);
    FindAt(st.scene, i);
    UpsertInPlace(st.scene, r);
    assert forall j :: 0 <= j < i ==> st.scene[j].id != st.scene[i].id;
    hide Inv, ToWorld, Step, Displaced, Upsert, UniqueIds, Find;
  }

  /** Some move of the pointer was away from where it was pressed. */
  ghost predicate Strays(v: View, start: Point, to: seq<(real, real)>)
    requires ValidView(v)
  {
    exists k :: 0 <= k < |to| && ToWorld(v, to[k].0, to[k].1) != start
  }

  /** Where the pointer is after the moves, in the world. */
  function LastPoint(v: View, start: Point, to: seq<(real, real)>): Point
    requires ValidView(v)
  {
    if to == [] then start else ToWorld(v, to[|to| - 1].0, to[|to| - 1].1)
  }

  lemma StraysOn(v: View, start: Point, to: seq<(real, real)>)
    requires ValidView(v) && to != []
    ensures Strays(v, start, to) <==> Strays(v, start, to[..|to| - 1]) || LastPoint(v, start, to) != start
  {
    hide ToWorld;
    var n := |to| - 1;
    if Strays(v, start, to[..n]) {
      var k :| 0 <= k < n && ToWorld(v, to[..n][k].0, to[..n][k].1) != start;
      assert ToWorld(v, to[k].0, to[k].1) != start;
    }
    if Strays(v, start, to) && LastPoint(v, start, to) == start {
      var k :| 0 <= k < |to| && ToWorld(v, to[k].0, to[k].1) != start;
      assert k < n && ToWorld(v, to[..n][k].0, to[..n][k].1) != start;
    }
  }

  /** Whatever the path: the dragged object lies as far from its place as the last point from the first. */
  lemma {:induction false} DragExactly(st: State, to: seq<(real, real)>, i: int)
    requires Inv(st) && st.action == Some(Moving) && st.loose == map[]
    requires 0 <= i < |st.scene| && st.scene[i].id == st.move.value.obj && st.scene[i] == st.move.value.orig && !st.move.value.moved
    ensures var m, t := st.move.value, DragOn(st, to);
      && |t.scene| == |st.scene| && t.scene == st.scene[i := t.scene[i]] && t.scene[i].id == m.obj
      && (if to == [] then t.scene[i] == m.orig
          else Displaced(m.orig, m.orig, Offset(LastPoint(st.view, m.start, to), m.start), t.scene[i]))
      && t == st.(scene := t.scene, move := Some(m.(moved := Strays(st.view, m.start, to))))
  {
    var m := st.move.value;
    assert ValidView(st.view) && m.orig.id == m.obj;
    hide Inv, Displaced, Step, ToWorld;
    if to != [] {
      var before, last := to[..|to| - 1], to[|to| - 1];
      DragExactly(st, before, i);
      StraysOn(st.view, m.start, to);
      var was := DragOn(st, before);
      MoveInPlace(was, last.0, last.1, i);
      if before != [] {
        DisplacedAgain(m.orig, was.scene[i], Offset(LastPoint(st.view, m.start, before), m.start),
                       Offset(LastPoint(st.view, m.start, to), m.start), DragOn(st, to).scene[i]);
      }
      assert DragOn(st, to) == Step(was, PointerMove(last.0, last.1));
    }
  }

  /** A press, any number of moves and the release. */
  ghost function Gesture(st: State, p: Press, to: seq<(real, real)>): (r: State)
    requires Inv(st) && Possible(st, PointerDown(p))
    ensures Inv(r)
  {
    StepInv(st, PointerDown(p));
    var dragged := DragOn(Step(st, PointerDown(p)), to);
    StepInv(dragged, PointerUp);
    Step(dragged, PointerUp)
  }

  /** The press of the select tool at an object grabs the one drawn last there, if no connector end is grabbed. */
  lemma PressGrabs(st: State, p: Press, i: int)
    requires Inv(st) && Possible(st, PointerDown(p)) && p.tool.SelectTool? && !p.pans
    requires var c := CommitEdit(st); var wp := ToWorld(c.view, p.sx, p.sy);
      GrabbedEnd(c, wp).None? && DrawnLastOfHits(c.scene, wp, 6.0 / c.view.scale, i)
    ensures var c := CommitEdit(st);
      Step(st, PointerDown(p))
      == BeginMove(c.(selected := Some(c.scene[i].id), action := Some(Moving)), c.scene[i], ToWorld(c.view, p.sx, p.sy))
  {
    var c := CommitEdit(st);
    var wp := ToWorld(c.view, p.sx, p.sy);
    assert Step(st, PointerDown(p)) == SelectDown(c, wp) && ValidView(c.view);
    hide CommitEdit, Inv, ToWorld, DrawnLastOfHits, SelectDown, GrabbedEnd, BeginMove, TopmostAt, Step;
    SelectCases(c, wp);
    TopmostIs(c.scene, wp, 6.0 / c.view.scale, i);
  }

  lemma TopmostIs(s: Objects, p: Point, pad: real, i: int)
    requires DrawnLastOfHits(s, p, pad, i)
    ensures 0 <= i < |s| && TopmostAt(s, p, pad) == Some(s[i])
  {
    hide HitTest, Before, TopmostAt;
    TopmostExactly(s, p, pad);
    if TopmostAt(s, p, pad).Some? {
      var j :| DrawnLastOfHits(s, p, pad, j) && s[j] == TopmostAt(s, p, pad).value;
      OneTopmost(s, p, pad, i, j);
    }
  }

  /** `at` names, in order, exactly the positions other than i that have changed. */
  ghost predicate OthersChanged(before: Objects, after: Objects, i: int, at: seq<nat>) {
    && |after| == |before|
    && (forall k :: 0 <= k < |at| ==> at[k] < |before|)
    && (forall k, l :: 0 <= k < l < |at| ==> at[k] < at[l])
    && (forall j: nat :: j in at <==> j < |before| && j != i && after[j] != before[j])
  }

  /** The grab changes the object at this position. */
  predicate GrabBinds(s: Objects, shape: SceneObject, m: real, j: nat)
    requires shape.Shape?
  {
    j < |s| && BindLoose(s[j], shape, m) != s[j]
  }

  ghost predicate GrabbedAt(s: Objects, shape: SceneObject, m: real, n: nat, at: seq<nat>)
    requires shape.Shape?
  {
    && (forall j: nat {:trigger j in at} :: j in at <==> j < n && GrabBinds(s, shape, m, j))
    && (forall k, l :: 0 <= k < l < |at| ==> at[k] < at[l])
  }

  lemma NoneGrabbed(s: Objects, shape: SceneObject, m: real)
    requires shape.Shape?
    ensures GrabbedAt(s, shape, m, 0, []) && Names(Rebound(s, shape, m, 0), s, [])
  {
    hide GrabBinds;
  }

  lemma GrabbedNext(s: Objects, shape: SceneObject, m: real, n: nat, at: seq<nat>)
    requires shape.Shape? && n < |s| && GrabbedAt(s, shape, m, n, at)
    ensures GrabbedAt(s, shape, m, n + 1, if GrabBinds(s, shape, m, n) then at + [n] else at)
    ensures Rebound(s, shape, m, n + 1) == Rebound(s, shape, m, n) + if GrabBinds(s, shape, m, n) then [s[n].id] else []
  {
    assert GrabBinds(s, shape, m, n) <==> BindLoose(s[n], shape, m) != s[n];
    hide GrabBinds, BindLoose;
    InSnoc(at, n);
    forall k | 0 <= k < |at| ensures at[k] < n {
      assert at[k] in at;
    }
  }

  lemma {:induction false} ReboundInOrder(s: Objects, shape: SceneObject, m: real, n: nat) returns (at: seq<nat>)
    requires shape.Shape? && n <= |s|
    ensures GrabbedAt(s, shape, m, n, at) && Names(Rebound(s, shape, m, n), s, at)
  {
    hide *;
    at := [];
    if n == 0 {
      NoneGrabbed(s, shape, m);
    } else {
      at := ReboundInOrder(s, shape, m, n - 1);
      GrabbedNext(s, shape, m, n - 1, at);
      NamesSnoc(Rebound(s, shape, m, n - 1), s, at, n - 1);
      at := if GrabBinds(s, shape, m, n - 1) then at + [n - 1] else at;
    }
  }

  ghost function AddsAt(s: Objects, at: seq<nat>): seq<Msg>
    requires forall k :: 0 <= k < |at| ==> at[k] < |s|
  {
    seq(|at|, k requires 0 <= k < |at| => Add(s[at[k]]))
  }

  /** A broadcast of objects that lie in the scene carries them as they are there. */
  lemma {:induction false} BroadcastsAt(s: Objects, ids: seq<string>, at: seq<nat>)
    requires UniqueIds(s) && Names(ids, s, at)
    ensures Broadcasts(s, map[], ids) == AddsAt(s, at)
  {
    if ids != [] {
      var n := |ids| - 1;
      BroadcastsAt(s, ids[..n], at[..n]);
      FindAt(s, at[n]);
      hide Find;
    }
  }

  /** The connectors whose binding the release tells are those that the grab has changed. */
  lemma GrabChanges(st: State, o: SceneObject, wp: Point, i: int) returns (at: seq<nat>)
    requires ValidView(st.view) && 0 <= i < |st.scene| && st.scene[i] == o
    ensures var t := BeginMove(st, o, wp);
      OthersChanged(st.scene, t.scene, i, at) && Names(t.move.value.rebound, st.scene, at)
  {
    at := [];
    if o.Shape? {
      at := ReboundInOrder(st.scene, o, 8.0 / st.view.scale, |st.scene|);
      hide BindLoose, Names;
      assert forall k :: 0 <= k < |at| ==> at[k] in at;
      assert BindLoose(o, o, 8.0 / st.view.scale) == o;
    }
  }

  lemma ReleaseTells(st: State, i: int, at: seq<nat>)
    requires Inv(st) && st.action == Some(Moving) && st.loose == map[]
    requires 0 <= i < |st.scene| && st.scene[i].id == st.move.value.obj
    requires Names(st.move.value.rebound, st.scene, at)
    ensures Step(st, PointerUp)
      == st.(action := None, temp := None, move := None,
             log := st.log + (if st.move.value.moved then [Add(st.scene[i])] else []) + AddsAt(st.scene, at))
  {
    var m := st.move.value;
    assert Step(st, PointerUp)
      == st.(action := None, temp := None, move := None, log := st.log + Broadcasts(st.scene, map[], ReleasedIds(m)));
    assert UniqueIds(st.scene);
    hide Step, Inv, UniqueIds, Broadcasts, AddsAt;
    ToldAt(st.scene, m, i, at);
    Regroup(st.log, if m.moved then [Add(st.scene[i])] else [], AddsAt(st.scene, at));
  }

  lemma NamesConcat(ids: seq<string>, more: seq<string>, s: Objects, a: seq<nat>, b: seq<nat>)
    requires Names(ids, s, a) && Names(more, s, b)
    ensures Names(ids + more, s, a + b) && AddsAt(s, a + b) == AddsAt(s, a) + AddsAt(s, b)
  {
  }

  lemma ToldAt(s: Objects, m: Move, i: int, at: seq<nat>)
    requires UniqueIds(s) && 0 <= i < |s| && s[i].id == m.obj && Names(m.rebound, s, at)
    ensures Broadcasts(s, map[], ReleasedIds(m)) == (if m.moved then [Add(s[i])] else []) + AddsAt(s, at)
  {
    hide UniqueIds, Broadcasts;
    if m.moved {
      assert AddsAt(s, [i]) == [Add(s[i])] && ReleasedIds(m) == [m.obj] + m.rebound;
      NamesConcat([m.obj], m.rebound, s, [i], at);
      hide Names, AddsAt;
      BroadcastsAt(s, [m.obj] + m.rebound, [i] + at);
    } else {
      assert ReleasedIds(m) == m.rebound;
      hide Names, AddsAt;
      BroadcastsAt(s, m.rebound, at);
    }
  }

  /** What the press that grabs an object does to the scene, and what the release will tell of it. */
  lemma PressExactly(st: State, p: Press, i: int) returns (at: seq<nat>)
    requires Inv(st) && Possible(st, PointerDown(p)) && p.tool.SelectTool? && !p.pans
    requires var c := CommitEdit(st); var wp := ToWorld(c.view, p.sx, p.sy);
      GrabbedEnd(c, wp).None? && DrawnLastOfHits(c.scene, wp, 6.0 / c.view.scale, i)
    ensures var c, t := CommitEdit(st), Step(st, PointerDown(p));
      var wp, o := ToWorld(c.view, p.sx, p.sy), c.scene[i];
      && Inv(t) && OthersChanged(c.scene, t.scene, i, at) && t.scene[i] == o
      && (forall j :: 0 <= j < |c.scene| ==> t.scene[j].id == c.scene[j].id)
      && (forall j :: 0 <= j < |c.scene| ==>
            if o.Shape? then BoundByGrab(o, 8.0 / c.view.scale, c.scene[j], t.scene[j]) else t.scene[j] == c.scene[j])
      && t.move.Some? && t.move.value.(rebound := []) == Move(wp, o.id, false, o, []) && Names(t.move.value.rebound, c.scene, at)
      && t == c.(scene := t.scene, move := t.move, selected := Some(o.id), action := Some(Moving)) && t.loose == map[]
  {
    var c := CommitEdit(st);
    var wp, o := ToWorld(c.view, p.sx, p.sy), c.scene[i];
    CommitEditInv(st);
    NothingLoose(c);
    PressGrabs(st, p, i);
    StepInv(st, PointerDown(p));
    var ready := c.(selected := Some(o.id), action := Some(Moving));
    assert ValidView(c.view);
    hide CommitEdit, Inv, ToWorld, DrawnLastOfHits, GrabbedEnd, Step, OthersChanged, Names, Possible, BindLoose, BindAll, Rebound, Under;
    GrabExactly(ready, o, wp);
    at := GrabChanges(ready, o, wp, i);
    assert BoundByGrab(o, 8.0 / c.view.scale, o, BeginMove(ready, o, wp).scene[i]) || !o.Shape?;
  }

  lemma SameElsewhere(before: Objects, mid: Objects, after: Objects, i: int, at: seq<nat>, ids: seq<string>)
    requires OthersChanged(before, mid, i, at) && |after| == |mid| && 0 <= i < |mid| && after == mid[i := after[i]]
    requires Names(ids, before, at) && forall j :: 0 <= j < |before| ==> after[j].id == before[j].id
    ensures OthersChanged(before, after, i, at) && Names(ids, after, at)
  {
  }

  /**
   * A drag from the press over any moves to the release: the object drawn last at the press is
   * displaced by the last point less the first, whatever the path between; the connectors that the
   * grab binds are bound; peers are told the object if the pointer has strayed, and those connectors.
   */
  lemma WholeDrag(st: State, p: Press, to: seq<(real, real)>, i: int) returns (at: seq<nat>)
    requires Inv(st) && Possible(st, PointerDown(p)) && p.tool.SelectTool? && !p.pans
    requires var c := CommitEdit(st); var wp := ToWorld(c.view, p.sx, p.sy);
      GrabbedEnd(c, wp).None? && DrawnLastOfHits(c.scene, wp, 6.0 / c.view.scale, i)
    ensures ValidView(CommitEdit(st).view)
    ensures var c, t := CommitEdit(st), Gesture(st, p, to);
      var wp, o := ToWorld(c.view, p.sx, p.sy), c.scene[i];
      && OthersChanged(c.scene, t.scene, i, at)
      && (if to == [] then t.scene[i] == o
          else Displaced(o, o, Offset(LastPoint(c.view, wp, to), wp), t.scene[i]))
      && (forall j :: 0 <= j < |c.scene| && j != i ==>
            if o.Shape? then BoundByGrab(o, 8.0 / c.view.scale, c.scene[j], t.scene[j]) else t.scene[j] == c.scene[j])
      && t.log == c.log + (if Strays(c.view, wp, to) then [Add(t.scene[i])] else []) + AddsAt(t.scene, at)
      && t.action.None? && t.selected == Some(o.id) && t.view == c.view
  {
    var c := CommitEdit(st);
    var wp, o := ToWorld(c.view, p.sx, p.sy), c.scene[i];
    at := PressExactly(st, p, i);
    var grabbed := Step(st, PointerDown(p));
    var dragged := DragOn(grabbed, to);
    assert Gesture(st, p, to) == Step(dragged, PointerUp);
    assert ValidView(c.view);
    hide *;
    DragExactly(grabbed, to, i);
    SameElsewhere(c.scene, grabbed.scene, dragged.scene, i, at, grabbed.move.value.rebound);
    ReleaseTells(dragged, i, at);
  }

  // ---- drawing ----

  /** The points of the path in the world, the press first. */
  ghost predicate Traces(v: View, start: Point, to: seq<(real, real)>, points: seq<Point>)
    requires ValidView(v)
  {
    && |points| == |to| + 1 && points[0] == start
    && forall k :: 0 <= k < |to| ==> points[k + 1] == ToWorld(v, to[k].0, to[k].1)
  }

  lemma TracesOn(v: View, start: Point, to: seq<(real, real)>, points: seq<Point>)
    requires ValidView(v) && to != [] && Traces(v, start, to[..|to| - 1], points)
    ensures Traces(v, start, to, points + [ToWorld(v, to[|to| - 1].0, to[|to| - 1].1)])
  {
    hide ToWorld;
  }

  lemma PenMoves(st: State, sx: real, sy: real)
    requires Inv(st) && st.action == Some(Drawing)
    ensures var o := st.temp.value;
      Step(st, PointerMove(sx, sy)) == st.(temp := Some(o.(points := o.points + [ToWorld(st.view, sx, sy)])))
  {
  }

  lemma {:induction false} PenOn(st: State, to: seq<(real, real)>)
    requires Inv(st) && st.action == Some(Drawing) && |st.temp.value.points| == 1
    ensures var t, o := DragOn(st, to), st.temp.value;
      && t.temp.Some? && t.temp.value.Stroke? && Traces(st.view, o.points[0], to, t.temp.value.points)
      && t == st.(temp := Some(o.(points := t.temp.value.points)))
  {
    if to != [] {
      var front, last := to[..|to| - 1], to[|to| - 1];
      PenOn(st, front);
      assert ValidView(st.view);
      var was := DragOn(st, front);
      assert DragOn(st, to) == Step(was, PointerMove(last.0, last.1));
      hide *;
      PenMoves(was, last.0, last.1);
      TracesOn(st.view, st.temp.value.points[0], to, was.temp.value.points);
    }
  }

  /** A pen stroke has the points of the path, and is stored and told if the pointer has moved at all. */
  lemma PenDraws(st: State, p: Press, to: seq<(real, real)>)
    requires Inv(st) && Possible(st, PointerDown(p)) && p.tool.PenTool? && !p.pans
    ensures ValidView(CommitEdit(st).view)
    ensures var c, t := CommitEdit(st), Gesture(st, p, to);
      && (to == [] ==> t.scene == c.scene && t.log == c.log)
      && (to != [] ==> exists points ::
            && Traces(c.view, ToWorld(c.view, p.sx, p.sy), to, points)
            && var o := Stroke(p.freshId, p.color, p.width, points, None);
               t.scene == c.scene + [o] && t.log == c.log + [Add(o)])
      && t.action.None? && t.view == c.view && t.selected == c.selected
  {
    var c := CommitEdit(st);
    CommitEditInv(st);
    StepInv(st, PointerDown(p));
    var start := Step(st, PointerDown(p));
    hide CommitEdit, ToWorld, Possible;
    assert start == c.(action := Some(Drawing),
                       temp := Some(Stroke(p.freshId, p.color, p.width, [ToWorld(c.view, p.sx, p.sy)], None)));
    PenOn(start, to);
    var drawn := DragOn(start, to).temp.value;
    assert Traces(c.view, ToWorld(c.view, p.sx, p.sy), to, drawn.points);
  }

  lemma {:induction false} ResizeOn(st: State, to: seq<(real, real)>)
    requires Inv(st) && st.action == Some(Shaping)
    ensures var t, o := DragOn(st, to), st.temp.value;
      var at := LastPoint(st.view, Point(o.x + o.w, o.y + o.h), to);
      t == st.(temp := Some(o.(w := at.x - o.x, h := at.y - o.y)))
  {
    if to != [] {
      ResizeOn(st, to[..|to| - 1]);
      assert ValidView(st.view);
      hide Inv, ToWorld;
    }
  }

  /** The rectangle that two corners span, whichever way it was drawn. */
  predicate Spans(o: SceneObject, p: Point, q: Point) {
    && o.Shape?
    && o.x == (if p.x <= q.x then p.x else q.x) && o.x + o.w == (if p.x <= q.x then q.x else p.x)
    && o.y == (if p.y <= q.y then p.y else q.y) && o.y + o.h == (if p.y <= q.y then q.y else p.y)
  }

  /** A shape spans the rectangle from the press to the last point, and is stored and told if both sides exceed 4. */
  lemma ShapeDraws(st: State, p: Press, to: seq<(real, real)>)
    requires Inv(st) && Possible(st, PointerDown(p)) && p.tool.ShapeTool? && !p.pans
    ensures ValidView(CommitEdit(st).view)
    ensures var c, t := CommitEdit(st), Gesture(st, p, to);
      var wp := ToWorld(c.view, p.sx, p.sy);
      var at := LastPoint(c.view, wp, to);
      && (if (at.x > wp.x + 4.0 || at.x < wp.x - 4.0) && (at.y > wp.y + 4.0 || at.y < wp.y - 4.0) then
            exists o ::
              && Spans(o, wp, at) && t.scene == c.scene + [o] && t.log == c.log + [Add(o)]
              && o == Shape(p.freshId, p.tool.kind, o.x, o.y, o.w, o.h, p.color, p.width, None, Some(p.fill), None)
          else t.scene == c.scene && t.log == c.log)
      && t.action.None? && t.view == c.view && t.selected == c.selected
  {
    var c := CommitEdit(st);
    CommitEditInv(st);
    StepInv(st, PointerDown(p));
    var start, wp := Step(st, PointerDown(p)), ToWorld(c.view, p.sx, p.sy);
    hide CommitEdit, ToWorld, Possible, LastPoint;
    assert start == c.(action := Some(Shaping),
                       temp := Some(Shape(p.freshId, p.tool.kind, wp.x, wp.y, 0.0, 0.0, p.color, p.width, None, Some(p.fill), None)));
    ResizeOn(start, to);
    var drawn := DragOn(start, to);
    var at := LastPoint(c.view, wp, to);
    assert Point(wp.x + 0.0, wp.y + 0.0) == wp;
    assert Gesture(st, p, to) == Up(drawn);
    hide DragOn, Inv;
    assert Spans(Normalize(drawn.temp.value), wp, at);
  }

  lemma ConnectMoves(st: State, sx: real, sy: real)
    requires Inv(st) && st.action == Some(Connecting)
    ensures var o, t, wp := st.temp.value, Step(st, PointerMove(sx, sy)), ToWorld(st.view, sx, sy);
      && t.temp.Some? && t.temp.value.Connector? && RefersTo(st.scene, wp, 8.0 / st.view.scale, t.temp.value.toRef)
      && t == st.(temp := Some(o.(x2 := wp.x, y2 := wp.y, toRef := t.temp.value.toRef)))
  {
    RefAtExactly(st.scene, ToWorld(st.view, sx, sy), 8.0 / st.view.scale);
    hide RefersTo, RefAt, ToWorld;
  }

  lemma {:induction false} ConnectOn(st: State, to: seq<(real, real)>)
    requires Inv(st) && st.action == Some(Connecting)
    ensures var o, t := st.temp.value, DragOn(st, to);
      var at := LastPoint(st.view, Point(o.x2, o.y2), to);
      && t.temp.Some? && t.temp.value.Connector?
      && t == st.(temp := Some(o.(x2 := at.x, y2 := at.y, toRef := t.temp.value.toRef)))
      && (if to == [] then t.temp.value.toRef == o.toRef
          else RefersTo(st.scene, at, 8.0 / st.view.scale, t.temp.value.toRef))
  {
    if to != [] {
      var front, last := to[..|to| - 1], to[|to| - 1];
      ConnectOn(st, front);
      assert ValidView(st.view);
      var was := DragOn(st, front);
      assert DragOn(st, to) == Step(was, PointerMove(last.0, last.1));
      hide Inv, Step, DragOn, RefersTo, ToWorld;
      ConnectMoves(was, last.0, last.1);
    }
  }

  /**
   * A connector runs from the press to the last point, bound at both ends to what lies there within
   * 8 pixels; it is stored and told unless both ends are on one shape, or it is free and at most 6 long.
   */
  lemma ConnectorDraws(st: State, p: Press, to: seq<(real, real)>) returns (from: Option<string>, end: Option<string>)
    requires Inv(st) && Possible(st, PointerDown(p)) && p.tool.ConnectorTool? && !p.pans
    ensures ValidView(CommitEdit(st).view)
    ensures var c, t := CommitEdit(st), Gesture(st, p, to);
      var wp, m := ToWorld(c.view, p.sx, p.sy), 8.0 / c.view.scale;
      var at := LastPoint(c.view, wp, to);
      && RefersTo(c.scene, wp, m, from) && (if to == [] then end.None? else RefersTo(c.scene, at, m, end))
      && (if (from.Some? && from == end) || (from.None? && end.None? && Near(wp, at, 6.0)) then
            t.scene == c.scene && t.log == c.log
          else
            var o := Connector(p.freshId, wp.x, wp.y, at.x, at.y, p.color, p.width, true, from, end, None);
            t.scene == c.scene + [o] && t.log == c.log + [Add(o)])
      && t.action.None? && t.view == c.view && t.selected == c.selected
  {
    var c := CommitEdit(st);
    CommitEditInv(st);
    StepInv(st, PointerDown(p));
    var start, wp, m := Step(st, PointerDown(p)), ToWorld(c.view, p.sx, p.sy), 8.0 / c.view.scale;
    from := RefAt(c.scene, wp, m);
    RefAtExactly(c.scene, wp, m);
    hide CommitEdit, ToWorld, Possible, LastPoint, RefersTo, RefAt;
    assert start == c.(action := Some(Connecting),
                       temp := Some(Connector(p.freshId, wp.x, wp.y, wp.x, wp.y, p.color, p.width, true, from, None, None)));
    ConnectOn(start, to);
    var drawn := DragOn(start, to);
    end := drawn.temp.value.toRef;
    assert Gesture(st, p, to) == Up(drawn);
    NearIsWithin(wp, LastPoint(c.view, wp, to), 6.0);
    hide DragOn, Inv, Step, Near, Within, Dist2;
  }

  // ---- panning ----

  function LastScreen(p: Press, to: seq<(real, real)>): (real, real) {
    if to == [] then (p.sx, p.sy) else to[|to| - 1]
  }

  lemma {:induction false} PanOn(st: State, to: seq<(real, real)>)
    requires Inv(st) && st.action == Some(Panning)
    ensures var s := st.panStart;
      DragOn(st, to)
      == if to == [] then st
         else st.(view := View(s.tx + (to[|to| - 1].0 - s.sx), s.ty + (to[|to| - 1].1 - s.sy), st.view.scale))
  {
    if to != [] {
      PanOn(st, to[..|to| - 1]);
      hide Inv, ToWorld;
    }
  }

  /** A pan keeps the world point of the press under the pointer, and changes nothing but the view. */
  lemma PanDrags(st: State, p: Press, to: seq<(real, real)>)
    requires Inv(st) && Possible(st, PointerDown(p)) && (p.tool.PanTool? || p.pans) && !p.tool.TextTool?
    ensures ValidView(CommitEdit(st).view) && ValidView(Gesture(st, p, to).view)
    ensures var c, t, at := CommitEdit(st), Gesture(st, p, to), LastScreen(p, to);
      && ToWorld(t.view, at.0, at.1) == ToWorld(c.view, p.sx, p.sy) && t.view.scale == c.view.scale
      && t == c.(view := t.view, panStart := t.panStart)
  {
    var c := CommitEdit(st);
    CommitEditInv(st);
    StepInv(st, PointerDown(p));
    var start := Step(st, PointerDown(p));
    hide CommitEdit, Possible;
    assert start == c.(action := Some(Panning), panStart := PanStart(p.sx, p.sy, c.view.tx, c.view.ty));
    PanOn(start, to);
    var panned := DragOn(start, to);
    assert Gesture(st, p, to) == Up(panned) == c.(view := panned.view, panStart := start.panStart);
    hide ToWorld, Up, Step, Inv, DragOn, Gesture;
    SamePoint(c.view, panned.view, (p.sx, p.sy), LastScreen(p, to));
  }

  lemma SamePoint(v: View, w: View, from: (real, real), to: (real, real))
    requires ValidView(v) && w.scale == v.scale && to.0 - w.tx == from.0 - v.tx && to.1 - w.ty == from.1 - v.ty
    ensures ToWorld(w, to.0, to.1) == ToWorld(v, from.0, from.1)
  {
  }

  // ---- dragging a connector's end ----

  /** r is the connector c with one end at p, bound as `ref` says; the other end and the rest are as they were. */
  predicate EndAt(c: SceneObject, end: End, p: Point, ref: Option<string>, r: SceneObject) {
    && c.Connector? && r.Connector?
    && r == (if end.FirstEnd? then c.(x1 := p.x, y1 := p.y, fromRef := ref) else c.(x2 := p.x, y2 := p.y, toRef := ref))
  }

  lemma EndMoves(st: State, sx: real, sy: real, i: int) returns (ref: Option<string>)
    requires Inv(st) && st.action == Some(DraggingEnd) && st.loose == map[]
    requires 0 <= i < |st.scene| && st.scene[i].id == st.endDrag.value.c
    ensures var t, wp := Step(st, PointerMove(sx, sy)), ToWorld(st.view, sx, sy);
      && |t.scene| == |st.scene| && t == st.(scene := st.scene[i := t.scene[i]])
      && RefersTo(st.scene, wp, 8.0 / st.view.scale, ref) && EndAt(st.scene[i], st.endDrag.value.end, wp, ref, t.scene[i])
  {
    var wp, m := ToWorld(st.view, sx, sy), 8.0 / st.view.scale;
    ref := RefAt(st.scene, wp, m);
    RefAtExactly(st.scene, wp, m);
    FindAt(st.scene, i);
    UpsertInPlace(st.scene, EndMoved(st.scene[i], st.endDrag.value.end, wp, ref));
    assert forall j :: 0 <= j < i ==> st.scene[j].id != st.scene[i].id;
    hide RefersTo, RefAt, ToWorld, Upsert, UniqueIds, Find;
  }

  /** What an end is bound to depends on the shapes alone. */
  lemma SameShapes(s: Objects, t: Objects, i: int, p: Point, m: real, ref: Option<string>)
    requires 0 <= i < |s| == |t| && s[i].Connector? && t[i].Connector? && t == s[i := t[i]] && RefersTo(s, p, m, ref)
    ensures RefersTo(t, p, m, ref)
  {
    assert forall j :: 0 <= j < |s| ==> (Under(s[j], p, m) <==> Under(t[j], p, m));
    hide Under;
    if ref.Some? {
      var k :| LastUnder(s, p, m, k) && s[k].id == ref.value;
      assert LastUnder(t, p, m, k) && (k == i || t[k] == s[k]);
    }
  }

  lemma EndAgain(c: SceneObject, end: End, p: Point, q: Point, was: Option<string>, ref: Option<string>, o: SceneObject, r: SceneObject)
    requires EndAt(c, end, p, was, o) && EndAt(o, end, q, ref, r)
    ensures EndAt(c, end, q, ref, r)
  {
  }

  lemma {:induction false} EndOn(st: State, to: seq<(real, real)>, i: int) returns (ref: Option<string>)
    requires Inv(st) && st.action == Some(DraggingEnd) && st.loose == map[]
    requires 0 <= i < |st.scene| && st.scene[i].id == st.endDrag.value.c && st.scene[i].Connector?
    ensures var t, at := DragOn(st, to), LastPoint(st.view, Point(0.0, 0.0), to);
      && |t.scene| == |st.scene| && t == st.(scene := st.scene[i := t.scene[i]])
      && t.scene[i].Connector? && t.scene[i].id == st.scene[i].id
      && (if to == [] then t == st
          else RefersTo(st.scene, at, 8.0 / st.view.scale, ref) && EndAt(st.scene[i], st.endDrag.value.end, at, ref, t.scene[i]))
  {
    ref := None;
    if to != [] {
      var front, last := to[..|to| - 1], to[|to| - 1];
      var earlier := EndOn(st, front, i);
      assert ValidView(st.view);
      var was, at := DragOn(st, front), LastPoint(st.view, Point(0.0, 0.0), to);
      assert DragOn(st, to) == Step(was, PointerMove(last.0, last.1));
      hide Inv, Step, DragOn, RefersTo, ToWorld;
      ref := EndMoves(was, last.0, last.1, i);
      SameShapes(was.scene, st.scene, i, at, 8.0 / st.view.scale, ref);
      if front != [] {
        EndAgain(st.scene[i], st.endDrag.value.end, LastPoint(st.view, Point(0.0, 0.0), front), at, earlier, ref,
                 was.scene[i], DragOn(st, to).scene[i]);
      }
    }
  }

  /** A grabbed end goes to the last point, bound to what lies there within 8 pixels, and the connector is told. */
  lemma WholeEndDrag(st: State, p: Press, to: seq<(real, real)>, i: int) returns (ref: Option<string>)
    requires Inv(st) && Possible(st, PointerDown(p)) && p.tool.SelectTool? && !p.pans
    requires var c := CommitEdit(st);
      && 0 <= i < |c.scene| && c.selected == Some(c.scene[i].id)
      && GrabbedEnd(c, ToWorld(c.view, p.sx, p.sy)).Some?
    ensures ValidView(CommitEdit(st).view)
    ensures var c, t := CommitEdit(st), Gesture(st, p, to);
      var wp := ToWorld(c.view, p.sx, p.sy);
      var at := LastPoint(c.view, wp, to);
      && |t.scene| == |c.scene| && t.scene == c.scene[i := t.scene[i]]
      && (if to == [] then t.scene == c.scene
          else && RefersTo(c.scene, at, 8.0 / c.view.scale, ref)
               && EndAt(c.scene[i], GrabbedEnd(c, wp).value, at, ref, t.scene[i]))
      && t.log == c.log + [Add(t.scene[i])]
      && t.action.None? && t.view == c.view && t.selected == c.selected
  {
    var c := CommitEdit(st);
    var wp := ToWorld(c.view, p.sx, p.sy);
    CommitEditInv(st);
    NothingLoose(c);
    StepInv(st, PointerDown(p));
    FindAt(c.scene, i);
    var start := Step(st, PointerDown(p));
    assert start == c.(action := Some(DraggingEnd), endDrag := Some(EndDrag(c.scene[i].id, GrabbedEnd(c, wp).value))) && c.scene[i].Connector?;
    hide CommitEdit, ToWorld, Possible, RefersTo, GrabbedEnd, EndAt;
    ref := EndOn(start, to, i);
    var dragged := DragOn(start, to);
    assert Gesture(st, p, to) == Up(dragged);
    hide DragOn, Step;
    EndReleased(dragged, i);
  }

  lemma EndReleased(st: State, i: int)
    requires Inv(st) && st.action == Some(DraggingEnd) && st.loose == map[]
    requires 0 <= i < |st.scene| && st.scene[i].id == st.endDrag.value.c
    ensures Up(st) == st.(action := None, temp := None, endDrag := None, log := st.log + [Add(st.scene[i])])
  {
    assert [st.scene[i].id][..0] == [];
    BroadcastsAt(st.scene, [st.scene[i].id], [i]);
    assert AddsAt(st.scene, [i]) == [Add(st.scene[i])];
  }

  // ---- presses that grab nothing ----

  /** The press of the select tool where nothing lies ends any selection; with an end grabbed it keeps it. */
  lemma PressMisses(st: State, p: Press)
    requires Inv(st) && Possible(st, PointerDown(p)) && p.tool.SelectTool? && !p.pans
    requires var c := CommitEdit(st); var wp := ToWorld(c.view, p.sx, p.sy);
      GrabbedEnd(c, wp).None? && forall j :: 0 <= j < |c.scene| ==> !HitTest(c.scene, c.scene[j], wp, 6.0 / c.view.scale)
    ensures Step(st, PointerDown(p)) == CommitEdit(st).(selected := None)
  {
    var c := CommitEdit(st);
    var wp := ToWorld(c.view, p.sx, p.sy);
    assert Step(st, PointerDown(p)) == SelectDown(c, wp) && ValidView(c.view);
    hide CommitEdit, Inv, ToWorld, HitTest, SelectDown, GrabbedEnd, BeginMove, TopmostAt, Step;
    SelectCases(c, wp);
    TopmostExactly(c.scene, wp, 6.0 / c.view.scale);
  }
}
