/** What the editor's keys, clicks, wheel and incoming messages come to, whatever their handlers are made of. */
module Commands {
  import opened Wrappers
  import opened Protocol
  import opened Scene
  import opened Geometry
  import opened ZOrder
  import opened Viewport
  import opened Gestures
  import opened EditorInvariant
  import opened MirrorLimits
  import opened Handling
  import Slug

  // ---- text ----

  /** What the editor trims is the white space that board titles lose, but for U+0085 and U+FEFF. */
  lemma WhiteSpace(c: char)
    ensures IsSpace(c) <==> (Slug.Space(c) && c != '\U{0085}') || c == '\U{FEFF}'
  {
  }

  ghost predicate Blank(s: string) { forall i :: 0 <= i < |s| ==> IsSpace(s[i]) }

  /** v is s without the white space around it. */
  ghost predicate IsTrimmed(s: string, v: string) {
    && (exists pre, post :: Surrounds(s, pre, v, post))
    && (v != "" ==> !IsSpace(v[0]) && !IsSpace(v[|v| - 1]))
  }

  ghost predicate Surrounds(s: string, pre: string, v: string, post: string) {
    s == pre + v + post && Blank(pre) && Blank(post)
  }

  lemma {:induction false} TrimStartSplits(s: string) returns (pre: string)
    ensures s == pre + TrimStart(s) && Blank(pre)
    ensures TrimStart(s) != "" ==> !IsSpace(TrimStart(s)[0])
  {
    pre := "";
    hide IsSpace;
    if s != "" && IsSpace(s[0]) {
      pre := TrimStartSplits(s[1..]);
      assert s == [s[0]] + s[1..];
      pre := [s[0]] + pre;
    }
  }

  lemma {:induction false} TrimEndSplits(s: string) returns (post: string)
    ensures s == TrimEnd(s) + post && Blank(post)
    ensures TrimEnd(s) != "" ==> !IsSpace(TrimEnd(s)[|TrimEnd(s)| - 1])
  {
    post := "";
    hide IsSpace;
    if s != "" && IsSpace(s[|s| - 1]) {
      post := TrimEndSplits(s[..|s| - 1]);
      assert s == s[..|s| - 1] + [s[|s| - 1]];
      post := post + [s[|s| - 1]];
    }
  }

  lemma TypedIsTrimmed(s: string)
    ensures IsTrimmed(s, TrimEnd(TrimStart(s)))
  {
    var pre := TrimStartSplits(s);
    var post := TrimEndSplits(TrimStart(s));
    var v := TrimEnd(TrimStart(s));
    assert s == pre + v + post;
    hide IsSpace, TrimStart, TrimEnd;
    assert Surrounds(s, pre, v, post);
    assert v != "" ==> v[0] == (v + post)[0];
  }

  /** An object of the scene that the editor can be open on. */
  predicate HasText(o: SceneObject) { o.Text? || o.Shape? }

  /**
   * Closing the editor trims what was typed and stores it in the edited object where it lies, or
   * takes an emptied text out, and tells peers, except of a text that is new and empty.
   */
  lemma ClosesExactly(st: State, i: int) returns (v: string)
    requires Inv(st) && st.editing.Some?
    ensures IsTrimmed(st.editing.value.value, v)
    ensures var e, t, s := st.editing.value, Step(st, Event.CommitText), st.scene;
      && t == st.(editing := None, scene := t.scene, log := t.log)
      && ((forall j :: 0 <= j < |s| ==> s[j].id != e.id || !HasText(s[j])) ==> t.scene == s && t.log == st.log)
      && (0 <= i < |s| && s[i].id == e.id && s[i].Text? && v == "" ==>
            t.scene == s[..i] + s[i + 1..] && t.log == st.log + (if e.isNew then [] else [Erase([e.id])]))
      && (0 <= i < |s| && s[i].id == e.id && s[i].Text? && v != "" ==>
            var o := s[i].(text := v); t.scene == s[i := o] && t.log == st.log + [Add(o)])
      && (0 <= i < |s| && s[i].id == e.id && s[i].Shape? ==>
            var o := s[i].(caption := Some(v)); t.scene == s[i := o] && t.log == st.log + [Add(o)])
  {
    var e, s := st.editing.value, st.scene;
    v := TrimEnd(TrimStart(e.value));
    TypedIsTrimmed(e.value);
    if 0 <= i < |s| && s[i].id == e.id {
      FindAt(s, i);
      IndexOfAt(s, i);
      WithoutAt(s, i);
    }
    if e.id in Ids(s) {
      var k := FoundIsAt(s, e.id);
    }
    hide Inv, UniqueIds, TrimStart, TrimEnd, IsTrimmed, Without, IndexOf, Ids;
  }

  /** A press with the text tool only closes the editor. */
  lemma TextPresses(st: State, p: Press)
    requires Inv(st) && Possible(st, PointerDown(p)) && p.tool.TextTool?
    ensures Step(st, PointerDown(p)) == Step(st, Event.CommitText)
  {
    hide CommitEdit;
  }

  lemma ShapeAtIs(s: Objects, p: Point, m: real, i: int)
    ensures LastUnder(s, p, m, i) ==> ShapeAt(s, p, m) == Some(s[i])
    ensures (forall j :: 0 <= j < |s| ==> !Under(s[j], p, m)) ==> ShapeAt(s, p, m).None?
  {
    ShapeAtExactly(s, p, m);
    hide ShapeAt, Under;
    if ShapeAt(s, p, m).Some? {
      var j :| LastUnder(s, p, m, j) && s[j] == ShapeAt(s, p, m).value;
    }
  }

  function CaptionOf(o: SceneObject): string {
    if o.Shape? && o.caption.Some? then o.caption.value else ""
  }

  /** A click with the text tool opens the caption of the last shape there, or else adds an empty text that nobody is told. */
  lemma ClickExactly(st: State, p: Press, i: int)
    requires Inv(st) && Possible(st, Click(p))
    ensures var t, wp, s := Step(st, Click(p)), ToWorld(st.view, p.sx, p.sy), st.scene;
      && (!p.tool.TextTool? || st.editing.Some? ==> t == st)
      && (p.tool.TextTool? && st.editing.None? && LastUnder(s, wp, 0.0, i) ==>
            t == st.(selected := Some(s[i].id), editing := Some(Editing(s[i].id, CaptionOf(s[i]), false, true))))
      && (p.tool.TextTool? && st.editing.None? && (forall j :: 0 <= j < |s| ==> !Under(s[j], wp, 0.0)) ==>
            t == st.(scene := s + [Text(p.freshId, wp.x, wp.y, "", p.color, 18.0, None)], selected := Some(p.freshId),
                     editing := Some(Editing(p.freshId, "", true, false))))
  {
    ShapeAtIs(st.scene, ToWorld(st.view, p.sx, p.sy), 0.0, i);
    hide Inv, ToWorld, ShapeAt;
  }

  /** A double click opens the last shape there, or else the object drawn last there if it is a text. */
  lemma DoubleClickExactly(st: State, sx: real, sy: real, i: int)
    requires Inv(st)
    ensures var t, wp, s := Step(st, DoubleClick(sx, sy)), ToWorld(st.view, sx, sy), st.scene;
      && (LastUnder(s, wp, 0.0, i) ==>
            t == st.(editing := Some(Editing(s[i].id, CaptionOf(s[i]), false, !(Unsent(st) && st.editing.value.id == s[i].id)))))
      && ((forall j :: 0 <= j < |s| ==> !Under(s[j], wp, 0.0)) && DrawnLastOfHits(s, wp, 6.0 / st.view.scale, i) ==>
            t == if s[i].Text? then
                   st.(editing := Some(Editing(s[i].id, s[i].text, false, !(Unsent(st) && st.editing.value.id == s[i].id))))
                 else st)
      && ((forall j :: 0 <= j < |s| ==> !Under(s[j], wp, 0.0) && !HitTest(s, s[j], wp, 6.0 / st.view.scale)) ==> t == st)
  {
    var wp, pad := ToWorld(st.view, sx, sy), 6.0 / st.view.scale;
    ShapeAtIs(st.scene, wp, 0.0, i);
    if DrawnLastOfHits(st.scene, wp, pad, i) {
      TopmostIs(st.scene, wp, pad, i);
    }
    TopmostExactly(st.scene, wp, pad);
    assert ValidView(st.view);
    hide Inv, ToWorld, ShapeAt, HitTest, TopmostAt, Under;
  }

  // ---- keys ----

  /** Delete takes the selected object out, tells peers, and selects nothing; with an editor open it does nothing. */
  lemma DeleteExactly(st: State, i: int)
    requires Inv(st)
    ensures var t, s := Step(st, DeleteKey), st.scene;
      && (st.editing.Some? || st.selected.None? ==> t == st)
      && (st.editing.None? && 0 <= i < |s| && st.selected == Some(s[i].id) && s[i].id != "" ==>
            t.scene == s[..i] + s[i + 1..] && t.log == st.log + [Erase([s[i].id])] && t.selected.None?)
  {
    if 0 <= i < |st.scene| {
      WithoutAt(st.scene, i);
    }
    hide Inv, UniqueIds, Without, LooseAfter;
  }

  /** A bracket key puts the selected object in front of, or behind, everything that is drawn, and tells peers. */
  lemma BracketExactly(st: State, toFront: bool, i: int)
    requires Inv(st) && st.editing.None?
    requires 0 <= i < |st.scene| && st.selected == Some(st.scene[i].id) && st.scene[i].id != ""
    ensures var t, s := Step(st, ReorderKey(toFront)), st.scene;
      && t.scene == s[i := t.scene[i]] && t.scene[i].(z := s[i].z) == s[i] && t.log == st.log + [Add(t.scene[i])]
      && t == st.(scene := t.scene, log := t.log)
      && (forall j :: 0 <= j < |s| && j != i ==> if toFront then ZOf(s[j]) < ZOf(t.scene[i]) else ZOf(t.scene[i]) < ZOf(s[j]))
  {
    var o := Reordered(st.scene, i, toFront);
    IndexOfAt(st.scene, i);
    assert Step(st, ReorderKey(toFront)) == st.(scene := st.scene[i := o], log := st.log + [Add(o)]);
    ReorderedExactly(st.scene, i, toFront);
    hide Inv, UniqueIds, Reordered, IndexOf, Step;
    forall j | 0 <= j < |st.scene| ensures if toFront then ZOf(st.scene[j]) < ZOf(o) else ZOf(o) < ZOf(st.scene[j]) {
      assert st.scene[j] in st.scene;
    }
  }

  // ---- the wheel ----

  /** A wheel pan takes every drawn point along. */
  lemma WheelPans(st: State, dx: real, dy: real, q: Point)
    requires Inv(st)
    ensures var t := Step(st, Event.WheelPan(dx, dy));
      t == st.(view := t.view) && ToScreen(t.view, q) == Offset(ToScreen(st.view, q), Point(dx, dy))
  {
    hide Inv;
  }

  /** A wheel zoom keeps the world point under the pointer, and the scale in range. */
  lemma WheelZooms(st: State, sx: real, sy: real, factor: real)
    requires Inv(st)
    ensures var t, asked := Step(st, Event.WheelZoom(sx, sy, factor)), st.view.scale * factor;
      && t == st.(view := t.view) && ValidView(t.view) && ToWorld(t.view, sx, sy) == ToWorld(st.view, sx, sy)
      && t.view.scale == if asked < 0.15 then 0.15 else if asked > 6.0 then 6.0 else asked
  {
    assert ValidView(st.view);
    assert Step(st, Event.WheelZoom(sx, sy, factor)) == st.(view := ZoomAt(st.view, sx, sy, factor));
    hide Inv, ToWorld, Step, ZoomAt;
    ZoomScale(st.view, sx, sy, factor);
    ZoomKeepsPointer(st.view, sx, sy, factor);
  }

  // ---- messages ----

  /** A message is applied and logged; a selection goes exactly with the selected object. */
  lemma ReceivesExactly(st: State, m: Msg)
    requires Inv(st) && Possible(st, Receive(m))
    ensures var t := Step(st, Receive(m));
      && t.scene == Apply(st.scene, m) && t.log == st.log + [m] && t.editing == st.editing && t.view == st.view
      && (st.selected.Some? && st.selected.value in Ids(st.scene) && st.selected.value != "" ==>
            t.selected == if st.selected.value in Ids(t.scene) then st.selected else None)
  {
    ApplyUnique(st.scene, m);
    match m {
      case Add(o) => UpsertIds(st.scene, o);
      case Erase(ids) => WithoutIds(st.scene, ToSet(ids));
      case _ =>
    }
    hide Inv, LooseAfter, Without, Upsert;
  }
}
