/**
 * Where an editor ends up after any run whatsoever: which objects differ, at rest, between its
 * scene and the fold of the messages that it applied and broadcast. No event is left out here,
 * as long as ids are fresh; the price is that scenes are compared as maps from ids to objects.
 */
module Divergence {
  import opened Wrappers
  import opened Protocol
  import opened Scene
  import opened ZOrder
  import opened Viewport
  import opened Gestures
  import opened EditorInvariant
  import opened Mirror
  import opened MirrorLimits

  predicate Agree(st: State, id: string) {
    Find(st.scene, id) == Find(Replay(st), id)
  }

  /** What the release of the gesture in progress is going to broadcast. */
  function Told(st: State): set<string> {
    (if st.move.Some? then ToSet(ReleasedIds(st.move.value)) else {}) +
    (if st.endDrag.Some? then {st.endDrag.value.c} else {})
  }

  /** Objects whose present value is still to be broadcast. */
  predicate Open(st: State, id: string) {
    id in Told(st) || (UnsentInScene(st) && id == st.editing.value.id)
  }

  /** A drag that has not moved has the object where it was. */
  predicate GrabAtStart(st: State) {
    st.move.Some? && !st.move.value.moved ==>
      var o := Present(st.scene, st.loose, st.move.value.obj); o.Some? && AtStart(o.value, st.move.value.orig)
  }

  ghost predicate Ready(st: State) {
    Inv(st) && UnsentIsText(st) && GrabAtStart(st)
  }

  /** Nobody else knows the object of a new text. */
  predicate Untold(st: State, astray: set<string>) {
    Unsent(st) ==> st.editing.value.id !in Ids(Replay(st)) && st.editing.value.id !in astray
  }

  /** Except for what is still to be broadcast, the ids that differ are those in `astray`. */
  ghost predicate Accounts(st: State, astray: set<string>) {
    && Ready(st) && Untold(st, astray)
    && forall id :: !Open(st, id) ==> (Agree(st, id) <==> id !in astray)
  }

  /** Possible events, with ids of new texts that nobody has used. */
  ghost predicate Fresh(st: State, e: Event) {
    && Possible(st, e)
    && match e
       case Click(p) => p.freshId !in Ids(Replay(st))
       case Receive(Add(o)) => Unsent(st) ==> o.id != st.editing.value.id
       case _ => true
  }

  // ---- how the ids astray change ----

  /** Told at the release, while the scene has lost them or has got others in their place. */
  function Lost(st: State): set<string> {
    set id | id in Told(st) && id in st.loose && Find(st.scene, id) != Some(st.loose[id])
  }

  predicate Releases(st: State, e: Event) {
    e.PointerUp? && st.action in {Some(Moving), Some(DraggingEnd)}
  }

  predicate Orphaning(st: State, e: Event) {
    e.DoubleClick? && ValidView(st.view) && Orphans(st, e.sx, e.sy)
  }

  /** The drag that takes the bindings off a connector of the scene. */
  predicate Unbinding(st: State, e: Event) {
    Drops(st, e) && st.move.value.obj !in st.loose
  }

  /** Peers happen to have the dragged connector without its bindings. */
  predicate UnboundAlready(st: State) {
    st.move.Some? && var o := Find(st.scene, st.move.value.obj);
    o.Some? && Find(Replay(st), st.move.value.obj) == Some(Unbind(o.value))
  }

  /** A message about an id settles it; releases, orphaning double clicks and dropped bindings unsettle ids. */
  function AstrayAfter(st: State, astray: set<string>, e: Event): set<string>
    requires Inv(st)
  {
    var left := Unmentioned(astray, News(st, e));
    if Releases(st, e) then (astray - Told(st)) + Lost(st)
    else if Orphaning(st, e) then left + {st.editing.value.id}
    else if Unbinding(st, e) then
      if UnboundAlready(st) then left - {st.move.value.obj} else left + {st.move.value.obj}
    else left
  }

  predicate Plain(st: State, e: Event) {
    !Releases(st, e) && !Orphaning(st, e) && !Unbinding(st, e)
  }

  // ---- steps that apply one message on both sides, or none ----

  predicate UnsentAs(st: State, r: State) {
    Unsent(r) ==> Unsent(st) && r.editing.value.id == st.editing.value.id
  }

  predicate FollowsAt(st: State, r: State, msg: Msg, id: string) {
    !Open(r, id) ==>
      Find(r.scene, id) == Find(Apply(st.scene, msg), id) && (Open(st, id) ==> EffectOn(msg, id).Some?)
  }

  predicate QuietAt(st: State, r: State, id: string) {
    !Open(r, id) ==> Find(r.scene, id) == Find(st.scene, id) && !Open(st, id)
  }

  lemma AfterMessage(st: State, r: State, astray: set<string>, msg: Msg)
    requires Accounts(st, astray) && Ready(r) && r.log == st.log + [msg] && UnsentAs(st, r)
    requires Unsent(r) && msg.Add? ==> msg.obj.id != r.editing.value.id
    requires forall id :: FollowsAt(st, r, msg, id)
    ensures Accounts(r, Untouched(astray, msg))
  {
    FoldSnoc([], st.log, msg);
    forall id | !Open(r, id) ensures Agree(r, id) <==> id !in Untouched(astray, msg) {
      assert FollowsAt(st, r, msg, id);
      AgreeAfter(st, r, astray, msg, id);
    }
    if Unsent(r) {
      FindApply(Replay(st), msg, r.editing.value.id);
    }
    hide Ready, Open, Agree, Find, Apply, Fold;
  }

  lemma AgreeAfter(st: State, r: State, astray: set<string>, msg: Msg, id: string)
    requires Replay(r) == Apply(Replay(st), msg) && Find(r.scene, id) == Find(Apply(st.scene, msg), id)
    requires EffectOn(msg, id).None? ==> (Agree(st, id) <==> id !in astray)
    ensures Agree(r, id) <==> id !in Untouched(astray, msg)
  {
    FindApply(st.scene, msg, id);
    FindApply(Replay(st), msg, id);
    hide Find, Apply, Replay;
  }

  lemma AfterNothing(st: State, r: State, astray: set<string>)
    requires Accounts(st, astray) && Ready(r) && r.log == st.log && UnsentAs(st, r)
    requires forall id :: QuietAt(st, r, id)
    ensures Accounts(r, astray)
  {
    hide Ready, Find, Fold, Open;
    forall id | !Open(r, id) ensures Agree(r, id) <==> id !in astray {
      assert QuietAt(st, r, id);
      assert Agree(st, id) <==> id !in astray;
    }
  }

  lemma AstrayOfOne(st: State, astray: set<string>, e: Event, msg: Msg)
    requires Inv(st) && Step(st, e).log == st.log + [msg] && Plain(st, e)
    ensures AstrayAfter(st, astray, e) == Untouched(astray, msg)
  {
    assert News(st, e) == [msg];
    hide Inv, Step, Plain;
    UnmentionedByOne(astray, msg);
  }

  lemma NothingMentioned(astray: set<string>)
    ensures Unmentioned(astray, []) == astray
  {
  }

  lemma AstrayOfNone(st: State, astray: set<string>, e: Event)
    requires Inv(st) && Step(st, e).log == st.log && Plain(st, e)
    ensures AstrayAfter(st, astray, e) == astray
  {
    assert News(st, e) == [];
    NothingMentioned(astray);
  }

  // ---- closing the editor ----

  /** What closing an editor does: nothing, the removal of a blank new text, or one message on both sides. */
  lemma CloseCases(st: State) returns (msg: Option<Msg>)
    requires Inv(st) && UnsentIsText(st) && st.editing.Some?
    ensures var r, id := CommitEdit(st), st.editing.value.id;
      && r.editing.None?
      && match msg
         case Some(m) =>
           r.log == st.log + [m] && r.scene == Apply(st.scene, m) && (UnsentInScene(st) ==> EffectOn(m, id).Some?)
         case None =>
           r.log == st.log && r.scene == if UnsentInScene(st) then Without(st.scene, {id}) else st.scene
  {
    var found := Find(st.scene, st.editing.value.id);
    hide TrimStart, TrimEnd, Inv, Upsert, Without;
    if found.None? || !(found.value.Text? || found.value.Shape?) {
      msg := None;
    } else if found.value.Text? && Typed(st) == "" {
      assert ToSet([st.editing.value.id]) == {st.editing.value.id};
      msg := if st.editing.value.isNew then None else Some(Erase([st.editing.value.id]));
      if st.editing.value.isNew {
        assert Inv(st);
      }
    } else {
      msg := Some(Add(WithText(found.value, Typed(st))));
    }
  }

  lemma ClosedReady(st: State)
    requires Inv(st) && st.action.None?
    ensures Ready(CommitEdit(st)) && Told(CommitEdit(st)) == {} && Told(st) == {}
    ensures AtRest(CommitEdit(st)) && UnsentAs(st, CommitEdit(st))
  {
    CommitEditInv(st);
    NothingUnsent(CommitEdit(st));
    hide CommitEdit;
  }

  lemma RemovedUnsent(st: State, r: State, astray: set<string>)
    requires Accounts(st, astray) && UnsentInScene(st) && Told(st) == Told(r) == {}
    requires Ready(r) && r.editing.None? && r.log == st.log && r.scene == Without(st.scene, {st.editing.value.id})
    ensures Accounts(r, astray)
  {
    hide Ready, Find, Fold, Told;
    forall id | !Open(r, id) ensures Agree(r, id) <==> id !in astray {
      FindWithout(st.scene, {st.editing.value.id}, id);
      FindAbsent(Replay(st), st.editing.value.id);
      assert Open(st, id) || (Agree(st, id) <==> id !in astray);
    }
  }

  lemma FindAbsent(s: Objects, id: string)
    ensures id !in Ids(s) <==> Find(s, id) == None
  {
  }

  lemma CloseAccounts(st: State, astray: set<string>)
    requires Accounts(st, astray) && st.action.None?
    ensures Accounts(CommitEdit(st), AstrayAfter(st, astray, CommitText))
  {
    var r, e := CommitEdit(st), Event.CommitText;
    ClosedReady(st);
    assert Plain(st, e) && Step(st, e) == r;
    if st.editing.None? {
      AstrayOfNone(st, astray, e);
    } else {
      var msg := CloseCases(st);
      hide CommitEdit, Ready, Told, Plain, Find, Apply, Without, AstrayAfter;
      if msg.Some? {
        AstrayOfOne(st, astray, e, msg.value);
        AfterMessage(st, r, astray, msg.value);
      } else {
        AstrayOfNone(st, astray, e);
        if UnsentInScene(st) {
          RemovedUnsent(st, r, astray);
        } else {
          AfterNothing(st, r, astray);
        }
      }
    }
  }

  // ---- presses ----

  lemma GrabReady(st: State, o: SceneObject, wp: Point)
    requires Inv(st) && AtRest(st) && st.temp.None? && o in st.scene
    ensures Ready(BeginMove(st.(action := Some(Moving)), o, wp))
  {
    BeginMoveInv(st, o, wp);
    NothingLoose(st);
    InSceneIsFound(st.scene, o);
    MovedNowhere(o, o);
    hide Inv, Find;
    if o.Shape? {
      FindBound(st.scene, o, BIND_MARGIN_PX / st.view.scale, o.id);
      hide BindAll, Rebound;
    }
  }

  /** A grab changes nothing in the scene but connectors that its release tells. */
  lemma GrabQuiet(st: State, o: SceneObject, wp: Point, id: string)
    requires Inv(st) && AtRest(st) && o in st.scene
    ensures QuietAt(st, BeginMove(st.(action := Some(Moving)), o, wp), id)
  {
    var r := BeginMove(st.(action := Some(Moving)), o, wp);
    if o.Shape? {
      var m := BIND_MARGIN_PX / st.view.scale;
      FindBound(st.scene, o, m, id);
      ReboundExact(st.scene, o, m, |st.scene|, id);
      if id in Ids(st.scene) {
        var k := FoundIsAt(st.scene, id);
      }
    }
  }

  lemma SelectionAccounts(st: State, astray: set<string>, sel: Option<string>)
    requires Accounts(st, astray)
    ensures Accounts(st.(selected := sel), astray)
  {
    var r := st.(selected := sel);
    assert Ready(r) by { hide Find, Present, ValidMove, UniqueIds; }
    hide Ready, Find, Fold;
    forall id | !Open(r, id) ensures Agree(r, id) <==> id !in astray {
      assert !Open(st, id) ==> (Agree(st, id) <==> id !in astray);
    }
  }

  lemma GrabAccounts(st: State, astray: set<string>, o: SceneObject, wp: Point)
    requires Accounts(st, astray) && AtRest(st) && st.temp.None? && o in st.scene
    ensures Accounts(BeginMove(st.(action := Some(Moving)), o, wp), astray)
  {
    var r := BeginMove(st.(action := Some(Moving)), o, wp);
    assert Inv(st);
    GrabReady(st, o, wp);
    forall id ensures QuietAt(st, r, id) { GrabQuiet(st, o, wp, id); }
    BeginMoveLogs(st.(action := Some(Moving)), o, wp);
    assert r.editing.None?;
    hide Ready, BeginMove, QuietAt, Inv;
    AfterNothing(st, r, astray);
  }

  lemma GrabEndAccounts(st: State, astray: set<string>, c: string, end: End)
    requires Accounts(st, astray) && AtRest(st)
    requires Inv(st.(action := Some(DraggingEnd), endDrag := Some(EndDrag(c, end))))
    ensures Accounts(st.(action := Some(DraggingEnd), endDrag := Some(EndDrag(c, end))), astray)
  {
    var r := st.(action := Some(DraggingEnd), endDrag := Some(EndDrag(c, end)));
    assert Ready(r) && st.move.None? && st.endDrag.None?;
    hide Ready, Inv, Find, Fold;
    AfterNothing(st, r, astray);
  }

  lemma SelectAccounts(st: State, astray: set<string>, wp: Point)
    requires Accounts(st, astray) && AtRest(st) && st.temp.None?
    ensures Accounts(SelectDown(st, wp), astray) && SelectDown(st, wp).log == st.log
  {
    assert Inv(st);
    SelectDownInv(st, wp);
    var hit := TopmostAt(st.scene, wp, SELECT_PAD_PX / st.view.scale);
    hide TopmostAt, GrabbedEnd, BeginMove;
    if GrabbedEnd(st, wp).Some? {
      hide Inv, Accounts;
      GrabEndAccounts(st, astray, Selection(st).value.id, GrabbedEnd(st, wp).value);
    } else {
      SelectCases(st, wp);
      var sel := if hit.Some? then Some(hit.value.id) else None;
      SelectionAccounts(st, astray, sel);
      hide SelectDown, Inv, Accounts;
      if hit.Some? {
        GrabAccounts(st.(selected := sel), astray, hit.value, wp);
        BeginMoveLogs(st.(selected := sel, action := Some(Moving)), hit.value, wp);
      }
    }
  }

  /** Only the scene, the log, the text editor and what is held are accounted for. */
  lemma ElsewhereAccounts(st: State, r: State, astray: set<string>)
    requires Accounts(st, astray) && Inv(r) && r.scene == st.scene && r.log == st.log && r.editing == st.editing
    requires r.move == st.move && r.endDrag == st.endDrag && r.loose == st.loose
    ensures Accounts(r, astray)
  {
    hide Inv, Find, Fold, AtStart;
    forall id | !Open(r, id) ensures Agree(r, id) <==> id !in astray {
      assert !Open(st, id) ==> (Agree(st, id) <==> id !in astray);
    }
  }

  lemma EraseAccounts(st: State, ready: State, astray: set<string>, e: Event, wp: Point)
    requires Accounts(st, astray) && st.editing.None? && Told(st) == {} && st.loose == map[] && Plain(st, e)
    requires ready.scene == st.scene && ready.log == st.log && ready.view == st.view && ready.editing == st.editing
    requires ready.move.None? && ready.endDrag.None? && Inv(ready)
    requires Step(st, e) == EraseAt(ready, wp) && Inv(Step(st, e))
    ensures Accounts(Step(st, e), AstrayAfter(st, astray, e))
  {
    var hits, r := HitIds(ready.scene, ready.erased, wp, ERASE_PAD_PX / ready.view.scale, |ready.scene|), Step(st, e);
    assert Ready(r);
    assert ValidView(ready.view);
    if hits == [] {
      AstrayOfNone(st, astray, e);
      assert r.log == st.log && r.scene == st.scene && r.editing.None? && Told(r) == {};
      hide Ready, Inv, Step, Find, Fold, AstrayAfter, HitIds;
      AfterNothing(st, r, astray);
    } else {
      assert r.log == st.log + [Erase(hits)] && r.scene == Apply(st.scene, Erase(hits)) && r.editing.None? && Told(r) == {};
      AstrayOfOne(st, astray, e, Erase(hits));
      hide Ready, Inv, Step, Find, Fold, Apply, AstrayAfter, HitIds;
      AfterMessage(st, r, astray, Erase(hits));
    }
  }

  lemma PressAccounts(st: State, astray: set<string>, p: Press)
    requires Accounts(st, astray) && AtRest(st) && Possible(st, PointerDown(p))
    ensures Accounts(Down(st, p), AstrayAfter(st, astray, PointerDown(p)))
  {
    var e, r := PointerDown(p), Down(st, p);
    assert Inv(st) && Plain(st, e) && Step(st, e) == r;
    DownInv(st, p);
    NothingLoose(st);
    if p.tool.SelectTool? && !p.pans {
      SelectIsDown(st, p);
      hide Inv, Accounts, Down, Step, Plain, AstrayAfter, SelectDown;
      SelectAccounts(st, astray, ToWorld(st.view, p.sx, p.sy));
      AstrayOfNone(st, astray, e);
    } else if p.tool.EraserTool? && !p.pans {
      var ready := st.(action := Some(Erasing), erased := {});
      assert Inv(ready) && r == EraseAt(ready, ToWorld(st.view, p.sx, p.sy)) && Told(st) == {};
      hide Inv, Accounts, Down, EraseAt, ToWorld, Plain, AstrayAfter;
      EraseAccounts(st, ready, astray, e, ToWorld(st.view, p.sx, p.sy));
    } else {
      assert r.log == st.log && r.scene == st.scene && r.editing == st.editing;
      AstrayOfNone(st, astray, e);
      hide Inv, Accounts, Plain, AstrayAfter;
      ElsewhereAccounts(st, r, astray);
    }
  }

  lemma NewsOfDown(st: State, p: Press)
    requires Inv(st) && Inv(CommitEdit(st)) && Down(st, p) == Down(CommitEdit(st), p)
    ensures News(st, PointerDown(p)) == News(st, Event.CommitText) + News(CommitEdit(st), PointerDown(p))
  {
    hide Inv, Down, CommitEdit;
  }

  lemma DownAccounts(st: State, astray: set<string>, p: Press)
    requires Accounts(st, astray) && Possible(st, PointerDown(p))
    ensures Accounts(Down(st, p), AstrayAfter(st, astray, PointerDown(p)))
  {
    assert Inv(st) && st.action.None?;
    DownAfterCommit(st, p);
    NewsOfDown(st, p);
    var mid, e := CommitEdit(st), PointerDown(p);
    var astray' := AstrayAfter(st, astray, Event.CommitText);
    CloseAccounts(st, astray);
    PressAccounts(mid, astray', p);
    hide CommitEdit, Down, Accounts, Unmentioned, Inv, Possible, News;
    UnmentionedConcat(astray, News(st, Event.CommitText), News(mid, e));
    assert astray' == Unmentioned(astray, News(st, Event.CommitText));
    assert AstrayAfter(st, astray, e) == AstrayAfter(mid, astray', e);
  }

  // ---- drags ----

  lemma FindWritten(st: State, o: SceneObject, id: string)
    ensures Find(WriteHeld(st, o).scene, id)
         == if id == o.id && o.id !in st.loose then Some(o) else Find(st.scene, id)
  {
    FindUpsert(st.scene, o, id);
  }

  lemma DragEndAccounts(st: State, astray: set<string>, wp: Point)
    requires Accounts(st, astray) && st.action == Some(DraggingEnd)
    ensures Accounts(DragEnd(st, wp), astray)
  {
    var r, d := DragEnd(st, wp), st.endDrag.value;
    DragEndInv(st, wp);
    PresentHasId(st, d.c);
    var o := EndMoved(Present(st.scene, st.loose, d.c).value, d.end, wp, RefAt(st.scene, wp, BIND_MARGIN_PX / st.view.scale));
    assert r == WriteHeld(st, o) && o.id == d.c && st.editing.None? && Told(r) == Told(st) && d.c in Told(st) && r.log == st.log;
    assert Ready(r);
    forall id ensures QuietAt(st, r, id) { FindWritten(st, o, id); }
    hide Ready, Inv, DragEnd, Find, Fold, QuietAt, WriteHeld;
    AfterNothing(st, r, astray);
  }

  /** A drag on the spot keeps the object where it was, and takes its bindings off. */
  lemma OnTheSpot(st: State, wp: Point)
    requires Ready(st) && st.action == Some(Moving)
    requires !ApplyMove(st, wp).move.value.moved
    ensures var c := Present(st.scene, st.loose, st.move.value.obj);
      && c.Some? && Dragged(st, wp) == Unbind(c.value) && AtStart(c.value, st.move.value.orig)
      && AtStart(Unbind(c.value), st.move.value.orig)
    ensures !st.move.value.moved && Told(ApplyMove(st, wp)) == Told(st)
  {
    DraggedFacts(st, wp);
    StayedAtStart(Present(st.scene, st.loose, st.move.value.obj).value, st.move.value.orig);
    hide Inv, ValidMove, WriteHeld;
  }

  lemma DraggedReady(st: State, wp: Point)
    requires Ready(st) && st.action == Some(Moving)
    ensures Ready(ApplyMove(st, wp))
  {
    ApplyMoveInv(st, wp);
    DraggedFacts(st, wp);
    var r := ApplyMove(st, wp);
    if !r.move.value.moved {
      OnTheSpot(st, wp);
      WriteHeldInv(st, Dragged(st, wp));
    }
    hide Inv, WriteHeld, ValidMove, Present, Find;
  }

  /** What a drag leaves astray. */
  function AstrayDragged(st: State, astray: set<string>): set<string>
    requires st.move.Some?
  {
    var id := st.move.value.obj;
    var o := Find(st.scene, id);
    if id in st.loose || o.None? || !IsBound(o.value) then astray
    else if UnboundAlready(st) then astray - {id}
    else astray + {id}
  }

  lemma DraggedAgrees(st: State, astray: set<string>, wp: Point, id: string)
    requires Accounts(st, astray) && st.action == Some(Moving)
    requires !Open(ApplyMove(st, wp), id)
    ensures Agree(ApplyMove(st, wp), id) <==> id !in AstrayDragged(st, astray)
  {
    var r, m, o := ApplyMove(st, wp), st.move.value, Dragged(st, wp);
    DraggedFacts(st, wp);
    FindWritten(st, o, id);
    assert r.log == st.log && st.editing.None?;
    assert Told(st) <= Told(r);
    assert !Open(st, id) && (Agree(st, id) <==> id !in astray);
    if id == m.obj {
      assert !r.move.value.moved;
      OnTheSpot(st, wp);
      hide Inv, Fold, ValidMove, Told;
    }
  }

  lemma DragMoveAccounts(st: State, astray: set<string>, wp: Point)
    requires Accounts(st, astray) && st.action == Some(Moving)
    ensures Accounts(ApplyMove(st, wp), AstrayDragged(st, astray))
  {
    var r := ApplyMove(st, wp);
    DraggedReady(st, wp);
    DraggedFacts(st, wp);
    assert st.editing.None? && r.editing.None?;
    hide Ready, ApplyMove, AstrayDragged, Open, Agree;
    forall id | !Open(r, id) ensures Agree(r, id) <==> id !in AstrayDragged(st, astray) {
      DraggedAgrees(st, astray, wp, id);
    }
  }

  lemma AstrayOfDrag(st: State, astray: set<string>, sx: real, sy: real)
    requires Inv(st) && st.action in {Some(Moving), Some(DraggingEnd)}
    ensures AstrayAfter(st, astray, PointerMove(sx, sy)) == if st.action == Some(Moving) then AstrayDragged(st, astray) else astray
  {
    DragObjectIs(st, sx, sy);
    assert News(st, PointerMove(sx, sy)) == [];
    NothingMentioned(astray);
  }

  lemma DragAccounts(st: State, astray: set<string>, sx: real, sy: real)
    requires Accounts(st, astray)
    ensures Accounts(Drag(st, sx, sy), AstrayAfter(st, astray, PointerMove(sx, sy)))
  {
    var e, r, wp := PointerMove(sx, sy), Drag(st, sx, sy), ToWorld(st.view, sx, sy);
    assert Inv(st);
    DragInv(st, sx, sy);
    if st.action in {Some(Moving), Some(DraggingEnd)} {
      DragObjectIs(st, sx, sy);
      AstrayOfDrag(st, astray, sx, sy);
      hide Accounts, Drag, AstrayAfter, Inv;
      if st.action == Some(Moving) {
        DragMoveAccounts(st, astray, wp);
      } else {
        DragEndAccounts(st, astray, wp);
      }
    } else {
      NothingLoose(st);
      assert Plain(st, e) && Told(st) == {} && Step(st, e) == r;
      if st.action == Some(Erasing) {
        hide Accounts, EraseAt, ToWorld, AstrayAfter;
        EraseAccounts(st, st, astray, e, wp);
      } else {
        AstrayOfNone(st, astray, e);
        hide Accounts, AstrayAfter, ToWorld;
        ElsewhereAccounts(st, r, astray);
      }
    }
  }

  // ---- releases ----

  lemma ToldFacts(st: State)
    requires Inv(st) && st.action in {Some(Moving), Some(DraggingEnd)}
    ensures Told(st) == ToSet(ToldAtRelease(st)) && st.editing.None?
    ensures Up(st).editing.None? && Told(Up(st)) == {} && Up(st).move.None?
  {
    hide Broadcasts, ReleasedIds;
  }

  lemma ToldAgrees(st: State, id: string)
    requires Inv(st) && st.action in {Some(Moving), Some(DraggingEnd)} && id in Told(st)
    ensures Agree(Up(st), id) <==> id !in Lost(st)
  {
    ToldFacts(st);
    hide Inv, Up, Find, Fold, ToldAtRelease;
    LooseRelease(st, id);
  }

  lemma UntoldAgrees(st: State, id: string)
    requires Inv(st) && st.action in {Some(Moving), Some(DraggingEnd)} && id !in Told(st)
    ensures Agree(Up(st), id) <==> Agree(st, id)
  {
    ToldFacts(st);
    hide Inv, Up, Find, Fold, ToldAtRelease, Broadcasts, AllPresent;
    ReleaseReplayed(st);
    BroadcastLast(st.scene, st.loose, ToldAtRelease(st), id, Replay(st));
  }

  lemma ReleasedAgrees(st: State, astray: set<string>, id: string)
    requires Accounts(st, astray) && st.action in {Some(Moving), Some(DraggingEnd)}
    ensures Agree(Up(st), id) <==> id !in (astray - Told(st)) + Lost(st)
  {
    assert Inv(st) && st.editing.None?;
    if id in Told(st) {
      ToldAgrees(st, id);
    } else {
      UntoldAgrees(st, id);
      assert !Open(st, id);
    }
    hide Ready, Inv, Up, Agree, Told;
  }

  lemma ReleaseAccounts(st: State, astray: set<string>)
    requires Accounts(st, astray) && st.action in {Some(Moving), Some(DraggingEnd)}
    ensures Accounts(Up(st), AstrayAfter(st, astray, PointerUp))
  {
    var t := Up(st);
    assert Inv(st);
    UpInv(st);
    ToldFacts(st);
    NothingUnsent(t);
    hide Inv, Up, Agree, Lost, Told, UnsentIsText;
    forall id | !Open(t, id) ensures Agree(t, id) <==> id !in (astray - Told(st)) + Lost(st) {
      ReleasedAgrees(st, astray, id);
    }
  }

  lemma UpAccounts(st: State, astray: set<string>)
    requires Accounts(st, astray)
    ensures Accounts(Up(st), AstrayAfter(st, astray, PointerUp))
  {
    var r := Up(st);
    assert Inv(st);
    UpInv(st);
    if st.action in {Some(Moving), Some(DraggingEnd)} {
      hide *;
      ReleaseAccounts(st, astray);
    } else {
      NothingLoose(st);
      assert Plain(st, PointerUp) && Step(st, PointerUp) == r && Told(st) == Told(r) == {};
      hide Finished, Plain, AstrayAfter;
      if st.action.Some? && st.temp.Some? && Finished(st.action.value, st.temp.value).Some? {
        var o := Finished(st.action.value, st.temp.value).value;
        AppendUnique(st.scene, o);
        assert r.log == st.log + [Add(o)] && r.scene == Apply(st.scene, Add(o)) && r.editing.None? && Ready(r);
        AstrayOfOne(st, astray, PointerUp, Add(o));
        hide Inv, Ready, Up, Find, Fold, Apply, Told;
        AfterMessage(st, r, astray, Add(o));
      } else {
        AstrayOfNone(st, astray, PointerUp);
        hide Accounts;
        ElsewhereAccounts(st, r, astray);
      }
    }
  }

  // ---- texts ----

  /** A click begins a new text, opens a shape's caption, or does nothing. */
  lemma ClickAccounts(st: State, astray: set<string>, p: Press)
    requires Accounts(st, astray) && Fresh(st, Click(p))
    ensures Accounts(ClickAt(st, p), AstrayAfter(st, astray, Click(p)))
  {
    var r, wp := ClickAt(st, p), ToWorld(st.view, p.sx, p.sy);
    assert Inv(st) && Plain(st, Click(p)) && Step(st, Click(p)) == r && r.log == st.log;
    NothingLoose(st);
    AstrayOfNone(st, astray, Click(p));
    if p.tool.TextTool? && st.editing.None? {
      ClickInv(st, p);
      assert UniqueIds(st.scene) && p.freshId !in Ids(st.scene) && Told(st) == Told(r) == {};
      hide ToWorld, AstrayAfter, Plain, ShapeAt;
      if ShapeAt(st.scene, wp, 0.0).None? {
        var t := Text(p.freshId, wp.x, wp.y, "", p.color, TEXT_SIZE, None);
        assert r.scene == st.scene + [t] && r.move.None? && Unsent(r) && r.editing.value.id == t.id;
        NewText(st, r, astray, t);
      } else {
        assert r.scene == st.scene && r.move.None? && !Unsent(r);
        hide Inv, Find, Fold, ClickAt, Told;
        AfterNothing(st, r, astray);
      }
    }
  }

  lemma NewText(st: State, r: State, astray: set<string>, t: SceneObject)
    requires Accounts(st, astray) && AtRest(st) && Told(st) == Told(r) == {} && Inv(r) && r.move.None? && r.log == st.log
    requires t.Text? && t.id !in Ids(st.scene) && t.id !in Ids(Replay(st)) && r.scene == st.scene + [t]
    requires Unsent(r) && r.editing.value.id == t.id
    ensures Accounts(r, astray)
  {
    AppendUnique(st.scene, t);
    NewTextLeftOut(st.scene, t);
    FindAbsent(st.scene, t.id);
    FindAbsent(Replay(st), t.id);
    assert !Open(st, t.id) && Agree(st, t.id);
    assert Ready(r);
    hide Inv, Ready, Find, Fold, Upsert, UniqueIds;
    forall id | !Open(r, id) ensures Agree(r, id) <==> id !in astray {
      FindUpsert(st.scene, t, id);
      assert !Open(st, id);
    }
  }

  lemma DoubleClickAccounts(st: State, astray: set<string>, sx: real, sy: real)
    requires Accounts(st, astray) && st.action.None?
    ensures Accounts(DoubleClickAt(st, sx, sy), AstrayAfter(st, astray, DoubleClick(sx, sy)))
  {
    var r, e := DoubleClickAt(st, sx, sy), DoubleClick(sx, sy);
    assert Inv(st);
    OtherInv(st, e);
    NothingLoose(st);
    assert Step(st, e) == r && r.log == st.log && r.scene == st.scene && Told(r) == Told(st) == {} && News(st, e) == [];
    NothingMentioned(astray);
    hide EditTarget, ToWorld, Find, Fold;
    if Orphaning(st, e) {
      var id := st.editing.value.id;
      assert !Unsent(r) && Ready(r);
      FindAbsent(st.scene, id);
      FindAbsent(Replay(st), id);
      forall x | !Open(r, x) ensures Agree(r, x) <==> x !in astray + {id} {
        assert x != id ==> !Open(st, x);
      }
    } else {
      AstrayOfNone(st, astray, e);
      assert Ready(r) && UnsentAs(st, r);
      assert UnsentInScene(st) ==> r.editing.value.id == st.editing.value.id && Unsent(r);
      hide Inv, Ready, Orphaning, DoubleClickAt, Told, AstrayAfter;
      AfterNothing(st, r, astray);
    }
  }

  // ---- messages and keys ----

  lemma PresentInHand(st: State, s: Objects, gone: set<string>)
    requires Ready(st) && forall x :: x !in gone ==> Find(s, x) == Find(st.scene, x)
    ensures GrabAtStart(st.(scene := s, loose := LooseAfter(st, gone)))
  {
    if st.move.Some? {
      assert st.move.value.obj in Held(st);
      PresentKept(st, s, gone, st.move.value.obj);
    }
  }

  lemma ReceivedReady(st: State, m: Msg)
    requires Ready(st) && Fresh(st, Receive(m))
    ensures Ready(Received(st, m))
  {
    ReceivedInv(st, m);
    forall x | x !in TakenOut(st.scene, m) ensures Find(Apply(st.scene, m), x) == Find(st.scene, x) {
      FindApply(st.scene, m, x);
    }
    PresentInHand(st, Apply(st.scene, m), TakenOut(st.scene, m));
    if Unsent(st) {
      FindApply(st.scene, m, st.editing.value.id);
      FindAbsent(st.scene, st.editing.value.id);
    }
    hide Inv, Apply, Find, LooseAfter, TakenOut, AtStart;
  }

  lemma ReceivedFollows(st: State, m: Msg, id: string)
    ensures FollowsAt(st, Received(st, m), m, id)
  {
    FindApply(st.scene, m, id);
    FindAbsent(st.scene, id);
    FindAbsent(Apply(st.scene, m), id);
    hide Find, Apply, LooseAfter, ReleasedIds;
  }

  lemma ReceiveAccounts(st: State, astray: set<string>, e: Event, m: Msg)
    requires Accounts(st, astray) && Fresh(st, Receive(m)) && (e == Receive(m) || (e == ClearBoard && m == Clear))
    ensures Accounts(Received(st, m), AstrayAfter(st, astray, e))
  {
    var r := Received(st, m);
    assert Inv(st) && Step(st, e) == r && r.log == st.log + [m] && r.editing == st.editing && Plain(st, e);
    ReceivedReady(st, m);
    forall id ensures FollowsAt(st, r, m, id) { ReceivedFollows(st, m, id); }
    AstrayOfOne(st, astray, e, m);
    hide Ready, FollowsAt, Received, AstrayAfter, Find, Fold;
    AfterMessage(st, r, astray, m);
  }

  lemma DeleteAccounts(st: State, astray: set<string>)
    requires Accounts(st, astray) && st.editing.None? && Truthy(st.selected)
    ensures Accounts(DeleteSelected(st), AstrayAfter(st, astray, DeleteKey))
  {
    var id, r := st.selected.value, DeleteSelected(st);
    var msg := Erase([id]);
    assert ToSet([id]) == {id};
    assert Inv(st) && Step(st, DeleteKey) == r && r.log == st.log + [msg] && r.scene == Apply(st.scene, msg) && Plain(st, DeleteKey);
    DeleteInv(st);
    forall x | x !in {id} ensures Find(r.scene, x) == Find(st.scene, x) { FindWithout(st.scene, {id}, x); }
    PresentInHand(st, r.scene, {id});
    assert Ready(r) && Told(r) == Told(st) && r.editing.None?;
    AstrayOfOne(st, astray, DeleteKey, msg);
    hide Ready, DeleteSelected, AstrayAfter, Find, Fold, Apply, Told;
    AfterMessage(st, r, astray, msg);
  }

  lemma RestackedGrab(st: State, toFront: bool, i: nat)
    requires Ready(st) && i < |st.scene|
    ensures GrabAtStart(st.(scene := st.scene[i := Reordered(st.scene, i, toFront)]))
  {
    var o := Reordered(st.scene, i, toFront);
    if st.move.Some? && !st.move.value.moved && st.move.value.obj !in st.loose {
      var obj := st.move.value.obj;
      RestackedAtStart(st.scene, i, toFront, st.move.value.orig);
      FindAt(st.scene, i);
      IndexOfAt(st.scene, i);
      assert Upsert(st.scene, o) == st.scene[i := o];
      FindUpsert(st.scene, o, obj);
      hide Inv, Find, Upsert, Reordered, AtStart;
    }
  }

  lemma ReorderIsAdd(st: State, toFront: bool)
    requires Inv(st) && st.editing.None? && Truthy(st.selected) && IndexOf(st.scene, st.selected.value) >= 0
    ensures var i, r := IndexOf(st.scene, st.selected.value), ReorderSelected(st, toFront);
      var o := Reordered(st.scene, i, toFront);
      && r == st.(scene := st.scene[i := o], log := st.log + [Add(o)]) && r.scene == Apply(st.scene, Add(o))
      && Step(st, ReorderKey(toFront)) == r && Plain(st, ReorderKey(toFront))
  {
    var i := IndexOf(st.scene, st.selected.value);
    var o := Reordered(st.scene, i, toFront);
    assert Upsert(st.scene, o) == st.scene[i := o];
    hide Inv, Reordered, Upsert;
  }

  lemma ReorderAccounts(st: State, astray: set<string>, toFront: bool)
    requires Accounts(st, astray) && st.editing.None? && Truthy(st.selected) && IndexOf(st.scene, st.selected.value) >= 0
    ensures Accounts(ReorderSelected(st, toFront), AstrayAfter(st, astray, ReorderKey(toFront)))
  {
    var i, r, e := IndexOf(st.scene, st.selected.value), ReorderSelected(st, toFront), ReorderKey(toFront);
    var o := Reordered(st.scene, i, toFront);
    ReorderIsAdd(st, toFront);
    ReorderInv(st, toFront);
    RestackedGrab(st, toFront, i);
    assert Inv(st) && GrabAtStart(r) by { hide Present, AtStart, Inv; }
    NothingUnsent(r);
    assert Told(r) == Told(st);
    hide ReorderSelected, AstrayAfter, Find, Fold, Apply, Told, Reordered, Inv, GrabAtStart, Plain, Step, UnsentIsText;
    AstrayOfOne(st, astray, e, Add(o));
    AfterMessage(st, r, astray, Add(o));
  }

  lemma NoStep(st: State, astray: set<string>, e: Event)
    requires Accounts(st, astray) && Step(st, e) == st && Plain(st, e)
    ensures Accounts(Step(st, e), AstrayAfter(st, astray, e))
  {
    AstrayOfNone(st, astray, e);
  }

  lemma KeyAccounts(st: State, astray: set<string>, e: Event)
    requires Accounts(st, astray) && (e.DeleteKey? || e.ReorderKey?)
    ensures Accounts(Step(st, e), AstrayAfter(st, astray, e))
  {
    assert Inv(st) && Plain(st, e);
    hide Accounts, AstrayAfter, Plain, Inv;
    if st.editing.Some? || !Truthy(st.selected) || (e.ReorderKey? && IndexOf(st.scene, st.selected.value) < 0) {
      NoStep(st, astray, e);
    } else if e.DeleteKey? {
      DeleteAccounts(st, astray);
    } else {
      ReorderAccounts(st, astray, e.toFront);
    }
  }

  lemma OtherAccounts(st: State, astray: set<string>, e: Event)
    requires Accounts(st, astray)
    requires e.TypeText? || e.ChangeTool? || e.WheelPan? || e.WheelZoom? || e.ResetView?
    ensures Accounts(Step(st, e), AstrayAfter(st, astray, e))
  {
    var r := Step(st, e);
    assert Inv(st) && Plain(st, e);
    OtherInv(st, e);
    AstrayOfNone(st, astray, e);
    assert r.scene == st.scene && r.move == st.move && r.endDrag == st.endDrag && r.loose == st.loose;
    hide Inv, Find, Present, AtStart, Step, Plain;
    assert Told(r) == Told(st) && UnsentAs(st, r) && (UnsentInScene(st) ==> UnsentInScene(r)) && Ready(r);
    hide Ready, Fold, Told, AstrayAfter;
    AfterNothing(st, r, astray);
  }

  // ---- every run ----

  /** Every event keeps the account of what differs. */
  lemma StepAccounts(st: State, astray: set<string>, e: Event)
    requires Accounts(st, astray) && Fresh(st, e)
    ensures Accounts(Step(st, e), AstrayAfter(st, astray, e))
  {
    assert Inv(st) && (st.action.Some? ==> st.editing.None?);
    hide Accounts, Inv, AstrayAfter, Down, Drag, Up, CommitEdit, Received, ClickAt, DoubleClickAt;
    match e
    case PointerDown(p) => DownAccounts(st, astray, p);
    case PointerMove(sx, sy) => DragAccounts(st, astray, sx, sy);
    case PointerUp => UpAccounts(st, astray);
    case CommitText => CommitAccounts(st, astray);
    case DeleteKey => KeyAccounts(st, astray, e);
    case ReorderKey(_) => KeyAccounts(st, astray, e);
    case ClearBoard => ReceiveAccounts(st, astray, e, Clear);
    case Receive(m) => ReceiveAccounts(st, astray, e, m);
    case Click(p) => ClickAccounts(st, astray, p);
    case DoubleClick(sx, sy) => DoubleClickAccounts(st, astray, sx, sy);
    case _ => OtherAccounts(st, astray, e);
  }

  lemma CommitAccounts(st: State, astray: set<string>)
    requires Accounts(st, astray)
    ensures Accounts(CommitEdit(st), AstrayAfter(st, astray, Event.CommitText))
  {
    if st.action.None? {
      CloseAccounts(st, astray);
    } else {
      assert CommitEdit(st) == st;
      NoStep(st, astray, Event.CommitText);
    }
  }

  ghost predicate FreshRun(st: State, events: seq<Event>)
    requires Inv(st)
    decreases |events|
  {
    events == [] ||
    (Fresh(st, events[0]) && (StepInv(st, events[0]); FreshRun(Step(st, events[0]), events[1..])))
  }

  /** The editor's state after a run, and the ids that the run has led astray. */
  ghost function Course(st: State, astray: set<string>, events: seq<Event>): (r: (State, set<string>))
    requires Inv(st) && FreshRun(st, events)
    ensures PossibleRun(st, events) && r.0 == Play(st, events)
    decreases |events|
  {
    if events == [] then (st, astray)
    else
      StepInv(st, events[0]);
      Course(Step(st, events[0]), AstrayAfter(st, astray, events[0]), events[1..])
  }

  lemma {:induction false} CourseAccounts(st: State, astray: set<string>, events: seq<Event>)
    requires Accounts(st, astray) && FreshRun(st, events)
    ensures Accounts(Course(st, astray, events).0, Course(st, astray, events).1)
    decreases |events|
  {
    if events != [] {
      StepAccounts(st, astray, events[0]);
      CourseAccounts(Step(st, events[0]), AstrayAfter(st, astray, events[0]), events[1..]);
    }
  }

  /**
   * At rest after any run from an empty board, with messages, clears and keys at any moment, the
   * objects that differ between the scene and the fold of the log are exactly those led astray.
   */
  lemma DivergenceTheorem(events: seq<Event>)
    requires FreshRun(INITIAL, events) && AtRest(Course(INITIAL, {}, events).0)
    ensures var (st, astray) := Course(INITIAL, {}, events);
      && (forall id :: Find(st.scene, id) == Find(Replay(st), id) <==> id !in astray)
      && (AsMap(st.scene) == AsMap(Replay(st)) <==> astray == {})
  {
    var (st, astray) := Course(INITIAL, {}, events);
    InitialAccounts();
    CourseAccounts(INITIAL, {}, events);
    NothingLoose(st);
    assert st.move.None? && st.endDrag.None?;
    hide Course, FreshRun, Play, Ready, Inv, Replay, Find;
    forall id ensures Find(st.scene, id) == Find(Replay(st), id) <==> id !in astray {
      assert !Open(st, id);
    }
    MapsAgree(st.scene, Replay(st));
    if astray != {} {
      var id :| id in astray;
      assert Find(st.scene, id) != Find(Replay(st), id);
    }
  }

  lemma InitialAccounts()
    ensures Accounts(INITIAL, {})
  {
  }
}
