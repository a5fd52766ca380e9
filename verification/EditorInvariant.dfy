/** What the editor's handlers keep: unique ids, a usable view, live references. */
module EditorInvariant {
  import opened Wrappers
  import opened Protocol
  import opened Scene
  import opened ZOrder
  import opened Viewport
  import opened Gestures

  // ---- the editor's own invariant ----

  lemma FindAt(s: Objects, i: nat)
    requires UniqueIds(s) && i < |s|
    ensures s[i].id in Ids(s) && Find(s, s[i].id) == Some(s[i])
  {
    IdsAt(s, i);
    IndexOfAt(s, i);
  }

  lemma FoundIsAt(s: Objects, id: string) returns (i: nat)
    requires id in Ids(s)
    ensures i < |s| && i == IndexOf(s, id) && s[i].id == id && Find(s, id) == Some(s[i])
  {
    i := IndexOf(s, id);
  }

  lemma InSceneHasId(s: Objects, o: SceneObject)
    requires o in s
    ensures o.id in Ids(s)
  {
  }

  lemma InSceneIsFound(s: Objects, o: SceneObject)
    requires UniqueIds(s) && o in s
    ensures Find(s, o.id) == Some(o)
  {
    var i :| 0 <= i < |s| && s[i] == o;
    FindAt(s, i);
  }

  lemma FindBound(s: Objects, shape: SceneObject, m: real, id: string)
    requires shape.Shape?
    ensures var b := BindAll(s, shape, m, |s|);
            && Ids(b) == Ids(s)
            && Find(b, id) == match Find(s, id) { case None => None case Some(o) => Some(BindLoose(o, shape, m)) }
  {
    var b := BindAll(s, shape, m, |s|);
    SameIdsEverywhere(s, b);
    if id in Ids(s) {
      var k := IndexOf(s, id);
      FindIndexed(b, id, k);
    }
  }

  lemma SameIdsEverywhere(a: Objects, b: Objects)
    requires |a| == |b| && forall i :: 0 <= i < |a| ==> a[i].id == b[i].id
    ensures Ids(a) == Ids(b)
    ensures forall id :: IndexOf(a, id) == IndexOf(b, id)
  {
    forall id ensures id in Ids(a) <==> id in Ids(b) {
      if id in Ids(a) { var i := FoundIsAt(a, id); IdsAt(b, i); }
      if id in Ids(b) { var i := FoundIsAt(b, id); IdsAt(a, i); }
    }
    forall id ensures IndexOf(a, id) == IndexOf(b, id) {
      if id in Ids(a) {
        var i := FoundIsAt(a, id);
        var j := FoundIsAt(b, id);
      }
    }
  }

  /** The grab reports exactly the connectors it changed. */
  lemma {:induction false} ReboundExact(s: Objects, shape: SceneObject, m: real, n: nat, id: string)
    requires shape.Shape? && n <= |s| && UniqueIds(s)
    ensures id in Rebound(s, shape, m, n)
            <==> exists i :: 0 <= i < n && s[i].id == id && BindLoose(s[i], shape, m) != s[i]
  {
    if n > 0 {
      ReboundExact(s, shape, m, n - 1, id);
    }
  }

  lemma GrabIsValid(s: Objects, o: SceneObject, m: real, wp: Point)
    requires o.Shape? && o in s && UniqueIds(s)
    ensures ValidMove(BindAll(s, o, m, |s|), map[], Move(wp, o.id, false, o, Rebound(s, o, m, |s|)))
  {
    InSceneIsFound(s, o);
    InSceneHasId(s, o);
    FindBound(s, o, m, o.id);
    forall id | id in Rebound(s, o, m, |s|)
      ensures IsConnector(Find(BindAll(s, o, m, |s|), id))
    {
      ReboundFound(s, o, m, id);
    }
  }

  /** With no gesture that holds objects, none are held and none are loose. */
  lemma NothingLoose(st: State)
    requires Inv(st) && st.action !in {Some(Moving), Some(DraggingEnd)}
    ensures Held(st) == {} && st.loose == map[]
  {
    assert st.loose.Keys == {};
  }

  lemma BeginMoveInv(st: State, o: SceneObject, wp: Point)
    requires Inv(st) && AtRest(st) && st.temp.None? && o in st.scene
    ensures Inv(BeginMove(st.(action := Some(Moving)), o, wp))
  {
    NothingLoose(st);
    InSceneIsFound(st.scene, o);
    InSceneHasId(st.scene, o);
    if o.Shape? {
      var m := BIND_MARGIN_PX / st.view.scale;
      GrabIsValid(st.scene, o, m, wp);
      BindAllUnique(st.scene, o, m);
      hide BindAll, Rebound, ValidMove;
    }
  }

  lemma ReboundFound(s: Objects, shape: SceneObject, m: real, id: string)
    requires shape.Shape? && UniqueIds(s) && id in Rebound(s, shape, m, |s|)
    ensures var b := BindAll(s, shape, m, |s|); id in Ids(b) && Find(b, id).value.Connector?
  {
    ReboundExact(s, shape, m, |s|, id);
    var i :| 0 <= i < |s| && s[i].id == id && BindLoose(s[i], shape, m) != s[i];
    FindAt(s, i);
    FindBound(s, shape, m, id);
  }

  lemma BindAllUnique(s: Objects, shape: SceneObject, m: real)
    requires shape.Shape? && UniqueIds(s)
    ensures UniqueIds(BindAll(s, shape, m, |s|))
  {
  }

  lemma SelectCases(st: State, wp: Point)
    requires ValidView(st.view) && GrabbedEnd(st, wp).None?
    ensures var hit := TopmostAt(st.scene, wp, SELECT_PAD_PX / st.view.scale);
      SelectDown(st, wp)
      == if hit.None? then st.(selected := None)
         else BeginMove(st.(selected := Some(hit.value.id), action := Some(Moving)), hit.value, wp)
  {
  }

  lemma SelectDownInv(st: State, wp: Point)
    requires Inv(st) && st.editing.None? && st.action.None? && st.temp.None?
    ensures Inv(SelectDown(st, wp))
  {
    NothingLoose(st);
    if GrabbedEnd(st, wp).None? {
      var hit := TopmostAt(st.scene, wp, SELECT_PAD_PX / st.view.scale);
      if hit.Some? {
        BeginMoveInv(st.(selected := Some(hit.value.id)), hit.value, wp);
      }
    }
  }

  lemma CommitEditInv(st: State)
    requires Inv(st) && st.action.None?
    ensures Inv(CommitEdit(st)) && CommitEdit(st).editing.None? && CommitEdit(st).action.None?
    ensures CommitEdit(st).temp == st.temp && Ids(CommitEdit(st).scene) <= Ids(st.scene)
  {
    if st.editing.Some? {
      var e := st.editing.value;
      WithoutIds(st.scene, {e.id});
      var found := Find(st.scene, e.id);
      if found.Some? && (found.value.Text? || found.value.Shape?) {
        UpsertIds(st.scene, WithText(found.value, TrimEnd(TrimStart(e.value))));
      }
    }
  }

  lemma EraseAtInv(st: State, wp: Point)
    requires Inv(st) && st.action == Some(Erasing)
    ensures Inv(EraseAt(st, wp))
  {
    WithoutIds(st.scene, ToSet(HitIds(st.scene, st.erased, wp, ERASE_PAD_PX / st.view.scale, |st.scene|)));
  }

  lemma DownInv(st0: State, e: Press)
    requires Inv(st0) && Possible(st0, PointerDown(e))
    ensures Inv(Down(st0, e))
  {
    CommitEditInv(st0);
    var st := CommitEdit(st0);
    if !e.tool.TextTool? && !e.tool.PanTool? && !e.pans {
      var wp := ToWorld(st.view, e.sx, e.sy);
      if e.tool.SelectTool? {
        SelectDownInv(st, wp);
      } else if e.tool.EraserTool? {
        EraseAtInv(st.(action := Some(Erasing), erased := {}), wp);
      }
    }
  }

  /** The scene and the loose objects may change as long as every held object stays one of its kind. */
  lemma GestureKept(st: State, s: Objects, loose: map<string, SceneObject>)
    requires Inv(st) && UniqueIds(s) && (st.temp.Some? ==> st.temp.value.id !in Ids(s))
    requires loose.Keys <= Held(st) && forall id :: id in loose ==> loose[id].id == id
    requires forall id :: id in Held(st) ==> KindKept(Present(st.scene, st.loose, id), Present(s, loose, id))
    ensures Inv(st.(scene := s, loose := loose))
  {
    hide UniqueIds, Present, Ids;
    if st.move.Some? {
      MoveKept(st, s, loose);
    } else if st.endDrag.Some? {
      assert st.endDrag.value.c in Held(st);
    }
  }

  predicate KindKept(a: Option<SceneObject>, b: Option<SceneObject>) {
    a.Some? ==> b.Some? && SameKind(b.value, a.value)
  }

  lemma MoveKept(st: State, s: Objects, loose: map<string, SceneObject>)
    requires Inv(st) && st.move.Some?
    requires forall id :: id in Held(st) ==> KindKept(Present(st.scene, st.loose, id), Present(s, loose, id))
    ensures ValidMove(s, loose, st.move.value)
  {
    hide UniqueIds, Present, Ids;
    assert st.move.value.obj in Held(st);
    forall id | id in st.move.value.rebound ensures IsConnector(Present(s, loose, id)) {
      assert id in Held(st) && IsConnector(Present(st.scene, st.loose, id));
    }
  }

  /** Writing to one held object changes that object's value only, wherever it is. */
  lemma WriteHeldKeeps(st: State, o: SceneObject)
    requires UniqueIds(st.scene) && Present(st.scene, st.loose, o.id).Some?
    ensures var t := WriteHeld(st, o);
      && UniqueIds(t.scene) && Ids(t.scene) == Ids(st.scene) && t.loose.Keys == st.loose.Keys
      && forall id :: Present(t.scene, t.loose, id) == if id == o.id then Some(o) else Present(st.scene, st.loose, id)
  {
    if o.id !in st.loose {
      var k := FoundIsAt(st.scene, o.id);
      UpsertIds(st.scene, o);
      forall id ensures Find(Upsert(st.scene, o), id) == if id == o.id then Some(o) else Find(st.scene, id) {
        FindUpsert(st.scene, o, id);
      }
    }
  }

  lemma WriteHeldInv(st: State, o: SceneObject)
    requires Inv(st) && Present(st.scene, st.loose, o.id).Some?
    requires SameKind(o, Present(st.scene, st.loose, o.id).value)
    ensures Inv(WriteHeld(st, o)) && WriteHeld(st, o).move == st.move && Held(WriteHeld(st, o)) == Held(st)
    ensures Present(WriteHeld(st, o).scene, WriteHeld(st, o).loose, o.id) == Some(o)
  {
    WriteHeldKeeps(st, o);
    GestureKept(st, WriteHeld(st, o).scene, WriteHeld(st, o).loose);
    hide Inv, UniqueIds, Present, Upsert;
  }

  /** Inv reads nothing of a drag but what it holds and how it started. */
  lemma MovedFlagInv(st: State, m: Move)
    requires Inv(st) && st.move.Some? && m == st.move.value.(moved := m.moved)
    ensures Inv(st.(move := Some(m)))
  {
    hide UniqueIds, Present, Ids;
  }

  /** The dragged object after a move of the pointer. */
  function Dragged(st: State, wp: Point): SceneObject
    requires st.move.Some? && ValidMove(st.scene, st.loose, st.move.value)
  {
    var m := st.move.value;
    Moved(Present(st.scene, st.loose, m.obj).value, m.orig, wp.x - m.start.x, wp.y - m.start.y)
  }

  lemma DraggedFacts(st: State, wp: Point)
    requires Inv(st) && st.action == Some(Moving)
    ensures ValidMove(st.scene, st.loose, st.move.value)
    ensures var o, m := Dragged(st, wp), st.move.value;
      && o.id == m.obj && m.obj in Held(st) && Present(st.scene, st.loose, m.obj).Some?
      && SameKind(o, Present(st.scene, st.loose, m.obj).value)
      && ApplyMove(st, wp)
         == WriteHeld(st, o).(move := Some(m.(moved := m.moved || wp.x != m.start.x || wp.y != m.start.y)))
  {
    PresentHasId(st, st.move.value.obj);
  }

  lemma ApplyMoveInv(st: State, wp: Point)
    requires Inv(st) && st.action == Some(Moving)
    ensures Inv(ApplyMove(st, wp))
  {
    DraggedFacts(st, wp);
    hide Dragged, Inv, ValidMove, Present, WriteHeld, ApplyMove, SameKind, Held;
    WriteHeldInv(st, Dragged(st, wp));
    MovedFlagInv(WriteHeld(st, Dragged(st, wp)), ApplyMove(st, wp).move.value);
  }

  lemma PresentHasId(st: State, id: string)
    requires (forall x :: x in st.loose ==> st.loose[x].id == x) && Present(st.scene, st.loose, id).Some?
    ensures Present(st.scene, st.loose, id).value.id == id
  {
    if id !in st.loose {
      var k := FoundIsAt(st.scene, id);
    }
  }

  lemma DragEndInv(st: State, wp: Point)
    requires Inv(st) && st.action == Some(DraggingEnd)
    ensures Inv(DragEnd(st, wp))
  {
    var d := st.endDrag.value;
    PresentHasId(st, d.c);
    var c := Present(st.scene, st.loose, d.c).value;
    WriteHeldInv(st, EndMoved(c, d.end, wp, RefAt(st.scene, wp, BIND_MARGIN_PX / st.view.scale)));
  }

  lemma DragInv(st: State, sx: real, sy: real)
    requires Inv(st)
    ensures Inv(Drag(st, sx, sy))
  {
    var wp := ToWorld(st.view, sx, sy);
    match st.action
    case Some(Moving) => ApplyMoveInv(st, wp);
    case Some(DraggingEnd) => DragEndInv(st, wp);
    case Some(Erasing) => EraseAtInv(st, wp);
    case _ =>
  }

  lemma AppendUnique(s: Objects, o: SceneObject)
    requires UniqueIds(s) && o.id !in Ids(s)
    ensures UniqueIds(s + [o]) && Upsert(s, o) == s + [o] && Ids(s + [o]) == Ids(s) + {o.id}
  {
    UpsertIds(s, o);
  }

  lemma UpInv(st: State)
    requires Inv(st)
    ensures Inv(Up(st)) && Up(st).action.None? && Up(st).temp.None?
  {
    if st.temp.Some? && st.action.Some? {
      var o := Finished(st.action.value, st.temp.value);
      if o.Some? { AppendUnique(st.scene, o.value); }
    }
  }

  lemma ClickInv(st: State, e: Press)
    requires Inv(st) && Possible(st, Click(e))
    ensures Inv(ClickAt(st, e))
  {
    if e.tool.TextTool? && st.editing.None? {
      var wp := ToWorld(st.view, e.sx, e.sy);
      AppendUnique(st.scene, Text(e.freshId, wp.x, wp.y, "", e.color, TEXT_SIZE, None));
    }
  }

  /** When the scene drops some objects, every held one keeps its value: it is loose from then on. */
  lemma PresentKept(st: State, s: Objects, gone: set<string>, id: string)
    requires Inv(st) && id in Held(st)
    requires forall x :: x !in gone ==> Find(s, x) == Find(st.scene, x)
    ensures Present(s, LooseAfter(st, gone), id) == Present(st.scene, st.loose, id) && Present(s, LooseAfter(st, gone), id).Some?
  {
    HeldPresent(st, id);
  }

  lemma HeldPresent(st: State, id: string)
    requires Inv(st) && id in Held(st)
    ensures Present(st.scene, st.loose, id).Some?
  {
    assert st.move.Some? && id in st.move.value.rebound ==> IsConnector(Present(st.scene, st.loose, id));
  }

  lemma LooseAfterIds(st: State, gone: set<string>)
    requires Inv(st)
    ensures LooseAfter(st, gone).Keys <= Held(st)
    ensures forall id :: id in LooseAfter(st, gone) ==> LooseAfter(st, gone)[id].id == id
  {
    forall id | id in LooseAfter(st, gone) ensures LooseAfter(st, gone)[id].id == id {
      if id !in st.loose {
        var k := FoundIsAt(st.scene, id);
      }
    }
  }

  /** Whatever the scene drops in mid-gesture, the gesture can go on. */
  lemma DropInv(st: State, s: Objects, gone: set<string>)
    requires Inv(st) && UniqueIds(s) && (forall x :: x !in gone ==> Find(s, x) == Find(st.scene, x))
    requires st.temp.Some? ==> st.temp.value.id !in Ids(s)
    ensures Inv(st.(scene := s, loose := LooseAfter(st, gone)))
  {
    LooseAfterIds(st, gone);
    forall id | id in Held(st) ensures Present(s, LooseAfter(st, gone), id) == Present(st.scene, st.loose, id) {
      PresentKept(st, s, gone, id);
    }
    GestureKept(st, s, LooseAfter(st, gone));
  }

  lemma SelectionKeepsInv(st: State, sel: Option<string>, log: seq<Msg>)
    requires Inv(st)
    ensures Inv(st.(selected := sel, log := log))
  {
    hide UniqueIds, Present;
  }

  lemma DeleteInv(st: State)
    requires Inv(st)
    ensures Inv(DeleteSelected(st))
  {
    if Truthy(st.selected) {
      var id := st.selected.value;
      WithoutIds(st.scene, {id});
      forall x ensures Find(Without(st.scene, {id}), x) == if x in {id} then None else Find(st.scene, x) {
        FindWithout(st.scene, {id}, x);
      }
      DropInv(st, Without(st.scene, {id}), {id});
      hide LooseAfter, Without, UniqueIds, ValidMove;
    }
  }

  lemma ReceivedInv(st: State, m: Msg)
    requires Inv(st) && Possible(st, Receive(m))
    ensures Inv(Received(st, m))
  {
    ApplyUnique(st.scene, m);
    forall x | x !in TakenOut(st.scene, m) ensures Find(Apply(st.scene, m), x) == Find(st.scene, x) {
      FindApply(st.scene, m, x);
    }
    match m {
      case Add(o) => UpsertIds(st.scene, o);
      case Erase(ids) => WithoutIds(st.scene, ToSet(ids));
      case _ =>
    }
    DropInv(st, Apply(st.scene, m), TakenOut(st.scene, m));
    hide Inv, Apply, LooseAfter, TakenOut;
    SelectionKeepsInv(st.(scene := Apply(st.scene, m), loose := LooseAfter(st, TakenOut(st.scene, m))),
                      Received(st, m).selected, Received(st, m).log);
  }

  lemma ReorderInv(st: State, toFront: bool)
    requires Inv(st)
    ensures Inv(ReorderSelected(st, toFront))
  {
    if Truthy(st.selected) && IndexOf(st.scene, st.selected.value) >= 0 {
      var i := IndexOf(st.scene, st.selected.value);
      var o := Reordered(st.scene, i, toFront);
      UpsertIds(st.scene, o);
      forall id ensures Find(Upsert(st.scene, o), id) == if id == o.id then Some(o) else Find(st.scene, id) {
        FindUpsert(st.scene, o, id);
      }
      assert Upsert(st.scene, o) == st.scene[i := o];
      assert SameKind(o, st.scene[i]) && Find(st.scene, o.id) == Some(st.scene[i]);
      RewrittenInv(st, Upsert(st.scene, o), o);
    }
  }

  lemma RewrittenKind(st: State, s: Objects, o: SceneObject, id: string)
    requires Find(st.scene, o.id).Some? && SameKind(o, Find(st.scene, o.id).value)
    requires Find(s, id) == if id == o.id then Some(o) else Find(st.scene, id)
    ensures KindKept(Present(st.scene, st.loose, id), Present(s, st.loose, id))
  {
    hide Find;
  }

  lemma RewrittenInv(st: State, s: Objects, o: SceneObject)
    requires Inv(st) && UniqueIds(s) && Ids(s) == Ids(st.scene)
    requires Find(st.scene, o.id).Some? && SameKind(o, Find(st.scene, o.id).value)
    requires forall id :: Find(s, id) == if id == o.id then Some(o) else Find(st.scene, id)
    ensures Inv(st.(scene := s))
  {
    assert st.temp.Some? ==> st.temp.value.id !in Ids(s);
    assert st.loose.Keys <= Held(st) && forall id :: id in st.loose ==> st.loose[id].id == id;
    hide *;
    forall id | id in Held(st) ensures KindKept(Present(st.scene, st.loose, id), Present(s, st.loose, id)) {
      RewrittenKind(st, s, o, id);
    }
    GestureKept(st, s, st.loose);
  }

  lemma OtherInv(st: State, e: Event)
    requires Inv(st) && Possible(st, e)
    requires e.DoubleClick? || e.TypeText? || e.ChangeTool? || e.WheelPan? || e.WheelZoom? || e.ResetView?
    ensures Inv(Step(st, e))
  {
    hide EditTarget, ToWorld;
  }

  /** Every event keeps the editor's invariant: unique ids, a usable view, held objects with a value. */
  lemma StepInv(st: State, e: Event)
    requires Inv(st) && Possible(st, e)
    ensures Inv(Step(st, e))
  {
    hide Inv, Down, Drag, Up, ClickAt, DoubleClickAt, DeleteSelected, ReorderSelected, Received;
    match e
    case PointerDown(p) => DownInv(st, p);
    case PointerMove(sx, sy) => DragInv(st, sx, sy);
    case PointerUp => UpInv(st);
    case Click(p) => ClickInv(st, p);
    case CommitText => CommitInv(st);
    case DeleteKey => DeleteInv(st);
    case ReorderKey(toFront) => ReorderInv(st, toFront);
    case ClearBoard => ReceivedInv(st, Clear);
    case Receive(m) => ReceivedInv(st, m);
    case _ => OtherInv(st, e);
  }

  lemma CommitInv(st: State)
    requires Inv(st)
    ensures Inv(CommitEdit(st))
  {
    if st.editing.Some? { CommitEditInv(st); }
  }

  // ---- runs ----

  ghost predicate PossibleRun(st: State, events: seq<Event>)
    requires Inv(st)
    decreases |events|
  {
    events == [] ||
    (Possible(st, events[0]) && (StepInv(st, events[0]); PossibleRun(Step(st, events[0]), events[1..])))
  }

  ghost function Play(st: State, events: seq<Event>): (r: State)
    requires Inv(st) && PossibleRun(st, events)
    ensures Inv(r)
    decreases |events|
  {
    if events == [] then st
    else
      StepInv(st, events[0]);
      Play(Step(st, events[0]), events[1..])
  }

  lemma PlayCons(st: State, e: Event, rest: seq<Event>)
    requires Inv(st) && Possible(st, e) && Inv(Step(st, e)) && PossibleRun(Step(st, e), rest)
    ensures PossibleRun(st, [e] + rest) && Play(st, [e] + rest) == Play(Step(st, e), rest)
  {
    assert ([e] + rest)[1..] == rest;
  }

  /** In every run the scale stays in range and the two coordinate maps stay inverse to each other. */
  lemma ViewOfRun(events: seq<Event>, p: Point, sx: real, sy: real)
    requires PossibleRun(INITIAL, events)
    ensures var v := Play(INITIAL, events).view;
      && MIN_SCALE <= v.scale <= MAX_SCALE
      && (var q := ToScreen(v, p); ToWorld(v, q.x, q.y) == p)
      && (var w := ToWorld(v, sx, sy); ToScreen(v, w) == Point(sx, sy))
  {
    var v := Play(INITIAL, events).view;
    assert ValidView(v);
    hide Play, ToWorld, ToScreen;
    WorldOfScreen(v, p);
    ScreenOfWorld(v, sx, sy);
  }

  /** A press with an editor open commits the text first, and then is a press with none open. */
  lemma DownAfterCommit(st: State, p: Press)
    requires Inv(st) && Possible(st, PointerDown(p))
    ensures var mid := CommitEdit(st);
            && Inv(mid) && AtRest(mid) && Possible(mid, PointerDown(p))
            && Down(st, p) == Down(mid, p)
  {
    hide SelectDown, EraseAt;
    CommitEditInv(st);
    assert CommitEdit(CommitEdit(st)) == CommitEdit(st);
  }
}
