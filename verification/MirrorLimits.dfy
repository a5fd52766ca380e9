/** Where the mirror law ends: runs of the editor after which its peers see something else. */
module MirrorLimits {
  import opened Wrappers
  import opened Protocol
  import opened Scene
  import opened Geometry
  import opened ZOrder
  import opened Viewport
  import opened Gestures
  import opened EditorInvariant
  import opened Mirror

  // ---- the double click that the law excludes ----

  lemma UnsentIsUnknown(st: State, stale: set<string>)
    requires Mirrors(st, stale) && Unsent(st)
    ensures st.editing.value.id !in Ids(Replay(st))
  {
    WithoutIds(st.scene, {st.editing.value.id});
    PairedIds(Replay(st), Known(st), stale, Held(st));
  }

  lemma OneMessageAddsOneId(s: Objects, msg: Msg, id: string)
    requires id !in Ids(s) && (msg.Erase? || (msg.Add? && msg.obj.id != id))
    ensures id !in Ids(Apply(s, msg))
  {
    match msg
    case Add(o) => UpsertIds(s, o);
    case Erase(ids) => WithoutIds(s, ToSet(ids));
  }

  /** The close of an editor says nothing about an object other than the edited one. */
  lemma ClosingOther(st: State, id: string)
    requires st.editing.Some? && st.editing.value.id != id && !st.editing.value.isNew
    requires Find(st.scene, st.editing.value.id).Some? && Find(st.scene, st.editing.value.id).value.id == st.editing.value.id
    requires Find(st.scene, st.editing.value.id).value.Text? || Find(st.scene, st.editing.value.id).value.Shape?
    requires id in Ids(st.scene) && id !in Ids(Replay(st))
    ensures id in Ids(CommitEdit(st).scene) && id !in Ids(Replay(CommitEdit(st)))
  {
    var o, value := Find(st.scene, st.editing.value.id).value, TrimEnd(TrimStart(st.editing.value.value));
    var msg := if o.Text? && value == "" then Erase([o.id]) else Add(WithText(o, value));
    hide Ids, Find, Upsert, Without, Apply, TrimEnd, TrimStart;
    assert CommitEdit(st).log == st.log + [msg];
    FoldSnoc([], st.log, msg);
    OneMessageAddsOneId(Replay(st), msg, id);
    WithoutIds(st.scene, {o.id});
    UpsertIds(st.scene, WithText(o, value));
  }

  /**
   * A double click that opens another text while an unsent one is open breaks the mirror: once the
   * editor is closed the unsent text is in the local scene, and no peer has it.
   */
  lemma OrphanStays(st: State, stale: set<string>, sx: real, sy: real)
    requires Mirrors(st, stale) && st.action.None? && Orphans(st, sx, sy)
    ensures var t, id := CommitEdit(DoubleClickAt(st, sx, sy)), st.editing.value.id;
      && AtRest(t) && id in Ids(t.scene) && id !in Ids(Replay(t)) && t.scene != Replay(t)
  {
    UnsentIsUnknown(st, stale);
    var id, o := st.editing.value.id, EditTarget(st.scene, ToWorld(st.view, sx, sy), SELECT_PAD_PX / st.view.scale).value;
    var mid := DoubleClickAt(st, sx, sy);
    InSceneIsFound(st.scene, o);
    assert mid.editing.value.id == o.id && mid.scene == st.scene && mid.log == st.log && mid.action.None?;
    hide EditTarget, ToWorld, Mirrors, Inv, DoubleClickAt, Upsert, Without, TrimEnd, TrimStart, Ids, Find, Fold, Orphans;
    ClosingOther(mid, id);
  }

  // ---- new objects that arrive while a new text is typed ----

  ghost predicate SameOrder(a: Objects, b: Objects) {
    |a| == |b| && forall i :: 0 <= i < |a| ==> a[i].id == b[i].id
  }

  lemma {:induction false} WithoutConcat(a: Objects, b: Objects, ids: set<string>)
    ensures Without(a + b, ids) == Without(a, ids) + Without(b, ids)
  {
    if a == [] {
      assert a + b == b;
    } else {
      assert a + b == [a[0]] + (a[1..] + b) && a == [a[0]] + a[1..];
      WithoutConcat(a[1..], b, ids);
      WithoutCons(a[0], a[1..] + b, ids);
      WithoutCons(a[0], a[1..], ids);
    }
  }

  lemma OnlyAt(s: Objects, at: nat)
    requires UniqueIds(s) && at < |s|
    ensures s[at].id !in Ids(s[..at]) && s[at].id !in Ids(s[at + 1..])
  {
  }

  lemma WithoutMiddle(a: Objects, x: SceneObject, b: Objects)
    requires x.id !in Ids(a) && x.id !in Ids(b)
    ensures Without(a + ([x] + b), {x.id}) == a + b
  {
    hide *;
    WithoutConcat(a, [x] + b, {x.id});
    WithoutCons(x, b, {x.id});
    WithoutAbsent(a, x.id);
    WithoutAbsent(b, x.id);
    assert [] + b == b;
  }

  lemma WithoutAt(s: Objects, at: nat)
    requires UniqueIds(s) && at < |s|
    ensures Without(s, {s[at].id}) == s[..at] + s[at + 1..]
  {
    hide *;
    OnlyAt(s, at);
    WithoutMiddle(s[..at], s[at], s[at + 1..]);
    assert s == s[..at] + ([s[at]] + s[at + 1..]);
  }

  /** Where the open text lies in the scene. */
  function TextAt(st: State): int
    requires st.editing.Some?
  {
    IndexOf(st.scene, st.editing.value.id)
  }

  lemma StoredInPlace(st: State)
    requires Inv(st) && UnsentIsText(st) && UnsentInScene(st) && Typed(st) != ""
    ensures var at, s := TextAt(st), st.scene;
      && 0 <= at < |s| && s[at].Text? && s[at].id == st.editing.value.id
      && var text := WithText(s[at], Typed(st));
         && CommitEdit(st) == st.(editing := None, scene := s[..at] + [text] + s[at + 1..], log := st.log + [Add(text)])
         && Known(st) == s[..at] + s[at + 1..]
  {
    var at := FoundIsAt(st.scene, st.editing.value.id);
    var text := WithText(st.scene[at], Typed(st));
    assert UniqueIds(st.scene);
    hide TrimStart, TrimEnd, Inv, UniqueIds, Ids, Without, IndexOf;
    WithoutAt(st.scene, at);
    assert st.scene[at := text] == st.scene[..at] + [text] + st.scene[at + 1..];
  }

  lemma SentLast(st: State, t: State, text: SceneObject)
    requires t.log == st.log + [Add(text)] && text.id !in Ids(Replay(st))
    ensures Replay(t) == Replay(st) + [text]
  {
    FoldSnoc([], st.log, Add(text));
  }

  /** Closing the editor of a new text stores it where it lies; at the peers it comes last. */
  lemma ClosedNewText(st: State, stale: set<string>)
    requires Mirrors(st, stale) && st.action.None? && UnsentInScene(st) && Typed(st) != ""
    ensures var t, at, s := CommitEdit(st), TextAt(st), st.scene;
      && 0 <= at < |s| && s[at].Text? && AtRest(t) && UniqueIds(t.scene)
      && var text := WithText(s[at], Typed(st));
         && t.scene == s[..at] + [text] + s[at + 1..]
         && Replay(t) == Replay(st) + [text]
         && Paired(Replay(st), s[..at] + s[at + 1..], stale, {})
  {
    UnsentIsUnknown(st, stale);
    CommitEditInv(st);
    NothingLoose(st);
    assert Inv(st) && UniqueIds(CommitEdit(st).scene) && Paired(Replay(st), Known(st), stale, {});
    StoredInPlace(st);
    hide CommitEdit, TextAt, Typed, Paired, Inv, UniqueIds, Ids, Replay, Known;
    SentLast(st, CommitEdit(st), WithText(st.scene[TextAt(st)], Typed(st)));
  }

  lemma OrderKept(a: Objects, x: SceneObject, b: Objects, m: Objects)
    requires UniqueIds(a + [x] + b) && SameOrder(m, a + b)
    ensures SameOrder(m + [x], a + [x] + b) <==> b == []
  {
    if b != [] {
      var s, n := a + [x] + b, |a + b|;
      assert s[n] == b[|b| - 1] && (m + [x])[n] == x && s[|a|] == x;
    }
  }

  /**
   * From any mirrored state with an editor open, so after any typing and whatever has been
   * received meanwhile: closing it keeps scene and replay in one order, and the mirror law, except
   * when a text that nobody knew is stored in front of objects that came later.
   */
  lemma CloseExactly(st: State, stale: set<string>)
    requires Mirrors(st, stale) && st.editing.Some?
    ensures var t := CommitEdit(st);
      && AtRest(t)
      && (SameOrder(Replay(t), t.scene) <==> !ClosesOvertaken(st))
      && (Mirrors(t, StaleAfter(st, stale, CommitText)) <==> !ClosesOvertaken(st))
  {
    CommitEditInv(st);
    var t, stale' := CommitEdit(st), StaleAfter(st, stale, CommitText);
    if ClosesOvertaken(st) {
      ClosedInFront(st, stale);
      if Mirrors(t, stale') {
        MirroredOrder(t, stale');
      }
    } else {
      CommitTextMirrors(st, stale);
      MirroredOrder(t, stale');
    }
  }

  lemma MirroredOrder(st: State, stale: set<string>)
    requires Mirrors(st, stale) && st.editing.None?
    ensures SameOrder(Replay(st), st.scene)
  {
    hide Inv;
  }

  lemma PairedInOrder(m: Objects, k: Objects, stale: set<string>)
    requires Paired(m, k, stale, {})
    ensures SameOrder(m, k)
  {
  }

  lemma ClosedInFront(st: State, stale: set<string>)
    requires Mirrors(st, stale) && st.action.None? && ClosesOvertaken(st)
    ensures !SameOrder(Replay(CommitEdit(st)), CommitEdit(st).scene)
  {
    assert UnsentInScene(st) && Typed(st) != "" && TextAt(st) != |st.scene| - 1;
    hide *;
    ClosedNewText(st, stale);
    var s, at := st.scene, TextAt(st);
    PairedInOrder(Replay(st), s[..at] + s[at + 1..], stale);
    OrderKept(s[..at], WithText(s[at], Typed(st)), s[at + 1..], Replay(st));
  }

  /**
   * On the canvas the difference in order is seen exactly if one of the objects that came later
   * has the same z as the text: it is drawn above the text here and below it at the peers.
   */
  lemma OvertakenDrawing(st: State, stale: set<string>)
    requires Mirrors(st, stale) && st.action.None? && ClosesOvertaken(st)
    ensures var t, at := CommitEdit(st), TextAt(st);
      && 0 <= at < |st.scene|
      && (DrawnIds(t.scene) == DrawnIds(Replay(t))
          <==> forall o :: o in st.scene[at + 1..] ==> ZOf(o) != ZOf(st.scene[at]))
  {
    assert UnsentInScene(st) && Typed(st) != "";
    hide *;
    ClosedNewText(st, stale);
    var at := TextAt(st);
    var a, b, text := st.scene[..at], st.scene[at + 1..], WithText(st.scene[at], Typed(st));
    assert ZOf(text) == ZOf(st.scene[at]) by { TextKeepsZ(st.scene[at], Typed(st)); }
    PairedByZ(Replay(st), a + b, stale, text);
    MovedToEnd(a, text, b);
  }

  lemma TextKeepsZ(o: SceneObject, value: string)
    requires o.Text?
    ensures ZOf(WithText(o, value)) == ZOf(o)
  {
  }

  lemma PairedByZ(m: Objects, k: Objects, stale: set<string>, x: SceneObject)
    requires Paired(m, k, stale, {})
    ensures DrawnIds(m + [x]) == DrawnIds(k + [x])
  {
    forall i | 0 <= i < |m| ensures m[i].id == k[i].id && ZOf(m[i]) == ZOf(k[i]) {
      assert PairOk(m[i], k[i], stale, {});
    }
    hide DrawnIds;
    DrawnByZ(m + [x], k + [x]);
  }

  lemma MovedToEnd(a: Objects, x: SceneObject, b: Objects)
    requires UniqueIds(a + [x] + b)
    ensures DrawnIds(a + [x] + b) == DrawnIds(a + b + [x]) <==> forall o :: o in b ==> ZOf(o) != ZOf(x)
  {
    var s := a + [x] + b;
    forall i | 0 <= i < |b| ensures b[i] != x {
      assert s[|a|].id != s[|a| + 1 + i].id;
    }
    hide DrawnIds, UniqueIds, OrderedScene;
    PassedUnseen(a, x, b);
    DrawnIdsExact(s, a + b + [x]);
  }

  // ---- objects taken out of a gesture's hands ----

  /** What the release of a drag tells peers: of a connector's end, that connector. */
  function ToldAtRelease(st: State): seq<string>
    requires Inv(st) && st.action in {Some(Moving), Some(DraggingEnd)}
  {
    if st.action == Some(Moving) then ReleasedIds(st.move.value) else [st.endDrag.value.c]
  }

  /**
   * Whatever happened to the scene: a release tells peers each object in hand, also if the scene
   * no longer has it, or has another in its place. So the two differ in a told object exactly if
   * it was taken out of the scene in mid-gesture, and did not come back as it is in hand.
   */
  lemma LooseRelease(st: State, id: string)
    requires Inv(st) && st.action in {Some(Moving), Some(DraggingEnd)} && id in ToldAtRelease(st)
    ensures var t := Up(st);
      && t.scene == st.scene && Find(Replay(t), id) == Present(st.scene, st.loose, id) && Find(Replay(t), id).Some?
      && (Find(t.scene, id) != Find(Replay(t), id)
          <==> id in st.loose && Find(st.scene, id) != Some(st.loose[id]))
  {
    var ids := ToldAtRelease(st);
    ReleaseReplayed(st);
    hide Inv, Up, Fold, Broadcasts, ToldAtRelease;
    BroadcastLast(st.scene, st.loose, ids, id, Replay(st));
  }

  /** After a broadcast peers have the broadcast objects as they are. */
  lemma {:induction false} BroadcastLast(s: Objects, loose: map<string, SceneObject>, ids: seq<string>, id: string, m: Objects)
    requires AllPresent(s, loose, ids)
    ensures Find(Fold(m, Broadcasts(s, loose, ids)), id) == if id in ids then Present(s, loose, id) else Find(m, id)
  {
    if ids != [] {
      var front, last := ids[..|ids| - 1], ids[|ids| - 1];
      assert ids == front + [last];
      BroadcastLast(s, loose, front, id, m);
      var o := Present(s, loose, last).value;
      FoldSnoc(m, Broadcasts(s, loose, front), Add(o));
      FindApply(Fold(m, Broadcasts(s, loose, front)), Add(o), id);
    }
  }

  /** The event takes an object out of the scene for good, here and at the peers. */
  predicate TakesOut(st: State, e: Event, id: string) {
    match e
    case DeleteKey => st.editing.None? && st.selected == Some(id) && id != ""
    case ClearBoard => true
    case Receive(m) => !m.Add? && EffectOn(m, id).Some?
    case _ => false
  }

  /** The drag holds an object that neither the scene nor any peer has. */
  ghost predicate OutOfScene(st: State, id: string) {
    && Inv(st) && st.action == Some(Moving) && st.move.value.obj == id
    && id in st.loose && id !in Ids(st.scene) && id !in Ids(Replay(st))
  }

  /** The message that such an event applies and logs. */
  function Removal(e: Event, id: string): Msg {
    match e
    case DeleteKey => Erase([id])
    case Receive(m) => m
    case _ => Clear
  }

  lemma RemovalApplied(st: State, e: Event, id: string)
    requires Inv(st) && TakesOut(st, e, id)
    ensures var msg := Removal(e, id);
      && Step(st, e).scene == Apply(st.scene, msg) && Step(st, e).log == st.log + [msg]
      && EffectOn(msg, id) == Some(Effect.Gone)
      && Step(st, e).move == st.move && Step(st, e).action == st.action
    ensures id in Held(st) && id in Ids(st.scene) && id !in st.loose ==> id in Step(st, e).loose
  {
    assert ToSet([id]) == {id};
    hide Inv, Without;
  }

  lemma TakenOutOfHand(st: State, e: Event, id: string)
    requires Inv(st) && st.loose == map[] && st.action == Some(Moving) && st.move.value.obj == id
    requires Possible(st, e) && TakesOut(st, e, id)
    ensures OutOfScene(Step(st, e), id) && Step(st, e).move == st.move
  {
    StepInv(st, e);
    assert id in Held(st);
    HeldPresent(st, id);
    RemovalApplied(st, e, id);
    var msg := Removal(e, id);
    hide Inv, Step, Apply, Fold, Removal, Held, TakesOut, EffectOn, Possible;
    FindApply(st.scene, msg, id);
    FindApply(Replay(st), msg, id);
    FoldSnoc([], st.log, msg);
  }

  lemma DragOutOfScene(st: State, id: string, sx: real, sy: real)
    requires OutOfScene(st, id)
    ensures OutOfScene(Step(st, PointerMove(sx, sy)), id)
  {
    DragInv(st, sx, sy);
    DragObjectIs(st, sx, sy);
    var wp := ToWorld(st.view, sx, sy);
    DraggedFacts(st, wp);
    hide Inv, Drag, ToWorld, Dragged, ValidMove;
  }

  /** A drag on, by any number of moves. */
  ghost function DragOn(st: State, to: seq<(real, real)>): (r: State)
    requires Inv(st)
    ensures Inv(r)
  {
    if to == [] then st
    else
      var before := DragOn(st, to[..|to| - 1]);
      var e := PointerMove(to[|to| - 1].0, to[|to| - 1].1);
      StepInv(before, e);
      Step(before, e)
  }

  lemma {:induction false} DragOnOutOfScene(st: State, id: string, to: seq<(real, real)>)
    requires OutOfScene(st, id)
    ensures OutOfScene(DragOn(st, to), id)
  {
    if to != [] {
      DragOnOutOfScene(st, id, to[..|to| - 1]);
      DragOutOfScene(DragOn(st, to[..|to| - 1]), id, to[|to| - 1].0, to[|to| - 1].1);
    }
  }

  /**
   * If the object in hand is deleted, erased or cleared in mid-drag, then once the drag is
   * released the scene does not have it, and peers have it again exactly if the drag has moved.
   */
  lemma HeldObjectReturns(st: State, e: Event, to: seq<(real, real)>)
    requires Inv(st) && st.loose == map[] && st.action == Some(Moving)
    requires Possible(st, e) && TakesOut(st, e, st.move.value.obj)
    ensures Inv(Step(st, e))
    ensures var id, held := st.move.value.obj, DragOn(Step(st, e), to);
      var t := Step(held, PointerUp);
      && held.move.Some? && t.action.None? && id !in Ids(t.scene)
      && (id in Ids(Replay(t)) <==> held.move.value.moved)
  {
    var id := st.move.value.obj;
    TakenOutOfHand(st, e, id);
    DragOnOutOfScene(Step(st, e), id, to);
    ReleasedOutOfScene(DragOn(Step(st, e), to), id);
  }

  lemma NotRebound(st: State)
    requires Inv(st) && st.action == Some(Moving)
    ensures var mv := st.move.value; mv.obj in ReleasedIds(mv) <==> mv.moved
  {
    var mv := st.move.value;
    assert mv.obj in mv.rebound ==> IsConnector(Present(st.scene, st.loose, mv.obj));
  }

  lemma ReleaseReplayed(st: State)
    requires Inv(st) && st.action in {Some(Moving), Some(DraggingEnd)}
    ensures var ids := ToldAtRelease(st);
      && AllPresent(st.scene, st.loose, ids) && Up(st).scene == st.scene && Up(st).action.None?
      && Replay(Up(st)) == Fold(Replay(st), Broadcasts(st.scene, st.loose, ids))
  {
    var ids := ToldAtRelease(st);
    ReleasedPresent(st, ids);
    FoldConcat([], st.log, Broadcasts(st.scene, st.loose, ids));
  }

  lemma ReleasedOutOfScene(st: State, id: string)
    requires OutOfScene(st, id)
    ensures Up(st).action.None? && id !in Ids(Up(st).scene)
    ensures id in Ids(Replay(Up(st))) <==> st.move.value.moved
  {
    var ids := ReleasedIds(st.move.value);
    NotRebound(st);
    ReleaseReplayed(st);
    hide Inv, Up, Fold, Broadcasts, ReleasedIds, AllPresent;
    BroadcastLast(st.scene, st.loose, ids, id, Replay(st));
  }

  // ---- such runs exist ----

  const BOUND := Connector("c", 0.0, 0.0, 100.0, 0.0, "ink", 4.0, true, Some("s"), None, None)

  const GRAB := Press(0.0, 0.0, SelectTool, false, "ink", 4.0, "paper", "fresh")

  lemma FindInSingleton(o: SceneObject, id: string)
    ensures Find([o], id) == if o.id == id then Some(o) else None
    ensures Ids([o]) == {o.id}
  {
    assert [o] == [o] + [];
    FindCons(o, [], id);
  }

  lemma OnItsOwnEnd(p: Point, b: Point, t: real)
    requires t >= 0.0
    ensures Within(DistToSeg2(p, p, b), t)
  {
    ClosestParamIsClosest(p, p, b, 0.0);
    assert Dist2(p, Along(p, b, 0.0)) == 0.0;
    assert Sq(t) >= 0.0 by { SquarePositive(t); }
  }

  lemma LoneObjectIsTopmost(o: SceneObject, p: Point, pad: real)
    requires HitTest([o], o, p, pad)
    ensures TopmostAt([o], p, pad) == Some(o)
  {
    hide HitTest;
    assert Order([o], 0) == [];
    assert Order([o], 1) == [0];
    assert OrderedScene([o]) == [o];
  }

  lemma EndsOfBound()
    ensures ResolveEnds([BOUND], BOUND) == Ends(Point(0.0, 0.0), Point(100.0, 0.0))
  {
    FindInSingleton(BOUND, "s");
    assert BOUND.id[0] != "s"[0];
  }

  /** A lone connector is selected by a press on the first of its ends. */
  lemma PressOnFirstEnd(c: SceneObject, p: Point, pad: real)
    requires c.Connector? && pad + c.width / 2.0 >= 0.0 && ResolveEnds([c], c).a == p
    ensures TopmostAt([c], p, pad) == Some(c)
  {
    OnItsOwnEnd(p, ResolveEnds([c], c).b, pad + c.width / 2.0);
    hide DistToSeg2, ResolveEnds, TopmostAt, Within;
    LoneObjectIsTopmost(c, p, pad);
  }

  lemma BoundIsHit()
    ensures TopmostAt([BOUND], Point(0.0, 0.0), 6.0) == Some(BOUND)
  {
    EndsOfBound();
    hide ResolveEnds, TopmostAt;
    PressOnFirstEnd(BOUND, Point(0.0, 0.0), 6.0);
  }

  /** A run of possible events, spelt out state by state. */
  lemma FourPlayed(s0: State, s1: State, s2: State, s3: State, s4: State, e0: Event, e1: Event, e2: Event, e3: Event)
    requires Inv(s0) && Inv(s1) && Inv(s2) && Inv(s3) && Inv(s4)
    requires Possible(s0, e0) && Possible(s1, e1) && Possible(s2, e2) && Possible(s3, e3)
    requires Step(s0, e0) == s1 && Step(s1, e1) == s2 && Step(s2, e2) == s3 && Step(s3, e3) == s4
    ensures PossibleRun(s0, [e0, e1, e2, e3]) && Play(s0, [e0, e1, e2, e3]) == s4
  {
    hide Step, Inv, Possible;
    assert PossibleRun(s4, []) && Play(s4, []) == s4;
    PlayCons(s3, e3, []);
    PlayCons(s2, e2, [e3]);
    PlayCons(s1, e1, [e2, e3]);
    PlayCons(s0, e0, [e1, e2, e3]);
    assert [e3] + [] == [e3] && [e2] + [e3] == [e2, e3] && [e1] + [e2, e3] == [e1, e2, e3];
    assert [e0] + [e1, e2, e3] == [e0, e1, e2, e3];
  }

  lemma FivePlayed(s0: State, s1: State, s2: State, s3: State, s4: State, s5: State,
                   e0: Event, e1: Event, e2: Event, e3: Event, e4: Event)
    requires Inv(s0) && Inv(s1) && Inv(s2) && Inv(s3) && Inv(s4) && Inv(s5)
    requires Possible(s0, e0) && Possible(s1, e1) && Possible(s2, e2) && Possible(s3, e3) && Possible(s4, e4)
    requires Step(s0, e0) == s1 && Step(s1, e1) == s2 && Step(s2, e2) == s3 && Step(s3, e3) == s4 && Step(s4, e4) == s5
    ensures PossibleRun(s0, [e0, e1, e2, e3, e4]) && Play(s0, [e0, e1, e2, e3, e4]) == s5
  {
    hide Step, Inv, Possible;
    FourPlayed(s1, s2, s3, s4, s5, e1, e2, e3, e4);
    PlayCons(s0, e0, [e1, e2, e3, e4]);
    assert [e0] + [e1, e2, e3, e4] == [e0, e1, e2, e3, e4];
  }

  // The states of the first run below, one after each event.
  const S1 := INITIAL.(scene := [BOUND], log := [Add(BOUND)])
  const S2 := S1.(action := Some(Moving), selected := Some("c"), move := Some(Move(Point(0.0, 0.0), "c", false, BOUND, [])))
  const S3 := S2.(scene := [Unbind(BOUND)])
  const S4 := S3.(action := None, move := None)

  lemma BoundAllowed()
    ensures Inv(S1) && Allowed(S1, PointerDown(GRAB)) && CommitEdit(S1) == S1
  {
    FindInSingleton(BOUND, "c");
    assert |"fresh"| != |"c"|;
  }

  lemma SelectBound()
    ensures ValidView(S1.view) && SelectDown(S1, Point(0.0, 0.0)) == S2
  {
    BoundIsHit();
    hide TopmostAt, ToWorld, EraseAt;
    assert GrabbedEnd(S1, Point(0.0, 0.0)) == None;
    assert SELECT_PAD_PX / S1.view.scale == 6.0;
    assert BeginMove(S1.(selected := Some("c"), action := Some(Moving)), BOUND, Point(0.0, 0.0)) == S2;
  }

  lemma PressBound()
    ensures Inv(S1) && Allowed(S1, PointerDown(GRAB)) && Step(S1, PointerDown(GRAB)) == S2
  {
    BoundAllowed();
    SelectBound();
    assert ToWorld(RESET_VIEW, 0.0, 0.0) == Point(0.0, 0.0);
    hide ToWorld, SelectDown, EraseAt, Inv, Allowed, CommitEdit;
  }

  lemma MoveBound()
    ensures Inv(S2) && Step(S2, PointerMove(0.0, 0.0)) == S3
  {
    FindInSingleton(BOUND, "c");
    assert ToWorld(RESET_VIEW, 0.0, 0.0) == Point(0.0, 0.0);
    hide ToWorld;
    MovedNowhere(BOUND, BOUND);
    assert Upsert([BOUND], Unbind(BOUND)) == [Unbind(BOUND)];
    assert Drag(S2, 0.0, 0.0) == ApplyMove(S2, Point(0.0, 0.0));
  }

  lemma ReleaseBound()
    ensures Inv(S3) && Step(S3, PointerUp) == S4 && Inv(S4)
  {
    FindInSingleton(Unbind(BOUND), "c");
    var none: seq<string> := [];
    assert none + none == none && Broadcasts(S3.scene, map[], none) == [];
    assert S3.log + [] == S3.log;
  }

  /** A bound connector pressed and released with one move event on the spot: its bindings go, no message is sent. */
  lemma DropHappens()
    ensures Inv(INITIAL)
    ensures var events := [Receive(Add(BOUND)), PointerDown(GRAB), PointerMove(0.0, 0.0), PointerUp];
            && AllowedRun(INITIAL, events)
            && Run(INITIAL, {}, events).0 == S4
            && AtRest(S4) && S4.scene == [Unbind(BOUND)] && Replay(S4) == [BOUND] && S4.scene != Replay(S4)
  {
    assert Step(INITIAL, Receive(Add(BOUND))) == S1;
    PressBound();
    MoveBound();
    ReleaseBound();
    ReplayOfOneAdd(BOUND);
    FourSteps(INITIAL, S1, S2, S3, S4, Receive(Add(BOUND)), PointerDown(GRAB), PointerMove(0.0, 0.0), PointerUp);
  }

  lemma ReplayOfOneAdd(o: SceneObject)
    ensures Fold([], [Add(o)]) == [o]
  {
    FoldSnoc([], [], Add(o));
    assert [] + [Add(o)] == [Add(o)];
  }

  lemma FourSteps(s0: State, s1: State, s2: State, s3: State, s4: State, e0: Event, e1: Event, e2: Event, e3: Event)
    requires Inv(s0) && Inv(s1) && Inv(s2) && Inv(s3) && Inv(s4)
    requires Allowed(s0, e0) && Allowed(s1, e1) && Allowed(s2, e2) && Allowed(s3, e3)
    requires Step(s0, e0) == s1 && Step(s1, e1) == s2 && Step(s2, e2) == s3 && Step(s3, e3) == s4
    ensures AllowedRun(s0, [e0, e1, e2, e3]) && Run(s0, {}, [e0, e1, e2, e3]).0 == s4
  {
    hide Step, Inv, Allowed, StaleAfter;
    var r0, r1, r2, r3 := [e0, e1, e2, e3], [e1, e2, e3], [e2, e3], [e3];
    assert r0[1..] == r1 && r1[1..] == r2 && r2[1..] == r3 && r3[1..] == [];
    var stale1 := StaleAfter(s0, {}, e0);
    var stale2 := StaleAfter(s1, stale1, e1);
    var stale3 := StaleAfter(s2, stale2, e2);
    assert AllowedRun(s4, []) && Run(s4, StaleAfter(s3, stale3, e3), []).0 == s4;
    assert AllowedRun(s3, r3) && Run(s3, stale3, r3).0 == s4;
    assert AllowedRun(s2, r2) && Run(s2, stale2, r2).0 == s4;
    assert AllowedRun(s1, r1) && Run(s1, stale1, r1).0 == s4;
  }

  // The same press, then Delete with the button held down, a move, and the release.
  const FAR := Connector("c", 10.0, 0.0, 110.0, 0.0, "ink", 4.0, true, None, None, None)
  const D3 := S2.(scene := [], loose := map["c" := BOUND], selected := None, log := [Add(BOUND), Erase(["c"])])
  const D4 := D3.(loose := map["c" := FAR], move := Some(Move(Point(0.0, 0.0), "c", true, BOUND, [])))
  const D5 := D4.(action := None, move := None, loose := map[], log := [Add(BOUND), Erase(["c"]), Add(FAR)])

  lemma DeleteBound()
    ensures Inv(S2) && Inv(D3) && Step(S2, DeleteKey) == D3
  {
    MoveBound();
    StepInv(S2, DeleteKey);
    FindInSingleton(BOUND, "c");
    assert Held(S2) == {"c"};
    assert LooseAfter(S2, {"c"}) == map["c" := BOUND];
    assert Without([BOUND], {"c"}) == [];
  }

  lemma DragFar()
    ensures Inv(D4) && Step(D3, PointerMove(10.0, 0.0)) == D4
  {
    DeleteBound();
    StepInv(D3, PointerMove(10.0, 0.0));
    assert ToWorld(RESET_VIEW, 10.0, 0.0) == Point(10.0, 0.0);
    hide ToWorld, Inv;
    assert Moved(BOUND, BOUND, 10.0, 0.0) == FAR;
    assert Drag(D3, 10.0, 0.0) == ApplyMove(D3, Point(10.0, 0.0));
  }

  lemma ReleaseFar()
    ensures Inv(D5) && Step(D4, PointerUp) == D5
  {
    DragFar();
    UpInv(D4);
    var ids := ["c"];
    assert ReleasedIds(D4.move.value) == ids;
    assert ids[..0] == [] && Broadcasts([], D4.loose, ids) == Broadcasts([], D4.loose, []) + [Add(FAR)];
    hide Inv;
  }

  /** Delete pressed in mid-drag: the object is gone here, and the release brings it back everywhere else. */
  lemma DeleteHappens()
    ensures var events := [Receive(Add(BOUND)), PointerDown(GRAB), DeleteKey, PointerMove(10.0, 0.0), PointerUp];
            && PossibleRun(INITIAL, events) && Play(INITIAL, events) == D5
            && AtRest(D5) && D5.scene == [] && Replay(D5) == [FAR]
  {
    FirstReceived(BOUND);
    DeleteEnds();
    PressBound();
    DeleteBound();
    DragFar();
    ReleaseFar();
    assert Step(INITIAL, Receive(Add(BOUND))) == S1;
    hide Inv, Step, INITIAL, BOUND, GRAB, FAR, S1, S2, D3, D4, D5;
    FivePlayed(INITIAL, S1, S2, D3, D4, D5, Receive(Add(BOUND)), PointerDown(GRAB), DeleteKey, PointerMove(10.0, 0.0), PointerUp);
  }

  lemma DeleteEnds()
    ensures AtRest(D5) && D5.scene == [] && Replay(D5) == [FAR]
    ensures Possible(D3, PointerMove(10.0, 0.0)) && Possible(D4, PointerUp) && Possible(S2, DeleteKey)
  {
    ReplayOfThree(Add(BOUND), Erase(["c"]), Add(FAR));
    FindInSingleton(BOUND, "c");
    assert Without([BOUND], ToSet(["c"])) == [];
  }

  lemma ReplayOfThree(a: Msg, b: Msg, c: Msg)
    ensures Fold([], [a, b, c]) == Apply(Apply(Apply([], a), b), c)
  {
    ReplayOfTwo(a, b);
    FoldSnoc([], [a, b], c);
    assert [a, b] + [c] == [a, b, c];
    hide Fold, Apply;
  }

  lemma FirstReceived(o: SceneObject)
    ensures Inv(INITIAL) && Possible(INITIAL, Receive(Add(o)))
    ensures Step(INITIAL, Receive(Add(o))) == INITIAL.(scene := [o], log := [Add(o)])
  {
    assert LooseAfter(INITIAL, {o.id}) == map[];
  }

  // ---- runs with the text tool ----

  const TYPE := Press(0.0, 0.0, TextTool, false, "ink", 4.0, "paper", "fresh")
  const BLANK := Text("fresh", 0.0, 0.0, "", "ink", TEXT_SIZE, None)

  /** A press and release of the text tool close an open editor and do nothing else. */
  lemma TextPress(st: State, p: Press, rest: seq<Event>)
    requires Inv(st) && Possible(st, PointerDown(p)) && st.temp.None? && p.tool.TextTool?
    requires Inv(CommitEdit(st)) && PossibleRun(CommitEdit(st), rest)
    ensures PossibleRun(st, [PointerDown(p)] + ([PointerUp] + rest))
    ensures Play(st, [PointerDown(p)] + ([PointerUp] + rest)) == Play(CommitEdit(st), rest)
  {
    var t := CommitEdit(st);
    CommitEditInv(st);
    assert Step(st, PointerDown(p)) == t && Step(t, PointerUp) == t && Possible(t, PointerUp);
    hide CommitEdit, Step, Inv, Possible, Play, PossibleRun;
    PlayCons(t, PointerUp, rest);
    PlayCons(st, PointerDown(p), [PointerUp] + rest);
  }

  // A raised text, and a double click on it with the text tool: two presses and clicks come first.
  const RAISED := Text("t", 0.0, 0.0, "a", "ink", 18.0, Some(1.0))
  const AGAIN := TYPE.(freshId := "again")
  const SECOND := BLANK.(id := "again")
  const O1 := INITIAL.(scene := [RAISED], log := [Add(RAISED)])
  const O2 := O1.(scene := [RAISED, BLANK], selected := Some("fresh"), editing := Some(Editing("fresh", "", true, false)))
  const O3 := O1.(selected := Some("fresh"))
  const O4 := O1.(scene := [RAISED, SECOND], selected := Some("again"), editing := Some(Editing("again", "", true, false)))
  const O5 := O4.(editing := Some(Editing("t", "a", false, true)))
  const O6 := O5.(editing := None, log := [Add(RAISED), Add(RAISED)])

  lemma ClickOnRaised(st: State, p: Press, t: SceneObject)
    requires st == O1.(selected := st.selected) && p == TYPE.(freshId := p.freshId) && p.freshId != "t"
    requires t == BLANK.(id := p.freshId)
    ensures Inv(st) && Possible(st, Click(p)) && Possible(st, PointerDown(p))
    ensures Step(st, Click(p))
         == st.(scene := [RAISED, t], selected := Some(t.id), editing := Some(Editing(t.id, "", true, false)))
    ensures Inv(Step(st, Click(p)))
  {
    FindInSingleton(RAISED, p.freshId);
    assert ToWorld(RESET_VIEW, 0.0, 0.0) == Point(0.0, 0.0);
    hide ToWorld;
    assert ShapeAt([RAISED][..0], Point(0.0, 0.0), 0.0) == None;
    assert ShapeAt([RAISED], Point(0.0, 0.0), 0.0) == None;
    assert [RAISED] + [t] == [RAISED, t];
    StepInv(st, Click(p));
  }

  lemma BothClicks()
    ensures Inv(O1) && Possible(O1, PointerDown(TYPE)) && Possible(O1, Click(TYPE)) && Step(O1, Click(TYPE)) == O2 && Inv(O2)
    ensures Inv(O3) && Possible(O3, Click(AGAIN)) && Step(O3, Click(AGAIN)) == O4 && Inv(O4)
  {
    assert |"fresh"| != |"t"| && |"again"| != |"t"|;
    ClickOnRaised(O1, TYPE, BLANK);
    ClickOnRaised(O3, AGAIN, SECOND);
  }

  /** The second press finds the first text blank, and takes it away. */
  lemma BlankGoes()
    ensures Inv(O2) && Possible(O2, PointerDown(AGAIN)) && CommitEdit(O2) == O3 && CommitEdit(O1) == O1
  {
    BothClicks();
    assert |"fresh"| != |"t"| && "fresh"[0] != "again"[0] && |"again"| != |"t"|;
    FindAt(O2.scene, 1);
    FindInSingleton(RAISED, "fresh");
    WithoutSnoc([RAISED], BLANK, {"fresh"});
    WithoutAbsent([RAISED], "fresh");
    assert [RAISED] + [BLANK] == [RAISED, BLANK];
    hide Inv, Without, Ids;
  }

  lemma RaisedIsTopmost()
    ensures EditTarget([RAISED, SECOND], Point(0.0, 0.0), 6.0) == Some(RAISED)
  {
    var s := [RAISED, SECOND];
    assert s[..1] == [RAISED] && s[..1][..0] == [];
    assert ShapeAt(s[..1][..0], Point(0.0, 0.0), 0.0) == None;
    assert ShapeAt(s[..1], Point(0.0, 0.0), 0.0) == None;
    assert ShapeAt(s, Point(0.0, 0.0), 0.0) == None;
    assert Order(s, 0) == [] && Order(s, 1) == [0] && Order(s, 2) == [1, 0];
    assert OrderedScene(s) == [SECOND, RAISED];
    assert HitTest(s, RAISED, Point(0.0, 0.0), 6.0);
  }

  lemma DoubleClickOnRaised()
    ensures Inv(O5) && Possible(O4, DoubleClick(0.0, 0.0)) && Step(O4, DoubleClick(0.0, 0.0)) == O5
    ensures Orphans(O4, 0.0, 0.0)
  {
    BothClicks();
    RaisedIsTopmost();
    assert ToWorld(RESET_VIEW, 0.0, 0.0) == Point(0.0, 0.0) && SELECT_PAD_PX / O4.view.scale == 6.0;
    IdsAt(O4.scene, 1);
    assert |"again"| != |"t"|;
    hide ToWorld, EditTarget;
    StepInv(O4, DoubleClick(0.0, 0.0));
  }

  lemma CloseOnRaised()
    ensures Inv(O6) && Step(O5, CommitText) == O6
  {
    DoubleClickOnRaised();
    StepInv(O5, CommitText);
    RaisedStored();
    hide Inv, TrimStart, TrimEnd, Find, Upsert;
  }

  lemma RaisedStored()
    ensures TrimStart("a") == "a" && TrimEnd("a") == "a"
    ensures Find([RAISED, SECOND], "t") == Some(RAISED) && Upsert([RAISED, SECOND], RAISED) == [RAISED, SECOND]
  {
    assert [RAISED, SECOND] == [RAISED] + [SECOND];
    FindCons(RAISED, [SECOND], "t");
    UpsertCons(RAISED, [SECOND], RAISED);
  }

  lemma OrphanEnds()
    ensures AtRest(O6) && O6.scene == [RAISED, SECOND] && Replay(O6) == [RAISED]
    ensures Possible(O5, Event.CommitText) && O1.temp.None? && O2.temp.None?
  {
    ReplayOfTwo(Add(RAISED), Add(RAISED));
    hide Fold;
  }

  /** What the second click and the double click do. */
  lemma LastClicks()
    ensures Inv(O3) && PossibleRun(O3, LAST_CLICKS) && Play(O3, LAST_CLICKS) == O6
  {
    BothClicks();
    DoubleClickOnRaised();
    CloseOnRaised();
    OrphanEnds();
    assert LAST_CLICKS == [Click(AGAIN)] + ([DoubleClick(0.0, 0.0)] + ([Event.CommitText] + []));
    hide *;
    assert PossibleRun(O6, []) && Play(O6, []) == O6 by { NoEvents(O6); }
    PlayCons(O5, Event.CommitText, []);
    PlayCons(O4, DoubleClick(0.0, 0.0), [Event.CommitText] + []);
    PlayCons(O3, Click(AGAIN), [DoubleClick(0.0, 0.0)] + ([Event.CommitText] + []));
  }

  lemma NoEvents(st: State)
    requires Inv(st)
    ensures PossibleRun(st, []) && Play(st, []) == st
  {
  }

  lemma NineEvents(a: Event, b: Event, c: Event, d: Event, e: Event, f: Event, rest: seq<Event>)
    requires |rest| == 3
    ensures [a] + ([b] + ([c] + ([d] + ([e] + ([f] + rest))))) == [a, b, c, d, e, f, rest[0], rest[1], rest[2]]
  {
  }

  const LAST_CLICKS := [Click(AGAIN), DoubleClick(0.0, 0.0), Event.CommitText]

  /** A double click on a raised text, with the text tool: the text begun by the second click stays behind. */
  lemma OrphanHappens()
    ensures var events := [Receive(Add(RAISED)), PointerDown(TYPE), PointerUp, Click(TYPE), PointerDown(AGAIN), PointerUp,
                           Click(AGAIN), DoubleClick(0.0, 0.0), Event.CommitText];
            && PossibleRun(INITIAL, events) && Play(INITIAL, events) == O6
            && AtRest(O6) && O6.scene == [RAISED, SECOND] && Replay(O6) == [RAISED]
  {
    OrphanRun();
    OrphanEnds();
    NineEvents(Receive(Add(RAISED)), PointerDown(TYPE), PointerUp, Click(TYPE), PointerDown(AGAIN), PointerUp, LAST_CLICKS);
    hide Play, PossibleRun, Inv, O6, RAISED, SECOND, TYPE, AGAIN;
  }

  lemma OrphanRun()
    ensures Inv(INITIAL)
    ensures var events := [Receive(Add(RAISED))] + ([PointerDown(TYPE)] + ([PointerUp] + ([Click(TYPE)] +
                          ([PointerDown(AGAIN)] + ([PointerUp] + LAST_CLICKS)))));
            PossibleRun(INITIAL, events) && Play(INITIAL, events) == O6
  {
    FirstReceived(RAISED);
    BothClicks();
    BlankGoes();
    LastClicks();
    OrphanEnds();
    assert Step(INITIAL, Receive(Add(RAISED))) == O1 && TYPE.tool.TextTool? && AGAIN.tool.TextTool?;
    hide *;
    TextPress(O2, AGAIN, LAST_CLICKS);
    var r := [PointerDown(AGAIN)] + ([PointerUp] + LAST_CLICKS);
    PlayCons(O1, Click(TYPE), r);
    TextPress(O1, TYPE, [Click(TYPE)] + r);
    PlayCons(INITIAL, Receive(Add(RAISED)), [PointerDown(TYPE)] + ([PointerUp] + ([Click(TYPE)] + r)));
  }

  lemma ReplayOfTwo(a: Msg, b: Msg)
    ensures Fold([], [a, b]) == Apply(Apply([], a), b)
  {
    FoldSnoc([], [], a);
    FoldSnoc([], [a], b);
    assert [] + [a] == [a] && [a] + [b] == [a, b];
  }

  // A click of the text tool on an empty board, a letter, a stranger's object, and the editor closed.
  const PLAIN := Text("t", 0.0, 0.0, "b", "ink", 18.0, None)
  const LETTER := Text("fresh", 0.0, 0.0, "a", "ink", TEXT_SIZE, None)
  const T1 := INITIAL.(scene := [BLANK], selected := Some("fresh"), editing := Some(Editing("fresh", "", true, false)))
  const T2 := T1.(editing := Some(Editing("fresh", "a", true, false)))
  const T3 := T2.(scene := [BLANK, PLAIN], log := [Add(PLAIN)])
  const T4 := T3.(scene := [LETTER, PLAIN], editing := None, log := [Add(PLAIN), Add(LETTER)])

  lemma TypeLetter()
    ensures Inv(T1) && Inv(T2) && Possible(INITIAL, Click(TYPE))
    ensures Step(INITIAL, Click(TYPE)) == T1 && Step(T1, TypeText("a")) == T2
  {
    assert ToWorld(RESET_VIEW, 0.0, 0.0) == Point(0.0, 0.0);
    hide ToWorld;
    assert [] + [BLANK] == [BLANK];
    StepInv(INITIAL, Click(TYPE));
    StepInv(T1, TypeText("a"));
  }

  lemma NothingHeldIsTaken(st: State, gone: set<string>)
    requires Held(st) == {} && st.loose == map[]
    ensures LooseAfter(st, gone) == map[]
  {
  }

  lemma StrangerArrives()
    ensures Inv(T3) && Step(T2, Receive(Add(PLAIN))) == T3
  {
    TypeLetter();
    FindInSingleton(BLANK, "t");
    assert |"fresh"| != |"t"|;
    StepInv(T2, Receive(Add(PLAIN)));
    NothingHeldIsTaken(T2, {PLAIN.id});
    hide Inv, LooseAfter;
    assert [BLANK] + [PLAIN] == [BLANK, PLAIN];
  }

  lemma CloseLetter()
    ensures Inv(T4) && Step(T3, CommitText) == T4
  {
    StrangerArrives();
    StepInv(T3, CommitText);
    assert TrimStart("a") == "a" && TrimEnd("a") == "a";
    FindAt(T3.scene, 0);
    IndexOfAt(T3.scene, 0);
    assert Upsert(T3.scene, LETTER) == [LETTER, PLAIN];
    hide Inv, TrimStart, TrimEnd;
  }

  /** Somebody else's object arrives while a text is typed: the two lie in different orders here and elsewhere. */
  lemma OvertakenHappens()
    ensures var events := [PointerDown(TYPE), PointerUp, Click(TYPE), TypeText("a"), Receive(Add(PLAIN)), Event.CommitText];
            && PossibleRun(INITIAL, events) && Play(INITIAL, events) == T4
            && AtRest(T4) && T4.scene == [LETTER, PLAIN] && Replay(T4) == [PLAIN, LETTER]
  {
    TypeLetter();
    StrangerArrives();
    CloseLetter();
    OvertakenEnds();
    assert CommitEdit(INITIAL) == INITIAL && INITIAL.temp.None? && TYPE.tool.TextTool?;
    hide Inv, Step, CommitEdit, INITIAL, PLAIN, BLANK, LETTER, TYPE, T1, T2, T3, T4;
    FourPlayed(INITIAL, T1, T2, T3, T4, Click(TYPE), TypeText("a"), Receive(Add(PLAIN)), Event.CommitText);
    TextPress(INITIAL, TYPE, [Click(TYPE), TypeText("a"), Receive(Add(PLAIN)), Event.CommitText]);
    assert [PointerDown(TYPE)] + ([PointerUp] + [Click(TYPE), TypeText("a"), Receive(Add(PLAIN)), Event.CommitText])
        == [PointerDown(TYPE), PointerUp, Click(TYPE), TypeText("a"), Receive(Add(PLAIN)), Event.CommitText];
  }

  lemma OvertakenEnds()
    ensures AtRest(T4) && T4.scene == [LETTER, PLAIN] && Replay(T4) == [PLAIN, LETTER]
    ensures Inv(INITIAL) && Possible(INITIAL, PointerDown(TYPE))
    ensures Possible(T1, TypeText("a")) && Possible(T2, Receive(Add(PLAIN))) && Possible(T3, Event.CommitText)
  {
    ReplayOfTwo(Add(PLAIN), Add(LETTER));
    FindInSingleton(PLAIN, "fresh");
    assert |"fresh"| != |"t"|;
    hide Fold;
  }
}
