/**
 * The mirror theorem: folding the messages that the editor applied and broadcast gives the local
 * scene, over every run of complete gestures.
 */
module Mirror {
  import opened Wrappers
  import opened Protocol
  import opened Scene
  import opened Geometry
  import opened ZOrder
  import opened Viewport
  import opened Gestures
  import opened EditorInvariant

  // ---- what peers see, against what the editor shows ----

  predicate UnsentInScene(st: State) { Unsent(st) && st.editing.value.id in Ids(st.scene) }

  /** The part of the local scene that peers should have: all but an unsent text. */
  function Known(st: State): Objects {
    if Unsent(st) then Without(st.scene, {st.editing.value.id}) else st.scene
  }

  predicate UnsentIsText(st: State) {
    UnsentInScene(st) ==> var o := Find(st.scene, st.editing.value.id); o.Some? && o.value.Text?
  }

  /** An object that came while a text was typed lies behind it in the scene, and the text is going to be sent now. */
  predicate ClosesOvertaken(st: State) {
    && UnsentInScene(st) && TrimEnd(TrimStart(st.editing.value.value)) != ""
    && |st.scene| > 0 && st.scene[|st.scene| - 1].id != st.editing.value.id
  }

  /** The scene that folding the log from an empty board gives. */
  function Replay(st: State): Objects {
    Fold([], st.log)
  }

  function Unbind(o: SceneObject): (r: SceneObject)
    ensures r.id == o.id && SameKind(r, o)
  {
    if o.Connector? then o.(fromRef := None, toRef := None) else o
  }

  predicate IsBound(o: SceneObject) {
    o.Connector? && (o.fromRef.Some? || o.toRef.Some?)
  }

  /** Peers still see the bindings that the editor dropped. */
  predicate Drifted(peer: SceneObject, local: SceneObject) {
    IsBound(peer) && local == Unbind(peer)
  }

  // Objects held by the gesture in progress may have changed without a broadcast so far.
  predicate PairOk(peer: SceneObject, local: SceneObject, stale: set<string>, pending: set<string>) {
    && peer.id == local.id
    && (local.id in pending || if local.id in stale then Drifted(peer, local) else peer == local)
  }

  ghost predicate Paired(m: Objects, k: Objects, stale: set<string>, pending: set<string>) {
    && |m| == |k|
    && (forall i :: 0 <= i < |m| ==> PairOk(m[i], k[i], stale, pending))
    && stale <= Ids(k)
  }

  /** Moving an object nowhere from here does no more than unbind it. */
  predicate AtStart(o: SceneObject, orig: SceneObject) {
    SameKind(o, orig) && Moved(o, orig, 0.0, 0.0) == Unbind(o)
  }

  /** Peers have the dragged object; as long as it has not moved, they have it as it is but for dropped bindings. */
  ghost predicate GrabOk(st: State, m: Objects, stale: set<string>) {
    st.action == Some(Moving) && st.move.Some? ==>
      var mv := st.move.value;
      var p, c := Find(m, mv.obj), Find(st.scene, mv.obj);
      && p.Some? && c.Some?
      && (!mv.moved ==>
            && AtStart(c.value, mv.orig)
            && (if mv.obj in stale then Drifted(p.value, c.value) else p == c))
  }

  ghost predicate Mirrors(st: State, stale: set<string>) {
    && Inv(st) && st.loose == map[] && UnsentIsText(st)
    && Paired(Replay(st), Known(st), stale, Held(st)) && GrabOk(st, Replay(st), stale)
  }

  /** The drag that loses bindings locally: of a connector that is bound. */
  predicate Drops(st: State, e: Event) {
    && e.PointerMove? && st.action == Some(Moving) && st.move.Some?
    && var o := Find(st.scene, st.move.value.obj); o.Some? && IsBound(o.value)
  }

  /**
   * A message that comes at the wrong time: it takes out or replaces an object that the gesture
   * holds, or it adds an object under the id of a text that nobody else knows yet.
   */
  predicate Disturbs(st: State, m: Msg) {
    || TakenOut(st.scene, m) * Held(st) != {}
    || (Unsent(st) && m.Add? && m.obj.id == st.editing.value.id)
  }

  /** The events of the runs that the mirror law is about. */
  ghost predicate Allowed(st: State, e: Event)
    requires Inv(st)
  {
    && Possible(st, e)
    && match e
       case PointerDown(_) => !ClosesOvertaken(st)
       case CommitText => !ClosesOvertaken(st)
       case DoubleClick(sx, sy) => !Orphans(st, sx, sy)
       case DeleteKey => st.editing.None? && Truthy(st.selected) ==> st.selected.value !in Held(st)
       case ClearBoard => !Disturbs(st, Clear)
       case Receive(m) => !Disturbs(st, m)
       case _ => true
  }

  /** Messages that a step appends to the log. */
  function News(st: State, e: Event): seq<Msg>
    requires Inv(st)
  {
    Step(st, e).log[|st.log|..]
  }

  function Unmentioned(stale: set<string>, msgs: seq<Msg>): set<string> {
    set id | id in stale && History(msgs, id) == []
  }

  /** Connectors whose bindings a drag has dropped locally and that no message has mentioned since. */
  function StaleAfter(st: State, stale: set<string>, e: Event): set<string>
    requires Inv(st)
  {
    Unmentioned(stale, News(st, e)) +
    (if Drops(st, e) then {st.move.value.obj} else {})
  }

  // ---- folding one message on both sides ----

  lemma PairedIds(m: Objects, k: Objects, stale: set<string>, pending: set<string>)
    requires Paired(m, k, stale, pending)
    ensures Ids(m) == Ids(k) && forall id :: IndexOf(m, id) == IndexOf(k, id)
  {
    SameIdsEverywhere(m, k);
  }

  lemma {:induction false} WithoutPairs(m: Objects, k: Objects, ids: set<string>)
    requires |m| == |k| && forall i :: 0 <= i < |m| ==> m[i].id == k[i].id
    ensures var m', k' := Without(m, ids), Without(k, ids);
            && |m'| == |k'|
            && forall j :: 0 <= j < |m'| ==> exists i :: 0 <= i < |m| && m'[j] == m[i] && k'[j] == k[i] && k[i].id !in ids
  {
    if m != [] {
      WithoutPairs(m[1..], k[1..], ids);
      var m', k' := Without(m[1..], ids), Without(k[1..], ids);
      var a, b := Without(m, ids), Without(k, ids);
      var d := if m[0].id in ids then 0 else 1;
      forall j | 0 <= j < |a| ensures exists i :: 0 <= i < |m| && a[j] == m[i] && b[j] == k[i] && k[i].id !in ids {
        if j >= d {
          assert a[j] == m'[j - d] && b[j] == k'[j - d];
          var i :| 0 <= i < |m[1..]| && m'[j - d] == m[1..][i] && k'[j - d] == k[1..][i] && k[1..][i].id !in ids;
          assert a[j] == m[i + 1] && b[j] == k[i + 1];
        } else {
          assert a[0] == m[0] && b[0] == k[0];
        }
      }
    }
  }

  /** Ids in `stale` that a message leaves alone. */
  function Untouched(stale: set<string>, msg: Msg): set<string> {
    set id | id in stale && EffectOn(msg, id).None?
  }

  lemma UpsertPaired(m: Objects, k: Objects, stale: set<string>, held: set<string>, o: SceneObject)
    requires Paired(m, k, stale, held) && UniqueIds(k)
    ensures Paired(Upsert(m, o), Upsert(k, o), Untouched(stale, Add(o)), held)
  {
    PairedIds(m, k, stale, held);
    UpsertIds(k, o);
    var m', k', stale' := Upsert(m, o), Upsert(k, o), Untouched(stale, Add(o));
    forall i | 0 <= i < |m'| ensures PairOk(m'[i], k'[i], stale', held) {
      if i < |m| && i != IndexOf(k, o.id) {
        assert PairOk(m[i], k[i], stale, held);
        IdsAt(k, i);
        IndexOfAt(k, i);
      }
    }
  }

  lemma ErasePaired(m: Objects, k: Objects, stale: set<string>, held: set<string>, ids: seq<string>)
    requires Paired(m, k, stale, held)
    ensures Paired(Without(m, ToSet(ids)), Without(k, ToSet(ids)), Untouched(stale, Erase(ids)), held)
  {
    WithoutPairs(m, k, ToSet(ids));
    WithoutIds(k, ToSet(ids));
    var m', k', stale' := Without(m, ToSet(ids)), Without(k, ToSet(ids)), Untouched(stale, Erase(ids));
    forall j | 0 <= j < |m'| ensures PairOk(m'[j], k'[j], stale', held) {
      var i :| 0 <= i < |m| && m'[j] == m[i] && k'[j] == k[i] && k[i].id !in ToSet(ids);
      assert PairOk(m[i], k[i], stale, held);
    }
  }

  /** A message applied by both sides keeps them paired, and heals the ids that it mentions. */
  lemma MessagePaired(m: Objects, k: Objects, stale: set<string>, held: set<string>, msg: Msg)
    requires Paired(m, k, stale, held) && UniqueIds(k)
    ensures Paired(Apply(m, msg), Apply(k, msg), Untouched(stale, msg), held)
  {
    match msg
    case Add(o) => UpsertPaired(m, k, stale, held, o);
    case Erase(ids) => ErasePaired(m, k, stale, held, ids);
    case Clear =>
    case _ => assert Untouched(stale, msg) == stale;
  }

  lemma HistoryOfOne(msg: Msg, id: string)
    ensures History([msg], id) == [] <==> EffectOn(msg, id).None?
  {
    assert [msg][..0] == [];
  }

  lemma UnmentionedByOne(stale: set<string>, msg: Msg)
    ensures Unmentioned(stale, [msg]) == Untouched(stale, msg)
  {
    forall id ensures History([msg], id) == [] <==> EffectOn(msg, id).None? {
      HistoryOfOne(msg, id);
    }
  }

  lemma NewsOfOne(st: State, e: Event, msg: Msg, stale: set<string>)
    requires Inv(st) && Step(st, e).log == st.log + [msg] && !Drops(st, e)
    ensures StaleAfter(st, stale, e) == Untouched(stale, msg)
    ensures Replay(Step(st, e)) == Apply(Replay(st), msg)
  {
    assert News(st, e) == [msg];
    hide Inv, Step, Drops, Fold, Apply;
    UnmentionedByOne(stale, msg);
    FoldSnoc([], st.log, msg);
  }

  lemma NewsOfNone(st: State, e: Event, stale: set<string>)
    requires Inv(st) && Step(st, e).log == st.log && !Drops(st, e)
    ensures StaleAfter(st, stale, e) == stale
  {
    assert News(st, e) == [];
  }

  lemma NothingUnsent(st: State)
    requires st.editing.None?
    ensures UnsentIsText(st) && Known(st) == st.scene
  {
  }

  /** From st to r the editor has applied one message and logged it. */
  ghost predicate Synced(st: State, r: State, msg: Msg) {
    && Inv(r) && r.loose == map[] && UnsentIsText(r) && Held(r) == Held(st)
    && r.log == st.log + [msg] && Known(r) == Apply(Known(st), msg)
  }

  /** A step that applies one message locally and logs it keeps the mirror. */
  lemma SyncStep(st: State, stale: set<string>, e: Event, msg: Msg)
    requires Mirrors(st, stale) && !Drops(st, e) && Synced(st, Step(st, e), msg)
    requires GrabOk(Step(st, e), Apply(Replay(st), msg), Untouched(stale, msg))
    ensures Mirrors(Step(st, e), StaleAfter(st, stale, e))
  {
    KnownUnique(st);
    MessagePaired(Replay(st), Known(st), stale, Held(st), msg);
    NewsOfOne(st, e, msg, stale);
  }

  lemma KnownUnique(st: State)
    requires UniqueIds(st.scene)
    ensures UniqueIds(Known(st))
  {
    if Unsent(st) {
      WithoutIds(st.scene, {st.editing.value.id});
    }
  }

  lemma KnownWhenGone(st: State)
    requires !UnsentInScene(st)
    ensures Known(st) == st.scene
  {
    if Unsent(st) {
      WithoutAbsent(st.scene, st.editing.value.id);
    }
  }

  /** A message that does not mention the dragged object leaves peers' copy of it alone. */
  lemma GrabKept(st: State, r: State, stale: set<string>, msg: Msg)
    requires Mirrors(st, stale) && st.action == Some(Moving) && r.action == st.action && r.move == st.move
    requires EffectOn(msg, st.move.value.obj).None?
    requires Find(r.scene, st.move.value.obj) == Find(st.scene, st.move.value.obj)
    ensures GrabOk(r, Apply(Replay(st), msg), Untouched(stale, msg))
  {
    FindApply(Replay(st), msg, st.move.value.obj);
  }

  /** A step that logs nothing and leaves the known scene alone keeps the mirror. */
  lemma QuietStep(st: State, stale: set<string>, e: Event)
    requires Mirrors(st, stale) && !Drops(st, e)
    requires var r := Step(st, e);
             && Inv(r) && r.loose == map[] && UnsentIsText(r)
             && r.log == st.log && Known(r) == Known(st) && Held(r) == Held(st)
             && (r.action == Some(Moving) ==> st.action == Some(Moving) && r.move == st.move && r.scene == st.scene)
    ensures Mirrors(Step(st, e), StaleAfter(st, stale, e))
  {
    NewsOfNone(st, e, stale);
  }

  // ---- text editing ----

  /** Removing or rewriting the unsent text, the last object, leaves the known part alone. */
  lemma UnsentTextEdited(s: Objects, o: SceneObject)
    requires UniqueIds(s) && |s| > 0 && o.id == s[|s| - 1].id
    ensures var front := s[..|s| - 1];
            && Without(s, {o.id}) == front
            && Upsert(s, o) == Upsert(front, o) == front + [o]
  {
    var front, last := s[..|s| - 1], s[|s| - 1];
    LastIdNotInFront(s);
    UnsentTextRewritten(s, o);
    hide UniqueIds, IndexOf, Upsert, Ids;
    WithoutAbsent(front, o.id);
    WithoutSnoc(front, last, {o.id});
    assert s == front + [last];
  }

  lemma UnsentTextRewritten(s: Objects, o: SceneObject)
    requires UniqueIds(s) && |s| > 0 && o.id == s[|s| - 1].id
    ensures var front := s[..|s| - 1]; Upsert(s, o) == Upsert(front, o) == front + [o]
  {
    IndexOfAt(s, |s| - 1);
    LastIdNotInFront(s);
    hide UniqueIds;
  }

  lemma LastIdNotInFront(s: Objects)
    requires UniqueIds(s) && |s| > 0
    ensures s[|s| - 1].id !in Ids(s[..|s| - 1])
  {
  }

  lemma {:induction false} WithoutAbsent(s: Objects, id: string)
    requires id !in Ids(s)
    ensures Without(s, {id}) == s
  {
    if s != [] {
      assert s == [s[0]] + s[1..];
      IdsAt(s, 0);
      assert Ids(s[1..]) <= Ids(s);
      WithoutAbsent(s[1..], id);
    }
  }

  /** The text that closing the editor would store. */
  function Typed(st: State): string
    requires st.editing.Some?
  {
    TrimEnd(TrimStart(st.editing.value.value))
  }

  lemma CommitNewText(st: State)
    requires Inv(st) && st.loose == map[] && UnsentIsText(st) && st.action.None? && UnsentInScene(st)
    requires Typed(st) != "" && !ClosesOvertaken(st)
    ensures var o := Find(st.scene, st.editing.value.id);
      o.Some? && o.value.Text? && Synced(st, CommitEdit(st), Add(WithText(o.value, Typed(st))))
  {
    CommitEditInv(st);
    NothingLoose(st);
    NothingUnsent(CommitEdit(st));
    var id := st.editing.value.id;
    var at := FoundIsAt(st.scene, id);
    assert UniqueIds(st.scene) && |st.scene| > 0 && st.scene[|st.scene| - 1].id == id;
    hide TrimStart, TrimEnd, Inv, Find, Upsert, Ids, UniqueIds, Without;
    UnsentTextEdited(st.scene, st.scene[|st.scene| - 1]);
    UnsentTextEdited(st.scene, WithText(Find(st.scene, id).value, Typed(st)));
  }

  lemma ClosingEmptyText(st: State)
    requires Inv(st) && UnsentIsText(st) && UnsentInScene(st) && Typed(st) == ""
    ensures var e := st.editing.value;
      && CommitEdit(st)
         == st.(editing := None, scene := Known(st), log := if e.isNew then st.log else st.log + [Erase([e.id])])
      && Without(Known(st), {e.id}) == Known(st)
  {
    hide TrimStart, TrimEnd, Inv, UniqueIds, Upsert, Find, Ids;
    WithoutIds(st.scene, {st.editing.value.id});
    WithoutAbsent(Known(st), st.editing.value.id);
  }

  lemma CommitNoText(st: State)
    requires Inv(st) && st.loose == map[] && UnsentIsText(st) && st.action.None? && UnsentInScene(st) && Typed(st) == ""
    ensures var r, e := CommitEdit(st), st.editing.value;
      if e.isNew then r.log == st.log && Known(r) == Known(st) else Synced(st, r, Erase([e.id]))
  {
    CommitEditInv(st);
    ClosingEmptyText(st);
    NothingUnsent(CommitEdit(st));
    var id := st.editing.value.id;
    assert ToSet([id]) == {id};
    hide CommitEdit, Typed, Inv, Without, Known, UnsentIsText, ToSet;
  }

  /** Closing the editor concerns no gesture. */
  lemma CommitFacts(st: State)
    requires Inv(st) && st.loose == map[] && st.action.None?
    ensures var r := CommitEdit(st);
      && Step(st, CommitText) == r && !Drops(st, CommitText)
      && Inv(r) && r.loose == map[] && UnsentIsText(r) && Held(r) == Held(st) && r.action.None?
    ensures forall m, s :: GrabOk(CommitEdit(st), m, s)
  {
    CommitEditInv(st);
    NothingLoose(st);
    NothingUnsent(CommitEdit(st));
    hide Inv, CommitEdit, UnsentIsText;
  }

  lemma CommitNewMirrors(st: State, stale: set<string>)
    requires Mirrors(st, stale) && st.action.None? && UnsentInScene(st) && !ClosesOvertaken(st)
    ensures Mirrors(CommitEdit(st), StaleAfter(st, stale, CommitText))
  {
    CommitFacts(st);
    assert Inv(st) && st.loose == map[] && UnsentIsText(st) && st.editing.Some?;
    hide *;
    var e := st.editing.value;
    if Typed(st) != "" {
      CommitNewText(st);
      SyncStep(st, stale, CommitText, Add(WithText(Find(st.scene, e.id).value, Typed(st))));
    } else {
      CommitNoText(st);
      if e.isNew {
        QuietStep(st, stale, CommitText);
      } else {
        SyncStep(st, stale, CommitText, Erase([e.id]));
      }
    }
  }

  lemma CommitKnownMirrors(st: State, stale: set<string>)
    requires Mirrors(st, stale) && st.action.None? && st.editing.Some? && !UnsentInScene(st)
    ensures Mirrors(CommitEdit(st), StaleAfter(st, stale, CommitText))
  {
    CommitFacts(st);
    KnownWhenGone(st);
    NothingUnsent(CommitEdit(st));
    hide TrimStart, TrimEnd, Paired, Inv, Upsert, Without, Held, GrabOk, Step, Known, UnsentIsText, Drops;
    var e, value := st.editing.value, TrimEnd(TrimStart(st.editing.value.value));
    var found := Find(st.scene, e.id);
    if found.None? || !(found.value.Text? || found.value.Shape?) {
      QuietStep(st, stale, CommitText);
    } else if found.value.Text? && value == "" {
      assert ToSet([e.id]) == {e.id};
      SyncStep(st, stale, CommitText, Erase([e.id]));
    } else {
      SyncStep(st, stale, CommitText, Add(WithText(found.value, value)));
    }
  }

  lemma CommitTextMirrors(st: State, stale: set<string>)
    requires Mirrors(st, stale) && st.action.None? && !ClosesOvertaken(st)
    ensures Mirrors(CommitEdit(st), StaleAfter(st, stale, CommitText))
  {
    if st.editing.None? {
      QuietStep(st, stale, CommitText);
    } else if UnsentInScene(st) {
      CommitNewMirrors(st, stale);
    } else {
      CommitKnownMirrors(st, stale);
    }
  }

  // ---- presses ----

  lemma MoreHeld(m: Objects, k: Objects, stale: set<string>, p: set<string>, q: set<string>)
    requires Paired(m, k, stale, p) && p <= q
    ensures Paired(m, k, stale, q)
  {
    forall i | 0 <= i < |m| ensures PairOk(m[i], k[i], stale, q) {
      assert PairOk(m[i], k[i], stale, p);
    }
  }

  lemma BeginMovePaired(st: State, stale: set<string>, o: SceneObject, wp: Point)
    requires Mirrors(st, stale) && AtRest(st) && o in st.scene
    ensures var r := BeginMove(st.(action := Some(Moving)), o, wp); Paired(Replay(st), r.scene, stale, Held(r))
  {
    NothingLoose(st);
    var r := BeginMove(st.(action := Some(Moving)), o, wp);
    var m, k := Replay(st), st.scene;
    if o.Shape? {
      var margin := BIND_MARGIN_PX / st.view.scale;
      FindBound(k, o, margin, o.id);
      forall i | 0 <= i < |m| ensures PairOk(m[i], r.scene[i], stale, Held(r)) {
        assert PairOk(m[i], k[i], stale, {});
        if r.scene[i] != k[i] {
          ReboundExact(k, o, margin, |k|, k[i].id);
        }
      }
    } else {
      MoreHeld(m, k, stale, {}, Held(r));
    }
  }

  lemma BeginMoveGrab(st: State, stale: set<string>, o: SceneObject, wp: Point)
    requires Mirrors(st, stale) && AtRest(st) && o in st.scene
    ensures GrabOk(BeginMove(st.(action := Some(Moving)), o, wp), Replay(st), stale)
  {
    NothingLoose(st);
    var m, k := Replay(st), st.scene;
    InSceneIsFound(k, o);
    var at := FoundIsAt(k, o.id) by { InSceneHasId(k, o); }
    PairedIds(m, k, stale, {});
    assert PairOk(m[at], k[at], stale, {});
    assert Find(m, o.id) == Some(m[at]);
    MovedNowhere(o, o);
    hide Paired, Inv;
    if o.Shape? {
      FindBound(k, o, BIND_MARGIN_PX / st.view.scale, o.id);
      hide BindAll, Rebound;
    }
  }

  lemma BeginMoveMirrors(st: State, stale: set<string>, o: SceneObject, wp: Point)
    requires Mirrors(st, stale) && AtRest(st) && st.temp.None? && o in st.scene
    ensures Mirrors(BeginMove(st.(action := Some(Moving)), o, wp), stale)
  {
    NothingLoose(st);
    BeginMoveInv(st, o, wp);
    BeginMovePaired(st, stale, o, wp);
    BeginMoveGrab(st, stale, o, wp);
    hide Inv, Paired, GrabOk, BindAll, Rebound, Held;
  }

  lemma GrabEndMirrors(st: State, stale: set<string>, c: string, end: End)
    requires Mirrors(st, stale) && AtRest(st)
    requires Inv(st.(action := Some(DraggingEnd), endDrag := Some(EndDrag(c, end))))
    ensures Mirrors(st.(action := Some(DraggingEnd), endDrag := Some(EndDrag(c, end))), stale)
  {
    NothingLoose(st);
    hide Inv, Paired;
    MoreHeld(Replay(st), st.scene, stale, {}, {c});
  }

  lemma SelectionAlone(st: State, stale: set<string>, sel: Option<string>)
    requires Mirrors(st, stale)
    ensures Mirrors(st.(selected := sel), stale)
  {
    hide Paired, Find;
  }

  lemma SelectDownMirrors(st: State, stale: set<string>, wp: Point)
    requires Mirrors(st, stale) && AtRest(st) && st.temp.None?
    ensures Mirrors(SelectDown(st, wp), stale) && SelectDown(st, wp).log == st.log
  {
    SelectDownInv(st, wp);
    var hit := TopmostAt(st.scene, wp, SELECT_PAD_PX / st.view.scale);
    hide TopmostAt, GrabbedEnd, BeginMove;
    if GrabbedEnd(st, wp).Some? {
      hide Inv, Paired, Mirrors;
      GrabEndMirrors(st, stale, Selection(st).value.id, GrabbedEnd(st, wp).value);
    } else {
      SelectCases(st, wp);
      hide SelectDown;
      var sel := if hit.Some? then Some(hit.value.id) else None;
      SelectionAlone(st, stale, sel);
      hide Inv, Mirrors;
      if hit.Some? {
        BeginMoveMirrors(st.(selected := sel), stale, hit.value, wp);
        BeginMoveLogs(st.(selected := sel, action := Some(Moving)), hit.value, wp);
      }
    }
  }

  lemma BeginMoveLogs(st: State, o: SceneObject, wp: Point)
    requires ValidView(st.view)
    ensures BeginMove(st, o, wp).log == st.log
  {
  }

  lemma SelectIsDown(st: State, p: Press)
    requires Inv(st) && AtRest(st) && p.tool.SelectTool? && !p.pans
    ensures st.temp.None? && ValidView(st.view) && Step(st, PointerDown(p)) == Down(st, p)
    ensures Down(st, p) == SelectDown(st, ToWorld(st.view, p.sx, p.sy))
  {
    hide SelectDown, ToWorld;
  }

  lemma SelectMirrors(st: State, stale: set<string>, p: Press)
    requires Mirrors(st, stale) && AtRest(st) && Allowed(st, PointerDown(p)) && p.tool.SelectTool? && !p.pans
    ensures Mirrors(Down(st, p), StaleAfter(st, stale, PointerDown(p)))
  {
    assert Inv(st) && !Drops(st, PointerDown(p));
    hide *;
    SelectIsDown(st, p);
    SelectDownMirrors(st, stale, ToWorld(st.view, p.sx, p.sy));
    NewsOfNone(st, PointerDown(p), stale);
  }

  /** A press by itself, with no editor open. */
  lemma PressMirrors(st: State, stale: set<string>, p: Press)
    requires Mirrors(st, stale) && AtRest(st) && Allowed(st, PointerDown(p))
    ensures Mirrors(Down(st, p), StaleAfter(st, stale, PointerDown(p)))
  {
    var e := PointerDown(p);
    if p.tool.SelectTool? && !p.pans {
      SelectMirrors(st, stale, p);
    } else if p.tool.EraserTool? && !p.pans {
      var ready := st.(action := Some(Erasing), erased := {});
      NothingLoose(st);
      assert ValidView(ready.view);
      assert Step(st, e) == EraseAt(ready, ToWorld(st.view, p.sx, p.sy)) && !Drops(st, e) by { hide EraseAt, ToWorld; }
      hide EraseAt, ToWorld, Inv, Mirrors, Allowed, Step;
      EraseMirrors(st, stale, e, ToWorld(st.view, p.sx, p.sy), ready);
    } else {
      StepInv(st, e);
      hide Paired, GrabOk, EraseAt;
      QuietStep(st, stale, e);
    }
  }

  /** Erasing, from a press or a drag: `ready` differs from st only in the gesture's own fields. */
  lemma EraseMirrors(st: State, stale: set<string>, e: Event, wp: Point, ready: State)
    requires Mirrors(st, stale) && Allowed(st, e) && Held(st) == {} && st.editing.None? && !Drops(st, e)
    requires ready.scene == st.scene && ready.log == st.log && ready.view == st.view
    requires ready.editing == st.editing && ready.action == Some(Erasing)
    requires Step(st, e) == EraseAt(ready, wp)
    ensures Mirrors(Step(st, e), StaleAfter(st, stale, e))
  {
    StepInv(st, e);
    var hits := HitIds(ready.scene, ready.erased, wp, ERASE_PAD_PX / ready.view.scale, |ready.scene|);
    if hits == [] {
      QuietStep(st, stale, e);
    } else {
      SyncStep(st, stale, e, Erase(hits));
    }
  }

  /** A press with an editor open commits the text first; the two steps compose. */
  lemma DownMirrors(st: State, stale: set<string>, p: Press)
    requires Mirrors(st, stale) && Allowed(st, PointerDown(p))
    ensures Mirrors(Down(st, p), StaleAfter(st, stale, PointerDown(p)))
  {
    assert Inv(st);
    hide CommitEdit, Down, Mirrors, Unmentioned;
    DownAfterCommit(st, p);
    DownNews(st, p);
    CommitTextMirrors(st, stale);
    var mid, stale1, e := CommitEdit(st), StaleAfter(st, stale, CommitText), PointerDown(p);
    PressMirrors(mid, stale1, p);
    UnmentionedConcat(stale, News(st, CommitText), News(mid, e));
    assert stale1 == Unmentioned(stale, News(st, CommitText));
    assert StaleAfter(st, stale, e) == StaleAfter(mid, stale1, e);
  }

  lemma DownNews(st: State, p: Press)
    requires Inv(st) && Allowed(st, PointerDown(p)) && Inv(CommitEdit(st))
    requires Down(st, p) == Down(CommitEdit(st), p)
    ensures News(st, PointerDown(p)) == News(st, CommitText) + News(CommitEdit(st), PointerDown(p))
  {
    hide Inv, Down, CommitEdit;
  }

  lemma UnmentionedConcat(stale: set<string>, a: seq<Msg>, b: seq<Msg>)
    ensures Unmentioned(stale, a + b) == Unmentioned(Unmentioned(stale, a), b)
  {
    forall id ensures History(a + b, id) == [] <==> History(a, id) == [] && History(b, id) == [] {
      HistoryConcat(a, b, id);
    }
  }

  // ---- drags ----

  lemma MovedNowhere(o: SceneObject, orig: SceneObject)
    requires o in {orig, Unbind(orig)}
    ensures Moved(o, orig, 0.0, 0.0) == Unbind(orig)
  {
    if orig.Stroke? {
      assert forall i :: 0 <= i < |orig.points| ==> Shift(orig.points[i], Point(0.0, 0.0)) == orig.points[i];
      assert Moved(o, orig, 0.0, 0.0).points == orig.points;
    }
  }

  /** Rewriting a held object in place leaves every pair as good as before. */
  lemma HeldRewritten(m: Objects, k: Objects, stale: set<string>, pending: set<string>, o: SceneObject)
    requires Paired(m, k, stale, pending) && UniqueIds(k) && o.id in Ids(k) && o.id in pending
    ensures Paired(m, Upsert(k, o), stale, pending)
  {
    UpsertIds(k, o);
    var k' := Upsert(k, o);
    forall i | 0 <= i < |m| ensures PairOk(m[i], k'[i], stale, pending) {
      assert PairOk(m[i], k[i], stale, pending);
    }
  }

  /** What a drag of the object in hand drops. */
  function DroppedBy(st: State, e: Event): set<string> {
    if Drops(st, e) then {st.move.value.obj} else {}
  }

  lemma ApplyMoveMirrors(st: State, stale: set<string>, wp: Point, e: Event)
    requires Mirrors(st, stale) && st.action == Some(Moving) && e.PointerMove?
    ensures Mirrors(ApplyMove(st, wp), stale + DroppedBy(st, e))
  {
    ApplyMoveInv(st, wp);
    DraggedFacts(st, wp);
    var mv, o, stale' := st.move.value, Dragged(st, wp), stale + DroppedBy(st, e);
    MoreStale(Replay(st), st.scene, stale, Held(st), DroppedBy(st, e));
    HeldRewritten(Replay(st), st.scene, stale', Held(st), o);
    FindUpsert(st.scene, o, o.id);
    if !mv.moved && wp.x == mv.start.x && wp.y == mv.start.y {
      StayedAtStart(Find(st.scene, mv.obj).value, mv.orig);
    }
  }

  lemma StayedAtStart(c: SceneObject, orig: SceneObject)
    requires AtStart(c, orig)
    ensures AtStart(Unbind(c), orig)
    ensures if IsBound(c) then Drifted(c, Unbind(c)) else Unbind(c) == c
  {
  }

  /** A held object may become stale. */
  lemma MoreStale(m: Objects, k: Objects, stale: set<string>, held: set<string>, more: set<string>)
    requires Paired(m, k, stale, held) && more <= held && more <= Ids(k)
    ensures Paired(m, k, stale + more, held)
  {
    forall i | 0 <= i < |m| ensures PairOk(m[i], k[i], stale + more, held) {
      assert PairOk(m[i], k[i], stale, held);
    }
  }

  lemma DragEndMirrors(st: State, stale: set<string>, wp: Point)
    requires Mirrors(st, stale) && st.action == Some(DraggingEnd)
    ensures Mirrors(DragEnd(st, wp), stale)
  {
    DragEndInv(st, wp);
    var at := FoundIsAt(st.scene, st.endDrag.value.c);
    var o := EndMoved(st.scene[at], st.endDrag.value.end, wp, RefAt(st.scene, wp, BIND_MARGIN_PX / st.view.scale));
    HeldRewritten(Replay(st), st.scene, stale, Held(st), o);
  }

  /** A drag that only moves the view or the object being drawn. */
  lemma DragElsewhere(st: State, stale: set<string>, sx: real, sy: real)
    requires Mirrors(st, stale) && st.action !in {Some(Moving), Some(DraggingEnd), Some(Erasing)}
    ensures Mirrors(Drag(st, sx, sy), StaleAfter(st, stale, PointerMove(sx, sy)))
  {
    hide ToWorld, RefAt, Resized, Paired;
    StepInv(st, PointerMove(sx, sy));
    QuietStep(st, stale, PointerMove(sx, sy));
  }

  lemma DragObjectMirrors(st: State, stale: set<string>, sx: real, sy: real)
    requires Mirrors(st, stale) && st.action in {Some(Moving), Some(DraggingEnd)}
    ensures Mirrors(Drag(st, sx, sy), StaleAfter(st, stale, PointerMove(sx, sy)))
  {
    var e, wp := PointerMove(sx, sy), ToWorld(st.view, sx, sy);
    DragObjectIs(st, sx, sy);
    StaleAfterDrag(st, stale, sx, sy);
    hide Drag, ToWorld, ApplyMove, DragEnd, StaleAfter;
    if st.action == Some(Moving) {
      ApplyMoveMirrors(st, stale, wp, e);
    } else {
      DragEndMirrors(st, stale, wp);
      assert stale + DroppedBy(st, e) == stale;
    }
  }

  lemma StaleAfterDrag(st: State, stale: set<string>, sx: real, sy: real)
    requires Inv(st) && Drag(st, sx, sy).log == st.log
    ensures StaleAfter(st, stale, PointerMove(sx, sy)) == stale + DroppedBy(st, PointerMove(sx, sy))
  {
    assert News(st, PointerMove(sx, sy)) == [];
  }

  lemma DragObjectIs(st: State, sx: real, sy: real)
    requires Inv(st) && st.action in {Some(Moving), Some(DraggingEnd)}
    ensures st.action == Some(Moving) ==> Drag(st, sx, sy) == ApplyMove(st, ToWorld(st.view, sx, sy))
    ensures st.action == Some(DraggingEnd) ==> Drag(st, sx, sy) == DragEnd(st, ToWorld(st.view, sx, sy))
    ensures Drag(st, sx, sy).log == st.log
  {
  }

  lemma DragEraserMirrors(st: State, stale: set<string>, sx: real, sy: real)
    requires Mirrors(st, stale) && st.action == Some(Erasing)
    ensures Mirrors(Drag(st, sx, sy), StaleAfter(st, stale, PointerMove(sx, sy)))
  {
    hide ToWorld, EraseAt, StaleAfter, Paired, GrabOk;
    var e, wp := PointerMove(sx, sy), ToWorld(st.view, sx, sy);
    assert Step(st, e) == EraseAt(st, wp);
    EraseMirrors(st, stale, e, wp, st);
  }

  lemma DragMirrors(st: State, stale: set<string>, sx: real, sy: real)
    requires Mirrors(st, stale)
    ensures Mirrors(Drag(st, sx, sy), StaleAfter(st, stale, PointerMove(sx, sy)))
  {
    hide Drag, Mirrors, StaleAfter;
    if st.action in {Some(Moving), Some(DraggingEnd)} {
      DragObjectMirrors(st, stale, sx, sy);
    } else if st.action == Some(Erasing) {
      DragEraserMirrors(st, stale, sx, sy);
    } else {
      DragElsewhere(st, stale, sx, sy);
    }
  }

  // ---- releases ----

  /** Broadcasting objects one by one gives peers their present values and nothing else. */
  lemma {:induction false} Publish(m: Objects, k: Objects, ids: seq<string>)
    requires UniqueIds(k) && |m| == |k| && forall i :: 0 <= i < |m| ==> m[i].id == k[i].id
    ensures var m' := Fold(m, Broadcasts(k, map[], ids));
            |m'| == |m| && forall i :: 0 <= i < |m| ==> m'[i] == if k[i].id in ids then k[i] else m[i]
  {
    if ids != [] {
      var front, id := ids[..|ids| - 1], ids[|ids| - 1];
      Publish(m, k, front);
      var msgs, at := Broadcasts(k, map[], front), IndexOf(k, id);
      assert ids == front + [id];
      if at >= 0 {
        PublishOne(Fold(m, msgs), k, at);
        FoldSnoc(m, msgs, Add(k[at]));
        assert Broadcasts(k, map[], ids) == msgs + [Add(k[at])];
      } else {
        assert Broadcasts(k, map[], ids) == msgs + [] == msgs;
        forall i | 0 <= i < |k| ensures k[i].id != id { IdsAt(k, i); }
      }
      hide Fold, Broadcasts, Apply, UniqueIds;
    }
  }

  lemma PublishOne(m: Objects, k: Objects, at: nat)
    requires UniqueIds(k) && |m| == |k| && at < |k| && forall i :: 0 <= i < |m| ==> m[i].id == k[i].id
    ensures var m' := Apply(m, Add(k[at]));
            |m'| == |m| && forall i :: 0 <= i < |m| ==> m'[i] == if k[i].id == k[at].id then k[i] else m[i]
  {
    SameIdsEverywhere(m, k);
    IndexOfAt(k, at);
  }

  lemma HistorySnoc(msgs: seq<Msg>, msg: Msg, id: string)
    ensures History(msgs + [msg], id) == [] <==> History(msgs, id) == [] && EffectOn(msg, id).None?
  {
    assert (msgs + [msg])[..|msgs|] == msgs;
  }

  /** Every named object has a value under its own id. */
  predicate AllPresent(s: Objects, loose: map<string, SceneObject>, ids: seq<string>) {
    forall i :: 0 <= i < |ids| ==> Present(s, loose, ids[i]).Some? && Present(s, loose, ids[i]).value.id == ids[i]
  }

  /** Broadcasting a list of objects mentions exactly those. */
  lemma {:induction false} HistoryOfBroadcasts(s: Objects, loose: map<string, SceneObject>, ids: seq<string>, id: string)
    requires AllPresent(s, loose, ids)
    ensures History(Broadcasts(s, loose, ids), id) == [] <==> id !in ids
  {
    if ids != [] {
      var front, last := ids[..|ids| - 1], ids[|ids| - 1];
      HistoryOfBroadcasts(s, loose, front, id);
      HistorySnoc(Broadcasts(s, loose, front), Add(Present(s, loose, last).value), id);
      assert ids == front + [last];
    }
  }

  lemma ReleasedPresent(st: State, ids: seq<string>)
    requires Inv(st) && forall i :: 0 <= i < |ids| ==> ids[i] in Held(st)
    ensures AllPresent(st.scene, st.loose, ids)
  {
    forall i | 0 <= i < |ids|
      ensures Present(st.scene, st.loose, ids[i]).Some? && Present(st.scene, st.loose, ids[i]).value.id == ids[i]
    {
      HeldPresent(st, ids[i]);
      PresentHasId(st, ids[i]);
    }
  }

  /** A release that broadcasts `ids` settles everything held, if what it leaves out is settled already. */
  lemma ReleasePaired(m: Objects, k: Objects, stale: set<string>, held: set<string>, ids: seq<string>)
    requires Paired(m, k, stale, held) && UniqueIds(k)
    requires forall i :: 0 <= i < |k| && k[i].id in held && k[i].id !in ids ==> PairOk(m[i], k[i], stale, {})
    ensures Paired(Fold(m, Broadcasts(k, map[], ids)), k, stale - ToSet(ids), {})
  {
    Publish(m, k, ids);
    var m', stale' := Fold(m, Broadcasts(k, map[], ids)), stale - ToSet(ids);
    forall i | 0 <= i < |m'| ensures PairOk(m'[i], k[i], stale', {}) {
      assert PairOk(m[i], k[i], stale, held);
    }
  }

  lemma UnmentionedByBroadcasts(k: Objects, ids: seq<string>, stale: set<string>)
    requires AllPresent(k, map[], ids)
    ensures Unmentioned(stale, Broadcasts(k, map[], ids)) == stale - ToSet(ids)
  {
    forall id ensures History(Broadcasts(k, map[], ids), id) == [] <==> id !in ids {
      HistoryOfBroadcasts(k, map[], ids, id);
    }
  }

  lemma ReleaseNews(st: State, stale: set<string>, ids: seq<string>)
    requires Inv(st) && AllPresent(st.scene, map[], ids)
    requires Up(st).log == st.log + Broadcasts(st.scene, map[], ids)
    ensures Unmentioned(stale, News(st, PointerUp)) == stale - ToSet(ids)
    ensures Replay(Up(st)) == Fold(Replay(st), Broadcasts(st.scene, map[], ids))
  {
    hide Inv, Up, Broadcasts, Unmentioned, Fold, Ids;
    assert News(st, PointerUp) == Broadcasts(st.scene, map[], ids);
    UnmentionedByBroadcasts(st.scene, ids, stale);
    FoldConcat([], st.log, Broadcasts(st.scene, map[], ids));
  }

  lemma GrabbedSettles(m: Objects, k: Objects, stale: set<string>, held: set<string>, i: nat)
    requires Paired(m, k, stale, held) && UniqueIds(k) && i < |k| && Find(m, k[i].id).Some?
    requires if k[i].id in stale then Drifted(Find(m, k[i].id).value, Find(k, k[i].id).value)
             else Find(m, k[i].id) == Find(k, k[i].id)
    ensures |m| == |k| && PairOk(m[i], k[i], stale, {})
  {
    PairedIds(m, k, stale, held);
    assert PairOk(m[i], k[i], stale, held);
    FindAt(k, i);
    IndexOfAt(k, i);
    hide UniqueIds, Ids, Paired;
  }

  lemma UnmovedGrab(st: State, stale: set<string>, id: string)
    requires Mirrors(st, stale) && st.action == Some(Moving)
    requires id in Held(st) && id !in ReleasedIds(st.move.value)
    ensures Known(st) == st.scene && UniqueIds(st.scene) && Find(Replay(st), id).Some? && Find(st.scene, id).Some?
    ensures if id in stale then Drifted(Find(Replay(st), id).value, Find(st.scene, id).value)
            else Find(Replay(st), id) == Find(st.scene, id)
  {
    assert id == st.move.value.obj;
    hide Find, Fold, Paired, UniqueIds, ValidMove;
  }

  /** What a release of a drag leaves out is the dragged object, if it has not moved. */
  lemma MoveSettles(st: State, stale: set<string>, i: nat)
    requires Mirrors(st, stale) && st.action == Some(Moving)
    requires i < |st.scene| && st.scene[i].id in Held(st) && st.scene[i].id !in ReleasedIds(st.move.value)
    ensures |Replay(st)| == |st.scene| && PairOk(Replay(st)[i], st.scene[i], stale, {})
  {
    UnmovedGrab(st, stale, st.scene[i].id);
    assert Paired(Replay(st), Known(st), stale, Held(st));
    hide *;
    GrabbedSettles(Replay(st), st.scene, stale, Held(st), i);
  }

  lemma ReleasedFacts(st: State, ids: seq<string>)
    requires Inv(st) && st.loose == map[] && st.action in {Some(Moving), Some(DraggingEnd)}
    requires ids == if st.action == Some(Moving) then ReleasedIds(st.move.value) else [st.endDrag.value.c]
    ensures var t := Up(st);
      && Inv(t) && t.action.None? && t.loose == map[] && t.scene == st.scene && t.editing.None?
      && t.log == st.log + Broadcasts(st.scene, map[], ids)
      && Held(t) == {} && UniqueIds(st.scene)
    ensures AllPresent(st.scene, map[], ids)
  {
    UpInv(st);
    ReleasedPresent(st, ids);
  }

  /** At rest the mirror law is about the whole scene. */
  lemma RestMirrors(st: State, stale: set<string>)
    requires Inv(st) && st.loose == map[] && st.action.None? && st.editing.None?
    requires Paired(Replay(st), st.scene, stale, {})
    ensures Mirrors(st, stale)
  {
    NothingLoose(st);
    hide Inv, Paired;
  }

  lemma ReleaseStale(st: State, stale: set<string>, ids: seq<string>)
    requires Inv(st) && Unmentioned(stale, News(st, PointerUp)) == stale - ToSet(ids)
    ensures StaleAfter(st, stale, PointerUp) == stale - ToSet(ids)
  {
  }

  lemma MovingSettles(st: State, stale: set<string>)
    requires Mirrors(st, stale) && st.action == Some(Moving)
    ensures Known(st) == st.scene && |Replay(st)| == |st.scene|
    ensures forall i :: 0 <= i < |st.scene| && st.scene[i].id in Held(st) && st.scene[i].id !in ReleasedIds(st.move.value) ==>
              PairOk(Replay(st)[i], st.scene[i], stale, {})
  {
    assert Known(st) == st.scene;
    hide PairOk, Inv, GrabOk, UniqueIds, Held;
    forall i | 0 <= i < |st.scene| && st.scene[i].id in Held(st) && st.scene[i].id !in ReleasedIds(st.move.value)
      ensures PairOk(Replay(st)[i], st.scene[i], stale, {})
    {
      MoveSettles(st, stale, i);
    }
  }

  lemma UpAfterMoveMirrors(st: State, stale: set<string>)
    requires Mirrors(st, stale) && st.action == Some(Moving)
    ensures Mirrors(Up(st), StaleAfter(st, stale, PointerUp))
  {
    assert Inv(st) && st.loose == map[] && st.move.Some?;
    assert Paired(Replay(st), Known(st), stale, Held(st));
    hide *;
    var ids := ReleasedIds(st.move.value);
    MovingSettles(st, stale);
    ReleasedFacts(st, ids);
    ReleaseNews(st, stale, ids);
    ReleasePaired(Replay(st), st.scene, stale, Held(st), ids);
    ReleaseStale(st, stale, ids);
    RestMirrors(Up(st), stale - ToSet(ids));
  }

  lemma UpAfterEndDragMirrors(st: State, stale: set<string>)
    requires Mirrors(st, stale) && st.action == Some(DraggingEnd)
    ensures Mirrors(Up(st), StaleAfter(st, stale, PointerUp))
  {
    assert Inv(st) && st.loose == map[] && st.endDrag.Some?;
    assert Paired(Replay(st), Known(st), stale, Held(st));
    assert |Replay(st)| == |Known(st)|;
    var ids := [st.endDrag.value.c];
    assert forall id :: id in ToSet(ids) ==> id in ids;
    hide *;
    EndDragHolds(st);
    ReleasedFacts(st, ids);
    ReleaseNews(st, stale, ids);
    ReleasePaired(Replay(st), st.scene, stale, Held(st), ids);
    ReleaseStale(st, stale, ids);
    RestMirrors(Up(st), stale - ToSet(ids));
  }

  lemma EndDragHolds(st: State)
    requires Inv(st) && st.action == Some(DraggingEnd)
    ensures Known(st) == Known(Up(st)) == st.scene && Held(st) == ToSet([st.endDrag.value.c])
  {
  }

  lemma UpAfterDrawingMirrors(st: State, stale: set<string>)
    requires Mirrors(st, stale) && st.action !in {Some(Moving), Some(DraggingEnd)}
    ensures Mirrors(Up(st), StaleAfter(st, stale, PointerUp))
  {
    UpInv(st);
    hide Finished, Paired;
    if st.action.Some? && st.temp.Some? && Finished(st.action.value, st.temp.value).Some? {
      var o := Finished(st.action.value, st.temp.value).value;
      AppendUnique(st.scene, o);
      SyncStep(st, stale, PointerUp, Add(o));
    } else {
      QuietStep(st, stale, PointerUp);
    }
  }

  lemma UpMirrors(st: State, stale: set<string>)
    requires Mirrors(st, stale)
    ensures Mirrors(Up(st), StaleAfter(st, stale, PointerUp))
  {
    assert Inv(st);
    hide Up, Mirrors, StaleAfter;
    if st.action == Some(Moving) {
      UpAfterMoveMirrors(st, stale);
    } else if st.action == Some(DraggingEnd) {
      UpAfterEndDragMirrors(st, stale);
    } else {
      UpAfterDrawingMirrors(st, stale);
    }
  }

  // ---- every step, every run ----

  lemma DeleteSynced(st: State)
    requires Inv(st) && st.loose == map[] && st.editing.None? && Truthy(st.selected) && st.selected.value !in Held(st)
    ensures Synced(st, Step(st, DeleteKey), Erase([st.selected.value])) && !Drops(st, DeleteKey)
    ensures Step(st, DeleteKey).action == st.action && Step(st, DeleteKey).move == st.move
  {
    StepInv(st, DeleteKey);
    var id := st.selected.value;
    assert ToSet([id]) == {id};
    assert LooseAfter(st, {id}) == map[];
    hide Inv, LooseAfter;
  }

  lemma DeleteGrabKept(st: State, stale: set<string>)
    requires Mirrors(st, stale) && st.editing.None? && Truthy(st.selected) && st.selected.value !in Held(st)
    ensures GrabOk(Step(st, DeleteKey), Apply(Replay(st), Erase([st.selected.value])), Untouched(stale, Erase([st.selected.value])))
  {
    assert Inv(st) && st.loose == map[];
    var id, r := st.selected.value, Step(st, DeleteKey);
    if st.action == Some(Moving) {
      var obj := st.move.value.obj;
      assert obj in Held(st) && EffectOn(Erase([id]), obj).None?;
      DeleteLeaves(st, obj);
      hide *;
      DeleteSynced(st);
      GrabKept(st, r, stale, Erase([id]));
    } else {
      DeleteSynced(st);
      hide Inv, Paired, Without, LooseAfter;
    }
  }

  lemma DeleteLeaves(st: State, id: string)
    requires Inv(st) && st.editing.None? && Truthy(st.selected) && st.selected.value != id
    ensures Find(Step(st, DeleteKey).scene, id) == Find(st.scene, id)
  {
    hide Inv, Find, Without, LooseAfter;
    FindWithout(st.scene, {st.selected.value}, id);
  }

  lemma DeleteMirrors(st: State, stale: set<string>)
    requires Mirrors(st, stale) && Allowed(st, DeleteKey)
    ensures Mirrors(Step(st, DeleteKey), StaleAfter(st, stale, DeleteKey))
  {
    assert st.loose == map[];
    if st.editing.None? && Truthy(st.selected) {
      assert st.selected.value !in Held(st);
      assert Inv(st);
      hide *;
      DeleteSynced(st);
      DeleteGrabKept(st, stale);
      SyncStep(st, stale, DeleteKey, Erase([st.selected.value]));
    } else {
      hide Paired, GrabOk;
      QuietStep(st, stale, DeleteKey);
    }
  }

  /** A reorder of the dragged object itself tells peers all about it, dropped bindings included. */
  lemma ReorderedGrab(st: State, stale: set<string>, toFront: bool, i: nat)
    requires Mirrors(st, stale) && Truthy(st.selected) && i == IndexOf(st.scene, st.selected.value) && i < |st.scene|
    ensures var o, r := Reordered(st.scene, i, toFront), ReorderSelected(st, toFront);
      GrabOk(r, Apply(Replay(st), Add(o)), Untouched(stale, Add(o)))
  {
    if st.action == Some(Moving) {
      var o, id := Reordered(st.scene, i, toFront), st.move.value.obj;
      FindUpsert(st.scene, o, id);
      assert Upsert(st.scene, o) == st.scene[i := o];
      FindUpsert(Replay(st), o, id);
      if o.id != id {
        hide Paired;
        GrabKept(st, ReorderSelected(st, toFront), stale, Add(o));
      } else {
        assert Find(st.scene, id) == Some(st.scene[i]);
        RestackedAtStart(st.scene, i, toFront, st.move.value.orig);
        hide Paired, Inv, AtStart;
      }
    }
  }

  lemma RestackedAtStart(s: Objects, i: nat, toFront: bool, orig: SceneObject)
    requires i < |s|
    ensures AtStart(s[i], orig) ==> AtStart(Reordered(s, i, toFront), orig)
  {
  }

  lemma ReorderSynced(st: State, toFront: bool, i: nat)
    requires Inv(st) && st.loose == map[] && st.editing.None?
    requires Truthy(st.selected) && i == IndexOf(st.scene, st.selected.value) && i < |st.scene|
    ensures Synced(st, Step(st, ReorderKey(toFront)), Add(Reordered(st.scene, i, toFront)))
    ensures Step(st, ReorderKey(toFront)) == ReorderSelected(st, toFront) && !Drops(st, ReorderKey(toFront))
  {
    var o, r := Reordered(st.scene, i, toFront), Step(st, ReorderKey(toFront));
    StepInv(st, ReorderKey(toFront));
    assert r == st.(scene := Upsert(st.scene, o), log := st.log + [Add(o)]);
    NothingUnsent(st);
    NothingUnsent(r);
    hide Inv, Reordered, Upsert, Known, UnsentIsText;
  }

  lemma ReorderMirrors(st: State, stale: set<string>, toFront: bool)
    requires Mirrors(st, stale)
    ensures Mirrors(Step(st, ReorderKey(toFront)), StaleAfter(st, stale, ReorderKey(toFront)))
  {
    var e := ReorderKey(toFront);
    if st.editing.None? && Truthy(st.selected) && IndexOf(st.scene, st.selected.value) >= 0 {
      var i := IndexOf(st.scene, st.selected.value);
      ReorderSynced(st, toFront, i);
      ReorderedGrab(st, stale, toFront, i);
      hide *;
      SyncStep(st, stale, e, Add(Reordered(st.scene, i, toFront)));
    } else {
      hide Paired, GrabOk;
      QuietStep(st, stale, e);
    }
  }

  /** A message that takes out nothing held says nothing about anything held. */
  lemma UndisturbedEffect(st: State, m: Msg, id: string)
    requires Inv(st) && st.loose == map[] && id in Held(st) && TakenOut(st.scene, m) * Held(st) == {}
    ensures EffectOn(m, id).None? && Find(Apply(st.scene, m), id) == Find(st.scene, id)
  {
    HeldPresent(st, id);
    FindApply(st.scene, m, id);
    assert id !in TakenOut(st.scene, m);
  }

  lemma WithoutCons(o: SceneObject, s: Objects, ids: set<string>)
    ensures Without([o] + s, ids) == (if o.id in ids then [] else [o]) + Without(s, ids)
  {
    assert ([o] + s)[1..] == s;
  }

  lemma UpsertCons(a: SceneObject, s: Objects, o: SceneObject)
    ensures Upsert([a] + s, o) == if a.id == o.id then [o] + s else [a] + Upsert(s, o)
  {
    assert ([a] + s)[1..] == s;
  }

  /** An add under another id commutes with leaving objects out. */
  lemma {:induction false} WithoutUpsert(s: Objects, o: SceneObject, ids: set<string>)
    requires o.id !in ids
    ensures Without(Upsert(s, o), ids) == Upsert(Without(s, ids), o)
  {
    if s == [] {
      assert Upsert([], o) == [o] + [];
      WithoutCons(o, [], ids);
    } else {
      WithoutUpsert(s[1..], o, ids);
      assert s == [s[0]] + s[1..];
      hide *;
      WithoutUpsertStep(s[0], s[1..], o, ids);
    }
  }

  lemma WithoutUpsertStep(a: SceneObject, rest: Objects, o: SceneObject, ids: set<string>)
    requires o.id !in ids && Without(Upsert(rest, o), ids) == Upsert(Without(rest, ids), o)
    ensures Without(Upsert([a] + rest, o), ids) == Upsert(Without([a] + rest, ids), o)
  {
    hide Upsert, Without;
    UpsertCons(a, rest, o);
    WithoutCons(a, rest, ids);
    UpsertCons(a, Without(rest, ids), o);
    if a.id == o.id {
      WithoutCons(o, rest, ids);
    } else {
      WithoutCons(a, Upsert(rest, o), ids);
      assert a.id in ids ==> [] + Without(rest, ids) == Without(rest, ids);
    }
  }

  lemma {:induction false} WithoutTwice(s: Objects, a: set<string>, b: set<string>)
    ensures Without(Without(s, a), b) == Without(Without(s, b), a)
  {
    if s != [] {
      var o, rest := s[0], s[1..];
      assert s == [o] + rest;
      WithoutTwice(rest, a, b);
      hide Without;
      WithoutCons(o, rest, a);
      WithoutCons(o, rest, b);
      WithoutCons(o, Without(rest, a), b);
      WithoutCons(o, Without(rest, b), a);
      assert [] + Without(rest, a) == Without(rest, a) && [] + Without(rest, b) == Without(rest, b);
    }
  }

  /** A message about other objects commutes with leaving one object out. */
  lemma ApplyAround(s: Objects, m: Msg, id: string)
    requires m.Add? ==> m.obj.id != id
    ensures Without(Apply(s, m), {id}) == Apply(Without(s, {id}), m)
  {
    match m {
      case Add(o) => WithoutUpsert(s, o, {id});
      case Erase(ids) => WithoutTwice(s, ToSet(ids), {id});
      case _ =>
    }
  }

  lemma ReceivedKnown(st: State, m: Msg)
    requires Inv(st) && UnsentIsText(st) && !Disturbs(st, m)
    ensures var r := Received(st, m); UnsentIsText(r) && Known(r) == Apply(Known(st), m)
  {
    if Unsent(st) {
      ApplyAround(st.scene, m, st.editing.value.id);
      FindApply(st.scene, m, st.editing.value.id);
    }
    hide Apply, UniqueIds, Without;
  }

  lemma ReceivedSynced(st: State, e: Event, m: Msg)
    requires Inv(st) && st.loose == map[] && UnsentIsText(st)
    requires Allowed(st, e) && (e == Receive(m) || (e == ClearBoard && m == Clear))
    ensures Step(st, e) == Received(st, m) && Synced(st, Received(st, m), m) && !Drops(st, e)
  {
    StepInv(st, e);
    ReceivedKnown(st, m);
    assert LooseAfter(st, TakenOut(st.scene, m)) == map[];
    hide Inv, Apply, LooseAfter, Known, UnsentIsText;
  }

  lemma ReceivedGrab(st: State, stale: set<string>, m: Msg)
    requires Mirrors(st, stale) && !Disturbs(st, m)
    ensures GrabOk(Received(st, m), Apply(Replay(st), m), Untouched(stale, m))
  {
    if st.action == Some(Moving) {
      UndisturbedEffect(st, m, st.move.value.obj);
      hide Inv, Paired, Apply, LooseAfter, Known, Find, Fold;
      GrabKept(st, Received(st, m), stale, m);
    }
  }

  lemma ReceiveMirrors(st: State, stale: set<string>, e: Event, m: Msg)
    requires Mirrors(st, stale) && Allowed(st, e) && (e == Receive(m) || (e == ClearBoard && m == Clear))
    ensures Mirrors(Step(st, e), StaleAfter(st, stale, e))
  {
    ReceivedSynced(st, e, m);
    ReceivedGrab(st, stale, m);
    hide *;
    SyncStep(st, stale, e, m);
  }

  lemma ClickMirrors(st: State, stale: set<string>, p: Press)
    requires Mirrors(st, stale) && Allowed(st, Click(p))
    ensures Mirrors(Step(st, Click(p)), StaleAfter(st, stale, Click(p)))
  {
    StepInv(st, Click(p));
    ClickKnown(st, p);
    hide ClickAt, Paired, GrabOk, Known;
    QuietStep(st, stale, Click(p));
  }

  lemma NewTextLeftOut(s: Objects, t: SceneObject)
    requires UniqueIds(s) && t.id !in Ids(s)
    ensures Without(s + [t], {t.id}) == s && Find(s + [t], t.id) == Some(t)
  {
    WithoutSnoc(s, t, {t.id});
    WithoutAbsent(s, t.id);
    AppendUnique(s, t);
    FindAt(s + [t], |s|);
  }

  /** A text begun by a click is not among what peers should have. */
  lemma ClickKnown(st: State, p: Press)
    requires Inv(st) && UnsentIsText(st) && Possible(st, Click(p))
    ensures var r := ClickAt(st, p);
      UnsentIsText(r) && Known(r) == Known(st) && r.log == st.log && r.loose == st.loose && Held(r) == Held(st)
      && r.action == st.action && r.move == st.move
  {
    assert UniqueIds(st.scene) && p.freshId !in Ids(st.scene) && ValidView(st.view);
    hide Inv, ToWorld, ShapeAt, Find, Ids, UniqueIds, Without;
    if st.editing.None? && p.tool.TextTool? && ShapeAt(st.scene, ToWorld(st.view, p.sx, p.sy), 0.0).None? {
      var wp := ToWorld(st.view, p.sx, p.sy);
      NewTextLeftOut(st.scene, Text(p.freshId, wp.x, wp.y, "", p.color, TEXT_SIZE, None));
    }
  }

  lemma DoubleClickMirrors(st: State, stale: set<string>, sx: real, sy: real)
    requires Mirrors(st, stale) && Allowed(st, DoubleClick(sx, sy))
    ensures Mirrors(Step(st, DoubleClick(sx, sy)), StaleAfter(st, stale, DoubleClick(sx, sy)))
  {
    StepInv(st, DoubleClick(sx, sy));
    DoubleClickKnown(st, sx, sy);
    hide DoubleClickAt, Paired, GrabOk, Known, Orphans;
    QuietStep(st, stale, DoubleClick(sx, sy));
  }

  lemma DoubleClickKnown(st: State, sx: real, sy: real)
    requires Inv(st) && UnsentIsText(st) && !Orphans(st, sx, sy)
    ensures var r := DoubleClickAt(st, sx, sy);
      UnsentIsText(r) && Known(r) == Known(st) && r.log == st.log && r.loose == st.loose && Held(r) == Held(st)
      && r.action == st.action && r.move == st.move
  {
    if !UnsentInScene(st) {
      KnownWhenGone(st);
    }
    hide ToWorld, EditTarget, Find, UniqueIds, Without;
  }

  /** Typing, tools and view. */
  lemma OtherMirrors(st: State, stale: set<string>, e: Event)
    requires Mirrors(st, stale) && Allowed(st, e)
    requires e.TypeText? || e.ChangeTool? || e.WheelPan? || e.WheelZoom? || e.ResetView?
    ensures Mirrors(Step(st, e), StaleAfter(st, stale, e))
  {
    hide ZoomAt, Paired, GrabOk;
    StepInv(st, e);
    QuietStep(st, stale, e);
  }

  lemma CommitMirrors(st: State, stale: set<string>)
    requires Mirrors(st, stale) && Allowed(st, CommitText)
    ensures Mirrors(CommitEdit(st), StaleAfter(st, stale, CommitText))
  {
    if st.action.None? {
      CommitTextMirrors(st, stale);
    } else {
      QuietStep(st, stale, CommitText);
    }
  }

  /** Every allowed event keeps peers' replay and the local scene in step, up to the stale connectors. */
  lemma StepMirrors(st: State, stale: set<string>, e: Event)
    requires Mirrors(st, stale) && Allowed(st, e)
    ensures Mirrors(Step(st, e), StaleAfter(st, stale, e))
  {
    assert Inv(st);
    hide Mirrors, Inv, StaleAfter, Down, Drag, Up, CommitEdit;
    match e
    case PointerDown(p) => DownMirrors(st, stale, p);
    case PointerMove(sx, sy) => DragMirrors(st, stale, sx, sy);
    case PointerUp => UpMirrors(st, stale);
    case CommitText => CommitMirrors(st, stale);
    case DeleteKey => DeleteMirrors(st, stale);
    case ReorderKey(toFront) => ReorderMirrors(st, stale, toFront);
    case ClearBoard => ReceiveMirrors(st, stale, e, Clear);
    case Receive(m) => ReceiveMirrors(st, stale, e, m);
    case Click(p) => ClickMirrors(st, stale, p);
    case DoubleClick(sx, sy) => DoubleClickMirrors(st, stale, sx, sy);
    case _ => OtherMirrors(st, stale, e);
  }

  ghost predicate AllowedRun(st: State, events: seq<Event>)
    requires Inv(st)
    decreases |events|
  {
    events == [] ||
    (Allowed(st, events[0]) && (StepInv(st, events[0]); AllowedRun(Step(st, events[0]), events[1..])))
  }

  /** The editor's state after a run, and the connectors left stale by it. */
  ghost function Run(st: State, stale: set<string>, events: seq<Event>): (r: (State, set<string>))
    requires Inv(st) && AllowedRun(st, events)
    ensures Inv(r.0)
    decreases |events|
  {
    if events == [] then (st, stale)
    else
      StepInv(st, events[0]);
      Run(Step(st, events[0]), StaleAfter(st, stale, events[0]), events[1..])
  }

  lemma {:induction false} RunMirrors(st: State, stale: set<string>, events: seq<Event>)
    requires Mirrors(st, stale) && AllowedRun(st, events)
    ensures Mirrors(Run(st, stale, events).0, Run(st, stale, events).1)
    decreases |events|
  {
    if events != [] {
      StepMirrors(st, stale, events[0]);
      RunMirrors(Step(st, events[0]), StaleAfter(st, stale, events[0]), events[1..]);
    }
  }

  /** A release on the spot of a connector whose bindings the drag has dropped, and nobody was told. */
  predicate ReleasesDropped(st: State, stale: set<string>, e: Event) {
    e.PointerUp? && st.action == Some(Moving) && st.move.Some? && !st.move.value.moved && st.move.value.obj in stale
  }

  /** Does some release of this run leave dropped bindings untold? */
  ghost predicate DropsSomewhere(st: State, stale: set<string>, events: seq<Event>)
    requires Inv(st) && AllowedRun(st, events)
    decreases |events|
  {
    events != [] &&
    (ReleasesDropped(st, stale, events[0]) ||
     (StepInv(st, events[0]); DropsSomewhere(Step(st, events[0]), StaleAfter(st, stale, events[0]), events[1..])))
  }

  /** The object in hand, the only one that may be stale in a run without such a release. */
  function InHand(st: State): set<string> {
    if st.action == Some(Moving) && st.move.Some? then {st.move.value.obj} else {}
  }

  lemma StaleInHand(st: State, stale: set<string>, e: Event)
    requires Inv(st) && Allowed(st, e) && stale <= InHand(st) && !ReleasesDropped(st, stale, e)
    ensures StaleAfter(st, stale, e) <= InHand(Step(st, e))
  {
    if st.action != Some(Moving) {
      assert StaleAfter(st, {}, e) == {};
    } else if e.PointerUp? {
      ReleaseMentions(st, stale);
    } else {
      StillInHand(st, e);
    }
  }

  lemma StillInHand(st: State, e: Event)
    requires Inv(st) && Allowed(st, e) && st.action == Some(Moving) && !e.PointerUp?
    ensures InHand(Step(st, e)) == InHand(st)
  {
    hide Inv, LooseAfter, WriteHeld, Moved, Present;
    assert Inv(st);
    match e {
      case PointerMove(sx, sy) => InHandDragged(st, sx, sy);
      case _ => OtherInHand(st, e);
    }
  }

  lemma InHandDragged(st: State, sx: real, sy: real)
    requires Inv(st) && st.action == Some(Moving)
    ensures InHand(Drag(st, sx, sy)) == InHand(st)
  {
    DragObjectIs(st, sx, sy);
  }

  lemma OtherInHand(st: State, e: Event)
    requires Inv(st) && Allowed(st, e) && st.action == Some(Moving) && !e.PointerUp? && !e.PointerMove?
    ensures InHand(Step(st, e)) == InHand(st)
  {
    hide EditTarget, ToWorld;
  }

  lemma ReleaseMentions(st: State, stale: set<string>)
    requires Inv(st) && st.action == Some(Moving) && stale <= InHand(st) && !ReleasesDropped(st, stale, PointerUp)
    ensures StaleAfter(st, stale, PointerUp) == {}
  {
    var mv := st.move.value;
    if mv.moved {
      var ids := ReleasedIds(mv);
      assert News(st, PointerUp) == Broadcasts(st.scene, st.loose, ids);
      assert ids[0] == mv.obj;
      ReleasedPresent(st, ids);
      HistoryOfBroadcasts(st.scene, st.loose, ids, mv.obj);
    }
  }

  lemma {:induction false} NothingStale(st: State, stale: set<string>, events: seq<Event>)
    requires Inv(st) && AllowedRun(st, events) && stale <= InHand(st) && !DropsSomewhere(st, stale, events)
    ensures Run(st, stale, events).1 <= InHand(Run(st, stale, events).0)
    decreases |events|
  {
    if events != [] {
      StepInv(st, events[0]);
      StaleInHand(st, stale, events[0]);
      NothingStale(Step(st, events[0]), StaleAfter(st, stale, events[0]), events[1..]);
    }
  }

  /**
   * At rest, after any run from an empty board, replaying the log gives the local scene: the same
   * ids in the same order, equal objects exactly outside the stale set, and a stale object is a
   * connector that peers still see bound.
   */
  lemma MirrorTheorem(events: seq<Event>)
    requires AllowedRun(INITIAL, events)
    requires AtRest(Run(INITIAL, {}, events).0)
    ensures var (st, stale) := Run(INITIAL, {}, events);
            var m := Replay(st);
            && |m| == |st.scene|
            && (forall i :: 0 <= i < |m| ==> m[i].id == st.scene[i].id)
            && (forall i :: 0 <= i < |m| ==> (m[i] == st.scene[i] <==> m[i].id !in stale))
            && (forall i :: 0 <= i < |m| && m[i].id in stale ==> Drifted(m[i], st.scene[i]))
            && (m == st.scene <==> stale == {})
  {
    var (st, stale) := Run(INITIAL, {}, events);
    RunMirrors(INITIAL, {}, events);
    var m := Replay(st);
    forall i | 0 <= i < |m|
      ensures m[i].id == st.scene[i].id && (m[i] == st.scene[i] <==> m[i].id !in stale)
      ensures m[i].id in stale ==> Drifted(m[i], st.scene[i])
    {
      assert PairOk(m[i], st.scene[i], stale, {});
    }
    if id :| id in stale {
      var at := FoundIsAt(st.scene, id);
      assert m[at] != st.scene[at];
    }
  }

  /** The mirror law as the editor means it: no dropped bindings, no difference. */
  lemma MirrorWithoutDrops(events: seq<Event>)
    requires AllowedRun(INITIAL, events) && !DropsSomewhere(INITIAL, {}, events)
    requires AtRest(Run(INITIAL, {}, events).0)
    ensures Fold([], Run(INITIAL, {}, events).0.log) == Run(INITIAL, {}, events).0.scene
  {
    NothingStale(INITIAL, {}, events);
    MirrorTheorem(events);
  }
}
