/**
 * The component itself: scene objects are mutable cells that the scene, a drag and a list of
 * rebound connectors share by reference. Every method is proved to act as the handler of the
 * value machine does.
 */
module BoardCanvas {
  import opened Wrappers
  import opened Sequences
  import opened Protocol
  import opened Scene
  import opened Geometry
  import opened ZOrder
  import opened Viewport
  import opened Gestures
  import opened EditorInvariant

  class Node {
    var o: SceneObject

    constructor (o: SceneObject)
      ensures this.o == o
    {
      this.o := o;
    }
  }

  datatype MoveRef = MoveRef(start: Point, obj: Node, moved: bool, orig: SceneObject, rebound: seq<Node>)

  datatype EndRef = EndRef(c: Node, end: End)

  function Values(nodes: seq<Node>): (s: Objects)
    reads nodes
    ensures |s| == |nodes| && forall i :: 0 <= i < |nodes| ==> s[i] == nodes[i].o
  {
    seq(|nodes|, i reads nodes requires 0 <= i < |nodes| => nodes[i].o)
  }

  function IdsOf(nodes: seq<Node>): (ids: seq<string>)
    reads nodes
    ensures |ids| == |nodes| && forall i :: 0 <= i < |nodes| ==> ids[i] == nodes[i].o.id
  {
    seq(|nodes|, i reads nodes requires 0 <= i < |nodes| => nodes[i].o.id)
  }

  /** A drag, with its shared references named by id. */
  ghost function MoveOf(move: Option<MoveRef>): Option<Move>
    reads if move.Some? then {move.value.obj} + (set n | n in move.value.rebound) else {}
  {
    if move.None? then None
    else var m := move.value; Some(Move(m.start, m.obj.o.id, m.moved, m.orig, IdsOf(m.rebound)))
  }

  ghost function EndOf(endDrag: Option<EndRef>): Option<EndDrag>
    reads if endDrag.Some? then {endDrag.value.c} else {}
  {
    if endDrag.None? then None else Some(EndDrag(endDrag.value.c.o.id, endDrag.value.end))
  }

  /** The cells that the gesture in progress refers to. */
  ghost function HoldOf(move: Option<MoveRef>, endDrag: Option<EndRef>): set<Node> {
    (if move.Some? then {move.value.obj} + (set n | n in move.value.rebound) else {}) +
    (if endDrag.Some? then {endDrag.value.c} else {})
  }

  /** A held cell is in the scene, or it is loose under its own id. */
  ghost predicate HoldOk(scene: seq<Node>, loose: map<string, SceneObject>, hold: set<Node>)
    reads hold
  {
    && (forall n :: n in hold ==> if n in scene then n.o.id !in loose else n.o.id in loose && loose[n.o.id] == n.o)
    && (forall m, n :: m in hold && n in hold && m.o.id == n.o.id ==> m == n)
  }

  ghost predicate Distinct(nodes: seq<Node>) {
    forall i, j :: 0 <= i < j < |nodes| ==> nodes[i] != nodes[j]
  }

  ghost predicate Among(nodes: seq<Node>, scene: seq<Node>) {
    forall n :: n in nodes ==> n in scene
  }

  /** scene.filter: the nodes whose object's id is not in the set, as they are. */
  function Keep(nodes: seq<Node>, ids: set<string>): (r: seq<Node>)
    reads nodes
    ensures Among(r, nodes) && |r| <= |nodes|
  {
    if nodes == [] then []
    else (if nodes[0].o.id in ids then [] else [nodes[0]]) + Keep(nodes[1..], ids)
  }

  lemma {:induction false} KeepMembers(nodes: seq<Node>, ids: set<string>, n: Node)
    ensures n in Keep(nodes, ids) <==> n in nodes && n.o.id !in ids
  {
    if nodes != [] {
      KeepMembers(nodes[1..], ids, n);
      assert nodes == [nodes[0]] + nodes[1..];
    }
  }

  lemma {:induction false} KeepValues(nodes: seq<Node>, ids: set<string>)
    requires Distinct(nodes)
    ensures Values(Keep(nodes, ids)) == Without(Values(nodes), ids)
    ensures Distinct(Keep(nodes, ids))
  {
    if nodes != [] {
      KeepValues(nodes[1..], ids);
      assert Values(nodes)[1..] == Values(nodes[1..]);
      var rest := Keep(nodes[1..], ids);
      assert Values([nodes[0]] + rest) == [nodes[0].o] + Values(rest);
      forall j | 0 <= j < |rest| ensures rest[j] != nodes[0] {
        assert rest[j] in rest;
        var i :| 0 <= i < |nodes[1..]| && nodes[1..][i] == rest[j];
        assert nodes[i + 1] == rest[j];
      }
      assert Keep(nodes, ids) == if nodes[0].o.id in ids then rest else [nodes[0]] + rest;
    }
  }

  lemma BroadcastsStep(s: Objects, loose: map<string, SceneObject>, ids: seq<string>, k: nat, o: SceneObject)
    requires k < |ids| && Present(s, loose, ids[k]) == Some(o)
    ensures Broadcasts(s, loose, ids[..k + 1]) == Broadcasts(s, loose, ids[..k]) + [Add(o)]
  {
    assert ids[..k + 1][..k] == ids[..k];
  }

  lemma {:induction false} BroadcastsConcat(s: Objects, loose: map<string, SceneObject>, a: seq<string>, b: seq<string>)
    ensures Broadcasts(s, loose, a + b) == Broadcasts(s, loose, a) + Broadcasts(s, loose, b)
  {
    if b == [] {
      assert a + b == a;
    } else {
      assert (a + b)[..|a + b| - 1] == a + b[..|b| - 1];
      BroadcastsConcat(s, loose, a, b[..|b| - 1]);
    }
  }

  class BoardCanvas {
    var scene: seq<Node>
    var log: seq<Msg>
    var view: View
    var action: Option<Action>
    var temp: Option<SceneObject>
    var panStart: PanStart
    var erased: set<string>
    var selected: Option<string>
    var move: Option<MoveRef>
    var endDrag: Option<EndRef>
    var editing: Option<Editing>
    ghost var loose: map<string, SceneObject>   // the held cells that the scene has dropped

    /** The cells that the scene holds now. */
    ghost function Cells(): set<Node>
      reads this
    {
      set n | n in scene
    }

    ghost function Hold(): set<Node>
      reads this
    {
      HoldOf(move, endDrag)
    }

    ghost function Reach(): set<Node>
      reads this
    {
      Cells() + Hold()
    }

    /** The value-level state that this object stands for. */
    ghost function Abs(): State
      reads this, Reach()
    {
      State(Values(scene), log, view, action, temp, panStart, erased, selected, MoveOf(move), EndOf(endDrag), editing, loose)
    }

    /** Every cell is in the scene at most once, and every held one is there or known to be loose. */
    ghost predicate Linked()
      reads this, Reach()
    {
      Distinct(scene) && HoldOk(scene, loose, Hold())
    }

    ghost predicate Valid()
      reads this, Reach()
    {
      Linked() && Inv(Abs())
    }

    constructor ()
      ensures Valid() && Abs() == INITIAL
    {
      scene, log, view, action, temp := [], [], RESET_VIEW, None, None;
      panStart, erased, selected := PanStart(0.0, 0.0, 0.0, 0.0), {}, None;
      move, endDrag, editing, loose := None, None, None, map[];
    }

    // ---- the callbacks for remote messages ----

    /** Replace the cell of the object with this id, or append a new cell. */
    method Place(o: SceneObject)
      requires Distinct(scene) && UniqueIds(Values(scene))
      modifies this`scene
      ensures Distinct(scene) && Values(scene) == old(Upsert(Values(scene), o))
      ensures fresh(Cells() - old(Cells()))
      ensures forall n :: n in old(scene) ==> (n in scene <==> n.o.id != o.id)
    {
      var i := IndexOf(Values(scene), o.id);
      var n := new Node(o);
      if i >= 0 {
        assert forall j :: 0 <= j < |scene| && j != i ==> scene[j].o.id != o.id && scene[i := n][j] == scene[j];
        scene := scene[i := n];
      } else {
        assert forall j :: 0 <= j < |scene| ==> scene[j].o.id != o.id by {
          forall j | 0 <= j < |scene| ensures scene[j].o.id != o.id { IdsAt(Values(scene), j); }
        }
        scene := scene + [n];
      }
    }

    lemma HeldIds(st: State)
      requires st.move == MoveOf(move) && st.endDrag == EndOf(endDrag)
      ensures forall id :: id in Held(st) <==> exists n :: n in Hold() && n.o.id == id
    {
      forall id ensures id in Held(st) <==> exists n :: n in Hold() && n.o.id == id {
        if n :| n in Hold() && n.o.id == id {
          if move.Some? && n in move.value.rebound {
            var i :| 0 <= i < |move.value.rebound| && move.value.rebound[i] == n;
            assert IdsOf(move.value.rebound)[i] == id;
          }
        }
        if move.Some? && id in IdsOf(move.value.rebound) {
          var i :| 0 <= i < |move.value.rebound| && IdsOf(move.value.rebound)[i] == id;
          assert move.value.rebound[i] in Hold();
        }
      }
    }

    /** When the scene drops cells, the held ones among them become loose, with the value they have. */
    lemma LooseLinked(s0: seq<Node>, st: State, gone: set<string>, s1: seq<Node>)
      requires HoldOk(s0, st.loose, Hold()) && st.scene == Values(s0) && UniqueIds(st.scene)
      requires st.move == MoveOf(move) && st.endDrag == EndOf(endDrag)
      requires forall n :: n in Hold() ==> (n in s1 <==> n in s0 && n.o.id !in gone)
      ensures HoldOk(s1, LooseAfter(st, gone), Hold())
    {
      HeldIds(st);
      forall n | n in Hold()
        ensures if n in s1 then n.o.id !in LooseAfter(st, gone)
                else n.o.id in LooseAfter(st, gone) && LooseAfter(st, gone)[n.o.id] == n.o
      {
        if n in s0 {
          var i :| 0 <= i < |s0| && s0[i] == n;
          FindAt(st.scene, i);
        }
        assert n.o.id in Held(st);
      }
    }

    /** Put an object in; a held cell that it replaces becomes loose. */
    method PutIn(o: SceneObject)
      requires Linked() && UniqueIds(Values(scene))
      modifies this`scene, this`loose
      ensures Linked() && fresh(Cells() - old(Cells()))
      ensures Abs() == old(Abs()).(scene := old(Upsert(Values(scene), o)), loose := old(LooseAfter(Abs(), {o.id})))
    {
      ghost var st, s0 := Abs(), scene;
      hide UniqueIds, Upsert, Values, LooseAfter, HoldOk, IdsOf;
      Place(o);
      loose := LooseAfter(st, {o.id});
      assert forall n :: n in Hold() ==> (n in scene <==> n in s0 && n.o.id !in {o.id});
      LooseLinked(s0, st, {o.id}, scene);
    }

    /** Take objects out; the held cells among them become loose. */
    method TakeOut(ids: set<string>)
      requires Linked() && UniqueIds(Values(scene))
      modifies this`scene, this`loose
      ensures Linked() && Cells() <= old(Cells())
      ensures Abs() == old(Abs()).(scene := old(Without(Values(scene), ids)), loose := old(LooseAfter(Abs(), ids)))
    {
      ghost var st, s0 := Abs(), scene;
      hide UniqueIds, Without, Values, LooseAfter, HoldOk, IdsOf;
      DropIds(ids);
      loose := LooseAfter(st, ids);
      assert forall n :: n in Hold() ==> (n in scene <==> n in s0 && n.o.id !in ids);
      LooseLinked(s0, st, ids, scene);
    }

    /** Log a message and set the selection. */
    method Note(m: Msg, sel: Option<string>)
      requires Linked()
      modifies this`log, this`selected
      ensures Linked() && log == old(log) + [m] && selected == sel
      ensures Abs() == old(Abs()).(log := old(log) + [m], selected := sel)
    {
      hide HoldOk, Distinct, Values, IdsOf;
      selected, log := sel, log + [m];
    }

    lemma MessageSteps(st: State)
      requires Inv(st)
      ensures UniqueIds(st.scene)
      ensures forall o ::
        Step(st, Receive(Add(o)))
        == st.(scene := Upsert(st.scene, o), loose := LooseAfter(st, {o.id}), selected := st.selected, log := st.log + [Add(o)])
      ensures forall ids ::
        Step(st, Receive(Erase(ids)))
        == st.(scene := Without(st.scene, ToSet(ids)), loose := LooseAfter(st, ToSet(ids)), log := st.log + [Erase(ids)],
               selected := if Truthy(st.selected) && st.selected.value in ids then None else st.selected)
      ensures Step(st, Receive(Clear))
        == st.(scene := [], loose := LooseAfter(st, Ids(st.scene)), selected := None, log := st.log + [Clear])
    {
    }

    method ApplyAdd(o: SceneObject)
      requires Valid() && Possible(Abs(), Receive(Add(o)))
      modifies this
      ensures Valid() && Abs() == old(Step(Abs(), Receive(Add(o))))
      ensures fresh(Cells() - old(Cells()))
    {
      ghost var st := Abs();
      StepInv(st, Receive(Add(o)));
      MessageSteps(st);
      assert Linked() && st.scene == Values(scene) && st.log == log && st.selected == selected;
      hide Inv, Upsert, Step, Values, LooseAfter, UniqueIds, Linked, Abs, Possible, Received;
      PutIn(o);
      Note(Add(o), selected);
    }

    method ApplyErase(ids: seq<string>)
      requires Valid()
      modifies this
      ensures Valid() && Abs() == old(Step(Abs(), Receive(Erase(ids))))
      ensures Cells() <= old(Cells())
    {
      ghost var st := Abs();
      StepInv(st, Receive(Erase(ids)));
      MessageSteps(st);
      assert Linked() && st.scene == Values(scene) && st.log == log && st.selected == selected;
      hide Inv, Step, Values, Without, ToSet, LooseAfter, UniqueIds, Linked, Abs, Received;
      TakeOut(ToSet(ids));
      Note(Erase(ids), if Truthy(selected) && selected.value in ids then None else selected);
    }

    method ClearAll()
      requires Valid()
      modifies this
      ensures Valid() && Abs() == old(Step(Abs(), Receive(Clear))) && scene == []
    {
      ghost var st := Abs();
      StepInv(st, Receive(Clear));
      MessageSteps(st);
      assert Linked() && st.scene == Values(scene) && st.log == log;
      hide Inv, Step, Values, LooseAfter, UniqueIds, Linked, Abs, Received, Ids;
      EmptyScene();
      Note(Clear, None);
    }

    method EmptyScene()
      requires Linked() && UniqueIds(Values(scene))
      modifies this`scene, this`loose
      ensures Linked() && scene == []
      ensures Abs() == old(Abs()).(scene := [], loose := old(LooseAfter(Abs(), Ids(Values(scene)))))
    {
      ghost var st, s0 := Abs(), scene;
      AllGone(s0);
      hide UniqueIds, LooseAfter, HoldOk, IdsOf, Ids;
      scene := [];
      loose := LooseAfter(st, Ids(st.scene));
      LooseLinked(s0, st, Ids(st.scene), scene);
    }

    lemma AllGone(s: seq<Node>)
      ensures forall n :: n in s ==> n.o.id in Ids(Values(s))
    {
      forall n | n in s ensures n.o.id in Ids(Values(s)) {
        var i :| 0 <= i < |s| && s[i] == n;
        IdsAt(Values(s), i);
      }
    }

    /** The dispatch of an incoming message to the callbacks; other kinds do nothing to the scene. */
    method OnMessage(m: Msg)
      requires Valid() && Possible(Abs(), Receive(m))
      modifies this
      ensures Valid() && Abs() == old(Step(Abs(), Receive(m)))
      ensures fresh(Cells() - old(Cells()))
    {
      match m
      case Add(o) => ApplyAdd(o);
      case Erase(ids) => ApplyErase(ids);
      case Clear => ClearAll();
      case _ => LogOnly(m);
    }

    method LogOnly(m: Msg)
      requires Valid() && (m.Draw? || m.Transient?)
      modifies this`log, this`selected
      ensures Valid() && Abs() == old(Step(Abs(), Receive(m)))
    {
      ghost var st := Abs();
      StepInv(st, Receive(m));
      NothingTaken(st, m);
      assert Linked();
      hide Inv, Step, Linked, Abs;
      Note(m, selected);
    }

    lemma NothingTaken(st: State, m: Msg)
      requires Inv(st) && (m.Draw? || m.Transient?)
      ensures Step(st, Receive(m)) == st.(log := st.log + [m], selected := st.selected)
    {
      assert LooseAfter(st, {}) == st.loose;
    }

    // ---- hit testing ----

    method HitObject(o: SceneObject, p: Point, pad: real) returns (hit: bool)
      ensures hit == HitTest(Values(scene), o, p, pad)
    {
      match o
      case Stroke(_, _, width, points, _) => hit := StrokeIsHit(points, p, pad + width / 2.0);
      case _ => hit := HitTest(Values(scene), o, p, pad);
    }

    method FindTopmost(p: Point) returns (hit: Option<Node>)
      requires ValidView(view)
      ensures hit.Some? ==> hit.value in scene
      ensures TopmostAt(Values(scene), p, SELECT_PAD_PX / view.scale) == if hit.Some? then Some(hit.value.o) else None
    {
      var s, pad := Values(scene), SELECT_PAD_PX / view.scale;
      var order, ord := Order(s, |s|), OrderedScene(s);
      assert TopmostAt(s, p, pad) == FrontHit(s, ord, p, pad);
      hide HitTest, TopmostAt, Order, FrontHit;
      var i := |ord| - 1;
      assert ord[..|ord|] == ord;
      while i >= 0
        invariant -1 <= i < |ord|
        invariant FrontHit(s, ord, p, pad) == FrontHit(s, ord[..i + 1], p, pad)
      {
        var n := scene[order[i]];
        FrontStep(s, ord, i, p, pad);
        var found := HitObject(n.o, p, pad);
        if found {
          return Some(n);
        }
        i := i - 1;
      }
      FrontNone(s, ord, p, pad);
      return None;
    }

    lemma FrontStep(s: Objects, ord: Objects, i: nat, p: Point, pad: real)
      requires i < |ord|
      ensures FrontHit(s, ord[..i + 1], p, pad)
           == if HitTest(s, ord[i], p, pad) then Some(ord[i]) else FrontHit(s, ord[..i], p, pad)
    {
      assert ord[..i + 1][..i] == ord[..i];
    }

    lemma FrontNone(s: Objects, ord: Objects, p: Point, pad: real)
      ensures FrontHit(s, ord[..0], p, pad) == None
    {
    }

    // ---- gestures ----

    method SetView(v: View)
      requires Linked()
      modifies this`view
      ensures Linked() && Abs() == old(Abs()).(view := v)
    {
      hide Values, IdsOf, HoldOk, Distinct;
      view := v;
    }

    method SetSelected(sel: Option<string>)
      requires Linked()
      modifies this`selected
      ensures Linked() && Abs() == old(Abs()).(selected := sel)
    {
      hide Values, IdsOf, HoldOk, Distinct;
      selected := sel;
    }

    method SetTemp(a: Option<Action>, t: Option<SceneObject>)
      requires Linked()
      modifies this`action, this`temp
      ensures Linked() && Abs() == old(Abs()).(action := a, temp := t)
    {
      hide Values, IdsOf, HoldOk, Distinct;
      action, temp := a, t;
    }

    method DropIds(ids: set<string>)
      requires Distinct(scene)
      modifies this`scene
      ensures Distinct(scene) && Cells() <= old(Cells())
      ensures Values(scene) == old(Without(Values(scene), ids))
      ensures forall n :: n in old(scene) ==> (n in scene <==> n.o.id !in ids)
      ensures forall n :: n in scene ==> n in old(scene)
    {
      KeepValues(scene, ids);
      forall n | n in scene { KeepMembers(scene, ids, n); }
      scene := Keep(scene, ids);
    }

    method CollectHits(p: Point, pad: real) returns (hits: seq<string>)
      modifies this`erased
      ensures hits == old(HitIds(Values(scene), erased, p, pad, |scene|))
      ensures erased == old(erased) + ToSet(hits)
    {
      hits := [];
      for i := 0 to |scene|
        invariant hits == HitIds(Values(scene), old(erased), p, pad, i)
        invariant erased == old(erased) + ToSet(hits)
      {
        var o := scene[i].o;
        if o.id !in erased {
          var found := HitObject(o, p, pad);
          if found {
            hits := hits + [o.id];
            erased := erased + {o.id};
          }
        }
      }
    }

    method EraseHits(hits: seq<string>)
      requires Linked() && move.None? && endDrag.None?
      modifies this`scene, this`log
      ensures Linked() && Cells() <= old(Cells())
      ensures Abs() == old(Abs()).(scene := old(Without(Values(scene), ToSet(hits))), log := old(log) + [Erase(hits)])
    {
      hide Values, Without, ToSet, Distinct;
      DropIds(ToSet(hits));
      log := log + [Erase(hits)];
    }

    method EraseAtPoint(wp: Point)
      requires Linked() && ValidView(view) && move.None? && endDrag.None?
      modifies this`scene, this`erased, this`log
      ensures Linked() && Cells() <= old(Cells())
      ensures Abs() == old(EraseAt(Abs(), wp))
    {
      ghost var st := Abs();
      hide Values, Without, HitIds, Distinct;
      var hits := CollectHits(wp, ERASE_PAD_PX / view.scale);
      assert Linked() && Abs() == st.(erased := st.erased + ToSet(hits));
      hide Linked, Abs;
      if hits != [] {
        EraseHits(hits);
      }
    }

    lemma NodeIsFound(n: Node)
      requires n in scene && UniqueIds(Values(scene))
      ensures n.o.id in Ids(Values(scene)) && Find(Values(scene), n.o.id) == Some(n.o)
    {
      var i :| 0 <= i < |scene| && scene[i] == n;
      FindAt(Values(scene), i);
    }

    /** Writing through one shared reference is an upsert of that object into the scene, in place. */
    method Mutate(n: Node, o: SceneObject)
      requires Distinct(scene) && UniqueIds(Values(scene)) && n in scene && n.o.id == o.id
      modifies n
      ensures n.o == o && Values(scene) == old(Upsert(Values(scene), o))
    {
      ghost var i :| 0 <= i < |scene| && scene[i] == n;
      IndexOfAt(Values(scene), i);
      n.o := o;
      assert Values(scene) == old(Values(scene))[i := o];
    }

    /** The last shape in scene order under a point, scanned from the end. */
    method FindShapeAt(p: Point, m: real) returns (hit: Option<SceneObject>)
      ensures hit == ShapeAt(Values(scene), p, m)
    {
      var s := Values(scene);
      var i := |scene|;
      assert s[..|s|] == s;
      while i > 0
        invariant 0 <= i <= |s|
        invariant ShapeAt(s, p, m) == ShapeAt(s[..i], p, m)
      {
        i := i - 1;
        var o := scene[i].o;
        assert s[..i + 1][..i] == s[..i];
        if o.Shape? && InBox(ShapeBox(o), p, m) {
          return Some(o);
        }
      }
      return None;
    }

    method FindRefAt(p: Point) returns (end: Option<string>)
      requires ValidView(view)
      ensures end == RefAt(Values(scene), p, BIND_MARGIN_PX / view.scale)
    {
      var hit := FindShapeAt(p, BIND_MARGIN_PX / view.scale);
      end := if hit.Some? then Some(hit.value.id) else None;
    }

    /** Store a committed text, or drop an empty text object; peers learn of it unless they never knew it. */
    method StoreText(e: Editing, value: string)
      requires Distinct(scene) && UniqueIds(Values(scene))
      modifies this`scene, this`log, Cells()
      ensures Distinct(scene) && Cells() <= old(Cells())
      ensures var s, found := old(Values(scene)), old(Find(Values(scene), e.id));
              if found.None? || !(found.value.Text? || found.value.Shape?) then Values(scene) == s && log == old(log)
              else if found.value.Text? && value == "" then
                Values(scene) == Without(s, {e.id}) && log == old(log) + (if e.isNew then [] else [Erase([e.id])])
              else
                var o := WithText(found.value, value); Values(scene) == Upsert(s, o) && log == old(log) + [Add(o)]
    {
      var s := Values(scene);
      var i := IndexOf(s, e.id);
      if i >= 0 && (scene[i].o.Text? || scene[i].o.Shape?) {
        if scene[i].o.Text? && value == "" {
          DropIds({e.id});
          if !e.isNew {
            log := log + [Erase([e.id])];
          }
        } else {
          var o := WithText(scene[i].o, value);
          Mutate(scene[i], o);
          log := log + [Add(o)];
        }
      }
    }

    method CommitOpen()
      requires Linked() && editing.Some? && move.None? && endDrag.None? && UniqueIds(Values(scene))
      modifies this, Cells()
      ensures Linked() && Abs() == old(CommitEdit(Abs()))
      ensures Cells() <= old(Cells()) && editing.None? && move.None?
    {
      hide TrimStart, TrimEnd, Distinct, Without, Upsert, Find, UniqueIds;
      StoreText(editing.value, TrimEnd(TrimStart(editing.value.value)));
      editing := None;
    }

    method CommitText()
      requires Valid()
      modifies this, Cells()
      ensures Valid() && Abs() == old(Step(Abs(), Event.CommitText))
      ensures Cells() <= old(Cells()) && editing.None?
    {
      if editing.Some? {
        CommitInv(Abs());
        assert move.None? && endDrag.None? && UniqueIds(Values(scene));
        hide Inv, CommitEdit, Linked, Abs;
        CommitOpen();
      }
    }

    // ---- moving ----

    /** Bind the loose ends of the i-th object, if it is a connector, one end after the other. */
    method BindAt(i: nat, shape: SceneObject, m: real) returns (changed: bool)
      requires shape.Shape? && i < |scene| && Distinct(scene)
      modifies scene[i]
      ensures Values(scene) == old(Values(scene))[i := old(BindLoose(scene[i].o, shape, m))]
      ensures changed == (scene[i].o != old(scene[i].o))
    {
      changed := false;
      var c := scene[i];
      if c.o.Connector? {
        if c.o.fromRef.None? && InBox(ShapeBox(shape), Point(c.o.x1, c.o.y1), m) {
          c.o := c.o.(fromRef := Some(shape.id));
          changed := true;
        }
        if c.o.toRef.None? && InBox(ShapeBox(shape), Point(c.o.x2, c.o.y2), m) {
          c.o := c.o.(toRef := Some(shape.id));
          changed := true;
        }
      }
      assert c.o == old(BindLoose(scene[i].o, shape, m));
    }

    lemma BindStep(s: Objects, shape: SceneObject, m: real, i: nat)
      requires shape.Shape? && i < |s|
      ensures BindAll(s, shape, m, i)[i := BindLoose(s[i], shape, m)] == BindAll(s, shape, m, i + 1)
    {
    }

    lemma ReboundStep(s: Objects, shape: SceneObject, m: real, i: nat)
      requires shape.Shape? && i < |s|
      ensures BindAll(s, shape, m, i)[i] == s[i]
      ensures Rebound(s, shape, m, i + 1)
           == if BindLoose(s[i], shape, m) != s[i] then Rebound(s, shape, m, i) + [s[i].id] else Rebound(s, shape, m, i)
    {
    }

    method BindNext(i: nat, shape: SceneObject, m: real, rebound: seq<Node>, ghost s: Objects)
      returns (more: seq<Node>)
      requires shape.Shape? && i < |scene| == |s| && Distinct(scene) && Values(scene) == BindAll(s, shape, m, i)
      requires Among(rebound, scene) && IdsOf(rebound) == Rebound(s, shape, m, i)
      modifies scene[i]
      ensures Values(scene) == BindAll(s, shape, m, i + 1)
      ensures Among(more, scene) && IdsOf(more) == Rebound(s, shape, m, i + 1)
    {
      BindStep(s, shape, m, i);
      ReboundStep(s, shape, m, i);
      ghost var now := Values(scene);
      assert now[i] == scene[i].o && BindLoose(s[i], shape, m).id == s[i].id;
      hide BindAll, BindLoose, Rebound, Distinct;
      var changed := BindAt(i, shape, m);
      assert Values(scene)[i] == scene[i].o;
      hide Values;
      assert IdsOf(rebound) == Rebound(s, shape, m, i);
      more := if changed then rebound + [scene[i]] else rebound;
    }

    /** The loop over the scene when a shape is grabbed. */
    method BindConnectors(shape: SceneObject, m: real) returns (rebound: seq<Node>)
      requires shape.Shape? && Distinct(scene)
      modifies Cells()
      ensures Values(scene) == old(BindAll(Values(scene), shape, m, |scene|))
      ensures Among(rebound, scene) && IdsOf(rebound) == old(Rebound(Values(scene), shape, m, |scene|))
    {
      ghost var s := Values(scene);
      rebound := [];
      for i := 0 to |scene|
        invariant Values(scene) == BindAll(s, shape, m, i)
        invariant Among(rebound, scene) && IdsOf(rebound) == Rebound(s, shape, m, i)
      {
        assert scene[i] in Cells();
        rebound := BindNext(i, shape, m, rebound, s);
      }
    }

    /** Cells of the scene may be held: their ids tell them apart, and none is loose. */
    lemma HoldInScene(hold: set<Node>)
      requires UniqueIds(Values(scene)) && loose == map[] && forall n :: n in hold ==> n in scene
      ensures HoldOk(scene, loose, hold)
    {
      forall m, n | m in hold && n in hold && m.o.id == n.o.id ensures m == n {
        var i :| 0 <= i < |scene| && scene[i] == m;
        var j :| 0 <= j < |scene| && scene[j] == n;
        assert Values(scene)[i].id == Values(scene)[j].id;
      }
    }

    /** Bind what lies on a grabbed shape; other objects bind nothing. */
    method BindGrabbed(n: Node) returns (rebound: seq<Node>)
      requires Linked() && n in scene && ValidView(view) && UniqueIds(Values(scene))
      modifies Cells()
      ensures var s, o, m := old(Values(scene)), old(n.o), BIND_MARGIN_PX / view.scale;
        && UniqueIds(Values(scene)) && Among(rebound, scene) && n.o.id == o.id
        && Values(scene) == (if o.Shape? then BindAll(s, o, m, |s|) else s)
        && IdsOf(rebound) == (if o.Shape? then Rebound(s, o, m, |s|) else [])
    {
      rebound := [];
      var o := n.o;
      if o.Shape? {
        ghost var k :| 0 <= k < |scene| && scene[k] == n;
        BindAllUnique(Values(scene), o, BIND_MARGIN_PX / view.scale);
        hide Rebound, Distinct, UniqueIds, HoldOk;
        rebound := BindConnectors(o, BIND_MARGIN_PX / view.scale);
        assert n.o.id == Values(scene)[k].id == o.id;
      }
    }

    method BeginHold(wp: Point, n: Node, orig: SceneObject, rebound: seq<Node>)
      requires Distinct(scene) && UniqueIds(Values(scene)) && n in scene && Among(rebound, scene) && loose == map[]
      requires move.None? && endDrag.None?
      modifies this`move
      ensures Linked() && Abs() == old(Abs()).(move := Some(Move(wp, n.o.id, false, orig, IdsOf(rebound))))
    {
      hide UniqueIds, Distinct, Values, IdsOf;
      HoldInScene({n} + set x | x in rebound);
      move := Some(MoveRef(wp, n, false, orig, rebound));
      assert Hold() == {n} + set x | x in rebound;
    }

    method GrabObject(n: Node, wp: Point)
      requires Linked() && n in scene && ValidView(view) && move.None? && endDrag.None?
      requires UniqueIds(Values(scene)) && loose == map[]
      modifies this`move, Cells()
      ensures Abs() == old(BeginMove(Abs(), n.o, wp)) && Linked()
    {
      var o := n.o;
      hide BindAll, Rebound, UniqueIds, HoldOk, Distinct, Values, IdsOf;
      var rebound := BindGrabbed(n);
      BeginHold(wp, n, o, rebound);
    }

    /** The selected connector and which of its ends a press grabs. */
    method FindGrab(wp: Point) returns (grab: Option<EndRef>)
      requires ValidView(view)
      ensures grab.Some? ==> grab.value.c in scene && Selection(Abs()) == Some(grab.value.c.o)
      ensures GrabbedEnd(Abs(), wp) == if grab.Some? then Some(grab.value.end) else None
    {
      var s := Values(scene);
      var i := if Truthy(selected) then IndexOf(s, selected.value) else -1;
      if i >= 0 && scene[i].o.Connector? {
        var c := scene[i];
        var ends, r := ResolveEnds(s, c.o), ENDPOINT_GRAB_PX / view.scale;
        if Within(Dist2(wp, ends.a), r) {
          return Some(EndRef(c, FirstEnd));
        }
        if Within(Dist2(wp, ends.b), r) {
          return Some(EndRef(c, SecondEnd));
        }
      }
      return None;
    }

    method PickTopmost(wp: Point) returns (hit: Option<Node>)
      requires Linked() && ValidView(view)
      ensures Linked() && Abs() == old(Abs()) && Values(scene) == old(Values(scene))
      ensures hit.Some? ==> hit.value in scene
      ensures TopmostAt(Values(scene), wp, SELECT_PAD_PX / view.scale) == if hit.Some? then Some(hit.value.o) else None
    {
      hide Values, IdsOf, HoldOk, Distinct, TopmostAt;
      hit := FindTopmost(wp);
    }

    method SelectObject(wp: Point)
      requires Linked() && ValidView(view) && UniqueIds(Values(scene)) && move.None? && endDrag.None? && loose == map[]
      requires GrabbedEnd(Abs(), wp).None?
      modifies this, Cells()
      ensures Linked() && Abs() == old(SelectDown(Abs(), wp)) && scene == old(scene)
    {
      ghost var st := Abs();
      SelectCases(st, wp);
      assert st.scene == Values(scene) && st.view == view;
      hide SelectDown, GrabbedEnd, TopmostAt, BeginMove, Linked, Abs, UniqueIds, Values;
      var hit := PickTopmost(wp);
      if hit.None? {
        SetSelected(None);
      } else {
        SelectAndGrab(hit.value, wp);
      }
    }

    method SelectAndGrab(n: Node, wp: Point)
      requires Linked() && n in scene && ValidView(view) && move.None? && endDrag.None?
      requires UniqueIds(Values(scene)) && loose == map[]
      modifies this`selected, this`action, this`move, Cells()
      ensures Abs() == old(BeginMove(Abs().(selected := Some(n.o.id), action := Some(Moving)), n.o, wp)) && Linked()
    {
      hide BeginMove, Distinct, Values;
      selected, action := Some(n.o.id), Some(Moving);
      assert Abs() == old(Abs()).(selected := selected, action := action);
      hide Abs, Linked;
      GrabObject(n, wp);
    }

    method GrabEnd(grab: EndRef)
      requires Linked() && UniqueIds(Values(scene)) && move.None? && endDrag.None? && loose == map[]
      requires grab.c in scene
      modifies this`action, this`endDrag
      ensures Linked()
      ensures Abs() == old(Abs()).(action := Some(DraggingEnd), endDrag := Some(EndDrag(grab.c.o.id, grab.end)))
    {
      hide Values, HoldOk, Distinct, UniqueIds;
      HoldInScene({grab.c});
      action, endDrag := Some(DraggingEnd), Some(grab);
      assert Hold() == {grab.c};
    }

    method SelectPress(wp: Point)
      requires Linked() && ValidView(view) && UniqueIds(Values(scene)) && move.None? && endDrag.None? && loose == map[]
      modifies this, Cells()
      ensures Linked() && Abs() == old(SelectDown(Abs(), wp)) && scene == old(scene)
    {
      var grab := FindGrab(wp);
      hide GrabbedEnd, Selection, Linked, Abs, UniqueIds, Values;
      if grab.Some? {
        GrabEnd(grab.value);
      } else {
        SelectObject(wp);
      }
    }

    /** A press with no text editor open. */
    method Press(p: Press)
      requires Linked() && ValidView(view) && UniqueIds(Values(scene)) && move.None? && endDrag.None? && editing.None?
      requires loose == map[]
      modifies this, Cells()
      ensures Linked() && Abs() == old(Down(Abs(), p)) && Cells() <= old(Cells())
    {
      hide Distinct, SelectDown, EraseAt, ToWorld, UniqueIds;
      if p.tool.TextTool? {
        return;
      }
      var wp := ToWorld(view, p.sx, p.sy);
      if p.tool.PanTool? || p.pans {
        action, panStart := Some(Panning), PanStart(p.sx, p.sy, view.tx, view.ty);
        return;
      }
      match p.tool
      case SelectTool => SelectPress(wp);
      case PenTool =>
        SetTemp(Some(Drawing), Some(Stroke(p.freshId, p.color, p.width, [wp], None)));
      case ShapeTool(kind) =>
        SetTemp(Some(Shaping),
                Some(Shape(p.freshId, kind, wp.x, wp.y, 0.0, 0.0, p.color, p.width, None, Some(p.fill), None)));
      case ConnectorTool =>
        var end := FindRefAt(wp);
        SetTemp(Some(Connecting),
                Some(Connector(p.freshId, wp.x, wp.y, wp.x, wp.y, p.color, p.width, true, end, None, None)));
      case EraserTool =>
        action, erased := Some(Erasing), {};
        EraseAtPoint(wp);
      case _ =>
    }

    method PointerDown(p: Press)
      requires Valid() && Possible(Abs(), Event.PointerDown(p))
      modifies this, Cells()
      ensures Valid() && Abs() == old(Step(Abs(), Event.PointerDown(p))) && Cells() <= old(Cells())
    {
      StepInv(Abs(), Event.PointerDown(p));
      DownAfterCommit(Abs(), p);
      CommitText();
      assert ValidView(view) && UniqueIds(Values(scene)) && move.None? && endDrag.None?;
      NothingLoose(Abs());
      hide Down, Inv, CommitEdit, Linked;
      Press(p);
    }

    // Held references are by identity, so a cell's new value leaves them what they were.
    twostate lemma RefsKept()
      requires move == old(move) && endDrag == old(endDrag)
      requires forall n :: n in Hold() ==> n.o.id == old(n.o.id)
      ensures MoveOf(move) == old(MoveOf(move)) && EndOf(endDrag) == old(EndOf(endDrag))
    {
      if move.Some? {
        assert IdsOf(move.value.rebound) == old(IdsOf(move.value.rebound));
      }
    }

    method WriteInScene(n: Node, o: SceneObject)
      requires Linked() && UniqueIds(Values(scene)) && n in Hold() && n in scene && n.o.id == o.id
      modifies n
      ensures Linked() && Abs() == old(Abs()).(scene := old(Upsert(Values(scene), o)))
    {
      hide UniqueIds, Upsert, Values, IdsOf, MoveOf, EndOf;
      Mutate(n, o);
      RefsKept();
    }

    method WriteLoose(n: Node, o: SceneObject)
      requires Linked() && n in Hold() && n !in scene && n.o.id == o.id
      modifies n, this`loose
      ensures Linked() && Abs() == old(Abs()).(loose := old(loose)[o.id := o])
    {
      ghost var s := Values(scene);
      hide IdsOf, MoveOf, EndOf;
      n.o := o;
      loose := loose[o.id := o];
      assert Values(scene) == s;
      RefsKept();
    }

    /** Writing through a held reference: the scene sees it only if it still has the cell. */
    method WriteNode(n: Node, o: SceneObject)
      requires Linked() && UniqueIds(Values(scene)) && n in Hold() && n.o.id == o.id
      modifies n, this`loose
      ensures Linked() && Abs() == old(WriteHeld(Abs(), o))
    {
      hide UniqueIds, Upsert, Values, Distinct;
      assert n in scene <==> o.id !in loose;
      hide Linked, HoldOk;
      if n in scene {
        WriteInScene(n, o);
      } else {
        WriteLoose(n, o);
      }
    }

    lemma HeldIsPresent(n: Node)
      requires Linked() && UniqueIds(Values(scene)) && n in Hold()
      ensures Present(Values(scene), loose, n.o.id) == Some(n.o)
    {
      if n in scene {
        NodeIsFound(n);
      }
    }

    method SetMoved(moved: bool)
      requires Linked() && move.Some?
      modifies this`move
      ensures Linked() && Abs() == old(Abs()).(move := Some(old(MoveOf(move)).value.(moved := moved)))
    {
      hide Values, IdsOf, HoldOk, Distinct;
      ghost var hold := Hold();
      move := Some(move.value.(moved := moved));
      assert Hold() == hold;
    }

    method DragTo(o: SceneObject, moved: bool)
      requires Linked() && UniqueIds(Values(scene)) && move.Some? && move.value.obj.o.id == o.id
      modifies this`move, this`loose, move.value.obj
      ensures Linked()
      ensures Abs() == old(WriteHeld(Abs(), o)).(move := Some(old(MoveOf(move)).value.(moved := moved)))
    {
      ghost var was := MoveOf(move);
      hide UniqueIds, Linked, Values, Upsert;
      WriteNode(move.value.obj, o);
      assert MoveOf(move) == was by { hide MoveOf; }
      hide Abs;
      SetMoved(moved);
    }

    method DragObject(wp: Point)
      requires Valid() && action == Some(Moving)
      modifies this`move, this`loose, move.value.obj
      ensures Linked() && Abs() == old(ApplyMove(Abs(), wp))
    {
      var m := move.value;
      HeldIsPresent(m.obj);
      DraggedFacts(Abs(), wp);
      var dx, dy := wp.x - m.start.x, wp.y - m.start.y;
      assert SameKind(m.obj.o, m.orig);
      var o, moved := Moved(m.obj.o, m.orig, dx, dy), m.moved || dx != 0.0 || dy != 0.0;
      assert o == Dragged(Abs(), wp) && UniqueIds(Values(scene)) && o.id == m.obj.o.id;
      hide Inv, ApplyMove, Linked, Moved, Upsert, UniqueIds, Abs, WriteHeld, Dragged, ValidMove;
      DragTo(o, moved);
    }

    method DragConnectorEnd(wp: Point)
      requires Valid() && action == Some(DraggingEnd)
      modifies endDrag.value.c, this`loose
      ensures Linked() && Abs() == old(DragEnd(Abs(), wp))
    {
      var d := endDrag.value;
      HeldIsPresent(d.c);
      assert UniqueIds(Values(scene)) && d.c.o.Connector? && ValidView(view);
      hide Inv, Linked, HoldOk, UniqueIds, EndMoved, RefAt, WriteHeld, Values;
      var end := FindRefAt(wp);
      WriteNode(d.c, EndMoved(d.c.o, d.end, wp, end));
    }

    /** A move while drawing, shaping, connecting or panning touches no shared object. */
    method Sketch(sx: real, sy: real)
      requires Valid() && action in {None, Some(Panning), Some(Drawing), Some(Shaping), Some(Connecting)}
      modifies this`view, this`action, this`temp
      ensures Linked() && Abs() == old(Step(Abs(), Event.PointerMove(sx, sy)))
    {
      var wp := ToWorld(view, sx, sy);
      hide ToWorld, ApplyMove, DragEnd, EraseAt, RefAt, Resized, Values, IdsOf, Linked;
      match action
      case None =>
      case Some(Panning) =>
        SetView(View(panStart.tx + (sx - panStart.sx), panStart.ty + (sy - panStart.sy), view.scale));
      case Some(Drawing) => SetTemp(action, Some(temp.value.(points := temp.value.points + [wp])));
      case Some(Shaping) => SetTemp(action, Some(Resized(temp.value, wp)));
      case Some(Connecting) =>
        var end := FindRefAt(wp);
        SetTemp(action, Some(temp.value.(x2 := wp.x, y2 := wp.y, toRef := end)));
    }

    method PointerMove(sx: real, sy: real)
      requires Valid()
      modifies this, Reach()
      ensures Valid() && Abs() == old(Step(Abs(), Event.PointerMove(sx, sy))) && Cells() <= old(Cells())
    {
      ghost var st := Abs();
      StepInv(st, Event.PointerMove(sx, sy));
      assert Step(st, Event.PointerMove(sx, sy)) == Drag(st, sx, sy);
      assert st.action == action && st.view == view && Linked() && ValidView(view);
      assert action == Some(Erasing) ==> move.None? && endDrag.None?;
      hide ToWorld, ApplyMove, DragEnd, EraseAt, RefAt, Resized, Linked, Abs, Inv, Step;
      match action
      case Some(Moving) => DragObject(ToWorld(view, sx, sy));
      case Some(DraggingEnd) => DragConnectorEnd(ToWorld(view, sx, sy));
      case Some(Erasing) => EraseAtPoint(ToWorld(view, sx, sy));
      case _ => Sketch(sx, sy);
    }

    /** The loop that broadcasts each of a list of held objects, after what has been sent before. */
    method SendAll(nodes: seq<Node>, ghost was: seq<Msg>, ghost first: seq<string>)
      requires Linked() && UniqueIds(Values(scene)) && forall n :: n in nodes ==> n in Hold()
      requires log == was + Broadcasts(Values(scene), loose, first)
      modifies this`log
      ensures log == was + old(Broadcasts(Values(scene), loose, first + IdsOf(nodes)))
    {
      ghost var s, ids := Values(scene), IdsOf(nodes);
      hide UniqueIds, Values, HoldOk, Distinct, Present;
      assert ids[..0] == [];
      for k := 0 to |nodes|
        invariant log == old(log) + Broadcasts(s, loose, ids[..k])
      {
        assert nodes[k] in nodes;
        HeldIsPresent(nodes[k]);
        BroadcastsStep(s, loose, ids, k, nodes[k].o);
        hide Broadcasts;
        log := log + [Add(nodes[k].o)];
      }
      assert ids[..|nodes|] == ids;
      SentInTurn(was, s, first, ids);
    }

    lemma SentInTurn(was: seq<Msg>, s: Objects, first: seq<string>, rest: seq<string>)
      ensures was + Broadcasts(s, loose, first) + Broadcasts(s, loose, rest) == was + Broadcasts(s, loose, first + rest)
    {
      BroadcastsConcat(s, loose, first, rest);
      Regroup(was, Broadcasts(s, loose, first), Broadcasts(s, loose, rest));
    }

    /** The dragged object, if it has moved. */
    ghost function MovedIds(m: MoveRef): seq<string>
      reads m.obj
    {
      if m.moved then [m.obj.o.id] else []
    }

    method SendMoved(m: MoveRef)
      requires Linked() && UniqueIds(Values(scene)) && m.obj in Hold()
      modifies this`log
      ensures Linked() && Hold() == old(Hold())
      ensures log == old(log) + Broadcasts(Values(scene), loose, MovedIds(m))
    {
      if m.moved {
        HeldIsPresent(m.obj);
        assert [m.obj.o.id][..0] == [] && Broadcasts(Values(scene), loose, []) == [];
        log := log + [Add(m.obj.o)];
      }
    }

    /** What the release of a drag must broadcast. */
    ghost function Released(): seq<Msg>
      requires move.Some?
      reads this, Reach()
    {
      Broadcasts(Values(scene), loose, ReleasedIds(MoveOf(move).value))
    }

    lemma ReleasedParts(m: MoveRef)
      requires move == Some(m)
      ensures Released() == Broadcasts(Values(scene), loose, MovedIds(m) + IdsOf(m.rebound))
      ensures m.obj in Hold() && forall n :: n in m.rebound ==> n in Hold()
    {
    }

    /** The dragged object if it has moved, then every connector that the grab bound. */
    method SendReleased()
      requires Linked() && UniqueIds(Values(scene)) && move.Some?
      modifies this`log
      ensures log == old(log + Released())
    {
      var m := move.value;
      ReleasedParts(m);
      hide UniqueIds, Values, IdsOf, Broadcasts, Hold, Linked, Released, MovedIds;
      ghost var s, first, rest := Values(scene), MovedIds(m), IdsOf(m.rebound);
      SendMoved(m);
      assert Values(scene) == s && MovedIds(m) == first && IdsOf(m.rebound) == rest;
      SendAll(m.rebound, old(log), first);
    }

    /** The gesture lets go of everything it holds. */
    method LetGo()
      requires Linked()
      modifies this`action, this`temp, this`move, this`endDrag, this`loose
      ensures Linked()
      ensures Abs() == old(Abs()).(action := None, temp := None, move := None, endDrag := None, loose := map[])
    {
      hide Values;
      action, temp, move, endDrag, loose := None, None, None, None, map[];
      assert MoveOf(move) == None && EndOf(endDrag) == None;
    }

    method ReleaseMove()
      requires Valid() && action == Some(Moving)
      modifies this
      ensures Linked() && Abs() == old(Up(Abs())) && scene == old(scene)
    {
      ghost var st := Abs();
      UpAfterMove(st);
      assert UniqueIds(Values(scene)) && st.endDrag.None? && Linked();
      hide Inv, Broadcasts, Distinct, UniqueIds, Values, IdsOf, Up, ReleasedIds, HoldOk;
      SendReleased();
      assert Abs() == st.(log := log);
      LetGo();
    }

    lemma UpAfterMove(st: State)
      requires Inv(st) && st.action == Some(Moving)
      ensures Up(st) == st.(action := None, temp := None, move := None, endDrag := None, loose := map[],
                            log := st.log + Broadcasts(st.scene, st.loose, ReleasedIds(st.move.value)))
    {
    }

    lemma UpAfterEnd(st: State)
      requires Inv(st) && st.action == Some(DraggingEnd)
      ensures Up(st) == st.(action := None, temp := None, move := None, endDrag := None, loose := map[],
                            log := st.log + [Add(Present(st.scene, st.loose, st.endDrag.value.c).value)])
    {
      assert [st.endDrag.value.c][..0] == [];
      assert Broadcasts(st.scene, st.loose, []) == [];
    }

    method ReleaseEnd()
      requires Valid() && action == Some(DraggingEnd)
      modifies this
      ensures Linked() && Abs() == old(Up(Abs())) && scene == old(scene)
    {
      ghost var st := Abs();
      var c := endDrag.value.c;
      HeldIsPresent(c);
      UpAfterEnd(st);
      assert Up(st) == st.(action := None, temp := None, move := None, endDrag := None, loose := map[], log := st.log + [Add(c.o)]);
      hide Inv, Distinct, Find, Up, Values, IdsOf, HoldOk;
      log := log + [Add(c.o)];
      assert Abs() == st.(log := log);
      LetGo();
    }

    method CommitNew(o: SceneObject)
      requires Linked() && move.None? && endDrag.None?
      modifies this`scene, this`log
      ensures Linked() && Abs() == old(Commit(Abs(), o))
      ensures fresh(Cells() - old(Cells()))
    {
      ghost var s := Values(scene);
      var n := new Node(o);
      scene := scene + [n];
      assert Values(scene) == s + [o];
      log := log + [Add(n.o)];
    }

    /** The end of a drawing, erasing or panning gesture, or a release with none in progress. */
    method ReleaseDrawing()
      requires Valid() && action !in {Some(Moving), Some(DraggingEnd)}
      modifies this
      ensures Linked() && Abs() == old(Up(Abs()))
      ensures fresh(Cells() - old(Cells()))
    {
      assert move.None? && endDrag.None?;
      hide Inv, Finished, Linked, Values;
      var a, t := action, temp;
      SetTemp(None, None);
      if a.Some? && t.Some? {
        var o := Finished(a.value, t.value);
        if o.Some? {
          CommitNew(o.value);
        }
      }
    }

    method PointerUp()
      requires Valid()
      modifies this
      ensures Valid() && Abs() == old(Step(Abs(), Event.PointerUp))
      ensures fresh(Cells() - old(Cells()))
    {
      UpInv(Abs());
      hide Up, Inv, Linked;
      if action == Some(Moving) {
        ReleaseMove();
      } else if action == Some(DraggingEnd) {
        ReleaseEnd();
      } else {
        ReleaseDrawing();
      }
    }

    // ---- text ----

    method BeginEditAt(o: SceneObject, isNew: bool)
      requires Linked() && (o.Shape? || o.Text?)
      modifies this`editing
      ensures Linked() && Abs() == old(BeginEdit(Abs(), o, isNew))
    {
      hide Values, IdsOf, HoldOk, Distinct;
      var value := if o.Text? then o.text else if o.caption.Some? then o.caption.value else "";
      var sent := !isNew && !(editing.Some? && !editing.value.sent && editing.value.id == o.id);
      editing := Some(Editing(o.id, value, isNew, sent));
    }

    method AddText(t: SceneObject)
      requires Linked() && t.Text? && move.None? && endDrag.None?
      modifies this
      ensures Linked() && Abs() == old(BeginEdit(Abs().(scene := Abs().scene + [t], selected := Some(t.id)), t, true))
      ensures fresh(Cells() - old(Cells()))
    {
      ghost var s := Values(scene);
      var n := new Node(t);
      scene := scene + [n];
      assert Values(scene) == s + [t];
      selected := Some(t.id);
      BeginEditAt(t, true);
    }

    method ClickWithText(p: Press)
      requires Linked() && ValidView(view) && move.None? && endDrag.None? && editing.None? && p.tool.TextTool?
      modifies this
      ensures Linked() && Abs() == old(ClickAt(Abs(), p))
      ensures fresh(Cells() - old(Cells()))
    {
      hide ToWorld, ShapeAt, Distinct;
      var wp := ToWorld(view, p.sx, p.sy);
      var s := FindShapeAt(wp, 0.0);
      if s.Some? {
        selected := Some(s.value.id);
        BeginEditAt(s.value, false);
      } else {
        AddText(Text(p.freshId, wp.x, wp.y, "", p.color, TEXT_SIZE, None));
      }
    }

    method Click(p: Press)
      requires Valid() && Possible(Abs(), Event.Click(p))
      modifies this
      ensures Valid() && Abs() == old(Step(Abs(), Event.Click(p)))
      ensures fresh(Cells() - old(Cells()))
    {
      StepInv(Abs(), Event.Click(p));
      if p.tool.TextTool? && editing.None? {
        assert move.None? && endDrag.None? && ValidView(view);
        hide Inv, ClickAt, Abs, Linked;
        ClickWithText(p);
      }
    }

    method FindEditable(wp: Point) returns (o: Option<SceneObject>)
      requires ValidView(view)
      ensures o == EditTarget(Values(scene), wp, SELECT_PAD_PX / view.scale)
    {
      hide ShapeAt, TopmostAt, Values;
      o := FindShapeAt(wp, 0.0);
      if o.None? {
        var t := FindTopmost(wp);
        if t.Some? && t.value.o.Text? {
          o := Some(t.value.o);
        }
      }
    }

    method DoubleClick(sx: real, sy: real)
      requires Valid() && Possible(Abs(), Event.DoubleClick(sx, sy))
      modifies this`editing
      ensures Valid() && Abs() == old(Step(Abs(), Event.DoubleClick(sx, sy)))
    {
      StepInv(Abs(), Event.DoubleClick(sx, sy));
      assert ValidView(view) && Linked() && Abs().scene == Values(scene) && Abs().view == view;
      assert Step(Abs(), Event.DoubleClick(sx, sy)) == DoubleClickAt(Abs(), sx, sy);
      hide Inv, ToWorld, EditTarget, Linked, Abs, BeginEdit, Step, Values, Possible;
      var o := FindEditable(ToWorld(view, sx, sy));
      if o.Some? {
        BeginEditAt(o.value, false);
      }
    }

    method TypeText(value: string)
      requires Valid()
      modifies this`editing
      ensures Valid() && Abs() == old(Step(Abs(), Event.TypeText(value)))
    {
      StepInv(Abs(), Event.TypeText(value));
      if editing.Some? {
        editing := Some(editing.value.(value := value));
      }
    }

    // ---- keyboard commands ----

    method DeleteSelected()
      requires Valid()
      modifies this
      ensures Valid() && Abs() == old(Gestures.DeleteSelected(Abs())) && Cells() <= old(Cells())
    {
      ghost var st := Abs();
      DeleteInv(st);
      assert UniqueIds(Values(scene)) && Linked();
      if Truthy(selected) {
        var id := selected.value;
        assert Gestures.DeleteSelected(st)
            == st.(scene := Without(Values(scene), {id}), loose := LooseAfter(st, {id}), selected := None, log := log + [Erase([id])]);
        hide Inv, Values, Without, LooseAfter, UniqueIds, Linked, Abs, Gestures.DeleteSelected;
        TakeOut({id});
        Note(Erase([id]), None);
      }
    }

    /** The Delete key does nothing while a text editor is open. */
    method PressDelete()
      requires Valid()
      modifies this
      ensures Valid() && Abs() == old(Step(Abs(), DeleteKey)) && Cells() <= old(Cells())
    {
      hide Inv, Linked, Gestures.DeleteSelected, Values, IdsOf;
      if editing.None? {
        DeleteSelected();
      }
    }

    method RestackAt(i: nat, o: SceneObject)
      requires Linked() && UniqueIds(Values(scene)) && i < |scene| && scene[i].o.id == o.id
      modifies this`log, scene[i]
      ensures Linked()
      ensures Abs() == old(Abs()).(scene := old(Upsert(Values(scene), o)), log := old(log) + [Add(o)])
    {
      hide UniqueIds, Upsert, Values, IdsOf, MoveOf, EndOf;
      Mutate(scene[i], o);
      log := log + [Add(o)];
      RefsKept();
    }

    lemma UpsertAt(s: Objects, o: SceneObject, i: nat)
      requires i == IndexOf(s, o.id) && i < |s|
      ensures Upsert(s, o) == s[i := o]
    {
    }

    method ReorderSelected(toFront: bool)
      requires Valid()
      modifies this`log, Cells()
      ensures Valid() && Abs() == old(Gestures.ReorderSelected(Abs(), toFront))
    {
      ReorderInv(Abs(), toFront);
      assert UniqueIds(Values(scene));
      var s := Values(scene);
      var i := if Truthy(selected) then IndexOf(s, selected.value) else -1;
      if i >= 0 {
        var o := Reordered(s, i, toFront);
        UpsertAt(s, o, i);
        assert scene[i] in Cells() && scene[i].o.id == o.id;
        assert Gestures.ReorderSelected(Abs(), toFront) == Abs().(scene := Upsert(s, o), log := log + [Add(o)]);
        hide Inv, Reordered, Linked, UniqueIds, Upsert, Abs, Values;
        RestackAt(i, o);
      }
    }

    /** The bracket keys do nothing while a text editor is open. */
    method PressBracket(toFront: bool)
      requires Valid()
      modifies this`log, Cells()
      ensures Valid() && Abs() == old(Step(Abs(), ReorderKey(toFront)))
    {
      hide Inv, Linked, Gestures.ReorderSelected, Values, IdsOf;
      if editing.None? {
        ReorderSelected(toFront);
      }
    }

    // ---- tool and view ----

    method ChangeTool()
      requires Valid()
      modifies this`selected
      ensures Valid() && Abs() == old(Step(Abs(), Event.ChangeTool))
    {
      StepInv(Abs(), Event.ChangeTool);
      assert Step(Abs(), Event.ChangeTool) == Abs().(selected := None);
      hide Inv, Step, Linked, Abs;
      SetSelected(None);
    }

    method WheelPan(dx: real, dy: real)
      requires Valid()
      modifies this`view
      ensures Valid() && Abs() == old(Step(Abs(), Event.WheelPan(dx, dy)))
    {
      StepInv(Abs(), Event.WheelPan(dx, dy));
      assert Step(Abs(), Event.WheelPan(dx, dy)) == Abs().(view := View(view.tx - dx, view.ty - dy, view.scale));
      hide Inv, Step, Linked, Abs;
      SetView(View(view.tx - dx, view.ty - dy, view.scale));
    }

    method WheelZoom(sx: real, sy: real, factor: real)
      requires Valid()
      modifies this`view
      ensures Valid() && Abs() == old(Step(Abs(), Event.WheelZoom(sx, sy, factor)))
      ensures ToWorld(view, sx, sy) == old(ToWorld(view, sx, sy))
    {
      StepInv(Abs(), Event.WheelZoom(sx, sy, factor));
      ZoomKeepsPointer(view, sx, sy, factor);
      assert Step(Abs(), Event.WheelZoom(sx, sy, factor)) == Abs().(view := ZoomAt(view, sx, sy, factor));
      hide Inv, ToWorld, ZoomAt, Step, Linked, Abs;
      SetView(ZoomAt(view, sx, sy, factor));
    }

    method ResetView()
      requires Valid()
      modifies this`view
      ensures Valid() && Abs() == old(Step(Abs(), Event.ResetView))
    {
      StepInv(Abs(), Event.ResetView);
      assert Step(Abs(), Event.ResetView) == Abs().(view := RESET_VIEW);
      hide Inv, Step, Linked, Abs;
      SetView(RESET_VIEW);
    }
  }
}
