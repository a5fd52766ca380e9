/**
 * The scene editor as a machine over values: one function per handler. Objects that the editor
 * shares by reference (the dragged object, rebound connectors) are named here by id.
 */
module Gestures {
  import opened Wrappers
  import opened Protocol
  import opened Scene
  import opened Geometry
  import opened ZOrder
  import opened Viewport

  datatype Tool = SelectTool | PanTool | PenTool | ShapeTool(kind: ShapeKind) | ConnectorTool | TextTool | EraserTool

  datatype Action = Drawing | Shaping | Connecting | Erasing | Panning | Moving | DraggingEnd

  datatype End = FirstEnd | SecondEnd

  datatype Move = Move(start: Point, obj: string, moved: bool, orig: SceneObject, rebound: seq<string>)

  datatype EndDrag = EndDrag(c: string, end: End)

  // `sent` is history (no handler reads it): peers know the object whose text is being edited.
  datatype Editing = Editing(id: string, value: string, isNew: bool, sent: bool)

  datatype PanStart = PanStart(sx: real, sy: real, tx: real, ty: real)

  // `log` holds every message in the order this client applied it, received or broadcast. `loose`
  // holds the objects that the gesture in progress still refers to although the scene has dropped
  // them: nothing else reaches them any more.
  datatype State = State(
    scene: Objects,
    log: seq<Msg>,
    view: View,
    action: Option<Action>,
    temp: Option<SceneObject>,
    panStart: PanStart,
    erased: set<string>,
    selected: Option<string>,
    move: Option<Move>,
    endDrag: Option<EndDrag>,
    editing: Option<Editing>,
    loose: map<string, SceneObject>)

  const INITIAL :=
    State([], [], RESET_VIEW, None, None, PanStart(0.0, 0.0, 0.0, 0.0), {}, None, None, None, None, map[])

  const ENDPOINT_GRAB_PX := 12.0
  const BIND_MARGIN_PX := 8.0
  const SELECT_PAD_PX := 6.0
  const ERASE_PAD_PX := 8.0
  const TEXT_SIZE := 18.0

  // A pointer press with the tool, style and fresh object id in force at that moment;
  // `pans` is a held space bar or the middle button.
  datatype Press = Press(sx: real, sy: real, tool: Tool, pans: bool, color: string, width: real, fill: string, freshId: string)

  datatype Event =
    | PointerDown(press: Press)
    | PointerMove(sx: real, sy: real)
    | PointerUp
    | Click(press: Press)
    | DoubleClick(sx: real, sy: real)
    | TypeText(value: string)
    | CommitText
    | DeleteKey
    | ReorderKey(toFront: bool)
    | ClearBoard
    | Receive(m: Msg)
    | ChangeTool
    | WheelPan(dx: real, dy: real)
    | WheelZoom(sx: real, sy: real, factor: real)
    | ResetView

  // ---- helpers on the scene ----

  /** The last shape in scene order whose box, grown by m, holds p. */
  function ShapeAt(s: Objects, p: Point, m: real): (hit: Option<SceneObject>)
    ensures hit.Some? ==> hit.value.Shape? && hit.value in s
  {
    if s == [] then None
    else
      var last := s[|s| - 1];
      if last.Shape? && InBox(ShapeBox(last), p, m) then Some(last)
      else
        var rest := ShapeAt(s[..|s| - 1], p, m);
        rest
  }

  function RefAt(s: Objects, p: Point, m: real): Option<string> {
    var hit := ShapeAt(s, p, m);
    if hit.Some? then Some(hit.value.id) else None
  }

  predicate Truthy(id: Option<string>) { id.Some? && id.value != "" }

  function Selection(st: State): Option<SceneObject> {
    if Truthy(st.selected) then Find(st.scene, st.selected.value) else None
  }

  /** Ids newly hit by the eraser among the first n objects, in scene order. */
  function HitIds(s: Objects, erased: set<string>, p: Point, pad: real, n: nat): (ids: seq<string>)
    requires n <= |s|
  {
    if n == 0 then []
    else
      var ids, o := HitIds(s, erased, p, pad, n - 1), s[n - 1];
      if o.id !in erased && o.id !in ids && HitTest(s, o, p, pad) then ids + [o.id] else ids
  }

  /** A loose connector end lying on the grabbed shape is bound to it. */
  function BindLoose(o: SceneObject, shape: SceneObject, m: real): (r: SceneObject)
    requires shape.Shape?
    ensures r.id == o.id && (r != o ==> o.Connector?) && (o.Connector? ==> r.Connector?)
  {
    if o.Connector? then
      o.(fromRef := if o.fromRef.None? && InBox(ShapeBox(shape), Point(o.x1, o.y1), m) then Some(shape.id) else o.fromRef,
         toRef := if o.toRef.None? && InBox(ShapeBox(shape), Point(o.x2, o.y2), m) then Some(shape.id) else o.toRef)
    else o
  }

  function BindAll(s: Objects, shape: SceneObject, m: real, n: nat): (r: Objects)
    requires shape.Shape? && n <= |s|
    ensures |r| == |s|
    ensures forall i :: 0 <= i < |s| ==> r[i] == if i < n then BindLoose(s[i], shape, m) else s[i]
  {
    seq(|s|, i requires 0 <= i < |s| => if i < n then BindLoose(s[i], shape, m) else s[i])
  }

  /** Ids of the connectors among the first n objects that the grab has bound. */
  function Rebound(s: Objects, shape: SceneObject, m: real, n: nat): seq<string>
    requires shape.Shape? && n <= |s|
  {
    if n == 0 then []
    else
      var ids := Rebound(s, shape, m, n - 1);
      if BindLoose(s[n - 1], shape, m) != s[n - 1] then ids + [s[n - 1].id] else ids
  }

  predicate SameKind(a: SceneObject, b: SceneObject) {
    a.Stroke? == b.Stroke? && a.Shape? == b.Shape? && a.Connector? == b.Connector? && a.Text? == b.Text?
  }

  /** The dragged object at displacement (dx, dy) from where it was grabbed; a connector loses its bindings. */
  function Moved(o: SceneObject, orig: SceneObject, dx: real, dy: real): (r: SceneObject)
    requires SameKind(o, orig)
    ensures r.id == o.id && SameKind(r, o)
  {
    match o
    case Shape(id, shape, _, _, w, h, color, width, caption, fill, z) =>
      Shape(id, shape, orig.x + dx, orig.y + dy, w, h, color, width, caption, fill, z)
    case Text(id, _, _, text, color, size, z) => Text(id, orig.x + dx, orig.y + dy, text, color, size, z)
    case Connector(id, _, _, _, _, color, width, arrow, _, _, z) =>
      Connector(id, orig.x1 + dx, orig.y1 + dy, orig.x2 + dx, orig.y2 + dy, color, width, arrow, None, None, z)
    case Stroke(id, color, width, _, z) =>
      Stroke(id, color, width, seq(|orig.points|, i requires 0 <= i < |orig.points| => Shift(orig.points[i], Point(dx, dy))), z)
  }

  function EndMoved(c: SceneObject, end: End, p: Point, boundTo: Option<string>): (r: SceneObject)
    requires c.Connector?
    ensures r.id == c.id && r.Connector?
  {
    match end
    case FirstEnd => c.(x1 := p.x, y1 := p.y, fromRef := boundTo)
    case SecondEnd => c.(x2 := p.x, y2 := p.y, toRef := boundTo)
  }

  function WithText(o: SceneObject, value: string): (r: SceneObject)
    requires o.Shape? || o.Text?
    ensures r.id == o.id && SameKind(r, o)
  {
    if o.Shape? then o.(caption := Some(value)) else o.(text := value)
  }

  // ---- objects held by a gesture ----

  /** Ids of the objects that the gesture in progress refers to. */
  function Held(st: State): set<string> {
    (if st.move.Some? then {st.move.value.obj} + ToSet(st.move.value.rebound) else {}) +
    (if st.endDrag.Some? then {st.endDrag.value.c} else {})
  }

  /** The value of a held object: a loose one is not looked up in the scene. */
  function Present(s: Objects, loose: map<string, SceneObject>, id: string): Option<SceneObject> {
    if id in loose then Some(loose[id]) else Find(s, id)
  }

  /** Writing to a held object changes the scene only if the scene still has it. */
  function WriteHeld(st: State, o: SceneObject): State {
    if o.id in st.loose then st.(loose := st.loose[o.id := o]) else st.(scene := Upsert(st.scene, o))
  }

  /** What is loose once the scene has dropped its objects with these ids. */
  function LooseAfter(st: State, gone: set<string>): map<string, SceneObject> {
    st.loose +
    map id | id in Held(st) && id in gone && id !in st.loose && id in Ids(st.scene) :: Find(st.scene, id).value
  }

  /** Add messages carrying the present value of each held object. */
  function Broadcasts(s: Objects, loose: map<string, SceneObject>, ids: seq<string>): seq<Msg> {
    if ids == [] then []
    else
      var o := Present(s, loose, ids[|ids| - 1]);
      Broadcasts(s, loose, ids[..|ids| - 1]) + (if o.Some? then [Add(o.value)] else [])
  }

  predicate IsSpace(c: char) {
    var n := c as int;
    9 <= n <= 13 || n in {32, 160, 0x1680, 0x2028, 0x2029, 0x202F, 0x205F, 0x3000, 0xFEFF} || 0x2000 <= n <= 0x200A
  }

  function TrimStart(s: string): string {
    if s != "" && IsSpace(s[0]) then TrimStart(s[1..]) else s
  }

  function TrimEnd(s: string): string {
    if s != "" && IsSpace(s[|s| - 1]) then TrimEnd(s[..|s| - 1]) else s
  }

  // ---- the invariant that the handlers rely on ----

  /** The object whose text is being edited has never been broadcast. */
  predicate Unsent(st: State) { st.editing.Some? && !st.editing.value.sent }

  ghost predicate ValidMove(s: Objects, loose: map<string, SceneObject>, m: Move) {
    var o := Present(s, loose, m.obj);
    && o.Some? && SameKind(o.value, m.orig) && m.orig.id == m.obj
    && (m.rebound != [] ==> m.orig.Shape?)
    && (forall id :: id in m.rebound ==> IsConnector(Present(s, loose, id)))
  }

  predicate IsConnector(o: Option<SceneObject>) { o.Some? && o.value.Connector? }

  /** The object being drawn is not yet in the scene, and is what its gesture draws. */
  ghost predicate ValidTemp(st: State) {
    st.temp.Some? ==>
      && st.temp.value.id !in Ids(st.scene)
      && (st.action == Some(Drawing) ==> st.temp.value.Stroke?)
      && (st.action == Some(Shaping) ==> st.temp.value.Shape?)
      && (st.action == Some(Connecting) ==> st.temp.value.Connector?)
  }

  ghost predicate Inv(st: State) {
    && UniqueIds(st.scene)
    && ValidView(st.view)
    && (st.action.Some? ==> st.editing.None?)
    && (st.temp.Some? <==> st.action in {Some(Drawing), Some(Shaping), Some(Connecting)})
    && ValidTemp(st)
    && (st.move.Some? <==> st.action == Some(Moving))
    && (st.endDrag.Some? <==> st.action == Some(DraggingEnd))
    && (st.move.Some? ==> ValidMove(st.scene, st.loose, st.move.value))
    && (st.endDrag.Some? ==> IsConnector(Present(st.scene, st.loose, st.endDrag.value.c)))
    && st.loose.Keys <= Held(st)
    && (forall id :: id in st.loose ==> st.loose[id].id == id)
    && (st.editing.Some? && st.editing.value.isNew ==> Unsent(st))
  }

  /** No gesture in progress and no text editor open. */
  predicate AtRest(st: State) { st.action.None? && st.editing.None? }

  // ---- handlers ----

  function Commit(st: State, o: SceneObject): (r: State)
    ensures st.log <= r.log
  {
    st.(scene := st.scene + [o], log := st.log + [Add(o)])
  }

  function EraseAt(st: State, wp: Point): (r: State)
    requires ValidView(st.view)
    ensures st.log <= r.log
  {
    var hits := HitIds(st.scene, st.erased, wp, ERASE_PAD_PX / st.view.scale, |st.scene|);
    if hits == [] then st
    else st.(scene := Without(st.scene, ToSet(hits)), erased := st.erased + ToSet(hits), log := st.log + [Erase(hits)])
  }

  function CommitEdit(st: State): (r: State)
    ensures st.log <= r.log
  {
    if st.editing.None? then st
    else
      var e := st.editing.value;
      var value := TrimEnd(TrimStart(e.value));
      var found := Find(st.scene, e.id);
      var done := st.(editing := None);
      if found.None? || !(found.value.Text? || found.value.Shape?) then done
      else if found.value.Text? && value == "" then
        done.(scene := Without(st.scene, {e.id}), log := if e.isNew then st.log else st.log + [Erase([e.id])])
      else
        var o := WithText(found.value, value);
        done.(scene := Upsert(st.scene, o), log := st.log + [Add(o)])
  }

  function BeginMove(st: State, o: SceneObject, wp: Point): (r: State)
    requires ValidView(st.view)
    ensures st.log <= r.log
  {
    if o.Shape? then
      var m := BIND_MARGIN_PX / st.view.scale;
      st.(scene := BindAll(st.scene, o, m, |st.scene|),
          move := Some(Move(wp, o.id, false, o, Rebound(st.scene, o, m, |st.scene|))))
    else
      st.(move := Some(Move(wp, o.id, false, o, [])))
  }

  /** The end of a selected connector that a press grabs; the first end wins. */
  function GrabbedEnd(st: State, wp: Point): Option<End>
    requires ValidView(st.view)
  {
    var sel := Selection(st);
    if sel.Some? && sel.value.Connector? then
      var e, r := ResolveEnds(st.scene, sel.value), ENDPOINT_GRAB_PX / st.view.scale;
      if Within(Dist2(wp, e.a), r) then Some(FirstEnd)
      else if Within(Dist2(wp, e.b), r) then Some(SecondEnd)
      else None
    else None
  }

  function SelectDown(st: State, wp: Point): (r: State)
    requires ValidView(st.view)
    ensures st.log <= r.log
  {
    var end := GrabbedEnd(st, wp);
    if end.Some? then
      st.(action := Some(DraggingEnd), endDrag := Some(EndDrag(Selection(st).value.id, end.value)))
    else
      var hit := TopmostAt(st.scene, wp, SELECT_PAD_PX / st.view.scale);
      if hit.None? then st.(selected := None)
      else BeginMove(st.(selected := Some(hit.value.id), action := Some(Moving)), hit.value, wp)
  }

  function Down(st0: State, e: Press): (r: State)
    requires ValidView(st0.view)
    ensures st0.log <= r.log
  {
    var st := CommitEdit(st0);
    if e.tool.TextTool? then st
    else
      var wp := ToWorld(st.view, e.sx, e.sy);
      if e.tool.PanTool? || e.pans then
        st.(action := Some(Panning), panStart := PanStart(e.sx, e.sy, st.view.tx, st.view.ty))
      else match e.tool
        case SelectTool => SelectDown(st, wp)
        case PenTool => st.(action := Some(Drawing), temp := Some(Stroke(e.freshId, e.color, e.width, [wp], None)))
        case ShapeTool(kind) =>
          st.(action := Some(Shaping),
              temp := Some(Shape(e.freshId, kind, wp.x, wp.y, 0.0, 0.0, e.color, e.width, None, Some(e.fill), None)))
        case ConnectorTool =>
          st.(action := Some(Connecting),
              temp := Some(Connector(e.freshId, wp.x, wp.y, wp.x, wp.y, e.color, e.width, true,
                                     RefAt(st.scene, wp, BIND_MARGIN_PX / st.view.scale), None, None)))
        case EraserTool => EraseAt(st.(action := Some(Erasing), erased := {}), wp)
        case _ => st
  }

  function ApplyMove(st: State, wp: Point): (r: State)
    requires st.move.Some? && ValidMove(st.scene, st.loose, st.move.value)
    ensures st.log <= r.log
  {
    var m := st.move.value;
    var dx, dy := wp.x - m.start.x, wp.y - m.start.y;
    WriteHeld(st, Moved(Present(st.scene, st.loose, m.obj).value, m.orig, dx, dy))
    .(move := Some(m.(moved := m.moved || dx != 0.0 || dy != 0.0)))
  }

  function DragEnd(st: State, wp: Point): (r: State)
    requires ValidView(st.view)
    requires st.endDrag.Some? && IsConnector(Present(st.scene, st.loose, st.endDrag.value.c))
    ensures st.log <= r.log
  {
    var c := Present(st.scene, st.loose, st.endDrag.value.c).value;
    WriteHeld(st, EndMoved(c, st.endDrag.value.end, wp, RefAt(st.scene, wp, BIND_MARGIN_PX / st.view.scale)))
  }

  function Drag(st: State, sx: real, sy: real): (r: State)
    requires Inv(st)
    ensures st.log <= r.log
  {
    var wp := ToWorld(st.view, sx, sy);
    match st.action
    case None => st
    case Some(Panning) =>
      st.(view := View(st.panStart.tx + (sx - st.panStart.sx), st.panStart.ty + (sy - st.panStart.sy), st.view.scale))
    case Some(Moving) => ApplyMove(st, wp)
    case Some(DraggingEnd) => DragEnd(st, wp)
    case Some(Drawing) => st.(temp := Some(st.temp.value.(points := st.temp.value.points + [wp])))
    case Some(Shaping) => st.(temp := Some(Resized(st.temp.value, wp)))
    case Some(Connecting) =>
      st.(temp := Some(st.temp.value.(x2 := wp.x, y2 := wp.y, toRef := RefAt(st.scene, wp, BIND_MARGIN_PX / st.view.scale))))
    case Some(Erasing) => EraseAt(st, wp)
  }

  function Resized(o: SceneObject, wp: Point): (r: SceneObject)
    requires o.Shape?
    ensures r.Shape? && r.id == o.id
  {
    o.(w := wp.x - o.x, h := wp.y - o.y)
  }

  /** What a finished drawing gesture adds to the board, if anything. */
  function Finished(a: Action, t: SceneObject): (o: Option<SceneObject>)
    ensures o.Some? ==> o.value.id == t.id
  {
    if a.Drawing? && t.Stroke? && |t.points| >= 2 then Some(t)
    else if a.Shaping? && t.Shape? && Abs(t.w) > 4.0 && Abs(t.h) > 4.0 then Some(Normalize(t))
    else if a.Connecting? && t.Connector? then
      var bound := t.fromRef.Some? || t.toRef.Some?;
      var selfLoop := t.fromRef.Some? && t.toRef.Some? && t.fromRef == t.toRef;
      if !selfLoop && (bound || !Within(Dist2(Point(t.x1, t.y1), Point(t.x2, t.y2)), 6.0)) then Some(t) else None
    else None
  }

  /** What a release broadcasts: the dragged object if it has moved, and the rebound connectors. */
  function ReleasedIds(m: Move): seq<string> {
    (if m.moved then [m.obj] else []) + m.rebound
  }

  function Up(st: State): (r: State)
    requires Inv(st)
    ensures st.log <= r.log
  {
    var done := st.(action := None, temp := None);
    match st.action
    case None => done
    case Some(Moving) =>
      done.(move := None, loose := map[], log := st.log + Broadcasts(st.scene, st.loose, ReleasedIds(st.move.value)))
    case Some(DraggingEnd) =>
      done.(endDrag := None, loose := map[], log := st.log + Broadcasts(st.scene, st.loose, [st.endDrag.value.c]))
    case Some(a) =>
      var o := if st.temp.Some? then Finished(a, st.temp.value) else None;
      if o.Some? then Commit(done, o.value) else done
  }

  function BeginEdit(st: State, o: SceneObject, isNew: bool): (r: State)
    requires o.Shape? || o.Text?
    ensures st.log <= r.log
  {
    var value := if o.Text? then o.text else if o.caption.Some? then o.caption.value else "";
    var sent := !isNew && !(Unsent(st) && st.editing.value.id == o.id);
    st.(editing := Some(Editing(o.id, value, isNew, sent)))
  }

  function ClickAt(st: State, e: Press): (r: State)
    requires ValidView(st.view)
    ensures st.log <= r.log
  {
    if !e.tool.TextTool? || st.editing.Some? then st
    else
      var wp := ToWorld(st.view, e.sx, e.sy);
      var s := ShapeAt(st.scene, wp, 0.0);
      if s.Some? then BeginEdit(st.(selected := Some(s.value.id)), s.value, false)
      else
        var t := Text(e.freshId, wp.x, wp.y, "", e.color, TEXT_SIZE, None);
        BeginEdit(st.(scene := st.scene + [t], selected := Some(t.id)), t, true)
  }

  /** What a double click would edit: the topmost shape there, or else a topmost text. */
  function EditTarget(s: Objects, wp: Point, pad: real): (o: Option<SceneObject>)
    ensures o.Some? ==> o.value in s && (o.value.Shape? || o.value.Text?)
  {
    var shape := ShapeAt(s, wp, 0.0);
    if shape.Some? then shape
    else
      var t := TopmostAt(s, wp, pad);
      if t.Some? && t.value.Text? then t else None
  }

  function DoubleClickAt(st: State, sx: real, sy: real): (r: State)
    requires ValidView(st.view)
    ensures st.log <= r.log
  {
    var o := EditTarget(st.scene, ToWorld(st.view, sx, sy), SELECT_PAD_PX / st.view.scale);
    if o.Some? then BeginEdit(st, o.value, false) else st
  }

  /** A double click that leaves an unsent text for another object's text. */
  predicate Orphans(st: State, sx: real, sy: real)
    requires ValidView(st.view)
  {
    Unsent(st) && st.editing.value.id in Ids(st.scene) &&
    var o := EditTarget(st.scene, ToWorld(st.view, sx, sy), SELECT_PAD_PX / st.view.scale);
    o.Some? && o.value.id != st.editing.value.id
  }

  function DeleteSelected(st: State): (r: State)
    ensures st.log <= r.log
  {
    if !Truthy(st.selected) then st
    else
      var id := st.selected.value;
      st.(scene := Without(st.scene, {id}), loose := LooseAfter(st, {id}), selected := None, log := st.log + [Erase([id])])
  }

  function ReorderSelected(st: State, toFront: bool): (r: State)
    ensures st.log <= r.log
  {
    if !Truthy(st.selected) then st
    else
      var i := IndexOf(st.scene, st.selected.value);
      if i < 0 then st
      else
        var o := Reordered(st.scene, i, toFront);
        st.(scene := st.scene[i := o], log := st.log + [Add(o)])
  }

  /** Ids of the scene objects that a message takes out or replaces. */
  function TakenOut(s: Objects, m: Msg): set<string> {
    match m
    case Add(o) => {o.id}
    case Erase(ids) => ToSet(ids)
    case Clear => Ids(s)
    case _ => {}
  }

  /** A message from the server: applyAdd, applyErase and clear, and what they do to the selection. */
  function Received(st: State, m: Msg): (r: State)
    ensures st.log <= r.log
  {
    var deselect := match m
      case Erase(ids) => Truthy(st.selected) && st.selected.value in ids
      case Clear => true
      case _ => false;
    st.(scene := Apply(st.scene, m), loose := LooseAfter(st, TakenOut(st.scene, m)),
        selected := if deselect then None else st.selected, log := st.log + [m])
  }

  // ---- steps and runs ----

  /** One pointer at a time, and ids that nobody has used: nothing else is asked of the events. */
  ghost predicate Possible(st: State, e: Event) {
    match e
    case PointerDown(p) => st.action.None? && p.freshId !in Ids(st.scene)
    case Click(p) => st.action.None? && p.freshId !in Ids(st.scene)
    case DoubleClick(_, _) => st.action.None?
    case Receive(Add(o)) => st.temp.Some? ==> o.id != st.temp.value.id
    case _ => true
  }

  function Step(st: State, e: Event): (r: State)
    requires Inv(st)
    ensures st.log <= r.log
  {
    match e
    case PointerDown(p) => Down(st, p)
    case PointerMove(sx, sy) => Drag(st, sx, sy)
    case PointerUp => Up(st)
    case Click(p) => ClickAt(st, p)
    case DoubleClick(sx, sy) => DoubleClickAt(st, sx, sy)
    case TypeText(value) => if st.editing.Some? then st.(editing := Some(st.editing.value.(value := value))) else st
    case CommitText => CommitEdit(st)
    case DeleteKey => if st.editing.Some? then st else DeleteSelected(st)
    case ReorderKey(toFront) => if st.editing.Some? then st else ReorderSelected(st, toFront)
    case ClearBoard => Received(st, Clear)
    case Receive(m) => Received(st, m)
    case ChangeTool => st.(selected := None)
    case WheelPan(dx, dy) => st.(view := PanBy(st.view, -dx, -dy))
    case WheelZoom(sx, sy, factor) => st.(view := ZoomAt(st.view, sx, sy, factor))
    case ResetView => st.(view := RESET_VIEW)
  }
}
