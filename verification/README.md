# Draw: a verified model of the shared whiteboard

Draw is a whiteboard that many browsers share through any number of gateway nodes. Every change is
one of three messages: `add` (insert or replace an object), `erase` (remove objects by id) and
`clear`. This project models the three parts of it that have to agree with each other and proves
what they promise, for all inputs, all runs and all interleavings of the modelled steps.
`dafny verify dfyconfig.toml` checks everything.

**The scene and its editor** (`Protocol`, `Scene`, `Geometry`, `Viewport`, `ZOrder`, `Gestures`,
`EditorInvariant`, `Mirror`, `MirrorLimits`, `Divergence`, `Handling`, `Commands`, `BoardCanvas`). `Scene` is the fold by
which every client turns messages into a scene. `Gestures` is the editor as a state machine over values, one event at a time;
`BoardCanvas` is the component itself as a class whose scene is a sequence of shared mutable cells,
so that a dragged object, a selected object and the connectors a grab has bound are the very cells
the scene holds, or held: a gesture keeps its cells when a remote message, a clear or the Delete key
takes them out of the scene. Each of its methods is proved to compute the machine's next state, in
mid-gesture too. `Mirror` proves over runs of the machine that the messages an editor applied and
broadcast fold to the scene it shows, object by object and in the same order. `MirrorLimits` has runs
in which it fails, and says of the events concerned when they break it. `Divergence` leaves no kind
of event out: after any run, with messages, clears and keys at any moment, it names exactly the ids that
differ. `Handling` and `Commands` say in coordinates, and apart from the machine's own definitions,
what each gesture comes to from its press over any number of moves to its release, and what each key,
click, wheel event and message does. "Peers" stands throughout for that fold of one client's own
applied and broadcast messages; how the messages of several clients meet is the matter of `Fanout`,
`Join` and `Writers`.

**The gateway and the store** (`Framing`, `Fanout`, `Delivery`, `Hub`, `RefCount`, `Join`, `Store`, `Writers`).
`Hub` and `Store` hold the Go objects as classes. `Fanout`, `RefCount`, `Join` and `Writers` are the
same code as step systems, cut at every lock, channel operation and SQL statement, with theorems over
all runs: any number of nodes, clients, boards and messages, in any interleaving. `Delivery` follows
one frame through a run of `Fanout`, from its publish to the queues at the other nodes.

**The PDF export and the board ids** (`Pdf`, `Slug`). The byte writer with its cross-reference table,
and the slug of a board title, both as the loops of the original, each proved against a reference
definition whose properties are proved separately. The PDF properties are those of sections 7.3.8,
7.5.4 and 7.5.5 of ISO 32000-1.

## What turned out false of the code

Each of these is a lemma about a run that fails, next to the condition under which the law does hold.
For the first three `Divergence.DivergenceTheorem` says of every run which objects differ at its end.

- A bound connector that is pressed and released with pointer moves of no displacement loses its
  bindings locally and broadcasts nothing (`MirrorLimits.DropHappens`). `Mirror.MirrorTheorem` says
  exactly which objects differ afterwards: the dropped connectors that nobody has written since.
- An object that is deleted, erased, cleared or replaced while a drag holds it is still changed and
  broadcast by that drag. Delete pressed in mid-drag loses an object locally that everybody else gets
  back (`MirrorLimits.DeleteHappens`); after any removal of the dragged object that happens if and
  only if the drag has moved by its release (`MirrorLimits.HeldObjectReturns`). For every object that
  a release broadcasts, `MirrorLimits.LooseRelease` has the exact condition under which peers and
  scene differ in it.
- A double click while a new text is still being typed, if it opens a text raised above it, leaves
  the new text in the local scene unbroadcast (`MirrorLimits.OrphanHappens`; for every such double
  click, once the editor is closed, `MirrorLimits.OrphanStays`).
- A new object that arrives while a new text is typed can end up later in the scene than the text,
  and earlier at the peers (`MirrorLimits.OvertakenHappens`). Whatever is typed and received
  meanwhile, closing the editor of a new text keeps the order if and only if the typed text is blank, or the text is
  still last in the scene, or it is no longer there (`MirrorLimits.CloseExactly`); and a difference in
  order is seen on the canvas if and only if a later object has the text's own z
  (`MirrorLimits.OvertakenDrawing`).
- A client that missed a `clear` keeps the old objects after it reconnects, because the truncated log
  no longer mentions them (`Scene.ReconnectKeepsClearedObject`; exactly when, in
  `Scene.ReconnectAcrossClear`).
- "A node subscribes to a board's channel only while it hosts clients" (redis.go:21-24): the pub/sub
  calls are made after the lock is released, and an Unsubscribe overtaken by the next client's
  Subscribe leaves a hosted board unsubscribed (`RefCount.OvertakenUnsubscribe`). A node at rest is
  right about a board if and only if the last call on it to take effect is of the kind of the last
  call made (`RefCount.SubscribedExactly`); taking effect in lock order is enough.
- A join can be complete and still draw a wrong board: an erase delivered live during the replay
  reaches the joiner before the replayed add (`Join.EraseOvertakesReplay`), or two writers' frames are
  recorded in the other order than they are delivered (`Join.RecordedInOtherOrder`). The joiner shows
  the recorded board if and only if for each id the last item about it in the queue leaves the same of
  it as the last recorded frame about it (`Join.JoinDrawsRecorded`). `Join.JoinByItem` says what that
  means in the protocol's terms, and `Join.OvertakingExactly` has the exact part that overtaking plays.

## Model

| member | source | states |
|---|---|---|
| Scene.FoldUnique | web/src/components/BoardCanvas.tsx:745-761 | Whatever messages arrive, no scene ever holds an id twice. |
| Scene.UpsertInPlace | web/src/components/BoardCanvas.tsx:745-750 | An add replaces the object with its id where it lies; under a new id it comes last. |
| Scene.WithoutInOrder | web/src/components/BoardCanvas.tsx:751-756 | An erase keeps exactly the objects whose ids it does not name, in their order. |
| Scene.LastMessageWins | web/src/components/BoardCanvas.tsx:745-761 | What a client shows for an id depends on that id's own last add, erase or clear only. |
| Scene.Convergence | web/src/components/BoardCanvas.tsx:745-761 | Clients that saw each id's own messages in the same order end with the same objects, however the ids were interleaved. |
| Scene.ConvergenceExact | web/src/components/BoardCanvas.tsx:745-761 | From empty boards, two histories give the same objects if and only if they settle every id alike. |
| Scene.ReplayOntoKept | web/src/lib/useDraw.ts:54-85 | Replaying a log onto a kept scene equals replaying it onto an empty one if and only if the log mentions every kept id. |
| Scene.ReconnectAfterGap | web/src/lib/useDraw.ts:54-85 | A client that missed messages, but no clear, has the board's objects again after its replay. |
| Scene.ReconnectAcrossClear | web/src/lib/useDraw.ts:54-85 | If a clear was missed, the replay repairs the board if and only if every id still shown was written again after the clear. |
| Scene.ReconnectKeepsClearedObject | web/src/lib/useDraw.ts:54-85 | A concrete reconnect after which a cleared object is still shown. |
| Scene.TruncationPreservesScene | internal/store/store.go:47-70 | Dropping everything before a clear, and every transient message, leaves the folded scene unchanged, for every history. |
| Scene.RetainedExactly | internal/store/store.go:47-61 | The retained log is made, in order, of exactly the adds, erases and drawn segments after the last clear. |
| Geometry.Normalize | web/src/components/BoardCanvas.tsx:986-994 | A normalised shape has non-negative sides and the same two pairs of edges, so the same rectangle; every other field is as it was. |
| Geometry.AnchorsAreMidpoints | web/src/components/BoardCanvas.tsx:1001-1012 | The four anchors are, in order, the midpoints of the top, right, bottom and left side of the shape's rectangle, for sides of either sign. |
| Geometry.AnchorOnOutline | web/src/components/BoardCanvas.tsx:1001-1012 | Every anchor lies on the outline of the shape's own kind: the rectangle's border, the ellipse, or the diamond. |
| Geometry.CenterIsMiddle | web/src/components/BoardCanvas.tsx:996-999 | Twice the centre is the corner plus the opposite corner, for sides of either sign. |
| Geometry.BoundShapeExact | web/src/components/BoardCanvas.tsx:112-115 | An id names the first object that has it, if that is a shape; nothing if that is none. |
| Geometry.ComputeNearestAnchor | web/src/components/BoardCanvas.tsx:1015-1027 | The loop returns the first of the border anchors with the least distance. |
| Geometry.NearestUnique | web/src/components/BoardCanvas.tsx:1015-1027 | "First anchor of least distance" names one anchor. |
| Geometry.ResolvedEndsAreNearest | web/src/components/BoardCanvas.tsx:128-136 | A bound end sits on its shape's anchor nearest to the other shape's centre or other stored end; an end whose shape is gone keeps its stored point. |
| Geometry.DoublyBoundIgnoresStored | web/src/components/BoardCanvas.tsx:128-136 | A connector bound at both ends ignores its stored coordinates. |
| Geometry.ResolvedEndsTranslate | web/src/components/BoardCanvas.tsx:128-136 | Moving all shapes and stored ends by d moves every resolved end by d. |
| Geometry.ClosestParamIsClosest | web/src/components/BoardCanvas.tsx:1078-1086 | The clamped parameter gives the least squared distance over all points of the segment. |
| Geometry.StrokeIsHit | web/src/components/BoardCanvas.tsx:1058-1076 | The loop over the points finds a hit exactly when one of the stroke's segments is near enough. |
| Geometry.StrokeHitExact | web/src/components/BoardCanvas.tsx:1058-1076 | A stroke of two or more points is hit if and only if the point is within pad + width/2 of some point of its polyline. |
| Geometry.UnboundEnd | web/src/components/BoardCanvas.tsx:128-130 | An end without a ref, or with a ref to an id that no object has, is bound to nothing. |
| Geometry.HitExact | web/src/components/BoardCanvas.tsx:1058-1076 | What is hit of every kind, in coordinates: a shape's or text's padded rectangle, nearness to a connector's line between its resolved ends, nearness to a stroke or its only point. |
| Geometry.TextBoxExact | web/src/components/BoardCanvas.tsx:1038-1043 | A text's box is as wide as its longest line and as high as its number of lines, in the code's estimate of a character. |
| Geometry.ObjBBox | web/src/components/BoardCanvas.tsx:1029-1056 | The box is the least one around a stroke or a connector's stored ends, and a shape's or text's own rectangle. |
| Geometry.EnclosedEnds | web/src/components/BoardCanvas.tsx:771-790 | A frame around all boxes also holds every connector's resolved ends, although boxes read stored ends only. |
| Geometry.ExportFrame | web/src/components/BoardCanvas.tsx:771-790 | The export frame is tight around all boxes, padded by 48, holds all resolved connector ends, and is missing only for an empty board. |
| Viewport.WorldOfScreen | web/src/components/BoardCanvas.tsx:98-105 | toWorld undoes toScreen. |
| Viewport.ScreenOfWorld | web/src/components/BoardCanvas.tsx:98-105 | toScreen undoes toWorld. |
| Viewport.ZoomKeepsPointer | web/src/components/BoardCanvas.tsx:730-739 | Every zoom, clamped or not, keeps the world point under the pointer where it is. |
| Viewport.ZoomUndone | web/src/components/BoardCanvas.tsx:730-739 | Zooming by f and by 1/f about one point restores the view if and only if the clamp did not cut the scale for good. |
| EditorInvariant.ViewOfRun | web/src/components/BoardCanvas.tsx:641-644 | In every run, whatever messages and keys come in mid-gesture, the scale stays in [0.15, 6] and the coordinate maps stay inverse to each other. |
| ZOrder.OrderedSceneIsStableSort | web/src/components/BoardCanvas.tsx:146-151 | The drawing order is a permutation of the scene sorted by z, then by insertion index. |
| ZOrder.SortedUnique | web/src/components/BoardCanvas.tsx:146-151 | Only one order of the scene is sorted that way. |
| ZOrder.DrawnAlike | web/src/components/BoardCanvas.tsx:146-151 | Two scenes are drawn in the same order if and only if at each z they hold the same objects in the same order. |
| ZOrder.PassedUnseen | web/src/components/BoardCanvas.tsx:146-151 | An object may go to the end of the scene without a change on the canvas if and only if none of the objects it passes has its z. |
| ZOrder.BringToFront | web/src/components/BoardCanvas.tsx:172-181 | Bringing an object to the front draws it last and leaves all other objects in their relative order. |
| ZOrder.SendToBack | web/src/components/BoardCanvas.tsx:172-181 | Sending an object to the back draws it first and leaves all other objects in their relative order. |
| ZOrder.ReorderedExactly | web/src/components/BoardCanvas.tsx:172-181 | The new z is one more than the greatest or one less than the least in the scene; nothing else of the object changes. |
| ZOrder.TopmostExactly | web/src/components/BoardCanvas.tsx:152-159 | Of all objects hit at a point, the topmost is the one drawn after all the others; there is none if and only if nothing is hit. |
| ZOrder.FrontObjectIsTopmost | web/src/components/BoardCanvas.tsx:152-181 | After bring-to-front, every point that hits the object selects it. |
| EditorInvariant.StepInv | web/src/components/BoardCanvas.tsx:445-761 | Every event, also a message or a key in mid-gesture, keeps ids unique, the view usable, and a value of the right kind for the dragged object, the grabbed end and the rebound connectors, in the scene or in the gesture's hands. |
| Handling.MoveDisplaces | web/src/components/BoardCanvas.tsx:610-631 | While an object is dragged, every pointer move puts it, wherever it is, at its place at the grab plus the pointer less the press; a connector loses both bindings, and nothing else changes. |
| Handling.WholeDrag | web/src/components/BoardCanvas.tsx:528-704 | From the press over any moves to the release: the object drawn last at the press is displaced by the last point less the first, whatever the path; the connectors the grab binds are bound; peers are told the object if the pointer strayed, and those connectors. |
| Handling.GrabExactly | web/src/components/BoardCanvas.tsx:573-608 | Grabbing a shape binds exactly the loose ends in its rectangle grown by 8 pixels, and nothing else of any object changes. |
| Handling.GrabTells | web/src/components/BoardCanvas.tsx:589-607 | The connectors to tell at the release are exactly those that the grab changed. |
| Handling.GrabbedEndExactly | web/src/components/BoardCanvas.tsx:514-527 | An end of the selected connector is grabbed within 12 pixels of where it is drawn, the first end before the second, and no other object's. |
| Handling.WholeEndDrag | web/src/components/BoardCanvas.tsx:514-692 | A grabbed end goes to the last point, bound to the last shape within 8 pixels there or to none; the other end stays; peers are told the connector. |
| Handling.PressMisses | web/src/components/BoardCanvas.tsx:528-535 | A press of the select tool where nothing lies ends the selection and does nothing else. |
| Handling.ShapeAtExactly | web/src/components/BoardCanvas.tsx:116-125 | The shape at a point is the last of the scene whose rectangle, grown by the margin, has the point. |
| Handling.PenDraws | web/src/components/BoardCanvas.tsx:537-697 | A pen stroke has the points of the path, the press first, and is stored and told if and only if the pointer moved. |
| Handling.ShapeDraws | web/src/components/BoardCanvas.tsx:540-698 | A shape spans the rectangle from the press to the last point, whichever way it was drawn, and is stored and told if and only if both sides exceed 4. |
| Handling.ConnectorDraws | web/src/components/BoardCanvas.tsx:555-703 | A connector runs from the press to the last point, bound to what lies within 8 pixels of each; it is dropped if and only if both ends are on one shape, or it is free and at most 6 long. |
| Handling.PanDrags | web/src/components/BoardCanvas.tsx:503-645 | A pan keeps the world point of the press under the pointer and changes nothing but the view. |
| Handling.EraserPresses | web/src/components/BoardCanvas.tsx:566-728 | The press of the eraser takes out exactly the objects within 8 pixels and tells them in one message, in scene order. |
| Handling.EraserMoves | web/src/components/BoardCanvas.tsx:712-728 | Every further touch does so with the objects that the gesture has not erased before. |
| Commands.ClosesExactly | web/src/components/BoardCanvas.tsx:445-463 | Closing the editor trims the white space around the value, stores it in the edited object where it lies, takes an emptied text out, and tells peers, except of a new and empty text. |
| Commands.WhiteSpace | web/src/components/BoardCanvas.tsx:448 | The white space that the editor trims is that of Go's TrimSpace without U+0085 and with U+FEFF. |
| Commands.TextPresses | web/src/components/BoardCanvas.tsx:496-498 | A press with the text tool closes an open editor and does nothing else. |
| Commands.ClickExactly | web/src/components/BoardCanvas.tsx:480-494 | A click with the text tool opens the caption of the last shape there, or adds an empty text at the point that nobody is told of. |
| Commands.DoubleClickExactly | web/src/components/BoardCanvas.tsx:466-478 | A double click opens the last shape there, or else the object drawn last there if it is a text, or else nothing. |
| Commands.DeleteExactly | web/src/components/BoardCanvas.tsx:163-170 | Delete takes the selected object out of its place, tells peers, and ends the selection; nothing with an editor open. |
| Commands.BracketExactly | web/src/components/BoardCanvas.tsx:172-181 | A bracket key changes only the z of the selected object, to before or behind those of all others, and tells peers. |
| Commands.WheelPans | web/src/components/BoardCanvas.tsx:226-230 | A wheel pan moves every drawn point against the wheel and changes the view only. |
| Commands.WheelZooms | web/src/components/BoardCanvas.tsx:222-225 | A wheel zoom keeps the world point under the pointer, and asks for a scale that is cut to 0.15 and 6. |
| Commands.ReceivesExactly | web/src/components/BoardCanvas.tsx:745-761 | A message is applied and logged, and ends the selection if and only if it takes the selected object out. |
| Mirror.StepMirrors | web/src/components/BoardCanvas.tsx:445-761 | After every event of the law's runs, also in mid-gesture, the folded messages give the local scene except for the objects the gesture holds and the stale connectors. |
| Mirror.ReceiveMirrors | web/src/components/BoardCanvas.tsx:745-761 | A message or clear in mid-gesture or with an editor open keeps the mirror, if it takes out nothing held and adds no object under the id of an unsent text. |
| Mirror.DeleteMirrors | web/src/components/BoardCanvas.tsx:163-170 | Delete keeps the mirror at any time, unless the gesture holds the selected object. |
| Mirror.ReorderMirrors | web/src/components/BoardCanvas.tsx:172-181 | The bracket keys keep the mirror at any time, also when the gesture holds the object. |
| Mirror.MirrorTheorem | web/src/components/BoardCanvas.tsx:163-761 | With no gesture or editor open, after any run of allowed events, the folded messages give the local scene, id by id in order, exactly outside the set of dropped connectors; equality holds if and only if that set is empty. |
| Mirror.MirrorWithoutDrops | web/src/components/BoardCanvas.tsx:163-761 | A run of allowed events in which no release drops bindings ends with folded messages equal to the local scene. |
| MirrorLimits.DropHappens | web/src/components/BoardCanvas.tsx:610-704 | A concrete run in which a release drops bindings and the peers keep them. |
| MirrorLimits.LooseRelease | web/src/components/BoardCanvas.tsx:676-692 | A release tells peers every object it broadcasts as the gesture holds it; peer and scene differ in it if and only if it was taken out of the scene in mid-gesture and the scene has nothing equal in its place. |
| MirrorLimits.HeldObjectReturns | web/src/components/BoardCanvas.tsx:163-170 | If the dragged object is deleted, erased or cleared in mid-drag, then after any further moves and the release the scene lacks it, and peers have it if and only if the drag has moved. |
| MirrorLimits.DeleteHappens | web/src/components/BoardCanvas.tsx:238-256 | A concrete run, Delete pressed in mid-drag, that ends with an empty scene here and the deleted object at the peers. |
| MirrorLimits.OrphanStays | web/src/components/BoardCanvas.tsx:445-478 | A double click that opens another object's text while an unsent text is open always ends with an object that only the local scene has. |
| MirrorLimits.OrphanHappens | web/src/components/BoardCanvas.tsx:445-499 | A concrete run from the empty board, with every press and click of a double click, that ends that way. |
| MirrorLimits.CloseExactly | web/src/components/BoardCanvas.tsx:445-463 | From every mirrored state with an editor open, closing it leaves scene and fold in one order, and mirrored, if and only if it does not store a non-blank unsent text in front of later objects. |
| MirrorLimits.OvertakenDrawing | web/src/components/BoardCanvas.tsx:146-151 | When it does, the two are drawn in one order all the same if and only if no later object has the text's z. |
| MirrorLimits.OvertakenHappens | web/src/components/BoardCanvas.tsx:745-750 | A concrete run from the empty board after which the scene and the fold hold a text and another object in opposite orders. |
| Divergence.StepAccounts | web/src/components/BoardCanvas.tsx:163-761 | Every event, at any moment, keeps the account of the ids that differ: a message about an id settles it; a release that tells a lost object, an orphaning double click and a drag that drops bindings unsettle it. |
| Divergence.DivergenceTheorem | web/src/components/BoardCanvas.tsx:163-761 | At rest after any run, remote messages, clears and keys in mid-gesture included, the ids in which the scene and the folded messages differ are exactly those of the account; the maps are equal if and only if it is empty. |
| BoardCanvas.BoardCanvas.constructor | web/src/components/BoardCanvas.tsx:64-95 | A new canvas is the machine's initial state. |
| BoardCanvas.BoardCanvas.ApplyAdd | web/src/components/BoardCanvas.tsx:745-750 | Replaces the object with that id in place, or appends it; equals the machine's step for a received add. |
| BoardCanvas.BoardCanvas.ApplyErase | web/src/components/BoardCanvas.tsx:751-756 | Removes exactly the named objects and the selection if it is one of them; the other cells stay the same cells, and a held one that goes keeps its value. |
| BoardCanvas.BoardCanvas.ClearAll | web/src/components/BoardCanvas.tsx:757-761 | Empties the scene and the selection; what the gesture holds keeps its value. |
| BoardCanvas.BoardCanvas.OnMessage | web/src/lib/useDraw.ts:65-94 | Dispatches a message to the handler of its type and ignores every other type; equals the machine's step, at any moment. |
| BoardCanvas.BoardCanvas.FindTopmost | web/src/components/BoardCanvas.tsx:152-159 | The backwards loop over the drawing order returns the cell of the front-most object hit, or none. |
| BoardCanvas.BoardCanvas.EraseAtPoint | web/src/components/BoardCanvas.tsx:712-728 | Removes and broadcasts the ids hit for the first time in this gesture, and nothing if there are none. |
| BoardCanvas.BoardCanvas.Mutate | web/src/components/BoardCanvas.tsx:610-631 | Writing through a shared reference is an upsert of that object into the scene, in place. |
| BoardCanvas.BoardCanvas.WriteNode | web/src/components/BoardCanvas.tsx:610-631 | Writing through a held reference changes the scene if the scene still has that cell, and otherwise only what the gesture holds. |
| BoardCanvas.BoardCanvas.CommitText | web/src/components/BoardCanvas.tsx:445-463 | Closing the editor stores and broadcasts the text, or removes an emptied text object, as the machine says. |
| BoardCanvas.BoardCanvas.BindConnectors | web/src/components/BoardCanvas.tsx:573-608 | Grabbing a shape binds the loose connector ends inside its margin and lists exactly the connectors it changed. |
| BoardCanvas.BoardCanvas.PointerDown | web/src/components/BoardCanvas.tsx:496-571 | A press starts the gesture of the machine's step, after committing an open text. |
| BoardCanvas.BoardCanvas.PointerMove | web/src/components/BoardCanvas.tsx:633-674 | A pointer move changes the dragged object, the dragged end, the drawing, the view or the erased objects in place, as the machine says. |
| BoardCanvas.BoardCanvas.SendReleased | web/src/components/BoardCanvas.tsx:676-704 | A release broadcasts the dragged object if it moved, then every connector the grab bound, with the values they have then. |
| BoardCanvas.BoardCanvas.PointerUp | web/src/components/BoardCanvas.tsx:676-710 | A release ends the gesture and commits or broadcasts its result, as the machine says. |
| BoardCanvas.BoardCanvas.Click | web/src/components/BoardCanvas.tsx:480-494 | A click with the text tool edits the shape under it or adds an unsent text object. |
| BoardCanvas.BoardCanvas.DoubleClick | web/src/components/BoardCanvas.tsx:466-478 | A double click opens the editor on the topmost shape at the point, or else on a topmost text, also while another editor is open. |
| BoardCanvas.BoardCanvas.DeleteSelected | web/src/components/BoardCanvas.tsx:163-170 | Removes the selected id and broadcasts its erase, whether or not the scene still has the object; nothing without a selection. |
| BoardCanvas.BoardCanvas.PressDelete | web/src/components/BoardCanvas.tsx:238-248 | Delete does so at any moment, also in mid-gesture, and nothing while a text editor is open. |
| BoardCanvas.BoardCanvas.ReorderSelected | web/src/components/BoardCanvas.tsx:172-181 | Writes the new z into the selected object's cell and broadcasts it; nothing if the scene has no selected object. |
| BoardCanvas.BoardCanvas.PressBracket | web/src/components/BoardCanvas.tsx:249-254 | The bracket keys do so at any moment, also in mid-gesture, and nothing while a text editor is open. |
| BoardCanvas.BoardCanvas.WheelZoom | web/src/components/BoardCanvas.tsx:221-231 | A zoom by wheel is the machine's step and changes the view only. |
| BoardCanvas.BoardCanvas.ResetView | web/src/components/BoardCanvas.tsx:764-768 | Resets the view and nothing else. |
| Framing.FrameCrosses | internal/hub/redis.go:56-65 | A framed payload arrives unchanged on its own board at every node but the publisher's, which ignores it. |
| Fanout.StepInv | internal/hub/hub.go:104-133 | Every step of every node, client and channel keeps the ordering invariant between queues, deliveries and channels. |
| Fanout.FanoutSafety | internal/hub/redis.go:68-117 | In every reachable state each client has got only other clients' frames of its own board, unchanged, each at most once and each sender's in sending order, with at most 256 waiting. |
| Fanout.FanoutComplete | internal/hub/hub.go:113-133 | Once no delivery is under way, every client that a delivery set out to serve, other than the sender, has received the frame or had a full queue. |
| Delivery.FrameReachesNode | internal/hub/redis.go:68-117 | Whatever the run: a frame published while another node is subscribed to its board's channel is taken there later, and, once all is quiet, every client of the board that was joined there then has received it or had a full queue. |
| Delivery.FrameReachesNeighbours | internal/hub/hub.go:113-133 | A frame read from a client reaches every other client of the board joined at its own node then, unless that client's queue was full at the offer. |
| Delivery.DroppedOnlyWhenFull | internal/hub/hub.go:127-131 | In every run a frame is dropped only at an offer to a client whose queue holds 256. |
| Hub.RedisBroadcaster.BindBoard | internal/hub/redis.go:75-86 | Counts the board up and subscribes on the first; subscribed if and only if counted. |
| Hub.RedisBroadcaster.UnbindBoard | internal/hub/redis.go:88-103 | Counts the board down and unsubscribes on the last; subscribed if and only if counted. |
| Hub.Hub.Add | internal/hub/hub.go:66-81 | The client joins its board only, and the node is subscribed to it. |
| Hub.Hub.Remove | internal/hub/hub.go:83-99 | The client leaves its board only, and the subscription goes exactly with the board's last client. |
| Hub.Hub.DeliverLocal | internal/hub/hub.go:120-133 | Every client of the board but the sender is offered the payload once; a full queue drops it; no other client is touched. |
| Hub.Hub.Publish | internal/hub/hub.go:104-107 | Delivers locally, publishes one frame under this node's id, and records exactly one call. |
| Hub.Hub.OnMessage | internal/hub/redis.go:105-117 | A packet reaches the clients of its board if another node sent it, and nobody if it is too short or the node's own. |
| RefCount.RefCountTheorem | internal/hub/redis.go:75-103 | In every interleaving a board's counter is one if it is hosted, plus pending unbinds, minus pending binds, of which there is at most one. |
| RefCount.UnbindFindsCount | internal/hub/redis.go:88-96 | UnbindBoard always finds a count of at least one. |
| RefCount.HostedIffJoined | internal/hub/hub.go:66-99 | The registry lists a board exactly while a client of it has been added and not removed. |
| RefCount.RestingCounts | internal/hub/redis.go:75-103 | With nothing pending a counter is one for hosted boards and absent for all others. |
| RefCount.SubscribedExactly | internal/hub/redis.go:75-103 | At rest, after any run, a node is subscribed to a board as it should be if and only if the last call on it to take effect is of the kind of the last call made. |
| RefCount.SubscribedIffHosted | internal/hub/redis.go:75-103 | In particular, if pub/sub calls take effect in lock order, a node at rest is subscribed to exactly the boards it hosts. |
| RefCount.OvertakenUnsubscribe | internal/hub/redis.go:97-102 | A run with two clients after which a hosted, counted board is not subscribed. |
| Join.JoinCompleteness | internal/hub/client.go:58-79 | After a join a delivered durable frame is missing from the queue if and only if it was delivered before add or dropped at a full queue, and was recorded after Catchup or wiped by a recorded clear. |
| Join.DeliveryDecides | internal/hub/hub.go:120-133 | A delivery misses a client that is not added yet, is queued below 256 waiting entries, and is dropped otherwise; that stays so for the rest of the run. |
| Join.ReplayDrawsBoard | internal/hub/client.go:73-77 | The replayed part folds to the scene of all frames recorded when Catchup ran. |
| Join.JoinDrawsRecorded | internal/hub/client.go:58-79 | In every reachable state the joiner shows the recorded board if and only if, for each id, the last queued item about it leaves the same of it as the last recorded frame about it. |
| Join.JoinByItem | internal/hub/client.go:58-79 | In a complete join an id is shown as recorded if and only if: with a live item last, that frame leaves what the last recorded one leaves; with a replayed item last or none, no frame recorded since Catchup has changed the id. |
| Join.LastReplayed | internal/hub/client.go:73-77 | A replayed item in the last place for an id is the last frame about it that was recorded when Catchup ran. |
| Join.OvertakingExactly | internal/hub/client.go:58-79 | A complete join draws the frames recorded at Catchup followed by the live ones if and only if every id with a replayed frame after its last live one is left alike by both. |
| Join.QuietJoin | internal/hub/client.go:58-79 | In particular it does if no live frame enters the queue before the end of the replay. |
| Join.EraseOvertakesReplay | internal/hub/client.go:73-77 | A run of a complete join after which an erased object is shown. |
| Join.RecordedInOtherOrder | internal/hub/hub.go:104-107 | A run of a complete join, nothing overtaken, that shows another object than the recorded board. |
| Store.PayloadsInParts | internal/store/store.go:47-61 | What is recorded for a board is, in order, exactly the payloads handed over for it. |
| Store.MemoryRecorder.Record | internal/store/store.go:47-61 | Appends durable ops, drops the board's log on a clear, ignores the rest, and touches no other board. |
| Store.MemoryRecorder.Catchup | internal/store/store.go:63-70 | A fresh copy of the board's log, which folds to the scene of every payload ever recorded for the board. |
| Store.PostgresRecorder.Record | internal/store/postgres.go:76-92 | Puts the event of a durable payload at the end of the queue if it holds fewer than 4096, and changes nothing otherwise. |
| Store.PostgresRecorder.Flush | internal/store/postgres.go:99-111 | Inserts the pending ops as one batch in order, and forgets them whether or not the statement succeeded. |
| Store.PostgresRecorder.Receive | internal/store/postgres.go:113-127 | One event taken: an op is pended, and flushed at 500; a clear flushes first, then deletes the board's rows. |
| Store.PostgresRecorder.Tick | internal/store/postgres.go:128-130 | A tick flushes. |
| Store.PostgresRecorder.Catchup | internal/store/postgres.go:134-152 | The board's ops in insertion order, or nothing if the query failed. |
| Store.RowsInParts | internal/store/postgres.go:134-152 | A board's answer is made, in order, of exactly the rows that carry its id. |
| Store.EventsInParts | internal/store/postgres.go:76-92 | The events on a board are, in order, exactly those that carry its id: its ops, and a clear for every wipe. |
| Store.TableAgreesWithLog | internal/store/postgres.go:94-132 | Events played on the table one by one leave, board by board, the simple append/clear log. |
| Writers.BatchPlays | internal/store/postgres.go:103-105 | One batch insert equals its ops inserted one by one. |
| Writers.HeldConserved | internal/store/postgres.go:76-132 | No step of a writer loses, doubles or reorders an accepted event. |
| Writers.AcceptedExactly | internal/store/postgres.go:76-92 | What a node has accepted after any run is, in order, exactly its durable calls made while its queue held fewer than 4096. |
| Writers.NothingShed | internal/store/postgres.go:76-92 | If its queue is never full, that is every durable call. |
| Writers.MergeTheorem | internal/store/postgres.go:76-132 | With any number of nodes, and statements that may fail, the table is the fold of the successful part of one merge, to which each node contributes all its accepted events in order except at most 4096 + 499 it still holds. |
| Writers.TableIsMergedLog | internal/store/postgres.go:76-132 | If statements succeed, each board's rows are the append/clear log of a merge in which each node's part is a prefix of its accepted events. |
| Writers.CatchupDrawsMerge | internal/store/postgres.go:134-152 | A client joining through any node folds the table's answer to the scene of the merged history. |
| Writers.WriterRefinesLog | internal/store/postgres.go:76-132 | One node's table, pending and queued events together stand for the simple log of all accepted events, and the table alone does once they are drained. |
| Writers.RecordersAgree | internal/store/postgres.go:76-92 | Both recorders classify payloads alike: on the same calls they stand for the same log. |
| Pdf.Writer.Push | web/src/lib/pdf.ts:32-39 | Appends the bytes and keeps the position equal to the number of bytes written. |
| Pdf.Writer.Buffer | web/src/lib/pdf.ts:71-78 | The two loops copy all chunks, in order and without gaps, into one buffer of the exact size. |
| Pdf.DownloadJpegPdf | web/src/lib/pdf.ts:32-78 | The finished buffer is the reference document made of the five objects, the table of their offsets and the trailer. |
| Pdf.PaddedOffset | web/src/lib/pdf.ts:67 | A padded offset reads back, and takes ten bytes if and only if it is below 10^10. |
| Pdf.CrossReference | web/src/lib/pdf.ts:44-69 | startxref leads to the table, every object starts where its offset says, and every 20-byte entry decodes to that offset if and only if object 5 starts below byte 10^10. |
| Pdf.StreamLengths | web/src/lib/pdf.ts:54-63 | Both /Length values equal the number of bytes between the stream keyword and the end of the stream, for every JPEG. |
| Pdf.ImageSizeReads | web/src/lib/pdf.ts:54-57 | A reader at the image object's offset finds /Width and /Height with the numbers the writer was given. |
| Pdf.ImageKeys | web/src/lib/pdf.ts:54-57 | The image object names its sides, colour space, depth and filter under their keys. |
| Pdf.ContentSays | web/src/lib/pdf.ts:61 | The page content reads as the placement matrix of width, height and position, the image, and the restored state. |
| Pdf.References | web/src/lib/pdf.ts:44-69 | Trailer, catalog, page tree and page refer to each other, the image and the content by the right object numbers, and the page is 612 by 792. |
| Slug.Slugify | internal/store/boards.go:43-62 | The loop computes the lower-cased title's words joined by dashes, clipped to 32 characters. |
| Slug.SlugIsShaped | internal/store/boards.go:43-62 | A slug has only a-z, 0-9 and single inner dashes, and at most 32 characters. |
| Slug.EmptySlug | internal/store/boards.go:43-62 | A slug is empty if and only if the lower-cased title has no a-z or 0-9. |
| Slug.SlugIdempotent | internal/store/boards.go:43-62 | Making a slug of a slug changes nothing. |
| Slug.ShapedIsItsOwnSlug | internal/store/boards.go:43-62 | A title that already has the shape of a slug is its own slug. |
| Slug.LongSlugIsCut | internal/store/boards.go:43-62 | A slug of up to 32 characters is whole; a longer one is cut at 32, and at 31 before a dash. |
| Slug.CaseDoesNotMatter | internal/store/boards.go:44 | A title and its upper-cased form have the same slug. |
| Slug.SurroundingSpace | internal/store/boards.go:44 | The white space around a title does not matter. |
| Slug.BoardIdsDiffer | internal/store/boards.go:33-41 | A board id has a slug's shape and at most 41 characters, and ids with different suffixes differ. |

## Left out

- Floating point: coordinates, scales and distances are exact reals, distances are compared squared, and NaN and infinities do not occur.
- Geometry.ExportFrame: does not cover a board with an empty stroke, whose box has infinite sides; the same for Geometry.ObjBBox.
- Mirror.MirrorTheorem: its runs (`Mirror.Allowed`) leave out a message, a clear or a Delete that takes out or replaces an object in a gesture's hands, a close that stores an overtaken text (`MirrorLimits.CloseExactly`), and a double click that orphans an unsent text; some runs with these end well all the same. `Divergence.DivergenceTheorem` covers them, but for the order of the objects.
- Divergence.DivergenceTheorem: compares scenes as maps from ids to objects, not their order, and takes the ids of new texts to be unused by anybody (`Divergence.Fresh`).
- EditorInvariant.StepInv: one pointer at a time, so no press, click or double click while a gesture is in progress, and no message adds the id of the object being drawn (`Gestures.Possible`).
- Handling.WholeDrag: no message or key comes between its press and its release, as in the other whole gestures of `Handling`; `Handling.MoveDisplaces` holds of every move in any state, and `MirrorLimits.LooseRelease` of every release.
- The wheel's zoom factor, an exponential of the delta, and its line height of 16 pixels: both deltas are parameters, and so is the zoom factor of the buttons.
- A closed socket: every broadcast of an open gesture is taken to be sent.
- Object ids, client ids, node ids and random suffixes are parameters; new object ids are taken to be fresh, node ids to have 16 characters and to be distinct.
- The temporary object of a drawing gesture is a value until it is committed; React's own state and its timing are left out, so the text editor's value is a field of the canvas.
- Text measurement is what the code's own estimate says; wrapping, drawing, cursors, grid, themes, toolbar, lobby and presence are left out.
- Catch-up answers reach a client's queue in `Join` only, where a frame may arrive live and replayed; the at-most-once claim of `Fanout` is about published frames.
- A delivery's offers to different clients are separate steps of `Fanout`, but `Join` sees one client, so there a delivery is one step.
- The writer pump, pings, deadlines and disconnects on errors: a queue is drained one entry at a time by a step of its own.
- Hub.Hub.Add: takes the lock section and the pub/sub call as one step, as do Hub.Hub.Remove, BindBoard and UnbindBoard; `RefCount` separates them.
- The single-node broadcaster, which delivers locally and publishes nothing.
- JSON: a payload is a message value in `Store` and an opaque string in `Hub`, which is given the reading of it as a function; invalid JSON is a transient message. What jsonb does to a payload's text is left out.
- SQL: a batch insert and a delete are atomic and either succeed or fail as a whole; serial numbers follow the order of the statements, and rows that cannot be scanned do not occur.
- Deleting a board, the board registry, its statistics and the GraphQL layer.
- Slices that Go shares or clones are sequences, except the log copy of `Store.MemoryRecorder.Catchup`, the chunks' buffer in `Pdf` and the canvas cells, which are heap objects.
- Base64 decoding, the placement arithmetic of the PDF page and its rounding to two decimals: the four numbers arrive as text, and the image's sides are whole numbers.
- Lower-casing and white space in `Slug` are the cases that can reach a-z and Go's space characters; a title is a sequence of code points.
