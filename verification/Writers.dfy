/** Any number of nodes, each with its own queue and writer, on one shared table. */
module Writers {
  import opened Sequences
  import opened Protocol
  import opened Store
  import Scene

  datatype Action =
    | Record(board: string, payload: Msg)
    | Receive(insertOk: bool, deleteOk: bool)
    | Tick(insertOk: bool)

  predicate Succeeds(a: Action) {
    match a
    case Record(_, _) => true
    case Receive(insertOk, deleteOk) => insertOk && deleteOk
    case Tick(insertOk) => insertOk
  }

  // An event a writer is done with; `applied` says whether its statement succeeded.
  datatype Entry = Entry(node: nat, event: Event, applied: bool)

  // `accepted` (per node, what entered its channel) and `done` (what the writers finished, in
  // the order of their statements) are history: no step reads them.
  datatype Cluster = Cluster(rows: seq<Row>, nodes: seq<Node>, accepted: seq<seq<Event>>, done: seq<Entry>)

  function Tag(node: nat, events: seq<Event>, applied: bool): (r: seq<Entry>)
    ensures |r| == |events|
  {
    seq(|events|, k requires 0 <= k < |events| => Entry(node, events[k], applied))
  }

  /** The events whose statements succeeded. */
  function Applied(done: seq<Entry>): seq<Event> {
    if done == [] then []
    else
      var before, last := Applied(done[..|done| - 1]), done[|done| - 1];
      if last.applied then before + [last.event] else before
  }

  /** One node's part of the merge. */
  function By(done: seq<Entry>, node: nat): seq<Event> {
    if done == [] then []
    else
      var before, last := By(done[..|done| - 1], node), done[|done| - 1];
      if last.node == node then before + [last.event] else before
  }

  /** What one step finishes, in statement order. */
  function Finished(i: nat, n: Node, a: Action): seq<Entry>
    requires |n.boards| == |n.ops|
  {
    match a
    case Record(_, _) => []
    case Tick(insertOk) => Tag(i, Pending(n), insertOk)
    case Receive(insertOk, deleteOk) =>
      if n.queue == [] then []
      else
        var e := n.queue[0];
        match e
        case Wipe(_) => Tag(i, Pending(n), insertOk) + [Entry(i, e, deleteOk)]
        case Op(_, _) => if |n.ops| + 1 >= WRITER_BATCH then Tag(i, Pending(n) + [e], insertOk) else []
  }

  function NodeStep(w: Writer, a: Action): Writer
    requires |w.node.boards| == |w.node.ops|
  {
    match a
    case Record(board, payload) => w.(node := Enqueue(w.node, board, payload))
    case Receive(insertOk, deleteOk) => Received(w, insertOk, deleteOk)
    case Tick(insertOk) => Flushed(w, insertOk)
  }

  function Entering(n: Node, a: Action): seq<Event> {
    if a.Record? && Accepts(n, a.board, a.payload) then [Classify(a.board, a.payload).value] else []
  }

  predicate Shaped(s: Cluster) {
    |s.accepted| == |s.nodes| && forall i :: 0 <= i < |s.nodes| ==> NodeInv(s.nodes[i])
  }

  function Step(s: Cluster, i: nat, a: Action): Cluster
    requires Shaped(s) && i < |s.nodes|
  {
    var w := NodeStep(Writer(s.rows, s.nodes[i]), a);
    Cluster(w.rows, s.nodes[i := w.node],
            s.accepted[i := s.accepted[i] + Entering(s.nodes[i], a)],
            s.done + Finished(i, s.nodes[i], a))
  }

  // ---------------------------------------------------------------- one step

  lemma NodeInvKept(w: Writer, a: Action)
    requires NodeInv(w.node)
    ensures NodeInv(NodeStep(w, a).node)
  {
    if a.Receive? && w.node.queue != [] {
      assert w.node.queue[0] in w.node.queue;
    }
  }

  /** A batch insert is the same as playing its ops one by one. */
  lemma {:induction false} BatchPlays(rows: seq<Row>, boards: seq<string>, ops: seq<Msg>)
    requires |boards| == |ops|
    ensures PlayAll(rows, Pending(Node([], boards, ops))) == rows + Unnest(boards, ops)
  {
    var events := Pending(Node([], boards, ops));
    if ops != [] {
      var k := |ops| - 1;
      assert events[..k] == Pending(Node([], boards[..k], ops[..k]));
      assert Unnest(boards, ops) == Unnest(boards[..k], ops[..k]) + [Row(boards[k], ops[k])];
      BatchPlays(rows, boards[..k], ops[..k]);
    }
  }

  /** One more finished event, on its own. */
  lemma DoneSnoc(done: seq<Entry>, x: Entry, j: nat)
    ensures Applied(done + [x]) == Applied(done) + if x.applied then [x.event] else []
    ensures By(done + [x], j) == By(done, j) + if x.node == j then [x.event] else []
  {
    assert (done + [x])[..|done|] == done;
  }

  lemma TagSnoc(done: seq<Entry>, i: nat, front: seq<Event>, e: Event, ok: bool)
    ensures done + Tag(i, front + [e], ok) == (done + Tag(i, front, ok)) + [Entry(i, e, ok)]
  {
  }

  lemma {:induction false} AppliedTag(done: seq<Entry>, i: nat, events: seq<Event>, ok: bool)
    ensures Applied(done + Tag(i, events, ok)) == Applied(done) + if ok then events else []
  {
    hide Applied;
    if events == [] {
      assert done + Tag(i, events, ok) == done;
    } else {
      var front, e := events[..|events| - 1], events[|events| - 1];
      assert events == front + [e];
      AppliedTag(done, i, front, ok);
      TagSnoc(done, i, front, e, ok);
      DoneSnoc(done + Tag(i, front, ok), Entry(i, e, ok), i);
    }
  }

  lemma {:induction false} ByTag(done: seq<Entry>, i: nat, events: seq<Event>, ok: bool, j: nat)
    ensures By(done + Tag(i, events, ok), j) == By(done, j) + if i == j then events else []
  {
    hide By;
    if events == [] {
      assert done + Tag(i, events, ok) == done;
    } else {
      var front, e := events[..|events| - 1], events[|events| - 1];
      assert events == front + [e];
      ByTag(done, i, front, ok, j);
      TagSnoc(done, i, front, e, ok);
      DoneSnoc(done + Tag(i, front, ok), Entry(i, e, ok), j);
    }
  }

  /** A flush does to the table what its finished events say, and finishes exactly what was pending. */
  lemma FlushPlays(w: Writer, done: seq<Entry>, i: nat, insertOk: bool)
    requires |w.node.boards| == |w.node.ops| && w.rows == PlayAll([], Applied(done))
    ensures var f, after := Flushed(w, insertOk), done + Tag(i, Pending(w.node), insertOk);
            f.rows == PlayAll([], Applied(after)) && Pending(f.node) == [] && f.node.queue == w.node.queue
  {
    var pending := Pending(w.node);
    AppliedTag(done, i, pending, insertOk);
    if insertOk && w.node.ops != [] {
      PlayConcat([], Applied(done), pending);
      assert pending == Pending(Node([], w.node.boards, w.node.ops));
      BatchPlays(w.rows, w.node.boards, w.node.ops);
    } else {
      assert pending == [] || !insertOk;
      assert Applied(done) + [] == Applied(done);
    }
  }

  lemma FinishedWipe(done: seq<Entry>, i: nat, n: Node, insertOk: bool, deleteOk: bool)
    requires |n.boards| == |n.ops| && n.queue != [] && n.queue[0].Wipe?
    ensures done + Finished(i, n, Receive(insertOk, deleteOk))
         == (done + Tag(i, Pending(n), insertOk)) + [Entry(i, n.queue[0], deleteOk)]
  {
  }

  lemma WipePlays(w: Writer, done: seq<Entry>, i: nat, insertOk: bool, deleteOk: bool)
    requires NodeInv(w.node) && w.rows == PlayAll([], Applied(done))
    requires w.node.queue != [] && w.node.queue[0].Wipe?
    ensures Received(w, insertOk, deleteOk).rows
         == PlayAll([], Applied(done + Finished(i, w.node, Receive(insertOk, deleteOk))))
  {
    var e, n := w.node.queue[0], w.node;
    var taken := w.(node := n.(queue := n.queue[1..]));
    assert Pending(taken.node) == Pending(n);
    FlushPlays(taken, done, i, insertOk);
    EntryPlays(done + Tag(i, Pending(n), insertOk), Entry(i, e, deleteOk));
    FinishedWipe(done, i, n, insertOk, deleteOk);
    hide PlayAll, Applied, Pending, DeleteBoard, Tag, Finished, Flushed;
  }

  lemma EntryPlays(done: seq<Entry>, x: Entry)
    ensures PlayAll([], Applied(done + [x]))
         == if x.applied then Play(PlayAll([], Applied(done)), x.event) else PlayAll([], Applied(done))
  {
    DoneSnoc(done, x, x.node);
    assert (Applied(done) + [x.event])[..|Applied(done)|] == Applied(done);
  }

  lemma OpPlays(w: Writer, done: seq<Entry>, i: nat, insertOk: bool, deleteOk: bool)
    requires NodeInv(w.node) && w.rows == PlayAll([], Applied(done))
    requires w.node.queue != [] && w.node.queue[0].Op?
    ensures Received(w, insertOk, deleteOk).rows
         == PlayAll([], Applied(done + Finished(i, w.node, Receive(insertOk, deleteOk))))
  {
    var e, n := w.node.queue[0], w.node;
    var grown := w.(node := Node(n.queue[1..], n.boards + [e.board], n.ops + [e.op]));
    assert Pending(grown.node) == Pending(n) + [e];
    if |grown.node.ops| >= WRITER_BATCH {
      FlushPlays(grown, done, i, insertOk);
    } else {
      assert done + [] == done;
    }
  }

  /** The table after a step is the fold of the events applied so far. */
  lemma RowsPlayed(w: Writer, done: seq<Entry>, i: nat, a: Action)
    requires NodeInv(w.node) && w.rows == PlayAll([], Applied(done))
    ensures NodeStep(w, a).rows == PlayAll([], Applied(done + Finished(i, w.node, a)))
  {
    assert done + [] == done;
    match a {
      case Record(_, _) =>
      case Tick(insertOk) => FlushPlays(w, done, i, insertOk);
      case Receive(insertOk, deleteOk) =>
        if w.node.queue != [] {
          if w.node.queue[0].Wipe? {
            WipePlays(w, done, i, insertOk, deleteOk);
          } else {
            OpPlays(w, done, i, insertOk, deleteOk);
          }
        }
    }
  }

  /** What a node still holds: pending first, then queued. */
  function Held(n: Node): seq<Event>
    requires |n.boards| == |n.ops|
  {
    Pending(n) + n.queue
  }

  lemma RecordConserves(n: Node, board: string, payload: Msg)
    requires |n.boards| == |n.ops|
    ensures Held(Enqueue(n, board, payload)) == Held(n) + Entering(n, Record(board, payload))
  {
    assert Pending(Enqueue(n, board, payload)) == Pending(n);
    if Accepts(n, board, payload) {
      Regroup(Pending(n), n.queue, [Classify(board, payload).value]);
    }
  }

  lemma TickConserves(w: Writer, done: seq<Entry>, i: nat, insertOk: bool)
    requires |w.node.boards| == |w.node.ops|
    ensures By(done + Tag(i, Pending(w.node), insertOk), i) + Held(Flushed(w, insertOk).node)
         == By(done, i) + Held(w.node)
  {
    ByTag(done, i, Pending(w.node), insertOk, i);
    Regroup(By(done, i), Pending(w.node), w.node.queue);
    assert Held(Flushed(w, insertOk).node) == w.node.queue;
    hide By, Tag, Pending;
  }

  /** No event is lost, doubled or reordered inside a node. */
  lemma HeldConserved(w: Writer, done: seq<Entry>, i: nat, a: Action)
    requires NodeInv(w.node)
    ensures By(done + Finished(i, w.node, a), i) + Held(NodeStep(w, a).node)
         == By(done, i) + Held(w.node) + Entering(w.node, a)
  {
    var n := w.node;
    assert done + [] == done;
    match a {
      case Record(board, payload) =>
        RecordConserves(n, board, payload);
        hide By, Held, Enqueue, Accepts;
        Regroup(By(done, i), Held(n), Entering(n, a));
      case Tick(insertOk) =>
        TickConserves(w, done, i, insertOk);
        hide By, Held, Tag, Flushed;
      case Receive(insertOk, deleteOk) =>
        if n.queue != [] {
          ReceiveConserves(w, done, i, insertOk, deleteOk);
        }
        hide By, Held, Tag, Flushed;
    }
  }

  lemma HeldSplit(n: Node)
    requires |n.boards| == |n.ops| && n.queue != []
    ensures Held(n) == (Pending(n) + [n.queue[0]]) + n.queue[1..]
  {
    assert n.queue == [n.queue[0]] + n.queue[1..];
  }

  // Either the event is only taken over, or everything pending is finished together with it.
  predicate KeepsPending(n: Node)
    requires n.queue != []
  {
    n.queue[0].Op? && |n.ops| + 1 < WRITER_BATCH
  }

  lemma HeldAfterReceive(w: Writer, insertOk: bool, deleteOk: bool)
    requires NodeInv(w.node) && w.node.queue != []
    ensures Held(Received(w, insertOk, deleteOk).node)
         == (if KeepsPending(w.node) then Pending(w.node) + [w.node.queue[0]] else []) + w.node.queue[1..]
  {
    var n, after := w.node, Received(w, insertOk, deleteOk).node;
    if KeepsPending(n) {
      assert Pending(after) == Pending(n) + [n.queue[0]];
    } else {
      assert Pending(after) == [];
    }
  }

  lemma ByAfterReceive(done: seq<Entry>, i: nat, n: Node, insertOk: bool, deleteOk: bool)
    requires NodeInv(n) && n.queue != []
    ensures By(done + Finished(i, n, Receive(insertOk, deleteOk)), i)
         == By(done, i) + if KeepsPending(n) then [] else Pending(n) + [n.queue[0]]
  {
    hide By;
    var e := n.queue[0];
    if e.Wipe? {
      WipeFinishes(done, i, n, insertOk, deleteOk);
    } else if KeepsPending(n) {
      assert done + [] == done;
    } else {
      ByTag(done, i, Pending(n) + [e], insertOk, i);
    }
  }

  lemma ReceiveConserves(w: Writer, done: seq<Entry>, i: nat, insertOk: bool, deleteOk: bool)
    requires NodeInv(w.node) && w.node.queue != []
    ensures By(done + Finished(i, w.node, Receive(insertOk, deleteOk)), i)
            + Held(Received(w, insertOk, deleteOk).node)
         == By(done, i) + Held(w.node)
  {
    HeldAfterReceive(w, insertOk, deleteOk);
    ByAfterReceive(done, i, w.node, insertOk, deleteOk);
    HeldSplit(w.node);
    Reassemble(KeepsPending(w.node), By(done, i), Pending(w.node) + [w.node.queue[0]], w.node.queue[1..]);
    hide *;
  }

  lemma Reassemble<T>(kept: bool, a: seq<T>, taken: seq<T>, rest: seq<T>)
    ensures (a + if kept then [] else taken) + ((if kept then taken else []) + rest) == a + (taken + rest)
  {
    Regroup(a, taken, rest);
  }

  lemma WipeFinishes(done: seq<Entry>, i: nat, n: Node, insertOk: bool, deleteOk: bool)
    requires NodeInv(n) && n.queue != [] && n.queue[0].Wipe?
    ensures By(done + Finished(i, n, Receive(insertOk, deleteOk)), i) == By(done, i) + (Pending(n) + [n.queue[0]])
  {
    var mid, x := done + Tag(i, Pending(n), insertOk), Entry(i, n.queue[0], deleteOk);
    ByTag(done, i, Pending(n), insertOk, i);
    DoneSnoc(mid, x, i);
    FinishedWipe(done, i, n, insertOk, deleteOk);
    hide By;
  }

  lemma OthersUntouched(done: seq<Entry>, i: nat, n: Node, a: Action, j: nat)
    requires NodeInv(n) && i != j
    ensures By(done + Finished(i, n, a), j) == By(done, j)
  {
    assert done + [] == done;
    match a {
      case Record(_, _) =>
      case Tick(insertOk) => ByTag(done, i, Pending(n), insertOk, j);
      case Receive(insertOk, deleteOk) =>
        if n.queue != [] {
          var e := n.queue[0];
          if e.Wipe? {
            var mid := done + Tag(i, Pending(n), insertOk);
            ByTag(done, i, Pending(n), insertOk, j);
            DoneSnoc(mid, Entry(i, e, deleteOk), j);
            FinishedWipe(done, i, n, insertOk, deleteOk);
          } else {
            ByTag(done, i, Pending(n) + [e], insertOk, j);
          }
        }
    }
  }

  // ---------------------------------------------------------------- the invariant

  predicate DurableEvent(e: Event) {
    e.Op? ==> Scene.Durable(e.op)
  }

  predicate Accounted(s: Cluster, i: nat)
    requires Shaped(s) && i < |s.nodes|
  {
    && s.accepted[i] == By(s.done, i) + Held(s.nodes[i])
    && forall e :: e in s.accepted[i] ==> DurableEvent(e)
  }

  ghost predicate Inv(s: Cluster) {
    && Shaped(s)
    && s.rows == PlayAll([], Applied(s.done))
    && (forall x :: x in s.done ==> DurableEvent(x.event))
    && forall i :: 0 <= i < |s.nodes| ==> Accounted(s, i)
  }

  lemma StepAccounted(s: Cluster, i: nat, a: Action, j: nat)
    requires Inv(s) && i < |s.nodes| && j < |s.nodes|
    requires Shaped(Step(s, i, a))
    ensures Accounted(Step(s, i, a), j)
  {
    assert Accounted(s, j);
    if j == i {
      HeldConserved(Writer(s.rows, s.nodes[i]), s.done, i, a);
    } else {
      OthersUntouched(s.done, i, s.nodes[i], a, j);
    }
  }

  lemma FinishedDurable(i: nat, n: Node, a: Action)
    requires NodeInv(n)
    ensures forall x :: x in Finished(i, n, a) ==> DurableEvent(x.event)
  {
    forall x | x in Finished(i, n, a) ensures DurableEvent(x.event) {
      assert n.queue != [] ==> n.queue[0] in n.queue;
    }
  }

  lemma StepInv(s: Cluster, i: nat, a: Action)
    requires Inv(s) && i < |s.nodes|
    ensures Inv(Step(s, i, a))
  {
    var w, t := Writer(s.rows, s.nodes[i]), Step(s, i, a);
    NodeInvKept(w, a);
    RowsPlayed(w, s.done, i, a);
    FinishedDurable(i, s.nodes[i], a);
    hide NodeStep, Finished, PlayAll, Applied, By, Held, Entering, NodeInv, DurableEvent, Accounted;
    forall j | 0 <= j < |t.nodes| ensures Accounted(t, j) {
      StepAccounted(s, i, a, j);
    }
  }

  // ---------------------------------------------------------------- whole runs

  function Start(n: nat): Cluster {
    Cluster([], seq(n, i => IDLE), seq(n, i => []), [])
  }

  // One step: which node moves, and what it does.
  datatype Move = Move(node: nat, action: Action)

  predicate Within(n: nat, moves: seq<Move>) {
    forall m :: m in moves ==> m.node < n
  }

  /** The state n fresh nodes on an empty table reach. */
  ghost function Run(n: nat, moves: seq<Move>): (s: Cluster)
    requires Within(n, moves)
    ensures Inv(s) && |s.nodes| == n
  {
    if moves == [] then Start(n)
    else
      var last := moves[|moves| - 1];
      assert last in moves;
      var before := Run(n, moves[..|moves| - 1]);
      StepInv(before, last.node, last.action);
      Step(before, last.node, last.action)
  }

  /**
   * In every reachable state, however the statements fared: the table is the fold of the
   * successful statements of one merge, to which each node contributes, in its own order, all of
   * its accepted events except those it still holds, of which there are at most 4096 + 499.
   */
  lemma MergeTheorem(n: nat, moves: seq<Move>)
    requires Within(n, moves)
    ensures var s := Run(n, moves);
      && s.rows == PlayAll([], Applied(s.done))
      && forall i :: 0 <= i < n ==>
        && |s.nodes[i].boards| == |s.nodes[i].ops| < 500 && |s.nodes[i].queue| <= 4096
        && s.accepted[i] == By(s.done, i) + (Pending(s.nodes[i]) + s.nodes[i].queue)
        && |s.accepted[i]| <= |By(s.done, i)| + 4096 + 499
  {
    var s := Run(n, moves);
    forall i | 0 <= i < n ensures s.accepted[i] == By(s.done, i) + (Pending(s.nodes[i]) + s.nodes[i].queue) {
      assert Accounted(s, i);
    }
  }

  // ---------------------------------------------------------------- what a node accepts

  /** What a Record call puts into a queue that holds fewer than 4096 events. */
  function Admitted(queued: nat, a: Action): seq<Event> {
    if !a.Record? || queued >= 4096 then []
    else
      match a.payload
      case Clear => [Wipe(a.board)]
      case Transient(_) => []
      case _ => [Op(a.board, a.payload)]
  }

  /** The events of node i's Record calls that found room in its queue, in order. */
  ghost function Taken(n: nat, moves: seq<Move>, i: nat): seq<Event>
    requires Within(n, moves) && i < n
  {
    if moves == [] then []
    else
      var front, last := moves[..|moves| - 1], moves[|moves| - 1];
      Taken(n, front, i) + if last.node == i then Admitted(|Run(n, front).nodes[i].queue|, last.action) else []
  }

  lemma StepAccepts(s: Cluster, k: nat, a: Action, i: nat)
    requires Shaped(s) && k < |s.nodes| && i < |s.nodes|
    ensures Step(s, k, a).accepted[i] == s.accepted[i] + if k == i then Admitted(|s.nodes[i].queue|, a) else []
  {
    hide NodeStep, Finished, NodeInv;
    assert s.accepted[i] + [] == s.accepted[i];
  }

  lemma RunSnoc(n: nat, moves: seq<Move>)
    requires Within(n, moves) && moves != []
    ensures var last := moves[|moves| - 1];
      && last.node < n && Within(n, moves[..|moves| - 1])
      && Run(n, moves) == Step(Run(n, moves[..|moves| - 1]), last.node, last.action)
  {
    assert moves[|moves| - 1] in moves;
    hide Step, Inv;
  }

  /** In every run, a node accepts exactly the durable payloads and clears recorded while its queue has room. */
  lemma {:induction false} AcceptedExactly(n: nat, moves: seq<Move>, i: nat)
    requires Within(n, moves) && i < n
    ensures Run(n, moves).accepted[i] == Taken(n, moves, i)
  {
    if moves != [] {
      var front, last := moves[..|moves| - 1], moves[|moves| - 1];
      RunSnoc(n, moves);
      hide Run, Inv, Step, Admitted;
      AcceptedExactly(n, front, i);
      assert Inv(Run(n, front)) && Shaped(Run(n, front)) by { InvShaped(Run(n, front)); }
      StepAccepts(Run(n, front), last.node, last.action, i);
    }
  }

  lemma InvShaped(s: Cluster)
    requires Inv(s)
    ensures Shaped(s)
  {
  }

  /** The Record calls of one node, in order. */
  function CallsOf(moves: seq<Move>, i: nat): seq<Call> {
    if moves == [] then []
    else
      var before, last := CallsOf(moves[..|moves| - 1], i), moves[|moves| - 1];
      if last.node == i && last.action.Record? then before + [Call(last.action.board, last.action.payload)] else before
  }

  /** The node's queue has room at each of its Record calls. */
  ghost predicate NeverFull(n: nat, moves: seq<Move>, i: nat)
    requires Within(n, moves) && i < n
  {
    moves == [] ||
    var front, last := moves[..|moves| - 1], moves[|moves| - 1];
    NeverFull(n, front, i) && (last.node == i && last.action.Record? ==> |Run(n, front).nodes[i].queue| < 4096)
  }

  /** Nothing is shed as long as the queue has room: every call's event is accepted, in order. */
  lemma {:induction false} NothingShed(n: nat, moves: seq<Move>, i: nat)
    requires Within(n, moves) && i < n && NeverFull(n, moves, i)
    ensures Run(n, moves).accepted[i] == ClassifyAll(CallsOf(moves, i))
  {
    AcceptedExactly(n, moves, i);
    TakenIsAll(n, moves, i);
  }

  lemma ClassifySnoc(calls: seq<Call>, board: string, payload: Msg, queued: nat)
    requires queued < 4096
    ensures ClassifyAll(calls + [Call(board, payload)]) == ClassifyAll(calls) + Admitted(queued, Record(board, payload))
  {
    assert (calls + [Call(board, payload)])[..|calls|] == calls;
    assert ClassifyAll(calls) + [] == ClassifyAll(calls);
  }

  lemma {:induction false} TakenIsAll(n: nat, moves: seq<Move>, i: nat)
    requires Within(n, moves) && i < n && NeverFull(n, moves, i)
    ensures Taken(n, moves, i) == ClassifyAll(CallsOf(moves, i))
  {
    if moves != [] {
      var front, last := moves[..|moves| - 1], moves[|moves| - 1];
      hide Run, ClassifyAll;
      TakenIsAll(n, front, i);
      assert Taken(n, front, i) + [] == Taken(n, front, i);
      if last.node == i && last.action.Record? {
        ClassifySnoc(CallsOf(front, i), last.action.board, last.action.payload, |Run(n, front).nodes[i].queue|);
      }
    } else {
      assert CallsOf(moves, i) == [];
    }
  }

  // ---------------------------------------------------------------- runs whose statements all succeed

  predicate AllSucceed(moves: seq<Move>) {
    forall m :: m in moves ==> Succeeds(m.action)
  }

  /** The finished events, in order, without their tags. */
  function Events(done: seq<Entry>): seq<Event> {
    seq(|done|, k requires 0 <= k < |done| => done[k].event)
  }

  lemma FinishedApplied(i: nat, n: Node, a: Action)
    requires |n.boards| == |n.ops| && Succeeds(a)
    ensures forall x :: x in Finished(i, n, a) ==> x.applied
  {
    forall x | x in Finished(i, n, a) ensures x.applied {
    }
  }

  lemma {:induction false} AllDoneApplied(n: nat, moves: seq<Move>)
    requires Within(n, moves) && AllSucceed(moves)
    ensures forall x :: x in Run(n, moves).done ==> x.applied
  {
    if moves != [] {
      var front, last := moves[..|moves| - 1], moves[|moves| - 1];
      assert last in moves;
      AllDoneApplied(n, front);
      FinishedApplied(last.node, Run(n, front).nodes[last.node], last.action);
    }
  }

  lemma {:induction false} AppliedIsAll(done: seq<Entry>)
    requires forall x :: x in done ==> x.applied
    ensures Applied(done) == Events(done)
  {
    if done != [] {
      assert done[|done| - 1] in done;
      AppliedIsAll(done[..|done| - 1]);
    }
  }

  /**
   * With successful statements the table's log for each board is the append/clear log of a merge
   * of the nodes' accepted events, each node contributing a prefix in its own order.
   */
  lemma TableIsMergedLog(n: nat, moves: seq<Move>)
    requires Within(n, moves) && AllSucceed(moves)
    ensures var s := Run(n, moves);
      && (forall board :: LogOf(s.rows, board) == Scene.Retained(EventsOn(Events(s.done), board)))
      && forall i :: 0 <= i < n ==> By(s.done, i) <= s.accepted[i]
  {
    var s := Run(n, moves);
    AllDoneApplied(n, moves);
    AppliedIsAll(s.done);
    forall board ensures LogOf(s.rows, board) == Scene.Retained(EventsOn(Events(s.done), board)) {
      TableAgreesWithLog(Events(s.done), board);
    }
    forall i | 0 <= i < n ensures By(s.done, i) <= s.accepted[i] {
      assert Accounted(s, i);
    }
  }

  /** A client joining anywhere folds the table's answer into the scene of the merged history. */
  lemma CatchupDrawsMerge(n: nat, moves: seq<Move>, board: string)
    requires Within(n, moves) && AllSucceed(moves)
    ensures var s := Run(n, moves);
      Scene.Fold([], LogOf(s.rows, board)) == Scene.Fold([], EventsOn(Events(s.done), board))
  {
    TableIsMergedLog(n, moves);
    Scene.TruncationPreservesScene(EventsOn(Events(Run(n, moves).done), board));
  }

  // ---------------------------------------------------------------- one node refines the simple log

  lemma {:induction false} ByOnly(done: seq<Entry>)
    requires forall x :: x in done ==> x.node == 0
    ensures By(done, 0) == Events(done)
  {
    if done != [] {
      assert done[|done| - 1] in done;
      ByOnly(done[..|done| - 1]);
    }
  }

  lemma FinishedBy(i: nat, n: Node, a: Action)
    requires |n.boards| == |n.ops|
    ensures forall x :: x in Finished(i, n, a) ==> x.node == i
  {
    forall x | x in Finished(i, n, a) ensures x.node == i {
    }
  }

  lemma {:induction false} OnlyNodeZero(moves: seq<Move>)
    requires Within(1, moves)
    ensures forall x :: x in Run(1, moves).done ==> x.node == 0
  {
    if moves != [] {
      var front, last := moves[..|moves| - 1], moves[|moves| - 1];
      assert last in moves;
      OnlyNodeZero(front);
      FinishedBy(0, Run(1, front).nodes[0], last.action);
      hide Inv, Finished, NodeStep;
    }
  }

  /**
   * With one node, playing its pending and then its queued events on the table gives the log of
   * all accepted events; so once nothing is held, the table answers like the simple log.
   */
  lemma WriterRefinesLog(moves: seq<Move>, board: string)
    requires Within(1, moves) && AllSucceed(moves)
    ensures var s := Run(1, moves);
      var n, log := s.nodes[0], Scene.Retained(EventsOn(s.accepted[0], board));
      && LogOf(PlayAll(PlayAll(s.rows, Pending(n)), n.queue), board) == log
      && (n.ops == [] && n.queue == [] ==> LogOf(s.rows, board) == log)
  {
    var s := Run(1, moves);
    var n := s.nodes[0];
    AllDoneApplied(1, moves);
    AppliedIsAll(s.done);
    OnlyNodeZero(moves);
    ByOnly(s.done);
    assert Accounted(s, 0);
    hide Run, NodeInv, By, Applied, EventsOn, LogOf, Scene.Retained;
    HeldPlays(Events(s.done), Pending(n), n.queue, s.accepted[0]);
    TableAgreesWithLog(s.accepted[0], board);
    if n.ops == [] && n.queue == [] {
      assert Pending(n) == [];
    }
  }

  lemma HeldPlays(written: seq<Event>, pending: seq<Event>, queue: seq<Event>, all: seq<Event>)
    requires all == written + (pending + queue)
    ensures PlayAll(PlayAll(PlayAll([], written), pending), queue) == PlayAll([], all)
  {
    hide *;
    PlayConcat([], written, pending);
    PlayConcat([], written + pending, queue);
    assert written + pending + queue == all;
  }

  function ClassifyAll(calls: seq<Call>): seq<Event> {
    if calls == [] then []
    else
      var before, last := ClassifyAll(calls[..|calls| - 1]), calls[|calls| - 1];
      match Classify(last.board, last.payload)
      case Some(e) => before + [e]
      case None => before
  }

  /** The two recorders classify alike: on the same calls they stand for the same log. */
  lemma {:induction false} RecordersAgree(calls: seq<Call>, board: string)
    ensures Scene.Retained(EventsOn(ClassifyAll(calls), board)) == Scene.Retained(PayloadsOn(calls, board))
  {
    if calls != [] {
      var front, last := calls[..|calls| - 1], calls[|calls| - 1];
      RecordersAgree(front, board);
      assert calls == front + [last];
      RetainedAfterCall(front, last, board);
      RetainedAfterClassify(ClassifyAll(front), last, board);
    }
  }

  lemma RetainedAfterClassify(events: seq<Event>, call: Call, board: string)
    ensures var c, log := Classify(call.board, call.payload), Scene.Retained(EventsOn(events, board));
      Scene.Retained(EventsOn(if c.Some? then events + [c.value] else events, board))
      == if call.board == board then Scene.Retain(log, call.payload) else log
  {
    hide EventsOn, Scene.Retained;
    var c := Classify(call.board, call.payload);
    if c.Some? {
      RetainedAfterEvent(events, c.value, board);
    }
  }

  lemma RetainedAfterEvent(events: seq<Event>, e: Event, board: string)
    ensures Scene.Retained(EventsOn(events + [e], board))
         == if e.board == board then Scene.Retain(Scene.Retained(EventsOn(events, board)), Payload(e))
            else Scene.Retained(EventsOn(events, board))
  {
    var on := EventsOn(events, board);
    assert (events + [e])[..|events|] == events;
    assert (on + [Payload(e)])[..|on|] == on;
  }
}
