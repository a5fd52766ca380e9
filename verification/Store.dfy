/** The board log: the in-memory recorder, and the SQL recorder with its queue and batching writer. */
module Store {
  import opened Wrappers
  import opened Protocol
  import Scene

  const WRITER_BATCH := 500
  const WRITER_QUEUE := 4096

  // ---------------------------------------------------------------- the simple log

  // One call of Record: a board and the payload handed over for it.
  datatype Call = Call(board: string, payload: Msg)

  /** The payloads recorded for one board, in order. */
  function PayloadsOn(calls: seq<Call>, board: string): seq<Msg> {
    if calls == [] then []
    else
      var before, last := PayloadsOn(calls[..|calls| - 1], board), calls[|calls| - 1];
      if last.board == board then before + [last.payload] else before
  }

  lemma RetainedAfterCall(calls: seq<Call>, call: Call, board: string)
    ensures Scene.Retained(PayloadsOn(calls + [call], board))
         == if call.board == board then Scene.Retain(Scene.Retained(PayloadsOn(calls, board)), call.payload)
            else Scene.Retained(PayloadsOn(calls, board))
  {
    var before := PayloadsOn(calls, board);
    assert (calls + [call])[..|calls|] == calls;
    assert (before + [call.payload])[..|before|] == before;
  }

  /** Keeps every board's durable ops in memory; `history` remembers every call ever made. */
  class MemoryRecorder {
    var ops: map<string, seq<Msg>>
    ghost var history: seq<Call>

    function Log(board: string): seq<Msg>
      reads this
    {
      if board in ops then ops[board] else []
    }

    // The map holds, for every board, what its own payloads leave behind.
    ghost predicate Valid()
      reads this
    {
      forall board :: Log(board) == Scene.Retained(PayloadsOn(history, board))
    }

    constructor ()
      ensures Valid() && history == [] && ops == map[]
    {
      ops, history := map[], [];
    }

    method Write(board: string, payload: Msg)
      modifies this`ops
      ensures Log(board) == Scene.Retain(old(Log(board)), payload)
      ensures forall b :: b != board ==> Log(b) == old(Log(b))
      ensures payload.Clear? ==> board !in ops
    {
      match payload {
        case Add(_) | Erase(_) | Draw => ops := ops[board := Log(board) + [payload]];
        case Clear => ops := ops - {board};
        case Transient(_) =>
      }
    }

    method Record(board: string, payload: Msg)
      requires Valid()
      modifies this
      ensures Valid() && history == old(history) + [Call(board, payload)]
      ensures Log(board) == Scene.Retain(old(Log(board)), payload)
      ensures forall b :: b != board ==> Log(b) == old(Log(b))
      ensures payload.Clear? ==> board !in ops
    {
      hide Scene.Retained, Scene.Retain, PayloadsOn;
      Write(board, payload);
      history := history + [Call(board, payload)];
      forall b ensures Log(b) == Scene.Retained(PayloadsOn(history, b)) {
        RetainedAfterCall(old(history), Call(board, payload), b);
      }
    }

    /** A copy of the log, which a new client folds into exactly what the whole history draws. */
    method Catchup(board: string) returns (out: array<Msg>)
      requires Valid()
      ensures fresh(out) && out[..] == Log(board)
      ensures Scene.Fold([], out[..]) == Scene.Fold([], PayloadsOn(history, board))
    {
      var src := Log(board);
      out := new Msg[|src|];
      var i := 0;
      while i < |src|
        invariant 0 <= i <= |src| && out[..i] == src[..i]
      {
        out[i] := src[i];
        i := i + 1;
      }
      assert out[..] == out[..i] == src;
      Scene.TruncationPreservesScene(PayloadsOn(history, board));
    }
  }

  // ---------------------------------------------------------------- events and the table

  // What a node's queue holds: an op to insert, or a board to wipe.
  datatype Event =
    | Op(board: string, op: Msg)
    | Wipe(board: string)

  datatype Row = Row(board: string, op: Msg)

  /** The event a payload causes; transient payloads cause none. */
  function Classify(board: string, payload: Msg): Option<Event> {
    match payload
    case Add(_) | Erase(_) | Draw => Some(Op(board, payload))
    case Clear => Some(Wipe(board))
    case Transient(_) => None
  }

  function Payload(e: Event): Msg {
    match e
    case Op(_, op) => op
    case Wipe(_) => Clear
  }

  function DeleteBoard(rows: seq<Row>, board: string): seq<Row> {
    if rows == [] then []
    else
      var kept, last := DeleteBoard(rows[..|rows| - 1], board), rows[|rows| - 1];
      if last.board == board then kept else kept + [last]
  }

  /** What the table returns for one board, in insertion order. */
  function LogOf(rows: seq<Row>, board: string): seq<Msg> {
    if rows == [] then []
    else
      var before, last := LogOf(rows[..|rows| - 1], board), rows[|rows| - 1];
      if last.board == board then before + [last.op] else before
  }

  /** The reference meaning of an event: applied to the table at once, on its own. */
  function Play(rows: seq<Row>, e: Event): seq<Row> {
    match e
    case Op(board, op) => rows + [Row(board, op)]
    case Wipe(board) => DeleteBoard(rows, board)
  }

  function PlayAll(rows: seq<Row>, events: seq<Event>): seq<Row> {
    if events == [] then rows
    else Play(PlayAll(rows, events[..|events| - 1]), events[|events| - 1])
  }

  /** The payloads of the events on one board, in order. */
  function EventsOn(events: seq<Event>, board: string): seq<Msg> {
    if events == [] then []
    else
      var before, last := EventsOn(events[..|events| - 1], board), events[|events| - 1];
      if last.board == board then before + [Payload(last)] else before
  }

  /** A board's part of a log, a table or a history is made of the parts of its pieces, down to single entries. */
  lemma {:induction false} RowsInParts(a: seq<Row>, b: seq<Row>, board: string)
    ensures LogOf(a + b, board) == LogOf(a, board) + LogOf(b, board)
    ensures |b| == 1 ==> LogOf(b, board) == if b[0].board == board then [b[0].op] else []
  {
    if b == [] {
      assert a + b == a;
    } else {
      var front := b[..|b| - 1];
      RowsInParts(a, front, board);
      assert (a + b)[..|a + b| - 1] == a + front;
    }
  }

  lemma {:induction false} EventsInParts(a: seq<Event>, b: seq<Event>, board: string)
    ensures EventsOn(a + b, board) == EventsOn(a, board) + EventsOn(b, board)
    ensures |b| == 1 ==> EventsOn(b, board) == if b[0].board != board then [] else if b[0].Op? then [b[0].op] else [Clear]
  {
    if b == [] {
      assert a + b == a;
    } else {
      var front := b[..|b| - 1];
      EventsInParts(a, front, board);
      assert (a + b)[..|a + b| - 1] == a + front;
    }
  }

  lemma {:induction false} PayloadsInParts(a: seq<Call>, b: seq<Call>, board: string)
    ensures PayloadsOn(a + b, board) == PayloadsOn(a, board) + PayloadsOn(b, board)
    ensures |b| == 1 ==> PayloadsOn(b, board) == if b[0].board == board then [b[0].payload] else []
  {
    if b == [] {
      assert a + b == a;
    } else {
      var front := b[..|b| - 1];
      PayloadsInParts(a, front, board);
      assert (a + b)[..|a + b| - 1] == a + front;
    }
  }

  lemma {:induction false} PlayConcat(rows: seq<Row>, a: seq<Event>, b: seq<Event>)
    ensures PlayAll(rows, a + b) == PlayAll(PlayAll(rows, a), b)
  {
    if b == [] {
      assert a + b == a;
    } else {
      var front := b[..|b| - 1];
      PlayConcat(rows, a, front);
      assert (a + b)[..|a + b| - 1] == a + front;
    }
  }

  lemma {:induction false} LogAfterDelete(rows: seq<Row>, wiped: string, board: string)
    ensures LogOf(DeleteBoard(rows, wiped), board) == if wiped == board then [] else LogOf(rows, board)
  {
    if rows != [] {
      var front, last := rows[..|rows| - 1], rows[|rows| - 1];
      LogAfterDelete(front, wiped, board);
      var kept := DeleteBoard(front, wiped);
      assert (kept + [last])[..|kept|] == kept;
    }
  }

  /** Board by board, the table agrees with the simple log over the same events. */
  lemma {:induction false} TableAgreesWithLog(events: seq<Event>, board: string)
    requires forall e :: e in events && e.Op? ==> Scene.Durable(e.op)
    ensures LogOf(PlayAll([], events), board) == Scene.Retained(EventsOn(events, board))
  {
    if events != [] {
      var front, last := events[..|events| - 1], events[|events| - 1];
      assert last in events && forall e :: e in front ==> e in events;
      TableAgreesWithLog(front, board);
      var before, on := PlayAll([], front), EventsOn(front, board);
      match last {
        case Op(b, op) => assert (before + [Row(b, op)])[..|before|] == before;
        case Wipe(b) => LogAfterDelete(before, b, board);
      }
      assert (on + [Payload(last)])[..|on|] == on;
    }
  }

  // ---------------------------------------------------------------- one node's writer, as values

  // The channel and the writer's two parallel slices.
  datatype Node = Node(queue: seq<Event>, boards: seq<string>, ops: seq<Msg>)

  const IDLE := Node([], [], [])

  predicate NodeInv(n: Node) {
    && |n.boards| == |n.ops| < WRITER_BATCH
    && |n.queue| <= WRITER_QUEUE
    && (forall op :: op in n.ops ==> Scene.Durable(op))
    && (forall e :: e in n.queue && e.Op? ==> Scene.Durable(e.op))
  }

  /** The events the writer has taken from the channel and not yet written. */
  function Pending(n: Node): (r: seq<Event>)
    requires |n.boards| == |n.ops|
    ensures |r| == |n.ops|
  {
    seq(|n.ops|, k requires 0 <= k < |n.ops| => Op(n.boards[k], n.ops[k]))
  }

  /** The rows of one INSERT: the two parameter arrays unnested side by side. */
  function Unnest(boards: seq<string>, ops: seq<Msg>): (r: seq<Row>)
    requires |boards| == |ops|
    ensures |r| == |ops|
  {
    seq(|ops|, k requires 0 <= k < |ops| => Row(boards[k], ops[k]))
  }

  predicate Accepts(n: Node, board: string, payload: Msg) {
    Classify(board, payload).Some? && |n.queue| < WRITER_QUEUE
  }

  function Enqueue(n: Node, board: string, payload: Msg): Node {
    if Accepts(n, board, payload) then n.(queue := n.queue + [Classify(board, payload).value]) else n
  }

  datatype Writer = Writer(rows: seq<Row>, node: Node)

  function Flushed(w: Writer, insertOk: bool): Writer
    requires |w.node.boards| == |w.node.ops|
  {
    if w.node.ops == [] then w
    else Writer(if insertOk then w.rows + Unnest(w.node.boards, w.node.ops) else w.rows,
                w.node.(boards := [], ops := []))
  }

  function Received(w: Writer, insertOk: bool, deleteOk: bool): Writer
    requires |w.node.boards| == |w.node.ops|
  {
    if w.node.queue == [] then w
    else
      var e, taken := w.node.queue[0], w.(node := w.node.(queue := w.node.queue[1..]));
      match e
      case Wipe(board) =>
        var f := Flushed(taken, insertOk);
        f.(rows := if deleteOk then DeleteBoard(f.rows, board) else f.rows)
      case Op(board, op) =>
        var grown := taken.(node := taken.node.(boards := taken.node.boards + [board], ops := taken.node.ops + [op]));
        if |grown.node.ops| >= WRITER_BATCH then Flushed(grown, insertOk) else grown
  }

  // ---------------------------------------------------------------- one node's writer, as objects

  /** After the rows stand, in order, one row for each board and op side by side. */
  ghost predicate Inserted(rows: seq<Row>, boards: seq<string>, ops: seq<Msg>, after: seq<Row>) {
    && |boards| == |ops| && |after| == |rows| + |ops| && rows <= after
    && forall k :: 0 <= k < |ops| ==> after[|rows| + k].board == boards[k] && after[|rows| + k].op == ops[k]
  }

  /** The shared table; rows stand in the order of their serial number. */
  class OpsTable {
    var rows: seq<Row>

    constructor ()
      ensures rows == []
    {
      rows := [];
    }
  }

  class PostgresRecorder {
    const table: OpsTable
    var ch: seq<Event>
    var boards: seq<string>
    var ops: seq<Msg>

    function State(): Writer
      reads this, table
    {
      Writer(table.rows, Node(ch, boards, ops))
    }

    ghost predicate Valid()
      reads this, table
    {
      NodeInv(State().node)
    }

    constructor (table: OpsTable)
      ensures Valid() && this.table == table && State() == Writer(table.rows, IDLE)
    {
      this.table := table;
      ch, boards, ops := [], [], [];
    }

    method Record(board: string, payload: Msg)
      requires Valid()
      modifies this
      ensures Valid() && State() == Writer(old(table.rows), Enqueue(old(State().node), board, payload))
      ensures boards == old(boards) && ops == old(ops)
      ensures ch == old(ch) +
        if payload.Transient? || |old(ch)| >= 4096 then []
        else if payload.Clear? then [Wipe(board)]
        else [Op(board, payload)]
    {
      var ev;
      match payload {
        case Add(_) | Erase(_) | Draw => ev := Op(board, payload);
        case Clear => ev := Wipe(board);
        case Transient(_) => return;
      }
      if |ch| < WRITER_QUEUE {
        ch := ch + [ev];
      }
    }

    /** Writes the pending ops as one batch; whether or not that works, they are gone afterwards. */
    method Flush(insertOk: bool)
      requires |boards| == |ops|
      modifies this, table
      ensures State() == Flushed(old(State()), insertOk)
      ensures boards == [] && ops == [] && ch == old(ch)
      ensures Inserted(old(table.rows), if insertOk then old(boards) else [], if insertOk then old(ops) else [], table.rows)
    {
      if |ops| == 0 {
        return;
      }
      if insertOk {
        table.rows := table.rows + Unnest(boards, ops);
      }
      boards, ops := [], [];
    }

    /** One turn of the writer loop that takes an event from the channel. */
    method Receive(insertOk: bool, deleteOk: bool)
      requires Valid() && ch != []
      modifies this, table
      ensures Valid() && State() == Received(old(State()), insertOk, deleteOk)
      ensures ch == old(ch)[1..]
      ensures old(ch)[0].Op? && |old(ops)| < 499 ==>
        && boards == old(boards) + [old(ch)[0].board] && ops == old(ops) + [old(ch)[0].op] && table.rows == old(table.rows)
      ensures old(ch)[0].Op? && |old(ops)| == 499 ==>
        && boards == [] && ops == []
        && (if insertOk then Inserted(old(table.rows), old(boards) + [old(ch)[0].board], old(ops) + [old(ch)[0].op], table.rows)
            else table.rows == old(table.rows))
      ensures old(ch)[0].Wipe? ==> boards == [] && ops == []
    {
      var ev := ch[0];
      assert ev in ch;
      ch := ch[1..];
      match ev {
        case Wipe(board) =>
          Flush(insertOk);
          if deleteOk {
            table.rows := DeleteBoard(table.rows, board);
          }
        case Op(board, op) =>
          boards := boards + [board];
          ops := ops + [op];
          if |ops| >= WRITER_BATCH {
            Flush(insertOk);
          }
      }
    }

    /** One turn of the writer loop that takes a tick. */
    method Tick(insertOk: bool)
      requires Valid()
      modifies this, table
      ensures Valid() && State() == Flushed(old(State()), insertOk)
      ensures boards == [] && ops == [] && ch == old(ch)
      ensures Inserted(old(table.rows), if insertOk then old(boards) else [], if insertOk then old(ops) else [], table.rows)
    {
      Flush(insertOk);
    }

    method Catchup(board: string, queryOk: bool) returns (out: seq<Msg>)
      ensures out == if queryOk then LogOf(table.rows, board) else []
    {
      out := [];
      if !queryOk {
        return;
      }
      var i := 0;
      while i < |table.rows|
        invariant 0 <= i <= |table.rows| && out == LogOf(table.rows[..i], board)
      {
        assert table.rows[..i + 1][..i] == table.rows[..i];
        if table.rows[i].board == board {
          out := out + [table.rows[i].op];
        }
        i := i + 1;
      }
      assert table.rows[..i] == table.rows;
    }
  }
}
