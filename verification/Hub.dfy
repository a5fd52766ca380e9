/** One node's hub and broadcaster as objects, each call taken as one step. */
module Hub {
  import opened Protocol
  import opened Framing
  import Store

  class Client {
    const id: string
    const boardID: string
    var send: seq<string>

    constructor (id: string, boardID: string)
      ensures this.id == id && this.boardID == boardID && send == []
    {
      this.id, this.boardID, send := id, boardID, [];
    }
  }

  datatype Message = Message(channel: string, data: string)

  /** What has been published on the pub/sub channels, in order. */
  class Redis {
    var published: seq<Message>

    constructor ()
      ensures published == []
    {
      published := [];
    }
  }

  class RedisBroadcaster {
    const nodeID: string
    const rdb: Redis
    var refs: map<string, int>
    var subscribed: set<string>

    constructor (nodeID: string, rdb: Redis)
      ensures this.nodeID == nodeID && this.rdb == rdb && refs == map[] && subscribed == {}
    {
      this.nodeID, this.rdb, refs, subscribed := nodeID, rdb, map[], {};
    }

    function Count(boardID: string): int
      reads this
    {
      if boardID in refs then refs[boardID] else 0
    }

    // The node is subscribed to a board's channel exactly while the board is counted.
    ghost predicate Valid()
      reads this
    {
      && (forall b :: b in refs ==> refs[b] >= 1)
      && (forall b :: b in refs <==> ChannelFor(b) in subscribed)
    }

    method BindBoard(boardID: string)
      requires Valid()
      modifies this
      ensures Valid() && Count(boardID) == old(Count(boardID)) + 1
      ensures forall b :: b != boardID ==> Count(b) == old(Count(b))
      ensures subscribed == old(subscribed) + {ChannelFor(boardID)}
    {
      var n := Count(boardID);
      refs := refs[boardID := n + 1];
      if n == 0 {
        subscribed := subscribed + {ChannelFor(boardID)};
      }
      ChannelsDiffer();
    }

    method UnbindBoard(boardID: string)
      requires Valid()
      modifies this
      ensures Valid() && Count(boardID) == if old(boardID in refs) then old(Count(boardID)) - 1 else 0
      ensures forall b :: b != boardID ==> Count(b) == old(Count(b))
      ensures subscribed == if old(Count(boardID)) <= 1 then old(subscribed) - {ChannelFor(boardID)} else old(subscribed)
    {
      var n := Count(boardID) - 1;
      if n <= 0 {
        refs := refs - {boardID};
      } else {
        refs := refs[boardID := n];
      }
      if n <= 0 {
        subscribed := subscribed - {ChannelFor(boardID)};
      }
      ChannelsDiffer();
    }
  }

  lemma ChannelsDiffer()
    ensures forall a, b :: ChannelFor(a) == ChannelFor(b) ==> a == b
  {
    forall a, b | ChannelFor(a) == ChannelFor(b) ensures a == b {
      assert ChannelFor(a)[|CHANNEL_PREFIX|..] == a && ChannelFor(b)[|CHANNEL_PREFIX|..] == b;
    }
  }

  class Hub {
    const b: RedisBroadcaster
    const rec: Store.MemoryRecorder
    const parse: string -> Msg       // what the recorder reads in a payload
    var boards: map<string, set<Client>>

    constructor (b: RedisBroadcaster, rec: Store.MemoryRecorder, parse: string -> Msg)
      requires b.refs == map[] && b.subscribed == {}
      ensures Valid() && boards == map[] && this.b == b && this.rec == rec && this.parse == parse
    {
      this.b, this.rec, this.parse, boards := b, rec, parse, map[];
    }

    function Members(boardID: string): set<Client>
      reads this
    {
      if boardID in boards then boards[boardID] else {}
    }

    // No board without clients is listed, and every listed board is counted once.
    ghost predicate Valid()
      reads this, b
    {
      && b.Valid()
      && (forall x :: x in boards ==> boards[x] != {})
      && (forall x, c :: x in boards && c in boards[x] ==> c.boardID == x)
      && (forall x :: b.Count(x) == if x in boards then 1 else 0)
    }

    /** The node now hosts the client, and is subscribed to its board. */
    method Add(c: Client)
      requires Valid()
      modifies this, b
      ensures Valid()
      ensures Members(c.boardID) == old(Members(c.boardID)) + {c}
      ensures forall x :: x != c.boardID ==> Members(x) == old(Members(x))
      ensures ChannelFor(c.boardID) in b.subscribed
    {
      var first := c.boardID !in boards;
      boards := boards[c.boardID := Members(c.boardID) + {c}];
      if first {
        b.BindBoard(c.boardID);
      }
    }

    /** Forgetting the last client of a board also gives up its subscription. */
    method Remove(c: Client)
      requires Valid()
      modifies this, b
      ensures Valid()
      ensures Members(c.boardID) == old(Members(c.boardID)) - {c}
      ensures forall x :: x != c.boardID ==> Members(x) == old(Members(x))
      ensures ChannelFor(c.boardID) in b.subscribed <==> Members(c.boardID) != {}
    {
      if c.boardID in boards {
        var m := boards[c.boardID] - {c};
        if m == {} {
          boards := boards - {c.boardID};
          b.UnbindBoard(c.boardID);
        } else {
          boards := boards[c.boardID := m];
        }
      }
    }

    /** Every client of the board but the sender is offered the payload once. */
    method DeliverLocal(boardID: string, senderID: string, payload: string)
      modifies set c | c in Members(boardID) :: c`send
      ensures forall c :: c in Members(boardID) ==>
        c.send == if c.id == senderID || |old(c.send)| >= 256 then old(c.send) else old(c.send) + [payload]
    {
      var rest := Members(boardID);
      while rest != {}
        invariant rest <= Members(boardID)
        invariant forall c :: c in rest ==> c.send == old(c.send)
        invariant forall c :: c in Members(boardID) - rest ==>
          c.send == if c.id == senderID || |old(c.send)| >= 256 then old(c.send) else old(c.send) + [payload]
        decreases |rest|
      {
        var c :| c in rest;
        rest := rest - {c};
        if c.id == senderID {
          continue;
        }
        if |c.send| < SEND_BUFFER {
          c.send := c.send + [payload];
        }
      }
    }

    /** Delivers here, publishes under this node's id, and records, once. */
    method Publish(boardID: string, senderID: string, payload: string, publishOk: bool)
      requires rec.Valid()
      modifies set c | c in Members(boardID) :: c`send
      modifies b.rdb, rec
      ensures forall c :: c in Members(boardID) ==>
        c.send == if c.id == senderID || |old(c.send)| >= 256 then old(c.send) else old(c.send) + [payload]
      ensures b.rdb.published == old(b.rdb.published) +
        if publishOk then [Message(ChannelFor(boardID), Encode(b.nodeID, payload))] else []
      ensures rec.Valid() && rec.history == old(rec.history) + [Store.Call(boardID, parse(payload))]
    {
      DeliverLocal(boardID, senderID, payload);
      if publishOk {
        b.rdb.published := b.rdb.published + [Message(ChannelFor(boardID), Encode(b.nodeID, payload))];
      }
      rec.Record(boardID, parse(payload));
    }

    /** One turn of the receive loop: other nodes' frames reach the board's clients, own frames nobody. */
    method OnMessage(msg: Message)
      modifies set c | c in Members(BoardFrom(msg.channel)) :: c`send
      ensures forall c :: c in Members(BoardFrom(msg.channel)) ==>
        c.send == if |msg.data| < |b.nodeID| || b.nodeID <= msg.data || c.id == "" || |old(c.send)| >= 256 then old(c.send)
                  else old(c.send) + [msg.data[|b.nodeID|..]]
    {
      var idLen := |b.nodeID|;
      if |msg.data| < idLen {
        return;
      }
      if msg.data[..idLen] == b.nodeID {
        return;
      }
      DeliverLocal(BoardFrom(msg.channel), "", msg.data[idLen..]);
    }
  }
}
