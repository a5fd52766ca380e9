/** Framing of payloads on the pub/sub channels. */
module Framing {
  import opened Wrappers

  const ID_LENGTH := 16
  const CHANNEL_PREFIX := "board:"
  const SEND_BUFFER := 256

  function ChannelFor(board: string): string {
    CHANNEL_PREFIX + board
  }

  function BoardFrom(channel: string): string {
    if |channel| >= |CHANNEL_PREFIX| && channel[..|CHANNEL_PREFIX|] == CHANNEL_PREFIX
    then channel[|CHANNEL_PREFIX|..] else channel
  }

  function Encode(nodeId: string, payload: string): string {
    nodeId + payload
  }

  /** What a node passes on of a frame: nothing if it is too short or carries the node's own id. */
  function Incoming(nodeId: string, data: string): Option<string> {
    if |data| < |nodeId| then None
    else if data[..|nodeId|] == nodeId then None
    else Some(data[|nodeId|..])
  }

  /** A frame crosses the channel unchanged, and only its own publisher ignores it. */
  lemma FrameCrosses(publisher: string, receiver: string, board: string, payload: string)
    requires |publisher| == |receiver|
    ensures BoardFrom(ChannelFor(board)) == board
    ensures Incoming(receiver, Encode(publisher, payload)) == if publisher == receiver then None else Some(payload)
  {
    assert ChannelFor(board)[..|CHANNEL_PREFIX|] == CHANNEL_PREFIX;
    assert Encode(publisher, payload)[..|receiver|] == publisher;
    assert Encode(publisher, payload)[|receiver|..] == payload;
  }
}

/**
 * Fan-out over any number of nodes and clients. Deliveries run under a read lock only, so each
 * offer to a client's queue is a step of its own; pub/sub is first-in first-out per node.
 */
module Fanout {
  import opened Wrappers
  import opened Framing

  // Who is where: client c is connected to node home[c], on board at[c], under the id ids[c].
  datatype Net = Net(nodeIds: seq<string>, home: seq<nat>, at: seq<string>, ids: seq<string>)

  predicate Wf(net: Net) {
    && |net.home| == |net.at| == |net.ids|
    && (forall c :: 0 <= c < |net.home| ==> net.home[c] < |net.nodeIds|)
    && (forall k :: 0 <= k < |net.nodeIds| ==> |net.nodeIds[k]| == ID_LENGTH)
    && (forall j, k :: 0 <= j < k < |net.nodeIds| ==> net.nodeIds[j] != net.nodeIds[k])
  }

  // Names the n-th frame a client sent. Tags are history: no step reads them.
  datatype Tag = Tag(sender: nat, n: nat)

  datatype Packet = Packet(channel: string, data: string, tag: Tag)

  datatype Entry = Entry(payload: string, tag: Tag)

  // A client's read pump: between frames, offering its frame to the local clients still in
  // `todo`, or about to publish it.
  datatype Pump = Idle | Delivering(todo: set<nat>) | Publishing

  // A node's receive loop: between packets, or offering one to the local clients in `todo`.
  datatype Loop = Waiting | Relaying(payload: string, tag: Tag, todo: set<nat>)

  // A frame that a delivery loop set out to offer to client d.
  datatype Aim = Aim(tag: Tag, d: nat)

  // `got` is everything that ever entered a client's queue, the last backlog[c] entries of which
  // are still in it; `sent` is everything read from its socket. `aimed` and `dropped` are history.
  datatype State = State(joined: set<nat>, left: set<nat>, sent: seq<seq<string>>, pump: seq<Pump>,
                         inbox: seq<seq<Packet>>, loop: seq<Loop>, subs: seq<set<string>>,
                         got: seq<seq<Entry>>, backlog: seq<nat>, aimed: set<Aim>, dropped: set<Aim>)

  datatype Step =
    | Join(c: nat)
    | Leave(c: nat)
    | Read(c: nat, payload: string)
    | Offer(c: nat, d: nat)
    | Delivered(c: nat)
    | Publish(c: nat, ok: bool)
    | Take(k: nat)
    | Relay(k: nat, d: nat)
    | Relayed(k: nat)
    | Resubscribe(k: nat, channels: set<string>)
    | Drain(c: nat)

  predicate Shaped(net: Net, s: State) {
    && Wf(net)
    && |s.sent| == |s.pump| == |s.got| == |s.backlog| == |net.home|
    && |s.inbox| == |s.loop| == |s.subs| == |net.nodeIds|
    && (forall c :: c in s.joined ==> c < |net.home|)
  }

  /** The clients a node holds for a board. */
  function Targets(net: Net, s: State, k: nat, board: string): (r: set<nat>)
    requires Shaped(net, s)
    ensures forall d :: d in r <==> d in s.joined && net.home[d] == k && net.at[d] == board
  {
    set d | d in s.joined && net.home[d] == k && net.at[d] == board
  }

  /** No delivery holds the hub's read lock. */
  predicate Unlocked(net: Net, s: State, k: nat)
    requires Shaped(net, s) && k < |net.nodeIds|
  {
    && s.loop[k].Waiting?
    && forall c :: 0 <= c < |net.home| && net.home[c] == k ==> !s.pump[c].Delivering?
  }

  predicate Enabled(net: Net, s: State, step: Step)
    requires Shaped(net, s)
  {
    match step
    case Join(c) => c < |net.home| && c !in s.joined && c !in s.left && Unlocked(net, s, net.home[c])
    case Leave(c) => c in s.joined && s.pump[c].Idle? && Unlocked(net, s, net.home[c])
    case Read(c, _) => c in s.joined && s.pump[c].Idle?
    case Offer(c, d) => c < |net.home| && d < |net.home| && s.pump[c].Delivering? && d in s.pump[c].todo && s.sent[c] != []
    case Delivered(c) => c < |net.home| && s.pump[c].Delivering? && s.pump[c].todo == {}
    case Publish(c, _) => c < |net.home| && s.pump[c].Publishing? && s.sent[c] != []
    case Take(k) => k < |net.nodeIds| && s.loop[k].Waiting? && s.inbox[k] != []
    case Relay(k, d) => k < |net.nodeIds| && d < |net.home| && s.loop[k].Relaying? && d in s.loop[k].todo
    case Relayed(k) => k < |net.nodeIds| && s.loop[k].Relaying? && s.loop[k].todo == {}
    case Resubscribe(k, _) => k < |net.nodeIds|
    case Drain(c) => c < |net.home| && s.backlog[c] > 0
  }

  /** One turn of the delivery loop: skip the sender, drop at a full queue. */
  function Offered(net: Net, s: State, d: nat, senderId: string, e: Entry): State
    requires Shaped(net, s) && d < |net.home|
  {
    if net.ids[d] == senderId then s
    else if s.backlog[d] >= SEND_BUFFER then s.(dropped := s.dropped + {Aim(e.tag, d)})
    else s.(got := s.got[d := s.got[d] + [e]], backlog := s.backlog[d := s.backlog[d] + 1])
  }

  /** Every node subscribed to the channel gets the packet, the publisher's own node too. */
  function Broadcast(inbox: seq<seq<Packet>>, subs: seq<set<string>>, p: Packet): (r: seq<seq<Packet>>)
    requires |inbox| == |subs|
    ensures |r| == |inbox|
  {
    seq(|inbox|, k requires 0 <= k < |inbox| => if p.channel in subs[k] then inbox[k] + [p] else inbox[k])
  }

  function Aims(tag: Tag, targets: set<nat>): (r: set<Aim>)
    ensures forall a :: a in r <==> a.tag == tag && a.d in targets
  {
    set d | d in targets :: Aim(tag, d)
  }

  function Current(s: State, c: nat): Tag
    requires c < |s.sent| && s.sent[c] != []
  {
    Tag(c, |s.sent[c]| - 1)
  }

  function Next(net: Net, s: State, step: Step): State
    requires Shaped(net, s) && Enabled(net, s, step)
  {
    match step
    case Join(c) => s.(joined := s.joined + {c})
    case Leave(c) => s.(joined := s.joined - {c}, left := s.left + {c})
    case Read(c, payload) =>
      var targets := Targets(net, s, net.home[c], net.at[c]);
      s.(sent := s.sent[c := s.sent[c] + [payload]], pump := s.pump[c := Delivering(targets)],
         aimed := s.aimed + Aims(Tag(c, |s.sent[c]|), targets))
    case Offer(c, d) =>
      var t := s.(pump := s.pump[c := Delivering(s.pump[c].todo - {d})]);
      Offered(net, t, d, net.ids[c], Entry(s.sent[c][|s.sent[c]| - 1], Current(s, c)))
    case Delivered(c) => s.(pump := s.pump[c := Publishing])
    case Publish(c, ok) =>
      var payload := s.sent[c][|s.sent[c]| - 1];
      var p := Packet(ChannelFor(net.at[c]), Encode(net.nodeIds[net.home[c]], payload), Current(s, c));
      s.(pump := s.pump[c := Idle], inbox := if ok then Broadcast(s.inbox, s.subs, p) else s.inbox)
    case Take(k) =>
      var p := s.inbox[k][0];
      var t := s.(inbox := s.inbox[k := s.inbox[k][1..]]);
      (match Incoming(net.nodeIds[k], p.data)
       case None => t
       case Some(payload) =>
         var targets := Targets(net, s, k, BoardFrom(p.channel));
         t.(loop := s.loop[k := Relaying(payload, p.tag, targets)], aimed := s.aimed + Aims(p.tag, targets)))
    case Relay(k, d) =>
      var r := s.loop[k];
      var t := s.(loop := s.loop[k := Relaying(r.payload, r.tag, r.todo - {d})]);
      Offered(net, t, d, "", Entry(r.payload, r.tag))
    case Relayed(k) => s.(loop := s.loop[k := Waiting])
    case Resubscribe(k, channels) => s.(subs := s.subs[k := channels])
    case Drain(c) => s.(backlog := s.backlog[c := s.backlog[c] - 1])
  }

  // ---------------------------------------------------------------- the invariant

  /** How many of a client's frames are past their publish. */
  function Published(s: State, c: nat): int
    requires c < |s.sent| == |s.pump|
  {
    if s.pump[c].Idle? then |s.sent[c]| else |s.sent[c]| - 1
  }

  /** The tag names a frame really sent, with this payload. */
  predicate Genuine(s: State, tag: Tag, payload: string) {
    tag.sender < |s.sent| && tag.n < |s.sent[tag.sender]| && s.sent[tag.sender][tag.n] == payload
  }

  /** Everything the same sender may still deliver to r comes after this tag. */
  predicate Behind(net: Net, s: State, r: nat, tag: Tag)
    requires Shaped(net, s) && r < |net.home| && tag.sender < |net.home|
  {
    var c, k := tag.sender, net.home[r];
    if net.home[c] == k then
      s.pump[c].Delivering? && r in s.pump[c].todo ==> tag.n < |s.sent[c]| - 1
    else
      && tag.n < Published(s, c)
      && (forall i :: 0 <= i < |s.inbox[k]| && s.inbox[k][i].tag.sender == c ==> tag.n < s.inbox[k][i].tag.n)
      && (s.loop[k].Relaying? && s.loop[k].tag.sender == c && r in s.loop[k].todo ==> tag.n < s.loop[k].tag.n)
  }

  predicate EntryOk(net: Net, s: State, r: nat, e: Entry)
    requires Shaped(net, s) && r < |net.home|
  {
    && Genuine(s, e.tag, e.payload)
    && e.tag.sender != r && net.at[e.tag.sender] == net.at[r]
    && Behind(net, s, r, e.tag)
  }

  predicate EntriesOk(net: Net, s: State, r: nat)
    requires Shaped(net, s) && r < |net.home|
  {
    forall i :: 0 <= i < |s.got[r]| ==> EntryOk(net, s, r, s.got[r][i])
  }

  predicate Ordered(got: seq<Entry>) {
    forall i, j :: 0 <= i < j < |got| && got[i].tag.sender == got[j].tag.sender ==> got[i].tag.n < got[j].tag.n
  }

  predicate PacketOk(net: Net, s: State, p: Packet)
    requires Shaped(net, s)
  {
    && p.tag.sender < |net.home| && p.tag.n < Published(s, p.tag.sender)
    && p.channel == ChannelFor(net.at[p.tag.sender])
    && p.data == Encode(net.nodeIds[net.home[p.tag.sender]], s.sent[p.tag.sender][p.tag.n])
  }

  predicate InboxOk(net: Net, s: State, k: nat)
    requires Shaped(net, s) && k < |net.nodeIds|
  {
    && (forall i :: 0 <= i < |s.inbox[k]| ==> PacketOk(net, s, s.inbox[k][i]))
    && (forall i, j :: 0 <= i < j < |s.inbox[k]| && s.inbox[k][i].tag.sender == s.inbox[k][j].tag.sender
          ==> s.inbox[k][i].tag.n < s.inbox[k][j].tag.n)
  }

  predicate LoopOk(net: Net, s: State, k: nat)
    requires Shaped(net, s) && k < |net.nodeIds|
  {
    s.loop[k].Relaying? ==>
      var tag := s.loop[k].tag;
      && Genuine(s, tag, s.loop[k].payload) && tag.n < Published(s, tag.sender)
      && net.home[tag.sender] != k
      && (forall d :: d in s.loop[k].todo ==> d < |net.home| && net.home[d] == k && net.at[d] == net.at[tag.sender])
      && (forall i :: 0 <= i < |s.inbox[k]| && s.inbox[k][i].tag.sender == tag.sender ==> tag.n < s.inbox[k][i].tag.n)
  }

  predicate PumpOk(net: Net, s: State, c: nat)
    requires Shaped(net, s) && c < |net.home|
  {
    && (!s.pump[c].Idle? ==> s.sent[c] != [])
    && (s.pump[c].Delivering? ==>
          forall d :: d in s.pump[c].todo ==> d < |net.home| && net.home[d] == net.home[c] && net.at[d] == net.at[c])
  }

  ghost predicate Inv(net: Net, s: State) {
    && Shaped(net, s)
    && (forall r :: 0 <= r < |net.home| ==>
          EntriesOk(net, s, r) && Ordered(s.got[r]) && PumpOk(net, s, r) && s.backlog[r] <= SEND_BUFFER
          && s.backlog[r] <= |s.got[r]|)
    && (forall k :: 0 <= k < |net.nodeIds| ==> InboxOk(net, s, k) && LoopOk(net, s, k))
  }

  // ---------------------------------------------------------------- one step

  // The frame comes after everything its sender already delivered to d.
  predicate Newest(s: State, d: nat, e: Entry)
    requires d < |s.got|
  {
    forall i :: 0 <= i < |s.got[d]| && s.got[d][i].tag.sender == e.tag.sender ==> s.got[d][i].tag.n < e.tag.n
  }

  lemma OfferedEntries(net: Net, s: State, d: nat, senderId: string, e: Entry, r: nat)
    requires Inv(net, s) && d < |net.home| && r < |net.home| && Newest(s, d, e)
    requires net.ids[d] != senderId ==> EntryOk(net, s, d, e)
    ensures var t := Offered(net, s, d, senderId, e); EntriesOk(net, t, r) && Ordered(t.got[r]) && PumpOk(net, t, r)
  {
    var t := Offered(net, s, d, senderId, e);
    assert EntriesOk(net, s, r) && Ordered(s.got[r]) && PumpOk(net, s, r);
    forall i | 0 <= i < |t.got[r]| ensures EntryOk(net, t, r, t.got[r][i]) {
      if i < |s.got[r]| {
        assert EntryOk(net, s, r, s.got[r][i]);
      }
    }
  }

  lemma OfferedInv(net: Net, s: State, d: nat, senderId: string, e: Entry)
    requires Inv(net, s) && d < |net.home| && Newest(s, d, e)
    requires net.ids[d] != senderId ==> EntryOk(net, s, d, e)
    ensures Inv(net, Offered(net, s, d, senderId, e))
  {
    var t := Offered(net, s, d, senderId, e);
    forall r | 0 <= r < |net.home| ensures EntriesOk(net, t, r) && Ordered(t.got[r]) && PumpOk(net, t, r) {
      OfferedEntries(net, s, d, senderId, e, r);
    }
    forall k | 0 <= k < |net.nodeIds| ensures InboxOk(net, t, k) && LoopOk(net, t, k) {
      assert InboxOk(net, s, k) && LoopOk(net, s, k);
    }
    hide EntriesOk, Ordered, PumpOk, InboxOk, LoopOk;
  }

  // Only fields no part of the invariant reads have changed, or todo sets have shrunk.
  predicate Shrunk(net: Net, s: State, t: State)
    requires Shaped(net, s) && Shaped(net, t)
  {
    && t.sent == s.sent && t.inbox == s.inbox && t.got == s.got
    && (forall c :: 0 <= c < |net.home| ==>
          || t.pump[c] == s.pump[c]
          || (s.pump[c].Delivering? && t.pump[c].Publishing?)
          || (s.pump[c].Delivering? && t.pump[c].Delivering? && t.pump[c].todo <= s.pump[c].todo))
    && (forall k :: 0 <= k < |net.nodeIds| ==>
          || t.loop[k] == s.loop[k]
          || t.loop[k].Waiting?
          || (s.loop[k].Relaying? && t.loop[k].Relaying? && t.loop[k].todo <= s.loop[k].todo
              && t.loop[k] == s.loop[k].(todo := t.loop[k].todo)))
    && (forall c :: 0 <= c < |net.home| ==> t.backlog[c] <= s.backlog[c])
  }

  lemma ShrunkInv(net: Net, s: State, t: State)
    requires Inv(net, s) && Shaped(net, t) && Shrunk(net, s, t)
    ensures Inv(net, t)
  {
    forall r | 0 <= r < |net.home| ensures EntriesOk(net, t, r) && PumpOk(net, t, r) {
      assert EntriesOk(net, s, r) && PumpOk(net, s, r);
      forall i | 0 <= i < |t.got[r]| ensures EntryOk(net, t, r, t.got[r][i]) {
        assert EntryOk(net, s, r, s.got[r][i]);
      }
    }
    forall k | 0 <= k < |net.nodeIds| ensures InboxOk(net, t, k) && LoopOk(net, t, k) {
      assert InboxOk(net, s, k) && LoopOk(net, s, k);
    }
  }

  lemma ReadEntries(net: Net, s: State, c: nat, payload: string, r: nat)
    requires Inv(net, s) && Enabled(net, s, Read(c, payload)) && r < |net.home|
    ensures var t := Next(net, s, Read(c, payload)); EntriesOk(net, t, r) && PumpOk(net, t, r)
  {
    var t := Next(net, s, Read(c, payload));
    assert EntriesOk(net, s, r) && PumpOk(net, s, r);
    forall i | 0 <= i < |t.got[r]| ensures EntryOk(net, t, r, t.got[r][i]) {
      assert EntryOk(net, s, r, s.got[r][i]);
    }
  }

  lemma ReadInv(net: Net, s: State, c: nat, payload: string)
    requires Inv(net, s) && Enabled(net, s, Read(c, payload))
    ensures Inv(net, Next(net, s, Read(c, payload)))
  {
    var t := Next(net, s, Read(c, payload));
    hide EntriesOk, PumpOk;
    forall r | 0 <= r < |net.home| ensures EntriesOk(net, t, r) && PumpOk(net, t, r) {
      ReadEntries(net, s, c, payload, r);
    }
    forall k | 0 <= k < |net.nodeIds| ensures InboxOk(net, t, k) && LoopOk(net, t, k) {
      assert InboxOk(net, s, k) && LoopOk(net, s, k);
    }
  }

  lemma OfferInv(net: Net, s: State, c: nat, d: nat)
    requires Inv(net, s) && Enabled(net, s, Offer(c, d))
    ensures Inv(net, Next(net, s, Offer(c, d)))
  {
    var t := s.(pump := s.pump[c := Delivering(s.pump[c].todo - {d})]);
    ShrunkInv(net, s, t);
    assert PumpOk(net, s, c) && EntriesOk(net, s, d);
    var e := Entry(s.sent[c][|s.sent[c]| - 1], Current(s, c));
    forall i | 0 <= i < |t.got[d]| && t.got[d][i].tag.sender == c ensures t.got[d][i].tag.n < e.tag.n {
      assert EntryOk(net, s, d, s.got[d][i]);
    }
    OfferedInv(net, t, d, net.ids[c], e);
  }

  lemma RelayInv(net: Net, s: State, k: nat, d: nat)
    requires Inv(net, s) && Enabled(net, s, Relay(k, d))
    ensures Inv(net, Next(net, s, Relay(k, d)))
  {
    var r := s.loop[k];
    var t := s.(loop := s.loop[k := Relaying(r.payload, r.tag, r.todo - {d})]);
    ShrunkInv(net, s, t);
    assert LoopOk(net, s, k) && EntriesOk(net, s, d);
    forall i | 0 <= i < |t.got[d]| && t.got[d][i].tag.sender == r.tag.sender ensures t.got[d][i].tag.n < r.tag.n {
      assert EntryOk(net, s, d, s.got[d][i]);
    }
    OfferedInv(net, t, d, "", Entry(r.payload, r.tag));
  }

  lemma PublishEntries(net: Net, s: State, c: nat, ok: bool, r: nat)
    requires Inv(net, s) && Enabled(net, s, Publish(c, ok)) && r < |net.home|
    ensures var t := Next(net, s, Publish(c, ok)); EntriesOk(net, t, r) && PumpOk(net, t, r)
  {
    var t := Next(net, s, Publish(c, ok));
    assert EntriesOk(net, s, r) && PumpOk(net, s, r);
    forall i | 0 <= i < |t.got[r]| ensures EntryOk(net, t, r, t.got[r][i]) {
      assert EntryOk(net, s, r, s.got[r][i]);
    }
  }

  // The published frame comes after everything of its sender that is already under way.
  lemma PublishInv(net: Net, s: State, c: nat, ok: bool)
    requires Inv(net, s) && Enabled(net, s, Publish(c, ok))
    ensures Inv(net, Next(net, s, Publish(c, ok)))
  {
    var t := Next(net, s, Publish(c, ok));
    hide EntriesOk, PumpOk;
    forall r | 0 <= r < |net.home| ensures EntriesOk(net, t, r) && PumpOk(net, t, r) {
      PublishEntries(net, s, c, ok, r);
    }
    forall k | 0 <= k < |net.nodeIds| ensures InboxOk(net, t, k) && LoopOk(net, t, k) {
      assert InboxOk(net, s, k) && LoopOk(net, s, k);
      forall i | 0 <= i < |t.inbox[k]| ensures PacketOk(net, t, t.inbox[k][i]) {
        assert i < |s.inbox[k]| ==> t.inbox[k][i] == s.inbox[k][i];
      }
    }
  }

  lemma TakenPacket(net: Net, s: State, k: nat)
    requires Inv(net, s) && Enabled(net, s, Take(k))
    ensures var p := s.inbox[k][0];
      && PacketOk(net, s, p) && BoardFrom(p.channel) == net.at[p.tag.sender]
      && Incoming(net.nodeIds[k], p.data)
         == if net.home[p.tag.sender] == k then None else Some(s.sent[p.tag.sender][p.tag.n])
  {
    assert InboxOk(net, s, k);
    var tag := s.inbox[k][0].tag;
    assert PacketOk(net, s, s.inbox[k][0]);
    FrameCrosses(net.nodeIds[net.home[tag.sender]], net.nodeIds[k], net.at[tag.sender], s.sent[tag.sender][tag.n]);
  }

  lemma TakeEntries(net: Net, s: State, k: nat, r: nat)
    requires Inv(net, s) && Enabled(net, s, Take(k)) && r < |net.home|
    ensures EntriesOk(net, Next(net, s, Take(k)), r) && PumpOk(net, Next(net, s, Take(k)), r)
  {
    var t := Next(net, s, Take(k));
    assert EntriesOk(net, s, r) && PumpOk(net, s, r);
    hide Incoming, BoardFrom, PacketOk, Genuine;
    forall i | 0 <= i < |t.got[r]| ensures EntryOk(net, t, r, t.got[r][i]) {
      assert EntryOk(net, s, r, s.got[r][i]);
      hide Genuine;
    }
  }

  lemma TakeInv(net: Net, s: State, k: nat)
    requires Inv(net, s) && Enabled(net, s, Take(k))
    ensures Inv(net, Next(net, s, Take(k)))
  {
    var t := Next(net, s, Take(k));
    TakenPacket(net, s, k);
    hide Incoming, Encode, ChannelFor, BoardFrom, EntriesOk, PumpOk;
    forall r | 0 <= r < |net.home| ensures EntriesOk(net, t, r) && PumpOk(net, t, r) {
      TakeEntries(net, s, k, r);
    }
    forall j | 0 <= j < |net.nodeIds| ensures InboxOk(net, t, j) && LoopOk(net, t, j) {
      assert InboxOk(net, s, j) && LoopOk(net, s, j);
      forall i | 0 <= i < |t.inbox[j]| ensures PacketOk(net, t, t.inbox[j][i]) {
        assert PacketOk(net, s, s.inbox[j][if j == k then i + 1 else i]);
      }
    }
  }

  lemma StepInv(net: Net, s: State, step: Step)
    requires Inv(net, s) && Enabled(net, s, step)
    ensures Inv(net, Next(net, s, step))
  {
    match step {
      case Read(c, payload) => ReadInv(net, s, c, payload);
      case Offer(c, d) => OfferInv(net, s, c, d);
      case Publish(c, ok) => PublishInv(net, s, c, ok);
      case Take(k) => TakeInv(net, s, k);
      case Relay(k, d) => RelayInv(net, s, k, d);
      case _ => ShrunkInv(net, s, Next(net, s, step));
    }
  }

  // ---------------------------------------------------------------- nothing is lost silently

  predicate DistinctIds(net: Net) {
    && |net.home| == |net.ids|
    && (forall c :: 0 <= c < |net.ids| ==> net.ids[c] != "")
    && (forall c, d :: 0 <= c < d < |net.ids| ==> net.ids[c] != net.ids[d])
  }

  /** A delivery loop still has to offer the frame. */
  predicate StillDue(net: Net, s: State, a: Aim)
    requires Shaped(net, s) && a.tag.sender < |net.home| && a.d < |net.home|
  {
    var c, k := a.tag.sender, net.home[a.d];
    || (s.pump[c].Delivering? && a.tag.n == |s.sent[c]| - 1 && a.d in s.pump[c].todo)
    || (s.loop[k].Relaying? && s.loop[k].tag == a.tag && a.d in s.loop[k].todo)
  }

  predicate Received(s: State, a: Aim) {
    a.d < |s.got| && exists i :: 0 <= i < |s.got[a.d]| && s.got[a.d][i].tag == a.tag
  }

  predicate Settled(net: Net, s: State, a: Aim)
    requires Shaped(net, s)
  {
    && a.tag.sender < |net.home| && a.d < |net.home|
    && (a.d == a.tag.sender || Received(s, a) || a in s.dropped || StillDue(net, s, a))
  }

  predicate Complete(net: Net, s: State)
    requires Shaped(net, s)
  {
    forall a :: a in s.aimed ==> Settled(net, s, a)
  }

  /** The offer settles exactly the aim it was made for. */
  lemma OfferedSettles(net: Net, s: State, d: nat, senderId: string, e: Entry, a: Aim)
    requires Shaped(net, s) && d < |net.home|
    requires Settled(net, s, a) || (a == Aim(e.tag, d) && a.tag.sender < |net.home|)
    requires a == Aim(e.tag, d) && net.ids[d] == senderId ==> d == a.tag.sender
    ensures Settled(net, Offered(net, s, d, senderId, e), a)
  {
    var t := Offered(net, s, d, senderId, e);
    if Received(s, a) {
      var i :| 0 <= i < |s.got[a.d]| && s.got[a.d][i].tag == a.tag;
      assert t.got[a.d][i].tag == a.tag;
    } else if a == Aim(e.tag, d) && t.got != s.got {
      assert t.got[d][|s.got[d]|].tag == a.tag;
    }
  }

  lemma OfferComplete(net: Net, s: State, c: nat, d: nat)
    requires DistinctIds(net) && Inv(net, s) && Complete(net, s) && Enabled(net, s, Offer(c, d))
    ensures Complete(net, Next(net, s, Offer(c, d)))
  {
    var t := s.(pump := s.pump[c := Delivering(s.pump[c].todo - {d})]);
    var e := Entry(s.sent[c][|s.sent[c]| - 1], Current(s, c));
    forall a | a in t.aimed ensures Settled(net, Offered(net, t, d, net.ids[c], e), a) {
      assert Settled(net, s, a);
      OfferedSettles(net, t, d, net.ids[c], e, a);
    }
  }

  lemma RelayComplete(net: Net, s: State, k: nat, d: nat)
    requires DistinctIds(net) && Inv(net, s) && Complete(net, s) && Enabled(net, s, Relay(k, d))
    ensures Complete(net, Next(net, s, Relay(k, d)))
  {
    var r := s.loop[k];
    assert LoopOk(net, s, k);
    var t := s.(loop := s.loop[k := Relaying(r.payload, r.tag, r.todo - {d})]);
    forall a | a in t.aimed ensures Settled(net, Offered(net, t, d, "", Entry(r.payload, r.tag)), a) {
      assert Settled(net, s, a);
      OfferedSettles(net, t, d, "", Entry(r.payload, r.tag), a);
    }
  }

  lemma StepComplete(net: Net, s: State, step: Step)
    requires DistinctIds(net) && Inv(net, s) && Complete(net, s) && Enabled(net, s, step)
    ensures Shaped(net, Next(net, s, step)) && Complete(net, Next(net, s, step))
  {
    StepInv(net, s, step);
    match step {
      case Offer(c, d) => OfferComplete(net, s, c, d);
      case Relay(k, d) => RelayComplete(net, s, k, d);
      case Take(k) => TakeComplete(net, s, k);
      case _ =>
        var t := Next(net, s, step);
        forall a | a in t.aimed ensures Settled(net, t, a) {
          if a in s.aimed {
            assert Settled(net, s, a);
          }
        }
    }
  }

  lemma TakeComplete(net: Net, s: State, k: nat)
    requires Inv(net, s) && Complete(net, s) && Enabled(net, s, Take(k))
    ensures Complete(net, Next(net, s, Take(k)))
  {
    var t := Next(net, s, Take(k));
    TakenPacket(net, s, k);
    hide Incoming, BoardFrom, Encode;
    forall a | a in t.aimed ensures Settled(net, t, a) {
      if a in s.aimed {
        assert Settled(net, s, a);
      }
    }
  }

  // ---------------------------------------------------------------- whole runs

  /** Nobody connected, nothing sent; `subs` are the subscriptions of the moment. */
  function Init(net: Net): State {
    State({}, {}, seq(|net.home|, c => []), seq(|net.home|, c => Idle),
          seq(|net.nodeIds|, k => []), seq(|net.nodeIds|, k => Waiting), seq(|net.nodeIds|, k => {}),
          seq(|net.home|, c => []), seq(|net.home|, c => 0), {}, {})
  }

  /** The state a run reaches; a step that is not enabled changes nothing. */
  ghost function Run(net: Net, steps: seq<Step>): (s: State)
    requires Wf(net)
    ensures Inv(net, s)
  {
    if steps == [] then Init(net)
    else
      var before, last := Run(net, steps[..|steps| - 1]), steps[|steps| - 1];
      if Enabled(net, before, last) then
        StepInv(net, before, last);
        Next(net, before, last)
      else before
  }

  /**
   * In every reachable state, whatever the subscriptions were: what entered a client's queue was
   * sent by somebody else, on the client's own board, unchanged; and of each sender's frames the
   * client has got a subsequence, in the order they were sent, none of them twice.
   */
  lemma FanoutSafety(net: Net, steps: seq<Step>, r: nat)
    requires Wf(net) && r < |net.home|
    ensures var s := Run(net, steps);
      && Shaped(net, s)
      && (forall i :: 0 <= i < |s.got[r]| ==>
            var e := s.got[r][i];
            && e.tag.sender < |net.home| && e.tag.sender != r && net.at[e.tag.sender] == net.at[r]
            && e.tag.n < |s.sent[e.tag.sender]| && e.payload == s.sent[e.tag.sender][e.tag.n])
      && (forall i, j :: 0 <= i < j < |s.got[r]| && s.got[r][i].tag.sender == s.got[r][j].tag.sender
            ==> s.got[r][i].tag.n < s.got[r][j].tag.n)
      && s.backlog[r] <= 256
  {
    var s := Run(net, steps);
    assert EntriesOk(net, s, r) && Ordered(s.got[r]);
    forall i | 0 <= i < |s.got[r]| ensures EntryOk(net, s, r, s.got[r][i]) {
    }
  }

  lemma {:induction false} RunComplete(net: Net, steps: seq<Step>)
    requires Wf(net) && DistinctIds(net)
    ensures Complete(net, Run(net, steps))
  {
    if steps != [] {
      var before, last := Run(net, steps[..|steps| - 1]), steps[|steps| - 1];
      RunComplete(net, steps[..|steps| - 1]);
      if Enabled(net, before, last) {
        StepComplete(net, before, last);
      }
    }
  }

  predicate Quiet(s: State) {
    (forall c :: 0 <= c < |s.pump| ==> !s.pump[c].Delivering?) && (forall k :: 0 <= k < |s.loop| ==> s.loop[k].Waiting?)
  }

  /**
   * Once no delivery is under way, every client a frame was meant for, other than its sender, has
   * received it or had a full queue when it was offered.
   */
  lemma FanoutComplete(net: Net, steps: seq<Step>, a: Aim)
    requires Wf(net) && DistinctIds(net) && Quiet(Run(net, steps)) && a in Run(net, steps).aimed
    ensures var s := Run(net, steps); a.d == a.tag.sender || Received(s, a) || a in s.dropped
  {
    RunComplete(net, steps);
    assert Settled(net, Run(net, steps), a);
  }
}
