/**
 * What a run of the fan-out owes to whom, read off the run itself: a published frame reaches every
 * subscribed node, and every client of the board there gets it or has a full queue.
 */
module Delivery {
  import opened Framing
  import opened Fanout

  /** The state before step i. */
  ghost function At(net: Net, steps: seq<Step>, i: nat): (s: State)
    requires Wf(net) && i <= |steps|
    ensures Inv(net, s)
  {
    Run(net, steps[..i])
  }

  ghost predicate Happens(net: Net, steps: seq<Step>, i: int, step: Step)
    requires Wf(net)
  {
    0 <= i < |steps| && steps[i] == step && Enabled(net, At(net, steps, i), step)
  }

  lemma AtNext(net: Net, steps: seq<Step>, i: nat)
    requires Wf(net) && i < |steps|
    ensures var s := At(net, steps, i);
      At(net, steps, i + 1) == if Enabled(net, s, steps[i]) then Next(net, s, steps[i]) else s
  {
    assert steps[..i + 1][..i] == steps[..i];
    hide Inv, Enabled, Next;
  }

  lemma AtEnd(net: Net, steps: seq<Step>)
    requires Wf(net)
    ensures At(net, steps, |steps|) == Run(net, steps)
  {
    assert steps[..|steps|] == steps;
    hide Run;
  }

  // ---------------------------------------------------------------- what is never taken back

  lemma NextKeeps(net: Net, s: State, step: Step)
    requires Inv(net, s) && Enabled(net, s, step)
    ensures var t := Next(net, s, step);
      && Shaped(net, t)
      && (forall c :: 0 <= c < |net.home| ==> s.sent[c] <= t.sent[c] && s.got[c] <= t.got[c])
  {
    StepInv(net, s, step);
    hide Inv, Incoming, Encode, Targets, Aims, Broadcast;
  }

  lemma {:induction false} NothingTakenBack(net: Net, steps: seq<Step>, i: nat, c: nat)
    requires Wf(net) && i <= |steps| && c < |net.home|
    ensures Shaped(net, At(net, steps, i)) && Shaped(net, Run(net, steps))
    ensures At(net, steps, i).sent[c] <= Run(net, steps).sent[c] && At(net, steps, i).got[c] <= Run(net, steps).got[c]
    decreases |steps| - i
  {
    if i == |steps| {
      AtEnd(net, steps);
    } else {
      NothingTakenBack(net, steps, i + 1, c);
      AtNext(net, steps, i);
      var s := At(net, steps, i);
      hide At, Run, Next, Enabled;
      if Enabled(net, s, steps[i]) {
        NextKeeps(net, s, steps[i]);
      }
    }
  }

  // ---------------------------------------------------------------- from the publisher to the node

  ghost predicate InInbox(net: Net, steps: seq<Step>, i: nat, k: nat, tag: Tag, q: int)
    requires Wf(net) && i <= |steps| && k < |net.nodeIds|
  {
    var s := At(net, steps, i);
    |s.inbox| == |net.nodeIds| && 0 <= q < |s.inbox[k]| && s.inbox[k][q].tag == tag
  }

  /** Node k's receive loop takes this frame in step j. */
  ghost predicate TakesFrame(net: Net, steps: seq<Step>, j: int, k: nat, tag: Tag)
    requires Wf(net)
  {
    Happens(net, steps, j, Take(k)) && At(net, steps, j).inbox[k][0].tag == tag
  }

  lemma PublishReaches(net: Net, steps: seq<Step>, i: nat, c: nat, k: nat)
    requires Wf(net) && Happens(net, steps, i, Publish(c, true)) && k < |net.nodeIds|
    requires ChannelFor(net.at[c]) in At(net, steps, i).subs[k]
    ensures var s := At(net, steps, i); InInbox(net, steps, i + 1, k, Tag(c, |s.sent[c]| - 1), |s.inbox[k]|)
  {
    AtNext(net, steps, i);
    hide At, Inv, Encode, ChannelFor;
  }

  lemma InboxNext(net: Net, s: State, step: Step, k: nat, q: nat)
    requires Shaped(net, s) && Enabled(net, s, step) && k < |net.nodeIds| && q < |s.inbox[k]|
    ensures var t, p := Next(net, s, step), if step == Take(k) then q - 1 else q;
      p < 0 || (|t.inbox| == |s.inbox| && p < |t.inbox[k]| && t.inbox[k][p] == s.inbox[k][q])
  {
    hide Incoming, Encode, Targets, Aims, Offered;
    match step
    case Offer(c, d) => OfferedElsewhere(net, s.(pump := s.pump[c := Delivering(s.pump[c].todo - {d})]), d, net.ids[c],
                                         Entry(s.sent[c][|s.sent[c]| - 1], Current(s, c)));
    case Relay(j, d) => OfferedElsewhere(net, s.(loop := s.loop[j := Relaying(s.loop[j].payload, s.loop[j].tag, s.loop[j].todo - {d})]),
                                         d, "", Entry(s.loop[j].payload, s.loop[j].tag));
    case _ =>
  }

  lemma OfferedElsewhere(net: Net, s: State, d: nat, senderId: string, e: Entry)
    requires Shaped(net, s) && d < |net.home|
    ensures var t := Offered(net, s, d, senderId, e); t.inbox == s.inbox && t.loop == s.loop && t.pump == s.pump && t.sent == s.sent
  {
  }

  /** A frame in an inbox that ends up empty has been taken. */
  lemma {:induction false} InboxIsTaken(net: Net, steps: seq<Step>, i: nat, k: nat, tag: Tag, q: nat)
    requires Wf(net) && i <= |steps| && k < |net.nodeIds| && InInbox(net, steps, i, k, tag, q)
    requires Shaped(net, Run(net, steps)) && Run(net, steps).inbox[k] == []
    ensures exists j :: i <= j && TakesFrame(net, steps, j, k, tag)
    decreases |steps| - i
  {
    AtEnd(net, steps);
    var s := At(net, steps, i);
    if i == |steps| {
      assert false;
    } else {
      AtNext(net, steps, i);
      assert Shaped(net, s);
      hide At, Run, Next, Inv, Enabled;
      if Enabled(net, s, steps[i]) {
        InboxNext(net, s, steps[i], k, q);
        if steps[i] == Take(k) && q == 0 {
          assert TakesFrame(net, steps, i, k, tag);
        } else {
          InboxIsTaken(net, steps, i + 1, k, tag, if steps[i] == Take(k) then q - 1 else q);
        }
      } else {
        InboxIsTaken(net, steps, i + 1, k, tag, q);
      }
    }
  }

  // ---------------------------------------------------------------- from the node to its clients

  ghost predicate LoopOwes(net: Net, steps: seq<Step>, i: nat, k: nat, d: nat, e: Entry)
    requires Wf(net) && i <= |steps| && k < |net.nodeIds|
  {
    var s := At(net, steps, i);
    |s.loop| == |net.nodeIds| && s.loop[k].Relaying? && s.loop[k].payload == e.payload && s.loop[k].tag == e.tag && d in s.loop[k].todo
  }

  /** In step m node k's loop offers the frame to client d. */
  ghost predicate Relays(net: Net, steps: seq<Step>, m: int, k: nat, d: nat, e: Entry)
    requires Wf(net)
  {
    && Happens(net, steps, m, Relay(k, d))
    && At(net, steps, m).loop[k].payload == e.payload && At(net, steps, m).loop[k].tag == e.tag
  }

  lemma TakeOwes(net: Net, steps: seq<Step>, j: nat, k: nat, tag: Tag, d: nat)
    requires Wf(net) && k < |net.nodeIds| && TakesFrame(net, steps, j, k, tag)
    requires tag.sender < |net.home| && net.home[tag.sender] != k
    requires d in At(net, steps, j).joined && d < |net.home| && net.home[d] == k && net.at[d] == net.at[tag.sender]
    ensures var s := At(net, steps, j);
      && tag.n < |s.sent[tag.sender]|
      && LoopOwes(net, steps, j + 1, k, d, Entry(s.sent[tag.sender][tag.n], tag))
  {
    var s := At(net, steps, j);
    AtNext(net, steps, j);
    TakenPacket(net, s, k);
    hide At, Inv, Incoming, BoardFrom, Encode, ChannelFor, Aims;
  }

  lemma LoopNext(net: Net, s: State, step: Step, k: nat, d: nat)
    requires Shaped(net, s) && Enabled(net, s, step) && k < |net.nodeIds| && s.loop[k].Relaying? && d in s.loop[k].todo
    requires step != Relay(k, d)
    ensures var t := Next(net, s, step);
      && |t.loop| == |s.loop| && t.loop[k].Relaying? && t.loop[k].payload == s.loop[k].payload && t.loop[k].tag == s.loop[k].tag
      && d in t.loop[k].todo
  {
    hide Incoming, Encode, Targets, Aims, Broadcast, Offered;
    match step
    case Offer(c, x) => OfferedElsewhere(net, s.(pump := s.pump[c := Delivering(s.pump[c].todo - {x})]), x, net.ids[c],
                                         Entry(s.sent[c][|s.sent[c]| - 1], Current(s, c)));
    case Relay(j, x) => OfferedElsewhere(net, s.(loop := s.loop[j := Relaying(s.loop[j].payload, s.loop[j].tag, s.loop[j].todo - {x})]),
                                         x, "", Entry(s.loop[j].payload, s.loop[j].tag));
    case _ =>
  }

  /** A receive loop that ends up waiting has made every offer it owed. */
  lemma {:induction false} LoopDelivers(net: Net, steps: seq<Step>, i: nat, k: nat, d: nat, e: Entry)
    requires Wf(net) && i <= |steps| && k < |net.nodeIds| && LoopOwes(net, steps, i, k, d, e)
    requires Shaped(net, Run(net, steps)) && Run(net, steps).loop[k].Waiting?
    ensures exists m :: i <= m && Relays(net, steps, m, k, d, e)
    decreases |steps| - i
  {
    AtEnd(net, steps);
    var s := At(net, steps, i);
    if i == |steps| {
      assert false;
    } else {
      AtNext(net, steps, i);
      assert Shaped(net, s);
      hide At, Run, Next, Inv, Enabled;
      if Enabled(net, s, steps[i]) && steps[i] == Relay(k, d) {
        assert Relays(net, steps, i, k, d, e);
      } else {
        if Enabled(net, s, steps[i]) {
          LoopNext(net, s, steps[i], k, d);
        }
        LoopDelivers(net, steps, i + 1, k, d, e);
      }
    }
  }

  /** An offer to somebody else than the sender puts the frame into a queue that has room. */
  lemma OfferTaken(net: Net, s: State, d: nat, senderId: string, e: Entry)
    requires Shaped(net, s) && d < |net.home| && net.ids[d] != senderId
    ensures s.backlog[d] < 256 ==> e in Offered(net, s, d, senderId, e).got[d]
  {
    assert (s.got[d] + [e])[|s.got[d]|] == e;
  }

  lemma RelayTaken(net: Net, steps: seq<Step>, m: nat, k: nat, d: nat, e: Entry)
    requires Wf(net) && DistinctIds(net) && Relays(net, steps, m, k, d, e) && At(net, steps, m).backlog[d] < 256
    ensures d < |net.home| && Shaped(net, Run(net, steps)) && e in Run(net, steps).got[d]
  {
    var s := At(net, steps, m);
    AtNext(net, steps, m);
    OfferTaken(net, s.(loop := s.loop[k := Relaying(e.payload, e.tag, s.loop[k].todo - {d})]), d, "", e);
    NothingTakenBack(net, steps, m + 1, d);
    hide At, Run, Inv, Offered;
  }

  // ---------------------------------------------------------------- the laws

  /** Client d of node k was offered the frame after step j, and its queue was full. */
  ghost predicate FullAtRelay(net: Net, steps: seq<Step>, j: int, k: nat, d: nat, e: Entry)
    requires Wf(net)
  {
    exists m :: j < m && Relays(net, steps, m, k, d, e) && d < |At(net, steps, m).backlog| && At(net, steps, m).backlog[d] == 256
  }

  /** Step j takes the frame at node k, and each client of the board there gets it or has a full queue. */
  ghost predicate DeliveredAt(net: Net, steps: seq<Step>, j: int, k: nat, board: string, e: Entry)
    requires Wf(net)
  {
    && TakesFrame(net, steps, j, k, e.tag)
    && forall d :: d in At(net, steps, j).joined && d < |net.home| && net.home[d] == k && net.at[d] == board ==>
         (d < |Run(net, steps).got| && e in Run(net, steps).got[d]) || FullAtRelay(net, steps, j, k, d, e)
  }

  lemma ClientServed(net: Net, steps: seq<Step>, j: nat, k: nat, d: nat, e: Entry)
    requires Wf(net) && DistinctIds(net) && k < |net.nodeIds| && d < |net.home| && j <= |steps|
    requires LoopOwes(net, steps, j, k, d, e)
    requires Shaped(net, Run(net, steps)) && Run(net, steps).loop[k].Waiting?
    ensures e in Run(net, steps).got[d] || FullAtRelay(net, steps, j - 1, k, d, e)
  {
    LoopDelivers(net, steps, j, k, d, e);
    var m :| j <= m && Relays(net, steps, m, k, d, e);
    var s := At(net, steps, m);
    assert Shaped(net, s) && s.backlog[d] <= SEND_BUFFER;
    hide At, Run, Inv, Relays;
    if s.backlog[d] < 256 {
      RelayTaken(net, steps, m, k, d, e);
    }
  }

  /** The frame that a client has sent last. */
  function LastSent(s: Fanout.State, c: nat): Entry
    requires c < |s.sent| && s.sent[c] != []
  {
    Entry(s.sent[c][|s.sent[c]| - 1], Tag(c, |s.sent[c]| - 1))
  }

  /**
   * In every run that has come to rest: a frame published while another node was subscribed to its
   * board's channel is taken by that node's loop, and each client of the board that was joined
   * there at that moment has received it, unless its queue was full when it was offered.
   */
  lemma FrameReachesNode(net: Net, steps: seq<Step>, i: nat, c: nat, k: nat)
    requires Wf(net) && DistinctIds(net) && k < |net.nodeIds|
    requires Happens(net, steps, i, Publish(c, true)) && net.home[c] != k
    requires ChannelFor(net.at[c]) in At(net, steps, i).subs[k]
    requires Quiet(Run(net, steps)) && Shaped(net, Run(net, steps)) && Run(net, steps).inbox[k] == []
    ensures exists j :: i < j && DeliveredAt(net, steps, j, k, net.at[c], LastSent(At(net, steps, i), c))
  {
    var s := At(net, steps, i);
    var e := LastSent(s, c);
    assert Shaped(net, s) && c < |net.home| && e.tag == Tag(c, |s.sent[c]| - 1) && e.payload == s.sent[c][e.tag.n];
    PublishReaches(net, steps, i, c, k);
    hide At, Run, Inv, LastSent, Happens;
    InboxIsTaken(net, steps, i + 1, k, e.tag, |s.inbox[k]|);
    var j :| i + 1 <= j && TakesFrame(net, steps, j, k, e.tag);
    TakenIsDelivered(net, steps, i, j, k, e);
  }

  lemma TakenIsDelivered(net: Net, steps: seq<Step>, i: nat, j: nat, k: nat, e: Entry)
    requires Wf(net) && DistinctIds(net) && k < |net.nodeIds| && i <= |steps| && TakesFrame(net, steps, j, k, e.tag)
    requires e.tag.sender < |net.home| && net.home[e.tag.sender] != k
    requires Shaped(net, At(net, steps, i)) && e.tag.n < |At(net, steps, i).sent[e.tag.sender]|
    requires e.payload == At(net, steps, i).sent[e.tag.sender][e.tag.n]
    requires Quiet(Run(net, steps)) && Shaped(net, Run(net, steps))
    ensures DeliveredAt(net, steps, j, k, net.at[e.tag.sender], e)
  {
    assert Shaped(net, At(net, steps, j)) && j < |steps| && Run(net, steps).loop[k].Waiting?;
    hide At, Run, Inv, TakesFrame, LoopOwes, FullAtRelay, Quiet, DistinctIds;
    forall d | d in At(net, steps, j).joined && d < |net.home| && net.home[d] == k && net.at[d] == net.at[e.tag.sender]
      ensures e in Run(net, steps).got[d] || FullAtRelay(net, steps, j, k, d, e)
    {
      TakeOwes(net, steps, j, k, e.tag, d);
      SamePayload(net, steps, i, j, e.tag.sender, e.tag.n);
      ClientServed(net, steps, j + 1, k, d, e);
    }
  }

  lemma SamePayload(net: Net, steps: seq<Step>, i: nat, j: nat, c: nat, n: nat)
    requires Wf(net) && i <= |steps| && j <= |steps| && c < |net.home|
    requires Shaped(net, At(net, steps, i)) && n < |At(net, steps, i).sent[c]|
    requires Shaped(net, At(net, steps, j)) && n < |At(net, steps, j).sent[c]|
    ensures At(net, steps, j).sent[c][n] == At(net, steps, i).sent[c][n]
  {
    hide *;
    NothingTakenBack(net, steps, i, c);
    NothingTakenBack(net, steps, j, c);
  }

  // ---------------------------------------------------------------- on the sender's own node

  ghost predicate PumpOwes(net: Net, steps: seq<Step>, i: nat, c: nat, d: nat, e: Entry)
    requires Wf(net) && i <= |steps| && c < |net.home|
  {
    var s := At(net, steps, i);
    && |s.pump| == |s.sent| == |net.home| && s.pump[c].Delivering? && d in s.pump[c].todo
    && s.sent[c] != [] && LastSent(s, c) == e
  }

  /** In step m the sender's own read pump offers the frame to client d. */
  ghost predicate Offers(net: Net, steps: seq<Step>, m: int, c: nat, d: nat, e: Entry)
    requires Wf(net)
  {
    Happens(net, steps, m, Offer(c, d)) && LastSent(At(net, steps, m), c) == e
  }

  ghost predicate FullAtOffer(net: Net, steps: seq<Step>, i: int, c: nat, d: nat, e: Entry)
    requires Wf(net)
  {
    exists m :: i < m && Offers(net, steps, m, c, d, e) && d < |At(net, steps, m).backlog| && At(net, steps, m).backlog[d] == 256
  }

  lemma ReadOwes(net: Net, steps: seq<Step>, i: nat, c: nat, payload: string, d: nat)
    requires Wf(net) && Happens(net, steps, i, Read(c, payload))
    requires d in At(net, steps, i).joined && d < |net.home| && net.home[d] == net.home[c] && net.at[d] == net.at[c]
    ensures c < |net.home| && Shaped(net, At(net, steps, i))
    ensures PumpOwes(net, steps, i + 1, c, d, Entry(payload, Tag(c, |At(net, steps, i).sent[c]|)))
  {
    AtNext(net, steps, i);
    hide At, Inv, Aims;
  }

  lemma PumpNext(net: Net, s: State, step: Step, c: nat, d: nat)
    requires Shaped(net, s) && Enabled(net, s, step) && c < |net.home| && s.pump[c].Delivering? && d in s.pump[c].todo
    requires step != Offer(c, d)
    ensures var t := Next(net, s, step);
      |t.pump| == |s.pump| && |t.sent| == |s.sent| && t.pump[c].Delivering? && d in t.pump[c].todo && t.sent[c] == s.sent[c]
  {
    hide Incoming, Encode, Targets, Aims, Broadcast, Offered;
    match step
    case Offer(x, y) => OfferedElsewhere(net, s.(pump := s.pump[x := Delivering(s.pump[x].todo - {y})]), y, net.ids[x],
                                         Entry(s.sent[x][|s.sent[x]| - 1], Current(s, x)));
    case Relay(j, x) => OfferedElsewhere(net, s.(loop := s.loop[j := Relaying(s.loop[j].payload, s.loop[j].tag, s.loop[j].todo - {x})]),
                                         x, "", Entry(s.loop[j].payload, s.loop[j].tag));
    case _ =>
  }

  lemma {:induction false} PumpDelivers(net: Net, steps: seq<Step>, i: nat, c: nat, d: nat, e: Entry)
    requires Wf(net) && i <= |steps| && c < |net.home| && PumpOwes(net, steps, i, c, d, e)
    requires Shaped(net, Run(net, steps)) && !Run(net, steps).pump[c].Delivering?
    ensures exists m :: i <= m && Offers(net, steps, m, c, d, e)
    decreases |steps| - i
  {
    AtEnd(net, steps);
    var s := At(net, steps, i);
    if i == |steps| {
      assert false;
    } else {
      AtNext(net, steps, i);
      assert Shaped(net, s);
      hide At, Run, Next, Inv, Enabled;
      if Enabled(net, s, steps[i]) && steps[i] == Offer(c, d) {
        assert Offers(net, steps, i, c, d, e);
      } else {
        if Enabled(net, s, steps[i]) {
          PumpNext(net, s, steps[i], c, d);
        }
        PumpDelivers(net, steps, i + 1, c, d, e);
      }
    }
  }

  lemma OfferReceived(net: Net, steps: seq<Step>, m: nat, c: nat, d: nat, e: Entry)
    requires Wf(net) && DistinctIds(net) && Offers(net, steps, m, c, d, e) && c != d && At(net, steps, m).backlog[d] < 256
    ensures d < |net.home| && Shaped(net, Run(net, steps)) && e in Run(net, steps).got[d]
  {
    var s := At(net, steps, m);
    assert Shaped(net, s) && c < |net.home| && d < |net.home| && net.ids[c] != net.ids[d];
    AtNext(net, steps, m);
    assert At(net, steps, m + 1) == Next(net, s, Offer(c, d));
    OfferTaken(net, s.(pump := s.pump[c := Delivering(s.pump[c].todo - {d})]), d, net.ids[c], e);
    hide At, Run, Inv, Offered, DistinctIds, Happens, Enabled;
    assert e in At(net, steps, m + 1).got[d];
    hide Next;
    NothingTakenBack(net, steps, m + 1, d);
  }

  /**
   * In every run that has come to rest: each other client of the board that was joined at the
   * sender's node when the frame was read has received it, unless its queue was full at the offer.
   */
  lemma FrameReachesNeighbours(net: Net, steps: seq<Step>, i: nat, c: nat, payload: string, d: nat)
    requires Wf(net) && DistinctIds(net) && Happens(net, steps, i, Read(c, payload)) && Quiet(Run(net, steps))
    requires d in At(net, steps, i).joined && d < |net.home| && net.home[d] == net.home[c] && net.at[d] == net.at[c] && d != c
    ensures c < |net.home| && Shaped(net, At(net, steps, i)) && Shaped(net, Run(net, steps))
    ensures var e := Entry(payload, Tag(c, |At(net, steps, i).sent[c]|));
      e in Run(net, steps).got[d] || FullAtOffer(net, steps, i, c, d, e)
  {
    ReadOwes(net, steps, i, c, payload, d);
    var e := Entry(payload, Tag(c, |At(net, steps, i).sent[c]|));
    PumpDelivers(net, steps, i + 1, c, d, e);
    var m :| i + 1 <= m && Offers(net, steps, m, c, d, e);
    var s := At(net, steps, m);
    assert Shaped(net, s) && s.backlog[d] <= SEND_BUFFER;
    hide At, Run, Inv, Offers;
    if s.backlog[d] < 256 {
      OfferReceived(net, steps, m, c, d, e);
    }
  }

  // ---------------------------------------------------------------- drops

  /** In step m the frame is offered to client d, whose queue holds 256 entries. */
  ghost predicate MetFull(net: Net, steps: seq<Step>, m: int, a: Aim)
    requires Wf(net)
  {
    && 0 <= m < |steps| && Enabled(net, At(net, steps, m), steps[m])
    && a.d < |At(net, steps, m).backlog| && At(net, steps, m).backlog[a.d] == 256
    && match steps[m]
       case Offer(c, d) => d == a.d && LastSent(At(net, steps, m), c).tag == a.tag
       case Relay(k, d) => d == a.d && At(net, steps, m).loop[k].tag == a.tag
       case _ => false
  }

  lemma NextDrops(net: Net, s: State, step: Step, a: Aim)
    requires Inv(net, s) && Enabled(net, s, step) && a in Next(net, s, step).dropped && a !in s.dropped
    ensures a.d < |s.backlog| && s.backlog[a.d] == 256
    ensures match step
            case Offer(c, d) => d == a.d && LastSent(s, c).tag == a.tag
            case Relay(k, d) => d == a.d && s.loop[k].tag == a.tag
            case _ => false
  {
    hide Incoming, Encode, Targets, Aims, Broadcast;
  }

  lemma NothingDroppedAtFirst(net: Net, steps: seq<Step>)
    requires Wf(net)
    ensures At(net, steps, 0).dropped == {}
  {
    assert steps[..0] == [];
  }

  /** A frame is dropped only at an offer to a client whose queue is full. */
  lemma {:induction false} DroppedOnlyWhenFull(net: Net, steps: seq<Step>, i: nat, a: Aim)
    requires Wf(net) && i <= |steps| && a in At(net, steps, i).dropped
    ensures exists m :: MetFull(net, steps, m, a)
  {
    NothingDroppedAtFirst(net, steps);
    if i > 0 {
      var s := At(net, steps, i - 1);
      assert Shaped(net, s);
      hide At, Run, Next, Inv, Enabled;
      AtNext(net, steps, i - 1);
      if a in s.dropped {
        DroppedOnlyWhenFull(net, steps, i - 1, a);
      } else {
        NextDrops(net, s, steps[i - 1], a);
        assert MetFull(net, steps, i - 1, a);
      }
    }
  }
}
