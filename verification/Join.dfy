/**
 * A client joins one board of one node while others keep sending: the join order (add, hello,
 * Catchup, replay) against deliveries and records that interleave with it in any way.
 */
module Join {
  import opened Wrappers
  import opened Protocol
  import opened Framing
  import Scene

  // What happened to another client's frame when it was delivered: the joiner was not yet added,
  // it entered the joiner's queue, or the queue was full.
  datatype Fate = Undelivered | Missed | Queued | Dropped

  datatype Item = Hello | Live(o: nat) | Replay(o: nat)

  // Where ServeWS stands for the joiner; `rest` is the part of Catchup's answer still to be sent.
  datatype Phase = Before | Added | Greeted | Replaying(rest: seq<nat>)

  // Frames are numbered as they are read; `log` is what the recorder keeps. `recorded` (all
  // frames handed to the recorder, in order), `cut` (how many of them when Catchup ran) and `got`
  // (all that entered the joiner's queue) are history.
  datatype State = State(frames: seq<Msg>, fate: seq<Fate>, log: seq<nat>, phase: Phase, backlog: nat,
                         recorded: seq<nat>, cut: nat, got: seq<Item>)

  datatype Step =
    | Read(m: Msg)      // another client's read pump takes a frame off its socket
    | Deliver(o: nat)
    | Record(o: nat)
    | Enter   // add: the joiner is in the hub's registry
    | Greet
    | Catchup
    | Push
    | Drain

  predicate Enabled(s: State, step: Step) {
    match step
    case Read(_) => true
    case Deliver(o) => o < |s.fate| && s.fate[o] == Undelivered
    case Record(o) => o < |s.fate| == |s.frames| && s.fate[o] != Undelivered && o !in s.recorded
    case Enter => s.phase == Before
    case Greet => s.phase == Added && s.backlog < SEND_BUFFER
    case Catchup => s.phase == Greeted
    case Push => s.phase.Replaying? && s.phase.rest != [] && s.backlog < SEND_BUFFER
    case Drain => s.backlog > 0
  }

  function Kept(frames: seq<Msg>, log: seq<nat>, o: nat): seq<nat>
    requires o < |frames|
  {
    if Scene.Durable(frames[o]) then log + [o] else if frames[o].Clear? then [] else log
  }

  function Next(s: State, step: Step): State
    requires Enabled(s, step)
  {
    match step
    case Read(m) => s.(frames := s.frames + [m], fate := s.fate + [Undelivered])
    case Deliver(o) =>
      if s.phase == Before then s.(fate := s.fate[o := Missed])
      else if s.backlog < SEND_BUFFER then
        s.(fate := s.fate[o := Queued], got := s.got + [Live(o)], backlog := s.backlog + 1)
      else s.(fate := s.fate[o := Dropped])
    case Record(o) => s.(recorded := s.recorded + [o], log := Kept(s.frames, s.log, o))
    case Enter => s.(phase := Added)
    case Greet => s.(phase := Greeted, got := s.got + [Hello], backlog := s.backlog + 1)
    case Catchup => s.(phase := Replaying(s.log), cut := |s.recorded|)
    case Push =>
      s.(phase := Replaying(s.phase.rest[1..]), got := s.got + [Replay(s.phase.rest[0])], backlog := s.backlog + 1)
    case Drain => s.(backlog := s.backlog - 1)
  }

  const START := State([], [], [], Before, 0, [], 0, [])

  // ---------------------------------------------------------------- the log

  predicate Within(frames: seq<Msg>, recorded: seq<nat>) {
    forall i :: 0 <= i < |recorded| ==> recorded[i] < |frames|
  }

  /** What is left of the recorded frames. */
  function LogOf(frames: seq<Msg>, recorded: seq<nat>): seq<nat>
    requires Within(frames, recorded)
  {
    if recorded == [] then []
    else Kept(frames, LogOf(frames, recorded[..|recorded| - 1]), recorded[|recorded| - 1])
  }

  /** Frame o was the i-th one recorded, and no clear was recorded after it. */
  predicate Survives(frames: seq<Msg>, recorded: seq<nat>, o: nat, i: int)
    requires Within(frames, recorded)
  {
    0 <= i < |recorded| && recorded[i] == o && forall j :: i < j < |recorded| ==> !frames[recorded[j]].Clear?
  }

  lemma {:induction false} LogHoldsSurvivors(frames: seq<Msg>, recorded: seq<nat>, o: nat)
    requires Within(frames, recorded) && o < |frames| && Scene.Durable(frames[o])
    ensures o in LogOf(frames, recorded) <==> exists i :: Survives(frames, recorded, o, i)
  {
    if recorded != [] {
      var n := |recorded| - 1;
      var front, last := recorded[..n], recorded[n];
      LogHoldsSurvivors(frames, front, o);
      forall i { SurvivesOneMore(frames, recorded, o, i); }
      if last == o {
        assert Survives(frames, recorded, o, n);
      } else if i :| Survives(frames, front, o, i) && !frames[last].Clear? {
        assert Survives(frames, recorded, o, i);
      }
    }
  }

  lemma SurvivesOneMore(frames: seq<Msg>, recorded: seq<nat>, o: nat, i: int)
    requires Within(frames, recorded) && recorded != []
    ensures var n := |recorded| - 1;
      Survives(frames, recorded, o, i)
      <==> (i == n && recorded[n] == o) || (Survives(frames, recorded[..n], o, i) && !frames[recorded[n]].Clear?)
  {
    var n := |recorded| - 1;
    if Survives(frames, recorded[..n], o, i) && !frames[recorded[n]].Clear? {
      forall j | i < j < |recorded| ensures !frames[recorded[j]].Clear? {
        assert j < n ==> recorded[..n][j] == recorded[j];
      }
    }
  }

  lemma {:induction false} LogOfMoreFrames(frames: seq<Msg>, m: Msg, recorded: seq<nat>)
    requires Within(frames, recorded)
    ensures LogOf(frames + [m], recorded) == LogOf(frames, recorded)
  {
    if recorded != [] {
      LogOfMoreFrames(frames, m, recorded[..|recorded| - 1]);
    }
  }

  /** The frames behind the numbers. */
  function Msgs(frames: seq<Msg>, os: seq<nat>): (r: seq<Msg>)
    requires Within(frames, os)
    ensures |r| == |os|
  {
    seq(|os|, i requires 0 <= i < |os| => frames[os[i]])
  }

  /** The log is the recorder's own log of the recorded frames. */
  lemma {:induction false} LogIsRetained(frames: seq<Msg>, recorded: seq<nat>)
    requires Within(frames, recorded)
    ensures Within(frames, LogOf(frames, recorded))
    ensures Msgs(frames, LogOf(frames, recorded)) == Scene.Retained(Msgs(frames, recorded))
  {
    if recorded != [] {
      var front, o := recorded[..|recorded| - 1], recorded[|recorded| - 1];
      LogIsRetained(frames, front);
      assert Msgs(frames, recorded) == Msgs(frames, front) + [frames[o]];
      assert Msgs(frames, recorded)[..|front|] == Msgs(frames, front);
      var log := LogOf(frames, front);
      assert Msgs(frames, log + [o]) == Msgs(frames, log) + [frames[o]];
    }
  }

  // ---------------------------------------------------------------- the invariant

  /** The replayed part of the queue's history. */
  function Replayed(got: seq<Item>): seq<nat> {
    if got == [] then []
    else
      var before, last := Replayed(got[..|got| - 1]), got[|got| - 1];
      if last.Replay? then before + [last.o] else before
  }

  lemma ReplayedSnoc(got: seq<Item>, item: Item)
    ensures Replayed(got + [item]) == Replayed(got) + if item.Replay? then [item.o] else []
  {
    assert (got + [item])[..|got|] == got;
  }

  predicate Bounds(s: State) {
    |s.fate| == |s.frames| && s.cut <= |s.recorded| && Within(s.frames, s.recorded) && s.backlog <= SEND_BUFFER
  }

  /** The frames recorded when Catchup ran. */
  function AtCatchup(s: State): (r: seq<nat>)
    requires Bounds(s)
    ensures Within(s.frames, r)
  {
    s.recorded[..s.cut]
  }

  predicate LogInv(s: State)
    requires Bounds(s)
  {
    s.log == LogOf(s.frames, s.recorded)
  }

  predicate LiveInv(s: State)
    requires Bounds(s)
  {
    && (forall o :: 0 <= o < |s.fate| ==> (s.fate[o] == Queued <==> Live(o) in s.got))
    && (forall x :: x in s.got && x.Live? ==> x.o < |s.fate|)
  }

  predicate ReplayInv(s: State)
    requires Bounds(s)
  {
    if s.phase.Replaying? then Replayed(s.got) + s.phase.rest == LogOf(s.frames, AtCatchup(s))
    else Replayed(s.got) == []
  }

  predicate Inv(s: State) {
    Bounds(s) && LogInv(s) && LiveInv(s) && ReplayInv(s)
  }

  lemma StepLogInv(s: State, step: Step)
    requires Inv(s) && Enabled(s, step)
    ensures Bounds(Next(s, step)) && LogInv(Next(s, step))
  {
    match step {
      case Read(m) => LogOfMoreFrames(s.frames, m, s.recorded);
      case Record(o) => assert (s.recorded + [o])[..|s.recorded|] == s.recorded;
      case _ =>
    }
  }

  lemma StepLiveInv(s: State, step: Step)
    requires Inv(s) && Enabled(s, step) && Bounds(Next(s, step))
    ensures LiveInv(Next(s, step))
  {
    hide LogOf, Replayed, Kept;
  }

  lemma StepReplayInv(s: State, step: Step)
    requires Inv(s) && Enabled(s, step) && Bounds(Next(s, step))
    ensures ReplayInv(Next(s, step))
  {
    var t := Next(s, step);
    hide LogOf, Replayed, Kept;
    match step {
      case Read(m) => LogOfMoreFrames(s.frames, m, AtCatchup(s));
      case Deliver(o) => ReplayedSnoc(s.got, Live(o));
      case Record(o) => assert AtCatchup(t) == AtCatchup(s);
      case Greet => ReplayedSnoc(s.got, Hello);
      case Catchup => assert AtCatchup(t) == s.recorded;
      case Push => ReplayedSnoc(s.got, Replay(s.phase.rest[0]));
      case _ =>
    }
  }

  lemma StepInv(s: State, step: Step)
    requires Inv(s) && Enabled(s, step)
    ensures Inv(Next(s, step))
  {
    StepLogInv(s, step);
    StepLiveInv(s, step);
    StepReplayInv(s, step);
  }

  // ---------------------------------------------------------------- whole runs

  /** The state a run reaches; a step that is not enabled changes nothing. */
  function Run(steps: seq<Step>): (s: State)
    ensures Inv(s)
  {
    if steps == [] then START
    else
      var before, last := Run(steps[..|steps| - 1]), steps[|steps| - 1];
      if Enabled(before, last) then
        StepInv(before, last);
        Next(before, last)
      else before
  }

  lemma RunNext(steps: seq<Step>, i: nat)
    requires i < |steps|
    ensures var s := Run(steps[..i]); Run(steps[..i + 1]) == if Enabled(s, steps[i]) then Next(s, steps[i]) else s
  {
    assert steps[..i + 1][..i] == steps[..i];
    hide Next, Enabled, Inv;
  }

  lemma FateKept(s: State, step: Step, o: nat)
    requires Inv(s) && Enabled(s, step) && o < |s.fate| && s.fate[o] != Undelivered
    ensures o < |Next(s, step).fate| && Next(s, step).fate[o] == s.fate[o]
  {
  }

  lemma {:induction false} FateStays(steps: seq<Step>, i: nat, o: nat)
    requires i <= |steps| && o < |Run(steps[..i]).fate| && Run(steps[..i]).fate[o] != Undelivered
    ensures o < |Run(steps).fate| && Run(steps).fate[o] == Run(steps[..i]).fate[o]
    decreases |steps| - i
  {
    if i == |steps| {
      assert steps[..i] == steps;
    } else {
      RunNext(steps, i);
      var s := Run(steps[..i]);
      hide Run, Next, Enabled, Inv;
      if Enabled(s, steps[i]) {
        assert Inv(s) by { RunInv(steps[..i]); }
        FateKept(s, steps[i], o);
      }
      FateStays(steps, i + 1, o);
    }
  }

  lemma RunInv(steps: seq<Step>)
    ensures Inv(Run(steps))
  {
  }

  /** A delivery misses a client not yet added, and is dropped only at a queue of 256 entries. */
  lemma DeliveryDecides(steps: seq<Step>, i: nat, o: nat)
    requires i < |steps| && steps[i] == Deliver(o) && Enabled(Run(steps[..i]), Deliver(o))
    ensures var s := Run(steps[..i]);
      && o < |Run(steps).fate|
      && Run(steps).fate[o] == if s.phase.Before? then Missed else if s.backlog < 256 then Queued else Dropped
  {
    RunNext(steps, i);
    var s := Run(steps[..i]);
    assert Run(steps[..i + 1]) == Next(s, Deliver(o));
    assert o < |Next(s, Deliver(o)).fate|
        && Next(s, Deliver(o)).fate[o] == if s.phase.Before? then Missed else if s.backlog < 256 then Queued else Dropped;
    hide Run, Next, Enabled, Inv;
    FateStays(steps, i + 1, o);
  }

  predicate Joined(s: State) {
    s.phase == Replaying([])
  }

  predicate Reached(s: State, o: nat) {
    Live(o) in s.got || Replay(o) in s.got
  }

  lemma {:induction false} ReplayedItems(got: seq<Item>, o: nat)
    ensures o in Replayed(got) <==> Replay(o) in got
  {
    if got != [] {
      var front, last := got[..|got| - 1], got[|got| - 1];
      ReplayedItems(front, o);
      assert got == front + [last];
    }
  }

  /**
   * Once a join is complete, another client's delivered durable frame is missing from the
   * joiner's queue exactly if it was delivered too early or dropped at a full queue, and also was
   * recorded only after Catchup or wiped by a clear recorded before it.
   */
  lemma JoinCompleteness(steps: seq<Step>, o: nat)
    requires Joined(Run(steps)) && o < |Run(steps).frames| && Scene.Durable(Run(steps).frames[o])
    requires Run(steps).fate[o] != Undelivered
    ensures var s := Run(steps);
      !Reached(s, o)
      <==> (s.fate[o] == Missed || s.fate[o] == Dropped)
           && !exists i :: Survives(s.frames, AtCatchup(s), o, i)
  {
    var s := Run(steps);
    assert Replayed(s.got) + [] == Replayed(s.got);
    ReplayedItems(s.got, o);
    LogHoldsSurvivors(s.frames, AtCatchup(s), o);
  }

  /** What was replayed is the board as recorded when Catchup ran. */
  lemma ReplayDrawsBoard(steps: seq<Step>)
    requires Joined(Run(steps))
    ensures var s := Run(steps);
      && Within(s.frames, Replayed(s.got))
      && Scene.Fold([], Msgs(s.frames, Replayed(s.got))) == Scene.Fold([], Msgs(s.frames, AtCatchup(s)))
  {
    var s := Run(steps);
    assert Replayed(s.got) + [] == Replayed(s.got);
    LogIsRetained(s.frames, AtCatchup(s));
    Scene.TruncationPreservesScene(Msgs(s.frames, AtCatchup(s)));
  }

  // ---------------------------------------------------------------- complete is not yet in order

  /** The frames' numbers in the order the joiner handles them. */
  function Numbers(got: seq<Item>): seq<nat> {
    if got == [] then []
    else
      var before, last := Numbers(got[..|got| - 1]), got[|got| - 1];
      if last.Hello? then before else before + [last.o]
  }

  /** The live part of the queue's history. */
  function Lives(got: seq<Item>): seq<nat> {
    if got == [] then []
    else
      var before, last := Lives(got[..|got| - 1]), got[|got| - 1];
      if last.Live? then before + [last.o] else before
  }

  /** Every numbered item names a frame. */
  predicate Named(frames: seq<Msg>, got: seq<Item>) {
    forall i :: 0 <= i < |got| && !got[i].Hello? ==> got[i].o < |frames|
  }

  lemma {:induction false} NamedParts(frames: seq<Msg>, got: seq<Item>)
    requires Named(frames, got)
    ensures Within(frames, Numbers(got)) && Within(frames, Lives(got)) && Within(frames, Replayed(got))
  {
    if got != [] {
      NamedParts(frames, got[..|got| - 1]);
    }
  }

  lemma ReachableNamed(s: State)
    requires Inv(s)
    ensures Named(s.frames, s.got)
  {
    LogIsRetained(s.frames, AtCatchup(s));
    forall i | 0 <= i < |s.got| && !s.got[i].Hello? ensures s.got[i].o < |s.frames| {
      var x := s.got[i];
      assert x in s.got;
      if x.Replay? {
        ReplayedItems(s.got, x.o);
        var log, k :| log == LogOf(s.frames, AtCatchup(s)) && 0 <= k < |Replayed(s.got)| && Replayed(s.got)[k] == x.o;
        assert s.phase.Replaying? && (Replayed(s.got) + s.phase.rest)[k] == log[k];
      }
    }
  }

  /** What the joiner handles, in order. */
  function Handled(frames: seq<Msg>, got: seq<Item>): seq<Msg>
    requires Named(frames, got)
  {
    NamedParts(frames, got);
    Msgs(frames, Numbers(got))
  }

  /** The last of the numbered frames that concerns an id: adds it, erases it, or clears the board. */
  function LastOf(frames: seq<Msg>, os: seq<nat>, id: string): (o: Option<nat>)
    requires Within(frames, os)
    ensures o.Some? ==> o.value < |frames|
  {
    if os == [] then None
    else
      var last := os[|os| - 1];
      if Scene.EffectOn(frames[last], id).Some? then Some(last) else LastOf(frames, os[..|os| - 1], id)
  }

  /** What one frame leaves of an id. */
  function Shown(frames: seq<Msg>, o: Option<nat>, id: string): Option<SceneObject>
    requires o.Some? ==> o.value < |frames|
  {
    match o
    case None => None
    case Some(k) =>
      match Scene.EffectOn(frames[k], id)
      case Some(Put(obj)) => Some(obj)
      case _ => None
  }

  lemma {:induction false} LastDecides(frames: seq<Msg>, os: seq<nat>, id: string)
    requires Within(frames, os)
    ensures Scene.Find(Scene.Fold([], Msgs(frames, os)), id) == Shown(frames, LastOf(frames, os, id), id)
  {
    if os != [] {
      var front, last := os[..|os| - 1], os[|os| - 1];
      LastDecides(frames, front, id);
      assert Msgs(frames, os) == Msgs(frames, front) + [frames[last]];
      Scene.FoldSnoc([], Msgs(frames, front), frames[last]);
      Scene.FindApply(Scene.Fold([], Msgs(frames, front)), frames[last], id);
    }
  }

  /** The last frame about an id leaves the same of it in both orders. */
  predicate LeftAlike(frames: seq<Msg>, a: seq<nat>, b: seq<nat>, id: string)
    requires Within(frames, a) && Within(frames, b)
  {
    Shown(frames, LastOf(frames, a, id), id) == Shown(frames, LastOf(frames, b, id), id)
  }

  lemma SameBoard(frames: seq<Msg>, a: seq<nat>, b: seq<nat>)
    requires Within(frames, a) && Within(frames, b)
    ensures Scene.AsMap(Scene.Fold([], Msgs(frames, a))) == Scene.AsMap(Scene.Fold([], Msgs(frames, b)))
        <==> forall id :: LeftAlike(frames, a, b, id)
  {
    var x, y := Scene.Fold([], Msgs(frames, a)), Scene.Fold([], Msgs(frames, b));
    forall id ensures Scene.Find(x, id) == Scene.Find(y, id) <==> LeftAlike(frames, a, b, id) {
      LastDecides(frames, a, id);
      LastDecides(frames, b, id);
    }
    Scene.MapsAgree(x, y);
  }

  /**
   * In every reachable state the joiner shows the board as it is recorded, which is what every
   * later joiner gets, if and only if for each id the last item about it in the joiner's queue
   * leaves the same of it as the last recorded frame about it.
   */
  lemma JoinDrawsRecorded(steps: seq<Step>)
    ensures var s := Run(steps);
      && Named(s.frames, s.got) && Within(s.frames, Numbers(s.got)) && Within(s.frames, s.recorded)
      && (Scene.AsMap(Scene.Fold([], Handled(s.frames, s.got))) == Scene.AsMap(Scene.Fold([], Msgs(s.frames, s.recorded)))
          <==> forall id :: LeftAlike(s.frames, Numbers(s.got), s.recorded, id))
  {
    var s := Run(steps);
    ReachableNamed(s);
    hide Run, LogInv, LiveInv, ReplayInv, LeftAlike, Numbers, Named, Scene.Fold, Scene.AsMap;
    NamedParts(s.frames, s.got);
    SameBoard(s.frames, Numbers(s.got), s.recorded);
  }

  /** The last item about an id is a replayed one. */
  predicate ReplayedLast(frames: seq<Msg>, got: seq<Item>, id: string)
    requires Named(frames, got)
  {
    got != [] &&
    var last := got[|got| - 1];
    if !last.Hello? && Scene.EffectOn(frames[last.o], id).Some? then last.Replay?
    else ReplayedLast(frames, got[..|got| - 1], id)
  }

  lemma {:induction false} LastByKind(frames: seq<Msg>, got: seq<Item>, id: string)
    requires Named(frames, got)
    ensures Within(frames, Numbers(got)) && Within(frames, Lives(got)) && Within(frames, Replayed(got))
    ensures var live, replayed := LastOf(frames, Lives(got), id), LastOf(frames, Replayed(got), id);
      && LastOf(frames, Numbers(got), id) == (if ReplayedLast(frames, got, id) then replayed else live)
      && (replayed.Some? && live.None? ==> ReplayedLast(frames, got, id))
  {
    NamedParts(frames, got);
    if got != [] {
      var front, last := got[..|got| - 1], got[|got| - 1];
      LastByKind(frames, front, id);
      if last.Hello? {
      } else if last.Live? {
        LastSnoc(frames, Lives(front), last.o, id);
        LastSnoc(frames, Numbers(front), last.o, id);
      } else {
        LastSnoc(frames, Replayed(front), last.o, id);
        LastSnoc(frames, Numbers(front), last.o, id);
      }
    }
  }

  lemma LastSnoc(frames: seq<Msg>, os: seq<nat>, o: nat, id: string)
    requires Within(frames, os) && Within(frames, os + [o])
    ensures o < |frames|
    ensures LastOf(frames, os + [o], id)
         == if Scene.EffectOn(frames[o], id).Some? then Some(o) else LastOf(frames, os, id)
  {
    assert (os + [o])[|os|] == o && (os + [o])[..|os|] == os;
  }

  /** An id with a live item that a replayed one overtook. */
  predicate Overtaken(frames: seq<Msg>, got: seq<Item>, id: string)
    requires Named(frames, got) && Within(frames, Lives(got))
  {
    ReplayedLast(frames, got, id) && LastOf(frames, Lives(got), id).Some?
  }

  /** The replay leaves of every id what the frames recorded at Catchup leave of it. */
  lemma ReplayLeavesCatchup(steps: seq<Step>, id: string)
    requires Joined(Run(steps))
    ensures var s := Run(steps);
      && Within(s.frames, Replayed(s.got))
      && LeftAlike(s.frames, Replayed(s.got), AtCatchup(s), id)
  {
    var s := Run(steps);
    ReplayDrawsBoard(steps);
    LastDecides(s.frames, Replayed(s.got), id);
    LastDecides(s.frames, AtCatchup(s), id);
  }

  lemma {:induction false} LastOfConcat(frames: seq<Msg>, a: seq<nat>, b: seq<nat>, id: string)
    requires Within(frames, a) && Within(frames, b)
    ensures Within(frames, a + b)
    ensures LastOf(frames, a + b, id)
         == if LastOf(frames, b, id).Some? then LastOf(frames, b, id) else LastOf(frames, a, id)
  {
    if b == [] {
      assert a + b == a;
    } else {
      assert (a + b)[..|a + b| - 1] == a + b[..|b| - 1];
      LastOfConcat(frames, a, b[..|b| - 1], id);
    }
  }

  /**
   * A complete join draws what the frames recorded at Catchup, followed by the live ones, draw, if
   * and only if every id whose last live item a replayed one overtook is left alike by the two.
   */
  lemma OvertakingExactly(steps: seq<Step>)
    requires Joined(Run(steps))
    ensures var s := Run(steps);
      && Named(s.frames, s.got) && Within(s.frames, Lives(s.got)) && Within(s.frames, Replayed(s.got))
      && Within(s.frames, AtCatchup(s) + Lives(s.got))
      && (Scene.AsMap(Scene.Fold([], Handled(s.frames, s.got)))
          == Scene.AsMap(Scene.Fold([], Msgs(s.frames, AtCatchup(s) + Lives(s.got))))
          <==> forall id :: Overtaken(s.frames, s.got, id) ==> LeftAlike(s.frames, Replayed(s.got), Lives(s.got), id))
  {
    var s := Run(steps);
    ReachableNamed(s);
    NamedParts(s.frames, s.got);
    var numbers, lives, cut := Numbers(s.got), Lives(s.got), AtCatchup(s);
    LastOfConcat(s.frames, cut, lives, "");
    SameBoard(s.frames, numbers, cut + lives);
    forall id ensures LeftAlike(s.frames, numbers, cut + lives, id)
        <==> (Overtaken(s.frames, s.got, id) ==> LeftAlike(s.frames, Replayed(s.got), lives, id))
    {
      OvertakenOne(steps, id);
    }
  }

  lemma OvertakenOne(steps: seq<Step>, id: string)
    requires Joined(Run(steps))
    ensures var s := Run(steps);
      && Named(s.frames, s.got) && Within(s.frames, Numbers(s.got)) && Within(s.frames, Lives(s.got))
      && Within(s.frames, Replayed(s.got)) && Within(s.frames, AtCatchup(s) + Lives(s.got))
      && (LeftAlike(s.frames, Numbers(s.got), AtCatchup(s) + Lives(s.got), id)
          <==> (Overtaken(s.frames, s.got, id) ==> LeftAlike(s.frames, Replayed(s.got), Lives(s.got), id)))
  {
    var s := Run(steps);
    ReachableNamed(s);
    LastByKind(s.frames, s.got, id);
    LastOfConcat(s.frames, AtCatchup(s), Lives(s.got), id);
    ReplayLeavesCatchup(steps, id);
    hide Run, Inv, LastOf, ReplayedLast, Numbers, Lives, Replayed;
  }

  /** The frames recorded since Catchup ran. */
  function SinceCatchup(s: State): (r: seq<nat>)
    requires Bounds(s)
    ensures Within(s.frames, r) && s.recorded == AtCatchup(s) + r
  {
    s.recorded[s.cut..]
  }

  /** The last item about an id in the joiner's queue is a live one. */
  predicate LiveLast(frames: seq<Msg>, got: seq<Item>, id: string)
    requires Named(frames, got) && Within(frames, Lives(got))
  {
    !ReplayedLast(frames, got, id) && LastOf(frames, Lives(got), id).Some?
  }

  /**
   * A complete join, id by id, in the protocol's terms. If the last item about the id is live, the
   * joiner shows it as recorded exactly if that frame, or one that leaves the same, is also the
   * last one recorded. If the last item is a replayed one, or there is none, exactly if no frame
   * recorded since Catchup has changed the id: such a frame was overtaken by the replay, or lost.
   */
  lemma JoinByItem(steps: seq<Step>, id: string)
    requires Joined(Run(steps))
    ensures var s := Run(steps);
      && Named(s.frames, s.got) && Within(s.frames, Numbers(s.got)) && Within(s.frames, Lives(s.got))
      && (LeftAlike(s.frames, Numbers(s.got), s.recorded, id)
          <==> if LiveLast(s.frames, s.got, id) then LeftAlike(s.frames, Lives(s.got), s.recorded, id)
               else LastOf(s.frames, SinceCatchup(s), id).Some? ==> LeftAlike(s.frames, AtCatchup(s), SinceCatchup(s), id))
  {
    var s := Run(steps);
    ReachableNamed(s);
    LastByKind(s.frames, s.got, id);
    LastOfConcat(s.frames, AtCatchup(s), SinceCatchup(s), id);
    ReplayLeavesCatchup(steps, id);
    hide Run, Inv, LastOf, ReplayedLast, Numbers, Lives, Replayed;
  }

  /** What the replay brings about an id is the last frame about it at Catchup, unless that was a clear. */
  lemma {:induction false} LogLast(frames: seq<Msg>, recorded: seq<nat>, id: string)
    requires Within(frames, recorded)
    ensures Within(frames, LogOf(frames, recorded))
    ensures var o := LastOf(frames, recorded, id);
      LastOf(frames, LogOf(frames, recorded), id) == if o.Some? && frames[o.value].Clear? then None else o
  {
    LogIsRetained(frames, recorded);
    if recorded != [] {
      var front, last := recorded[..|recorded| - 1], recorded[|recorded| - 1];
      LogLast(frames, front, id);
      LogIsRetained(frames, front);
      if Scene.Durable(frames[last]) {
        LastSnoc(frames, LogOf(frames, front), last, id);
      }
    }
  }

  /** A replayed frame in the last place is the last frame about its id that was recorded at Catchup. */
  lemma LastReplayed(steps: seq<Step>, id: string)
    requires Joined(Run(steps)) && Named(Run(steps).frames, Run(steps).got)
    requires ReplayedLast(Run(steps).frames, Run(steps).got, id)
    ensures var s := Run(steps);
      && Within(s.frames, Numbers(s.got)) && LastOf(s.frames, Numbers(s.got), id).Some?
      && LastOf(s.frames, Numbers(s.got), id) == LastOf(s.frames, AtCatchup(s), id)
  {
    var s := Run(steps);
    LastByKind(s.frames, s.got, id);
    assert Replayed(s.got) + [] == Replayed(s.got) == LogOf(s.frames, AtCatchup(s));
    LogLast(s.frames, AtCatchup(s), id);
    ReplayedIsSome(s.frames, s.got, id);
    hide Run, LogOf, LastOf, ReplayedLast, Numbers, Lives, Replayed;
  }

  lemma {:induction false} ReplayedIsSome(frames: seq<Msg>, got: seq<Item>, id: string)
    requires Named(frames, got) && ReplayedLast(frames, got, id)
    ensures Within(frames, Replayed(got)) && LastOf(frames, Replayed(got), id).Some?
  {
    NamedParts(frames, got);
    var last := got[|got| - 1];
    if last.Hello? || Scene.EffectOn(frames[last.o], id).None? {
      ReplayedIsSome(frames, got[..|got| - 1], id);
      if last.Replay? {
        NamedParts(frames, got[..|got| - 1]);
        LastSnoc(frames, Replayed(got[..|got| - 1]), last.o, id);
      }
    }
  }

  /** No live frame entered the queue before the end of the replay. */
  predicate ReplaysFirst(got: seq<Item>) {
    forall i, j :: 0 <= i < j < |got| && got[i].Live? ==> !got[j].Replay?
  }

  lemma {:induction false} NothingOvertaken(frames: seq<Msg>, got: seq<Item>, id: string)
    requires Named(frames, got) && ReplaysFirst(got) && Within(frames, Lives(got))
    ensures !Overtaken(frames, got, id)
  {
    if got != [] {
      var front, last := got[..|got| - 1], got[|got| - 1];
      NamedParts(frames, front);
      NothingOvertaken(frames, front, id);
      if last.Replay? {
        NoLives(front);
      } else if last.Live? {
        LastSnoc(frames, Lives(front), last.o, id);
      }
    }
  }

  lemma {:induction false} NoLives(got: seq<Item>)
    requires forall i :: 0 <= i < |got| ==> !got[i].Live?
    ensures Lives(got) == []
  {
    if got != [] {
      NoLives(got[..|got| - 1]);
    }
  }

  /** In particular nothing is overtaken if no live frame enters the queue before the end of the replay. */
  lemma QuietJoin(steps: seq<Step>)
    requires Joined(Run(steps)) && ReplaysFirst(Run(steps).got)
    ensures var s := Run(steps);
      && Named(s.frames, s.got) && Within(s.frames, AtCatchup(s) + Lives(s.got))
      && Scene.AsMap(Scene.Fold([], Handled(s.frames, s.got)))
         == Scene.AsMap(Scene.Fold([], Msgs(s.frames, AtCatchup(s) + Lives(s.got))))
  {
    var s := Run(steps);
    OvertakingExactly(steps);
    forall id ensures !Overtaken(s.frames, s.got, id) {
      NothingOvertaken(s.frames, s.got, id);
    }
  }

  lemma Advance(steps: seq<Step>, s: State, step: Step) returns (more: seq<Step>)
    requires Run(steps) == s && Enabled(s, step)
    ensures more == steps + [step] && Run(more) == Next(s, step)
  {
    more := steps + [step];
    assert more[..|steps|] == steps;
  }

  // An object is drawn before the joiner is added.
  lemma DrawnUnrecorded(obj: SceneObject) returns (steps: seq<Step>)
    ensures Run(steps) == State([Add(obj)], [Missed], [], Before, 0, [], 0, [])
  {
    var m := Add(obj);
    steps := [];
    assert Run(steps) == START;
    hide Run, Inv, Kept;
    steps := Advance(steps, START, Read(m));
    steps := Advance(steps, State([m], [Undelivered], [], Before, 0, [], 0, []), Deliver(0));
  }

  lemma Drawn(obj: SceneObject) returns (steps: seq<Step>)
    ensures Run(steps) == State([Add(obj)], [Missed], [0], Before, 0, [0], 0, [])
  {
    hide Run, Inv;
    steps := DrawnUnrecorded(obj);
    steps := Advance(steps, State([Add(obj)], [Missed], [], Before, 0, [], 0, []), Record(0));
  }

  // The joiner is added, greeted and has called Catchup.
  lemma CaughtUp(obj: SceneObject) returns (steps: seq<Step>)
    ensures Run(steps) == State([Add(obj)], [Missed], [0], Replaying([0]), 1, [0], 1, [Hello])
  {
    var m := Add(obj);
    hide Run, Inv;
    steps := Drawn(obj);
    steps := Advance(steps, State([m], [Missed], [0], Before, 0, [0], 0, []), Enter);
    steps := Advance(steps, State([m], [Missed], [0], Added, 0, [0], 0, []), Greet);
    steps := Advance(steps, State([m], [Missed], [0], Greeted, 1, [0], 0, [Hello]), Catchup);
  }

  // The object is erased, live, before the replay is sent.
  lemma ErasedLive(obj: SceneObject) returns (steps: seq<Step>)
    ensures Run(steps)
         == State([Add(obj), Erase([obj.id])], [Missed, Queued], [0], Replaying([0]), 2, [0], 1, [Hello, Live(1)])
  {
    var m, e := Add(obj), Erase([obj.id]);
    hide Run, Inv;
    steps := CaughtUp(obj);
    steps := Advance(steps, State([m], [Missed], [0], Replaying([0]), 1, [0], 1, [Hello]), Read(e));
    steps := Advance(steps, State([m, e], [Missed, Undelivered], [0], Replaying([0]), 1, [0], 1, [Hello]), Deliver(1));
  }

  /**
   * A complete join may still show an erased object: an erase delivered live while the replay is
   * being sent reaches the joiner before the replayed add of the same object.
   */
  lemma EraseOvertakesReplay(obj: SceneObject) returns (steps: seq<Step>)
    ensures var s := Run(steps);
      && Joined(s) && s.frames == [Add(obj), Erase([obj.id])] && s.recorded == [0, 1]
      && s.got == [Hello, Live(1), Replay(0)] && Named(s.frames, s.got)
      && Scene.Fold([], Handled(s.frames, s.got)) == [obj]
      && Scene.Fold([], s.frames) == []
  {
    var m, e := Add(obj), Erase([obj.id]);
    hide Run, Inv, Handled, Scene.Fold;
    steps := ErasedLive(obj);
    var s0 := State([m, e], [Missed, Queued], [0], Replaying([0]), 2, [0], 1, [Hello, Live(1)]);
    steps := Advance(steps, s0, Push);
    var s1 := State([m, e], [Missed, Queued], [0], Replaying([]), 3, [0], 1, [Hello, Live(1), Replay(0)]);
    assert s0.phase.rest[1..] == [] && s0.got + [Replay(0)] == s1.got;
    assert Next(s0, Push) == s1;
    steps := Advance(steps, s1, Record(1));
    EraseOvertakesScenes(obj);
  }

  lemma HandledOfThree(frames: seq<Msg>, a: Item, b: Item)
    requires !a.Hello? && !b.Hello? && a.o < |frames| && b.o < |frames|
    ensures Named(frames, [Hello, a, b]) && Handled(frames, [Hello, a, b]) == [frames[a.o], frames[b.o]]
  {
    var got := [Hello, a, b];
    assert got[..2] == [Hello, a] && got[..2][..1] == [Hello] && got[..2][..1][..0] == [];
    assert Numbers([Hello]) == [] && Numbers([Hello, a]) == [a.o] && Numbers(got) == [a.o, b.o];
  }

  lemma FoldOfTwo(a: Msg, b: Msg)
    ensures Scene.Fold([], [a, b]) == Scene.Apply(Scene.Apply([], a), b)
  {
    Scene.FoldSnoc([], [], a);
    Scene.FoldSnoc([], [a], b);
    assert [] + [a] == [a] && [a] + [b] == [a, b];
  }

  lemma EraseOvertakesScenes(obj: SceneObject)
    ensures var frames, got := [Add(obj), Erase([obj.id])], [Hello, Live(1), Replay(0)];
      && Named(frames, got)
      && Scene.Fold([], Handled(frames, got)) == [obj]
      && Scene.Fold([], frames) == []
  {
    var m, e := Add(obj), Erase([obj.id]);
    HandledOfThree([m, e], Live(1), Replay(0));
    FoldOfTwo(e, m);
    FoldOfTwo(m, e);
    assert obj.id in Scene.ToSet([obj.id]);
    assert Scene.Without([], Scene.ToSet([obj.id])) == [];
    assert Scene.Without([obj], Scene.ToSet([obj.id])) == [];
    hide Handled, Scene.Fold, Named;
  }

  // The joiner is through with the join of an empty board before anything is sent.
  lemma EmptyJoin() returns (steps: seq<Step>)
    ensures Run(steps) == State([], [], [], Replaying([]), 1, [], 0, [Hello])
  {
    steps := [];
    assert Run(steps) == START;
    hide Run, Inv, Kept;
    steps := Advance(steps, START, Enter);
    steps := Advance(steps, State([], [], [], Added, 0, [], 0, []), Greet);
    steps := Advance(steps, State([], [], [], Greeted, 1, [], 0, [Hello]), Catchup);
  }

  lemma BothRead(x: SceneObject, y: SceneObject) returns (steps: seq<Step>)
    ensures Run(steps) == State([Add(x), Add(y)], [Undelivered, Undelivered], [], Replaying([]), 1, [], 0, [Hello])
  {
    hide Run, Inv, Kept;
    var m, n, empty: seq<nat> := Add(x), Add(y), [];
    steps := EmptyJoin();
    steps := Advance(steps, State([], [], empty, Replaying([]), 1, [], 0, [Hello]), Read(m));
    assert Run(steps) == State([m], [Undelivered], empty, Replaying([]), 1, [], 0, [Hello]);
    steps := Advance(steps, State([m], [Undelivered], empty, Replaying([]), 1, [], 0, [Hello]), Read(n));
  }

  lemma BothDelivered(x: SceneObject, y: SceneObject) returns (steps: seq<Step>)
    ensures Run(steps)
         == State([Add(x), Add(y)], [Queued, Queued], [], Replaying([]), 3, [], 0, [Hello, Live(0), Live(1)])
  {
    hide Run, Inv, Kept;
    var frames, empty: seq<nat> := [Add(x), Add(y)], [];
    steps := BothRead(x, y);
    steps := Advance(steps, State(frames, [Undelivered, Undelivered], empty, Replaying([]), 1, [], 0, [Hello]), Deliver(0));
    assert Run(steps) == State(frames, [Queued, Undelivered], empty, Replaying([]), 2, [], 0, [Hello, Live(0)]);
    steps := Advance(steps, State(frames, [Queued, Undelivered], empty, Replaying([]), 2, [], 0, [Hello, Live(0)]), Deliver(1));
  }

  /**
   * Two clients that write the same object at once are delivered in one order and recorded in the
   * other: the joiner, with nothing missing or overtaken, shows what no later joiner will get.
   */
  lemma RecordedInOtherOrder(x: SceneObject, y: SceneObject) returns (steps: seq<Step>)
    requires x.id == y.id
    ensures var s := Run(steps);
      && Joined(s) && s.frames == [Add(x), Add(y)] && s.recorded == [1, 0]
      && ReplaysFirst(s.got) && Reached(s, 0) && Reached(s, 1) && Named(s.frames, s.got)
      && Scene.Fold([], Handled(s.frames, s.got)) == [y]
      && Scene.Fold([], Msgs(s.frames, s.recorded)) == [x]
  {
    var m, n := Add(x), Add(y);
    hide Run, Inv, Handled, Scene.Fold, Named;
    steps := BothDelivered(x, y);
    var s0 := State([m, n], [Queued, Queued], [], Replaying([]), 3, [], 0, [Hello, Live(0), Live(1)]);
    steps := Advance(steps, s0, Record(1));
    steps := Advance(steps, Next(s0, Record(1)), Record(0));
    CrossedScenes(x, y);
    assert Run(steps).recorded == [1, 0];
  }

  lemma CrossedScenes(x: SceneObject, y: SceneObject)
    requires x.id == y.id
    ensures var frames, got := [Add(x), Add(y)], [Hello, Live(0), Live(1)];
      && Named(frames, got) && Within(frames, [1, 0])
      && Scene.Fold([], Handled(frames, got)) == [y]
      && Scene.Fold([], Msgs(frames, [1, 0])) == [x]
  {
    var m, n := Add(x), Add(y);
    HandledOfThree([m, n], Live(0), Live(1));
    assert Msgs([m, n], [1, 0]) == [n, m];
    FoldOfTwo(m, n);
    FoldOfTwo(n, m);
    hide Handled, Scene.Fold, Named;
  }
}
