/**
 * One node's board registry and its reference counts, with every lock section and every pub/sub
 * call a step of its own: any number of connections come and go in any interleaving.
 */
module RefCount {

  // Where a connection's goroutine stands. A connection is removed only once it is Live: the
  // read pump that removes it starts after add has returned.
  datatype Phase =
    | Fresh          // not yet added
    | BindPending    // added as the board's first client, has not yet counted itself
    | SubPending     // counted, its Subscribe has not yet taken effect
    | Live
    | UnbindPending  // removed as the board's last client, has not yet uncounted itself
    | UnsubPending   // uncounted, its Unsubscribe has not yet taken effect
    | Gone

  // A pub/sub call on its way, made after the counter's lock was released.
  datatype Call = Call(client: nat, board: string, subscribe: bool)

  // `boards` is the hub's registry (a board with no clients has no entry), `refs` the
  // broadcaster's counters, `calls` the pub/sub calls on their way in the order of their lock
  // sections, `subscribed` the boards whose channel this node receives.
  datatype State = State(phase: seq<Phase>, boards: map<string, set<nat>>, refs: map<string, int>,
                         calls: seq<Call>, subscribed: set<string>)

  datatype Step =
    | Add(c: nat)
    | Bind(c: nat)
    | Remove(c: nat)
    | Unbind(c: nat)
    | Effect(k: nat)   // the k-th call on its way takes effect

  function Members(s: State, board: string): set<nat> {
    if board in s.boards then s.boards[board] else {}
  }

  predicate Listed(s: State, board: string, c: nat) {
    c in Members(s, board)
  }

  function Count(s: State, board: string): int {
    if board in s.refs then s.refs[board] else 0
  }

  predicate Hosted(s: State, board: string) {
    board in s.boards
  }

  predicate Enabled(at: seq<string>, s: State, step: Step) {
    |s.phase| == |at| &&
    match step
    case Add(c) => c < |at| && s.phase[c] == Fresh
    case Bind(c) => c < |at| && s.phase[c] == BindPending
    case Remove(c) => c < |at| && s.phase[c] == Live
    case Unbind(c) => c < |at| && s.phase[c] == UnbindPending
    case Effect(k) => k < |s.calls| && s.calls[k].client < |at|
  }

  /** What a step does; `at` gives each connection's board. */
  function Next(at: seq<string>, s: State, step: Step): State
    requires Enabled(at, s, step)
  {
    match step
    case Add(c) =>
      var first := at[c] !in s.boards;
      s.(boards := s.boards[at[c] := Members(s, at[c]) + {c}],
         phase := s.phase[c := if first then BindPending else Live])
    case Bind(c) =>
      var n := Count(s, at[c]);
      s.(refs := s.refs[at[c] := n + 1],
         phase := s.phase[c := if n == 0 then SubPending else Live],
         calls := if n == 0 then s.calls + [Call(c, at[c], true)] else s.calls)
    case Remove(c) =>
      var left := Members(s, at[c]) - {c};
      var last := at[c] in s.boards && left == {};
      s.(boards := if last then s.boards - {at[c]} else if at[c] in s.boards then s.boards[at[c] := left] else s.boards,
         phase := s.phase[c := if last then UnbindPending else Gone])
    case Unbind(c) =>
      var n := Count(s, at[c]) - 1;
      s.(refs := if n <= 0 then s.refs - {at[c]} else s.refs[at[c] := n],
         phase := s.phase[c := if n <= 0 then UnsubPending else Gone],
         calls := if n <= 0 then s.calls + [Call(c, at[c], false)] else s.calls)
    case Effect(k) =>
      var call := s.calls[k];
      s.(subscribed := if call.subscribe then s.subscribed + {call.board} else s.subscribed - {call.board},
         phase := s.phase[call.client := if call.subscribe then Live else Gone],
         calls := s.calls[..k] + s.calls[k + 1..])
  }

  // ---------------------------------------------------------------- the counting invariant

  predicate Joined(p: Phase) {
    p == BindPending || p == SubPending || p == Live
  }

  /** The connections of one board in one phase. */
  function In(at: seq<string>, s: State, p: Phase, board: string): (r: set<nat>)
    requires |s.phase| == |at|
    ensures forall c: nat :: c in r <==> c < |at| && s.phase[c] == p && at[c] == board
  {
    set c: nat | c < |at| && s.phase[c] == p && at[c] == board
  }

  ghost predicate Registered(at: seq<string>, s: State)
    requires |s.phase| == |at|
  {
    && (forall b, c: nat :: Listed(s, b, c) <==> c < |at| && at[c] == b && Joined(s.phase[c]))
    && (forall b :: b in s.boards ==> s.boards[b] != {})
  }

  predicate Waiting(at: seq<string>, s: State, call: Call)
    requires |s.phase| == |at|
  {
    && call.client < |at| && at[call.client] == call.board
    && s.phase[call.client] == if call.subscribe then SubPending else UnsubPending
  }

  predicate Calling(at: seq<string>, s: State)
    requires |s.phase| == |at|
  {
    && (forall k :: 0 <= k < |s.calls| ==> Waiting(at, s, s.calls[k]))
    && (forall j, k :: 0 <= j < k < |s.calls| ==> s.calls[j].client != s.calls[k].client)
  }

  ghost predicate Counted(at: seq<string>, s: State, board: string)
    requires |s.phase| == |at|
  {
    && Count(s, board)
       == (if Hosted(s, board) then 1 else 0) + |In(at, s, UnbindPending, board)| - |In(at, s, BindPending, board)|
    && |In(at, s, BindPending, board)| <= (if Hosted(s, board) then 1 else 0)
    && (board in s.refs ==> s.refs[board] >= 1)
  }

  ghost predicate Inv(at: seq<string>, s: State) {
    && |s.phase| == |at|
    && Registered(at, s)
    && Calling(at, s)
    && forall b :: Counted(at, s, b)
  }

  // Two sets that differ at most in c.
  lemma SizeAfter(a: set<nat>, b: set<nat>, c: nat)
    requires forall d: nat :: d != c ==> (d in a <==> d in b)
    ensures |b| - (if c in b then 1 else 0) == |a| - (if c in a then 1 else 0)
  {
    assert a - {c} == b - {c};
    assert c !in a ==> a - {c} == a;
    assert c !in b ==> b - {c} == b;
  }

  /** Only connection c of board `at[c]` changed phase, so only these two sets changed. */
  lemma InAfter(at: seq<string>, s: State, t: State, c: nat, p: Phase, board: string)
    requires |s.phase| == |at| == |t.phase| && c < |at|
    requires t.phase == s.phase[c := t.phase[c]]
    ensures |In(at, t, p, board)| == |In(at, s, p, board)|
            - (if at[c] == board && s.phase[c] == p then 1 else 0)
            + (if at[c] == board && t.phase[c] == p then 1 else 0)
  {
    var before, after := In(at, s, p, board), In(at, t, p, board);
    forall d: nat | d != c ensures d in before <==> d in after {
      assert d < |at| ==> t.phase[d] == s.phase[d];
    }
    SizeAfter(before, after, c);
    hide In;
  }

  lemma CountedAfter(at: seq<string>, s: State, step: Step, board: string)
    requires Inv(at, s) && Enabled(at, s, step)
    ensures Counted(at, Next(at, s, step), board)
  {
    var t := Next(at, s, step);
    assert Counted(at, s, board);
    var c := if step.Effect? then s.calls[step.k].client else step.c;
    InAfter(at, s, t, c, BindPending, board);
    InAfter(at, s, t, c, UnbindPending, board);
    match step {
      case Add(_) => AddCounts(at, s, c, board);
      case Bind(_) =>
      case Remove(_) => RemoveCounts(at, s, c, board);
      case Unbind(_) => UnbindFindsCount(at, s, c);
      case Effect(k) => assert Waiting(at, s, s.calls[k]);
    }
  }

  // A board that is not hosted has no bind pending.
  lemma AddCounts(at: seq<string>, s: State, c: nat, board: string)
    requires Inv(at, s) && Enabled(at, s, Add(c))
    ensures Hosted(Next(at, s, Add(c)), board) == (Hosted(s, board) || board == at[c])
    ensures !Hosted(s, board) ==> In(at, s, BindPending, board) == {}
  {
    assert Counted(at, s, board);
  }

  // The last client to leave is the only one that joined, so its board has no bind pending.
  lemma RemoveCounts(at: seq<string>, s: State, c: nat, board: string)
    requires Inv(at, s) && Enabled(at, s, Remove(c))
    ensures c in Members(s, at[c])
    ensures !Hosted(Next(at, s, Remove(c)), at[c]) ==> In(at, s, BindPending, at[c]) == {}
  {
    assert Listed(s, at[c], c);
    if !Hosted(Next(at, s, Remove(c)), at[c]) {
      assert Members(s, at[c]) - {c} == {};
      forall d | d in In(at, s, BindPending, at[c]) ensures d == c {
        assert Listed(s, at[c], d);
        assert d !in Members(s, at[c]) - {c};
      }
    }
  }

  /** UnbindBoard always finds a count of at least one. */
  lemma UnbindFindsCount(at: seq<string>, s: State, c: nat)
    requires Inv(at, s) && Enabled(at, s, Unbind(c))
    ensures at[c] in s.refs && s.refs[at[c]] >= 1
  {
    assert Counted(at, s, at[c]);
    assert c in In(at, s, UnbindPending, at[c]);
    assert |In(at, s, UnbindPending, at[c])| >= 1;
  }

  lemma MembersAfter(at: seq<string>, s: State, step: Step, b: string, d: nat)
    requires Inv(at, s) && Enabled(at, s, step)
    ensures Listed(Next(at, s, step), b, d)
        <==> d < |at| && at[d] == b && Joined(Next(at, s, step).phase[d])
  {
    assert Listed(s, b, d) <==> d < |at| && at[d] == b && Joined(s.phase[d]);
    if step.Effect? {
      assert Waiting(at, s, s.calls[step.k]);
    } else if step.Remove? {
      assert Listed(s, at[step.c], step.c);
    }
  }

  lemma RegisteredAfter(at: seq<string>, s: State, step: Step)
    requires Inv(at, s) && Enabled(at, s, step)
    ensures Registered(at, Next(at, s, step))
  {
    forall b, d: nat
      ensures Listed(Next(at, s, step), b, d)
          <==> d < |at| && at[d] == b && Joined(Next(at, s, step).phase[d])
    {
      MembersAfter(at, s, step, b, d);
    }
  }

  lemma EffectCalling(at: seq<string>, s: State, k: nat)
    requires Inv(at, s) && Enabled(at, s, Effect(k))
    ensures Calling(at, Next(at, s, Effect(k)))
  {
    var t := Next(at, s, Effect(k));
    forall j | 0 <= j < |t.calls| ensures Waiting(at, t, t.calls[j]) {
      var was := if j < k then j else j + 1;
      assert t.calls[j] == s.calls[was] && Waiting(at, s, s.calls[was]);
    }
    forall i, j | 0 <= i < j < |t.calls| ensures t.calls[i].client != t.calls[j].client {
      var was_i, was_j := if i < k then i else i + 1, if j < k then j else j + 1;
      assert t.calls[i] == s.calls[was_i] && t.calls[j] == s.calls[was_j];
    }
  }

  lemma CallingAfter(at: seq<string>, s: State, step: Step)
    requires Inv(at, s) && Enabled(at, s, step)
    ensures Calling(at, Next(at, s, step))
  {
    if step.Effect? {
      EffectCalling(at, s, step.k);
    } else {
      var t := Next(at, s, step);
      forall k | 0 <= k < |t.calls| ensures Waiting(at, t, t.calls[k]) {
        assert k < |s.calls| ==> Waiting(at, s, s.calls[k]);
      }
      forall j, k | 0 <= j < k < |t.calls| ensures t.calls[j].client != t.calls[k].client {
        assert Waiting(at, s, s.calls[j]);
      }
    }
  }

  lemma StepInv(at: seq<string>, s: State, step: Step)
    requires Inv(at, s) && Enabled(at, s, step)
    ensures Inv(at, Next(at, s, step))
  {
    RegisteredAfter(at, s, step);
    CallingAfter(at, s, step);
    forall b ensures Counted(at, Next(at, s, step), b) {
      CountedAfter(at, s, step, b);
    }
  }

  // ---------------------------------------------------------------- whole runs

  function Init(n: nat): State {
    State(seq(n, c => Fresh), map[], map[], [], {})
  }

  /** The state a run reaches; a step that is not enabled changes nothing. */
  function Run(at: seq<string>, steps: seq<Step>): State {
    if steps == [] then Init(|at|)
    else
      var before, last := Run(at, steps[..|steps| - 1]), steps[|steps| - 1];
      if Enabled(at, before, last) then Next(at, before, last) else before
  }

  lemma {:induction false} RunInv(at: seq<string>, steps: seq<Step>)
    ensures Inv(at, Run(at, steps))
  {
    if steps == [] {
      var s := Run(at, steps);
      forall b ensures Counted(at, s, b) {
        assert In(at, s, UnbindPending, b) == {} && In(at, s, BindPending, b) == {};
      }
    } else {
      var before, last := Run(at, steps[..|steps| - 1]), steps[|steps| - 1];
      RunInv(at, steps[..|steps| - 1]);
      if Enabled(at, before, last) {
        StepInv(at, before, last);
      }
    }
  }

  /**
   * In every reachable state, for every board: the counter is one if the board is hosted, plus
   * the unbinds and minus the binds that are pending, of which there is at most one.
   */
  lemma RefCountTheorem(at: seq<string>, steps: seq<Step>, board: string)
    ensures var s := Run(at, steps);
      && |s.phase| == |at|
      && Count(s, board)
         == (if Hosted(s, board) then 1 else 0)
            + |In(at, s, UnbindPending, board)| - |In(at, s, BindPending, board)|
      && |In(at, s, BindPending, board)| <= 1
  {
    RunInv(at, steps);
    assert Counted(at, Run(at, steps), board);
  }

  /** A board is hosted exactly while some connection of it has been added and not removed. */
  lemma HostedIffJoined(at: seq<string>, steps: seq<Step>, board: string)
    ensures var s := Run(at, steps);
      && |s.phase| == |at|
      && (Hosted(s, board) <==> exists c :: 0 <= c < |at| && at[c] == board && Joined(s.phase[c]))
  {
    RunInv(at, steps);
    var s := Run(at, steps);
    assert Registered(at, s);
    if Hosted(s, board) {
      var c :| c in s.boards[board];
      assert Listed(s, board, c);
    } else {
      forall c: nat | c < |at| && at[c] == board ensures !Joined(s.phase[c]) {
        assert !Listed(s, board, c);
      }
    }
  }

  predicate AtRest(s: State) {
    s.calls == [] && forall c :: 0 <= c < |s.phase| ==> s.phase[c] != BindPending && s.phase[c] != UnbindPending
  }

  /** At rest a counter is one exactly for the hosted boards, and otherwise absent. */
  lemma RestingCounts(at: seq<string>, steps: seq<Step>, board: string)
    requires AtRest(Run(at, steps))
    ensures var s := Run(at, steps);
      && Count(s, board) == (if Hosted(s, board) then 1 else 0)
      && (board in s.refs <==> Hosted(s, board))
  {
    RunInv(at, steps);
    var s := Run(at, steps);
    assert Counted(at, s, board);
    assert In(at, s, UnbindPending, board) == {} && In(at, s, BindPending, board) == {};
  }

  // ---------------------------------------------------------------- subscriptions

  /** Whether the board is subscribed once the calls on their way have all taken effect in order. */
  predicate Outcome(calls: seq<Call>, board: string, now: bool) {
    if calls == [] then now
    else
      var last := calls[|calls| - 1];
      if last.board == board then last.subscribe else Outcome(calls[..|calls| - 1], board, now)
  }

  /** A call that takes effect overtakes no earlier call on its board. */
  predicate InOrder(s: State, step: Step) {
    step.Effect? && step.k < |s.calls| ==>
      forall j :: 0 <= j < step.k ==> s.calls[j].board != s.calls[step.k].board
  }

  lemma {:induction false} OldestTakesEffect(calls: seq<Call>, k: nat, board: string, now: bool)
    requires k < |calls|
    requires forall j :: 0 <= j < k ==> calls[j].board != calls[k].board
    ensures Outcome(calls, board, now)
         == Outcome(calls[..k] + calls[k + 1..], board, if calls[k].board == board then calls[k].subscribe else now)
  {
    var n := |calls| - 1;
    var rest := calls[..k] + calls[k + 1..];
    if k < n {
      var front := calls[..n];
      assert front[..k] + front[k + 1..] == rest[..n - 1];
      assert rest[n - 1] == calls[n];
      OldestTakesEffect(front, k, board, now);
    } else {
      assert rest == calls[..n];
      if calls[k].board == board {
        NoneOnBoard(rest, board, calls[k].subscribe);
      }
    }
  }

  lemma {:induction false} NoneOnBoard(calls: seq<Call>, board: string, now: bool)
    requires forall j :: 0 <= j < |calls| ==> calls[j].board != board
    ensures Outcome(calls, board, now) == now
  {
    if calls != [] {
      NoneOnBoard(calls[..|calls| - 1], board, now);
    }
  }

  ghost predicate Tracked(s: State) {
    forall b :: Outcome(s.calls, b, b in s.subscribed) <==> b in s.refs
  }

  lemma EffectTracked(at: seq<string>, s: State, k: nat)
    requires Tracked(s) && Enabled(at, s, Effect(k)) && InOrder(s, Effect(k))
    ensures Tracked(Next(at, s, Effect(k)))
  {
    var t := Next(at, s, Effect(k));
    forall b ensures Outcome(t.calls, b, b in t.subscribed) <==> b in t.refs {
      assert Outcome(s.calls, b, b in s.subscribed) <==> b in s.refs;
      OldestTakesEffect(s.calls, k, b, b in s.subscribed);
      hide Outcome;
    }
  }

  lemma OutcomeSnoc(calls: seq<Call>, call: Call, board: string, now: bool)
    ensures Outcome(calls + [call], board, now)
         == if call.board == board then call.subscribe else Outcome(calls, board, now)
  {
    assert (calls + [call])[..|calls|] == calls;
  }

  lemma TrackedAfter(at: seq<string>, s: State, step: Step)
    requires Inv(at, s) && Tracked(s) && Enabled(at, s, step) && InOrder(s, step)
    ensures Tracked(Next(at, s, step))
  {
    if step.Effect? {
      EffectTracked(at, s, step.k);
    } else {
      var t, c := Next(at, s, step), step.c;
      forall b ensures Outcome(t.calls, b, b in t.subscribed) <==> b in t.refs {
        assert Outcome(s.calls, b, b in s.subscribed) <==> b in s.refs;
        OutcomeSnoc(s.calls, Call(c, at[c], step.Bind?), b, b in s.subscribed);
        assert Counted(at, s, b);
        hide Outcome, Registered, Calling;
      }
    }
  }

  predicate AllInOrder(at: seq<string>, steps: seq<Step>) {
    steps == [] ||
    (AllInOrder(at, steps[..|steps| - 1]) && InOrder(Run(at, steps[..|steps| - 1]), steps[|steps| - 1]))
  }

  lemma {:induction false} InOrderTracked(at: seq<string>, steps: seq<Step>)
    requires AllInOrder(at, steps)
    ensures Tracked(Run(at, steps))
  {
    if steps != [] {
      var before, last := Run(at, steps[..|steps| - 1]), steps[|steps| - 1];
      InOrderTracked(at, steps[..|steps| - 1]);
      RunInv(at, steps[..|steps| - 1]);
      if Enabled(at, before, last) {
        TrackedAfter(at, before, last);
      }
    }
  }

  /** The kind of the last call made on a board: did it subscribe? */
  predicate Issued(at: seq<string>, steps: seq<Step>, board: string) {
    steps != [] &&
    var front := steps[..|steps| - 1];
    var before, after := Run(at, front), Run(at, steps);
    if |after.calls| > |before.calls| && after.calls[|before.calls|].board == board
    then after.calls[|before.calls|].subscribe
    else Issued(at, front, board)
  }

  /** The kind of the last call on a board that has taken effect. */
  predicate Effected(at: seq<string>, steps: seq<Step>, board: string) {
    steps != [] &&
    var front, last := steps[..|steps| - 1], steps[|steps| - 1];
    var before := Run(at, front);
    if last.Effect? && Enabled(at, before, last) && before.calls[last.k].board == board
    then before.calls[last.k].subscribe
    else Effected(at, front, board)
  }

  /** A call is made exactly when the counter appears or disappears. */
  lemma {:induction false} IssuedIsCounted(at: seq<string>, steps: seq<Step>, board: string)
    ensures Issued(at, steps, board) <==> board in Run(at, steps).refs
  {
    if steps != [] {
      var front, last := steps[..|steps| - 1], steps[|steps| - 1];
      IssuedIsCounted(at, front, board);
      RunInv(at, front);
      var before := Run(at, front);
      if Enabled(at, before, last) {
        assert Counted(at, before, board);
        hide Inv;
      }
    }
  }

  lemma {:induction false} EffectedIsSubscribed(at: seq<string>, steps: seq<Step>, board: string)
    ensures Effected(at, steps, board) <==> board in Run(at, steps).subscribed
  {
    if steps != [] {
      EffectedIsSubscribed(at, steps[..|steps| - 1], board);
    }
  }

  /**
   * At rest, after any run, a node is subscribed to a board exactly as it should be if and only if
   * the last call on the board to take effect is of the kind of the last call made.
   */
  lemma SubscribedExactly(at: seq<string>, steps: seq<Step>, board: string)
    requires AtRest(Run(at, steps))
    ensures var s := Run(at, steps);
      (board in s.subscribed <==> Hosted(s, board))
      <==> (Effected(at, steps, board) <==> Issued(at, steps, board))
  {
    RestingCounts(at, steps, board);
    IssuedIsCounted(at, steps, board);
    EffectedIsSubscribed(at, steps, board);
  }

  /**
   * In particular, if the calls on each board take effect in the order of their lock sections,
   * a node at rest is subscribed to exactly the boards it hosts.
   */
  lemma SubscribedIffHosted(at: seq<string>, steps: seq<Step>, board: string)
    requires AllInOrder(at, steps) && AtRest(Run(at, steps))
    ensures Effected(at, steps, board) <==> Issued(at, steps, board)
    ensures var s := Run(at, steps);
      && (board in s.subscribed <==> Hosted(s, board))
      && (board in s.subscribed <==> board in s.refs)
  {
    var s := Run(at, steps);
    InOrderTracked(at, steps);
    assert Outcome(s.calls, board, board in s.subscribed) <==> board in s.refs;
    IssuedIsCounted(at, steps, board);
    EffectedIsSubscribed(at, steps, board);
    SubscribedExactly(at, steps, board);
  }

  lemma RunSnoc(at: seq<string>, steps: seq<Step>, step: Step)
    requires Enabled(at, Run(at, steps), step)
    ensures Run(at, steps + [step]) == Next(at, Run(at, steps), step)
  {
    assert (steps + [step])[..|steps|] == steps;
  }

  // One client comes and goes up to its Unsubscribe call; a second one is added meanwhile.
  lemma OneClientLive(b: string) returns (steps: seq<Step>)
    ensures Run([b, b], steps) == State([Live, Fresh], map[b := {0}], map[b := 1], [], {b})
  {
    var at := [b, b];
    steps := FirstClientBinds(b);
    RunSnoc(at, steps, Effect(0));
    steps := steps + [Effect(0)];
    hide Run;
    assert Run(at, steps) == State([Live, Fresh], map[b := {0}], map[b := 1], [], {b});
  }

  lemma FirstClientBinds(b: string) returns (steps: seq<Step>)
    ensures Run([b, b], steps) == State([SubPending, Fresh], map[b := {0}], map[b := 1], [Call(0, b, true)], {})
  {
    var at := [b, b];
    steps := [Add(0), Bind(0)];
    assert Run(at, []) == Init(2);
    RunSnoc(at, [], Add(0));
    assert [] + [Add(0)] == [Add(0)] && [Add(0)] + [Bind(0)] == steps;
    assert Members(Init(2), b) + {0} == {0};
    assert Run(at, [Add(0)]) == State([BindPending, Fresh], map[b := {0}], map[], [], {});
    RunSnoc(at, [Add(0)], Bind(0));
  }

  lemma UnsubscribeOnItsWay(b: string) returns (steps: seq<Step>)
    ensures Run([b, b], steps)
         == State([UnsubPending, BindPending], map[b := {1}], map[], [Call(0, b, false)], {b})
  {
    var at := [b, b];
    var before := OneClientLive(b);
    RunSnoc(at, before, Remove(0));
    assert Run(at, before + [Remove(0)]) == State([UnbindPending, Fresh], map[], map[b := 1], [], {b});
    assert Members(Run(at, before + [Remove(0)]), b) + {1} == {1};
    RunSnoc(at, before + [Remove(0)], Add(1));
    steps := before + [Remove(0)] + [Add(1)];
    assert Run(at, steps) == State([UnbindPending, BindPending], map[b := {1}], map[b := 1], [], {b});
    RunSnoc(at, steps, Unbind(0));
    steps := steps + [Unbind(0)];
  }

  /**
   * Without that order it fails: an Unsubscribe overtaken by the next client's Subscribe leaves
   * a hosted board, counted once, that the node no longer receives.
   */
  lemma OvertakenUnsubscribe(b: string) returns (steps: seq<Step>)
    ensures Run([b, b], steps) == State([Gone, Live], map[b := {1}], map[b := 1], [], {})
    ensures AtRest(Run([b, b], steps)) && !AllInOrder([b, b], steps)
  {
    var at := [b, b];
    var before := UnsubscribeOnItsWay(b);
    RunSnoc(at, before, Bind(1));
    var s1 := Run(at, before + [Bind(1)]);
    assert s1.calls == [Call(0, b, false), Call(1, b, true)];
    RunSnoc(at, before + [Bind(1)], Effect(1));
    var s2 := Run(at, before + [Bind(1)] + [Effect(1)]);
    assert s2.calls == [Call(0, b, false)];
    RunSnoc(at, before + [Bind(1)] + [Effect(1)], Effect(0));
    steps := before + [Bind(1)] + [Effect(1)] + [Effect(0)];
    assert Run(at, steps).phase == [Gone, Live];
    if AllInOrder(at, steps) {
      SubscribedIffHosted(at, steps, b);
    }
  }
}
