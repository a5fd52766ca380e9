/** The retained scene, and the fold by which every peer turns messages into a scene. */
module Scene {
  import opened Wrappers
  import opened Protocol

  type Objects = seq<SceneObject>

  ghost predicate UniqueIds(s: Objects) {
    forall i, j :: 0 <= i < j < |s| ==> s[i].id != s[j].id
  }

  function Ids(s: Objects): set<string> {
    set o | o in s :: o.id
  }

  /** Index of the first object with this id, or -1. */
  function IndexOf(s: Objects, id: string): (i: int)
    ensures -1 <= i < |s|
    ensures i >= 0 ==> s[i].id == id && forall j :: 0 <= j < i ==> s[j].id != id
    ensures i < 0 <==> id !in Ids(s)
  {
    if s == [] then -1
    else if s[0].id == id then 0
    else
      var k := IndexOf(s[1..], id);
      assert s == [s[0]] + s[1..];
      assert k >= 0 ==> s[1..][k] in s;
      if k < 0 then -1 else k + 1
  }

  function Find(s: Objects, id: string): Option<SceneObject> {
    var i := IndexOf(s, id);
    if i < 0 then None else Some(s[i])
  }

  function AsMap(s: Objects): map<string, SceneObject> {
    map id | id in Ids(s) :: Find(s, id).value
  }

  function Upsert(s: Objects, o: SceneObject): Objects {
    var i := IndexOf(s, o.id);
    if i >= 0 then s[i := o] else s + [o]
  }

  function Without(s: Objects, ids: set<string>): Objects {
    if s == [] then []
    else (if s[0].id in ids then [] else [s[0]]) + Without(s[1..], ids)
  }

  function ToSet(ids: seq<string>): set<string> {
    set id | id in ids
  }

  /** What a client does with one incoming message. */
  function Apply(s: Objects, m: Msg): Objects {
    match m
    case Add(o) => Upsert(s, o)
    case Erase(ids) => Without(s, ToSet(ids))
    case Clear => []
    case Draw => s
    case Transient(_) => s
  }

  function Fold(s: Objects, msgs: seq<Msg>): Objects {
    if msgs == [] then s
    else Apply(Fold(s, msgs[..|msgs| - 1]), msgs[|msgs| - 1])
  }

  lemma FoldSnoc(s: Objects, msgs: seq<Msg>, m: Msg)
    ensures Fold(s, msgs + [m]) == Apply(Fold(s, msgs), m)
  {
    assert (msgs + [m])[..|msgs|] == msgs;
  }

  lemma {:induction false} FoldConcat(s: Objects, a: seq<Msg>, b: seq<Msg>)
    ensures Fold(s, a + b) == Fold(Fold(s, a), b)
  {
    if b == [] {
      assert a + b == a;
    } else {
      var front, last := b[..|b| - 1], b[|b| - 1];
      assert a + b == (a + front) + [last];
      FoldConcat(s, a, front);
      FoldSnoc(s, a + front, last);
    }
  }

  // ---- lookups under one operation ----

  lemma IdsAt(s: Objects, i: nat)
    requires i < |s|
    ensures s[i].id in Ids(s)
  {
    assert s[i] in s;
  }

  /** With unique ids, an object is found at its own position. */
  lemma IndexOfAt(s: Objects, i: nat)
    requires UniqueIds(s) && i < |s|
    ensures IndexOf(s, s[i].id) == i
  {
    IdsAt(s, i);
  }

  lemma FindIndexed(s: Objects, id: string, k: nat)
    requires k < |s| && s[k].id == id
    requires forall j :: 0 <= j < k ==> s[j].id != id
    ensures Find(s, id) == Some(s[k])
  {
    IdsAt(s, k);
  }

  lemma FindCons(o: SceneObject, s: Objects, id: string)
    ensures Find([o] + s, id) == if o.id == id then Some(o) else Find(s, id)
  {
    assert ([o] + s)[1..] == s;
  }

  lemma FindUpsert(s: Objects, o: SceneObject, id: string)
    ensures Find(Upsert(s, o), id) == if id == o.id then Some(o) else Find(s, id)
  {
    var u := Upsert(s, o);
    var i := IndexOf(s, o.id);
    if i < 0 {
      forall j | 0 <= j < |s| ensures s[j].id != o.id { IdsAt(s, j); }
    }
    if id == o.id {
      FindIndexed(u, id, if i >= 0 then i else |s|);
    } else {
      var k := IndexOf(s, id);
      if k >= 0 {
        FindIndexed(u, id, k);
      } else {
        forall j | 0 <= j < |s| ensures s[j].id != id { IdsAt(s, j); }
      }
    }
  }

  lemma {:induction false} FindWithout(s: Objects, ids: set<string>, id: string)
    ensures Find(Without(s, ids), id) == if id in ids then None else Find(s, id)
  {
    if s != [] {
      var o, t := s[0], s[1..];
      var w := Without(t, ids);
      FindWithout(t, ids, id);
      assert s == [o] + t;
      FindCons(o, t, id);
      FindCons(o, w, id);
      assert Without(s, ids) == if o.id in ids then w else [o] + w;
    }
  }

  /** An add replaces the first object with its id where it is; an object under a new id comes last. */
  lemma UpsertInPlace(s: Objects, o: SceneObject)
    ensures forall k :: 0 <= k < |s| && s[k].id == o.id && (forall j :: 0 <= j < k ==> s[j].id != o.id)
              ==> Upsert(s, o) == s[k := o]
    ensures (forall j :: 0 <= j < |s| ==> s[j].id != o.id) ==> Upsert(s, o) == s + [o]
  {
    if IndexOf(s, o.id) < 0 {
      forall j | 0 <= j < |s| ensures s[j].id != o.id { IdsAt(s, j); }
    }
  }

  /** `at` names the positions, in order, of exactly the objects that are not erased. */
  ghost predicate Keeps(s: Objects, ids: set<string>, kept: Objects, at: seq<nat>) {
    && |at| == |kept|
    && (forall k :: 0 <= k < |at| ==> at[k] < |s| && kept[k] == s[at[k]] && s[at[k]].id !in ids)
    && (forall k, l :: 0 <= k < l < |at| ==> at[k] < at[l])
    && (forall i :: 0 <= i < |s| && s[i].id !in ids ==> i in at)
  }

  lemma {:induction false} WithoutSnoc(s: Objects, o: SceneObject, ids: set<string>)
    ensures Without(s + [o], ids) == Without(s, ids) + (if o.id in ids then [] else [o])
  {
    if s == [] {
      assert s + [o] == [o] && [o][1..] == [];
    } else {
      assert (s + [o])[1..] == s[1..] + [o];
      WithoutSnoc(s[1..], o, ids);
    }
  }

  /** An erase keeps exactly the other objects, and keeps them in their order. */
  lemma {:induction false} WithoutInOrder(s: Objects, ids: set<string>) returns (at: seq<nat>)
    ensures Keeps(s, ids, Without(s, ids), at)
  {
    at := [];
    if s != [] {
      var n := |s| - 1;
      assert s == s[..n] + [s[n]];
      hide *;
      at := WithoutInOrder(s[..n], ids);
      WithoutSnoc(s[..n], s[n], ids);
      KeepsSnoc(s, ids, Without(s[..n], ids), at);
      assert Without(s[..n], ids) + [] == Without(s[..n], ids);
      at := if s[n].id in ids then at else at + [n];
    }
  }

  lemma KeepsSnoc(s: Objects, ids: set<string>, kept: Objects, at: seq<nat>)
    requires s != [] && Keeps(s[..|s| - 1], ids, kept, at)
    ensures var n := |s| - 1;
      if s[n].id in ids then Keeps(s, ids, kept, at) else Keeps(s, ids, kept + [s[n]], at + [n])
  {
  }

  lemma FindApply(s: Objects, m: Msg, id: string)
    ensures Find(Apply(s, m), id) == match EffectOn(m, id)
                                     case None => Find(s, id)
                                     case Some(Put(o)) => Some(o)
                                     case Some(Gone) => None
  {
    match m
    case Add(o) => FindUpsert(s, o, id);
    case Erase(ids) => FindWithout(s, ToSet(ids), id);
    case Clear =>
    case Draw =>
    case Transient(_) =>
  }

  /** Equal lookups mean equal maps, and back. */
  lemma MapsAgree(a: Objects, b: Objects)
    ensures (forall id :: Find(a, id) == Find(b, id)) <==> AsMap(a) == AsMap(b)
  {
    if forall id :: Find(a, id) == Find(b, id) {
      forall id ensures id in Ids(a) <==> id in Ids(b) {
        assert Find(a, id) == Find(b, id);
      }
    } else {
      var id :| Find(a, id) != Find(b, id);
      assert AsMap(a).Keys == Ids(a) && AsMap(b).Keys == Ids(b);
      assert id in Ids(a) ==> id !in Ids(b) || AsMap(a)[id] != AsMap(b)[id];
    }
  }

  // ---- ids stay unique ----

  lemma {:induction false} WithoutIds(s: Objects, ids: set<string>)
    ensures Ids(Without(s, ids)) == Ids(s) - ids
    ensures UniqueIds(s) ==> UniqueIds(Without(s, ids))
  {
    if s != [] {
      WithoutIds(s[1..], ids);
      assert s == [s[0]] + s[1..];
      assert Ids(s) == {s[0].id} + Ids(s[1..]);
      var w := Without(s[1..], ids);
      if s[0].id !in ids {
        assert Without(s, ids) == [s[0]] + w;
        assert Ids([s[0]] + w) == {s[0].id} + Ids(w);
        if UniqueIds(s) {
          forall i | 0 <= i < |w| ensures w[i].id != s[0].id {
            IdsAt(w, i);
            var k := IndexOf(s[1..], w[i].id);
            assert s[k + 1].id != s[0].id;
          }
        }
      }
    }
  }

  lemma UpsertIds(s: Objects, o: SceneObject)
    ensures Ids(Upsert(s, o)) == Ids(s) + {o.id}
    ensures UniqueIds(s) ==> UniqueIds(Upsert(s, o))
  {
    var i := IndexOf(s, o.id);
    var u := Upsert(s, o);
    forall id ensures id in Ids(u) <==> id in Ids(s) + {o.id} {
      FindUpsert(s, o, id);
    }
    if i < 0 {
      forall j | 0 <= j < |s| ensures s[j].id != o.id { IdsAt(s, j); }
    }
  }

  lemma ApplyUnique(s: Objects, m: Msg)
    requires UniqueIds(s)
    ensures UniqueIds(Apply(s, m))
  {
    match m
    case Add(o) => UpsertIds(s, o);
    case Erase(ids) => WithoutIds(s, ToSet(ids));
    case Clear =>
    case Draw =>
    case Transient(_) =>
  }

  /** No scene reached by folding messages holds an id twice. */
  lemma {:induction false} FoldUnique(s: Objects, msgs: seq<Msg>)
    requires UniqueIds(s)
    ensures UniqueIds(Fold(s, msgs))
  {
    if msgs != [] {
      FoldUnique(s, msgs[..|msgs| - 1]);
      ApplyUnique(Fold(s, msgs[..|msgs| - 1]), msgs[|msgs| - 1]);
    }
  }

  // ---- convergence: the last message about an id decides it ----

  datatype Effect = Put(obj: SceneObject) | Gone

  function EffectOn(m: Msg, id: string): Option<Effect> {
    match m
    case Add(o) => if o.id == id then Some(Put(o)) else None
    case Erase(ids) => if id in ids then Some(Gone) else None
    case Clear => Some(Gone)
    case Draw => None
    case Transient(_) => None
  }

  /** The subsequence of a history that concerns one id: its adds, its erases, all clears. */
  function History(msgs: seq<Msg>, id: string): seq<Effect> {
    if msgs == [] then []
    else
      History(msgs[..|msgs| - 1], id) +
      match EffectOn(msgs[|msgs| - 1], id) { case None => [] case Some(e) => [e] }
  }

  function Settle(start: Option<SceneObject>, h: seq<Effect>): Option<SceneObject> {
    if h == [] then start
    else match h[|h| - 1] case Put(o) => Some(o) case Gone => None
  }

  lemma {:induction false} LastMessageWins(s: Objects, msgs: seq<Msg>, id: string)
    ensures Find(Fold(s, msgs), id) == Settle(Find(s, id), History(msgs, id))
  {
    if msgs != [] {
      var front, last := msgs[..|msgs| - 1], msgs[|msgs| - 1];
      LastMessageWins(s, front, id);
      FindApply(Fold(s, front), last, id);
    }
  }

  /** Histories that agree on each id's own subsequence converge, from any scene. */
  lemma Convergence(s: Objects, a: seq<Msg>, b: seq<Msg>)
    requires forall id :: History(a, id) == History(b, id)
    ensures AsMap(Fold(s, a)) == AsMap(Fold(s, b))
  {
    forall id ensures Find(Fold(s, a), id) == Find(Fold(s, b), id) {
      LastMessageWins(s, a, id);
      LastMessageWins(s, b, id);
    }
    MapsAgree(Fold(s, a), Fold(s, b));
  }

  predicate SettleAlike(a: seq<Msg>, b: seq<Msg>, id: string) {
    Settle(None, History(a, id)) == Settle(None, History(b, id))
  }

  /** From empty boards, exactly the histories that settle every id alike converge. */
  lemma ConvergenceExact(a: seq<Msg>, b: seq<Msg>)
    ensures AsMap(Fold([], a)) == AsMap(Fold([], b))
            <==> forall id :: SettleAlike(a, b, id)
  {
    var x, y := Fold([], a), Fold([], b);
    forall id ensures Find(x, id) == Find(y, id) <==> SettleAlike(a, b, id) {
      LastMessageWins([], a, id);
      LastMessageWins([], b, id);
    }
    MapsAgree(x, y);
  }

  // ---- reconnect: replay onto a kept scene ----

  /** Replay onto a kept scene equals replay onto an empty one exactly when the log mentions every kept id. */
  lemma ReplayOntoKept(kept: Objects, log: seq<Msg>)
    ensures AsMap(Fold(kept, log)) == AsMap(Fold([], log))
            <==> forall id :: id in Ids(kept) ==> History(log, id) != []
  {
    var k, e := Fold(kept, log), Fold([], log);
    forall id ensures Find(k, id) == Settle(Find(kept, id), History(log, id))
                   && Find(e, id) == Settle(None, History(log, id)) {
      LastMessageWins(kept, log, id);
      LastMessageWins([], log, id);
    }
    MapsAgree(k, e);
    forall id ensures Find(k, id) == Find(e, id)
                      <==> (id in Ids(kept) ==> History(log, id) != []) {
    }
  }

  // ---- the log a recorder keeps: a clear drops what came before ----

  predicate Durable(m: Msg) {
    m.Add? || m.Erase? || m.Draw?
  }

  function Retain(log: seq<Msg>, m: Msg): seq<Msg> {
    if Durable(m) then log + [m] else if m.Clear? then [] else log
  }

  function Retained(msgs: seq<Msg>): seq<Msg> {
    if msgs == [] then [] else Retain(Retained(msgs[..|msgs| - 1]), msgs[|msgs| - 1])
  }

  /** Position i of a history leaves a log entry: it is durable, and no clear comes after it. */
  predicate Leaves(msgs: seq<Msg>, i: int) {
    && 0 <= i < |msgs| && (msgs[i].Add? || msgs[i].Erase? || msgs[i].Draw?)
    && forall j :: i < j < |msgs| ==> !msgs[j].Clear?
  }

  /** `at` names the positions, in order, of exactly the messages that leave an entry. */
  ghost predicate Logs(msgs: seq<Msg>, log: seq<Msg>, at: seq<nat>) {
    && |at| == |log|
    && (forall k :: 0 <= k < |at| ==> Leaves(msgs, at[k]) && log[k] == msgs[at[k]])
    && (forall k, l :: 0 <= k < l < |at| ==> at[k] < at[l])
    && (forall i :: Leaves(msgs, i) ==> i in at)
  }

  /** The retained log is made of exactly the messages that leave an entry, in their order. */
  lemma {:induction false} RetainedExactly(msgs: seq<Msg>) returns (at: seq<nat>)
    ensures Logs(msgs, Retained(msgs), at)
  {
    at := [];
    if msgs != [] {
      var n := |msgs| - 1;
      at := RetainedExactly(msgs[..n]);
      var before := Retained(msgs[..n]);
      assert Retained(msgs) == Retain(before, msgs[n]);
      hide Retained, Logs;
      LogsSnoc(msgs, before, at);
      at := if msgs[n].Clear? then [] else if Durable(msgs[n]) then at + [n] else at;
    }
  }

  lemma LeavesSnoc(msgs: seq<Msg>, i: int)
    requires msgs != []
    ensures var n := |msgs| - 1;
      Leaves(msgs, i) <==> (i == n && Durable(msgs[n])) || (Leaves(msgs[..n], i) && !msgs[n].Clear?)
  {
  }

  lemma LogsSnoc(msgs: seq<Msg>, log: seq<Msg>, at: seq<nat>)
    requires msgs != [] && Logs(msgs[..|msgs| - 1], log, at)
    ensures var n := |msgs| - 1;
      Logs(msgs, Retain(log, msgs[n]), if msgs[n].Clear? then [] else if Durable(msgs[n]) then at + [n] else at)
  {
    var n := |msgs| - 1;
    forall i ensures Leaves(msgs, i) <==> (i == n && Durable(msgs[n])) || (Leaves(msgs[..n], i) && !msgs[n].Clear?) {
      LeavesSnoc(msgs, i);
    }
    forall k | 0 <= k < |at| ensures at[k] < n { LeavesInside(msgs[..n], at[k]); }
    hide Leaves;
    if Durable(msgs[n]) {
      LogsMore(msgs, log, at);
    }
  }

  lemma LogsMore(msgs: seq<Msg>, log: seq<Msg>, at: seq<nat>)
    requires msgs != [] && Logs(msgs[..|msgs| - 1], log, at) && Durable(msgs[|msgs| - 1])
    requires forall k :: 0 <= k < |at| ==> at[k] < |msgs| - 1
    requires forall i :: Leaves(msgs, i) <==> i == |msgs| - 1 || Leaves(msgs[..|msgs| - 1], i)
    ensures Logs(msgs, log + [msgs[|msgs| - 1]], at + [|msgs| - 1])
  {
    hide Leaves;
    var more := at + [|msgs| - 1];
    forall i | Leaves(msgs, i) ensures i in more {
      assert i in at ==> i in more;
      assert more[|at|] == |msgs| - 1;
    }
  }

  lemma LeavesInside(msgs: seq<Msg>, i: int)
    requires Leaves(msgs, i)
    ensures 0 <= i < |msgs|
  {
  }

  /** Truncating the log at a clear and dropping transient messages preserves its meaning. */
  lemma {:induction false} TruncationPreservesScene(msgs: seq<Msg>)
    ensures Fold([], Retained(msgs)) == Fold([], msgs)
  {
    if msgs != [] {
      var front, last := msgs[..|msgs| - 1], msgs[|msgs| - 1];
      TruncationPreservesScene(front);
      if Durable(last) {
        FoldSnoc([], Retained(front), last);
      }
    }
  }

  lemma {:induction false} RetainedSplit(a: seq<Msg>, b: seq<Msg>)
    requires forall m :: m in b ==> !m.Clear?
    ensures Retained(a + b) == Retained(a) + Retained(b)
  {
    if b == [] {
      assert a + b == a;
    } else {
      var front, last := b[..|b| - 1], b[|b| - 1];
      assert a + b == (a + front) + [last];
      assert (a + b)[..|a + b| - 1] == a + front;
      assert last in b;
      RetainedSplit(a, front);
    }
  }

  lemma {:induction false} RetainedAfterClear(a: seq<Msg>, b: seq<Msg>)
    requires forall m :: m in b ==> !m.Clear?
    ensures Retained(a + [Clear] + b) == Retained(b)
  {
    assert (a + [Clear])[..|a|] == a;
    RetainedSplit(a + [Clear], b);
    assert [] + Retained(b) == Retained(b);
  }

  /** Dropping transient messages loses no effect; with no clear, the log keeps each id's history. */
  lemma {:induction false} RetainedHistory(msgs: seq<Msg>, id: string)
    requires forall m :: m in msgs ==> !m.Clear?
    ensures History(Retained(msgs), id) == History(msgs, id)
  {
    if msgs != [] {
      var front, last := msgs[..|msgs| - 1], msgs[|msgs| - 1];
      assert last in msgs;
      RetainedHistory(front, id);
      assert (Retained(front) + [last])[..|Retained(front)|] == Retained(front);
    }
  }

  lemma {:induction false} HistoryConcat(a: seq<Msg>, b: seq<Msg>, id: string)
    ensures History(a + b, id) == History(a, id) + History(b, id)
  {
    if b == [] {
      assert a + b == a;
    } else {
      var front, last := b[..|b| - 1], b[|b| - 1];
      assert a + b == (a + front) + [last];
      assert (a + b)[..|a + b| - 1] == a + front;
      HistoryConcat(a, front, id);
    }
  }

  /** An object still shown is mentioned in the log the recorder still keeps. */
  lemma ShownIsRetained(msgs: seq<Msg>, id: string)
    requires id in Ids(Fold([], msgs))
    ensures History(Retained(msgs), id) != []
  {
    TruncationPreservesScene(msgs);
    LastMessageWins([], Retained(msgs), id);
  }

  /** A client that missed messages but no clear ends, after its replay, with the board's own map. */
  lemma ReconnectAfterGap(seen: seq<Msg>, missed: seq<Msg>)
    requires forall m :: m in missed ==> !m.Clear?
    ensures AsMap(Fold(Fold([], seen), Retained(seen + missed))) == AsMap(Fold([], seen + missed))
  {
    var kept, log := Fold([], seen), Retained(seen + missed);
    forall id | id in Ids(kept) ensures History(log, id) != [] {
      ShownIsRetained(seen, id);
      RetainedSplit(seen, missed);
      HistoryConcat(Retained(seen), Retained(missed), id);
    }
    ReplayOntoKept(kept, log);
    TruncationPreservesScene(seen + missed);
  }

  /**
   * If a clear was missed, the replay repairs the kept scene exactly when every id still shown
   * is mentioned again after the clear: the truncated log no longer says that a clear happened.
   */
  lemma ReconnectAcrossClear(seen: seq<Msg>, before: seq<Msg>, after: seq<Msg>)
    requires forall m :: m in after ==> !m.Clear?
    ensures var all := seen + before + [Clear] + after;
            AsMap(Fold(Fold([], seen), Retained(all))) == AsMap(Fold([], all))
            <==> forall id :: id in Ids(Fold([], seen)) ==> History(after, id) != []
  {
    var all := seen + before + [Clear] + after;
    RetainedAfterClear(seen + before, after);
    ReplayOntoKept(Fold([], seen), Retained(all));
    TruncationPreservesScene(all);
    forall id ensures History(Retained(after), id) == History(after, id) {
      RetainedHistory(after, id);
    }
  }

  /** The failing family is not empty: a board cleared while away keeps the old object. */
  lemma ReconnectKeepsClearedObject(o: SceneObject)
    ensures var seen, missed := [Add(o)], [Clear];
            && Fold(Fold([], seen), Retained(seen + missed)) == [o]
            && Fold([], seen + missed) == []
  {
    assert Fold([], [Add(o)]) == Apply(Fold([], []), Add(o)) by { FoldSnoc([], [], Add(o)); assert [] + [Add(o)] == [Add(o)]; }
    FoldSnoc([], [Add(o)], Clear);
    var all := [Add(o)] + [Clear];
    assert all[..|all| - 1] == [Add(o)] && all[|all| - 1] == Clear;
  }
}
