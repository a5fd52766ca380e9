/** Back-to-front order: by z, ties by position in the scene. */
module ZOrder {
  import opened Wrappers
  import opened Protocol
  import opened Scene
  import opened Geometry

  function ZOf(o: SceneObject): real {
    if o.z.Some? then o.z.value else 0.0
  }

  function Restacked(o: SceneObject, z: real): (r: SceneObject)
    ensures r.id == o.id && ZOf(r) == z
    ensures r.Shape? == o.Shape? && r.Connector? == o.Connector? && r.Stroke? == o.Stroke?
  {
    o.(z := Some(z))
  }

  predicate Before(s: Objects, i: nat, j: nat)
    requires i < |s| && j < |s|
  {
    ZOf(s[i]) < ZOf(s[j]) || (ZOf(s[i]) == ZOf(s[j]) && i < j)
  }

  ghost predicate InRange(order: seq<nat>, n: nat) {
    forall k :: 0 <= k < |order| ==> order[k] < n
  }

  /** Insert a later index k behind every index that is not strictly in front of it. */
  function Insert(s: Objects, order: seq<nat>, k: nat): (r: seq<nat>)
    requires k < |s| && InRange(order, |s|)
    ensures |r| == |order| + 1 && InRange(r, |s|)
    ensures k in r && forall i :: i in r ==> i == k || i in order
  {
    if order == [] then [k]
    else
      var last := order[|order| - 1];
      if ZOf(s[last]) <= ZOf(s[k]) then order + [k]
      else Insert(s, order[..|order| - 1], k) + [last]
  }

  /** The first n positions of the scene, sorted back to front. */
  function Order(s: Objects, n: nat): (r: seq<nat>)
    requires n <= |s|
    ensures |r| == n && InRange(r, |s|)
  {
    if n == 0 then [] else Insert(s, Order(s, n - 1), n - 1)
  }

  function Pick(s: Objects, order: seq<nat>): (r: Objects)
    requires InRange(order, |s|)
    ensures |r| == |order| && forall k :: 0 <= k < |r| ==> r[k] == s[order[k]]
  {
    seq(|order|, k requires 0 <= k < |order| => s[order[k]])
  }

  function OrderedScene(s: Objects): Objects {
    Pick(s, Order(s, |s|))
  }

  ghost predicate Sorted(s: Objects, order: seq<nat>) {
    && InRange(order, |s|)
    && (forall k, l :: 0 <= k < l < |order| ==> Before(s, order[k], order[l]))
  }

  lemma {:induction false} InsertKeeps(s: Objects, order: seq<nat>, k: nat, i: nat)
    requires k < |s| && InRange(order, |s|) && i in order
    ensures i in Insert(s, order, k)
  {
    var last := order[|order| - 1];
    assert order == order[..|order| - 1] + [last];
    if ZOf(s[last]) > ZOf(s[k]) && i in order[..|order| - 1] {
      InsertKeeps(s, order[..|order| - 1], k, i);
    }
  }

  lemma {:induction false} OrderHolds(s: Objects, n: nat, i: nat)
    requires n <= |s|
    ensures i in Order(s, n) <==> i < n
  {
    if n > 0 {
      OrderHolds(s, n - 1, i);
      if i in Order(s, n - 1) {
        InsertKeeps(s, Order(s, n - 1), n - 1, i);
      }
    }
  }

  lemma SortedAppend(s: Objects, order: seq<nat>, k: nat)
    requires Sorted(s, order) && k < |s| && forall j :: 0 <= j < |order| ==> Before(s, order[j], k)
    ensures Sorted(s, order + [k])
  {
    hide Before;
  }

  lemma SortedPrepend(s: Objects, order: seq<nat>, k: nat)
    requires Sorted(s, order) && k < |s| && forall j :: 0 <= j < |order| ==> Before(s, k, order[j])
    ensures Sorted(s, [k] + order)
  {
    hide Before;
  }

  lemma {:induction false} InsertSorted(s: Objects, order: seq<nat>, k: nat)
    requires k < |s| && Sorted(s, order) && InRange(order, k)
    ensures Sorted(s, Insert(s, order, k))
  {
    if order != [] {
      var last := order[|order| - 1];
      if ZOf(s[last]) > ZOf(s[k]) {
        var front := order[..|order| - 1];
        InsertSorted(s, front, k);
        var r := Insert(s, front, k);
        forall j | 0 <= j < |r| ensures Before(s, r[j], last) {
          assert r[j] in r;
        }
        hide Before, ZOf;
        SortedAppend(s, r, last);
      } else {
        assert forall j :: 0 <= j < |order| ==> ZOf(s[order[j]]) <= ZOf(s[k]) by {
          assert forall j :: 0 <= j < |order| - 1 ==> Before(s, order[j], last);
        }
        assert forall j :: 0 <= j < |order| ==> Before(s, order[j], k);
        hide Before, ZOf;
        SortedAppend(s, order, k);
      }
    }
  }

  lemma {:induction false} InsertPicks(s: Objects, order: seq<nat>, k: nat)
    requires k < |s| && InRange(order, |s|)
    ensures multiset(Pick(s, Insert(s, order, k))) == multiset(Pick(s, order)) + multiset{s[k]}
  {
    if order == [] {
      assert Pick(s, [k]) == [s[k]];
    } else {
      var front, last := order[..|order| - 1], order[|order| - 1];
      assert Pick(s, order) == Pick(s, front) + [s[last]];
      if ZOf(s[last]) <= ZOf(s[k]) {
        assert Pick(s, order + [k]) == Pick(s, order) + [s[k]];
      } else {
        InsertPicks(s, front, k);
        assert Pick(s, Insert(s, front, k) + [last]) == Pick(s, Insert(s, front, k)) + [s[last]];
      }
    }
  }

  lemma {:induction false} OrderSorted(s: Objects, n: nat)
    requires n <= |s|
    ensures Sorted(s, Order(s, n))
  {
    if n > 0 {
      var front := Order(s, n - 1);
      OrderSorted(s, n - 1);
      forall k | 0 <= k < |front| ensures front[k] < n - 1 {
        OrderHolds(s, n - 1, front[k]);
      }
      InsertSorted(s, front, n - 1);
    }
  }

  lemma {:induction false} OrderPicks(s: Objects, n: nat)
    requires n <= |s|
    ensures multiset(Pick(s, Order(s, n))) == multiset(s[..n])
  {
    hide Insert, Pick;
    if n == 0 {
      assert s[..0] == [];
      assert Pick(s, Order(s, 0)) == [];
    } else {
      var front := Order(s, n - 1);
      OrderPicks(s, n - 1);
      InsertPicks(s, front, n - 1);
      assert Order(s, n) == Insert(s, front, n - 1);
      assert s[..n] == s[..n - 1] + [s[n - 1]];
      assert multiset(Pick(s, Order(s, n))) == multiset(s[..n - 1]) + multiset{s[n - 1]};
    }
  }

  /** Drawing order is a permutation of the scene, sorted by z, equal z in scene order. */
  lemma OrderedSceneIsStableSort(s: Objects)
    ensures multiset(OrderedScene(s)) == multiset(s)
    ensures Sorted(s, Order(s, |s|))
    ensures forall k, l :: 0 <= k < l < |s| ==> ZOf(OrderedScene(s)[k]) <= ZOf(OrderedScene(s)[l])
  {
    OrderSorted(s, |s|);
    OrderPicks(s, |s|);
    assert s[..|s|] == s;
  }

  lemma BeforeAsym(s: Objects, i: nat, j: nat)
    requires i < |s| && j < |s| && Before(s, i, j)
    ensures !Before(s, j, i)
  {
  }

  lemma SortedLast(s: Objects, a: seq<nat>, i: nat)
    requires Sorted(s, a) && i in a
    ensures var last := a[|a| - 1]; last < |s| && i < |s| && (i == last || Before(s, i, last))
  {
  }

  lemma FrontElements(s: Objects, a: seq<nat>, i: nat)
    requires Sorted(s, a) && a != []
    ensures i in a[..|a| - 1] <==> i in a && i != a[|a| - 1]
  {
    assert a == a[..|a| - 1] + [a[|a| - 1]];
    if i in a[..|a| - 1] {
      var j :| 0 <= j < |a| - 1 && a[j] == i;
      assert Before(s, a[j], a[|a| - 1]);
    }
  }

  lemma SameLast(s: Objects, a: seq<nat>, b: seq<nat>)
    requires Sorted(s, a) && Sorted(s, b) && a != [] && b != []
    requires a[|a| - 1] in b && b[|b| - 1] in a
    ensures a[|a| - 1] == b[|b| - 1]
  {
    var x, y := a[|a| - 1], b[|b| - 1];
    SortedLast(s, a, y);
    SortedLast(s, b, x);
    if x != y { BeforeAsym(s, x, y); }
  }

  /** Only one arrangement of the same positions is sorted. */
  lemma {:induction false} SortedUnique(s: Objects, a: seq<nat>, b: seq<nat>)
    requires Sorted(s, a) && Sorted(s, b) && forall i :: i in a <==> i in b
    ensures a == b
  {
    assert b != [] ==> b[0] in b;
    assert a != [] ==> a[0] in a;
    if a != [] {
      SameLast(s, a, b);
      hide Before;
      var a', b', x := a[..|a| - 1], b[..|b| - 1], a[|a| - 1];
      forall i ensures i in a' <==> i in b' {
        if i >= 0 {
          FrontElements(s, a, i);
          FrontElements(s, b, i);
        }
      }
      SortedUnique(s, a', b');
      assert a == a' + [x] && b == b' + [x];
    }
  }

  // ---- what the drawing order depends on ----

  /** The objects at one z, in scene order. */
  function Level(s: Objects, z: real): Objects {
    if s == [] then []
    else Level(s[..|s| - 1], z) + (if ZOf(s[|s| - 1]) == z then [s[|s| - 1]] else [])
  }

  lemma LevelSnoc(s: Objects, o: SceneObject, z: real)
    ensures Level(s + [o], z) == Level(s, z) + (if ZOf(o) == z then [o] else [])
  {
    assert (s + [o])[..|s|] == s;
  }

  lemma {:induction false} LevelConcat(a: Objects, b: Objects, z: real)
    ensures Level(a + b, z) == Level(a, z) + Level(b, z)
  {
    if b == [] {
      assert a + b == a;
    } else {
      var front, last := b[..|b| - 1], b[|b| - 1];
      assert a + b == (a + front) + [last];
      LevelConcat(a, front, z);
      LevelSnoc(a + front, last, z);
    }
  }

  lemma {:induction false} LevelHolds(s: Objects, z: real, o: SceneObject)
    ensures o in Level(s, z) <==> o in s && ZOf(o) == z
  {
    if s != [] {
      assert s == s[..|s| - 1] + [s[|s| - 1]];
      LevelHolds(s[..|s| - 1], z, o);
    }
  }

  lemma LevelSwap(s: Objects, x: SceneObject, y: SceneObject, z: real)
    requires ZOf(x) != ZOf(y)
    ensures Level(s + [x] + [y], z) == Level(s + [y] + [x], z)
  {
    hide Level;
    LevelSnoc(s + [x], y, z);
    LevelSnoc(s, x, z);
    LevelSnoc(s + [y], x, z);
    LevelSnoc(s, y, z);
  }

  lemma PickSnoc(s: Objects, order: seq<nat>, k: nat)
    requires InRange(order, |s|) && k < |s|
    ensures InRange(order + [k], |s|) && Pick(s, order + [k]) == Pick(s, order) + [s[k]]
  {
  }

  /** Sorting a position in behind those of greater z moves nothing within a level. */
  lemma {:induction false} InsertLevel(s: Objects, order: seq<nat>, k: nat, z: real)
    requires k < |s| && InRange(order, |s|)
    ensures Level(Pick(s, Insert(s, order, k)), z) == Level(Pick(s, order) + [s[k]], z)
  {
    if order == [] || ZOf(s[order[|order| - 1]]) <= ZOf(s[k]) {
      PickSnoc(s, order, k);
      assert [] + [k] == [k];
    } else {
      var front, last := order[..|order| - 1], order[|order| - 1];
      InsertLevel(s, front, k, z);
      assert order == front + [last] && Insert(s, order, k) == Insert(s, front, k) + [last];
      assert ZOf(s[last]) != ZOf(s[k]);
      hide *;
      PickSnoc(s, front, last);
      PickSnoc(s, Insert(s, front, k), last);
      LevelSnoc(Pick(s, Insert(s, front, k)), s[last], z);
      LevelSnoc(Pick(s, front) + [s[k]], s[last], z);
      LevelSwap(Pick(s, front), s[k], s[last], z);
    }
  }

  lemma NextInOrder(s: Objects, n: nat)
    requires 0 < n <= |s|
    ensures Order(s, n) == Insert(s, Order(s, n - 1), n - 1) && s[..n] == s[..n - 1] + [s[n - 1]]
  {
    hide Insert;
  }

  lemma {:induction false} OrderLevel(s: Objects, n: nat, z: real)
    requires n <= |s|
    ensures Level(Pick(s, Order(s, n)), z) == Level(s[..n], z)
  {
    if n == 0 {
      assert Pick(s, Order(s, 0)) == [] == s[..0];
    } else {
      hide *;
      OrderLevel(s, n - 1, z);
      NextInOrder(s, n);
      InsertLevel(s, Order(s, n - 1), n - 1, z);
      LevelSnoc(Pick(s, Order(s, n - 1)), s[n - 1], z);
      LevelSnoc(s[..n - 1], s[n - 1], z);
    }
  }

  lemma LevelOfDrawn(s: Objects, z: real)
    ensures Level(OrderedScene(s), z) == Level(s, z)
  {
    OrderLevel(s, |s|, z);
    assert s[..|s|] == s;
  }

  ghost predicate Ascending(s: Objects) {
    forall k, l :: 0 <= k < l < |s| ==> ZOf(s[k]) <= ZOf(s[l])
  }

  lemma DrawnAscending(s: Objects)
    ensures Ascending(OrderedScene(s))
  {
    OrderedSceneIsStableSort(s);
  }

  lemma LevelOfLast(s: Objects)
    requires s != []
    ensures Level(s, ZOf(s[|s| - 1])) != []
  {
  }

  lemma LevelAbove(s: Objects, z: real)
    requires Ascending(s) && (s != [] ==> ZOf(s[|s| - 1]) < z)
    ensures Level(s, z) == []
  {
    if Level(s, z) != [] {
      LevelHolds(s, z, Level(s, z)[0]);
    }
  }

  lemma SameEnd(a: Objects, x: SceneObject, b: Objects, y: SceneObject)
    requires a + [x] == b + [y]
    ensures x == y && a == b
  {
    assert a == (a + [x])[..|a + [x]| - 1] && b == (b + [y])[..|b + [y]| - 1];
    assert (a + [x])[|a + [x]| - 1] == x && (b + [y])[|b + [y]| - 1] == y;
  }

  /** Among lists sorted by z, the levels determine the list. */
  lemma {:induction false} LevelsDetermine(a: Objects, b: Objects)
    requires Ascending(a) && Ascending(b) && forall z :: Level(a, z) == Level(b, z)
    ensures a == b
  {
    if a != [] { LevelOfLast(a); }
    if b != [] { LevelOfLast(b); }
    if a != [] && b != [] {
      var a', x, b', y := a[..|a| - 1], a[|a| - 1], b[..|b| - 1], b[|b| - 1];
      if ZOf(x) < ZOf(y) { LevelAbove(a, ZOf(y)); }
      if ZOf(y) < ZOf(x) { LevelAbove(b, ZOf(x)); }
      SameEnd(Level(a', ZOf(x)), x, Level(b', ZOf(x)), y);
      forall z ensures Level(a', z) == Level(b', z) {
        assert Level(a, z) == Level(b, z);
        if z == ZOf(x) {
          SameEnd(Level(a', z), x, Level(b', z), y);
        } else {
          assert Level(a', z) + [] == Level(a', z) && Level(b', z) + [] == Level(b', z);
        }
      }
      LevelsDetermine(a', b');
      assert a == a' + [x] && b == b' + [y];
    }
  }

  lemma SameLevels(s: Objects, t: Objects)
    requires forall z :: Level(s, z) == Level(t, z)
    ensures OrderedScene(s) == OrderedScene(t)
  {
    hide *;
    forall z ensures Level(OrderedScene(s), z) == Level(OrderedScene(t), z) {
      LevelOfDrawn(s, z);
      LevelOfDrawn(t, z);
    }
    DrawnAscending(s);
    DrawnAscending(t);
    LevelsDetermine(OrderedScene(s), OrderedScene(t));
  }

  /** Two scenes are drawn alike exactly if at each z they hold the same objects in the same order. */
  lemma DrawnAlike(s: Objects, t: Objects)
    ensures OrderedScene(s) == OrderedScene(t) <==> forall z :: Level(s, z) == Level(t, z)
  {
    hide *;
    if forall z :: Level(s, z) == Level(t, z) {
      SameLevels(s, t);
    } else {
      var z :| Level(s, z) != Level(t, z);
      LevelOfDrawn(s, z);
      LevelOfDrawn(t, z);
    }
  }

  /** An object may go to the end of the scene unseen exactly if none of those it passes has its z. */
  lemma PassedUnseen(a: Objects, x: SceneObject, b: Objects)
    requires x !in b
    ensures OrderedScene(a + [x] + b) == OrderedScene(a + b + [x]) <==> forall o :: o in b ==> ZOf(o) != ZOf(x)
  {
    var s, t := a + [x] + b, a + b + [x];
    forall z ensures Level(s, z) == Level(t, z) <==> z != ZOf(x) || Level(b, z) == [] {
      LevelPassed(a, x, b, z);
    }
    forall o ensures o in Level(b, ZOf(x)) <==> o in b && ZOf(o) == ZOf(x) { LevelHolds(b, ZOf(x), o); }
    hide Level, OrderedScene;
    DrawnAlike(s, t);
    if Level(b, ZOf(x)) == [] {
      forall o | o in b ensures ZOf(o) != ZOf(x) {
        assert o !in Level(b, ZOf(x));
      }
    } else {
      assert Level(b, ZOf(x))[0] in Level(b, ZOf(x));
      assert Level(s, ZOf(x)) != Level(t, ZOf(x));
    }
  }

  lemma LevelPassed(a: Objects, x: SceneObject, b: Objects, z: real)
    requires x !in b
    ensures Level(a + [x] + b, z) == Level(a + b + [x], z) <==> z != ZOf(x) || Level(b, z) == []
  {
    LevelConcat(a + [x], b, z);
    LevelSnoc(a, x, z);
    LevelConcat(a, b, z);
    LevelSnoc(a + b, x, z);
    if Level(b, z) != [] {
      LevelHolds(b, z, Level(b, z)[0]);
    }
    hide Level;
    var la, lb := Level(a, z), Level(b, z);
    if z == ZOf(x) && lb != [] {
      assert (la + [x] + lb)[|la|] == x && (la + lb + [x])[|la|] == lb[0];
    } else if z != ZOf(x) {
      assert la + [] + lb == la + lb + [];
    }
  }

  /** The ids in drawing order. */
  function DrawnIds(s: Objects): (ids: seq<string>)
    ensures |ids| == |s|
  {
    seq(|s|, k requires 0 <= k < |s| => OrderedScene(s)[k].id)
  }

  /** The drawing order reads nothing of an object but its z. */
  lemma {:induction false} OrderByZ(a: Objects, b: Objects, n: nat)
    requires |a| == |b| && n <= |a| && forall i :: 0 <= i < |a| ==> ZOf(a[i]) == ZOf(b[i])
    ensures Order(a, n) == Order(b, n)
  {
    if n > 0 {
      OrderByZ(a, b, n - 1);
      InsertByZ(a, b, Order(a, n - 1), n - 1);
    }
  }

  lemma {:induction false} InsertByZ(a: Objects, b: Objects, order: seq<nat>, k: nat)
    requires |a| == |b| && k < |a| && InRange(order, |a|) && forall i :: 0 <= i < |a| ==> ZOf(a[i]) == ZOf(b[i])
    ensures Insert(a, order, k) == Insert(b, order, k)
  {
    if order != [] {
      InsertByZ(a, b, order[..|order| - 1], k);
    }
  }

  lemma DrawnByZ(a: Objects, b: Objects)
    requires |a| == |b| && forall i :: 0 <= i < |a| ==> a[i].id == b[i].id && ZOf(a[i]) == ZOf(b[i])
    ensures DrawnIds(a) == DrawnIds(b)
  {
    OrderByZ(a, b, |a|);
  }

  /** Ids tell objects apart, so among the same objects the order of the ids is the order of the objects. */
  lemma DrawnIdsExact(s: Objects, t: Objects)
    requires UniqueIds(s) && |s| == |t| && forall o :: o in s <==> o in t
    ensures DrawnIds(s) == DrawnIds(t) <==> OrderedScene(s) == OrderedScene(t)
  {
    if DrawnIds(s) == DrawnIds(t) {
      var u, v := OrderedScene(s), OrderedScene(t);
      forall k | 0 <= k < |s| ensures u[k] == v[k] {
        assert u[k].id == DrawnIds(s)[k] == DrawnIds(t)[k] == v[k].id;
        var i, j := Order(s, |s|)[k], Order(t, |t|)[k];
        assert u[k] == s[i] && t[j] in t;
        var l :| 0 <= l < |s| && s[l] == t[j];
        assert s[i].id == s[l].id;
      }
    }
  }

  // ---- bring to front, send to back ----

  function Drop(order: seq<nat>, i: nat): (r: seq<nat>)
    ensures forall k :: k in r <==> k in order && k != i
  {
    if order == [] then []
    else
      assert order == [order[0]] + order[1..];
      (if order[0] == i then [] else [order[0]]) + Drop(order[1..], i)
  }

  lemma {:induction false} DropSorted(s: Objects, t: Objects, order: seq<nat>, i: nat)
    requires |s| == |t| && Sorted(s, order) && forall k :: 0 <= k < |s| && k != i ==> t[k] == s[k]
    ensures Sorted(t, Drop(order, i))
  {
    if order != [] {
      DropSorted(s, t, order[1..], i);
      var r := Drop(order[1..], i);
      forall l | 0 <= l < |r| && order[0] != i ensures Before(t, order[0], r[l]) {
        assert r[l] in r;
        var m :| 0 <= m < |order[1..]| && order[1..][m] == r[l];
        assert Before(s, order[0], order[m + 1]);
      }
    }
  }

  function MaxZ(s: Objects): (z: real)
    requires s != []
    ensures forall o :: o in s ==> ZOf(o) <= z
    ensures exists o :: o in s && ZOf(o) == z
  {
    assert s == s[..|s| - 1] + [s[|s| - 1]];
    var last := s[|s| - 1];
    assert last in s;
    if |s| == 1 then ZOf(last) else Max(MaxZ(s[..|s| - 1]), ZOf(last))
  }

  function MinZ(s: Objects): (z: real)
    requires s != []
    ensures forall o :: o in s ==> z <= ZOf(o)
    ensures exists o :: o in s && ZOf(o) == z
  {
    assert s == s[..|s| - 1] + [s[|s| - 1]];
    var last := s[|s| - 1];
    assert last in s;
    if |s| == 1 then ZOf(last) else Min(MinZ(s[..|s| - 1]), ZOf(last))
  }

  /** What reorderSelected stores for the object at position i. */
  function Reordered(s: Objects, i: nat, toFront: bool): (o: SceneObject)
    requires i < |s|
    ensures o.id == s[i].id && o.Shape? == s[i].Shape? && o.Connector? == s[i].Connector?
  {
    Restacked(s[i], if toFront then MaxZ(s) + 1.0 else MinZ(s) - 1.0)
  }

  lemma RestBehind(s: Objects, i: nat, k: nat)
    requires i < |s| && k in Drop(Order(s, |s|), i)
    ensures k < |s| && Before(s[i := Reordered(s, i, true)], k, i) && Before(s[i := Reordered(s, i, false)], i, k)
  {
    OrderHolds(s, |s|, k);
    assert s[k] in s;
  }

  lemma RestOrder(s: Objects, t: Objects, i: nat, k: nat)
    requires i < |s| && |t| == |s|
    ensures k in Order(t, |t|) <==> k == i || k in Drop(Order(s, |s|), i)
  {
    OrderHolds(s, |s|, k);
    OrderHolds(t, |t|, k);
  }

  lemma FrontIsSorted(s: Objects, i: nat)
    requires i < |s|
    ensures Sorted(s[i := Reordered(s, i, true)], Drop(Order(s, |s|), i) + [i])
  {
    var t, rest := s[i := Reordered(s, i, true)], Drop(Order(s, |s|), i);
    OrderSorted(s, |s|);
    DropSorted(s, t, Order(s, |s|), i);
    forall j | 0 <= j < |rest| ensures rest[j] < |t| && Before(t, rest[j], i) {
      assert rest[j] in rest;
      RestBehind(s, i, rest[j]);
    }
    hide Before, Order, Drop, Reordered;
    SortedAppend(t, rest, i);
  }

  lemma BackIsSorted(s: Objects, i: nat)
    requires i < |s|
    ensures Sorted(s[i := Reordered(s, i, false)], [i] + Drop(Order(s, |s|), i))
  {
    var t, rest := s[i := Reordered(s, i, false)], Drop(Order(s, |s|), i);
    OrderSorted(s, |s|);
    DropSorted(s, t, Order(s, |s|), i);
    forall j | 0 <= j < |rest| ensures rest[j] < |t| && Before(t, i, rest[j]) {
      assert rest[j] in rest;
      RestBehind(s, i, rest[j]);
    }
    hide Before, Order, Drop, Reordered;
    SortedPrepend(t, rest, i);
  }

  /** Any sorted arrangement of i and the rest is the order of the changed scene. */
  lemma OrderFromParts(s: Objects, t: Objects, i: nat, order: seq<nat>)
    requires i < |s| && |t| == |s| && Sorted(t, order)
    requires forall k :: k in order <==> k == i || k in Drop(Order(s, |s|), i)
    ensures Order(t, |t|) == order
  {
    forall k ensures k in Order(t, |t|) <==> k in order { if k >= 0 { RestOrder(s, t, i, k); } }
    OrderSorted(t, |t|);
    hide Order, Drop, Before;
    SortedUnique(t, Order(t, |t|), order);
  }

  /** Bringing to front draws the object last and leaves every other pair in its order. */
  lemma BringToFront(s: Objects, i: nat)
    requires i < |s|
    ensures var t := s[i := Reordered(s, i, true)];
            && Order(t, |t|) == Drop(Order(s, |s|), i) + [i]
            && OrderedScene(t)[|t| - 1] == t[i]
  {
    FrontIsSorted(s, i);
    hide Order, Drop, Before, Reordered;
    OrderFromParts(s, s[i := Reordered(s, i, true)], i, Drop(Order(s, |s|), i) + [i]);
  }

  lemma SendToBack(s: Objects, i: nat)
    requires i < |s|
    ensures var t := s[i := Reordered(s, i, false)];
            && Order(t, |t|) == [i] + Drop(Order(s, |s|), i)
            && OrderedScene(t)[0] == t[i]
  {
    BackIsSorted(s, i);
    hide Order, Drop, Before, Reordered;
    OrderFromParts(s, s[i := Reordered(s, i, false)], i, [i] + Drop(Order(s, |s|), i));
  }

  /** The front-most object of an ordered list that a point hits. */
  function FrontHit(scene: Objects, ordered: Objects, p: Point, pad: real): (hit: Option<SceneObject>)
    ensures hit.Some? ==> hit.value in ordered && HitTest(scene, hit.value, p, pad)
  {
    if ordered == [] then None
    else
      var last := ordered[|ordered| - 1];
      if HitTest(scene, last, p, pad) then Some(last)
      else FrontHit(scene, ordered[..|ordered| - 1], p, pad)
  }

  function TopmostAt(s: Objects, p: Point, pad: real): (hit: Option<SceneObject>)
    ensures hit.Some? ==> hit.value in s
  {
    OrderedSceneIsStableSort(s);
    var hit := FrontHit(s, OrderedScene(s), p, pad);
    assert hit.Some? ==> hit.value in multiset(OrderedScene(s));
    hit
  }

  /** Position k of the list is hit, and none after it. */
  predicate LastHit(scene: Objects, ordered: Objects, p: Point, pad: real, k: int) {
    && 0 <= k < |ordered| && HitTest(scene, ordered[k], p, pad)
    && forall l :: k < l < |ordered| ==> !HitTest(scene, ordered[l], p, pad)
  }

  lemma {:induction false} FrontHitExact(scene: Objects, ordered: Objects, p: Point, pad: real)
    ensures var hit := FrontHit(scene, ordered, p, pad);
      if hit.None? then forall k :: 0 <= k < |ordered| ==> !HitTest(scene, ordered[k], p, pad)
      else exists k :: LastHit(scene, ordered, p, pad, k) && ordered[k] == hit.value
  {
    hide HitTest;
    if ordered != [] {
      var n := |ordered| - 1;
      FrontHitExact(scene, ordered[..n], p, pad);
      if HitTest(scene, ordered[n], p, pad) {
        assert LastHit(scene, ordered, p, pad, n);
      } else if FrontHit(scene, ordered, p, pad).Some? {
        var k :| LastHit(scene, ordered[..n], p, pad, k) && ordered[..n][k] == FrontHit(scene, ordered, p, pad).value;
        assert LastHit(scene, ordered, p, pad, k);
      }
    }
  }

  /** Position i of the scene is hit, and every other one that is hit is drawn before it. */
  predicate DrawnLastOfHits(s: Objects, p: Point, pad: real, i: int) {
    && 0 <= i < |s| && HitTest(s, s[i], p, pad)
    && forall j :: 0 <= j < |s| && j != i && HitTest(s, s[j], p, pad) ==> Before(s, j, i)
  }

  lemma LastOfDrawn(s: Objects, order: seq<nat>, p: Point, pad: real, k: int)
    requires Sorted(s, order) && forall j: nat :: j < |s| ==> j in order
    requires LastHit(s, Pick(s, order), p, pad, k)
    ensures DrawnLastOfHits(s, p, pad, order[k])
  {
    hide HitTest, Before;
    forall j: nat | j < |s| && j != order[k] && HitTest(s, s[j], p, pad) ensures Before(s, j, order[k]) {
      assert j in order;
      var l :| 0 <= l < |order| && order[l] == j;
      assert Pick(s, order)[l] == s[j];
    }
  }

  lemma NoneDrawn(s: Objects, order: seq<nat>, p: Point, pad: real, i: nat)
    requires InRange(order, |s|) && i < |s| && i in order
    requires forall k :: 0 <= k < |order| ==> !HitTest(s, Pick(s, order)[k], p, pad)
    ensures !HitTest(s, s[i], p, pad)
  {
    var k :| 0 <= k < |order| && order[k] == i;
    assert Pick(s, order)[k] == s[i];
  }

  /** The topmost object at a point is, of all that are hit there, the one drawn last; none if none is hit. */
  lemma TopmostExactly(s: Objects, p: Point, pad: real)
    ensures var hit := TopmostAt(s, p, pad);
      if hit.None? then forall i :: 0 <= i < |s| ==> !HitTest(s, s[i], p, pad)
      else exists i :: DrawnLastOfHits(s, p, pad, i) && s[i] == hit.value
  {
    var order, hit := Order(s, |s|), TopmostAt(s, p, pad);
    var ord := Pick(s, order);
    assert hit == FrontHit(s, ord, p, pad) && |ord| == |order| == |s|;
    OrderSorted(s, |s|);
    forall i: nat | i < |s| ensures i in order { OrderHolds(s, |s|, i); }
    hide *;
    FrontHitExact(s, ord, p, pad);
    if hit.Some? {
      var k :| LastHit(s, ord, p, pad, k) && ord[k] == hit.value;
      LastOfDrawn(s, order, p, pad, k);
      PickAt(s, order, p, pad, k);
    } else {
      forall i | 0 <= i < |s| ensures !HitTest(s, s[i], p, pad) {
        NoneDrawn(s, order, p, pad, i);
      }
    }
  }

  lemma PickAt(s: Objects, order: seq<nat>, p: Point, pad: real, k: int)
    requires InRange(order, |s|) && LastHit(s, Pick(s, order), p, pad, k)
    ensures 0 <= k < |order| && order[k] < |s| && Pick(s, order)[k] == s[order[k]]
  {
  }

  /** Only one position can be the last drawn of those that are hit. */
  lemma OneTopmost(s: Objects, p: Point, pad: real, i: int, j: int)
    requires DrawnLastOfHits(s, p, pad, i) && DrawnLastOfHits(s, p, pad, j)
    ensures i == j
  {
    hide HitTest;
  }

  /** The new z is one beyond the greatest, or one below the least, and nothing else of the object changes. */
  lemma ReorderedExactly(s: Objects, i: nat, toFront: bool)
    requires i < |s|
    ensures var r := Reordered(s, i, toFront);
      && r.z.Some? && r.(z := s[i].z) == s[i]
      && (forall o :: o in s ==> if toFront then ZOf(o) <= r.z.value - 1.0 else r.z.value + 1.0 <= ZOf(o))
      && (exists o :: o in s && ZOf(o) == if toFront then r.z.value - 1.0 else r.z.value + 1.0)
  {
  }

  /** After bring-to-front, every point the object covers selects that object. */
  lemma FrontObjectIsTopmost(s: Objects, i: nat, p: Point, pad: real)
    requires i < |s|
    requires HitTest(s[i := Reordered(s, i, true)], Reordered(s, i, true), p, pad)
    ensures TopmostAt(s[i := Reordered(s, i, true)], p, pad) == Some(Reordered(s, i, true))
  {
    BringToFront(s, i);
  }
}
