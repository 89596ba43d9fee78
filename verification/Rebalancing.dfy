/**
 How a consumer group deals its partitions: round-robin over the sorted ids of its members.
 */
module Rebalancing {

  predicate StrictlySorted(ids: seq<nat>) {
    forall i, j :: 0 <= i < j < |ids| ==> ids[i] < ids[j]
  }

  ghost predicate Lists(ids: seq<nat>, members: set<nat>) {
    StrictlySorted(ids) && forall id :: id in members <==> id in ids
  }

  /** The partitions below `count` that go to position `i` of `n`. */
  function Dealt(count: nat, n: nat, i: nat): (ps: seq<int>)
    requires n > 0
    ensures forall k :: 0 <= k < |ps| ==> 0 <= ps[k] < count
  {
    if count == 0 then []
    else if (count - 1) % n == i then Dealt(count - 1, n, i) + [count - 1]
    else Dealt(count - 1, n, i)
  }

  /** What consumer `id` is assigned. */
  function Assignment(ids: seq<nat>, count: nat, id: nat): seq<int> {
    if ids == [] then [] else AssignedAt(ids, count, id, |ids|)
  }

  function AssignedAt(ids: seq<nat>, count: nat, id: nat, i: nat): seq<int>
    requires i <= |ids| && ids != []
  {
    if i == 0 then []
    else if ids[i - 1] == id then Dealt(count, |ids|, i - 1)
    else AssignedAt(ids, count, id, i - 1)
  }

  lemma {:induction false} AssignmentAt(ids: seq<nat>, count: nat, i: nat, k: nat)
    requires StrictlySorted(ids) && i < k <= |ids|
    ensures AssignedAt(ids, count, ids[i], k) == Dealt(count, |ids|, i)
  {
    if k - 1 != i {
      AssignmentAt(ids, count, i, k - 1);
    }
  }

  /** A position gets exactly the partitions congruent to it, each once and in order. */
  lemma {:induction false} DealtExactly(count: nat, n: nat, i: nat)
    requires i < n
    ensures forall p :: p in Dealt(count, n, i) <==> 0 <= p < count && p % n == i
    ensures Rising(Dealt(count, n, i))
  {
    if count > 0 {
      DealtExactly(count - 1, n, i);
      var before := Dealt(count - 1, n, i);
      assert Rising(before + [count - 1]);
    }
  }

  predicate Rising(ps: seq<int>) {
    forall j, k :: 0 <= j < k < |ps| ==> ps[j] < ps[k]
  }

  lemma DivStep(p: nat, n: nat)
    requires p > 0 && n > 0
    ensures p % n == 0 ==> (p - 1) % n == n - 1 && (p - 1) / n == p / n - 1
    ensures p % n != 0 ==> (p - 1) % n == p % n - 1 && (p - 1) / n == p / n
  {
    var q, r := p / n, p % n;
    assert p == q * n + r;
    if r == 0 {
      assert p - 1 == (q - 1) * n + (n - 1);
      Quotient(p - 1, n, q - 1, n - 1);
    } else {
      Quotient(p - 1, n, q, r - 1);
    }
  }

  lemma Quotient(p: int, n: nat, q: int, r: nat)
    requires n > 0 && r < n && p == q * n + r
    ensures p / n == q && p % n == r
  {
    var d := p / n - q;
    assert p == (p / n) * n + p % n;
    assert d * n == r - p % n;
    Multiple(d, n);
  }

  lemma Multiple(d: int, n: int)
    requires n > 0
    ensures d >= 1 ==> d * n >= n
    ensures d <= -1 ==> d * n <= -n
  {
  }

  /** A position's load: the quotient, and one more for the first `count % n` positions. */
  lemma {:induction false} DealtLoad(count: nat, n: nat, i: nat)
    requires i < n
    ensures |Dealt(count, n, i)| == count / n + (if i < count % n then 1 else 0)
  {
    if count > 0 {
      DealtLoad(count - 1, n, i);
      DivStep(count, n);
    } else {
      Quotient(0, n, 0, 0);
    }
  }

  /** A set of ids has one sorted listing, however it was built. */
  lemma {:induction false} SortedListingIsUnique(a: seq<nat>, b: seq<nat>, members: set<nat>)
    requires Lists(a, members) && Lists(b, members)
    ensures a == b
    decreases |a|
  {
    ListsNothing(a, members);
    ListsNothing(b, members);
    if a != [] {
      var x, y := a[|a| - 1], b[|b| - 1];
      assert x in b && y in a;
      var rest := members - {x};
      assert x == y;
      WithoutLast(a, members);
      WithoutLast(b, members);
      SortedListingIsUnique(a[..|a| - 1], b[..|b| - 1], rest);
    }
  }

  lemma ListsNothing(a: seq<nat>, members: set<nat>)
    requires Lists(a, members)
    ensures a == [] <==> members == {}
  {
    if a != [] {
      assert a[0] in members;
    }
  }

  lemma WithoutLast(a: seq<nat>, members: set<nat>)
    requires Lists(a, members) && a != []
    ensures Lists(a[..|a| - 1], members - {a[|a| - 1]})
  {
    var front, x := a[..|a| - 1], a[|a| - 1];
    assert a == front + [x];
    assert x !in front;
  }

  /** After a rebalance of a non-empty group: every partition belongs to exactly one member, once; loads
      differ by at most one. */
  lemma RebalanceIsFair(ids: seq<nat>, members: set<nat>, count: nat)
    requires Lists(ids, members) && ids != []
    ensures forall p :: 0 <= p < count ==>
              ids[p % |ids|] in members
              && forall id :: id in members ==> (p in Assignment(ids, count, id) <==> id == ids[p % |ids|])
    ensures forall id :: id in members ==> Rising(Assignment(ids, count, id))
    ensures forall a, b :: a in members && b in members ==>
              -1 <= |Assignment(ids, count, a)| - |Assignment(ids, count, b)| <= 1
  {
    hide Dealt, AssignedAt;
    forall id | id in members
      ensures forall p :: 0 <= p < count ==> (p in Assignment(ids, count, id) <==> id == ids[p % |ids|])
      ensures Rising(Assignment(ids, count, id))
      ensures count / |ids| <= |Assignment(ids, count, id)| <= count / |ids| + 1
    {
      var i :| 0 <= i < |ids| && ids[i] == id;
      AssignmentAt(ids, count, i, |ids|);
      DealtExactly(count, |ids|, i);
      DealtLoad(count, |ids|, i);
    }
  }

  lemma {:induction false} InRange(ids: seq<nat>, count: nat, c: nat, k: nat)
    requires ids != [] && k <= |ids|
    ensures forall p :: p in AssignedAt(ids, count, c, k) ==> 0 <= p < count
  {
    if k > 0 {
      InRange(ids, count, c, k - 1);
    }
  }

  /** Insert into a sorted listing. */
  function Insert(ids: seq<nat>, x: nat): seq<nat> {
    if ids == [] then [x]
    else if x < ids[0] then [x] + ids
    else if x == ids[0] then ids
    else [ids[0]] + Insert(ids[1..], x)
  }

  lemma {:induction false} InsertMembers(ids: seq<nat>, x: nat)
    ensures forall y :: y in Insert(ids, x) <==> y in ids || y == x
  {
    if ids != [] && x > ids[0] {
      InsertMembers(ids[1..], x);
      assert ids == [ids[0]] + ids[1..];
    }
  }

  lemma {:induction false} InsertSorted(ids: seq<nat>, x: nat)
    requires StrictlySorted(ids)
    ensures StrictlySorted(Insert(ids, x))
  {
    if ids != [] && x > ids[0] {
      var rest, more := ids[1..], Insert(ids[1..], x);
      InsertSorted(rest, x);
      InsertMembers(rest, x);
      assert forall i :: 0 <= i < |more| ==> more[i] in more;
      assert StrictlySorted([ids[0]] + more);
    }
  }

  /** Take an id out of a listing. */
  function Remove(ids: seq<nat>, x: nat): seq<nat> {
    if ids == [] then []
    else if ids[0] == x then Remove(ids[1..], x)
    else [ids[0]] + Remove(ids[1..], x)
  }

  lemma {:induction false} RemoveMembers(ids: seq<nat>, x: nat)
    ensures forall y :: y in Remove(ids, x) <==> y in ids && y != x
  {
    if ids != [] {
      RemoveMembers(ids[1..], x);
      assert ids == [ids[0]] + ids[1..];
    }
  }

  lemma {:induction false} RemoveSorted(ids: seq<nat>, x: nat)
    requires StrictlySorted(ids)
    ensures StrictlySorted(Remove(ids, x))
  {
    if ids != [] {
      var rest, less := ids[1..], Remove(ids[1..], x);
      RemoveSorted(rest, x);
      RemoveMembers(rest, x);
      assert forall i :: 0 <= i < |less| ==> less[i] in less;
      assert forall y :: y in rest ==> ids[0] < y;
      assert StrictlySorted([ids[0]] + less);
    }
  }

  /** Exactly the owner is assigned the partition. */
  lemma OnlyOwner(ids: seq<nat>, members: set<nat>, count: nat, p: int, id: nat)
    requires Lists(ids, members) && id in members
    ensures ids != []
    ensures p in Assignment(ids, count, id) <==> 0 <= p < count && id == ids[p % |ids|]
  {
    ListsNothing(ids, members);
    RebalanceIsFair(ids, members, count);
    InRange(ids, count, id, |ids|);
  }
}
