/**
 The dead-letter queue: a bounded queue over a backing array that drops its oldest entry when full,
 with filters that split it in place.
 */
module DeadLetters {
  import opened Options

  datatype Message = Message(id: nat, topic: nat, partition: int)

  /** Names are numbers; 0 is the empty name, which as a filter matches everything. */
  datatype Entry = Entry(original: Option<Message>, group: nat, attempts: int)

  predicate Matches(e: Entry, group: nat, topic: nat) {
    && (group == 0 || e.group == group)
    && (topic == 0 || e.original.None? || e.original.value.topic == topic)
  }

  // ---------------------------------------------------------------------
  // Splitting a queue

  /** The first `limit` matching entries. */
  function Taken(es: seq<Entry>, group: nat, topic: nat, limit: nat): seq<Entry> {
    if es == [] then []
    else
      var t, e := Taken(es[..|es| - 1], group, topic, limit), es[|es| - 1];
      if |t| < limit && Matches(e, group, topic) then t + [e] else t
  }

  /** The entries that stay. */
  function Left(es: seq<Entry>, group: nat, topic: nat, limit: nat): (r: seq<Entry>)
    ensures |r| <= |es|
  {
    if es == [] then []
    else
      var t, e := Taken(es[..|es| - 1], group, topic, limit), es[|es| - 1];
      var r := Left(es[..|es| - 1], group, topic, limit);
      if |t| < limit && Matches(e, group, topic) then r else r + [e]
  }

  lemma SplitStep(es: seq<Entry>, r: nat, group: nat, topic: nat, limit: nat)
    requires r < |es|
    ensures var taken, left, e := Taken(es[..r], group, topic, limit), Left(es[..r], group, topic, limit), es[r];
            if |taken| < limit && Matches(e, group, topic)
            then Taken(es[..r + 1], group, topic, limit) == taken + [e]
                 && Left(es[..r + 1], group, topic, limit) == left
            else Taken(es[..r + 1], group, topic, limit) == taken
                 && Left(es[..r + 1], group, topic, limit) == left + [e]
  {
    hide Matches;
    assert es[..r + 1][..r] == es[..r];
  }

  lemma NothingSplit(es: seq<Entry>, group: nat, topic: nat, limit: nat)
    ensures Taken(es[..0], group, topic, limit) == [] && Left(es[..0], group, topic, limit) == []
  {
  }

  /** All matching entries, in order. */
  function Matching(es: seq<Entry>, group: nat, topic: nat): seq<Entry> {
    if es == [] then []
    else if Matches(es[|es| - 1], group, topic) then Matching(es[..|es| - 1], group, topic) + [es[|es| - 1]]
    else Matching(es[..|es| - 1], group, topic)
  }

  /** `es` is `a` and `b` interleaved, both keeping their order. */
  predicate Merges(es: seq<Entry>, a: seq<Entry>, b: seq<Entry>) {
    if es == [] then a == [] && b == []
    else
      var front, e := es[..|es| - 1], es[|es| - 1];
      || (a != [] && a[|a| - 1] == e && Merges(front, a[..|a| - 1], b))
      || (b != [] && b[|b| - 1] == e && Merges(front, a, b[..|b| - 1]))
  }

  /** A replay takes exactly the first `limit` matching entries, and what it takes and what it leaves
      are together the queue, each in its old order. */
  lemma {:induction false} ReplaySplitsStably(es: seq<Entry>, group: nat, topic: nat, limit: nat)
    ensures var all, taken := Matching(es, group, topic), Taken(es, group, topic, limit);
            taken == if |all| <= limit then all else all[..limit]
    ensures Merges(es, Taken(es, group, topic, limit), Left(es, group, topic, limit))
    ensures |Taken(es, group, topic, limit)| + |Left(es, group, topic, limit)| == |es|
  {
    hide Matches;
    if es != [] {
      var front := es[..|es| - 1];
      ReplaySplitsStably(front, group, topic, limit);
      var taken, left := Taken(front, group, topic, limit), Left(front, group, topic, limit);
      assert (taken + [es[|es| - 1]])[..|taken|] == taken;
      assert (left + [es[|es| - 1]])[..|left|] == left;
    }
  }

  lemma {:induction false} SplitMembers(es: seq<Entry>, group: nat, topic: nat, limit: nat)
    ensures forall e :: e in Taken(es, group, topic, limit) ==> e in es && Matches(e, group, topic)
    ensures forall e :: e in Left(es, group, topic, limit) ==> e in es
    ensures |Taken(es, group, topic, limit)| < limit ==>
              forall e :: e in Left(es, group, topic, limit) <==> e in es && !Matches(e, group, topic)
  {
    hide Matches;
    if es != [] {
      var front := es[..|es| - 1];
      SplitMembers(front, group, topic, limit);
      assert es == front + [es[|es| - 1]];
    }
  }

  /** An entry of another group than the one asked for, or of another topic. A name that is not given excludes nothing,
      and an entry without its message is of no topic. */
  predicate IsOther(e: Entry, group: nat, topic: nat) {
    (group != 0 && e.group != group) || (topic != 0 && e.original.Some? && e.original.value.topic != topic)
  }

  /** A replay takes no entry of another group or topic, and if it stays below its limit leaves only such. */
  lemma ReplayTakesItsOwn(es: seq<Entry>, group: nat, topic: nat, limit: nat)
    ensures forall e :: e in Taken(es, group, topic, limit) ==> e in es && !IsOther(e, group, topic)
    ensures |Taken(es, group, topic, limit)| < limit ==>
              forall e :: e in Left(es, group, topic, limit) <==> e in es && IsOther(e, group, topic)
  {
    hide Taken, Left;
    SplitMembers(es, group, topic, limit);
  }

  /** A purge leaves exactly the entries of other groups and topics. */
  lemma {:induction false} PurgeLeavesOthers(es: seq<Entry>, group: nat, topic: nat, limit: nat)
    requires limit >= |es|
    ensures forall e :: e in Left(es, group, topic, limit) <==> e in es && IsOther(e, group, topic)
    ensures |Taken(es, group, topic, limit)| <= |es|
  {
    if es != [] {
      var front := es[..|es| - 1];
      PurgeLeavesOthers(front, group, topic, limit);
      assert es == front + [es[|es| - 1]];
    }
  }

  /** The queue after a push. */
  function Pushed(es: seq<Entry>, e: Entry, maxSize: nat): seq<Entry> {
    if maxSize <= |es| && es != [] then es[1..] + [e] else es + [e]
  }

  function PushedAll(es: seq<Entry>, more: seq<Entry>, maxSize: nat): seq<Entry> {
    if more == [] then es
    else Pushed(PushedAll(es, more[..|more| - 1], maxSize), more[|more| - 1], maxSize)
  }

  /** Any number of pushes leave the newest `maxSize` entries. */
  lemma {:induction false} PushesKeepNewest(es: seq<Entry>, more: seq<Entry>, maxSize: nat)
    requires 0 < maxSize && |es| <= maxSize
    ensures var all := es + more;
            PushedAll(es, more, maxSize) == if |all| <= maxSize then all else all[|all| - maxSize..]
  {
    if more == [] {
      assert es + more == es;
    } else {
      var front, last := more[..|more| - 1], more[|more| - 1];
      PushesKeepNewest(es, front, maxSize);
      assert es + more == (es + front) + [last];
    }
  }

  // ---------------------------------------------------------------------
  // The queue on its backing array

  class DeadLetterQueue {
    const maxSize: nat
    var buf: array<Entry>
    var lo: nat
    var hi: nat

    ghost predicate Valid()
      reads this
    {
      lo <= hi <= buf.Length && hi - lo <= maxSize && maxSize > 0
    }

    ghost function Contents(): (es: seq<Entry>)
      requires Valid()
      reads this, buf
      ensures |es| <= maxSize
    {
      buf[lo..hi]
    }

    constructor (maxSize: int)
      ensures Valid() && fresh(buf) && Contents() == []
      ensures this.maxSize == if maxSize <= 0 then 10_000 else maxSize
    {
      this.maxSize := if maxSize <= 0 then 10_000 else maxSize;
      buf := new Entry[0];
      lo, hi := 0, 0;
    }

    /** A larger backing array with the same entries at its start. */
    static method CopyOut(buf: array<Entry>, lo: nat, n: nat) returns (bigger: array<Entry>)
      requires lo + n <= buf.Length
      ensures fresh(bigger) && bigger.Length == 2 * n + 1 && bigger[..n] == buf[lo..lo + n]
    {
      var blank := Entry(None, 0, 0);
      bigger := new Entry[2 * n + 1](_ => blank);
      for i := 0 to n
        invariant bigger[..i] == buf[lo..lo + i]
      {
        bigger[i] := buf[lo + i];
      }
    }

    /** Room for one more at the end: a new backing array when the old one is used up. */
    method Grow()
      requires Valid()
      modifies this`buf, this`lo, this`hi
      ensures Valid() && Contents() == old(Contents()) && hi < buf.Length
      ensures buf == old(buf) || fresh(buf)
    {
      if hi == buf.Length {
        var n := hi - lo;
        var bigger := CopyOut(buf, lo, n);
        buf, lo, hi := bigger, 0, n;
      }
    }

    method PutLast(e: Entry)
      requires Valid() && hi < buf.Length && hi - lo < maxSize
      modifies this`hi, buf
      ensures Valid() && Contents() == old(Contents()) + [e]
    {
      buf[hi] := e;
      hi := hi + 1;
    }

    /** Drop the oldest entry of a full queue. */
    method MakeRoom()
      requires Valid()
      modifies this`lo
      ensures Valid() && hi - lo < maxSize
      ensures Contents() == if |old(Contents())| >= maxSize then old(Contents())[1..] else old(Contents())
    {
      if hi - lo >= maxSize {
        lo := lo + 1;
      }
    }

    /** Add an entry; a full queue drops its oldest. */
    method Push(e: Entry)
      requires Valid()
      modifies this, buf
      ensures Valid() && Contents() == Pushed(old(Contents()), e, maxSize)
      ensures buf == old(buf) || fresh(buf)
    {
      MakeRoom();
      Grow();
      PutLast(e);
    }

    /** The in-place filter over `buf[lo..hi]`: entries that stay move down over those that go, never
        past the reader. */
    static method FilterInPlace(buf: array<Entry>, lo: nat, hi: nat, group: nat, topic: nat, limit: nat)
      returns (removed: seq<Entry>, w: nat)
      requires lo <= hi <= buf.Length
      modifies buf
      ensures lo + w + |removed| == hi
      ensures removed == Taken(old(buf[lo..hi]), group, topic, limit)
      ensures buf[lo..lo + w] == Left(old(buf[lo..hi]), group, topic, limit)
    {
      hide Matches, Taken, Left;
      ghost var es := buf[lo..hi];
      removed, w := [], 0;
      NothingSplit(es, group, topic, limit);
      for r := 0 to hi - lo
        invariant w + |removed| == r
        invariant removed == Taken(es[..r], group, topic, limit)
        invariant buf[lo..lo + w] == Left(es[..r], group, topic, limit)
        invariant forall k :: lo + r <= k < hi ==> buf[k] == es[k - lo]
      {
        var e := buf[lo + r];
        SplitStep(es, r, group, topic, limit);
        if |removed| < limit && Matches(e, group, topic) {
          removed := removed + [e];
        } else {
          buf[lo + w] := e;
          w := w + 1;
        }
      }
      assert es[..|es|] == es;
    }

    method Filter(group: nat, topic: nat, limit: nat) returns (removed: seq<Entry>)
      requires Valid()
      modifies this`hi, buf
      ensures Valid() && |removed| + |Contents()| == |old(Contents())|
      ensures removed == Taken(old(Contents()), group, topic, limit)
      ensures Contents() == Left(old(Contents()), group, topic, limit)
    {
      var w;
      removed, w := FilterInPlace(buf, lo, hi, group, topic, limit);
      hi := lo + w;
    }

    method Replay(group: nat, topic: nat, limit: int) returns (removed: seq<Entry>)
      requires Valid()
      modifies this`hi, buf
      ensures Valid()
      ensures var n := if limit <= 0 then 10 else limit;
              removed == Taken(old(Contents()), group, topic, n) && Contents() == Left(old(Contents()), group, topic, n)
    {
      removed := Filter(group, topic, if limit <= 0 then 10 else limit);
    }

    method Purge(group: nat, topic: nat) returns (purged: nat)
      requires Valid()
      modifies this`hi, buf
      ensures Valid() && purged == |old(Contents())| - |Contents()|
      ensures forall e :: e in Contents() <==> e in old(Contents()) && IsOther(e, group, topic)
      ensures Contents() == Left(old(Contents()), group, topic, |old(Contents())|)
    {
      hide Taken, Left, Matches, IsOther;
      ghost var es := Contents();
      PurgeLeavesOthers(es, group, topic, hi - lo);
      var removed := Filter(group, topic, hi - lo);
      purged := |removed|;
    }
  }
}
