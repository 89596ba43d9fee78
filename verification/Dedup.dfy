/**
 Exactly-once publishing: a ring buffer of each client's last sequence numbers and a store of earlier
 results decide whether a message is appended or answered from memory.
 */
module Dedup {
  import opened Options

  /** A remembered (sequence number, offset) pair. */
  datatype Mark = Mark(seqNum: nat, offset: nat)

  /** The last `size` marks. */
  function Window(marks: seq<Mark>, size: nat): seq<Mark> {
    if |marks| <= size then marks else marks[|marks| - size..]
  }

  predicate Holds(marks: seq<Mark>, seqNum: nat) {
    exists i :: 0 <= i < |marks| && marks[i].seqNum == seqNum
  }

  // ---------------------------------------------------------------------
  // The ring buffer

  datatype Slot = Slot(seqNum: nat, offset: nat, valid: bool)

  /** The slot holding the `j`-th newest mark. */
  function SlotOf(head: nat, size: nat, j: nat): (i: nat)
    requires head < size && j < size
    ensures i < size
  {
    if j < head then head - 1 - j else head + size - 1 - j
  }

  /** The age of a slot: the inverse of the above. */
  function AgeOf(head: nat, size: nat, i: nat): (j: nat)
    requires head < size && i < size
    ensures j < size && SlotOf(head, size, j) == i
  {
    if i < head then head - 1 - i else head + size - 1 - i
  }

  class ClientWindow {
    const size: nat
    const ring: array<Slot>
    var head: nat
    ghost var marks: seq<Mark>

    ghost predicate Valid()
      reads this, ring
    {
      && 0 < size == ring.Length && head < size
      && (forall j :: 0 <= j < size && j < |marks| ==>
                        var m := marks[|marks| - 1 - j]; ring[SlotOf(head, size, j)] == Slot(m.seqNum, m.offset, true))
      && (forall j :: |marks| <= j < size ==> !ring[SlotOf(head, size, j)].valid)
    }

    constructor (size: nat)
      requires size > 0
      ensures Valid() && this.size == size && marks == [] && fresh(ring)
    {
      this.size := size;
      ring := new Slot[size](_ => Slot(0, 0, false));
      head := 0;
      marks := [];
    }

    /** A slot holds exactly the mark of its age, if there is one. */
    lemma SlotAt(i: nat)
      requires Valid() && i < size
      ensures ring[i].valid <==> AgeOf(head, size, i) < |marks|
      ensures ring[i].valid ==>
                var m := marks[|marks| - 1 - AgeOf(head, size, i)]; ring[i] == Slot(m.seqNum, m.offset, true)
    {
      assert SlotOf(head, size, AgeOf(head, size, i)) == i;
    }

    /** Scan the ring: found exactly when the sequence number is among the last `size` marks. */
    method Lookup(seqNum: nat) returns (offset: nat, found: bool)
      requires Valid()
      ensures found <==> Holds(Window(marks, size), seqNum)
      ensures found ==> Mark(seqNum, offset) in Window(marks, size)
    {
      ghost var w := Window(marks, size);
      for i := 0 to size
        invariant forall k :: 0 <= k < i ==> !(ring[k].valid && ring[k].seqNum == seqNum)
      {
        var e := ring[i];
        if e.valid && e.seqNum == seqNum {
          SlotAt(i);
          assert w[|w| - 1 - AgeOf(head, size, i)] == Mark(seqNum, e.offset);
          return e.offset, true;
        }
      }
      forall k | 0 <= k < |w| ensures w[k].seqNum != seqNum {
        assert ring[SlotOf(head, size, |w| - 1 - k)].seqNum == w[k].seqNum;
      }
      return 0, false;
    }

    /** Overwrite the oldest slot. */
    method DoMark(seqNum: nat, offset: nat)
      requires Valid()
      modifies this, ring
      ensures Valid() && marks == old(marks) + [Mark(seqNum, offset)]
    {
      hide SlotOf;
      ghost var h, were, slots := head, marks, ring[..];
      ring[head] := Slot(seqNum, offset, true);
      marks := marks + [Mark(seqNum, offset)];
      head := (head + 1) % size;
      forall j | 0 <= j < size
        ensures j < |marks| ==>
                  var m := marks[|marks| - 1 - j]; ring[SlotOf(head, size, j)] == Slot(m.seqNum, m.offset, true)
        ensures |marks| <= j ==> !ring[SlotOf(head, size, j)].valid
      {
        SlotShift(h, size, j);
        if j > 0 {
          assert ring[SlotOf(head, size, j)] == slots[SlotOf(h, size, j - 1)];
          assert j < |marks| ==> marks[|marks| - 1 - j] == were[|were| - 1 - (j - 1)];
        }
      }
    }
  }

  /** Moving the head by one makes every slot one older. */
  lemma SlotShift(head: nat, size: nat, j: nat)
    requires head < size && j < size
    ensures (head + 1) % size < size
    ensures SlotOf((head + 1) % size, size, j) == if j == 0 then head else SlotOf(head, size, j - 1)
    ensures j > 0 ==> SlotOf(head, size, j - 1) != head
  {
    assert (head + 1) % size == if head + 1 < size then head + 1 else 0;
  }

  // ---------------------------------------------------------------------
  // Publishing as a function

  type Message = nat

  /** An answer: which message, if it says so, and where it is. */
  datatype Result = Result(message: Option<Message>, partition: nat, offset: nat)

  /** One append that was made: by whom, under which number, and where it went. */
  datatype Append = Append(client: nat, seqNum: nat, result: Result)

  datatype Key = Key(client: nat, seqNum: nat)

  /** The partition logs, the store of earlier results, and (as history) every append ever made. */
  datatype State = State(logs: seq<seq<Message>>, store: map<Key, Result>, appends: seq<Append>)

  datatype Request = Request(client: nat, seqNum: nat, partition: nat, message: Message)

  function MarksOf(appends: seq<Append>, client: nat): seq<Mark> {
    if appends == [] then []
    else
      var rest, last := MarksOf(appends[..|appends| - 1], client), appends[|appends| - 1];
      if last.client == client then rest + [Mark(last.seqNum, last.result.offset)] else rest
  }

  /** The newest mark with a sequence number. */
  function Find(marks: seq<Mark>, seqNum: nat): Option<nat> {
    if marks == [] then None
    else if marks[|marks| - 1].seqNum == seqNum then Some(marks[|marks| - 1].offset)
    else Find(marks[..|marks| - 1], seqNum)
  }

  /** The answer from memory: the stored result, or the window's offset with the request's partition and no message. */
  function Remembered(st: State, size: nat, r: Request): Option<Result> {
    var key := Key(r.client, r.seqNum);
    if key in st.store then Some(st.store[key])
    else
      match Find(Window(MarksOf(st.appends, r.client), size), r.seqNum)
      case Some(offset) => Some(Result(None, r.partition, offset))
      case None => None
  }

  datatype Outcome = Rejected | Failed | Published(result: Result)

  function Publish(st: State, size: nat, r: Request, appendOk: bool): (State, Outcome) {
    if r.partition >= |st.logs| then (st, Failed)
    else if r.seqNum == 0 then (st, Rejected)
    else
      match Remembered(st, size, r)
      case Some(result) => (st, Published(result))
      case None =>
        if !appendOk then (st, Failed)
        else
          var result := Result(Some(r.message), r.partition, |st.logs[r.partition]|);
          (State(st.logs[r.partition := st.logs[r.partition] + [r.message]],
                 st.store[Key(r.client, r.seqNum) := result],
                 st.appends + [Append(r.client, r.seqNum, result)]),
           Published(result))
  }

  /** `kept` is the store without the sequence numbers below the bound. */
  ghost predicate Purges(store: map<Key, Result>, bound: nat, kept: map<Key, Result>) {
    forall k :: (k in kept <==> k in store && k.seqNum >= bound) && (k in kept ==> kept[k] == store[k])
  }

  // ---------------------------------------------------------------------
  // Exactly once

  /** Two marks of one client with the same number are more than a window apart. */
  ghost predicate Spaced(marks: seq<Mark>, size: nat) {
    forall i, j :: 0 <= i < j < |marks| && marks[i].seqNum == marks[j].seqNum ==> j - i > size
  }

  /** The last append under a key. */
  function LastAppend(appends: seq<Append>, key: Key): Option<Result> {
    if appends == [] then None
    else
      var last := appends[|appends| - 1];
      if last.client == key.client && last.seqNum == key.seqNum then Some(last.result)
      else LastAppend(appends[..|appends| - 1], key)
  }

  ghost predicate StoreOK(st: State) {
    forall k :: k in st.store ==> LastAppend(st.appends, k) == Some(st.store[k])
  }

  /** The message a result names is where it says. */
  predicate At(st: State, r: Result) {
    r.partition < |st.logs| && r.offset < |st.logs[r.partition]| && r.message == Some(st.logs[r.partition][r.offset])
  }

  ghost predicate InLogs(st: State) {
    forall i :: 0 <= i < |st.appends| ==> At(st, st.appends[i].result)
  }

  ghost predicate Inv(st: State, size: nat) {
    && StoreOK(st) && InLogs(st)
    && forall c: nat :: Spaced(MarksOf(st.appends, c), size)
  }

  lemma MarksOfMore(appends: seq<Append>, a: Append, client: nat)
    ensures MarksOf(appends + [a], client)
         == if a.client == client then MarksOf(appends, client) + [Mark(a.seqNum, a.result.offset)]
            else MarksOf(appends, client)
  {
    assert (appends + [a])[..|appends|] == appends;
  }

  lemma LastAppendMore(appends: seq<Append>, a: Append, key: Key)
    ensures LastAppend(appends + [a], key)
         == if key == Key(a.client, a.seqNum) then Some(a.result) else LastAppend(appends, key)
  {
    assert (appends + [a])[..|appends|] == appends;
  }

  lemma {:induction false} FindHolds(marks: seq<Mark>, seqNum: nat)
    ensures Find(marks, seqNum).Some? <==> Holds(marks, seqNum)
    ensures Find(marks, seqNum).Some? ==> Mark(seqNum, Find(marks, seqNum).value) in marks
  {
    if marks != [] {
      var front := marks[..|marks| - 1];
      FindHolds(front, seqNum);
      assert forall i :: 0 <= i < |front| ==> front[i] == marks[i];
    }
  }

  /** A number outside the window can be marked again and the marks stay spaced. */
  lemma SpacedMore(marks: seq<Mark>, m: Mark, size: nat)
    requires Spaced(marks, size) && Find(Window(marks, size), m.seqNum).None?
    ensures Spaced(marks + [m], size)
  {
    hide Find, Window;
    var w := Window(marks, size);
    FindHolds(w, m.seqNum);
    var all := marks + [m];
    forall i, j | 0 <= i < j < |all| && all[i].seqNum == all[j].seqNum ensures j - i > size {
      if j == |marks| {
        WindowHas(marks, size, i);
      }
    }
  }

  /** Of the marks exactly the last `size` are in the window. */
  lemma WindowHas(marks: seq<Mark>, size: nat, i: nat)
    requires i < |marks|
    ensures |marks| - i <= size ==> Holds(Window(marks, size), marks[i].seqNum)
  {
    var w := Window(marks, size);
    if |marks| - i <= size {
      assert w[i - (|marks| - |w|)] == marks[i];
    }
  }

  lemma PublishInv(st: State, size: nat, r: Request, appendOk: bool)
    requires Inv(st, size)
    ensures Inv(Publish(st, size, r, appendOk).0, size)
  {
    hide MarksOf, LastAppend, Find, Spaced;
    var after := Publish(st, size, r, appendOk).0;
    if after != st {
      var a := after.appends[|st.appends|];
      forall c: nat ensures Spaced(MarksOf(after.appends, c), size) {
        MarksOfMore(st.appends, a, c);
        if c == r.client {
          SpacedMore(MarksOf(st.appends, c), Mark(a.seqNum, a.result.offset), size);
        }
      }
      forall k | k in after.store ensures LastAppend(after.appends, k) == Some(after.store[k]) {
        LastAppendMore(st.appends, a, k);
      }
    }
  }

  lemma PurgeInv(st: State, size: nat, bound: nat, kept: map<Key, Result>)
    requires Inv(st, size) && Purges(st.store, bound, kept)
    ensures Inv(st.(store := kept), size)
  {
    hide MarksOf, LastAppend, Spaced;
  }

  /** A mark in the window belongs to the last append under its key. */
  lemma {:induction false} LastMark(appends: seq<Append>, client: nat, seqNum: nat)
    ensures LastAppend(appends, Key(client, seqNum)).Some? == Find(MarksOf(appends, client), seqNum).Some?
    ensures LastAppend(appends, Key(client, seqNum)).Some? ==>
              LastAppend(appends, Key(client, seqNum)).value.offset == Find(MarksOf(appends, client), seqNum).value
  {
    if appends != [] {
      var front := appends[..|appends| - 1];
      LastMark(front, client, seqNum);
      var marks := MarksOf(front, client);
      var last := appends[|appends| - 1];
      assert (marks + [Mark(last.seqNum, last.result.offset)])[..|marks|] == marks;
    }
  }

  lemma {:induction false} FindInWindow(marks: seq<Mark>, size: nat, seqNum: nat)
    requires Find(Window(marks, size), seqNum).Some?
    ensures Find(marks, seqNum) == Find(Window(marks, size), seqNum)
    decreases |marks|
  {
    var w := Window(marks, size);
    if marks[|marks| - 1].seqNum != seqNum && |marks| > size {
      var front := marks[..|marks| - 1];
      assert w[..|w| - 1] == Window(front, size - 1);
      FindInWindow(front, size - 1, seqNum);
    }
  }

  /** A key that is in its client's last `size` marks, or still in the store, is never appended again, and
      the retry gets the offset of its last append; any other valid request is appended. */
  lemma ExactlyOnce(st: State, size: nat, r: Request)
    requires Inv(st, size) && r.partition < |st.logs| && r.seqNum > 0
    ensures var window := Window(MarksOf(st.appends, r.client), size);
            var known := Key(r.client, r.seqNum) in st.store || Holds(window, r.seqNum);
            var (after, outcome) := Publish(st, size, r, true);
            && (known ==> after == st && outcome.Published? && LastAppend(st.appends, Key(r.client, r.seqNum)).Some?
                          && outcome.result.offset == LastAppend(st.appends, Key(r.client, r.seqNum)).value.offset)
            && (!known ==> |after.appends| == |st.appends| + 1
                           && after.logs[r.partition] == st.logs[r.partition] + [r.message]
                           && outcome == Published(Result(Some(r.message), r.partition, |st.logs[r.partition]|)))
  {
    hide MarksOf, LastAppend, Find, Spaced, Holds;
    var marks := MarksOf(st.appends, r.client);
    FindHolds(Window(marks, size), r.seqNum);
    LastMark(st.appends, r.client, r.seqNum);
    if Find(Window(marks, size), r.seqNum).Some? {
      FindInWindow(marks, size, r.seqNum);
    }
  }

  lemma {:induction false} LastIsThere(st: State, appends: seq<Append>, key: Key)
    requires forall i :: 0 <= i < |appends| ==> At(st, appends[i].result)
    ensures LastAppend(appends, key).Some? ==> At(st, LastAppend(appends, key).value)
  {
    if appends != [] {
      LastIsThere(st, appends[..|appends| - 1], key);
    }
  }

  /** A retry is answered with the very result of the last append if and only if the store still has it. The window
      remembers the offset only: the answer from it names no message, and the right partition if and only if the
      retry goes to the same one. */
  lemma RetryResultExactly(st: State, size: nat, r: Request)
    requires Inv(st, size) && r.partition < |st.logs| && r.seqNum > 0
    requires Remembered(st, size, r).Some?
    ensures var (after, outcome) := Publish(st, size, r, true);
            var first := LastAppend(st.appends, Key(r.client, r.seqNum));
            && after == st && outcome.Published? && first.Some? && At(st, first.value)
            && (outcome.result == first.value <==> Key(r.client, r.seqNum) in st.store)
            && (outcome.result.partition == first.value.partition
                <==> Key(r.client, r.seqNum) in st.store || r.partition == first.value.partition)
  {
    hide MarksOf, LastAppend, Find, Spaced, Holds;
    ExactlyOnce(st, size, r);
    LastIsThere(st, st.appends, Key(r.client, r.seqNum));
    FindHolds(Window(MarksOf(st.appends, r.client), size), r.seqNum);
  }

  /** Whatever is reported as published is in the log: the last append under its key is where it says, at the reported
      offset, and is the whole report if that names a message. What is not reported changed nothing. */
  lemma PublishedIsInTheLog(st: State, size: nat, r: Request, appendOk: bool)
    requires Inv(st, size)
    ensures var (after, outcome) := Publish(st, size, r, appendOk);
            var last := LastAppend(after.appends, Key(r.client, r.seqNum));
            && (outcome.Published? ==>
                  && last.Some? && At(after, last.value) && outcome.result.offset == last.value.offset
                  && (outcome.result.message.Some? ==> outcome.result == last.value))
            && (!outcome.Published? ==> after == st)
            && (outcome.Published? ==> r.seqNum > 0 && r.partition < |st.logs|)
            && (after != st ==> outcome.Published? && appendOk)
  {
    hide MarksOf, LastAppend, Find, Spaced, Holds;
    var (after, outcome) := Publish(st, size, r, appendOk);
    PublishInv(st, size, r, appendOk);
    LastIsThere(after, after.appends, Key(r.client, r.seqNum));
    if after != st {
      LastAppendMore(st.appends, after.appends[|st.appends|], Key(r.client, r.seqNum));
    } else if outcome.Published? {
      ExactlyOnce(st, size, r);
      FindHolds(Window(MarksOf(st.appends, r.client), size), r.seqNum);
    }
  }

  // ---------------------------------------------------------------------
  // Publishing through the broker

  /** The broker passes no client id, so every connection publishes as the one producer. */
  function AsProducer(producer: nat, connection: nat, seqNum: nat, partition: nat, message: Message): Request {
    Request(producer, seqNum, partition, message)
  }

  /** Two connections that use the same number: the second message is answered with the first one's result and is
      not appended. */
  lemma ConnectionsShareNumbers(st: State, size: nat, producer: nat, a: nat, b: nat, seqNum: nat, p: nat, q: nat,
                                first: Message, second: Message)
    requires Inv(st, size) && seqNum > 0 && p < |st.logs| && q < |st.logs|
    requires Remembered(st, size, AsProducer(producer, a, seqNum, p, first)).None?
    ensures var (after, _) := Publish(st, size, AsProducer(producer, a, seqNum, p, first), true);
            && after.logs[p] == st.logs[p] + [first]
            && Publish(after, size, AsProducer(producer, b, seqNum, q, second), true)
               == (after, Published(Result(Some(first), p, |st.logs[p]|)))
  {
    hide MarksOf, LastAppend, Find, Spaced;
  }

  // ---------------------------------------------------------------------
  // The producer as the broker holds it

  class DedupWindow {
    const size: nat
    var perClient: map<nat, ClientWindow>
    ghost var Repr: set<object>

    ghost predicate Owns(w: ClientWindow)
      reads this
    {
      w in Repr && w.ring in Repr
    }

    ghost predicate Valid()
      reads this, Repr
    {
      && this in Repr && size > 0
      && (forall c :: c in perClient ==> Owns(perClient[c]) && perClient[c].Valid() && perClient[c].size == size)
      && (forall c, d :: c in perClient && d in perClient && c != d ==>
                           perClient[c] != perClient[d] && perClient[c].ring != perClient[d].ring)
    }

    /** Everything ever marked for a client. */
    ghost function Marks(client: nat): seq<Mark>
      requires Valid()
      reads this, Repr
    {
      if client in perClient then perClient[client].marks else []
    }

    constructor (size: int)
      ensures Valid() && fresh(Repr) && this.size == (if size <= 0 then 10_000 else size)
      ensures forall c: nat :: Marks(c) == []
    {
      this.size := if size <= 0 then 10_000 else size;
      perClient := map[];
      Repr := {this};
    }

    method LookupOffset(client: nat, seqNum: nat) returns (offset: nat, found: bool)
      requires Valid()
      ensures found <==> Holds(Window(Marks(client), size), seqNum)
      ensures found ==> Mark(seqNum, offset) in Window(Marks(client), size)
    {
      if client !in perClient {
        return 0, false;
      }
      offset, found := perClient[client].Lookup(seqNum);
    }

    method DoMark(client: nat, seqNum: nat, offset: nat)
      requires Valid()
      modifies Repr
      ensures Valid() && fresh(Repr - old(Repr))
      ensures Marks(client) == old(Marks(client)) + [Mark(seqNum, offset)]
      ensures forall c: nat :: c != client ==> Marks(c) == old(Marks(c))
    {
      hide ClientWindow.Valid;
      if client !in perClient {
        var w := new ClientWindow(size);
        perClient := perClient[client := w];
        Repr := Repr + {w, w.ring};
      }
      perClient[client].DoMark(seqNum, offset);
    }
  }

  /** In a window of spaced marks a sequence number has one offset. */
  lemma UniqueInWindow(marks: seq<Mark>, size: nat, m: Mark)
    requires Spaced(marks, size) && m in Window(marks, size)
    ensures Find(Window(marks, size), m.seqNum) == Some(m.offset)
  {
    hide Find;
    var w := Window(marks, size);
    FindHolds(w, m.seqNum);
    var found := Mark(m.seqNum, Find(w, m.seqNum).value);
    var i, j :| 0 <= i < |w| && w[i] == m && 0 <= j < |w| && w[j] == found;
    assert w[i] == marks[|marks| - |w| + i] && w[j] == marks[|marks| - |w| + j];
  }

  class Producer {
    const dedup: DedupWindow
    var store: map<Key, Result>
    var logs: seq<seq<Message>>
    ghost var appends: seq<Append>

    ghost function View(): State
      reads this
    {
      State(logs, store, appends)
    }

    ghost predicate Valid()
      reads this, dedup, dedup.Repr
    {
      && dedup.Valid() && this !in dedup.Repr
      && Inv(View(), dedup.size)
      && forall c: nat :: dedup.Marks(c) == MarksOf(appends, c)
    }

    constructor (partitions: nat, size: int)
      ensures Valid() && fresh(dedup.Repr)
      ensures View() == State(seq(partitions, _ => []), map[], [])
    {
      dedup := new DedupWindow(size);
      store := map[];
      logs := seq(partitions, _ => []);
      appends := [];
    }

    /** The answer from memory, if there is one. */
    method Recall(r: Request) returns (known: Option<Result>)
      requires Valid()
      ensures known == Remembered(View(), dedup.size, r)
    {
      hide Find, Holds;
      ghost var marks := MarksOf(appends, r.client);
      assert dedup.Marks(r.client) == marks;
      FindHolds(Window(marks, dedup.size), r.seqNum);
      var key := Key(r.client, r.seqNum);
      var offset, inWindow := dedup.LookupOffset(r.client, r.seqNum);
      if inWindow {
        UniqueInWindow(marks, dedup.size, Mark(r.seqNum, offset));
        return if key in store then Some(store[key]) else Some(Result(None, r.partition, offset));
      }
      return if key in store then Some(store[key]) else None;
    }

    method DoPublish(r: Request, appendOk: bool) returns (outcome: Outcome)
      requires Valid()
      modifies this, dedup.Repr
      ensures Valid() && fresh(dedup.Repr - old(dedup.Repr))
      ensures (View(), outcome) == Publish(old(View()), dedup.size, r, appendOk)
    {
      hide Inv, Remembered, MarksOf, DedupWindow.Valid;
      PublishInv(View(), dedup.size, r, appendOk);
      if r.partition >= |logs| { return Failed; }
      if r.seqNum == 0 { return Rejected; }
      var known := Recall(r);
      if known.Some? { return Published(known.value); }
      if !appendOk { return Failed; }
      var offset := |logs[r.partition]|;
      var result := Result(Some(r.message), r.partition, offset);
      logs := logs[r.partition := logs[r.partition] + [r.message]];
      dedup.DoMark(r.client, r.seqNum, offset);
      store := store[Key(r.client, r.seqNum) := result];
      ghost var a := Append(r.client, r.seqNum, result);
      forall c: nat ensures MarksOf(appends + [a], c) == dedup.Marks(c) {
        MarksOfMore(appends, a, c);
      }
      appends := appends + [a];
      outcome := Published(result);
    }

    /** Forget the stored results below a sequence number. */
    method PurgeIdempotencyStore(olderThan: nat)
      requires Valid()
      modifies this`store
      ensures Valid() && logs == old(logs) && appends == old(appends)
      ensures Purges(old(store), olderThan, store)
    {
      hide Inv, MarksOf, DedupWindow.Valid;
      var kept := Purged(store, olderThan);
      PurgeInv(View(), dedup.size, olderThan, kept);
      store := kept;
    }

    static method Purged(store: map<Key, Result>, olderThan: nat) returns (kept: map<Key, Result>)
      ensures Purges(store, olderThan, kept)
    {
      var todo := store.Keys;
      kept := store;
      while todo != {}
        invariant todo <= store.Keys
        invariant forall k :: k in kept <==> k in store && (k in todo || k.seqNum >= olderThan)
        invariant forall k :: k in kept ==> kept[k] == store[k]
        decreases todo
      {
        var k :| k in todo;
        if k.seqNum < olderThan {
          kept := kept - {k};
        }
        todo := todo - {k};
      }
    }
  }
}
