/**
 Consumer groups: at every join and leave the partitions are dealt anew, and each message goes to the one
 consumer that owns its partition, or after its retries to the dead-letter queue.
 */
module ConsumerGroups {
  import opened DeadLetters
  import opened Inboxes
  import opened Options
  import opened Rebalancing

  class Consumer {
    const id: nat
    const capacity: nat
    var assignments: seq<int>
    var msgCh: seq<Message>
    var pushCh: Option<seq<Message>>
    var closed: bool
    /** What has been read from either channel. */
    ghost var pulled: seq<Message>
    ghost var pushed: seq<Message>

    ghost function View(): Inbox<Message>
      reads this
    {
      Inbox(Channel(capacity, pulled + msgCh, |pulled|),
            if pushCh.Some? then Some(Channel(PUSH_BUFFER, pushed + pushCh.value, |pushed|)) else None, closed)
    }

    constructor (id: nat, capacity: nat)
      ensures this.id == id && this.capacity == capacity && assignments == [] && View() == NewInbox(capacity)
    {
      this.id, this.capacity, assignments, msgCh, pushCh, closed := id, capacity, [], [], None, false;
      pulled, pushed := [], [];
    }

    /** A push sink gets a channel of its own; later messages go there. */
    method AttachSink()
      modifies this`pushCh, this`pushed
      ensures View() == Happen(old(View()), SetSink)
    {
      if pushCh.None? {
        pushCh, pushed := Some([]), [];
        assert pushed + pushCh.value == [];
      }
    }

    method Shut()
      modifies this`closed
      ensures View() == Happen(old(View()), Close)
    {
      closed := true;
    }

    /** Non-blocking send; `Panic` is a send into the closed channel. */
    method Send(msg: Message) returns (r: Outcome)
      modifies this`msgCh, this`pushCh
      ensures (View(), r) == Deliver(old(View()), msg)
    {
      if pushCh.Some? {
        if |pushCh.value| >= PUSH_BUFFER { return Full; }
        assert pushed + pushCh.value + [msg] == pushed + (pushCh.value + [msg]);
        pushCh := Some(pushCh.value + [msg]);
        return Sent;
      }
      if closed { return Panic; }
      if |msgCh| >= capacity { return Full; }
      assert pulled + msgCh + [msg] == pulled + (msgCh + [msg]);
      msgCh := msgCh + [msg];
      return Sent;
    }

    /** The reader takes the oldest waiting message of a channel. */
    method Receive(fromPush: bool)
      modifies this`msgCh, this`pushCh, this`pulled, this`pushed
      ensures View() == Happen(old(View()), if fromPush then TakePush else TakePull)
    {
      if fromPush {
        if pushCh.Some? && pushCh.value != [] {
          var ch := pushCh.value;
          assert pushed + [ch[0]] + ch[1..] == pushed + ch;
          pushed, pushCh := pushed + [ch[0]], Some(ch[1..]);
        }
      } else if msgCh != [] {
        assert pulled + [msgCh[0]] + msgCh[1..] == pulled + msgCh;
        pulled, msgCh := pulled + [msgCh[0]], msgCh[1..];
      }
    }

    /** Whatever else goes on while a dispatch waits. */
    method Wait(events: seq<Event<Message>>)
      modifies this`msgCh, this`pushCh, this`pulled, this`pushed, this`closed
      ensures View() == HappenAll(old(View()), events)
    {
      for i := 0 to |events|
        invariant View() == HappenAll(old(View()), events[..i])
      {
        assert events[..i + 1][..i] == events[..i];
        match events[i]
        case TakePull => Receive(false);
        case TakePush => Receive(true);
        case Other(x) => var _ := Send(x);
        case SetSink => AttachSink();
        case Close => Shut();
      }
      assert events[..|events|] == events;
    }
  }

  function Get(m: map<nat, seq<int>>, id: nat): seq<int> {
    if id in m then m[id] else []
  }

  class Group {
    const id: nat
    const partCount: nat
    const maxRetries: int
    const dlq: DeadLetterQueue
    var consumers: map<nat, Consumer>
    /** The sorted consumer ids of the last rebalance. */
    ghost var ids: seq<nat>

    ghost predicate Distinct()
      reads this
    {
      forall a, b :: a in consumers && b in consumers && a != b ==> consumers[a] != consumers[b]
    }

    /** Everyone holds what the last rebalance dealt. */
    ghost predicate Balanced()
      reads this, consumers.Values
    {
      Lists(ids, consumers.Keys)
      && forall c :: c in consumers ==> consumers[c].assignments == Assignment(ids, partCount, c)
    }

    ghost predicate Valid()
      reads this, dlq, consumers.Values
    {
      Distinct() && Balanced() && dlq.Valid()
    }

    /** No member has been closed. */
    ghost predicate AllOpen()
      reads this, consumers.Values
    {
      forall c :: c in consumers ==> !consumers[c].closed
    }

    constructor (id: nat, partCount: nat, maxRetries: int, dlq: DeadLetterQueue)
      requires dlq.Valid()
      ensures Valid() && AllOpen() && consumers == map[] && this.dlq == dlq && this.partCount == partCount
      ensures this.id == id && this.maxRetries == maxRetries
    {
      this.id, this.partCount, this.maxRetries, this.dlq := id, partCount, maxRetries, dlq;
      consumers := map[];
      ids := [];
    }

    static method SortIds(keys: set<nat>) returns (sorted: seq<nat>)
      ensures Lists(sorted, keys)
    {
      hide Insert;
      var todo := keys;
      sorted := [];
      while todo != {}
        invariant todo <= keys && Lists(sorted, keys - todo)
        decreases todo
      {
        var x :| x in todo;
        InsertMembers(sorted, x);
        InsertSorted(sorted, x);
        sorted := Insert(sorted, x);
        todo := todo - {x};
      }
    }

    /** Deal the partitions round-robin. */
    static method Deal(sorted: seq<nat>, count: nat) returns (m: map<nat, seq<int>>)
      requires StrictlySorted(sorted) && sorted != []
      ensures forall c: nat :: c in sorted ==> Get(m, c) == Assignment(sorted, count, c)
    {
      var n := |sorted|;
      m := map[];
      for p := 0 to count
        invariant forall i :: 0 <= i < n ==> Get(m, sorted[i]) == Dealt(p, n, i)
      {
        var cid := sorted[p % n];
        m := m[cid := Get(m, cid) + [p]];
      }
      forall c: nat | c in sorted ensures Get(m, c) == Assignment(sorted, count, c) {
        var i :| 0 <= i < n && sorted[i] == c;
        AssignmentAt(sorted, count, i, n);
      }
    }

    method Rebalance()
      requires Distinct()
      modifies this`ids, consumers.Values`assignments
      ensures Distinct() && Balanced()
    {
      var sorted := SortIds(consumers.Keys);
      ids := sorted;
      ListsNothing(sorted, consumers.Keys);
      if consumers.Keys == {} { return; }
      var dealt := Deal(sorted, partCount);
      AssignAll(dealt);
    }

    method AssignAll(dealt: map<nat, seq<int>>)
      requires Distinct()
      modifies consumers.Values`assignments
      ensures forall c :: c in consumers ==> consumers[c].assignments == Get(dealt, c)
    {
      var todo := consumers.Keys;
      while todo != {}
        invariant todo <= consumers.Keys
        invariant forall c :: c in consumers && c !in todo ==> consumers[c].assignments == Get(dealt, c)
        decreases todo
      {
        var c :| c in todo;
        consumers[c].assignments := Get(dealt, c);
        todo := todo - {c};
      }
    }

    method Join(cid: nat, bufferSize: nat) returns (ok: bool)
      requires Valid() && AllOpen()
      modifies this`consumers, this`ids, consumers.Values`assignments
      ensures Valid() && AllOpen() && ok == (cid !in old(consumers))
      ensures consumers.Keys == old(consumers.Keys) + {cid}
      ensures forall c :: c in old(consumers) ==> consumers[c] == old(consumers[c])
      ensures ok ==> fresh(consumers[cid]) && consumers[cid].View() == NewInbox(bufferSize)
    {
      hide Assignment, Lists;
      if cid in consumers { return false; }
      var c := new Consumer(cid, bufferSize);
      consumers := consumers[cid := c];
      Rebalance();
      return true;
    }

    /** The consumer's pull channel is closed and the others are dealt its partitions. */
    method Leave(cid: nat)
      requires Valid() && AllOpen()
      modifies this`consumers, this`ids, consumers.Values`assignments, consumers.Values`closed
      ensures Valid() && AllOpen() && consumers == old(consumers) - {cid}
      ensures cid in old(consumers) ==> old(consumers)[cid].View() == Happen(old(consumers[cid].View()), Close)
    {
      hide Assignment, Lists;
      if cid !in consumers { return; }
      var c := consumers[cid];
      c.Shut();
      consumers := consumers - {cid};
      Rebalance();
    }

    /** Whether a consumer is assigned a partition. */
    static method Assigned(c: Consumer, p: int) returns (yes: bool)
      ensures yes == (p in c.assignments)
    {
      for i := 0 to |c.assignments|
        invariant p !in c.assignments[..i]
      {
        if c.assignments[i] == p { return true; }
      }
      assert c.assignments[..|c.assignments|] == c.assignments;
      return false;
    }

    /** Retry after each wait, during which `waits[i]` happens to the consumer; then give up. */
    method HandleSlowConsumer(c: Consumer, msg: Message, waits: seq<seq<Event<Message>>>) returns (r: Outcome)
      requires dlq.Valid() && maxRetries <= |waits|
      modifies c`msgCh, c`pushCh, c`pulled, c`pushed, c`closed, dlq, dlq.buf
      ensures dlq.Valid() && (dlq.buf == old(dlq.buf) || fresh(dlq.buf))
      ensures (c.View(), r) == Retries(old(c.View()), msg, waits, if maxRetries < 0 then 0 else maxRetries)
      ensures dlq.Contents() == if r == Full then Pushed(old(dlq.Contents()), DeadLetter(msg), dlq.maxSize)
                                else old(dlq.Contents())
    {
      hide HappenAll, Deliver;
      var attempt := 0;
      r := Full;
      while attempt < maxRetries
        invariant 0 <= attempt && (attempt <= maxRetries || attempt == 0) && r == Full
        invariant (c.View(), r) == Retries(old(c.View()), msg, waits, attempt)
        modifies c`msgCh, c`pushCh, c`pulled, c`pushed, c`closed
        decreases maxRetries - attempt
      {
        c.Wait(waits[attempt]);
        r := c.Send(msg);
        attempt := attempt + 1;
        if r != Full {
          RetriesSettle(old(c.View()), msg, waits, attempt, maxRetries);
          return;
        }
      }
      dlq.Push(DeadLetter(msg));
    }

    function DeadLetter(msg: Message): Entry {
      Entry(Some(msg), id, maxRetries)
    }

    /** Somebody owns the partition. */
    ghost predicate Owned(p: int)
      reads this
    {
      consumers.Keys != {} && 0 <= p < partCount
    }

    /** The id of its owner. */
    ghost function OwnerOf(p: int): nat
      requires Lists(ids, consumers.Keys) && Owned(p)
      reads this
      ensures OwnerOf(p) in consumers
    {
      ListsNothing(ids, consumers.Keys);
      ids[p % |ids|]
    }

    /** The delivery loop, under the group's lock: whoever is assigned the partition is offered the message. */
    method Offer(msg: Message) returns (slow: Consumer?)
      requires Valid() && AllOpen()
      modifies consumers.Values`msgCh, consumers.Values`pushCh
      ensures Valid() && AllOpen()
      ensures forall c :: c in consumers && !(Owned(msg.partition) && c == OwnerOf(msg.partition)) ==>
                unchanged(consumers[c])
      ensures !Owned(msg.partition) ==> slow == null
      ensures Owned(msg.partition) ==>
                var o := consumers[OwnerOf(msg.partition)];
                var (inbox, r) := Deliver(old(o.View()), msg);
                o.View() == inbox && r != Panic && slow == if r == Sent then null else o
    {
      hide Assignment, Lists, OwnerOf, DeadLetterQueue.Valid, Consumer.View;
      slow := null;
      var todo := consumers.Keys;
      ghost var owned := Owned(msg.partition);
      ghost var key := if owned then OwnerOf(msg.partition) else 0;
      while todo != {} && slow == null
        invariant todo <= consumers.Keys && Valid() && AllOpen()
        invariant forall c :: c in consumers && !(owned && c == key) ==> unchanged(consumers[c])
        invariant !owned ==> slow == null
        invariant owned && key in todo ==> slow == null && unchanged(consumers[key])
        invariant owned && key !in todo ==> Offered(old(consumers[key].View()), consumers[key], msg, slow)
        decreases todo
      {
        var c :| c in todo;
        todo := todo - {c};
        MineExactly(msg.partition, c);
        var mine := Assigned(consumers[c], msg.partition);
        if mine {
          SendIsSafe(consumers[c], msg);
          var r := consumers[c].Send(msg);
          if r != Sent {
            slow := consumers[c];
          }
        }
      }
    }

    /** How an offer to the owner went. */
    static ghost predicate Offered(before: Inbox<Message>, o: Consumer, msg: Message, slow: Consumer?)
      reads o
    {
      var (inbox, r) := Deliver(before, msg);
      o.View() == inbox && r != Panic && slow == if r == Sent then null else o
    }

    lemma MineExactly(p: int, c: nat)
      requires Balanced() && c in consumers
      ensures p in consumers[c].assignments <==> Owned(p) && c == OwnerOf(p)
    {
      OnlyOwner(ids, consumers.Keys, partCount, p, c);
    }

    static lemma SendIsSafe(c: Consumer, msg: Message)
      requires !c.closed
      ensures Deliver(c.View(), msg).1 != Panic
    {
    }

    /** A message for a valid partition of a non-empty group: offered to the owner, and if that finds no room,
        retried while anything may happen to the owner. It is handed to the owner, or queued as a dead letter,
        or a retry panics; no other consumer is touched. */
    method Dispatch(msg: Message, waits: seq<seq<Event<Message>>>) returns (r: Outcome)
      requires Valid() && AllOpen() && maxRetries <= |waits|
      modifies consumers.Values, dlq, dlq.buf
      ensures Valid()
      ensures forall c :: c in consumers && !(Owned(msg.partition) && c == OwnerOf(msg.partition)) ==>
                unchanged(consumers[c])
      ensures !Owned(msg.partition) ==> dlq.Contents() == old(dlq.Contents())
      ensures Owned(msg.partition) ==>
                var o := consumers[OwnerOf(msg.partition)];
                (o.View(), r) == Attempts(old(o.View()), msg, waits, if maxRetries < 0 then 0 else maxRetries)
      ensures Owned(msg.partition) ==>
                dlq.Contents() == if r == Full then Pushed(old(dlq.Contents()), DeadLetter(msg), dlq.maxSize)
                                  else old(dlq.Contents())
    {
      hide Assignment, Lists, OwnerOf, Deliver, Retries, Consumer.View;
      var slow := Offer(msg);
      r := Sent;
      if slow != null {
        r := HandleSlowConsumer(slow, msg, waits);
      }
    }
  }

  /** However two groups came about, by whatever joins and leaves in whatever order: the same members over
      the same number of partitions have the same assignment. */
  lemma SameMembersSameAssignment(g: Group, h: Group, c: nat)
    requires g.Balanced() && h.Balanced() && g.partCount == h.partCount
    requires g.consumers.Keys == h.consumers.Keys && c in g.consumers
    ensures g.consumers[c].assignments == h.consumers[c].assignments
  {
    SortedListingIsUnique(g.ids, h.ids, g.consumers.Keys);
  }
}
