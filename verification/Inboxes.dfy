/**
 What a consumer receives through: a bounded pull channel that is closed when the consumer leaves, and
 a push channel once a sink has been set. A send never waits.
 */
module Inboxes {
  import opened Options

  const PUSH_BUFFER := 512

  /** A bounded channel: everything ever sent into it, and how much of that has been read. */
  datatype Channel<T> = Channel(size: nat, sent: seq<T>, read: nat) {
    predicate HasRoom() {
      |sent| - read < size
    }

    function Put(x: T): Channel<T> {
      this.(sent := sent + [x])
    }

    function Take(): Channel<T> {
      if read < |sent| then this.(read := read + 1) else this
    }
  }

  datatype Inbox<T> = Inbox(pull: Channel<T>, push: Option<Channel<T>>, closed: bool)

  datatype Outcome = Sent | Full | Panic

  function NewInbox<T>(size: nat): Inbox<T> {
    Inbox(Channel(size, [], 0), None, false)
  }

  /** Everything a consumer was ever handed. */
  function Accepted<T>(b: Inbox<T>): seq<T> {
    b.pull.sent + (if b.push.Some? then b.push.value.sent else [])
  }

  /** A send into the push or the pull channel. Sending into a closed pull channel panics, full or not. */
  function SendVia<T>(b: Inbox<T>, x: T, viaPush: bool): (Inbox<T>, Outcome) {
    if viaPush && b.push.Some? then
      if b.push.value.HasRoom() then (b.(push := Some(b.push.value.Put(x))), Sent) else (b, Full)
    else if b.closed then (b, Panic)
    else if b.pull.HasRoom() then (b.(pull := b.pull.Put(x)), Sent)
    else (b, Full)
  }

  /** A delivery goes to the push channel if there is one. */
  function Deliver<T>(b: Inbox<T>, x: T): (Inbox<T>, Outcome) {
    SendVia(b, x, b.push.Some?)
  }

  /** What else may happen to an inbox: the reader takes a message, another dispatch sends one, a sink is set,
      the consumer leaves. */
  datatype Event<T> = TakePull | TakePush | Other(x: T) | SetSink | Close

  function Happen<T>(b: Inbox<T>, e: Event<T>): Inbox<T> {
    match e
    case TakePull => b.(pull := b.pull.Take())
    case TakePush => if b.push.Some? then b.(push := Some(b.push.value.Take())) else b
    case Other(x) => Deliver(b, x).0
    case SetSink => if b.push.Some? then b else b.(push := Some(Channel(PUSH_BUFFER, [], 0)))
    case Close => b.(closed := true)
  }

  function HappenAll<T>(b: Inbox<T>, es: seq<Event<T>>): Inbox<T> {
    if es == [] then b else Happen(HappenAll(b, es[..|es| - 1]), es[|es| - 1])
  }

  /** Retry up to `n` times, `waits[i]` happening before the `i`-th retry: the inbox then, and how the last
      attempt went. `Full` means that every retry found the channel full, or that there was none. */
  function Retries<T>(b: Inbox<T>, x: T, waits: seq<seq<Event<T>>>, n: nat): (Inbox<T>, Outcome)
    requires n <= |waits|
  {
    if n == 0 then (b, Full)
    else
      var (before, outcome) := Retries(b, x, waits, n - 1);
      if outcome != Full then (before, outcome) else Deliver(HappenAll(before, waits[n - 1]), x)
  }

  // ---------------------------------------------------------------------
  // What an attempt does

  /** A send hands on the message exactly when it says so. */
  lemma SendHandsOn<T>(b: Inbox<T>, x: T, viaPush: bool)
    ensures var (after, outcome) := SendVia(b, x, viaPush);
            && (outcome == Sent ==> multiset(Accepted(after)) == multiset(Accepted(b)) + multiset{x})
            && (outcome != Sent ==> after == b)
            && (outcome == Panic <==> b.closed && !(viaPush && b.push.Some?))
            && after.closed == b.closed && after.push.Some? == b.push.Some?
  {
    hide Accepted;
    if viaPush && b.push.Some? {
      PushedOnce(b, x);
    } else {
      PulledOnce(b, x);
    }
  }

  lemma PushedOnce<T>(b: Inbox<T>, x: T)
    requires b.push.Some?
    ensures multiset(Accepted(b.(push := Some(b.push.value.Put(x))))) == multiset(Accepted(b)) + multiset{x}
  {
    assert Accepted(b.(push := Some(b.push.value.Put(x)))) == Accepted(b) + [x];
  }

  lemma PulledOnce<T>(b: Inbox<T>, x: T)
    ensures multiset(Accepted(b.(pull := b.pull.Put(x)))) == multiset(Accepted(b)) + multiset{x}
  {
    var pushed := if b.push.Some? then b.push.value.sent else [];
    assert Accepted(b.(pull := b.pull.Put(x))) == b.pull.sent + [x] + pushed;
  }

  /** What waits in a channel. */
  function Waiting<T>(ch: Channel<T>): int {
    |ch.sent| - ch.read
  }

  /** A send is refused exactly if as many messages wait in the channel it goes to as that has places. */
  lemma RefusedExactly<T>(b: Inbox<T>, x: T, viaPush: bool)
    ensures SendVia(b, x, viaPush).1 == Full <==>
              if viaPush && b.push.Some? then Waiting(b.push.value) >= b.push.value.size
              else !b.closed && Waiting(b.pull) >= b.pull.size
  {
  }

  /** No channel holds more than it has places. */
  predicate WithinSize<T>(b: Inbox<T>) {
    && 0 <= Waiting(b.pull) <= b.pull.size
    && (b.push.Some? ==> b.push.value.size == 512 && 0 <= Waiting(b.push.value) <= 512)
  }

  lemma SendWithinSize<T>(b: Inbox<T>, x: T, viaPush: bool)
    requires WithinSize(b)
    ensures WithinSize(SendVia(b, x, viaPush).0)
  {
  }

  lemma HappenWithinSize<T>(b: Inbox<T>, e: Event<T>)
    requires WithinSize(b)
    ensures WithinSize(Happen(b, e))
  {
  }

  /** A delivery hands on the message exactly when it says so. */
  lemma DeliverHandsOn<T>(b: Inbox<T>, x: T)
    ensures var (after, outcome) := Deliver(b, x);
            && (outcome == Sent ==> multiset(Accepted(after)) == multiset(Accepted(b)) + multiset{x})
            && (outcome != Sent ==> after == b)
            && (outcome == Panic <==> b.closed && b.push.None?)
            && after.closed == b.closed && after.push.Some? == b.push.Some?
  {
    hide Accepted;
    SendHandsOn(b, x, b.push.Some?);
  }

  /** Once an attempt was not refused no further one is made. */
  lemma {:induction false} RetriesSettle<T>(b: Inbox<T>, x: T, waits: seq<seq<Event<T>>>, k: nat, n: nat)
    requires k <= n <= |waits| && Retries(b, x, waits, k).1 != Full
    ensures Retries(b, x, waits, n) == Retries(b, x, waits, k)
  {
    hide HappenAll, Deliver;
    if k < n {
      RetriesSettle(b, x, waits, k, n - 1);
    }
  }

  /** A first attempt and then the retries. */
  function Attempts<T>(b: Inbox<T>, x: T, waits: seq<seq<Event<T>>>, n: nat): (Inbox<T>, Outcome)
    requires n <= |waits|
  {
    var (first, r) := Deliver(b, x);
    if r == Full then Retries(first, x, waits, n) else (first, r)
  }

  /** The retries panic exactly if one of them, all before it having found the channel full, comes after the
      consumer has left without a push channel. */
  lemma {:induction false} RetriesPanicExactly<T>(b: Inbox<T>, x: T, waits: seq<seq<Event<T>>>, n: nat)
    requires n <= |waits|
    ensures Retries(b, x, waits, n).1 == Panic <==> exists k :: 0 <= k < n && PanicsAt(b, x, waits, k)
  {
    hide HappenAll, Deliver;
    if n > 0 {
      RetriesPanicExactly(b, x, waits, n - 1);
      var (before, outcome) := Retries(b, x, waits, n - 1);
      var now := HappenAll(before, waits[n - 1]);
      DeliverHandsOn(now, x);
      assert PanicsAt(b, x, waits, n - 1) <==> outcome == Full && Deliver(now, x).1 == Panic;
      assert outcome == Full ==> Retries(b, x, waits, n) == Deliver(now, x);
      assert outcome != Full ==> Retries(b, x, waits, n) == (before, outcome);
    }
  }

  ghost predicate PanicsAt<T>(b: Inbox<T>, x: T, waits: seq<seq<Event<T>>>, k: nat)
    requires k < |waits|
  {
    var (before, outcome) := Retries(b, x, waits, k);
    var now := HappenAll(before, waits[k]);
    outcome == Full && now.closed && now.push.None?
  }
}
