/**
 Dispatching in full: any number of messages under way at once, their retries interleaved with each other and
 with reads, joins, leaves and new push sinks. The group's lock covers one offer, one join or one leave; retries
 run without it, and each looks for a push channel before it sends. A message is known by its ticket, its position
 among all messages ever dispatched.
 */
module DispatchRuns {
  import opened DeadLetters
  import opened Inboxes
  import opened Options
  import opened Rebalancing

  datatype Config = Config(partCount: nat, maxRetries: int, group: nat, queueSize: nat)

  datatype Consumer = Consumer(id: nat, dealt: seq<int>, inbox: Inbox<nat>)

  /** A message that the first offer could not place: for whom, how often it was retried, and whether the retry that
      has begun saw a push channel. */
  datatype Flight = Flight(target: nat, retries: nat, saw: Option<bool>)

  /** `consumers` holds everyone who ever joined; `members` maps the ids of those who are there now. `dead` lists
      the tickets given up, `queue` the dead-letter queue; `messages` and `owners` are history: what was
      dispatched, and to whom. */
  datatype State = State(
    consumers: seq<Consumer>,
    members: map<nat, nat>,
    ids: seq<nat>,
    flights: map<nat, Flight>,
    dead: seq<nat>,
    queue: seq<Entry>,
    messages: seq<Message>,
    owners: seq<Option<nat>>,
    panicked: bool)

  datatype Step =
    | Join(id: nat, size: nat)
    | Leave(id: nat)
    | Sink(consumer: nat)
    | Read(consumer: nat, fromPush: bool)
    | Offer(message: Message)
    | Look(ticket: nat)
    | Retry(ticket: nat)
    | GiveUp(ticket: nat)

  predicate Current(s: State, h: nat) {
    && h < |s.consumers|
    && s.consumers[h].id in s.members && s.members[s.consumers[h].id] == h
  }

  /** Deal the partitions to those who are there. */
  function Deal(c: Config, s: State): State {
    s.(consumers := seq(|s.consumers|, h requires 0 <= h < |s.consumers| =>
         if Current(s, h)
         then s.consumers[h].(dealt := Assignment(s.ids, c.partCount, s.consumers[h].id))
         else s.consumers[h]))
  }

  function Affect(s: State, h: nat, inbox: Inbox<nat>): State
    requires h < |s.consumers|
  {
    s.(consumers := s.consumers[h := s.consumers[h].(inbox := inbox)])
  }

  function Owner(c: Config, s: State, p: int): Option<nat> {
    if 0 <= p < c.partCount && s.ids != [] && s.ids[p % |s.ids|] in s.members
    then Some(s.members[s.ids[p % |s.ids|]]) else None
  }

  function Letter(c: Config, s: State, t: nat): Entry
    requires t < |s.messages|
  {
    Entry(Some(s.messages[t]), c.group, c.maxRetries)
  }

  /** One attempt to send ticket `t` to consumer `h`, after `retries` retries. */
  function Attempt(s: State, h: nat, t: nat, retries: nat, viaPush: bool): State
    requires h < |s.consumers|
  {
    var (inbox, r) := SendVia(s.consumers[h].inbox, t, viaPush);
    match r
    case Sent => Affect(s, h, inbox).(flights := s.flights - {t})
    case Full => s.(flights := s.flights[t := Flight(h, retries, None)])
    case Panic => s.(panicked := true)
  }

  predicate Enabled(c: Config, s: State, step: Step) {
    && !s.panicked
    && match step
       case Join(id, _) => id !in s.members
       case Leave(id) => id in s.members && s.members[id] < |s.consumers|
       case Sink(h) => h < |s.consumers|
       case Read(h, _) => h < |s.consumers|
       case Offer(m) =>
         var o := Owner(c, s, m.partition); o.Some? ==> o.value < |s.consumers|
       case Look(t) =>
         && t in s.flights && s.flights[t].retries < c.maxRetries && s.flights[t].target < |s.consumers|
         && s.flights[t].saw.None?
       case Retry(t) =>
         && t in s.flights && s.flights[t].retries < c.maxRetries && s.flights[t].target < |s.consumers|
         && s.flights[t].saw.Some?
       case GiveUp(t) => t in s.flights && s.flights[t].retries >= c.maxRetries && t < |s.messages|
  }

  /** A step that is not enabled changes nothing; after a panic nothing does. */
  function Apply(c: Config, s: State, step: Step): State {
    if !Enabled(c, s, step) then s
    else
      match step
      case Join(id, size) =>
        Deal(c, s.(consumers := s.consumers + [Consumer(id, [], NewInbox(size))],
                   members := s.members[id := |s.consumers|], ids := Insert(s.ids, id)))
      case Leave(id) =>
        var h := s.members[id];
        var closed := Affect(s, h, Happen(s.consumers[h].inbox, Close));
        Deal(c, closed.(members := s.members - {id}, ids := Remove(s.ids, id)))
      case Sink(h) => Affect(s, h, Happen(s.consumers[h].inbox, SetSink))
      case Read(h, fromPush) => Affect(s, h, Happen(s.consumers[h].inbox, if fromPush then TakePush else TakePull))
      case Offer(m) =>
        var o := Owner(c, s, m.partition);
        var s1 := s.(messages := s.messages + [m], owners := s.owners + [o]);
        if o.None? then s1
        else Attempt(s1, o.value, |s.messages|, 0, s.consumers[o.value].inbox.push.Some?)
      case Look(t) =>
        var f := s.flights[t];
        s.(flights := s.flights[t := f.(saw := Some(s.consumers[f.target].inbox.push.Some?))])
      case Retry(t) =>
        var f := s.flights[t];
        Attempt(s, f.target, t, f.retries + 1, f.saw.value)
      case GiveUp(t) =>
        s.(flights := s.flights - {t}, dead := s.dead + [t], queue := Pushed(s.queue, Letter(c, s, t), c.queueSize))
  }

  function Exec(c: Config, steps: seq<Step>): State {
    if steps == [] then State([], map[], [], map[], [], [], [], [], false)
    else Apply(c, Exec(c, steps[..|steps| - 1]), steps[|steps| - 1])
  }

  // ---------------------------------------------------------------------
  // Who is there

  ghost predicate ConsumerOK(c: Config, s: State, h: nat)
    requires h < |s.consumers|
  {
    && (s.consumers[h].inbox.closed <==> !Current(s, h))
    && (Current(s, h) ==> s.consumers[h].dealt == Assignment(s.ids, c.partCount, s.consumers[h].id))
  }

  ghost predicate MembersOK(c: Config, s: State) {
    && Lists(s.ids, s.members.Keys)
    && (forall id :: id in s.members ==> s.members[id] < |s.consumers| && s.consumers[s.members[id]].id == id)
    && (forall h :: 0 <= h < |s.consumers| ==> ConsumerOK(c, s, h))
  }

  /** The partition's owner is the one current consumer that is assigned it. */
  lemma OwnerIsAssigned(c: Config, s: State, p: int, h: nat)
    requires MembersOK(c, s) && Current(s, h)
    ensures p in s.consumers[h].dealt <==> Owner(c, s, p) == Some(h)
  {
    hide Assignment, Lists;
    assert ConsumerOK(c, s, h);
    OnlyOwner(s.ids, s.members.Keys, c.partCount, p, s.consumers[h].id);
    if 0 <= p < c.partCount {
      OwnerIsMember(s.ids, s.members.Keys, p);
    }
  }

  lemma OwnerIsMember(ids: seq<nat>, members: set<nat>, p: nat)
    requires Lists(ids, members) && ids != []
    ensures ids[p % |ids|] in members
  {
    assert ids[p % |ids|] in ids;
  }

  /** An owned partition has a current owner. */
  lemma OwnerIsCurrent(c: Config, s: State, p: int)
    requires MembersOK(c, s)
    ensures Owner(c, s, p).Some? <==> 0 <= p < c.partCount && s.members.Keys != {}
    ensures Owner(c, s, p).Some? ==> Current(s, Owner(c, s, p).value)
  {
    hide Assignment, Lists, ConsumerOK;
    ListsNothing(s.ids, s.members.Keys);
    if 0 <= p < c.partCount && s.ids != [] {
      OwnerIsMember(s.ids, s.members.Keys, p);
    }
  }

  /** Before the deal everything but the assignments is in order. */
  ghost predicate ReadyToDeal(s: State) {
    && Lists(s.ids, s.members.Keys)
    && (forall id :: id in s.members ==> s.members[id] < |s.consumers| && s.consumers[s.members[id]].id == id)
    && (forall h :: 0 <= h < |s.consumers| ==> (s.consumers[h].inbox.closed <==> !Current(s, h)))
  }

  lemma DealOK(c: Config, s: State)
    requires ReadyToDeal(s)
    ensures MembersOK(c, Deal(c, s))
  {
    hide Assignment, Lists;
    var d := Deal(c, s);
    forall h | 0 <= h < |d.consumers| ensures ConsumerOK(c, d, h) {
      assert Current(d, h) <==> Current(s, h);
    }
  }

  lemma JoinMembers(c: Config, s: State, id: nat, size: nat)
    requires MembersOK(c, s) && Enabled(c, s, Join(id, size))
    ensures MembersOK(c, Apply(c, s, Join(id, size)))
  {
    hide Assignment, Insert;
    InsertMembers(s.ids, id);
    InsertSorted(s.ids, id);
    var s1 := s.(consumers := s.consumers + [Consumer(id, [], NewInbox(size))],
                 members := s.members[id := |s.consumers|], ids := Insert(s.ids, id));
    assert s1.members.Keys == s.members.Keys + {id};
    forall h | 0 <= h < |s1.consumers| ensures s1.consumers[h].inbox.closed <==> !Current(s1, h) {
      if h < |s.consumers| {
        assert ConsumerOK(c, s, h);
      }
    }
    DealOK(c, s1);
  }

  lemma LeaveMembers(c: Config, s: State, id: nat)
    requires MembersOK(c, s) && Enabled(c, s, Leave(id))
    ensures MembersOK(c, Apply(c, s, Leave(id)))
  {
    hide Assignment, Remove;
    RemoveMembers(s.ids, id);
    RemoveSorted(s.ids, id);
    var h := s.members[id];
    var s1 := Affect(s, h, Happen(s.consumers[h].inbox, Close)).(members := s.members - {id}, ids := Remove(s.ids, id));
    forall k | 0 <= k < |s1.consumers| ensures s1.consumers[k].inbox.closed <==> !Current(s1, k) {
      assert ConsumerOK(c, s, k);
    }
    DealOK(c, s1);
  }

  /** What happens to an inbox short of closing it does not change who is there. */
  lemma AffectMembers(c: Config, s: State, h: nat, inbox: Inbox<nat>)
    requires MembersOK(c, s) && h < |s.consumers| && inbox.closed == s.consumers[h].inbox.closed
    ensures MembersOK(c, Affect(s, h, inbox))
  {
    hide Assignment, Lists;
    var a := Affect(s, h, inbox);
    forall k | 0 <= k < |a.consumers| ensures ConsumerOK(c, a, k) {
      assert ConsumerOK(c, s, k);
    }
  }

  /** Only who joined, under which ids, matters. */
  lemma SameMembers(c: Config, s: State, a: State)
    requires MembersOK(c, s) && a.consumers == s.consumers && a.members == s.members && a.ids == s.ids
    ensures MembersOK(c, a)
  {
    hide Assignment, Lists;
    forall k | 0 <= k < |a.consumers| ensures ConsumerOK(c, a, k) {
      assert ConsumerOK(c, s, k);
      assert Current(a, k) == Current(s, k);
    }
  }

  lemma AttemptMembers(c: Config, s: State, h: nat, t: nat, retries: nat, viaPush: bool)
    requires MembersOK(c, s) && h < |s.consumers|
    ensures MembersOK(c, Attempt(s, h, t, retries, viaPush))
  {
    hide MembersOK, SendVia;
    var (inbox, r) := SendVia(s.consumers[h].inbox, t, viaPush);
    SendHandsOn(s.consumers[h].inbox, t, viaPush);
    if r == Sent {
      AffectMembers(c, s, h, inbox);
      SameMembers(c, Affect(s, h, inbox), Attempt(s, h, t, retries, viaPush));
    } else {
      SameMembers(c, s, Attempt(s, h, t, retries, viaPush));
    }
  }

  lemma StepMembers(c: Config, s: State, step: Step)
    requires MembersOK(c, s)
    ensures MembersOK(c, Apply(c, s, step))
  {
    hide MembersOK, Attempt, Deal, Pushed;
    if Enabled(c, s, step) {
      match step
      case Join(id, size) => JoinMembers(c, s, id, size);
      case Leave(id) => LeaveMembers(c, s, id);
      case Sink(h) => AffectMembers(c, s, h, Happen(s.consumers[h].inbox, SetSink));
      case Read(h, fromPush) =>
        AffectMembers(c, s, h, Happen(s.consumers[h].inbox, if fromPush then TakePush else TakePull));
      case Offer(m) =>
        var o := Owner(c, s, m.partition);
        var s1 := s.(messages := s.messages + [m], owners := s.owners + [o]);
        SameMembers(c, s, s1);
        if o.Some? {
          AttemptMembers(c, s1, o.value, |s.messages|, 0, s.consumers[o.value].inbox.push.Some?);
        }
      case Look(t) => SameMembers(c, s, Apply(c, s, step));
      case Retry(t) =>
        var f := s.flights[t];
        AttemptMembers(c, s, f.target, t, f.retries + 1, f.saw.value);
      case GiveUp(t) => SameMembers(c, s, Apply(c, s, step));
    }
  }

  // ---------------------------------------------------------------------
  // Where every message is

  /** How often consumer `h` was handed ticket `t`. */
  function Handed(s: State, h: nat, t: nat): nat
    requires h < |s.consumers|
  {
    multiset(Accepted(s.consumers[h].inbox))[t]
  }

  /** How often it was given up, and whether it is still being retried. */
  function Pending(s: State, t: nat): nat {
    multiset(s.dead)[t] + if t in s.flights then 1 else 0
  }

  function OwnerOf(s: State, t: nat): Option<nat> {
    if t < |s.owners| then s.owners[t] else None
  }

  /** A ticket with an owner is in exactly one place, once: handed to that owner, given up, or being retried
      for that owner. A ticket without one is nowhere. */
  ghost predicate Placed(s: State, t: nat) {
    && (forall h :: 0 <= h < |s.consumers| && OwnerOf(s, t) != Some(h) ==> Handed(s, h, t) == 0)
    && match OwnerOf(s, t)
       case None => Pending(s, t) == 0
       case Some(o) =>
         && o < |s.consumers| && Handed(s, o, t) + Pending(s, t) == 1
         && (t in s.flights ==> s.flights[t].target == o)
  }

  ghost predicate Conserved(s: State) {
    |s.owners| == |s.messages| && forall t: nat :: Placed(s, t)
  }

  /** The same inboxes and the same tickets elsewhere: the same places. */
  lemma SamePlaces(s: State, a: State, t: nat)
    requires Placed(s, t) && |a.consumers| >= |s.consumers|
    requires forall h :: 0 <= h < |s.consumers| ==>
               multiset(Accepted(a.consumers[h].inbox)) == multiset(Accepted(s.consumers[h].inbox))
    requires forall h :: |s.consumers| <= h < |a.consumers| ==> Accepted(a.consumers[h].inbox) == []
    requires a.dead == s.dead && a.flights == s.flights && a.owners == s.owners
    ensures Placed(a, t)
  {
    hide Accepted;
    forall h | 0 <= h < |a.consumers| ensures Handed(a, h, t) == if h < |s.consumers| then Handed(s, h, t) else 0 {
    }
  }

  /** Reading, a new sink and closing hand nothing on. */
  lemma QuietEvents(b: Inbox<nat>, e: Event<nat>)
    requires !e.Other?
    ensures Accepted(Happen(b, e)) == Accepted(b)
  {
  }

  lemma QuietStep(c: Config, s: State, step: Step)
    requires Conserved(s) && (step.Join? || step.Leave? || step.Sink? || step.Read?)
    ensures Conserved(Apply(c, s, step))
  {
    hide Accepted, Happen, Placed, Assignment, Insert, Remove;
    var a := Apply(c, s, step);
    if Enabled(c, s, step) {
      forall h | 0 <= h < |s.consumers|
        ensures Accepted(a.consumers[h].inbox) == Accepted(s.consumers[h].inbox)
      {
        QuietEvents(s.consumers[h].inbox, Close);
        QuietEvents(s.consumers[h].inbox, SetSink);
        QuietEvents(s.consumers[h].inbox, TakePush);
        QuietEvents(s.consumers[h].inbox, TakePull);
      }
      if step.Join? {
        FreshInbox(step.size);
      }
      forall t: nat ensures Placed(a, t) {
        SamePlaces(s, a, t);
      }
    }
  }

  lemma FreshInbox(size: nat)
    ensures Accepted(NewInbox<nat>(size)) == []
  {
  }

  predicate InFlightFor(s: State, t: nat, h: nat) {
    t in s.flights && s.flights[t].target == h
  }

  /** What an attempt hands on: one ticket to one consumer, or nothing. */
  lemma AttemptHands(s: State, h: nat, t: nat, retries: nat, viaPush: bool, k: nat, u: nat)
    requires h < |s.consumers| && k < |s.consumers|
    ensures var a := Attempt(s, h, t, retries, viaPush);
            && |a.consumers| == |s.consumers|
            && Handed(a, k, u) == Handed(s, k, u)
               + (if k == h && u == t && SendVia(s.consumers[h].inbox, t, viaPush).1 == Sent then 1 else 0)
  {
    hide SendVia, Accepted;
    SendHandsOn(s.consumers[h].inbox, t, viaPush);
  }

  /** An attempt for a ticket that is with nobody leaves it with its owner or in flight. */
  lemma AttemptPlaces(s: State, h: nat, t: nat, retries: nat, viaPush: bool)
    requires h < |s.consumers| && OwnerOf(s, t) == Some(h) && multiset(s.dead)[t] == 0
    requires forall k :: 0 <= k < |s.consumers| ==> Handed(s, k, t) == 0
    requires SendVia(s.consumers[h].inbox, t, viaPush).1 != Panic || InFlightFor(s, t, h)
    ensures Placed(Attempt(s, h, t, retries, viaPush), t)
  {
    hide SendVia, Handed;
    forall k | 0 <= k < |s.consumers|
      ensures Handed(Attempt(s, h, t, retries, viaPush), k, t)
           == if k == h && SendVia(s.consumers[h].inbox, t, viaPush).1 == Sent then 1 else 0
    {
      AttemptHands(s, h, t, retries, viaPush, k, t);
    }
  }

  /** All other tickets stay where they are. */
  lemma AttemptElsewhere(s: State, h: nat, t: nat, retries: nat, viaPush: bool, u: nat)
    requires h < |s.consumers| && u != t && Placed(s, u)
    ensures Placed(Attempt(s, h, t, retries, viaPush), u)
  {
    hide SendVia, Handed;
    forall k | 0 <= k < |s.consumers|
      ensures Handed(Attempt(s, h, t, retries, viaPush), k, u) == Handed(s, k, u)
    {
      AttemptHands(s, h, t, retries, viaPush, k, u);
    }
  }

  lemma RetryStep(c: Config, s: State, t: nat)
    requires Conserved(s) && Enabled(c, s, Retry(t))
    ensures Conserved(Apply(c, s, Retry(t)))
  {
    hide Attempt, Placed, SendVia;
    var h, n, via := s.flights[t].target, s.flights[t].retries + 1, s.flights[t].saw.value;
    InFlight(s, t);
    AttemptPlaces(s, h, t, n, via);
    AttemptHistory(s, h, t, n, via);
    forall u: nat ensures Placed(Attempt(s, h, t, n, via), u) {
      if u != t {
        AttemptElsewhere(s, h, t, n, via, u);
      }
    }
  }

  /** Looking moves nothing. */
  lemma LookStep(c: Config, s: State, t: nat)
    requires Conserved(s)
    ensures Conserved(Apply(c, s, Look(t)))
  {
    hide Handed;
    var a := Apply(c, s, Look(t));
    if Enabled(c, s, Look(t)) {
      forall u: nat ensures Placed(a, u) {
        assert Placed(s, u);
        SameHands(s, a, u);
      }
    }
  }

  /** A ticket in flight is with nobody and not given up. */
  lemma InFlight(s: State, t: nat)
    requires Placed(s, t) && t in s.flights
    ensures OwnerOf(s, t) == Some(s.flights[t].target) && s.flights[t].target < |s.consumers|
    ensures multiset(s.dead)[t] == 0 && forall k :: 0 <= k < |s.consumers| ==> Handed(s, k, t) == 0
  {
    hide Handed;
  }

  lemma AttemptHistory(s: State, h: nat, t: nat, retries: nat, viaPush: bool)
    requires h < |s.consumers|
    ensures var a := Attempt(s, h, t, retries, viaPush);
            a.owners == s.owners && a.messages == s.messages && |a.consumers| == |s.consumers| && a.dead == s.dead
  {
    hide SendVia;
  }

  lemma OfferStep(c: Config, s: State, m: Message)
    requires MembersOK(c, s) && Conserved(s) && Enabled(c, s, Offer(m))
    ensures Conserved(Apply(c, s, Offer(m)))
  {
    hide Attempt, Placed, SendVia, MembersOK;
    var o, t := Owner(c, s, m.partition), |s.messages|;
    var s1 := s.(messages := s.messages + [m], owners := s.owners + [o]);
    forall u: nat ensures u != t ==> Placed(s1, u) {
      if u != t {
        OtherTicket(s, s1, u);
      }
    }
    if o.None? {
      NewTicket(s, s1, t);
    } else {
      var h, via := o.value, s.consumers[o.value].inbox.push.Some?;
      OfferIsSafe(c, s, m);
      NobodyHas(s, s1, t);
      AttemptPlaces(s1, h, t, 0, via);
      AttemptHistory(s1, h, t, 0, via);
      forall u: nat ensures Placed(Attempt(s1, h, t, 0, via), u) {
        if u != t {
          AttemptElsewhere(s1, h, t, 0, via, u);
        }
      }
    }
  }

  lemma OtherTicket(s: State, s1: State, u: nat)
    requires Placed(s, u) && OwnerOf(s1, u) == OwnerOf(s, u)
    requires s1.consumers == s.consumers && s1.dead == s.dead && s1.flights == s.flights
    ensures Placed(s1, u)
  {
    hide Handed;
    assert forall h :: 0 <= h < |s.consumers| ==> Handed(s1, h, u) == Handed(s, h, u) by { SameHands(s, s1, u); }
  }

  lemma SameHands(s: State, s1: State, u: nat)
    requires s1.consumers == s.consumers
    ensures forall h :: 0 <= h < |s.consumers| ==> Handed(s1, h, u) == Handed(s, h, u)
  {
  }

  /** A ticket not yet given out is nowhere. */
  lemma NobodyHas(s: State, s1: State, t: nat)
    requires Placed(s, t) && t == |s.owners|
    requires s1.consumers == s.consumers && s1.dead == s.dead && s1.flights == s.flights
    ensures multiset(s1.dead)[t] == 0 && t !in s1.flights
    ensures forall h :: 0 <= h < |s1.consumers| ==> Handed(s1, h, t) == 0
  {
    hide Handed;
    SameHands(s, s1, t);
  }

  lemma NewTicket(s: State, s1: State, t: nat)
    requires Placed(s, t) && t == |s.owners| && OwnerOf(s1, t) == None
    requires s1.consumers == s.consumers && s1.dead == s.dead && s1.flights == s.flights
    ensures Placed(s1, t)
  {
    hide Handed;
    NobodyHas(s, s1, t);
  }

  /** The first attempt never panics: under the lock the owner is there, so its channel is open. */
  lemma OfferIsSafe(c: Config, s: State, m: Message)
    requires MembersOK(c, s) && Owner(c, s, m.partition).Some?
    ensures var h := Owner(c, s, m.partition).value;
            h < |s.consumers|
            && SendVia(s.consumers[h].inbox, |s.messages|, s.consumers[h].inbox.push.Some?).1 != Panic
  {
    hide Assignment, Lists;
    OwnerIsCurrent(c, s, m.partition);
    assert ConsumerOK(c, s, Owner(c, s, m.partition).value);
  }

  lemma GiveUpStep(c: Config, s: State, t: nat)
    requires Conserved(s) && Enabled(c, s, GiveUp(t))
    ensures Conserved(Apply(c, s, GiveUp(t)))
  {
    hide Handed, Pushed;
    var a := Apply(c, s, GiveUp(t));
    forall u: nat ensures Placed(a, u) {
      assert Placed(s, u);
      SameHands(s, a, u);
      assert multiset(a.dead) == multiset(s.dead) + multiset{t};
    }
  }

  lemma StepConserves(c: Config, s: State, step: Step)
    requires MembersOK(c, s) && Conserved(s)
    ensures Conserved(Apply(c, s, step))
  {
    hide MembersOK, Conserved, Enabled;
    if Enabled(c, s, step) {
      match step
      case Offer(m) => OfferStep(c, s, m);
      case Look(t) => LookStep(c, s, t);
      case Retry(t) => RetryStep(c, s, t);
      case GiveUp(t) => GiveUpStep(c, s, t);
      case _ => QuietStep(c, s, step);
    }
  }

  lemma {:induction false} ReachableOK(c: Config, steps: seq<Step>)
    ensures MembersOK(c, Exec(c, steps)) && Conserved(Exec(c, steps))
  {
    hide Apply;
    if steps != [] {
      hide MembersOK, Conserved;
      var before := Exec(c, steps[..|steps| - 1]);
      ReachableOK(c, steps[..|steps| - 1]);
      StepMembers(c, before, steps[|steps| - 1]);
      StepConserves(c, before, steps[|steps| - 1]);
    }
  }

  /** In every run, whatever is interleaved with its retries: a message offered while its partition had an owner is
      in exactly one place, once. It was handed to that owner, or it was given up and queued, or it is still
      being retried for that owner. No other consumer was ever handed it. */
  lemma EveryMessageIsSomewhere(c: Config, steps: seq<Step>, t: nat)
    requires t < |Exec(c, steps).messages|
    ensures var s := Exec(c, steps);
            && |s.owners| == |s.messages|
            && (forall h :: 0 <= h < |s.consumers| && s.owners[t] != Some(h) ==> Handed(s, h, t) == 0)
            && (s.owners[t].None? ==> t !in s.dead && t !in s.flights)
            && (s.owners[t].Some? ==>
                  && s.owners[t].value < |s.consumers|
                  && Handed(s, s.owners[t].value, t) + multiset(s.dead)[t] + (if t in s.flights then 1 else 0) == 1)
  {
    hide Exec, Handed, MembersOK;
    ReachableOK(c, steps);
    assert Placed(Exec(c, steps), t);
  }

  /** In every run a current consumer is dealt exactly the partitions it owns. */
  lemma DealtIsOwned(c: Config, steps: seq<Step>, p: int, h: nat)
    requires Current(Exec(c, steps), h)
    ensures p in Exec(c, steps).consumers[h].dealt <==> Owner(c, Exec(c, steps), p) == Some(h)
  {
    hide Exec, Owner;
    ReachableOK(c, steps);
    OwnerIsAssigned(c, Exec(c, steps), p, h);
  }

  // ---------------------------------------------------------------------
  // How much waits

  ghost predicate AllWithinSize(s: State) {
    forall h :: 0 <= h < |s.consumers| ==> WithinSize(s.consumers[h].inbox)
  }

  lemma AttemptWithinSize(s: State, h: nat, t: nat, retries: nat, viaPush: bool)
    requires AllWithinSize(s) && h < |s.consumers|
    ensures AllWithinSize(Attempt(s, h, t, retries, viaPush))
  {
    hide SendVia, WithinSize;
    SendWithinSize(s.consumers[h].inbox, t, viaPush);
  }

  lemma StepWithinSize(c: Config, s: State, step: Step)
    requires AllWithinSize(s)
    ensures AllWithinSize(Apply(c, s, step))
  {
    hide Attempt, WithinSize, Happen, Assignment, Insert, Remove, Pushed, NewInbox;
    if Enabled(c, s, step) {
      match step
      case Join(_, size) => assert WithinSize(NewInbox<nat>(size)) by { NewWithinSize(size); }
      case Leave(id) => HappenWithinSize(s.consumers[s.members[id]].inbox, Close);
      case Sink(h) => HappenWithinSize(s.consumers[h].inbox, SetSink);
      case Read(h, fromPush) => HappenWithinSize(s.consumers[h].inbox, if fromPush then TakePush else TakePull);
      case Offer(m) =>
        var o := Owner(c, s, m.partition);
        if o.Some? {
          var s1 := s.(messages := s.messages + [m], owners := s.owners + [o]);
          AttemptWithinSize(s1, o.value, |s.messages|, 0, s.consumers[o.value].inbox.push.Some?);
        }
      case Retry(t) =>
        var f := s.flights[t];
        AttemptWithinSize(s, f.target, t, f.retries + 1, f.saw.value);
      case _ =>
    }
  }

  lemma NewWithinSize(size: nat)
    ensures WithinSize(NewInbox<nat>(size))
  {
  }

  /** In every run no consumer has more messages waiting than its channels have places: the size it joined with, and
      512 for pushes. */
  lemma {:induction false} NothingOverflows(c: Config, steps: seq<Step>)
    ensures AllWithinSize(Exec(c, steps))
  {
    hide Apply;
    if steps != [] {
      hide AllWithinSize;
      NothingOverflows(c, steps[..|steps| - 1]);
      StepWithinSize(c, Exec(c, steps[..|steps| - 1]), steps[|steps| - 1]);
    }
  }

  /** A message is given up only after as many retries as the group allows. */
  ghost predicate RetriesCounted(c: Config, s: State) {
    forall t :: t in s.flights ==> 0 <= s.flights[t].retries <= (if c.maxRetries < 0 then 0 else c.maxRetries)
  }

  lemma StepCountsRetries(c: Config, s: State, step: Step)
    requires RetriesCounted(c, s)
    ensures RetriesCounted(c, Apply(c, s, step))
  {
    hide SendVia, Assignment, Insert, Remove, Pushed, Happen;
  }

  lemma {:induction false} ReachableRetries(c: Config, steps: seq<Step>)
    ensures RetriesCounted(c, Exec(c, steps))
  {
    hide Apply;
    if steps != [] {
      ReachableRetries(c, steps[..|steps| - 1]);
      StepCountsRetries(c, Exec(c, steps[..|steps| - 1]), steps[|steps| - 1]);
    }
  }

  /** In every run a message that is given up at a step has been retried exactly as often as the group allows. */
  lemma GivenUpAfterAllRetries(c: Config, steps: seq<Step>, step: Step, t: nat)
    requires t in Exec(c, steps).flights
    requires |Exec(c, steps + [step]).dead| > |Exec(c, steps).dead|
    requires Exec(c, steps + [step]).dead[|Exec(c, steps).dead|] == t
    ensures Exec(c, steps).flights[t].retries == if c.maxRetries < 0 then 0 else c.maxRetries
  {
    hide Exec, Apply;
    ReachableRetries(c, steps);
    ExecMore(c, steps, step);
    QueueStep(c, Exec(c, steps), step);
  }

  // ---------------------------------------------------------------------
  // The dead-letter queue of a run

  function Letters(c: Config, messages: seq<Message>, tickets: seq<nat>): seq<Entry>
    requires forall i :: 0 <= i < |tickets| ==> tickets[i] < |messages|
  {
    seq(|tickets|, i requires 0 <= i < |tickets| => Entry(Some(messages[tickets[i]]), c.group, c.maxRetries))
  }

  lemma DeadAreDispatched(s: State)
    requires Conserved(s)
    ensures forall i :: 0 <= i < |s.dead| ==> s.dead[i] < |s.messages|
  {
    hide Handed;
    forall i | 0 <= i < |s.dead| ensures s.dead[i] < |s.messages| {
      assert Placed(s, s.dead[i]);
      assert s.dead[i] in multiset(s.dead);
    }
  }

  /** What a step does to the messages, the tickets given up and the queue. */
  lemma QueueStep(c: Config, s: State, step: Step)
    ensures var a := Apply(c, s, step);
            && s.messages <= a.messages
            && ((a.dead == s.dead && a.queue == s.queue)
                || (step.GiveUp? && Enabled(c, s, step) && a.dead == s.dead + [step.ticket] && a.messages == s.messages
                    && a.queue == Pushed(s.queue, Letter(c, s, step.ticket), c.queueSize)))
  {
    hide Pushed, SendVia, Assignment, Insert, Remove;
  }

  lemma {:induction false} QueueIsPushed(c: Config, steps: seq<Step>)
    ensures var s := Exec(c, steps);
            && (forall i :: 0 <= i < |s.dead| ==> s.dead[i] < |s.messages|)
            && s.queue == PushedAll([], Letters(c, s.messages, s.dead), c.queueSize)
  {
    hide Apply, Pushed, Enabled;
    if steps != [] {
      var before := Exec(c, steps[..|steps| - 1]);
      QueueIsPushed(c, steps[..|steps| - 1]);
      ReachableOK(c, steps[..|steps| - 1]);
      ReachableOK(c, steps);
      DeadAreDispatched(Exec(c, steps));
      QueueStep(c, before, steps[|steps| - 1]);
      var s := Exec(c, steps);
      var old', all := Letters(c, before.messages, before.dead), Letters(c, s.messages, s.dead);
      if s.dead == before.dead {
        assert all == old';
      } else {
        assert all[..|old'|] == old';
      }
    }
  }

  /** In every run the queue holds the newest of the messages given up, at most its size. */
  lemma QueueHoldsNewest(c: Config, steps: seq<Step>)
    requires c.queueSize > 0
    ensures var s := Exec(c, steps);
            && (forall i :: 0 <= i < |s.dead| ==> s.dead[i] < |s.messages|)
            && var all := Letters(c, s.messages, s.dead);
               s.queue == if |all| <= c.queueSize then all else all[|all| - c.queueSize..]
  {
    hide Exec, PushedAll;
    QueueIsPushed(c, steps);
    var all := Letters(c, Exec(c, steps).messages, Exec(c, steps).dead);
    PushesKeepNewest([], all, c.queueSize);
    assert [] + all == all;
  }

  // ---------------------------------------------------------------------
  // When a dispatch panics

  lemma ExecMore(c: Config, steps: seq<Step>, step: Step)
    ensures Exec(c, steps + [step]) == Apply(c, Exec(c, steps), step)
  {
    hide Apply;
    assert (steps + [step])[..|steps|] == steps;
  }

  /** Push channels do not go away. */
  ghost predicate PushKept(s: State, a: State) {
    && |s.consumers| <= |a.consumers|
    && forall h :: 0 <= h < |s.consumers| && s.consumers[h].inbox.push.Some? ==> a.consumers[h].inbox.push.Some?
  }

  /** A retry that saw a push channel will find it. */
  ghost predicate LooksOK(s: State) {
    forall t :: t in s.flights && s.flights[t].saw == Some(true) ==>
      s.flights[t].target < |s.consumers| && s.consumers[s.flights[t].target].inbox.push.Some?
  }

  lemma StepKeepsPush(c: Config, s: State, step: Step)
    ensures PushKept(s, Apply(c, s, step))
  {
    hide Assignment, Insert, Remove, Pushed;
  }

  lemma StepLooks(c: Config, s: State, step: Step)
    requires LooksOK(s)
    ensures LooksOK(Apply(c, s, step))
  {
    hide Assignment, Insert, Remove, Pushed, SendVia, Happen;
    StepKeepsPush(c, s, step);
  }

  lemma {:induction false} ReachableLooks(c: Config, steps: seq<Step>)
    ensures LooksOK(Exec(c, steps))
  {
    hide Apply;
    if steps != [] {
      ReachableLooks(c, steps[..|steps| - 1]);
      StepLooks(c, Exec(c, steps[..|steps| - 1]), steps[|steps| - 1]);
    }
  }

  /** A retry that saw no push channel is about to send into the closed pull channel of a consumer that has left. */
  ghost predicate RetryHitsClosed(c: Config, s: State, step: Step) {
    && step.Retry? && Enabled(c, s, step)
    && !Current(s, s.flights[step.ticket].target) && s.flights[step.ticket].saw == Some(false)
  }

  /** A run panics at a step exactly if that is a retry that saw no push channel, for a consumer that has left. */
  lemma PanicsExactly(c: Config, steps: seq<Step>, step: Step)
    requires !Exec(c, steps).panicked
    ensures Exec(c, steps + [step]).panicked <==> RetryHitsClosed(c, Exec(c, steps), step)
  {
    hide Exec, Assignment, SendVia, Insert, Remove, Pushed, Lists;
    var s := Exec(c, steps);
    ReachableOK(c, steps);
    ReachableLooks(c, steps);
    ExecMore(c, steps, step);
    if Enabled(c, s, step) {
      match step
      case Retry(t) =>
        var h := s.flights[t].target;
        assert ConsumerOK(c, s, h);
        SendHandsOn(s.consumers[h].inbox, t, s.flights[t].saw.value);
      case Offer(m) =>
        if Owner(c, s, m.partition).Some? {
          OfferIsSafe(c, s, m);
        }
      case _ =>
    }
  }

  /** One consumer whose channel of size one is full, and a second message in flight for it. */
  ghost predicate OneWaiting(s: State, push: Option<Channel<nat>>, closed: bool, saw: Option<bool>) {
    && !s.panicked && |s.consumers| == 1 && |s.messages| == 2 && s.owners == [Some(0), Some(0)]
    && s.flights == map[1 := Flight(0, 0, saw)]
    && s.consumers[0].id == 1 && s.consumers[0].inbox == Inbox(Channel(1, [0], 0), push, closed)
    && s.members == if closed then map[] else map[1 := 0]
  }

  function Prelude(m: Message): seq<Step> {
    [Join(1, 1), Offer(m), Offer(m)]
  }

  lemma PreludeRuns(c: Config, m: Message)
    requires m.partition == 0 < c.partCount
    ensures OneWaiting(Exec(c, Prelude(m)), None, false, None)
  {
    hide Exec, Assignment;
    ExecNone(c);
    ExecMore(c, [], Join(1, 1));
    ExecMore(c, [Join(1, 1)], Offer(m));
    ExecMore(c, [Join(1, 1), Offer(m)], Offer(m));
    assert [] + [Join(1, 1)] == [Join(1, 1)];
    assert [Join(1, 1)] + [Offer(m)] == [Join(1, 1), Offer(m)];
    assert [Join(1, 1), Offer(m)] + [Offer(m)] == Prelude(m);
    var s1 := Exec(c, [Join(1, 1)]);
    assert s1.ids == [1] && |s1.consumers| == 1 && s1.members == map[1 := 0];
    assert Owner(c, s1, 0) == Some(0);
    var s2 := Exec(c, [Join(1, 1), Offer(m)]);
    assert s2.consumers[0].inbox == Inbox(Channel(1, [0], 0), None, false);
    assert Owner(c, s2, 0) == Some(0);
  }

  lemma ExecNone(c: Config)
    ensures Exec(c, []) == State([], map[], [], map[], [], [], [], [], false)
  {
  }

  lemma LeaveWaiting(c: Config, s: State, push: Option<Channel<nat>>, saw: Option<bool>)
    requires OneWaiting(s, push, false, saw)
    ensures OneWaiting(Apply(c, s, Leave(1)), push, true, saw)
  {
    hide Assignment, Remove;
    assert s.members - {1} == map[];
  }

  lemma SinkWaiting(c: Config, s: State, saw: Option<bool>)
    requires OneWaiting(s, None, false, saw)
    ensures OneWaiting(Apply(c, s, Sink(0)), Some(Channel(PUSH_BUFFER, [], 0)), false, saw)
  {
  }

  lemma LookWaiting(c: Config, s: State, push: Option<Channel<nat>>, closed: bool)
    requires OneWaiting(s, push, closed, None) && c.maxRetries > 0
    ensures OneWaiting(Apply(c, s, Look(1)), push, closed, Some(push.Some?))
  {
  }

  /** A full channel, a second message, the consumer leaves: the first retry panics. */
  lemma LeavingPanics(c: Config, m: Message)
    requires m.partition == 0 < c.partCount && c.maxRetries > 0
    ensures Exec(c, Prelude(m) + [Leave(1)] + [Look(1)] + [Retry(1)]).panicked
  {
    hide Exec, Prelude, Apply;
    PreludeRuns(c, m);
    ExecMore(c, Prelude(m), Leave(1));
    LeaveWaiting(c, Exec(c, Prelude(m)), None, None);
    ExecMore(c, Prelude(m) + [Leave(1)], Look(1));
    LookWaiting(c, Exec(c, Prelude(m) + [Leave(1)]), None, true);
    PanicsExactly(c, Prelude(m) + [Leave(1)] + [Look(1)], Retry(1));
  }

  /** A sink that comes after the retry has looked does not help: it still panics once the consumer has left. */
  lemma LateSinkPanics(c: Config, m: Message)
    requires m.partition == 0 < c.partCount && c.maxRetries > 0
    ensures Exec(c, Prelude(m) + [Look(1)] + [Sink(0)] + [Leave(1)] + [Retry(1)]).panicked
  {
    hide Exec, Prelude, Apply;
    PreludeRuns(c, m);
    ExecMore(c, Prelude(m), Look(1));
    LookWaiting(c, Exec(c, Prelude(m)), None, false);
    ExecMore(c, Prelude(m) + [Look(1)], Sink(0));
    SinkWaiting(c, Exec(c, Prelude(m) + [Look(1)]), Some(false));
    ExecMore(c, Prelude(m) + [Look(1)] + [Sink(0)], Leave(1));
    LeaveWaiting(c, Exec(c, Prelude(m) + [Look(1)] + [Sink(0)]), Some(Channel(PUSH_BUFFER, [], 0)), Some(false));
    PanicsExactly(c, Prelude(m) + [Look(1)] + [Sink(0)] + [Leave(1)], Retry(1));
  }

  /** If it was given a push channel in time, the retry succeeds and the message is handed to a consumer that
      is no longer there. */
  lemma DepartedStillReceives(c: Config, m: Message)
    requires m.partition == 0 < c.partCount && c.maxRetries > 0
    ensures var s := Exec(c, Prelude(m) + [Sink(0)] + [Leave(1)] + [Look(1)] + [Retry(1)]);
            !s.panicked && |s.consumers| == 1 && !Current(s, 0) && Handed(s, 0, 1) == 1
  {
    hide Exec, Prelude, Apply;
    var push := Some(Channel(PUSH_BUFFER, [], 0));
    PreludeRuns(c, m);
    ExecMore(c, Prelude(m), Sink(0));
    SinkWaiting(c, Exec(c, Prelude(m)), None);
    ExecMore(c, Prelude(m) + [Sink(0)], Leave(1));
    LeaveWaiting(c, Exec(c, Prelude(m) + [Sink(0)]), push, None);
    ExecMore(c, Prelude(m) + [Sink(0)] + [Leave(1)], Look(1));
    LookWaiting(c, Exec(c, Prelude(m) + [Sink(0)] + [Leave(1)]), push, true);
    ExecMore(c, Prelude(m) + [Sink(0)] + [Leave(1)] + [Look(1)], Retry(1));
    RetryAfterLeaving(c, Exec(c, Prelude(m) + [Sink(0)] + [Leave(1)] + [Look(1)]));
  }

  lemma RetryAfterLeaving(c: Config, s: State)
    requires OneWaiting(s, Some(Channel(PUSH_BUFFER, [], 0)), true, Some(true)) && c.maxRetries > 0
    ensures var a := Apply(c, s, Retry(1));
            !a.panicked && |a.consumers| == 1 && !Current(a, 0) && Handed(a, 0, 1) == 1
  {
    var a := Apply(c, s, Retry(1));
    assert Accepted(a.consumers[0].inbox) == [0] + [1];
  }

  /** Without partitions nothing is ever in flight. */
  lemma {:induction false} NothingOwned(c: Config, steps: seq<Step>)
    requires c.partCount == 0
    ensures forall t :: 0 <= t < |Exec(c, steps).owners| ==> Exec(c, steps).owners[t] == None
  {
    hide SendVia, Assignment, Insert, Remove, Pushed;
    if steps != [] {
      NothingOwned(c, steps[..|steps| - 1]);
    }
  }

  lemma {:induction false} NeverPanics(c: Config, steps: seq<Step>)
    requires c.partCount == 0 || c.maxRetries <= 0
    ensures !Exec(c, steps).panicked
  {
    hide Apply;
    if steps != [] {
      var before, step := steps[..|steps| - 1], steps[|steps| - 1];
      NeverPanics(c, before);
      PanicsExactly(c, before, step);
      assert steps == before + [step];
      if c.partCount == 0 && step.Retry? {
        NothingOwned(c, before);
        ReachableOK(c, before);
        assert Placed(Exec(c, before), step.ticket);
      }
    }
  }

  /** A group can be brought down by a leave exactly if it has a partition and retries at all. */
  lemma SafeGroupsExactly(c: Config)
    ensures (forall steps :: !Exec(c, steps).panicked) <==> c.partCount == 0 || c.maxRetries <= 0
  {
    hide Exec;
    if c.partCount == 0 || c.maxRetries <= 0 {
      forall steps ensures !Exec(c, steps).panicked {
        NeverPanics(c, steps);
      }
    } else {
      var m := Message(0, 0, 0);
      LeavingPanics(c, m);
      assert Exec(c, Prelude(m) + [Leave(1)] + [Look(1)] + [Retry(1)]).panicked;
    }
  }
}
