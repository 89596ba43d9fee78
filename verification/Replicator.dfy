/**
 Partition replication: one leader pushes its partition logs to followers, which also
 fetch, over a network that loses, duplicates and reorders. A follower appends what it
 receives at the end of its own log, whatever offset the message carries, so everything
 rests on never being sent a batch that starts beyond that end.
 */
module Replicator {

  type NodeId = nat

  /** A topic and a partition number. */
  type PartKey = nat

  type Payload = nat

  /** Messages read in one batch. */
  const BATCH := 256

  datatype Record = Record(offset: nat, payload: Payload)

  datatype Message =
    | Fetch(from: NodeId, to: NodeId, key: PartKey, offset: nat)
    | Data(from: NodeId, to: NodeId, key: PartKey, records: seq<Record>)
    | Ack(from: NodeId, to: NodeId, key: PartKey, offset: nat)

  /** `followerOffsets` and `isr` matter on the leader only. */
  datatype Replica = Replica(
    self: NodeId,
    partitions: map<PartKey, seq<Payload>>,
    followerOffsets: map<(NodeId, PartKey), nat>,
    isr: map<(NodeId, PartKey), nat>)

  /** The records of `log` from `offset` on, at most one batch. */
  function Read(log: seq<Payload>, offset: nat): seq<Record> {
    if offset >= |log| then []
    else
      var n := if |log| - offset < BATCH then |log| - offset else BATCH;
      seq(n, i requires 0 <= i < n => Record(offset + i, log[offset + i]))
  }

  function FollowerOffset(s: Replica, f: NodeId, k: PartKey): nat {
    if (f, k) in s.followerOffsets then s.followerOffsets[(f, k)] else 0
  }

  /** The records are those of the log from `start` on. */
  ghost predicate Slice(log: seq<Payload>, start: nat, rs: seq<Record>) {
    && start + |rs| <= |log|
    && forall i :: 0 <= i < |rs| ==> rs[i] == Record(start + i, log[start + i])
  }

  /** The next batch of a log: everything from `start` on, but at most 256 records. */
  ghost predicate NextBatch(log: seq<Payload>, start: nat, rs: seq<Record>) {
    Slice(log, start, rs) && |rs| == if start + 256 < |log| then 256 else |log| - start
  }

  lemma ReadIsNextBatch(log: seq<Payload>, start: nat, rs: seq<Record>)
    requires start < |log|
    ensures rs == Read(log, start) <==> NextBatch(log, start, rs)
  {
  }

  /** What the leader pushes to one follower of one partition on a tick. */
  function Push(s: Replica, f: NodeId, k: PartKey): seq<Message> {
    if k !in s.partitions || f == s.self || FollowerOffset(s, f, k) >= |s.partitions[k]| then []
    else [Data(s.self, f, k, Read(s.partitions[k], FollowerOffset(s, f, k)))]
  }

  /** The message is the next batch for a follower that lags, from the offset the leader has recorded for it. */
  ghost predicate Due(s: Replica, f: NodeId, k: PartKey, m: Message) {
    && k in s.partitions && f != s.self && m.Data? && m.from == s.self && m.to == f && m.key == k
    && var start := FollowerOffset(s, f, k); start < |s.partitions[k]| && NextBatch(s.partitions[k], start, m.records)
  }

  lemma PushIsDue(s: Replica, k: PartKey)
    ensures forall f, m :: m in Push(s, f, k) <==> Due(s, f, k, m)
  {
    hide Read, NextBatch;
    forall f, m ensures m in Push(s, f, k) <==> Due(s, f, k, m) {
      if k in s.partitions && FollowerOffset(s, f, k) < |s.partitions[k]| && m.Data? {
        ReadIsNextBatch(s.partitions[k], FollowerOffset(s, f, k), m.records);
      }
    }
  }

  function OnFetch(s: Replica, m: Message): (Replica, seq<Message>)
    requires m.Fetch?
  {
    if m.key !in s.partitions then (s, [])
    else
      (s.(followerOffsets := s.followerOffsets[(m.from, m.key) := m.offset]),
       if m.offset >= |s.partitions[m.key]| then []
       else [Data(s.self, m.from, m.key, Read(s.partitions[m.key], m.offset))])
  }

  /** Append the records that are not behind the end of the log; report the highest offset covered, or -1. */
  function Absorb(log: seq<Payload>, rs: seq<Record>, highest: int): (seq<Payload>, int)
    decreases |rs|
  {
    if rs == [] then (log, highest)
    else if rs[0].offset < |log| then Absorb(log, rs[1..], if rs[0].offset > highest then rs[0].offset else highest)
    else Absorb(log + [rs[0].payload], rs[1..], if |log| > highest then |log| else highest)
  }

  function OnData(s: Replica, m: Message): (Replica, seq<Message>)
    requires m.Data?
  {
    if m.key !in s.partitions then (s, [])
    else
      var (log, highest) := Absorb(s.partitions[m.key], m.records, -1);
      (s.(partitions := s.partitions[m.key := log]),
       if highest < 0 then [] else [Ack(s.self, m.from, m.key, highest)])
  }

  function OnAck(s: Replica, m: Message): Replica
    requires m.Ack?
  {
    s.(followerOffsets := s.followerOffsets[(m.from, m.key) := m.offset + 1],
       isr := if m.key in s.partitions then s.isr[(m.from, m.key) := m.offset] else s.isr)
  }

  // ---------------------------------------------------------------------
  // The replicator object

  class Node {
    const self: NodeId
    var partitions: map<PartKey, seq<Payload>>
    var followerOffsets: map<(NodeId, PartKey), nat>
    var isr: map<(NodeId, PartKey), nat>

    ghost function View(): Replica
      reads this
    {
      Replica(self, partitions, followerOffsets, isr)
    }

    constructor (id: NodeId, logs: map<PartKey, seq<Payload>>)
      ensures View() == Replica(id, logs, map[], map[])
    {
      self, partitions, followerOffsets, isr := id, logs, map[], map[];
    }

    method LeaderTick(key: PartKey, members: seq<NodeId>) returns (sent: seq<Message>)
      ensures forall m :: m in sent <==> exists f :: f in members && m in Push(View(), f, key)
      ensures forall m :: m in sent <==> m.to in members && Due(View(), m.to, key, m)
    {
      PushIsDue(View(), key);
      sent := [];
      if key !in partitions {
        return;
      }
      for i := 0 to |members|
        invariant forall m :: m in sent <==> exists f :: f in members[..i] && m in Push(View(), f, key)
      {
        var f := members[i];
        ghost var before := sent;
        var off := if (f, key) in followerOffsets then followerOffsets[(f, key)] else 0;
        if f != self && off < |partitions[key]| {
          sent := sent + [Data(self, f, key, Read(partitions[key], off))];
        }
        assert members[..i + 1] == members[..i] + [f];
        assert sent == before + Push(View(), f, key);
      }
      assert members[..|members|] == members;
    }

    method HandleFetch(m: Message) returns (sent: seq<Message>)
      requires m.Fetch?
      modifies this`followerOffsets
      ensures (View(), sent) == OnFetch(old(View()), m)
    {
      sent := [];
      if m.key !in partitions {
        return;
      }
      followerOffsets := followerOffsets[(m.from, m.key) := m.offset];
      if m.offset >= |partitions[m.key]| {
        return;
      }
      sent := [Data(self, m.from, m.key, Read(partitions[m.key], m.offset))];
    }

    method HandleData(m: Message) returns (sent: seq<Message>)
      requires m.Data?
      modifies this`partitions
      ensures (View(), sent) == OnData(old(View()), m)
    {
      sent := [];
      if m.key !in partitions {
        return;
      }
      var highest := -1;
      var i := 0;
      while i < |m.records|
        invariant 0 <= i <= |m.records| && m.key in partitions
        invariant partitions == old(partitions)[m.key := partitions[m.key]]
        invariant Absorb(partitions[m.key], m.records[i..], highest) == Absorb(old(partitions)[m.key], m.records, -1)
      {
        var r := m.records[i];
        assert m.records[i..][1..] == m.records[i + 1..];
        if r.offset < |partitions[m.key]| {
          if r.offset > highest {
            highest := r.offset;
          }
        } else {
          var offset := |partitions[m.key]|;
          partitions := partitions[m.key := partitions[m.key] + [r.payload]];
          if offset > highest {
            highest := offset;
          }
        }
        i := i + 1;
      }
      if highest >= 0 {
        sent := [Ack(self, m.from, m.key, highest)];
      }
    }

    method HandleAck(m: Message)
      requires m.Ack?
      modifies this`followerOffsets, this`isr
      ensures View() == OnAck(old(View()), m)
    {
      followerOffsets := followerOffsets[(m.from, m.key) := m.offset + 1];
      if m.key in partitions {
        isr := isr[(m.from, m.key) := m.offset];
      }
    }
  }

  // ---------------------------------------------------------------------
  // The cluster

  /** A fixed leader, its followers, and everything sent so far. Nothing is ever removed from the
      network and anything in it may be delivered at any time. */
  datatype System = System(leader: Replica, followers: map<NodeId, Replica>, net: set<Message>)

  datatype Step =
    | Append(key: PartKey, payload: Payload)
    | Tick(follower: NodeId, key: PartKey)
    | Poll(follower: NodeId, key: PartKey)
    | Deliver(message: Message)
    | RestartLeader

  function LogOf(s: Replica, k: PartKey): seq<Payload> {
    if k in s.partitions then s.partitions[k] else []
  }

  function Messages(ms: seq<Message>): set<Message> {
    set m | m in ms
  }

  function Apply(y: System, step: Step): System {
    match step
    case Append(k, p) =>
      if k !in y.leader.partitions then y
      else y.(leader := y.leader.(partitions := y.leader.partitions[k := y.leader.partitions[k] + [p]]))
    case Tick(f, k) => y.(net := y.net + Messages(Push(y.leader, f, k)))
    case Poll(f, k) =>
      if f !in y.followers || k !in y.followers[f].partitions then y
      else y.(net := y.net + {Fetch(f, y.leader.self, k, |y.followers[f].partitions[k]|)})
    case Deliver(m) => if m in y.net then Receive(y, m) else y
    case RestartLeader => y.(leader := y.leader.(followerOffsets := map[], isr := map[]))
  }

  function Receive(y: System, m: Message): System {
    if m.to == y.leader.self then
      match m
      case Fetch(_, _, _, _) =>
        var (s, sent) := OnFetch(y.leader, m);
        y.(leader := s, net := y.net + Messages(sent))
      case Ack(_, _, _, _) => y.(leader := OnAck(y.leader, m))
      case Data(_, _, _, _) => y
    else if m.Data? && m.to in y.followers then
      var (s, sent) := OnData(y.followers[m.to], m);
      y.(followers := y.followers[m.to := s], net := y.net + Messages(sent))
    else y
  }

  function Exec(y: System, steps: seq<Step>): System {
    if steps == [] then y else Apply(Exec(y, steps[..|steps| - 1]), steps[|steps| - 1])
  }

  /** Followers start with any prefix of the leader's logs; nothing has been sent. */
  ghost predicate Initial(y: System) {
    && y.net == {} && y.leader.followerOffsets == map[] && y.leader.isr == map[]
    && y.leader.self !in y.followers
    && (forall f :: f in y.followers ==> y.followers[f].self == f)
    && (forall f, k :: f in y.followers ==> LogOf(y.followers[f], k) <= LogOf(y.leader, k))
  }

  /** What follower `f` has written of partition `k`. */
  function Written(y: System, f: NodeId, k: PartKey): seq<Payload> {
    if f in y.followers then LogOf(y.followers[f], k) else []
  }

  ghost predicate MessageOK(y: System, m: Message) {
    match m
    case Fetch(f, to, k, off) => f in y.followers && off <= |Written(y, f, k)|
    case Data(_, f, k, rs) =>
      rs == [] || (rs[0].offset <= |Written(y, f, k)| && Slice(LogOf(y.leader, k), rs[0].offset, rs))
    case Ack(f, _, k, off) => f in y.followers && off < |Written(y, f, k)|
  }

  /** No follower is ahead of what the leader believes, and every follower log is a prefix of the leader's. */
  ghost predicate Safe(y: System) {
    && y.leader.self !in y.followers
    && (forall f :: f in y.followers ==> y.followers[f].self == f)
    && (forall f, k :: Written(y, f, k) <= LogOf(y.leader, k))
    && (forall f, k :: (f, k) in y.leader.followerOffsets ==> y.leader.followerOffsets[(f, k)] <= |Written(y, f, k)|)
    && (forall f, k :: (f, k) in y.leader.isr ==> y.leader.isr[(f, k)] < |Written(y, f, k)|)
    && (forall m :: m in y.net ==> MessageOK(y, m))
  }

  function Max(a: int, b: int): int {
    if a > b then a else b
  }

  /** A slice that starts no later than the end of the log extends the log to the end of the slice. */
  lemma {:induction false} AbsorbSlice(log: seq<Payload>, all: seq<Payload>, start: nat, rs: seq<Record>, highest: int)
    requires log <= all && Slice(all, start, rs) && start <= |log| && -1 <= highest < |log|
    ensures var (l, h) := Absorb(log, rs, highest);
            && l == all[..Max(|log|, start + |rs|)]
            && h == (if rs == [] then highest else Max(highest, start + |rs| - 1))
    decreases |rs|
  {
    if rs != [] {
      assert Slice(all, start + 1, rs[1..]);
      if start < |log| {
        AbsorbSlice(log, all, start + 1, rs[1..], if start > highest then start else highest);
      } else {
        assert log + [rs[0].payload] == all[..start + 1];
        AbsorbSlice(log + [rs[0].payload], all, start + 1, rs[1..], start);
      }
    }
  }

  /** Every record of the batch is at its own offset. */
  ghost predicate InPlace(log: seq<Payload>, start: nat, rs: seq<Record>) {
    start + |rs| <= |log| && forall i :: 0 <= i < |rs| ==> log[start + i] == rs[i].payload
  }

  /** A batch that starts beyond the end of the log is written at the wrong place: every record lands
      on its own offset if and only if the batch does not start beyond the end. */
  lemma {:induction false} GapMisplaces(log: seq<Payload>, all: seq<Payload>, start: nat, rs: seq<Record>, highest: int)
    requires log <= all && Slice(all, start, rs) && rs != [] && -1 <= highest < |log|
    ensures InPlace(Absorb(log, rs, highest).0, start, rs) <==> start <= |log|
  {
    hide Absorb;
    if start <= |log| {
      AbsorbSlice(log, all, start, rs, highest);
    } else {
      AbsorbBounded(log, rs, highest);
    }
  }

  lemma {:induction false} AbsorbBounded(log: seq<Payload>, rs: seq<Record>, highest: int)
    requires highest < |log|
    ensures |Absorb(log, rs, highest).0| <= |log| + |rs|
    ensures Absorb(log, rs, highest).1 < |log| + |rs|
    decreases |rs|
  {
    if rs != [] {
      if rs[0].offset < |log| {
        AbsorbBounded(log, rs[1..], if rs[0].offset > highest then rs[0].offset else highest);
      } else {
        AbsorbBounded(log + [rs[0].payload], rs[1..], |log|);
      }
    }
  }

  // ---------------------------------------------------------------------
  // Every step is safe

  /** Logs only grow and the followers stay the same. */
  ghost predicate Grows(y: System, y': System) {
    && y'.leader.self == y.leader.self && y'.followers.Keys == y.followers.Keys
    && (forall f :: f in y.followers ==> y'.followers[f].self == y.followers[f].self)
    && (forall k :: LogOf(y.leader, k) <= LogOf(y'.leader, k))
    && (forall f, k :: Written(y, f, k) <= Written(y', f, k))
  }

  lemma MessageStays(y: System, y': System, m: Message)
    requires Grows(y, y') && MessageOK(y, m)
    ensures MessageOK(y', m)
  {
    match m
    case Fetch(f, _, k, _) => assert Written(y, f, k) <= Written(y', f, k);
    case Data(_, f, k, _) =>
      assert Written(y, f, k) <= Written(y', f, k);
      assert LogOf(y.leader, k) <= LogOf(y'.leader, k);
    case Ack(f, _, k, _) => assert Written(y, f, k) <= Written(y', f, k);
  }

  /** Growing logs keep the system safe when the leader's tables and the new messages are right. */
  lemma SafeAfter(y: System, y': System)
    requires Safe(y) && Grows(y, y')
    requires forall f, k :: Written(y', f, k) <= LogOf(y'.leader, k)
    requires forall f, k :: (f, k) in y'.leader.followerOffsets ==>
               y'.leader.followerOffsets[(f, k)] <= |Written(y', f, k)|
    requires forall f, k :: (f, k) in y'.leader.isr ==> y'.leader.isr[(f, k)] < |Written(y', f, k)|
    requires forall m :: m in y'.net && m !in y.net ==> MessageOK(y', m)
    ensures Safe(y')
  {
    forall m | m in y'.net ensures MessageOK(y', m) {
      if m in y.net {
        MessageStays(y, y', m);
      }
    }
  }

  lemma ReadIsSlice(log: seq<Payload>, off: nat)
    requires off < |log|
    ensures Read(log, off) != [] && Read(log, off)[0].offset == off && Slice(log, off, Read(log, off))
  {
  }

  lemma AppendSafe(y: System, k: PartKey, p: Payload)
    requires Safe(y)
    ensures Safe(Apply(y, Append(k, p)))
  {
    if k in y.leader.partitions {
      var y' := Apply(y, Append(k, p));
      assert forall f, j :: Written(y', f, j) == Written(y, f, j);
      assert forall j :: LogOf(y.leader, j) <= LogOf(y'.leader, j);
      SafeAfter(y, y');
    }
  }

  lemma TickSafe(y: System, f: NodeId, k: PartKey)
    requires Safe(y)
    ensures Safe(Apply(y, Tick(f, k)))
  {
    var y' := Apply(y, Tick(f, k));
    assert forall g, j :: Written(y', g, j) == Written(y, g, j);
    if Push(y.leader, f, k) != [] {
      var off := FollowerOffset(y.leader, f, k);
      ReadIsSlice(y.leader.partitions[k], off);
      assert off <= |Written(y, f, k)|;
    }
    SafeAfter(y, y');
  }

  lemma PollSafe(y: System, f: NodeId, k: PartKey)
    requires Safe(y)
    ensures Safe(Apply(y, Poll(f, k)))
  {
    var y' := Apply(y, Poll(f, k));
    assert forall g, j :: Written(y', g, j) == Written(y, g, j);
    SafeAfter(y, y');
  }

  lemma LeaderReceivesSafe(y: System, m: Message)
    requires Safe(y) && m in y.net && m.to == y.leader.self
    ensures Safe(Receive(y, m))
  {
    var y' := Receive(y, m);
    assert MessageOK(y, m);
    assert forall g, j :: Written(y', g, j) == Written(y, g, j);
    if m.Fetch? && m.key in y.leader.partitions && m.offset < |y.leader.partitions[m.key]| {
      ReadIsSlice(y.leader.partitions[m.key], m.offset);
    }
    SafeAfter(y, y');
  }

  /** The effect of a batch on the system. */
  lemma DataEffect(y: System, m: Message)
    requires m.Data? && m.to != y.leader.self && m.to in y.followers && m.key in y.followers[m.to].partitions
    ensures var y', f, k := Receive(y, m), m.to, m.key;
            var s, (log, highest) := y.followers[f], Absorb(y.followers[f].partitions[k], m.records, -1);
            && y'.leader == y.leader
            && y'.followers == y.followers[f := s.(partitions := s.partitions[k := log])]
            && (forall a :: a in y'.net && a !in y.net ==> highest >= 0 && a == Ack(s.self, m.from, k, highest))
  {
    hide Absorb;
  }

  /** What the follower absorbs: still a prefix of the leader's log, its own log extended, and the highest
      offset it acknowledges is one it holds. */
  lemma BatchExtends(y: System, m: Message)
    requires Safe(y) && m in y.net && m.Data? && m.to in y.followers && m.key in y.followers[m.to].partitions
    ensures var log := Written(y, m.to, m.key);
            var (after, highest) := Absorb(y.followers[m.to].partitions[m.key], m.records, -1);
            log <= after <= LogOf(y.leader, m.key) && highest < |after|
  {
    assert MessageOK(y, m);
    var log, all := y.followers[m.to].partitions[m.key], LogOf(y.leader, m.key);
    assert log == Written(y, m.to, m.key);
    if m.records != [] {
      AbsorbSlice(log, all, m.records[0].offset, m.records, -1);
    }
  }

  /** What a follower has written after it handles a batch. */
  lemma DataExtends(y: System, m: Message)
    requires Safe(y) && m in y.net && m.Data? && m.to in y.followers && m.key in y.followers[m.to].partitions
    ensures var y' := Receive(y, m);
            && Grows(y, y') && y'.leader == y.leader
            && Written(y', m.to, m.key) <= LogOf(y.leader, m.key)
            && (forall g: NodeId, j: PartKey :: (g, j) != (m.to, m.key) ==> Written(y', g, j) == Written(y, g, j))
            && forall a :: a in y'.net && a !in y.net ==> MessageOK(y', a)
  {
    hide Receive, Absorb;
    DataEffect(y, m);
    BatchExtends(y, m);
    var y' := Receive(y, m);
    assert Written(y', m.to, m.key) == Absorb(y.followers[m.to].partitions[m.key], m.records, -1).0;
  }

  lemma FollowerReceivesSafe(y: System, m: Message)
    requires Safe(y) && m in y.net && m.to != y.leader.self
    ensures Safe(Receive(y, m))
  {
    if m.Data? && m.to in y.followers {
      if m.key in y.followers[m.to].partitions {
        DataExtends(y, m);
        hide Receive, MessageOK;
        SafeAfter(y, Receive(y, m));
      } else {
        assert y.followers[m.to := y.followers[m.to]] == y.followers;
        assert y.net + Messages([]) == y.net;
      }
    }
  }

  lemma ApplySafe(y: System, step: Step)
    requires Safe(y)
    ensures Safe(Apply(y, step))
  {
    hide Safe, Receive;
    match step
    case Append(k, p) => AppendSafe(y, k, p);
    case Tick(f, k) => TickSafe(y, f, k);
    case Poll(f, k) => PollSafe(y, f, k);
    case Deliver(m) =>
      if m in y.net {
        if m.to == y.leader.self {
          LeaderReceivesSafe(y, m);
        } else {
          FollowerReceivesSafe(y, m);
        }
      }
    case RestartLeader => RestartSafe(y);
  }

  lemma RestartSafe(y: System)
    requires Safe(y)
    ensures Safe(Apply(y, RestartLeader))
  {
    var y' := Apply(y, RestartLeader);
    assert forall g, j :: Written(y', g, j) == Written(y, g, j);
    SafeAfter(y, y');
  }

  lemma InitialSafe(y: System)
    requires Initial(y)
    ensures Safe(y)
  {
  }

  lemma {:induction false} ReachableSafe(y0: System, steps: seq<Step>)
    requires Initial(y0)
    ensures Safe(Exec(y0, steps))
    decreases |steps|
  {
    hide Safe, Apply, Initial;
    if steps == [] {
      InitialSafe(y0);
    } else {
      ReachableSafe(y0, steps[..|steps| - 1]);
      ApplySafe(Exec(y0, steps[..|steps| - 1]), steps[|steps| - 1]);
    }
  }

  /** In every run each follower log is a prefix of the leader log, and neither the offset the leader has
      recorded for a follower nor its in-sync offset is beyond what that follower has written. */
  lemma ReplicationPrefixSafety(y0: System, steps: seq<Step>, f: NodeId, k: PartKey)
    requires Initial(y0)
    ensures var y := Exec(y0, steps);
            && Written(y, f, k) <= LogOf(y.leader, k)
            && FollowerOffset(y.leader, f, k) <= |Written(y, f, k)|
            && ((f, k) in y.leader.isr ==> y.leader.isr[(f, k)] < |Written(y, f, k)|)
  {
    ReachableSafe(y0, steps);
  }

  // ---------------------------------------------------------------------
  // Catching up

  lemma PollSends(y: System, f: NodeId, k: PartKey)
    requires f in y.followers && k in y.followers[f].partitions
    ensures var y' := Apply(y, Poll(f, k));
            && y'.leader == y.leader && y'.followers == y.followers
            && Fetch(f, y.leader.self, k, |Written(y, f, k)|) in y'.net
  {
  }

  lemma FetchIsAnswered(y: System, f: NodeId, k: PartKey, n: nat)
    requires Fetch(f, y.leader.self, k, n) in y.net && k in y.leader.partitions && n < |LogOf(y.leader, k)|
    ensures var y' := Apply(y, Deliver(Fetch(f, y.leader.self, k, n)));
            && y'.leader.self == y.leader.self && y'.leader.partitions == y.leader.partitions
            && y'.followers == y.followers
            && FollowerOffset(y'.leader, f, k) == n
            && Data(y.leader.self, f, k, Read(LogOf(y.leader, k), n)) in y'.net
  {
    hide Read;
  }

  lemma BatchIsWritten(y: System, f: NodeId, k: PartKey, n: nat)
    requires Safe(y) && f in y.followers && k in y.followers[f].partitions
    requires n == |Written(y, f, k)| < |LogOf(y.leader, k)|
    requires Data(y.leader.self, f, k, Read(LogOf(y.leader, k), n)) in y.net
    ensures var y', l := Apply(y, Deliver(Data(y.leader.self, f, k, Read(LogOf(y.leader, k), n)))), LogOf(y.leader, k);
            && y'.leader == y.leader && y'.followers.Keys == y.followers.Keys && k in y'.followers[f].partitions
            && Written(y', f, k) == l[..if |l| < n + BATCH then |l| else n + BATCH]
  {
    hide Receive, Absorb, MessageOK;
    var l := LogOf(y.leader, k);
    DataEffect(y, Data(y.leader.self, f, k, Read(l, n)));
    ReadIsSlice(l, n);
    assert Written(y, f, k) <= l;
    AbsorbSlice(Written(y, f, k), l, n, Read(l, n), -1);
  }

  /** The follower polls, the leader answers, the follower receives the answer. */
  function PollRound(y: System, f: NodeId, k: PartKey): seq<Step> {
    var n := |Written(y, f, k)|;
    [Poll(f, k), Deliver(Fetch(f, y.leader.self, k, n)),
     Deliver(Data(y.leader.self, f, k, Read(LogOf(y.leader, k), n)))]
  }

  /** Up to `n` rounds, none once the follower has everything. */
  function PollRounds(y: System, f: NodeId, k: PartKey, n: nat): seq<Step>
    decreases n
  {
    if n == 0 || |Written(y, f, k)| >= |LogOf(y.leader, k)| then []
    else PollRound(y, f, k) + PollRounds(Exec(y, PollRound(y, f, k)), f, k, n - 1)
  }

  /** A follower that polls, is answered and receives the answer has one batch more, or everything. */
  lemma PollRoundRuns(y: System, f: NodeId, k: PartKey)
    requires Safe(y) && f in y.followers && k in y.followers[f].partitions && k in y.leader.partitions
    requires |Written(y, f, k)| < |LogOf(y.leader, k)|
    ensures var l, n, y3 := LogOf(y.leader, k), |Written(y, f, k)|, Exec(y, PollRound(y, f, k));
            && Safe(y3) && LogOf(y3.leader, k) == l && y3.leader.self == y.leader.self
            && y3.followers.Keys == y.followers.Keys && k in y3.followers[f].partitions && k in y3.leader.partitions
            && Written(y3, f, k) == l[..if |l| < n + BATCH then |l| else n + BATCH]
            && FollowerOffset(y3.leader, f, k) == n
  {
    hide Safe, Apply, Read, Exec;
    var l, n := LogOf(y.leader, k), |Written(y, f, k)|;
    var fetch := Fetch(f, y.leader.self, k, n);
    var data := Data(y.leader.self, f, k, Read(l, n));
    var y1 := Apply(y, Poll(f, k));
    PollSends(y, f, k);
    ApplySafe(y, Poll(f, k));
    var y2 := Apply(y1, Deliver(fetch));
    FetchIsAnswered(y1, f, k, n);
    ApplySafe(y1, Deliver(fetch));
    BatchIsWritten(y2, f, k, n);
    ApplySafe(y2, Deliver(data));
    ExecThree(y, Poll(f, k), Deliver(fetch), Deliver(data));
  }

  lemma {:induction false} ExecAppend(y: System, steps: seq<Step>, more: seq<Step>)
    ensures Exec(y, steps + more) == Exec(Exec(y, steps), more)
    decreases |more|
  {
    hide Apply;
    if more == [] {
      assert steps + more == steps;
    } else {
      assert (steps + more)[..|steps + more| - 1] == steps + more[..|more| - 1];
      ExecAppend(y, steps, more[..|more| - 1]);
    }
  }

  lemma ExecThree(y: System, a: Step, b: Step, c: Step)
    ensures Exec(y, [a, b, c]) == Apply(Apply(Apply(y, a), b), c)
  {
    hide Apply;
    assert [a, b, c][..2] == [a, b] && [a, b][..1] == [a] && [a][..0] == [];
    assert Exec(y, [a]) == Apply(y, a);
    assert Exec(y, [a, b]) == Apply(Apply(y, a), b);
  }

  /** From every safe state a follower that keeps polling has the leader's whole log after as many rounds as it
      lacks batches. */
  lemma {:induction false} FollowerCatchesUp(y: System, f: NodeId, k: PartKey, n: nat)
    requires Safe(y) && f in y.followers && k in y.followers[f].partitions && k in y.leader.partitions
    requires |LogOf(y.leader, k)| - |Written(y, f, k)| <= n * BATCH
    ensures var y' := Exec(y, PollRounds(y, f, k, n));
            Written(y', f, k) == LogOf(y'.leader, k) == LogOf(y.leader, k)
    decreases n
  {
    hide Apply, Exec, PollRound;
    assert Written(y, f, k) <= LogOf(y.leader, k);
    if |Written(y, f, k)| >= |LogOf(y.leader, k)| {
      ExecNone(y);
    } else {
      hide Safe;
      PollRoundRuns(y, f, k);
      var y1 := Exec(y, PollRound(y, f, k));
      FollowerCatchesUp(y1, f, k, n - 1);
      ExecAppend(y, PollRound(y, f, k), PollRounds(y1, f, k, n - 1));
    }
  }

  lemma ExecNone(y: System)
    ensures Exec(y, []) == y
  {
  }

  // ---------------------------------------------------------------------
  // Catching up by pushes

  /** In every state a tick sends exactly the next batch, from the offset recorded for the member, if it lags. */
  lemma TickSendsWhatIsDue(y: System, f: NodeId, k: PartKey)
    ensures var y' := Apply(y, Tick(f, k));
            && y'.leader == y.leader && y'.followers == y.followers
            && forall m :: m in y'.net <==> m in y.net || Due(y.leader, f, k, m)
  {
    hide Due, Push;
    PushIsDue(y.leader, k);
  }

  /** A leader that has restarted keeps its logs and has forgotten how far the others are: what it pushes next is the
      first batch of the log. */
  lemma RestartPushesFromTheStart(y: System, f: NodeId, k: PartKey, m: Message)
    requires f != y.leader.self && m !in y.net
    ensures m in Exec(y, [RestartLeader, Tick(f, k)]).net <==>
              && m.Data? && m.from == y.leader.self && m.to == f && m.key == k
              && LogOf(y.leader, k) != [] && NextBatch(LogOf(y.leader, k), 0, m.records)
  {
    hide Push, NextBatch;
    var y1 := Apply(y, RestartLeader);
    assert [RestartLeader, Tick(f, k)][..1] == [RestartLeader] && [RestartLeader][..0] == [];
    assert Exec(y, [RestartLeader]) == Apply(Exec(y, []), RestartLeader);
    TickSendsWhatIsDue(y1, f, k);
  }

  function BatchEnd(log: seq<Payload>, start: nat): nat {
    if |log| < start + BATCH then |log| else start + BATCH
  }

  /** The leader pushes, the follower writes, the leader hears of it. */
  function PushRound(y: System, f: NodeId, k: PartKey): seq<Step>
    requires FollowerOffset(y.leader, f, k) < |LogOf(y.leader, k)|
  {
    var l, n := LogOf(y.leader, k), FollowerOffset(y.leader, f, k);
    [Tick(f, k), Deliver(Data(y.leader.self, f, k, Read(l, n))),
     Deliver(Ack(f, y.leader.self, k, BatchEnd(l, n) - 1))]
  }

  /** Up to `n` rounds, none once the leader has nothing left to push. */
  function PushRounds(y: System, f: NodeId, k: PartKey, n: nat): seq<Step>
    decreases n
  {
    if n == 0 || FollowerOffset(y.leader, f, k) >= |LogOf(y.leader, k)| then []
    else PushRound(y, f, k) + PushRounds(Exec(y, PushRound(y, f, k)), f, k, n - 1)
  }

  /** A batch that starts within the follower's log brings it to the batch's end at least, and is acknowledged. */
  lemma BatchIsAcknowledged(y: System, f: NodeId, k: PartKey, n: nat)
    requires Safe(y) && f in y.followers && k in y.followers[f].partitions
    requires n <= |Written(y, f, k)| && n < |LogOf(y.leader, k)|
    requires Data(y.leader.self, f, k, Read(LogOf(y.leader, k), n)) in y.net
    ensures var y', l := Apply(y, Deliver(Data(y.leader.self, f, k, Read(LogOf(y.leader, k), n)))), LogOf(y.leader, k);
            && y'.leader == y.leader && y'.followers.Keys == y.followers.Keys && k in y'.followers[f].partitions
            && Written(y', f, k) == l[..Max(|Written(y, f, k)|, BatchEnd(l, n))]
            && Ack(f, y.leader.self, k, BatchEnd(l, n) - 1) in y'.net
  {
    hide Absorb, MessageOK;
    var l := LogOf(y.leader, k);
    DataEffect(y, Data(y.leader.self, f, k, Read(l, n)));
    ReadIsSlice(l, n);
    assert Written(y, f, k) <= l && y.followers[f].self == f;
    AbsorbSlice(Written(y, f, k), l, n, Read(l, n), -1);
  }

  lemma AckIsNoted(y: System, f: NodeId, k: PartKey, n: nat)
    requires Ack(f, y.leader.self, k, n) in y.net && k in y.leader.partitions
    ensures var y' := Apply(y, Deliver(Ack(f, y.leader.self, k, n)));
            && y'.leader.self == y.leader.self && y'.leader.partitions == y.leader.partitions
            && y'.followers == y.followers && FollowerOffset(y'.leader, f, k) == n + 1
            && (f, k) in y'.leader.isr && y'.leader.isr[(f, k)] == n
  {
  }

  lemma PushRoundRuns(y: System, f: NodeId, k: PartKey)
    requires Safe(y) && f in y.followers && k in y.followers[f].partitions && k in y.leader.partitions
    requires FollowerOffset(y.leader, f, k) < |LogOf(y.leader, k)|
    ensures var l, n, y3 := LogOf(y.leader, k), FollowerOffset(y.leader, f, k), Exec(y, PushRound(y, f, k));
            && Safe(y3) && LogOf(y3.leader, k) == l && y3.leader.self == y.leader.self
            && y3.followers.Keys == y.followers.Keys && k in y3.followers[f].partitions && k in y3.leader.partitions
            && Written(y3, f, k) == l[..Max(|Written(y, f, k)|, BatchEnd(l, n))]
            && FollowerOffset(y3.leader, f, k) == BatchEnd(l, n)
            && (f, k) in y3.leader.isr && y3.leader.isr[(f, k)] == BatchEnd(l, n) - 1
  {
    hide Safe, Apply, Read, Exec;
    var l, n := LogOf(y.leader, k), FollowerOffset(y.leader, f, k);
    var data, ack := Data(y.leader.self, f, k, Read(l, n)), Ack(f, y.leader.self, k, BatchEnd(l, n) - 1);
    var y1 := Apply(y, Tick(f, k));
    RecordedWithin(y, f, k);
    TickSendsData(y, f, k);
    ApplySafe(y, Tick(f, k));
    var y2 := Apply(y1, Deliver(data));
    BatchIsAcknowledged(y1, f, k, n);
    ApplySafe(y1, Deliver(data));
    AckIsNoted(y2, f, k, BatchEnd(l, n) - 1);
    ApplySafe(y2, Deliver(ack));
    ExecThree(y, Tick(f, k), Deliver(data), Deliver(ack));
  }

  lemma RecordedWithin(y: System, f: NodeId, k: PartKey)
    requires Safe(y)
    ensures FollowerOffset(y.leader, f, k) <= |Written(y, f, k)|
    ensures f in y.followers ==> f != y.leader.self
  {
    hide MessageOK;
  }

  lemma TickSendsData(y: System, f: NodeId, k: PartKey)
    requires k in y.leader.partitions && f != y.leader.self && FollowerOffset(y.leader, f, k) < |LogOf(y.leader, k)|
    ensures var y' := Apply(y, Tick(f, k));
            && y'.leader == y.leader && y'.followers == y.followers
            && Data(y.leader.self, f, k, Read(LogOf(y.leader, k), FollowerOffset(y.leader, f, k))) in y'.net
  {
    hide Read;
  }

  /** From every safe state, whatever the leader has recorded for it: a follower that is pushed to has the leader's
      whole log after as many rounds as the recorded offset lacks batches, and the leader then knows it. */
  lemma {:induction false} PushesCatchUp(y: System, f: NodeId, k: PartKey, n: nat)
    requires Safe(y) && f in y.followers && k in y.followers[f].partitions && k in y.leader.partitions
    requires |LogOf(y.leader, k)| - FollowerOffset(y.leader, f, k) <= n * BATCH
    ensures var y', l := Exec(y, PushRounds(y, f, k, n)), LogOf(y.leader, k);
            && Written(y', f, k) == LogOf(y'.leader, k) == l && FollowerOffset(y'.leader, f, k) == |l|
            && (FollowerOffset(y.leader, f, k) < |l| ==> (f, k) in y'.leader.isr && y'.leader.isr[(f, k)] == |l| - 1)
    decreases n
  {
    hide Apply, Exec, PushRound;
    RecordedWithin(y, f, k);
    assert Written(y, f, k) <= LogOf(y.leader, k);
    if FollowerOffset(y.leader, f, k) >= |LogOf(y.leader, k)| {
      ExecNone(y);
    } else {
      hide Safe;
      PushRoundRuns(y, f, k);
      var y1 := Exec(y, PushRound(y, f, k));
      PushesCatchUp(y1, f, k, n - 1);
      ExecAppend(y, PushRound(y, f, k), PushRounds(y1, f, k, n - 1));
      if FollowerOffset(y1.leader, f, k) >= |LogOf(y1.leader, k)| {
        ExecNone(y1);
      }
    }
  }
}
