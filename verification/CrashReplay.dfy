/**
 The publish path and its crash recovery. A handler holds its partition's lock while it reads the
 partition's next offset, logs the request with that TargetOffset in the message WAL, and appends to
 the partition log. After a crash the broker walks the WAL and appends every entry whose target is
 not below the partition's next offset, then empties the WAL. Crashes may strike at any point,
 also during the walk.
 */
module CrashReplay {

  /** A publish request, as far as recovery can tell requests apart. */
  type Message = nat

  datatype Entry = Entry(partition: nat, target: nat, message: Message)

  /** Where the holder of a partition's lock is. */
  datatype Phase =
    | Idle
    | Captured(message: Message, target: nat)
    | Logged(message: Message, target: nat)

  datatype Mode = Running | Replaying(next: nat)

  /** `past` and `base` are history: the entries emptied out of the WAL so far, and the partition
      logs at the last time it was emptied. */
  datatype Broker = Broker(
    mode: Mode,
    phases: seq<Phase>,
    wal: seq<Entry>,
    logs: seq<seq<Message>>,
    past: seq<Entry>,
    base: seq<seq<Message>>)

  datatype Step =
    | Lock(partition: nat, message: Message)
    | Abort(partition: nat)
    | WalAppend(partition: nat)
    | LogAppend(partition: nat)
    | NoAppend(partition: nat)
    | Crash
    | ReplayNext
    | EmptyWal

  predicate Consistent(b: Broker) {
    && |b.phases| == |b.logs| == |b.base|
    && (forall i :: 0 <= i < |b.wal| ==> b.wal[i].partition < |b.logs|)
    && (b.mode.Replaying? ==> b.mode.next <= |b.wal|)
    && (forall p :: 0 <= p < |b.base| ==> b.base[p] <= b.logs[p])
  }

  /** The recovery loop's body. */
  function ReplayOne(logs: seq<seq<Message>>, e: Entry): seq<seq<Message>>
    requires e.partition < |logs|
  {
    if |logs[e.partition]| > e.target then logs
    else logs[e.partition := logs[e.partition] + [e.message]]
  }

  function AllIdle(n: nat): seq<Phase> {
    seq(n, _ => Idle)
  }

  predicate Enabled(b: Broker, step: Step)
    requires Consistent(b)
  {
    match step
    case Lock(p, _) => b.mode.Running? && p < |b.logs| && b.phases[p].Idle?
    case Abort(p) => b.mode.Running? && p < |b.logs| && b.phases[p].Captured?
    case WalAppend(p) => b.mode.Running? && p < |b.logs| && b.phases[p].Captured?
    case LogAppend(p) => b.mode.Running? && p < |b.logs| && b.phases[p].Logged?
    case NoAppend(p) => b.mode.Running? && p < |b.logs| && b.phases[p].Logged?
    case Crash => true
    case ReplayNext => b.mode.Replaying? && b.mode.next < |b.wal|
    case EmptyWal => b.mode == Replaying(|b.wal|)
  }

  /** One step; a step that is not enabled changes nothing. */
  function Apply(b: Broker, step: Step): (r: Broker)
    requires Consistent(b)
    ensures Consistent(r) && |r.logs| == |b.logs|
  {
    if !Enabled(b, step) then b
    else
      match step
      case Lock(p, m) => b.(phases := b.phases[p := Captured(m, |b.logs[p]|)])
      case Abort(p) => b.(phases := b.phases[p := Idle])
      case WalAppend(p) =>
        var h := b.phases[p];
        b.(phases := b.phases[p := Logged(h.message, h.target)],
           wal := b.wal + [Entry(p, h.target, h.message)])
      case LogAppend(p) =>
        b.(phases := b.phases[p := Idle], logs := b.logs[p := b.logs[p] + [b.phases[p].message]])
      case NoAppend(p) => b.(phases := b.phases[p := Idle])
      case Crash => b.(mode := Replaying(0), phases := AllIdle(|b.logs|))
      case ReplayNext =>
        b.(mode := Replaying(b.mode.next + 1), logs := ReplayOne(b.logs, b.wal[b.mode.next]))
      case EmptyWal => b.(mode := Running, wal := [], past := b.past + b.wal, base := b.logs)
  }

  function Fresh(partitions: nat): Broker {
    var empty := seq(partitions, _ => []);
    Broker(Running, AllIdle(partitions), [], empty, [], empty)
  }

  function Exec(partitions: nat, steps: seq<Step>): (b: Broker)
    ensures Consistent(b) && |b.logs| == partitions
  {
    if steps == [] then Fresh(partitions)
    else Apply(Exec(partitions, steps[..|steps| - 1]), steps[|steps| - 1])
  }

  // ---------------------------------------------------------------------
  // The recovery loop as the broker runs it

  function ReplayAll(logs: seq<seq<Message>>, wal: seq<Entry>): (r: seq<seq<Message>>)
    requires forall i :: 0 <= i < |wal| ==> wal[i].partition < |logs|
    ensures |r| == |logs|
  {
    if wal == [] then logs
    else ReplayOne(ReplayAll(logs, wal[..|wal| - 1]), wal[|wal| - 1])
  }

  class Recovery {
    var wal: seq<Entry>
    var logs: seq<seq<Message>>

    constructor (wal: seq<Entry>, logs: seq<seq<Message>>)
      ensures this.wal == wal && this.logs == logs
    {
      this.wal, this.logs := wal, logs;
    }

    /** Walk the recovered entries, then empty the WAL. */
    method ReplayMessageWal()
      requires forall i :: 0 <= i < |wal| ==> wal[i].partition < |logs|
      modifies this
      ensures logs == ReplayAll(old(logs), old(wal)) && wal == []
    {
      for i := 0 to |wal|
        invariant wal == old(wal)
        invariant logs == ReplayAll(old(logs), wal[..i]) && |logs| == |old(logs)|
      {
        var e := wal[i];
        assert wal[..i + 1][..i] == wal[..i];
        if |logs[e.partition]| <= e.target {
          logs := logs[e.partition := logs[e.partition] + [e.message]];
        }
      }
      assert wal[..|wal|] == wal;
      wal := [];
    }
  }

  function Walk(n: nat): seq<Step> {
    if n == 0 then [] else Walk(n - 1) + [ReplayNext]
  }

  lemma WalkStep(b: Broker, n: nat)
    requires Consistent(b) && b.mode == Replaying(0) && n < |b.wal|
    requires Consistent(b.(mode := Replaying(n), logs := ReplayAll(b.logs, b.wal[..n])))
    ensures Apply(b.(mode := Replaying(n), logs := ReplayAll(b.logs, b.wal[..n])), ReplayNext)
         == b.(mode := Replaying(n + 1), logs := ReplayAll(b.logs, b.wal[..n + 1]))
  {
    hide Consistent;
    assert b.wal[..n + 1][..n] == b.wal[..n];
  }

  /** Steps `ReplayNext` from a crash to the end of the WAL compute the loop's result. */
  lemma {:induction false} ReplaySteps(partitions: nat, steps: seq<Step>, n: nat)
    requires steps != [] && steps[|steps| - 1] == Crash && n <= |Exec(partitions, steps).wal|
    ensures var b := Exec(partitions, steps);
            Exec(partitions, steps + Walk(n)) == b.(mode := Replaying(n), logs := ReplayAll(b.logs, b.wal[..n]))
  {
    hide Consistent, Enabled, ReplayOne;
    var b := Exec(partitions, steps);
    AfterCrash(partitions, steps);
    var run := steps + Walk(n);
    if n == 0 {
      assert run == steps;
    } else {
      ReplaySteps(partitions, steps, n - 1);
      assert run[..|run| - 1] == steps + Walk(n - 1);
      WalkStep(b, n - 1);
    }
  }

  lemma AfterCrash(partitions: nat, steps: seq<Step>)
    requires steps != [] && steps[|steps| - 1] == Crash
    ensures Exec(partitions, steps).mode == Replaying(0)
  {
  }

  // ---------------------------------------------------------------------
  // Every logged message exactly once, at its target

  /** The messages logged for one partition, in WAL order. */
  function MessagesFor(entries: seq<Entry>, p: nat): seq<Message> {
    if entries == [] then []
    else
      var last := entries[|entries| - 1];
      var rest := MessagesFor(entries[..|entries| - 1], p);
      if last.partition == p then rest + [last.message] else rest
  }

  lemma MessagesForMore(entries: seq<Entry>, e: Entry, p: nat)
    ensures MessagesFor(entries + [e], p)
         == if e.partition == p then MessagesFor(entries, p) + [e.message] else MessagesFor(entries, p)
  {
    assert (entries + [e])[..|entries|] == entries;
  }

  lemma {:induction false} MessagesForConcat(a: seq<Entry>, b: seq<Entry>, p: nat)
    ensures MessagesFor(a + b, p) == MessagesFor(a, p) + MessagesFor(b, p)
  {
    if b == [] {
      assert a + b == a;
    } else {
      assert (a + b)[..|a + b| - 1] == a + b[..|b| - 1];
      MessagesForConcat(a, b[..|b| - 1], p);
    }
  }

  lemma {:induction false} MessagesForPrefix(entries: seq<Entry>, i: nat, p: nat)
    requires i <= |entries|
    ensures MessagesFor(entries[..i], p) <= MessagesFor(entries, p)
  {
    MessagesForConcat(entries[..i], entries[i..], p);
    assert entries[..i] + entries[i..] == entries;
  }

  /** What partition `p` should hold once everything logged has been appended. */
  function Due(b: Broker, p: nat): seq<Message>
    requires p < |b.base|
  {
    b.base[p] + MessagesFor(b.wal, p)
  }

  /** Each entry's target is the position of its message in its partition. */
  ghost predicate TargetsExact(b: Broker)
    requires Consistent(b)
  {
    forall i :: 0 <= i < |b.wal| ==>
      b.wal[i].target == |b.base[b.wal[i].partition]| + |MessagesFor(b.wal[..i], b.wal[i].partition)|
  }

  ghost predicate PartitionOK(b: Broker, p: nat)
    requires Consistent(b) && p < |b.logs|
  {
    && b.base[p] == MessagesFor(b.past, p)
    && match b.mode
       case Replaying(i) =>
         && b.phases[p].Idle?
         && b.logs[p] <= Due(b, p)
         && b.base[p] + MessagesFor(b.wal[..i], p) <= b.logs[p]
       case Running =>
         match b.phases[p]
         case Idle => b.logs[p] == Due(b, p)
         case Captured(_, t) => b.logs[p] == Due(b, p) && t == |b.logs[p]|
         case Logged(m, t) => b.logs[p] + [m] == Due(b, p) && t == |b.logs[p]|
  }

  ghost predicate Exact(b: Broker) {
    && Consistent(b)
    && TargetsExact(b)
    && forall p :: 0 <= p < |b.logs| ==> PartitionOK(b, p)
  }

  /** Extending the WAL leaves earlier targets alone. */
  lemma TargetsExactMore(b: Broker, e: Entry)
    requires Consistent(b) && TargetsExact(b) && e.partition < |b.logs|
    requires e.target == |b.base[e.partition]| + |MessagesFor(b.wal, e.partition)|
    ensures TargetsExact(b.(wal := b.wal + [e], mode := Running))
  {
    hide MessagesFor;
    var wal := b.wal + [e];
    assert wal[..|b.wal|] == b.wal;
    assert forall i :: 0 <= i < |b.wal| ==> wal[..i] == b.wal[..i];
  }

  lemma PublishKeepsExact(b: Broker, step: Step)
    requires Exact(b) && Enabled(b, step)
    requires step.Lock? || step.Abort? || step.WalAppend? || step.LogAppend?
    ensures Exact(Apply(b, step))
  {
    hide MessagesFor;
    var q := step.partition;
    assert PartitionOK(b, q);
    var r := Apply(b, step);
    if step.WalAppend? {
      var e := Entry(q, b.phases[q].target, b.phases[q].message);
      TargetsExactMore(b, e);
      assert r.wal == b.wal + [e];
      forall p | 0 <= p < |r.logs| ensures PartitionOK(r, p) {
        assert PartitionOK(b, p);
        MessagesForMore(b.wal, e, p);
      }
    } else {
      forall p | 0 <= p < |r.logs| ensures PartitionOK(r, p) {
        assert PartitionOK(b, p);
      }
    }
  }

  lemma CrashKeepsExact(b: Broker)
    requires Exact(b)
    ensures Exact(Apply(b, Crash))
  {
    var r := Apply(b, Crash);
    forall p | 0 <= p < |r.logs| ensures PartitionOK(r, p) {
      assert PartitionOK(b, p);
      assert r.wal[..0] == [];
    }
  }

  /** The heart of recovery: an entry is skipped exactly when its message is already in place. */
  lemma ReplayKeepsExact(b: Broker)
    requires Exact(b) && Enabled(b, ReplayNext)
    ensures Exact(Apply(b, ReplayNext))
  {
    hide MessagesFor;
    var r := Apply(b, ReplayNext);
    var i := b.mode.next;
    var e := b.wal[i];
    assert b.wal[..i + 1] == b.wal[..i] + [e];
    forall p | 0 <= p < |r.logs| ensures PartitionOK(r, p) {
      assert PartitionOK(b, p);
      MessagesForMore(b.wal[..i], e, p);
      MessagesForPrefix(b.wal, i + 1, p);
      PrefixesNest(b.base[p] + MessagesFor(b.wal[..i], p), b.base[p] + MessagesFor(b.wal[..i + 1], p),
                   b.logs[p], Due(b, p));
    }
  }

  /** Of two prefixes of one sequence the longer extends the shorter. */
  lemma PrefixesNest(before: seq<Message>, after: seq<Message>, log: seq<Message>, all: seq<Message>)
    requires before <= log <= all && after <= all
    ensures |after| <= |log| ==> after <= log
    ensures |log| == |before| ==> log == before
  {
  }

  lemma EmptyWalKeepsExact(b: Broker)
    requires Exact(b) && Enabled(b, EmptyWal)
    ensures Exact(Apply(b, EmptyWal))
  {
    hide MessagesFor;
    var r := Apply(b, EmptyWal);
    assert b.wal[..|b.wal|] == b.wal;
    forall p | 0 <= p < |r.logs| ensures PartitionOK(r, p) {
      assert PartitionOK(b, p);
      MessagesForConcat(b.past, b.wal, p);
      MessagesForNone(p);
    }
  }

  lemma MessagesForNone(p: nat)
    ensures MessagesFor([], p) == []
  {
  }

  lemma {:induction false} ReachableExact(partitions: nat, steps: seq<Step>)
    requires forall i :: 0 <= i < |steps| ==> !steps[i].NoAppend?
    ensures Exact(Exec(partitions, steps))
  {
    hide Exact, Enabled;
    if steps == [] {
      FreshExact(partitions);
    } else {
      var front, step := steps[..|steps| - 1], steps[|steps| - 1];
      ReachableExact(partitions, front);
      var b := Exec(partitions, front);
      if Enabled(b, step) {
        match step
        case Crash => CrashKeepsExact(b);
        case ReplayNext => ReplayKeepsExact(b);
        case EmptyWal => EmptyWalKeepsExact(b);
        case _ => PublishKeepsExact(b, step);
      }
    }
  }

  lemma FreshExact(partitions: nat)
    ensures Exact(Fresh(partitions))
  {
  }

  /** Whatever the interleaving of publishers and wherever the crashes fall: a partition's log is at
      all times a prefix of the messages ever logged for it, and after a completed walk, and whenever
      nobody holds its lock, it is all of them, in order, each at its own TargetOffset. */
  lemma CrashReplayIsExact(partitions: nat, steps: seq<Step>, p: nat)
    requires forall i :: 0 <= i < |steps| ==> !steps[i].NoAppend?
    requires p < partitions
    ensures var b := Exec(partitions, steps);
            && b.logs[p] <= MessagesFor(b.past + b.wal, p)
            && (b.mode == Replaying(|b.wal|) || (b.mode.Running? && b.phases[p].Idle?) ==>
                  && b.logs[p] == MessagesFor(b.past + b.wal, p)
                  && forall i :: 0 <= i < |b.wal| && b.wal[i].partition == p ==>
                       && b.wal[i].target == |MessagesFor(b.past + b.wal[..i], p)| < |b.logs[p]|
                       && b.logs[p][b.wal[i].target] == b.wal[i].message)
  {
    hide MessagesFor, Exec;
    ReachableExact(partitions, steps);
    var b := Exec(partitions, steps);
    assert PartitionOK(b, p);
    MessagesForConcat(b.past, b.wal, p);
    assert b.wal[..|b.wal|] == b.wal;
    if b.mode == Replaying(|b.wal|) || (b.mode.Running? && b.phases[p].Idle?) {
      assert b.logs[p] == Due(b, p);
      forall i | 0 <= i < |b.wal| && b.wal[i].partition == p
        ensures b.wal[i].target == |MessagesFor(b.past + b.wal[..i], p)| < |b.logs[p]|
        ensures b.logs[p][b.wal[i].target] == b.wal[i].message
      {
        MessagesForConcat(b.past, b.wal[..i], p);
        assert b.wal[..i + 1] == b.wal[..i] + [b.wal[i]];
        MessagesForMore(b.wal[..i], b.wal[i], p);
        MessagesForPrefix(b.wal, i + 1, p);
      }
    }
  }

  // ---------------------------------------------------------------------
  // Publishes that log but do not append (a failed append, or an exactly-once duplicate)

  /** What holds even then: every offset past the base belongs to an entry, every entry's target is
      at most the next offset. */
  ghost predicate PartitionCovered(b: Broker, p: nat)
    requires Consistent(b) && p < |b.logs|
  {
    && (!b.phases[p].Idle? ==> b.mode.Running? && b.phases[p].target == |b.logs[p]|)
    && (b.phases[p].Logged? ==> Entry(p, b.phases[p].target, b.phases[p].message) in b.wal)
    && forall t :: |b.base[p]| <= t < |b.logs[p]| ==> Entry(p, t, b.logs[p][t]) in b.wal
  }

  ghost predicate EntryCovered(b: Broker, i: nat)
    requires Consistent(b) && i < |b.wal|
  {
    var e := b.wal[i];
    && |b.base[e.partition]| <= e.target <= |b.logs[e.partition]|
    && (b.mode.Replaying? && i < b.mode.next ==> e.target < |b.logs[e.partition]|)
  }

  ghost predicate Covered(b: Broker) {
    && Consistent(b)
    && (forall p :: 0 <= p < |b.logs| ==> PartitionCovered(b, p))
    && (forall i :: 0 <= i < |b.wal| ==> EntryCovered(b, i))
  }

  lemma StepKeepsPartitionCovered(b: Broker, step: Step, p: nat)
    requires Covered(b) && p < |b.logs|
    ensures PartitionCovered(Apply(b, step), p)
  {
    assert PartitionCovered(b, p);
    if step.ReplayNext? && Enabled(b, step) {
      assert EntryCovered(b, b.mode.next);
    }
  }

  lemma StepKeepsEntryCovered(b: Broker, step: Step, i: nat)
    requires Covered(b) && i < |Apply(b, step).wal|
    ensures EntryCovered(Apply(b, step), i)
  {
    if i < |b.wal| {
      assert EntryCovered(b, i);
    } else {
      assert PartitionCovered(b, step.partition);
    }
  }

  lemma StepKeepsCovered(b: Broker, step: Step)
    requires Covered(b)
    ensures Covered(Apply(b, step))
  {
    hide Apply, PartitionCovered, EntryCovered;
    var r := Apply(b, step);
    forall p | 0 <= p < |r.logs| ensures PartitionCovered(r, p) {
      StepKeepsPartitionCovered(b, step, p);
    }
    forall i | 0 <= i < |r.wal| ensures EntryCovered(r, i) {
      StepKeepsEntryCovered(b, step, i);
    }
  }

  lemma {:induction false} ReachableCovered(partitions: nat, steps: seq<Step>)
    ensures Covered(Exec(partitions, steps))
  {
    hide Apply, Covered;
    if steps == [] {
      FreshCovered(partitions);
    } else {
      ReachableCovered(partitions, steps[..|steps| - 1]);
      StepKeepsCovered(Exec(partitions, steps[..|steps| - 1]), steps[|steps| - 1]);
    }
  }

  lemma FreshCovered(partitions: nat)
    ensures Covered(Fresh(partitions))
  {
  }

  /** For every run, with failing appends too: after a completed walk the offsets past the base are
      exactly the targets in the WAL, and each holds one of the messages logged for it. */
  lemma OneMessagePerTarget(partitions: nat, steps: seq<Step>, p: nat, t: nat)
    requires p < partitions && Exec(partitions, steps).mode == Replaying(|Exec(partitions, steps).wal|)
    ensures var b := Exec(partitions, steps);
            |b.base[p]| <= t ==>
              && (t < |b.logs[p]| <==> exists m :: Entry(p, t, m) in b.wal)
              && (t < |b.logs[p]| ==> Entry(p, t, b.logs[p][t]) in b.wal)
  {
    hide Exec;
    ReachableCovered(partitions, steps);
    var b := Exec(partitions, steps);
    assert PartitionCovered(b, p);
    if |b.base[p]| <= t < |b.logs[p]| {
      var m := b.logs[p][t];
      assert Entry(p, t, m) in b.wal;
    }
    if m: Message :| Entry(p, t, m) in b.wal {
      var i :| 0 <= i < |b.wal| && b.wal[i] == Entry(p, t, m);
      assert EntryCovered(b, i);
    }
  }

  /** No two entries claim one offset for different messages. */
  ghost predicate TargetsAgree(wal: seq<Entry>) {
    forall i, j :: 0 <= i < j < |wal| ==>
      (wal[i].partition == wal[j].partition && wal[i].target == wal[j].target ==> wal[i].message == wal[j].message)
  }

  ghost predicate Recovered(b: Broker)
    requires Consistent(b)
  {
    forall i :: 0 <= i < |b.wal| ==>
      && b.wal[i].target < |b.logs[b.wal[i].partition]|
      && b.logs[b.wal[i].partition][b.wal[i].target] == b.wal[i].message
  }

  /** Exactly when recovery brings back every logged message. */
  lemma RecoveredExactly(partitions: nat, steps: seq<Step>)
    requires Exec(partitions, steps).mode == Replaying(|Exec(partitions, steps).wal|)
    ensures Recovered(Exec(partitions, steps)) <==> TargetsAgree(Exec(partitions, steps).wal)
  {
    hide Exec;
    ReachableCovered(partitions, steps);
    var b := Exec(partitions, steps);
    if TargetsAgree(b.wal) {
      forall i | 0 <= i < |b.wal|
        ensures b.wal[i].target < |b.logs[b.wal[i].partition]|
        ensures b.logs[b.wal[i].partition][b.wal[i].target] == b.wal[i].message
      {
        var e := b.wal[i];
        assert EntryCovered(b, i);
        assert PartitionCovered(b, e.partition);
        assert Entry(e.partition, e.target, b.logs[e.partition][e.target]) in b.wal;
      }
    }
  }

  lemma ExecPrefix(partitions: nat, steps: seq<Step>, k: nat)
    requires k < |steps|
    ensures Exec(partitions, steps[..k + 1]) == Apply(Exec(partitions, steps[..k]), steps[k])
  {
    assert steps[..k + 1][..k] == steps[..k];
  }

  /** A broker with a single partition, before its WAL was ever emptied. */
  function Single(mode: Mode, phase: Phase, wal: seq<Entry>, log: seq<Message>): Broker {
    Broker(mode, [phase], wal, [log], [], [[]])
  }

  predicate AllFirst(wal: seq<Entry>) {
    forall i :: 0 <= i < |wal| ==> wal[i].partition == 0
  }

  lemma SinglePublish(wal: seq<Entry>, log: seq<Message>, m: Message)
    requires AllFirst(wal)
    ensures Consistent(Single(Running, Idle, wal, log))
    ensures var b := Apply(Apply(Single(Running, Idle, wal, log), Lock(0, m)), WalAppend(0));
            && b == Single(Running, Logged(m, |log|), wal + [Entry(0, |log|, m)], log)
            && Apply(b, NoAppend(0)) == Single(Running, Idle, wal + [Entry(0, |log|, m)], log)
            && Apply(b, LogAppend(0)) == Single(Running, Idle, wal + [Entry(0, |log|, m)], log + [m])
  {
    var b := Apply(Single(Running, Idle, wal, log), Lock(0, m));
    assert b.phases == [Captured(m, |log|)];
    assert Apply(b, WalAppend(0)).phases == [Logged(m, |log|)];
  }

  lemma SingleCrash(wal: seq<Entry>, log: seq<Message>)
    requires AllFirst(wal) && |wal| == 2
    requires wal[0].target < |log| && wal[1].target < |log|
    ensures Consistent(Single(Running, Idle, wal, log))
    ensures Apply(Apply(Apply(Single(Running, Idle, wal, log), Crash), ReplayNext), ReplayNext)
         == Single(Replaying(2), Idle, wal, log)
  {
    assert Apply(Single(Running, Idle, wal, log), Crash) == Single(Replaying(0), Idle, wal, log);
  }

  /** A run in which one publish logs but does not append and the next succeeds: the walk skips the
      first message for good. */
  lemma FailedPublishIsLost(m: Message, n: Message)
    requires m != n
    ensures var steps := [Lock(0, m), WalAppend(0), NoAppend(0), Lock(0, n), WalAppend(0), LogAppend(0),
                          Crash, ReplayNext, ReplayNext];
            var b := Exec(1, steps);
            b.mode == Replaying(|b.wal|) && b.logs == [[n]] && Entry(0, 0, m) in b.wal && !Recovered(b)
  {
    hide Exec, Apply, Consistent;
    var steps := [Lock(0, m), WalAppend(0), NoAppend(0), Lock(0, n), WalAppend(0), LogAppend(0),
                  Crash, ReplayNext, ReplayNext];
    FreshOne(steps);
    ExecPrefix(1, steps, 0);
    ExecPrefix(1, steps, 1);
    ExecPrefix(1, steps, 2);
    SinglePublish([], [], m);
    var failed := [Entry(0, 0, m)];
    assert [] + failed == failed;
    assert Exec(1, steps[..3]) == Single(Running, Idle, failed, []);
    ExecPrefix(1, steps, 3);
    ExecPrefix(1, steps, 4);
    ExecPrefix(1, steps, 5);
    SinglePublish(failed, [], n);
    var wal := failed + [Entry(0, 0, n)];
    assert [] + [n] == [n];
    assert Exec(1, steps[..6]) == Single(Running, Idle, wal, [n]);
    ExecPrefix(1, steps, 6);
    ExecPrefix(1, steps, 7);
    ExecPrefix(1, steps, 8);
    SingleCrash(wal, [n]);
    assert steps[..9] == steps;
    assert wal[0] == Entry(0, 0, m);
  }

  lemma FreshOne(steps: seq<Step>)
    ensures Exec(1, steps[..0]) == Single(Running, Idle, [], [])
  {
  }
}
