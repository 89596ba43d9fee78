/**
 Whole runs of a partition log: appends and roll-overs, key-compaction sweeps that are interrupted
 or interleaved with appends at any segment, retention passes, and reopens.
 */
module StorageRuns {
  import opened Bytes
  import opened Options
  import opened Records
  import opened Segments
  import opened PartitionLogs
  import opened KeyCompaction

  /** Fixed for a run: segment size limit, index spacing, which records are tombstones. */
  datatype Config = Config(maxBytes: int, every: int, tomb: Tombstone)

  /** A sweep under way: the log it planned on, how far it got, what was appended meanwhile. */
  datatype Progress = Progress(plan: Log, sweep: Sweep, done: nat, later: seq<Record>)

  /** `history` is every record ever appended. */
  datatype State = State(log: Log, history: seq<Record>, progress: Option<Progress>)

  datatype Step =
    | Append(timestamp: int, codec: Byte, key: Bytes, payload: Bytes)
    | StartSweep(now: int, grace: int)
    | SweepNext
    | EndSweep
    | Retain(stats: seq<Stat>, policy: Policy)
    | Reopen

  /** Steps that cannot happen leave the state alone. */
  function Apply(c: Config, st: State, step: Step): State
    requires st.log != []
  {
    match step
    case Append(timestamp, codec, key, payload) =>
      var r := Record(NextOffset(st.log), timestamp, codec, key, payload);
      if !Room(st.log, r) then st
      else
        State(Appended(st.log, r, c.maxBytes, c.every), st.history + [r],
              if st.progress.None? then None
              else Some(st.progress.value.(later := st.progress.value.later + [r])))
    case StartSweep(now, grace) =>
      if st.progress.Some? then st
      else st.(progress := Some(Progress(st.log, PlanSweep(c.tomb, st.log, now, grace), 0, [])))
    case SweepNext =>
      if st.progress.None? || st.progress.value.done >= |st.progress.value.plan| - 1
         || st.progress.value.done >= |st.log| then st
      else
        var p := st.progress.value;
        State(st.log[p.done := CompactSeg(p.sweep, st.log[p.done], c.every)], st.history,
              Some(p.(done := p.done + 1)))
    case EndSweep => st.(progress := None)
    case Retain(stats, policy) =>
      if st.progress.Some? || |stats| != |st.log| then st
      else st.(log := Retained(st.log, stats, policy))
    case Reopen => State(PartitionLogs.Reopen(st.log), st.history, None)
  }

  // ---------------------------------------------------------------------
  // The invariant

  /** The active segment still holds everything written to it. */
  predicate ActiveWhole(log: Log)
    requires log != []
  {
    var s := log[|log| - 1];
    s.next == NextAfter(s.base, s.records)
  }

  /** Each stored record is the one that was given its offset. */
  ghost predicate FromHistory(log: Log, history: seq<Record>) {
    && (forall i :: 0 <= i < |history| ==> history[i].offset == i)
    && (forall r :: r in AllRecords(log) ==> 0 <= r.offset < |history| && history[r.offset] == r)
  }

  ghost predicate ProgressOK(c: Config, log: Log, p: Progress) {
    && LogOK(p.plan) && p.done < |p.plan| <= |log|
    && p.sweep == PlanSweep(c.tomb, p.plan, p.sweep.now, p.sweep.grace)
    && (forall i :: 0 <= i < |p.plan| - 1 ==> log[i] == Swept(p.sweep, p.plan, c.every, p.done)[i])
    && AllRecords(log) == AllRecords(Swept(p.sweep, p.plan, c.every, p.done)) + p.later
  }

  ghost predicate Inv(c: Config, st: State) {
    && LogOK(st.log) && ActiveWhole(st.log)
    && NextOffset(st.log) == |st.history|
    && FromHistory(st.log, st.history)
    && (st.progress.Some? ==> ProgressOK(c, st.log, st.progress.value))
  }

  lemma AppendKeepsWhole(log: Log, r: Record, maxBytes: int, every: int)
    requires log != [] && r.offset == NextOffset(log)
    ensures ActiveWhole(Appended(log, r, maxBytes, every))
  {
  }

  /** Segments before the active one are not touched by an append. */
  lemma AppendKeepsOlder(log: Log, r: Record, maxBytes: int, every: int)
    requires log != []
    ensures var after := Appended(log, r, maxBytes, every);
            |after| >= |log| && forall i :: 0 <= i < |log| - 1 ==> after[i] == log[i]
  {
    hide SegWrite;
  }

  lemma AppendInv(c: Config, st: State, step: Step)
    requires Inv(c, st) && c.maxBytes > FILE_HEADER && step.Append?
    ensures Inv(c, Apply(c, st, step))
  {
    hide LogOK, AllRecords, Appended, Swept, PlanSweep;
    LastOK(st.log);
    var r := Record(NextOffset(st.log), step.timestamp, step.codec, step.key, step.payload);
    if Room(st.log, r) {
      AppendOK(st.log, r, c.maxBytes, c.every);
      AppendKeepsWhole(st.log, r, c.maxBytes, c.every);
      AppendKeepsOlder(st.log, r, c.maxBytes, c.every);
    }
  }

  lemma StartInv(c: Config, st: State, step: Step)
    requires Inv(c, st) && step.StartSweep?
    ensures Inv(c, Apply(c, st, step))
  {
    hide LogOK, AllRecords;
    LastOK(st.log);
    if st.progress.None? {
      var sweep := PlanSweep(c.tomb, st.log, step.now, step.grace);
      SweptNone(sweep, st.log, c.every);
      assert AllRecords(st.log) + [] == AllRecords(st.log);
    }
  }

  lemma ReplaceRecords(log: Log, k: nat, t: Seg)
    requires k < |log|
    ensures AllRecords(log) == AllRecords(log[..k]) + log[k].records + AllRecords(log[k + 1..])
    ensures AllRecords(log[k := t]) == AllRecords(log[..k]) + t.records + AllRecords(log[k + 1..])
  {
    hide AllRecords;
    assert log == log[..k] + [log[k]] + log[k + 1..];
    AllRecordsConcat(log[..k] + [log[k]], log[k + 1..]);
    AllRecordsConcat(log[..k], [log[k]]);
    OneSegment(log[k]);
    assert log[k := t] == log[..k] + [t] + log[k + 1..];
    AllRecordsConcat(log[..k] + [t], log[k + 1..]);
    AllRecordsConcat(log[..k], [t]);
    OneSegment(t);
  }

  /** Logs that agree up to `k` and differ by `later` differ by it after `k`. */
  lemma SplitSame(log: Log, swept: Log, k: nat, later: seq<Record>)
    requires k < |log| && k < |swept| && log[..k] == swept[..k] && log[k] == swept[k]
    requires AllRecords(log) == AllRecords(swept) + later
    ensures AllRecords(log[k + 1..]) == AllRecords(swept[k + 1..]) + later
  {
    hide AllRecords;
    ReplaceRecords(log, k, log[k]);
    ReplaceRecords(swept, k, swept[k]);
    var head := AllRecords(log[..k]) + log[k].records;
    assert head + AllRecords(log[k + 1..]) == head + (AllRecords(swept[k + 1..]) + later);
    assert (head + AllRecords(log[k + 1..]))[|head|..] == AllRecords(log[k + 1..]);
  }

  lemma ReplaceOK(log: Log, k: nat, t: Seg)
    requires LogOK(log) && k < |log| && SegOK(t) && t.base == log[k].base && t.next == log[k].next
    ensures LogOK(log[k := t]) && NextOffset(log[k := t]) == NextOffset(log)
  {
    hide SegOK;
  }

  lemma SegOfLog(log: Log, k: nat)
    requires LogOK(log) && k < |log|
    ensures SegOK(log[k])
  {
  }

  lemma CompactSegSame(sweep: Sweep, s: Seg, every: int)
    ensures var t := CompactSeg(sweep, s, every); t.base == s.base && t.next == s.next
  {
  }

  /** One more segment compacted, in the log as in the plan. */
  lemma SweepNextRecords(c: Config, log: Log, p: Progress)
    requires LogOK(log) && ProgressOK(c, log, p) && p.done < |p.plan| - 1
    ensures var after := log[p.done := CompactSeg(p.sweep, log[p.done], c.every)];
            && LogOK(after) && NextOffset(after) == NextOffset(log)
            && AllRecords(after) == AllRecords(Swept(p.sweep, p.plan, c.every, p.done + 1)) + p.later
            && (forall i :: 0 <= i < |p.plan| - 1 ==> after[i] == Swept(p.sweep, p.plan, c.every, p.done + 1)[i])
  {
    hide SegOK, LogOK, AllRecords, CompactSeg, Swept;
    var k, s := p.done, log[p.done];
    var swept := Swept(p.sweep, p.plan, c.every, k);
    SweptStep(p.sweep, p.plan, c.every, k);
    var t := CompactSeg(p.sweep, s, c.every);
    SegOfLog(log, k);
    CompactSegOK(p.sweep, s, c.every);
    CompactSegSame(p.sweep, s, c.every);
    ReplaceOK(log, k, t);
    ReplaceRecords(log, k, t);
    ReplaceRecords(swept, k, t);
    assert log[..k] == swept[..k];
    SplitSame(log, swept, k, p.later);
  }

  /** Compacting a segment only removes records. */
  lemma SweepNextMembers(c: Config, log: Log, p: Progress)
    requires p.done < |log|
    ensures var after := log[p.done := CompactSeg(p.sweep, log[p.done], c.every)];
            forall r :: r in AllRecords(after) ==> r in AllRecords(log)
  {
    hide AllRecords, CompactSeg;
    var s := log[p.done];
    ReplaceRecords(log, p.done, CompactSeg(p.sweep, s, c.every));
    CompactSegRecords(p.sweep, s, c.every);
    KeptAreMembers(p.sweep, s.records);
  }

  lemma SweepInv(c: Config, st: State)
    requires Inv(c, st)
    ensures Inv(c, Apply(c, st, SweepNext))
  {
    hide LogOK, AllRecords, CompactSeg, Swept, PlanSweep;
    LastOK(st.log);
    if st.progress.Some? && st.progress.value.done < |st.progress.value.plan| - 1 {
      SweepNextRecords(c, st.log, st.progress.value);
      SweepNextMembers(c, st.log, st.progress.value);
    }
  }

  /** Retention only removes records. */
  lemma {:induction false} SelectMembers(log: Log, ks: seq<nat>)
    requires forall k :: 0 <= k < |ks| ==> ks[k] < |log|
    ensures forall r :: r in AllRecords(Select(log, ks)) ==> r in AllRecords(log)
  {
    if ks != [] {
      var front, last := ks[..|ks| - 1], ks[|ks| - 1];
      SelectMembers(log, front);
      assert Select(log, ks)[..|ks| - 1] == Select(log, front);
      ReplaceRecords(log, last, log[last]);
    }
  }

  lemma RetainInv(c: Config, st: State, step: Step)
    requires Inv(c, st) && step.Retain?
    ensures Inv(c, Apply(c, st, step))
  {
    hide LogOK, AllRecords, Kept, Select;
    LastOK(st.log);
    if st.progress.None? && |step.stats| == |st.log| {
      RetainOK(st.log, step.stats, step.policy);
      LastOK(Retained(st.log, step.stats, step.policy));
      SelectMembers(st.log, Kept(st.log, step.stats, step.policy, |st.log|));
    }
  }

  lemma ReopenInv(c: Config, st: State)
    requires Inv(c, st)
    ensures Inv(c, Apply(c, st, Reopen))
  {
    hide LogOK, AllRecords;
    LastOK(st.log);
    ReopenLogOK(st.log);
  }

  lemma StepInv(c: Config, st: State, step: Step)
    requires Inv(c, st) && c.maxBytes > FILE_HEADER
    ensures st.log != [] && Inv(c, Apply(c, st, step))
  {
    hide Inv, Apply;
    NotEmpty(c, st);
    match step
    case Append(_, _, _, _) => AppendInv(c, st, step);
    case StartSweep(_, _) => StartInv(c, st, step);
    case SweepNext => SweepInv(c, st);
    case EndSweep => EndInv(c, st);
    case Retain(_, _) => RetainInv(c, st, step);
    case Reopen => ReopenInv(c, st);
  }

  lemma NotEmpty(c: Config, st: State)
    requires Inv(c, st)
    ensures st.log != []
  {
  }

  lemma EndInv(c: Config, st: State)
    requires Inv(c, st)
    ensures Inv(c, Apply(c, st, EndSweep))
  {
    hide LogOK, AllRecords;
    LastOK(st.log);
  }

  // ---------------------------------------------------------------------
  // Runs

  function Exec(c: Config, steps: seq<Step>): State {
    if steps == [] then State([NewSeg(0)], [], None)
    else
      var st := Exec(c, steps[..|steps| - 1]);
      if st.log == [] then st else Apply(c, st, steps[|steps| - 1])
  }

  lemma FreshInv(c: Config)
    ensures Inv(c, State([NewSeg(0)], [], None))
  {
    hide ProgressOK, NextOffset, LogOK, ActiveWhole, AllRecords;
    OneSegment(NewSeg(0));
    FreshLog();
  }

  lemma FreshLog()
    ensures LogOK([NewSeg(0)]) && ActiveWhole([NewSeg(0)]) && NextOffset([NewSeg(0)]) == 0
  {
    hide IndexOK;
    NoIndexOK([]);
  }

  lemma {:induction false} ReachableInv(c: Config, steps: seq<Step>)
    requires c.maxBytes > FILE_HEADER
    ensures Inv(c, Exec(c, steps))
  {
    hide Inv, Apply;
    if steps == [] {
      FreshInv(c);
    } else {
      ReachableInv(c, steps[..|steps| - 1]);
      StepInv(c, Exec(c, steps[..|steps| - 1]), steps[|steps| - 1]);
    }
  }

  /** Over every run: the next offset counts the appends ever made, so the `i`-th append got offset `i`;
      every record on disk is the one that was appended at its offset; they are in offset order; and the
      segments' offset ranges are sorted and disjoint. */
  lemma OffsetsAreNeverReused(c: Config, steps: seq<Step>)
    requires c.maxBytes > FILE_HEADER
    ensures var st := Exec(c, steps);
            && LogOK(st.log)
            && NextOffset(st.log) == |st.history|
            && (forall i :: 0 <= i < |st.history| ==> st.history[i].offset == i)
            && (forall r :: r in AllRecords(st.log) ==> 0 <= r.offset < |st.history| && st.history[r.offset] == r)
            && Ascending(AllRecords(st.log))
  {
    hide LogOK, AllRecords, Exec;
    ReachableInv(c, steps);
    LogAscending(Exec(c, steps).log);
  }

  /** Only an append moves the next offset, and by one. */
  lemma OnlyAppendsTakeOffsets(c: Config, steps: seq<Step>, step: Step)
    requires c.maxBytes > FILE_HEADER
    ensures var before, after := Exec(c, steps), Exec(c, steps + [step]);
            && before.log != [] && after.log != []
            && (NextOffset(after.log) == NextOffset(before.log)
                || (step.Append? && NextOffset(after.log) == NextOffset(before.log) + 1
                    && after.history == before.history
                       + [Record(NextOffset(before.log), step.timestamp, step.codec, step.key, step.payload)]))
  {
    hide LogOK, AllRecords;
    assert (steps + [step])[..|steps|] == steps;
    ReachableInv(c, steps);
    ReachableInv(c, steps + [step]);
    NotEmpty(c, Exec(c, steps));
    NotEmpty(c, Exec(c, steps + [step]));
    HistoryGrows(c, Exec(c, steps), step);
  }

  lemma HistoryGrows(c: Config, st: State, step: Step)
    requires st.log != []
    ensures var after := Apply(c, st, step);
            after.history == st.history || (step.Append? && after.history == st.history
              + [Record(NextOffset(st.log), step.timestamp, step.codec, step.key, step.payload)])
  {
  }

  /** A step other than retention does not change what the log means beyond what it appends. */
  lemma StepMeaning(c: Config, st: State, step: Step)
    requires Inv(c, st) && c.maxBytes > FILE_HEADER && !step.Retain? && st.log != []
    requires Meaning(c.tomb, AllRecords(st.log)) == Meaning(c.tomb, st.history)
    requires Keyless(AllRecords(st.log)) == Keyless(st.history)
    ensures var after := Apply(c, st, step);
            && Meaning(c.tomb, AllRecords(after.log)) == Meaning(c.tomb, after.history)
            && Keyless(AllRecords(after.log)) == Keyless(after.history)
  {
    hide LogOK, AllRecords, Appended, CompactSeg, Swept, Meaning, Keyless, FromHistory, PlanSweep;
    match step
    case Append(timestamp, codec, key, payload) =>
      var r := Record(NextOffset(st.log), timestamp, codec, key, payload);
      if Room(st.log, r) {
        AppendOK(st.log, r, c.maxBytes, c.every);
        OneMore(c.tomb, AllRecords(st.log), st.history, r);
      }
    case SweepNext =>
      if st.progress.Some? && st.progress.value.done < |st.progress.value.plan| - 1 {
        SweepMeaning(c, st.log, st.progress.value);
      }
    case Reopen => ReopenLogOK(st.log);
    case _ =>
  }

  lemma OneMore(tomb: Tombstone, a: seq<Record>, b: seq<Record>, r: Record)
    requires Meaning(tomb, a) == Meaning(tomb, b) && Keyless(a) == Keyless(b)
    ensures Meaning(tomb, a + [r]) == Meaning(tomb, b + [r]) && Keyless(a + [r]) == Keyless(b + [r])
  {
    assert (a + [r])[..|a|] == a && (b + [r])[..|b|] == b;
  }

  lemma SweepMeaning(c: Config, log: Log, p: Progress)
    requires LogOK(log) && ProgressOK(c, log, p) && p.done < |p.plan| - 1
    ensures var after := log[p.done := CompactSeg(p.sweep, log[p.done], c.every)];
            && Meaning(c.tomb, AllRecords(after)) == Meaning(c.tomb, AllRecords(log))
            && Keyless(AllRecords(after)) == Keyless(AllRecords(log))
  {
    hide LogOK, AllRecords, CompactSeg, Swept, Meaning, Keyless, PlanSweep, Filter, Latest;
    SweepNextRecords(c, log, p);
    CompactionPreservesMeaning(c.tomb, p.plan, p.sweep.now, p.sweep.grace, c.every, p.done, p.later);
    CompactionPreservesMeaning(c.tomb, p.plan, p.sweep.now, p.sweep.grace, c.every, p.done + 1, p.later);
    KeylessConcat(AllRecords(Swept(p.sweep, p.plan, c.every, p.done)), p.later);
    KeylessConcat(AllRecords(Swept(p.sweep, p.plan, c.every, p.done + 1)), p.later);
  }

  /** Over every run without retention, sweeps interrupted anywhere and interleaved with appends, the log
      means exactly what everything ever appended means, and has lost no record without a key. */
  lemma {:induction false} RunsPreserveMeaning(c: Config, steps: seq<Step>)
    requires c.maxBytes > FILE_HEADER && forall i :: 0 <= i < |steps| ==> !steps[i].Retain?
    ensures var st := Exec(c, steps);
            && Meaning(c.tomb, AllRecords(st.log)) == Meaning(c.tomb, st.history)
            && Keyless(AllRecords(st.log)) == Keyless(st.history)
  {
    hide Inv, Apply, Meaning, Keyless;
    if steps == [] {
      OneSegment(NewSeg(0));
    } else {
      var before := steps[..|steps| - 1];
      RunsPreserveMeaning(c, before);
      ReachableInv(c, before);
      NotEmpty(c, Exec(c, before));
      StepMeaning(c, Exec(c, before), steps[|steps| - 1]);
    }
  }

  // ---------------------------------------------------------------------
  // Sweeps and retention that run

  /** A sweep as far as its first `k` segments. */
  function SweepSteps(now: int, grace: int, k: nat): seq<Step> {
    if k == 0 then [StartSweep(now, grace)] else SweepSteps(now, grace, k - 1) + [SweepNext]
  }

  /** The state of a sweep of `log` that has been through `k` segments. */
  function SweptTo(c: Config, log: Log, history: seq<Record>, sweep: Sweep, k: nat): State
    requires k <= |log|
  {
    State(Swept(sweep, log, c.every, k), history, Some(Progress(log, sweep, k, [])))
  }

  lemma SweepOneMore(c: Config, log: Log, history: seq<Record>, sweep: Sweep, k: nat)
    requires k + 1 < |log|
    ensures Apply(c, SweptTo(c, log, history, sweep, k), SweepNext) == SweptTo(c, log, history, sweep, k + 1)
  {
    hide CompactSeg;
    var done, more := Swept(sweep, log, c.every, k), Swept(sweep, log, c.every, k + 1);
    assert done[k := CompactSeg(sweep, log[k], c.every)] == more;
  }

  lemma {:induction false} SweepSoFar(c: Config, steps: seq<Step>, now: int, grace: int, k: nat)
    requires Exec(c, steps).log != [] && Exec(c, steps).progress.None? && k < |Exec(c, steps).log|
    ensures var st := Exec(c, steps);
            Exec(c, steps + SweepSteps(now, grace, k))
              == SweptTo(c, st.log, st.history, PlanSweep(c.tomb, st.log, now, grace), k)
  {
    hide Apply, CompactSeg, PlanSweep;
    var st, all := Exec(c, steps), steps + SweepSteps(now, grace, k);
    if k == 0 {
      assert all[..|all| - 1] == steps;
      SweepBegins(c, st, now, grace);
    } else {
      assert all[..|all| - 1] == steps + SweepSteps(now, grace, k - 1);
      SweepSoFar(c, steps, now, grace, k - 1);
      SweepOneMore(c, st.log, st.history, PlanSweep(c.tomb, st.log, now, grace), k - 1);
    }
  }

  lemma SweepBegins(c: Config, st: State, now: int, grace: int)
    requires st.log != [] && st.progress.None?
    ensures Apply(c, st, StartSweep(now, grace))
         == SweptTo(c, st.log, st.history, PlanSweep(c.tomb, st.log, now, grace), 0)
  {
    hide CompactSeg, PlanSweep;
    assert Swept(PlanSweep(c.tomb, st.log, now, grace), st.log, c.every, 0) == st.log;
  }

  /** In every run a sweep that nothing interrupts leaves exactly the records that are to stay in the segments before
      the active one, and the active one as it is. */
  lemma SweepRuns(c: Config, steps: seq<Step>, now: int, grace: int)
    requires c.maxBytes > FILE_HEADER && Exec(c, steps).progress.None?
    ensures var before := Exec(c, steps).log; |before| >= 1
    ensures var before := Exec(c, steps).log;
            var n := |before| - 1;
            var after := Exec(c, steps + SweepSteps(now, grace, n)).log;
            && |after| == n + 1 && after[n] == before[n]
            && Compacts(AllRecords(before[..n]), AllRecords(after[..n]), c.tomb, now, grace)
  {
    hide Inv, Exec, LogOK, CompactSeg, Compacts, AllRecords;
    ReachableInv(c, steps);
    var st := Exec(c, steps);
    NotEmpty(c, st);
    InvLog(c, st);
    SweepSoFar(c, steps, now, grace, |st.log| - 1);
    SweepKeepsExactly(c.tomb, st.log, now, grace, c.every);
  }

  /** In every run retention removes exactly the segments it is to remove. */
  lemma RetentionRuns(c: Config, steps: seq<Step>, stats: seq<Stat>, policy: Policy, i: nat)
    requires c.maxBytes > FILE_HEADER && Exec(c, steps).progress.None? && i < |stats| == |Exec(c, steps).log|
    ensures var before, after := Exec(c, steps).log, Exec(c, steps + [Retain(stats, policy)]).log;
            before[i] !in after <==>
              && i != |before| - 1 && !stats[i].Failed?
              && (TooOld(stats, policy, i) || 0 < policy.maxBytes < 5 * |before| + Length(AllRecords(before)))
  {
    hide Inv, LogOK, AllRecords, Retained, TooOld, Length;
    ReachableInv(c, steps);
    InvLog(c, Exec(c, steps));
    assert (steps + [Retain(stats, policy)])[..|steps|] == steps;
    RetainedExactly(Exec(c, steps).log, stats, policy, i);
  }

  // ---------------------------------------------------------------------
  // Roll-over

  /** The segment's file has reached the size limit. */
  ghost predicate AtLimit(c: Config, s: Seg) {
    5 + Length(s.records) >= c.maxBytes
  }

  /** An append to a log whose active segment has reached the limit starts a new one; any other goes to that one. */
  lemma AppendRollsExactly(c: Config, log: Log, r: Record)
    requires log != [] && r.offset == NextOffset(log)
    ensures var after, active := Appended(log, r, c.maxBytes, c.every), log[|log| - 1];
            if AtLimit(c, active)
            then |after| == |log| + 1 && after[..|log|] == log
              && after[|log|].base == r.offset && after[|log|].records == [r]
            else |after| == |log| && after[..|log| - 1] == log[..|log| - 1]
                 && after[|log| - 1].base == active.base && after[|log| - 1].records == active.records + [r]
  {
    hide Length, Indexed;
  }

  ghost predicate SealedFull(c: Config, log: Log) {
    forall i :: 0 <= i < |log| - 1 ==> AtLimit(c, log[i])
  }

  lemma AppendSealsFull(c: Config, log: Log, r: Record)
    requires log != [] && r.offset == NextOffset(log) && SealedFull(c, log)
    ensures SealedFull(c, Appended(log, r, c.maxBytes, c.every))
  {
    hide AtLimit, Appended;
    var after := Appended(log, r, c.maxBytes, c.every);
    AppendRollsExactly(c, log, r);
    forall i | 0 <= i < |after| - 1 ensures AtLimit(c, after[i]) {
      if |after| > |log| {
        assert after[i] == after[..|log|][i];
      } else {
        assert after[i] == after[..|log| - 1][i];
      }
    }
  }

  lemma RetainSealsFull(c: Config, log: Log, stats: seq<Stat>, policy: Policy)
    requires LogOK(log) && |stats| == |log| && SealedFull(c, log)
    ensures SealedFull(c, Retained(log, stats, policy))
  {
    hide AtLimit, SegOK, Kept;
    var ks := Kept(log, stats, policy, |log|);
    KeptIncreasing(log, stats, policy, |log|);
    forall i | 0 <= i < |ks| - 1 ensures AtLimit(c, log[ks[i]]) {
      assert ks[i] < ks[|ks| - 1];
    }
  }

  /** In every run without sweeps every segment but the active one has reached the size limit. */
  lemma {:induction false} SealedAreFull(c: Config, steps: seq<Step>)
    requires c.maxBytes > FILE_HEADER && forall i :: 0 <= i < |steps| ==> !steps[i].SweepNext?
    ensures SealedFull(c, Exec(c, steps).log)
  {
    hide Inv, AtLimit, Appended, Retained;
    if steps != [] {
      var before, step := steps[..|steps| - 1], steps[|steps| - 1];
      SealedAreFull(c, before);
      ReachableInv(c, before);
      var st := Exec(c, before);
      InvLog(c, st);
      match step
      case Append(timestamp, codec, key, payload) =>
        AppendSealsFull(c, st.log, Record(NextOffset(st.log), timestamp, codec, key, payload));
      case Retain(stats, policy) =>
        if |stats| == |st.log| {
          RetainSealsFull(c, st.log, stats, policy);
        }
      case Reopen => ReopenSealsFull(c, st.log);
      case _ =>
    }
  }

  lemma InvLog(c: Config, st: State)
    requires Inv(c, st)
    ensures LogOK(st.log)
  {
  }

  lemma ReopenSealsFull(c: Config, log: Log)
    requires SealedFull(c, log)
    ensures SealedFull(c, PartitionLogs.Reopen(log))
  {
    hide Length;
  }
}
