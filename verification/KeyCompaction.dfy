/**
 Key-based compaction. One pass over the non-active segments finds the latest offset of every key;
 a second pass rewrites those segments, oldest first, keeping records without a key, the latest
 record of each key, and a latest tombstone only while it is young.
 */
module KeyCompaction {
  import opened Bytes
  import opened Options
  import opened Records
  import opened Segments
  import opened PartitionLogs

  /** Whether a record's headers mark it as a tombstone. */
  type Tombstone = Record -> bool

  // ---------------------------------------------------------------------
  // What a log means

  /** The key-to-latest-record map, tombstones deleting their key. */
  function Meaning(tomb: Tombstone, rs: seq<Record>): map<Bytes, Record> {
    if rs == [] then map[]
    else
      var m, r := Meaning(tomb, rs[..|rs| - 1]), rs[|rs| - 1];
      if r.key == [] then m
      else if tomb(r) then m - {r.key}
      else m[r.key := r]
  }

  /** The records without a key, in order. */
  function Keyless(rs: seq<Record>): seq<Record> {
    if rs == [] then []
    else if rs[|rs| - 1].key == [] then Keyless(rs[..|rs| - 1]) + [rs[|rs| - 1]]
    else Keyless(rs[..|rs| - 1])
  }

  /** The last record of a key. */
  function LastOf(rs: seq<Record>, key: Bytes): Option<Record> {
    if rs == [] then None
    else if rs[|rs| - 1].key == key then Some(rs[|rs| - 1])
    else LastOf(rs[..|rs| - 1], key)
  }

  lemma {:induction false} MeaningOfKey(tomb: Tombstone, rs: seq<Record>, key: Bytes)
    ensures key in Meaning(tomb, rs) <==> key != [] && LastOf(rs, key).Some? && !tomb(LastOf(rs, key).value)
    ensures key in Meaning(tomb, rs) ==> Meaning(tomb, rs)[key] == LastOf(rs, key).value
  {
    if rs != [] {
      MeaningOfKey(tomb, rs[..|rs| - 1], key);
    }
  }

  lemma {:induction false} LastOfConcat(a: seq<Record>, b: seq<Record>, key: Bytes)
    ensures LastOf(a + b, key) == if LastOf(b, key).Some? then LastOf(b, key) else LastOf(a, key)
  {
    if b == [] {
      assert a + b == a;
    } else {
      assert (a + b)[..|a + b| - 1] == a + b[..|b| - 1];
      LastOfConcat(a, b[..|b| - 1], key);
    }
  }

  lemma {:induction false} LastOfIsMember(rs: seq<Record>, key: Bytes)
    ensures LastOf(rs, key).Some? ==> LastOf(rs, key).value in rs && LastOf(rs, key).value.key == key
    ensures LastOf(rs, key).None? ==> forall i :: 0 <= i < |rs| ==> rs[i].key != key
  {
    if rs != [] {
      LastOfIsMember(rs[..|rs| - 1], key);
    }
  }

  // ---------------------------------------------------------------------
  // One sweep

  /** The highest offset of each key. */
  function Latest(rs: seq<Record>): map<Bytes, int> {
    if rs == [] then map[]
    else if rs[|rs| - 1].key == [] then Latest(rs[..|rs| - 1])
    else Latest(rs[..|rs| - 1])[rs[|rs| - 1].key := rs[|rs| - 1].offset]
  }

  lemma {:induction false} LatestIsLast(rs: seq<Record>, key: Bytes)
    requires key != []
    ensures key in Latest(rs) <==> LastOf(rs, key).Some?
    ensures key in Latest(rs) ==> Latest(rs)[key] == LastOf(rs, key).value.offset
  {
    if rs != [] {
      LatestIsLast(rs[..|rs| - 1], key);
    }
  }

  predicate Keeps(tomb: Tombstone, latest: map<Bytes, int>, now: int, grace: int, r: Record) {
    if r.key == [] then true
    else if r.key !in latest || r.offset != latest[r.key] then false
    else if tomb(r) then now - r.timestamp < grace
    else true
  }

  function Filter(tomb: Tombstone, latest: map<Bytes, int>, now: int, grace: int, rs: seq<Record>): (kept: seq<Record>)
    ensures |kept| <= |rs|
  {
    if rs == [] then []
    else
      var front, r := Filter(tomb, latest, now, grace, rs[..|rs| - 1]), rs[|rs| - 1];
      if Keeps(tomb, latest, now, grace, r) then front + [r] else front
  }

  lemma {:induction false} FilterConcat(tomb: Tombstone, latest: map<Bytes, int>, now: int, grace: int,
                                        a: seq<Record>, b: seq<Record>)
    ensures Filter(tomb, latest, now, grace, a + b)
         == Filter(tomb, latest, now, grace, a) + Filter(tomb, latest, now, grace, b)
  {
    hide Keeps;
    if b == [] {
      assert a + b == a;
    } else {
      assert (a + b)[..|a + b| - 1] == a + b[..|b| - 1];
      FilterConcat(tomb, latest, now, grace, a, b[..|b| - 1]);
    }
  }

  lemma {:induction false} FilterKeepsKeyless(tomb: Tombstone, latest: map<Bytes, int>, now: int, grace: int,
                                              rs: seq<Record>)
    ensures Keyless(Filter(tomb, latest, now, grace, rs)) == Keyless(rs)
  {
    if rs != [] {
      var front := rs[..|rs| - 1];
      FilterKeepsKeyless(tomb, latest, now, grace, front);
      var kept := Filter(tomb, latest, now, grace, front);
      assert (kept + [rs[|rs| - 1]])[..|kept|] == kept;
    }
  }

  /** A key none of whose records is the latest disappears. */
  lemma {:induction false} FilterDropsStale(tomb: Tombstone, latest: map<Bytes, int>, now: int, grace: int,
                                            rs: seq<Record>, key: Bytes)
    requires key != [] && key in latest
    requires forall i :: 0 <= i < |rs| && rs[i].key == key ==> rs[i].offset != latest[key]
    ensures LastOf(Filter(tomb, latest, now, grace, rs), key).None?
  {
    if rs != [] {
      var front := rs[..|rs| - 1];
      FilterDropsStale(tomb, latest, now, grace, front, key);
      var kept := Filter(tomb, latest, now, grace, front);
      assert (kept + [rs[|rs| - 1]])[..|kept|] == kept;
    }
  }

  /** What filtering does to the last record of a key that is the latest overall. */
  lemma {:induction false} FilterLast(tomb: Tombstone, latest: map<Bytes, int>, now: int, grace: int,
                                      rs: seq<Record>, key: Bytes)
    requires key != [] && Ascending(rs)
    requires LastOf(rs, key).Some? ==> key in latest && LastOf(rs, key).value.offset == latest[key]
    ensures LastOf(Filter(tomb, latest, now, grace, rs), key)
         == if LastOf(rs, key).Some? && Keeps(tomb, latest, now, grace, LastOf(rs, key).value)
            then LastOf(rs, key) else None
  {
    if rs != [] {
      var front, r := rs[..|rs| - 1], rs[|rs| - 1];
      var kept := Filter(tomb, latest, now, grace, front);
      assert (kept + [r])[..|kept|] == kept;
      if r.key == key {
        FilterDropsStale(tomb, latest, now, grace, front, key);
      } else {
        FilterLast(tomb, latest, now, grace, front, key);
      }
    }
  }

  /** Filtering a prefix of the swept records changes nothing that can be looked up, whatever follows. */
  lemma FilterPrefixKey(tomb: Tombstone, now: int, grace: int,
                        done: seq<Record>, todo: seq<Record>, later: seq<Record>, key: Bytes)
    requires Ascending(done + todo) && key != []
    ensures var kept := Filter(tomb, Latest(done + todo), now, grace, done);
            var before, after := LastOf(done + (todo + later), key), LastOf(kept + (todo + later), key);
            after == before || (after.None? && tomb(before.value))
  {
    hide Latest, Filter, LastOf;
    var latest := Latest(done + todo);
    var kept := Filter(tomb, latest, now, grace, done);
    assert Ascending(done) by { assert (done + todo)[..|done|] == done; }
    LastOfConcat(done, todo + later, key);
    LastOfConcat(kept, todo + later, key);
    LastOfConcat(todo, later, key);
    LastOfConcat(done, todo, key);
    LatestIsLast(done + todo, key);
    if LastOf(todo + later, key).None? {
      FilterLast(tomb, latest, now, grace, done, key);
      LastOfIsMember(done, key);
    }
  }

  lemma FilterPrefixMeaning(tomb: Tombstone, now: int, grace: int,
                            done: seq<Record>, todo: seq<Record>, later: seq<Record>)
    requires Ascending(done + todo)
    ensures Meaning(tomb, Filter(tomb, Latest(done + todo), now, grace, done) + (todo + later))
         == Meaning(tomb, done + (todo + later))
  {
    hide Latest, Filter, LastOf, Meaning;
    var kept := Filter(tomb, Latest(done + todo), now, grace, done);
    var before, after := Meaning(tomb, done + (todo + later)), Meaning(tomb, kept + (todo + later));
    forall key
      ensures key in after <==> key in before
      ensures key in after ==> after[key] == before[key]
    {
      MeaningOfKey(tomb, done + (todo + later), key);
      MeaningOfKey(tomb, kept + (todo + later), key);
      if key != [] {
        FilterPrefixKey(tomb, now, grace, done, todo, later, key);
      }
    }
  }

  // ---------------------------------------------------------------------
  // Sweeping a log

  /** A sweep's parameters: what it learnt in its first pass, the clock, the grace period. */
  datatype Sweep = Sweep(tomb: Tombstone, latest: map<Bytes, int>, now: int, grace: int) {
    function Kept(rs: seq<Record>): (kept: seq<Record>)
      ensures |kept| <= |rs|
    {
      Filter(tomb, latest, now, grace, rs)
    }
  }

  /** The first pass looks at every segment but the active one. */
  function PlanSweep(tomb: Tombstone, log: Log, now: int, grace: int): Sweep
    requires log != []
  {
    Sweep(tomb, Latest(AllRecords(log[..|log| - 1])), now, grace)
  }

  /** A segment with nothing to drop is left alone. */
  function CompactSeg(sweep: Sweep, s: Seg, every: int): Seg {
    var kept := sweep.Kept(s.records);
    if |kept| == |s.records| then s else SegRewrite(s, kept, every)
  }

  /** The log after the second pass has been through its first `k` segments. */
  function Swept(sweep: Sweep, log: Log, every: int, k: nat): (r: Log)
    requires k <= |log|
    ensures |r| == |log|
  {
    seq(|log|, i requires 0 <= i < |log| => if i < k then CompactSeg(sweep, log[i], every) else log[i])
  }

  lemma {:induction false} NothingDropped(sweep: Sweep, rs: seq<Record>)
    requires |sweep.Kept(rs)| == |rs|
    ensures sweep.Kept(rs) == rs
  {
    if rs != [] {
      NothingDropped(sweep, rs[..|rs| - 1]);
    }
  }

  lemma CompactSegRecords(sweep: Sweep, s: Seg, every: int)
    ensures CompactSeg(sweep, s, every).records == sweep.Kept(s.records)
  {
    hide Filter;
    if |sweep.Kept(s.records)| == |s.records| {
      NothingDropped(sweep, s.records);
    }
  }

  lemma {:induction false} KeptAreMembers(sweep: Sweep, rs: seq<Record>)
    ensures forall r :: r in sweep.Kept(rs) ==> r in rs
  {
    hide Keeps;
    if rs != [] {
      KeptAreMembers(sweep, rs[..|rs| - 1]);
      assert rs == rs[..|rs| - 1] + [rs[|rs| - 1]];
    }
  }

  lemma {:induction false} KeptAscends(sweep: Sweep, rs: seq<Record>)
    requires Ascending(rs)
    ensures Ascending(sweep.Kept(rs))
  {
    hide Keeps;
    if rs != [] {
      var front, r := rs[..|rs| - 1], rs[|rs| - 1];
      KeptAscends(sweep, front);
      KeptAreMembers(sweep, front);
      var kept := sweep.Kept(front);
      assert forall i :: 0 <= i < |kept| ==> kept[i] in front;
      assert Ascending(kept + [r]);
    }
  }

  lemma {:induction false} KeptIsShorter(sweep: Sweep, rs: seq<Record>)
    ensures Length(sweep.Kept(rs)) <= Length(rs)
  {
    hide Keeps, Size;
    if rs != [] {
      var front, r := rs[..|rs| - 1], rs[|rs| - 1];
      KeptIsShorter(sweep, front);
      var kept := sweep.Kept(front);
      assert (kept + [r])[..|kept|] == kept;
    }
  }

  /** What is kept is in order, within the same bounds, and no longer. */
  lemma KeptInOrder(sweep: Sweep, rs: seq<Record>, lo: int, hi: int)
    requires AllFit(rs) && Ascending(rs) && forall i :: 0 <= i < |rs| ==> lo <= rs[i].offset < hi
    ensures var kept := sweep.Kept(rs);
            && AllFit(kept) && Ascending(kept) && Length(kept) <= Length(rs)
            && (forall i :: 0 <= i < |kept| ==> lo <= kept[i].offset < hi)
  {
    hide Filter, Fits, Length;
    KeptAreMembers(sweep, rs);
    KeptAscends(sweep, rs);
    KeptIsShorter(sweep, rs);
    var kept := sweep.Kept(rs);
    forall i | 0 <= i < |kept| ensures lo <= kept[i].offset < hi && Fits(kept[i]) {
      assert kept[i] in rs;
    }
  }

  lemma CompactSegOK(sweep: Sweep, s: Seg, every: int)
    requires SegOK(s)
    ensures SegOK(CompactSeg(sweep, s, every))
  {
    hide IndexOK, Filter, Length, Reindexed;
    KeptInOrder(sweep, s.records, s.base, s.next);
    ReindexedOK(sweep.Kept(s.records), every);
  }

  lemma SweptOK(sweep: Sweep, log: Log, every: int, k: nat)
    requires LogOK(log) && k < |log|
    ensures LogOK(Swept(sweep, log, every, k)) && NextOffset(Swept(sweep, log, every, k)) == NextOffset(log)
  {
    hide SegOK;
    forall i | 0 <= i < |log| ensures SegOK(Swept(sweep, log, every, k)[i]) {
      CompactSegOK(sweep, log[i], every);
    }
  }

  lemma {:induction false} SweptPrefix(sweep: Sweep, log: Log, every: int)
    ensures AllRecords(Swept(sweep, log, every, |log|)) == sweep.Kept(AllRecords(log))
  {
    hide Filter;
    if log == [] {
      NoneKept(sweep);
    } else {
      var front, last := log[..|log| - 1], log[|log| - 1];
      SweptPrefix(sweep, front, every);
      assert Swept(sweep, log, every, |log|)[..|log| - 1] == Swept(sweep, front, every, |front|);
      CompactSegRecords(sweep, last, every);
      FilterConcat(sweep.tomb, sweep.latest, sweep.now, sweep.grace, AllRecords(front), last.records);
    }
  }

  lemma NoneKept(sweep: Sweep)
    ensures sweep.Kept([]) == []
  {
  }

  lemma SweptSplit(sweep: Sweep, log: Log, every: int, k: nat)
    requires k <= |log|
    ensures Swept(sweep, log, every, k) == Swept(sweep, log[..k], every, k) + log[k..]
  {
    hide CompactSeg;
  }

  /** After `k` segments: their records filtered, the rest untouched. */
  lemma SweptRecords(sweep: Sweep, log: Log, every: int, k: nat)
    requires k <= |log|
    ensures AllRecords(Swept(sweep, log, every, k)) == sweep.Kept(AllRecords(log[..k])) + AllRecords(log[k..])
    ensures AllRecords(log) == AllRecords(log[..k]) + AllRecords(log[k..])
  {
    hide AllRecords, CompactSeg, Filter, Swept;
    var front, back := log[..k], log[k..];
    SweptSplit(sweep, log, every, k);
    AllRecordsConcat(Swept(sweep, front, every, k), back);
    SweptPrefix(sweep, front, every);
    RecordsSplit(log, k);
  }

  lemma RecordsSplit(log: Log, k: nat)
    requires k <= |log|
    ensures AllRecords(log) == AllRecords(log[..k]) + AllRecords(log[k..])
  {
    hide AllRecords;
    assert log[..k] + log[k..] == log;
    AllRecordsConcat(log[..k], log[k..]);
  }

  /** The records of a log are in offset order. */
  lemma {:induction false} LogAscending(log: Log)
    requires LogOK(log)
    ensures Ascending(AllRecords(log))
    ensures forall i :: 0 <= i < |AllRecords(log)| ==> AllRecords(log)[i].offset < NextOffset(log)
    decreases |log|
  {
    hide SegOK;
    var front, last := log[..|log| - 1], log[|log| - 1];
    SegInOrder(last);
    if front == [] {
      assert AllRecords(log) == last.records;
    } else {
      LogAscending(front);
      assert front[|front| - 1].next <= last.base;
      LastOK(log);
      SegBounds(last);
    }
  }

  lemma SegInOrder(s: Seg)
    requires SegOK(s)
    ensures Ascending(s.records) && forall i :: 0 <= i < |s.records| ==> s.base <= s.records[i].offset < s.next
  {
  }

  lemma SegBounds(s: Seg)
    requires SegOK(s)
    ensures s.base <= s.next
  {
  }

  /** Stopped after any number of segments, and whatever is appended later, the compacted log means what
      the log meant: the same latest record for every key and the same records without a key. */
  lemma CompactionPreservesMeaning(tomb: Tombstone, log: Log, now: int, grace: int, every: int,
                                   k: nat, later: seq<Record>)
    requires LogOK(log) && k < |log|
    ensures var after := AllRecords(Swept(PlanSweep(tomb, log, now, grace), log, every, k));
            && Meaning(tomb, after + later) == Meaning(tomb, AllRecords(log) + later)
            && Keyless(after) == Keyless(AllRecords(log))
            && Ascending(after)
            && forall r :: r in after ==> r in AllRecords(log)
  {
    hide SegOK, AllRecords, Filter, Latest, Meaning, Keyless;
    var sweep := PlanSweep(tomb, log, now, grace);
    var targets := log[..|log| - 1];
    var done, todo, active := AllRecords(log[..k]), AllRecords(targets[k..]), log[|log| - 1].records;
    SweptRecords(sweep, log, every, k);
    assert log[k..] == targets[k..] + [log[|log| - 1]];
    AllRecordsConcat(targets[k..], [log[|log| - 1]]);
    OneSegment(log[|log| - 1]);
    assert targets == log[..k] + targets[k..];
    AllRecordsConcat(log[..k], targets[k..]);
    var after := sweep.Kept(done) + (todo + active);
    assert AllRecords(log) == done + (todo + active);
    LogAscending(log);
    assert Ascending(done + todo) by { assert AllRecords(log)[..|done + todo|] == done + todo; }
    FilterPrefixMeaning(tomb, now, grace, done, todo, active + later);
    assert after + later == sweep.Kept(done) + (todo + (active + later));
    assert AllRecords(log) + later == done + (todo + (active + later));
    FilterKeepsKeyless(tomb, sweep.latest, now, grace, done);
    KeylessConcat(sweep.Kept(done), todo + active);
    KeylessConcat(done, todo + active);
    SweptOK(sweep, log, every, k);
    LogAscending(Swept(sweep, log, every, k));
    KeptAreMembers(sweep, done);
  }

  // ---------------------------------------------------------------------
  // Which records remain

  /** Of the records swept over, the one at `j` is to stay: it has no key, or it is the last of its key and not a
      tombstone that has outlived the grace. */
  ghost predicate Survives(rs: seq<Record>, j: nat, tomb: Tombstone, now: int, grace: int)
    requires j < |rs|
  {
    rs[j].key == []
    || (&& (forall i :: j < i < |rs| ==> rs[i].key != rs[j].key)
        && (tomb(rs[j]) ==> now - rs[j].timestamp < grace))
  }

  /** Exactly the records that are to stay remain. */
  ghost predicate Compacts(before: seq<Record>, after: seq<Record>, tomb: Tombstone, now: int, grace: int) {
    && (forall j :: 0 <= j < |before| ==> (before[j] in after <==> Survives(before, j, tomb, now, grace)))
    && (forall r :: r in after ==> r in before)
  }

  lemma {:induction false} FilterMembers(tomb: Tombstone, latest: map<Bytes, int>, now: int, grace: int,
                                         rs: seq<Record>, r: Record)
    ensures r in Filter(tomb, latest, now, grace, rs) <==> r in rs && Keeps(tomb, latest, now, grace, r)
  {
    hide Keeps;
    if rs != [] {
      FilterMembers(tomb, latest, now, grace, rs[..|rs| - 1], r);
      assert rs == rs[..|rs| - 1] + [rs[|rs| - 1]];
    }
  }

  /** The last record of a key is the one no later record of that key follows. */
  lemma {:induction false} LastOfExactly(rs: seq<Record>, j: nat)
    requires j < |rs| && Ascending(rs)
    ensures LastOf(rs, rs[j].key).Some?
    ensures LastOf(rs, rs[j].key).value.offset == rs[j].offset <==> forall i :: j < i < |rs| ==> rs[i].key != rs[j].key
    decreases |rs|
  {
    if rs[|rs| - 1].key != rs[j].key {
      var front := rs[..|rs| - 1];
      LastOfExactly(front, j);
      assert forall i :: 0 <= i < |front| ==> front[i] == rs[i];
    }
  }

  lemma KeepsSurvivors(rs: seq<Record>, j: nat, tomb: Tombstone, now: int, grace: int)
    requires j < |rs| && Ascending(rs)
    ensures Keeps(tomb, Latest(rs), now, grace, rs[j]) <==> Survives(rs, j, tomb, now, grace)
  {
    hide Latest, LastOf;
    if rs[j].key != [] {
      LatestIsLast(rs, rs[j].key);
      LastOfExactly(rs, j);
    }
  }

  /** What a completed sweep leaves of the segments it went over. */
  function SweptOver(tomb: Tombstone, log: Log, now: int, grace: int, every: int): seq<Record>
    requires log != []
  {
    AllRecords(Swept(PlanSweep(tomb, log, now, grace), log, every, |log| - 1)[..|log| - 1])
  }

  /** A keyed record of the swept segments remains if and only if no later record of its key is in them and it is no
      tombstone or is younger than the grace. */
  lemma SweepKeepsExactly(tomb: Tombstone, log: Log, now: int, grace: int, every: int)
    requires LogOK(log)
    ensures Compacts(AllRecords(log[..|log| - 1]), SweptOver(tomb, log, now, grace, every), tomb, now, grace)
  {
    hide SegOK, AllRecords, Filter, Latest, CompactSeg, Keeps, Survives;
    var targets, sweep := log[..|log| - 1], PlanSweep(tomb, log, now, grace);
    var rs := AllRecords(targets);
    SweptPrefix(sweep, targets, every);
    assert Swept(sweep, log, every, |log| - 1)[..|log| - 1] == Swept(sweep, targets, every, |targets|);
    assert Ascending(rs) by { TargetsAscend(log); }
    forall r ensures r in sweep.Kept(rs) <==> r in rs && Keeps(tomb, Latest(rs), now, grace, r) {
      FilterMembers(tomb, Latest(rs), now, grace, rs, r);
    }
    forall j | 0 <= j < |rs| ensures rs[j] in sweep.Kept(rs) <==> Survives(rs, j, tomb, now, grace) {
      KeepsSurvivors(rs, j, tomb, now, grace);
    }
  }

  lemma TargetsAscend(log: Log)
    requires LogOK(log)
    ensures Ascending(AllRecords(log[..|log| - 1]))
  {
    hide SegOK;
    LogAscending(log);
    var rs := AllRecords(log[..|log| - 1]);
    assert AllRecords(log)[..|rs|] == rs;
  }

  /** So at most one record of a key remains there, and no tombstone that has outlived the grace. */
  lemma SweepLeavesOnePerKey(tomb: Tombstone, log: Log, now: int, grace: int, every: int, a: Record, b: Record)
    requires LogOK(log) && a in SweptOver(tomb, log, now, grace, every) && a.key != []
    ensures tomb(a) ==> now - a.timestamp < grace
    ensures b in SweptOver(tomb, log, now, grace, every) && b.key == a.key ==> a == b
  {
    hide SegOK, AllRecords, SweptOver;
    SweepKeepsExactly(tomb, log, now, grace, every);
    var rs := AllRecords(log[..|log| - 1]);
    var i :| 0 <= i < |rs| && rs[i] == a;
    assert Survives(rs, i, tomb, now, grace);
    if b in SweptOver(tomb, log, now, grace, every) && b.key == a.key {
      var j :| 0 <= j < |rs| && rs[j] == b;
      assert Survives(rs, j, tomb, now, grace);
    }
  }

  lemma {:induction false} KeylessConcat(a: seq<Record>, b: seq<Record>)
    ensures Keyless(a + b) == Keyless(a) + Keyless(b)
  {
    if b == [] {
      assert a + b == a;
    } else {
      assert (a + b)[..|a + b| - 1] == a + b[..|b| - 1];
      KeylessConcat(a, b[..|b| - 1]);
    }
  }

  // ---------------------------------------------------------------------
  // The sweep as the compactor runs it

  /** Every record in a file, or an error at a bad checksum. */
  function ParseAll(crc: Checksum, b: Bytes): Result<seq<Record>>
    decreases |b|
  {
    match Decode(crc, b)
    case End => Ok([])
    case Corrupt => Err
    case Got(r, size) => Prepend([r], ParseAll(crc, b[size..]))
  }

  lemma {:induction false} ParseRecords(crc: Checksum, rs: seq<Record>)
    requires AllFit(rs)
    ensures ParseAll(crc, EncodeAll(crc, rs)) == Ok(rs)
  {
    hide EncodeAll, Decode;
    if rs == [] {
      DecodeNothing(crc);
    } else {
      DecodeFirst(crc, rs);
      ParseRecords(crc, rs[1..]);
      assert [rs[0]] + rs[1..] == rs;
    }
  }

  method ScanFile(crc: Checksum, file: Bytes) returns (r: Result<seq<Record>>)
    ensures r == ParseAll(crc, file)
  {
    hide Decode;
    var recs, rest := [], file;
    PrependNothing(ParseAll(crc, file));
    while true
      invariant ParseAll(crc, file) == Prepend(recs, ParseAll(crc, rest))
      decreases |rest|
    {
      var d := Decode(crc, rest);
      if d.End? { break; }
      if d.Corrupt? { return Err; }
      rest := rest[d.size..];
      PrependMore(recs, [d.record], ParseAll(crc, rest));
      recs := recs + [d.record];
    }
    assert recs + [] == recs;
    r := Ok(recs);
  }

  method ScanSegment(seg: Segment) returns (r: Result<seq<Record>>)
    requires seg.Valid()
    ensures r == Ok(seg.model.records)
  {
    hide EncodeAll, ParseAll, PositionOf, IndexOK, LogBytes, EncodeIndex;
    FirstPosition(seg.model.records);
    LogBytesFrom(seg.crc, seg.model, 0);
    assert seg.model.records[0..] == seg.model.records;
    ParseRecords(seg.crc, seg.model.records);
    r := ScanFile(seg.crc, seg.logFile[FILE_HEADER..]);
  }

  /** Note the offsets of one segment's records. */
  method NoteLatest(latest: map<Bytes, int>, recs: seq<Record>, ghost before: seq<Record>) returns (r: map<Bytes, int>)
    requires latest == Latest(before)
    ensures r == Latest(before + recs)
  {
    hide Latest;
    r := latest;
    assert before + recs[..0] == before;
    for i := 0 to |recs|
      invariant r == Latest(before + recs[..i])
    {
      LatestMore(before + recs[..i], recs[i]);
      assert before + recs[..i + 1] == before + recs[..i] + [recs[i]];
      if recs[i].key != [] {
        r := r[recs[i].key := recs[i].offset];
      }
    }
    assert recs[..|recs|] == recs;
  }

  lemma LatestMore(rs: seq<Record>, r: Record)
    ensures Latest(rs + [r]) == if r.key == [] then Latest(rs) else Latest(rs)[r.key := r.offset]
  {
    assert (rs + [r])[..|rs|] == rs;
  }

  /** The first pass. */
  method ScanTargets(pl: PartitionLog) returns (ok: bool, all: seq<seq<Record>>, latest: map<Bytes, int>)
    requires pl.Valid()
    ensures ok && |all| == |pl.segments| - 1
    ensures forall i :: 0 <= i < |all| ==> all[i] == pl.Model()[i].records
    ensures latest == Latest(AllRecords(pl.Model()[..|all|]))
  {
    hide SegOK, LogOK, AllRecords, Latest;
    ghost var log := pl.Model();
    all, latest := [], map[];
    LastOK(log);
    NoLatest(log);
    for i := 0 to |pl.segments| - 1
      invariant |all| == i && forall j :: 0 <= j < i ==> all[j] == log[j].records
      invariant latest == Latest(AllRecords(log[..i]))
    {
      assert pl.SegmentOK(pl.segments[i]);
      var recs := ScanSegment(pl.segments[i]);
      if recs.Err? { return false, all, latest; }
      RecordsStep(log, i);
      latest := NoteLatest(latest, recs.value, AllRecords(log[..i]));
      all := all + [recs.value];
    }
    ok := true;
  }

  lemma NoLatest(log: Log)
    ensures Latest(AllRecords(log[..0])) == map[]
  {
  }

  lemma RecordsStep(log: Log, i: nat)
    requires i < |log|
    ensures AllRecords(log[..i + 1]) == AllRecords(log[..i]) + log[i].records
  {
    assert log[..i + 1][..i] == log[..i];
  }

  /** Decide record by record. */
  method FilterRecords(sweep: Sweep, recs: seq<Record>) returns (kept: seq<Record>, dropped: nat)
    ensures kept == sweep.Kept(recs) && dropped == |recs| - |kept|
  {
    hide Keeps;
    kept, dropped := [], 0;
    for i := 0 to |recs|
      invariant kept == sweep.Kept(recs[..i]) && dropped == i - |kept|
    {
      assert recs[..i + 1][..i] == recs[..i];
      if Keeps(sweep.tomb, sweep.latest, sweep.now, sweep.grace, recs[i]) {
        kept := kept + [recs[i]];
      } else {
        dropped := dropped + 1;
      }
    }
    assert recs[..|recs|] == recs;
  }

  lemma SweptStep(sweep: Sweep, log: Log, every: int, i: nat)
    requires i < |log|
    ensures Swept(sweep, log, every, i)[i] == log[i]
    ensures Swept(sweep, log, every, i + 1) == Swept(sweep, log, every, i)[i := CompactSeg(sweep, log[i], every)]
  {
  }

  lemma SweptNone(sweep: Sweep, log: Log, every: int)
    ensures Swept(sweep, log, every, 0) == log
  {
  }

  /** How many records the sweep of the first `k` segments drops. */
  lemma SweptCount(sweep: Sweep, log: Log, every: int, k: nat)
    requires k <= |log|
    ensures |AllRecords(log)| - |AllRecords(Swept(sweep, log, every, k))|
         == |AllRecords(log[..k])| - |sweep.Kept(AllRecords(log[..k]))|
  {
    hide AllRecords, Filter;
    SweptRecords(sweep, log, every, k);
  }

  /** One more segment's worth of dropped records. */
  lemma CountStep(sweep: Sweep, log: Log, i: nat)
    requires i < |log|
    ensures |AllRecords(log[..i + 1])| - |sweep.Kept(AllRecords(log[..i + 1]))|
         == |AllRecords(log[..i])| - |sweep.Kept(AllRecords(log[..i]))|
            + |log[i].records| - |sweep.Kept(log[i].records)|
  {
    hide AllRecords, Filter;
    RecordsStep(log, i);
    FilterConcat(sweep.tomb, sweep.latest, sweep.now, sweep.grace, AllRecords(log[..i]), log[i].records);
  }

  /** The records of all segments but the active one. */
  ghost function Sealed(pl: PartitionLog): seq<Record>
    requires pl.segments != []
    reads pl, pl.segments
  {
    AllRecords(pl.Model()[..|pl.segments| - 1])
  }

  class KeyCompactor {
    var tombstoneTTL: int

    constructor (tombstoneTTL: int)
      ensures this.tombstoneTTL == tombstoneTTL
    {
      this.tombstoneTTL := tombstoneTTL;
    }

    /** One sweep over everything but the active segment, up to the first rewrite that fails; returns how many records
        it removed. */
    method CompactPartition(pl: PartitionLog, tomb: Tombstone, now: int, failAt: nat, fault: Fault)
      returns (removed: int, ok: bool)
      requires pl.Valid()
      modifies pl.segments
      ensures ok || fault != IndexRename ==> pl.Valid()
      ensures var log := old(pl.Model());
              var sweep := PlanSweep(tomb, log, now, if tombstoneTTL < 0 then 0 else tombstoneTTL);
              && ok == !(FailsAt(sweep, log, failAt) && !fault.NoFault?)
              && pl.Model() == (if ok then Swept(sweep, log, pl.indexEvery, |log| - 1)
                                else SweptUntil(sweep, log, pl.indexEvery, failAt, fault))
              && removed == |AllRecords(log)|
                            - |AllRecords(Swept(sweep, log, pl.indexEvery, if ok then |log| - 1 else failAt))|
      ensures ok ==> Compacts(old(Sealed(pl)), Sealed(pl), tomb, now, if tombstoneTTL < 0 then 0 else tombstoneTTL)
    {
      hide SegOK, LogOK, AllRecords, Filter, Latest, Swept, SweptUntil, PartitionLog.SegmentsOK, Compacts;
      ghost var log := pl.Model();
      LastOK(log);
      SweepKeepsExactly(tomb, log, now, if tombstoneTTL < 0 then 0 else tombstoneTTL, pl.indexEvery);
      var grace := if tombstoneTTL < 0 then 0 else tombstoneTTL;
      var scanned, all, latest := ScanTargets(pl);
      var sweep := Sweep(tomb, latest, now, grace);
      assert sweep == PlanSweep(tomb, log, now, grace);
      removed, ok := RewriteTargets(pl, sweep, all, failAt, fault);
      SweptCount(sweep, log, pl.indexEvery, if ok then |log| - 1 else failAt);
    }

    /** The second pass, oldest segment first; it ends at the first rewrite that fails. */
    method RewriteTargets(pl: PartitionLog, sweep: Sweep, all: seq<seq<Record>>, failAt: nat, fault: Fault)
      returns (removed: int, ok: bool)
      requires pl.Valid() && |all| == |pl.segments| - 1
      requires forall i :: 0 <= i < |all| ==> all[i] == pl.Model()[i].records
      modifies pl.segments
      ensures ok || fault != IndexRename ==> pl.Valid()
      ensures ok == !(FailsAt(sweep, old(pl.Model()), failAt) && !fault.NoFault?)
      ensures var log := old(pl.Model());
              var k := if ok then |all| else failAt;
              && pl.Model() == (if ok then Swept(sweep, log, pl.indexEvery, |all|)
                                else SweptUntil(sweep, log, pl.indexEvery, failAt, fault))
              && removed == |AllRecords(log[..k])| - |sweep.Kept(AllRecords(log[..k]))|
    {
      hide SegOK, LogOK, AllRecords, Filter, Swept, PartitionLog.SegmentsOK, AfterRewrite;
      ghost var log := pl.Model();
      removed := 0;
      SweptNone(sweep, log, pl.indexEvery);
      NothingRemoved(sweep, log);
      for i := 0 to |all|
        invariant pl.Valid() && pl.segments == old(pl.segments)
        invariant FailsAt(sweep, log, failAt) && !fault.NoFault? ==> i <= failAt
        invariant pl.Model() == Swept(sweep, log, pl.indexEvery, i)
        invariant removed == |AllRecords(log[..i])| - |sweep.Kept(AllRecords(log[..i]))|
      {
        var kept, dropped := FilterRecords(sweep, all[i]);
        SweptStep(sweep, log, pl.indexEvery, i);
        CountStep(sweep, log, i);
        SweptOK(sweep, log, pl.indexEvery, i + 1);
        if dropped > 0 {
          RewrittenWhole(log[i], kept, pl.indexEvery);
          ok := pl.RewriteAt(i, kept, if i == failAt then fault else NoFault);
          if !ok { return; }
        }
        removed := removed + dropped;
      }
      ok := true;
    }
  }

  lemma RewrittenWhole(s: Seg, kept: seq<Record>, every: int)
    ensures AfterRewrite(s, kept, every, NoFault) == SegRewrite(s, kept, every)
  {
  }

  /** The log swept up to a segment whose rewrite failed. */
  ghost function SweptUntil(sweep: Sweep, log: Log, every: int, failAt: nat, fault: Fault): Log
    requires failAt < |log|
  {
    Swept(sweep, log, every, failAt)[
      failAt := AfterRewrite(log[failAt], sweep.Kept(log[failAt].records), every, fault)]
  }

  /** The rewrite of segment `failAt` is attempted, so it can fail: the sweep drops something there. */
  ghost predicate FailsAt(sweep: Sweep, log: Log, failAt: nat) {
    failAt < |log| - 1 && |sweep.Kept(log[failAt].records)| < |log[failAt].records|
  }

  lemma NothingRemoved(sweep: Sweep, log: Log)
    ensures |AllRecords(log[..0])| == 0 == |sweep.Kept(AllRecords(log[..0]))|
  {
  }
}
