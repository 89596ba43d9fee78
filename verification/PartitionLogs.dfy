/**
 A partition log: segments with ascending offset ranges, the last of them active. Appends roll over
 to a new segment when the active one is full; retention drops old segments; reopening rebuilds
 the in-memory state from the files.
 */
module PartitionLogs {
  import opened Bytes
  import opened Records
  import opened Segments

  type Log = seq<Seg>

  function AllRecords(log: Log): seq<Record> {
    if log == [] then [] else AllRecords(log[..|log| - 1]) + log[|log| - 1].records
  }

  ghost predicate LogOK(log: Log) {
    && log != []
    && (forall i :: 0 <= i < |log| ==> SegOK(log[i]))
    && (forall i, j :: 0 <= i < j < |log| ==> log[i].base < log[j].base && log[i].next <= log[j].base)
  }

  function NextOffset(log: Log): int
    requires log != []
  {
    log[|log| - 1].next
  }

  function Full(s: Seg, maxBytes: int): bool {
    FileSize(s) >= maxBytes
  }

  /** There is room for one more record before 64-bit sizes and offsets run out. */
  predicate Room(log: Log, r: Record) {
    log != [] && Fits(r) && NextOffset(log) + 1 < TWO_63 && FileSize(log[|log| - 1]) + Size(r) < TWO_63
  }

  /** A full active segment is followed by a new one. */
  function Rolled(log: Log, maxBytes: int): (r: Log)
    requires log != []
    ensures r != []
  {
    if Full(log[|log| - 1], maxBytes) then log + [NewSeg(NextOffset(log))] else log
  }

  function Written(log: Log, r: Record, every: int): Log
    requires log != []
  {
    log[|log| - 1 := SegWrite(log[|log| - 1], r, every)]
  }

  function Appended(log: Log, r: Record, maxBytes: int, every: int): Log
    requires log != []
  {
    Written(Rolled(log, maxBytes), r, every)
  }

  function Reopen(log: Log): (r: Log)
    ensures |r| == |log|
  {
    seq(|log|, i requires 0 <= i < |log| => SegReopen(log[i]))
  }

  lemma {:induction false} AllRecordsConcat(a: Log, b: Log)
    ensures AllRecords(a + b) == AllRecords(a) + AllRecords(b)
  {
    if b == [] {
      assert a + b == a;
    } else {
      assert (a + b)[..|a + b| - 1] == a + b[..|b| - 1];
      AllRecordsConcat(a, b[..|b| - 1]);
    }
  }

  lemma OneSegment(s: Seg)
    ensures AllRecords([s]) == s.records
  {
    assert [s][..0] == [];
  }

  /** A full segment holds a record, so the next segment gets a file name of its own. */
  lemma FullIsNotEmpty(s: Seg, maxBytes: int)
    requires SegOK(s) && maxBytes > FILE_HEADER && Full(s, maxBytes)
    ensures s.base < s.next
  {
    if s.records != [] {
      var r := s.records[0];
    }
  }

  lemma RollOK(log: Log, maxBytes: int)
    requires LogOK(log) && maxBytes > FILE_HEADER
    ensures var rolled := Rolled(log, maxBytes);
            && LogOK(rolled)
            && NextOffset(rolled) == NextOffset(log)
            && AllRecords(rolled) == AllRecords(log)
            && FileSize(rolled[|rolled| - 1]) <= FileSize(log[|log| - 1])
            && (|rolled| > |log| ==> forall i :: 0 <= i < |log| ==> log[i].base != NextOffset(log))
  {
    hide SegOK, AllRecords;
    var active := log[|log| - 1];
    if Full(active, maxBytes) {
      FullIsNotEmpty(active, maxBytes);
      NewOK(active);
      AllRecordsConcat(log, [NewSeg(active.next)]);
      OneSegment(NewSeg(active.next));
      Bounds(log);
    }
  }

  lemma WrittenOK(log: Log, r: Record, every: int)
    requires LogOK(log) && Room(log, r) && r.offset == NextOffset(log)
    ensures var after := Written(log, r, every);
            LogOK(after) && NextOffset(after) == NextOffset(log) + 1 && AllRecords(after) == AllRecords(log) + [r]
  {
    hide SegOK, AllRecords;
    var front, active := log[..|log| - 1], log[|log| - 1];
    WriteOK(active, r, every);
    assert front + [active] == log;
    assert front + [SegWrite(active, r, every)] == Written(log, r, every);
    AllRecordsConcat(front, [active]);
    AllRecordsConcat(front, [SegWrite(active, r, every)]);
    OneSegment(active);
    OneSegment(SegWrite(active, r, every));
  }

  /** An append goes to the next offset, which rises by one; a segment it rolls to is a new file. */
  lemma AppendOK(log: Log, r: Record, maxBytes: int, every: int)
    requires LogOK(log) && maxBytes > FILE_HEADER && Room(log, r) && r.offset == NextOffset(log)
    ensures var after := Appended(log, r, maxBytes, every);
            && LogOK(after)
            && NextOffset(after) == NextOffset(log) + 1
            && AllRecords(after) == AllRecords(log) + [r]
            && (|after| > |log| ==> forall i :: 0 <= i < |log| ==> log[i].base != NextOffset(log))
  {
    hide SegOK, AllRecords, LogOK;
    RollOK(log, maxBytes);
    WrittenOK(Rolled(log, maxBytes), r, every);
  }

  lemma NewOK(s: Seg)
    requires SegOK(s)
    ensures SegOK(NewSeg(s.next)) && FileSize(NewSeg(s.next)) <= FileSize(s)
  {
    NoIndexOK([]);
  }

  lemma Bounds(log: Log)
    requires LogOK(log)
    ensures forall i :: 0 <= i < |log| ==> log[i].base <= log[i].next <= NextOffset(log)
  {
    forall i | 0 <= i < |log| ensures log[i].base <= log[i].next <= NextOffset(log) {
      assert SegOK(log[i]) && SegOK(log[|log| - 1]);
    }
  }

  /** Reopening keeps every record and the order of the ranges. */
  lemma ReopenLogOK(log: Log)
    requires LogOK(log)
    ensures LogOK(Reopen(log)) && AllRecords(Reopen(log)) == AllRecords(log)
  {
    hide SegOK;
    forall i | 0 <= i < |log| ensures SegOK(Reopen(log)[i]) && Reopen(log)[i].next <= log[i].next {
      ReopenOK(log[i]);
    }
    SameRecords(log, Reopen(log));
  }

  lemma {:induction false} SameRecords(a: Log, b: Log)
    requires |a| == |b| && forall i :: 0 <= i < |a| ==> a[i].records == b[i].records
    ensures AllRecords(a) == AllRecords(b)
  {
    if a != [] {
      SameRecords(a[..|a| - 1], b[..|b| - 1]);
    }
  }

  // ---------------------------------------------------------------------
  // Reading across segments

  /** Segments that end at or below `start` hold nothing to read. */
  lemma SkippedSegment(s: Seg, start: int)
    requires SegOK(s) && s.next <= start
    ensures From(s.records, start) == []
  {
    hide From;
    FromNone(s.records, start);
  }

  /** Segments that begin at or above `start` are read whole. */
  lemma WholeSegment(s: Seg, start: int)
    requires SegOK(s) && start <= s.base
    ensures From(s.records, start) == s.records
  {
    hide From;
    FromAll(s.records, start);
  }

  /** What is to be read, one segment further. */
  lemma FromStep(log: Log, i: nat, start: int)
    requires i < |log|
    ensures From(AllRecords(log[..i + 1]), start) == From(AllRecords(log[..i]), start) + From(log[i].records, start)
  {
    hide From, AllRecords;
    assert log[..i + 1] == log[..i] + [log[i]];
    AllRecordsConcat(log[..i], [log[i]]);
    OneSegment(log[i]);
    FromConcat(AllRecords(log[..i]), log[i].records, start);
  }

  lemma FromPrefix(log: Log, i: nat, start: int)
    requires i <= |log|
    ensures From(AllRecords(log), start) == From(AllRecords(log[..i]), start) + From(AllRecords(log[i..]), start)
  {
    hide From, AllRecords;
    assert log[..i] + log[i..] == log;
    AllRecordsConcat(log[..i], log[i..]);
    FromConcat(AllRecords(log[..i]), AllRecords(log[i..]), start);
  }

  lemma FirstGrows(a: seq<Record>, b: seq<Record>, n: int)
    requires n > 0 ==> |First(a, n)| < n
    ensures First(a + b, n) == First(a, n) + First(b, n - |First(a, n)|)
    ensures b == [] ==> First(a + b, n) == First(a, n)
  {
    if b == [] {
      assert a + b == a;
    }
  }

  lemma FirstDone(a: seq<Record>, b: seq<Record>, n: int)
    requires |First(a, n)| >= n
    ensures First(a + b, n) == First(a, n)
  {
  }

  lemma NothingYet(log: Log, start: int, n: int)
    ensures First(From(AllRecords(log[..0]), start), n) == []
  {
  }

  lemma NothingSent(crc: Checksum, log: Log, start: int, maxBytes: int)
    ensures AllFit(From(AllRecords(log[..0]), start)) && Limit(Raw(crc, log[..0], start), maxBytes) == []
  {
  }

  lemma NoBytes(crc: Checksum, b: Bytes)
    ensures b + EncodeAll(crc, []) == b
  {
  }

  lemma {:induction false} AllRecordsFit(log: Log)
    requires forall i :: 0 <= i < |log| ==> SegOK(log[i])
    ensures AllFit(AllRecords(log))
  {
    if log != [] {
      AllRecordsFit(log[..|log| - 1]);
      assert SegOK(log[|log| - 1]);
    }
  }

  lemma {:induction false} FromFits(rs: seq<Record>, start: int)
    requires AllFit(rs)
    ensures AllFit(From(rs, start))
  {
    if rs != [] {
      FromFits(rs[1..], start);
    }
  }

  /** The raw bytes of the records from `start` on. */
  function Raw(crc: Checksum, log: Log, start: int): Bytes
    requires AllFit(From(AllRecords(log), start))
  {
    EncodeAll(crc, From(AllRecords(log), start))
  }

  lemma RawStep(crc: Checksum, log: Log, i: nat, start: int)
    requires i < |log| && forall k :: 0 <= k < |log| ==> SegOK(log[k])
    ensures AllFit(From(AllRecords(log[..i]), start)) && AllFit(From(AllRecords(log[..i + 1]), start))
    ensures AllFit(From(log[i].records, start))
    ensures Raw(crc, log[..i + 1], start) == Raw(crc, log[..i], start) + EncodeAll(crc, From(log[i].records, start))
  {
    hide From, AllRecords, EncodeAll;
    AllRecordsFit(log[..i]);
    AllRecordsFit(log[..i + 1]);
    FromFits(AllRecords(log[..i]), start);
    FromFits(AllRecords(log[..i + 1]), start);
    FromFits(log[i].records, start);
    FromStep(log, i, start);
    EncodeConcat(crc, From(AllRecords(log[..i]), start), From(log[i].records, start));
  }

  lemma RawWhole(crc: Checksum, log: Log, i: nat, start: int)
    requires i <= |log| && forall k :: 0 <= k < |log| ==> SegOK(log[k])
    ensures AllFit(From(AllRecords(log[..i]), start)) && AllFit(From(AllRecords(log), start))
    ensures Raw(crc, log[..i], start) <= Raw(crc, log, start)
  {
    hide From, AllRecords, EncodeAll;
    AllRecordsFit(log[..i]);
    AllRecordsFit(log[i..]);
    AllRecordsFit(log);
    FromFits(AllRecords(log[..i]), start);
    FromFits(AllRecords(log[i..]), start);
    FromFits(AllRecords(log), start);
    FromPrefix(log, i, start);
    EncodeConcat(crc, From(AllRecords(log[..i]), start), From(AllRecords(log[i..]), start));
  }

  /** At most `maxBytes` bytes; no limit when that is not positive. */
  function Limit(b: Bytes, maxBytes: int): Bytes {
    if maxBytes > 0 && |b| > maxBytes then b[..maxBytes] else b
  }

  lemma LimitMore(a: Bytes, b: Bytes, maxBytes: int)
    requires maxBytes > 0 ==> |Limit(a, maxBytes)| < maxBytes
    ensures Limit(a, maxBytes) == a
    ensures Limit(a + b, maxBytes) == a + (if maxBytes > 0 && |a| + |b| > maxBytes then b[..maxBytes - |a|] else b)
  {
  }

  lemma LimitReached(a: Bytes, all: Bytes, maxBytes: int)
    requires a <= all && maxBytes > 0 && |Limit(a, maxBytes)| >= maxBytes
    ensures Limit(all, maxBytes) == Limit(a, maxBytes)
  {
  }

  // ---------------------------------------------------------------------
  // Retention

  /** What a stat of a segment's file says: nothing, or when the file was last written. */
  datatype Stat = Failed | Modified(at: int)

  /** The clock in nanoseconds, and the limits on age and total size; a limit that is not positive is none. */
  datatype Policy = Policy(now: int, maxAgeHours: int, maxBytes: int)

  const HOUR := 3_600_000_000_000

  function TotalSize(log: Log): nat {
    if log == [] then 0 else TotalSize(log[..|log| - 1]) + FileSize(log[|log| - 1])
  }

  /** The total is the bytes of all records and of all file headers. */
  lemma {:induction false} TotalIsAllBytes(log: Log)
    ensures TotalSize(log) == 5 * |log| + Length(AllRecords(log))
  {
    hide Length;
    if log == [] {
      NoLength();
    } else {
      TotalIsAllBytes(log[..|log| - 1]);
      LengthConcat(AllRecords(log[..|log| - 1]), log[|log| - 1].records);
    }
  }

  lemma NoLength()
    ensures Length([]) == 0
  {
  }

  /** Retention drops segment `i`. The size test looks at the whole log each time, so once the log is
      too big every segment but the active one goes. */
  predicate Dropped(log: Log, stats: seq<Stat>, policy: Policy, i: nat)
    requires i < |log| == |stats|
  {
    && i < |log| - 1 && stats[i].Modified?
    && (|| (policy.maxAgeHours > 0 && stats[i].at < policy.now - policy.maxAgeHours * HOUR)
        || (policy.maxBytes > 0 && TotalSize(log) > policy.maxBytes))
  }

  /** The segments retention keeps, by position. */
  function Kept(log: Log, stats: seq<Stat>, policy: Policy, n: nat): (ks: seq<nat>)
    requires n <= |log| == |stats|
    ensures forall k :: 0 <= k < |ks| ==> ks[k] < n
  {
    if n == 0 then []
    else
      var before := Kept(log, stats, policy, n - 1);
      if Dropped(log, stats, policy, n - 1) then before else before + [n - 1]
  }

  function Select<T>(xs: seq<T>, ks: seq<nat>): (ys: seq<T>)
    requires forall k :: 0 <= k < |ks| ==> ks[k] < |xs|
    ensures |ys| == |ks| && forall k :: 0 <= k < |ks| ==> ys[k] == xs[ks[k]]
  {
    seq(|ks|, k requires 0 <= k < |ks| => xs[ks[k]])
  }

  function Retained(log: Log, stats: seq<Stat>, policy: Policy): Log
    requires |stats| == |log|
  {
    Select(log, Kept(log, stats, policy, |log|))
  }

  predicate Increasing(ks: seq<nat>) {
    forall j, k :: 0 <= j < k < |ks| ==> ks[j] < ks[k]
  }

  lemma {:induction false} KeptIncreasing(log: Log, stats: seq<Stat>, policy: Policy, n: nat)
    requires n <= |log| == |stats|
    ensures Increasing(Kept(log, stats, policy, n))
  {
    hide Dropped;
    if n > 0 {
      KeptIncreasing(log, stats, policy, n - 1);
      var before := Kept(log, stats, policy, n - 1);
      assert Increasing(before + [n - 1]);
    }
  }

  /** Exactly the segments that are not dropped are kept. */
  lemma {:induction false} KeptExactly(log: Log, stats: seq<Stat>, policy: Policy, n: nat, i: nat)
    requires i < n <= |log| == |stats|
    ensures i in Kept(log, stats, policy, n) <==> !Dropped(log, stats, policy, i)
  {
    hide Dropped;
    var before := Kept(log, stats, policy, n - 1);
    if i < n - 1 {
      KeptExactly(log, stats, policy, n - 1, i);
    } else {
      assert forall k :: 0 <= k < |before| ==> before[k] < i;
    }
  }

  /** Segment `i` is too old: there is a limit on age and its file was last written longer ago. */
  predicate TooOld(stats: seq<Stat>, policy: Policy, i: nat)
    requires i < |stats|
  {
    policy.maxAgeHours > 0 && stats[i].Modified? && policy.now - stats[i].at > policy.maxAgeHours * 3_600_000_000_000
  }

  /** Retention removes exactly the segments before the active one whose files can be examined and that are too old, or
      belong to a log whose files are together over the size limit. */
  lemma RetainedExactly(log: Log, stats: seq<Stat>, policy: Policy, i: nat)
    requires LogOK(log) && i < |log| == |stats|
    ensures var size := 5 * |log| + Length(AllRecords(log));
            log[i] !in Retained(log, stats, policy) <==>
              && i != |log| - 1 && !stats[i].Failed?
              && (TooOld(stats, policy, i) || 0 < policy.maxBytes < size)
  {
    hide SegOK, Length, TotalSize, AllRecords, Kept;
    TotalIsAllBytes(log);
    KeptExactly(log, stats, policy, |log|, i);
    var ks := Kept(log, stats, policy, |log|);
    if log[i] in Retained(log, stats, policy) {
      var k :| 0 <= k < |ks| && log[ks[k]] == log[i];
      assert ks[k] == i;
    }
    if i in ks {
      var k :| 0 <= k < |ks| && ks[k] == i;
      assert Retained(log, stats, policy)[k] == log[i];
    }
  }

  lemma SelectOK(log: Log, ks: seq<nat>)
    requires LogOK(log) && Increasing(ks) && ks != [] && forall k :: 0 <= k < |ks| ==> ks[k] < |log|
    ensures LogOK(Select(log, ks))
  {
    hide SegOK;
    var sel := Select(log, ks);
    forall i, j | 0 <= i < j < |sel| ensures sel[i].base < sel[j].base && sel[i].next <= sel[j].base {
      assert ks[i] < ks[j];
    }
  }

  /** Retention keeps the active segment, the order and the next offset. */
  lemma RetainOK(log: Log, stats: seq<Stat>, policy: Policy)
    requires LogOK(log) && |stats| == |log|
    ensures var kept := Retained(log, stats, policy);
            LogOK(kept) && kept[|kept| - 1] == log[|log| - 1] && NextOffset(kept) == NextOffset(log)
  {
    hide SegOK, Select, TotalSize;
    var ks := Kept(log, stats, policy, |log|);
    KeptIncreasing(log, stats, policy, |log|);
    assert !Dropped(log, stats, policy, |log| - 1);
    assert ks[|ks| - 1] == |log| - 1;
    SelectOK(log, ks);
  }

  /** A log that is too big loses every segment but the active one. */
  lemma TooBigKeepsOnlyActive(log: Log, stats: seq<Stat>, policy: Policy)
    requires log != [] && |stats| == |log| && 0 < policy.maxBytes < TotalSize(log)
    requires forall i :: 0 <= i < |stats| ==> !stats[i].Failed?
    ensures Retained(log, stats, policy) == [log[|log| - 1]]
  {
    hide TotalSize;
    KeptOfTooBig(log, stats, policy, |log|);
  }

  lemma {:induction false} KeptOfTooBig(log: Log, stats: seq<Stat>, policy: Policy, n: nat)
    requires n <= |log| == |stats| && 0 < policy.maxBytes < TotalSize(log)
    requires forall i :: 0 <= i < |stats| ==> !stats[i].Failed?
    ensures Kept(log, stats, policy, n) == if n > 0 && n == |log| then [n - 1] else []
  {
    hide TotalSize;
    if n > 0 {
      KeptOfTooBig(log, stats, policy, n - 1);
    }
  }

  /** Dropping only the oldest `k` segments would do: the rest, more than the active one, fits the limit. */
  ghost predicate FewerSuffice(log: Log, maxBytes: int) {
    exists k :: 0 <= k < |log| - 1 && TotalSize(log[k..]) <= maxBytes
  }

  lemma {:induction false} SuffixesShrink(log: Log, j: nat, k: nat)
    requires j <= k <= |log|
    ensures TotalSize(log[k..]) <= TotalSize(log[j..])
    decreases |log|
  {
    if k < |log| {
      var front, last := log[..|log| - 1], log[|log| - 1];
      SuffixesShrink(front, j, k);
      assert log[j..][..|log| - j - 1] == front[j..] && log[k..][..|log| - k - 1] == front[k..];
    }
  }

  /** It drops more than the limit asks for exactly when the active segment and the one before it fit. */
  lemma FewerSufficeExactly(log: Log, maxBytes: int)
    ensures FewerSuffice(log, maxBytes) <==> |log| >= 2 && TotalSize(log[|log| - 2..]) <= maxBytes
  {
    hide TotalSize;
    if k :| 0 <= k < |log| - 1 && TotalSize(log[k..]) <= maxBytes {
      SuffixesShrink(log, k, |log| - 2);
    }
    if |log| >= 2 && TotalSize(log[|log| - 2..]) <= maxBytes {
      var k := |log| - 2;
      assert 0 <= k < |log| - 1 && TotalSize(log[k..]) <= maxBytes;
    }
  }

  // ---------------------------------------------------------------------
  // The partition log as the broker holds it

  class PartitionLog {
    const crc: Checksum
    const segMaxBytes: int
    const indexEvery: int
    var segments: seq<Segment>

    static ghost function Models(segs: seq<Segment>): (log: Log)
      reads segs
      ensures |log| == |segs| && forall i :: 0 <= i < |log| ==> log[i] == segs[i].model
    {
      seq(|segs|, i requires 0 <= i < |segs| reads segs => segs[i].model)
    }

    ghost function Model(): (log: Log)
      reads this, segments
      ensures |log| == |segments| && forall i :: 0 <= i < |log| ==> log[i] == segments[i].model
    {
      Models(segments)
    }

    ghost predicate SegmentOK(seg: Segment)
      reads seg
    {
      seg.Valid() && seg.crc == crc && seg.maxBytes == segMaxBytes && seg.indexEvery == indexEvery
    }

    ghost predicate SegmentsOK()
      reads this, segments
    {
      && (forall i :: 0 <= i < |segments| ==> SegmentOK(segments[i]))
      && (forall i, j :: 0 <= i < j < |segments| ==> segments[i] != segments[j])
    }

    ghost predicate Valid()
      reads this, segments
    {
      SegmentsOK() && LogOK(Model()) && segMaxBytes > FILE_HEADER
    }

    /** An empty directory. */
    constructor (crc: Checksum, segMaxBytes: int, indexEvery: int)
      requires segMaxBytes > FILE_HEADER
      ensures Valid() && fresh(segments) && Model() == [NewSeg(0)]
      ensures this.crc == crc && this.segMaxBytes == segMaxBytes && this.indexEvery == indexEvery
    {
      this.crc, this.segMaxBytes, this.indexEvery := crc, segMaxBytes, indexEvery;
      var seg := new Segment.Create(crc, 0, segMaxBytes, indexEvery);
      segments := [seg];
      new;
      assert Model() == [NewSeg(0)];
    }

    /** A directory left behind by an earlier partition log, its files listed in any order. */
    constructor Open(files: PartitionLog, listing: seq<Segment>, segMaxBytes: int, indexEvery: int)
      requires files.Valid() && files.ListedBy(listing) && segMaxBytes > FILE_HEADER
      ensures Valid() && fresh(segments) && Model() == Reopen(files.Model())
      ensures crc == files.crc && this.segMaxBytes == segMaxBytes && this.indexEvery == indexEvery
    {
      hide SegOK, LogOK, SegReopen, Segment.Valid, Segment.Stored, ListedBy;
      crc, this.segMaxBytes, this.indexEvery := files.crc, segMaxBytes, indexEvery;
      ReopenLogOK(files.Model());
      var sorted := OpenSorted(files, listing, segMaxBytes, indexEvery);
      segments := [];
      new;
      Install(sorted);
    }

    /** The directory lists each of the files once. */
    ghost predicate ListedBy(listing: seq<Segment>)
      reads this
    {
      && (forall i :: 0 <= i < |listing| ==> listing[i] in segments)
      && (forall p :: 0 <= p < |segments| ==> segments[p] in listing)
      && (forall i, j :: 0 <= i < j < |listing| ==> listing[i] != listing[j])
    }

    ghost static predicate Reopened(seg: Segment, file: Segment, crc: Checksum, segMaxBytes: int, indexEvery: int)
      reads seg, file
    {
      && seg.Valid() && seg.model == SegReopen(file.model) && seg.baseOffset == file.model.base
      && seg.crc == crc && seg.maxBytes == segMaxBytes && seg.indexEvery == indexEvery
    }

    static method OpenSorted(files: PartitionLog, listing: seq<Segment>, segMaxBytes: int, indexEvery: int)
      returns (sorted: seq<Segment>)
      requires files.Valid() && files.ListedBy(listing)
      ensures fresh(sorted) && Models(sorted) == Reopen(files.Model())
      ensures forall j, k :: 0 <= j < k < |sorted| ==> sorted[j] != sorted[k]
      ensures forall k :: 0 <= k < |sorted| ==>
                sorted[k].Valid() && sorted[k].crc == files.crc && sorted[k].maxBytes == segMaxBytes
                && sorted[k].indexEvery == indexEvery
    {
      hide SegOK, LogOK, SegReopen, Segment.Valid, Segment.Stored, PartitionLog.ListedBy, Reopen, Models, RisingBases;
      var found := OpenAll(files, listing, segMaxBytes, indexEvery);
      sorted := SortByBase(found);
      assert forall k :: 0 <= k < |sorted| ==> sorted[k] in found;
      files.SortedListing(listing, found, sorted, segMaxBytes, indexEvery);
    }

    static method OpenAll(files: PartitionLog, listing: seq<Segment>, segMaxBytes: int, indexEvery: int)
      returns (found: seq<Segment>)
      requires files.Valid() && files.ListedBy(listing)
      ensures fresh(found) && |found| == |listing|
      ensures forall k :: 0 <= k < |found| ==> Reopened(found[k], listing[k], files.crc, segMaxBytes, indexEvery)
      ensures forall j, k :: 0 <= j < k < |found| ==> found[j].baseOffset != found[k].baseOffset
    {
      hide SegOK, SegReopen, Segment.Valid, Segment.Stored, LogOK, PartitionLog.ListedBy;
      found := [];
      files.ListedFiles(listing);
      for i := 0 to |listing|
        invariant |found| == i && fresh(found)
        invariant forall k :: 0 <= k < i ==> Reopened(found[k], listing[k], files.crc, segMaxBytes, indexEvery)
      {
        var seg := new Segment.Open(listing[i], segMaxBytes, indexEvery);
        Reopening(seg, listing[i]);
        found := found + [seg];
      }
    }

    /** What is listed are valid files with different bases. */
    lemma ListedFiles(listing: seq<Segment>)
      requires Valid() && ListedBy(listing)
      ensures forall i :: 0 <= i < |listing| ==> SegmentOK(listing[i]) && listing[i].Stored()
      ensures forall i, j :: 0 <= i < j < |listing| ==> listing[i].model.base != listing[j].model.base
    {
      hide SegOK;
      forall i | 0 <= i < |listing| ensures exists p :: 0 <= p < |segments| && segments[p] == listing[i] {
        assert listing[i] in segments;
      }
    }

    static lemma Reopening(seg: Segment, file: Segment)
      requires seg.Stored() && seg.model == SegReopen(file.model)
      ensures seg.baseOffset == file.model.base
    {
    }

    ghost static predicate RisingBases(segs: seq<Segment>)
      reads segs
    {
      forall i, j :: 0 <= i < j < |segs| ==> segs[i].baseOffset < segs[j].baseOffset
    }

    static method InsertByBase(segs: seq<Segment>, seg: Segment) returns (sorted: seq<Segment>)
      requires RisingBases(segs) && forall k :: 0 <= k < |segs| ==> segs[k].baseOffset != seg.baseOffset
      ensures RisingBases(sorted) && forall x :: x in sorted <==> x in segs || x == seg
    {
      var k := 0;
      while k < |segs| && segs[k].baseOffset < seg.baseOffset
        invariant k <= |segs| && forall j :: 0 <= j < k ==> segs[j].baseOffset < seg.baseOffset
      {
        k := k + 1;
      }
      Spliced(segs, k, seg);
      sorted := segs[..k] + [seg] + segs[k..];
    }

    static lemma Spliced(segs: seq<Segment>, k: nat, seg: Segment)
      requires k <= |segs|
      ensures forall x :: x in segs[..k] + [seg] + segs[k..] <==> x in segs || x == seg
    {
      assert segs == segs[..k] + segs[k..];
    }

    static method SortByBase(found: seq<Segment>) returns (sorted: seq<Segment>)
      requires forall j, k :: 0 <= j < k < |found| ==> found[j].baseOffset != found[k].baseOffset
      ensures RisingBases(sorted) && forall seg :: seg in sorted <==> seg in found
    {
      hide RisingBases;
      sorted := [];
      NoBases();
      for i := 0 to |found|
        invariant RisingBases(sorted) && forall seg :: seg in sorted <==> seg in found[..i]
      {
        assert forall k :: 0 <= k < |sorted| ==> sorted[k] in found[..i];
        sorted := InsertByBase(sorted, found[i]);
        assert found[..i + 1] == found[..i] + [found[i]];
      }
      assert found[..|found|] == found;
    }

    static lemma NoBases()
      ensures RisingBases([])
    {
    }

    /** Sorting brings the reopened files back into the order of the log. */
    lemma SortedListing(listing: seq<Segment>, found: seq<Segment>, sorted: seq<Segment>, maxBytes: int, every: int)
      requires Valid() && ListedBy(listing) && |found| == |listing|
      requires forall k :: 0 <= k < |found| ==> Reopened(found[k], listing[k], crc, maxBytes, every)
      requires RisingBases(sorted) && forall seg :: seg in sorted <==> seg in found
      ensures Models(sorted) == Reopen(Model())
      ensures forall j, k :: 0 <= j < k < |sorted| ==> sorted[j] != sorted[k]
      ensures forall k :: 0 <= k < |sorted| ==>
                sorted[k].Valid() && sorted[k].crc == crc && sorted[k].maxBytes == maxBytes
                && sorted[k].indexEvery == every
    {
      hide SegOK, Segment.Valid, Segment.Stored;
      var a, b := Models(sorted), Reopen(Model());
      forall k | 0 <= k < |sorted|
        ensures sorted[k].Valid() && sorted[k].crc == crc && sorted[k].maxBytes == maxBytes
                && sorted[k].indexEvery == every && a[k] in b && a[k].base == sorted[k].baseOffset
      {
        assert sorted[k] in found;
        var m :| 0 <= m < |found| && found[m] == sorted[k];
        assert listing[m] in segments;
        var p :| 0 <= p < |segments| && segments[p] == listing[m];
        assert b[p] == SegReopen(segments[p].model);
      }
      forall p | 0 <= p < |b| ensures b[p] in a {
        assert segments[p] in listing;
        var m :| 0 <= m < |listing| && listing[m] == segments[p];
        assert found[m] in sorted;
        var k :| 0 <= k < |sorted| && sorted[k] == found[m];
        assert a[k] == b[p];
      }
      SortedOnce(a, b);
    }

    method TotalLogSize() returns (total: int)
      requires Valid()
      ensures total == TotalSize(Model())
    {
      hide SegOK, LogOK;
      ghost var log := Model();
      total := 0;
      for i := 0 to |segments|
        invariant total == TotalSize(log[..i])
      {
        assert log[..i + 1][..i] == log[..i];
        total := total + segments[i].logSize;
      }
      assert log[..|log|] == log;
    }

    /** Retention: keep the segments that are neither too old nor in a log that is too big. */
    method Compact(stats: seq<Stat>, now: int, maxAgeHours: int, maxSizeMB: int) returns (deleted: int)
      requires Valid() && |stats| == |segments|
      modifies this`segments
      ensures Valid() && Model() == Retained(old(Model()), stats, Policy(now, maxAgeHours, maxSizeMB * 1024 * 1024))
      ensures deleted == |old(Model())| - |Model()|
    {
      hide SegOK, LogOK, Kept, Select, SegmentOK;
      ghost var log := Model();
      var policy := Policy(now, maxAgeHours, maxSizeMB * 1024 * 1024);
      RetainOK(log, stats, policy);
      KeptIncreasing(log, stats, policy, |log|);
      var keep;
      keep, deleted := SplitOff(stats, policy);
      SelectedOK(Kept(log, stats, policy, |log|));
      Install(keep);
    }

    method Install(segs: seq<Segment>)
      requires forall k :: 0 <= k < |segs| ==> SegmentOK(segs[k])
      requires forall j, k :: 0 <= j < k < |segs| ==> segs[j] != segs[k]
      requires LogOK(Models(segs)) && segMaxBytes > FILE_HEADER
      modifies this`segments
      ensures Valid() && segments == segs && Model() == old(Models(segs))
    {
      hide SegmentOK, LogOK;
      segments := segs;
    }

    /** Selecting segments keeps each valid and all distinct. */
    lemma SelectedOK(ks: seq<nat>)
      requires SegmentsOK() && Increasing(ks) && forall k :: 0 <= k < |ks| ==> ks[k] < |segments|
      ensures forall k :: 0 <= k < |ks| ==> SegmentOK(Select(segments, ks)[k])
      ensures forall j, k :: 0 <= j < k < |ks| ==> Select(segments, ks)[j] != Select(segments, ks)[k]
      ensures Models(Select(segments, ks)) == Select(Model(), ks)
    {
      hide Segment.Valid;
    }

    method SplitOff(stats: seq<Stat>, policy: Policy) returns (keep: seq<Segment>, deleted: int)
      requires Valid() && |stats| == |segments|
      ensures keep == Select(segments, Kept(Model(), stats, policy, |stats|))
      ensures deleted == |segments| - |keep|
    {
      hide SegOK, LogOK, SegmentsOK, Dropped;
      ghost var log := Model();
      keep, deleted := [], 0;
      for i := 0 to |segments|
        invariant keep == Select(segments, Kept(log, stats, policy, i))
        invariant deleted == i - |keep|
      {
        var drop := ShouldDrop(stats, policy, i);
        if drop {
          deleted := deleted + 1;
        } else {
          keep := keep + [segments[i]];
        }
      }
    }

    method ShouldDrop(stats: seq<Stat>, policy: Policy, i: nat) returns (drop: bool)
      requires Valid() && i < |stats| == |segments|
      ensures drop == Dropped(Model(), stats, policy, i)
    {
      hide SegOK, LogOK, SegmentsOK, TotalSize;
      if i == |segments| - 1 || stats[i].Failed? {
        return false;
      }
      var total := TotalLogSize();
      var tooOld := policy.maxAgeHours > 0 && stats[i].at < policy.now - policy.maxAgeHours * HOUR;
      var tooBig := policy.maxBytes > 0 && total > policy.maxBytes;
      drop := tooOld || tooBig;
    }

    /** Replace the contents of one segment. If the new index cannot be renamed into place the segment's index is
        stale, so the log is not in order any more. */
    method RewriteAt(i: nat, kept: seq<Record>, fault: Fault) returns (ok: bool)
      requires Valid() && i < |segments|
      requires LogOK(Model()[i := SegRewrite(Model()[i], kept, indexEvery)])
      modifies segments[i]
      ensures ok == fault.NoFault? && (fault != IndexRename ==> Valid())
      ensures Model() == old(Model())[i := AfterRewrite(old(Model())[i], kept, indexEvery, fault)]
    {
      hide SegOK, LogOK, SegRewrite, Segment.Stored, AfterRewrite;
      ghost var log := Model();
      RewrittenOK(log, i, SegRewrite(log[i], kept, indexEvery));
      ok := segments[i].Rewrite(kept, fault);
      assert Model() == log[i := AfterRewrite(log[i], kept, indexEvery, fault)];
      if fault != IndexRename {
        AfterRewriteOK(log, i, kept, indexEvery, fault);
      }
    }

    /** Make a segment the active one. */
    method Push(seg: Segment)
      requires SegmentsOK() && SegmentOK(seg) && seg !in segments
      modifies this`segments
      ensures SegmentsOK() && segments == old(segments) + [seg] && Model() == old(Model()) + [seg.model]
    {
      hide Segment.Valid;
      ghost var log := Model();
      segments := segments + [seg];
      assert Model() == log + [seg.model];
    }

    /** Start a new segment if the active one is full. */
    method Roll()
      requires Valid()
      modifies this`segments
      ensures Valid() && Model() == Rolled(old(Model()), segMaxBytes)
      ensures segments == old(segments) || (|segments| == |old(segments)| + 1 && fresh(segments[|segments| - 1]))
    {
      hide SegOK, LogOK, AllRecords, LogBytes, EncodeIndex, AllFit, IndexFits;
      ghost var log := Model();
      RollOK(log, segMaxBytes);
      LastOK(log);
      var active := segments[|segments| - 1];
      if active.logSize >= segMaxBytes {
        NewOK(active.model);
        var next := new Segment.Create(crc, active.nextOffset, segMaxBytes, indexEvery);
        Push(next);
      }
    }

    /** Write to the active segment. */
    method WriteActive(timestamp: int, codec: Byte, key: Bytes, payload: Bytes) returns (offset: int)
      requires Valid() && Room(Model(), Record(NextOffset(Model()), timestamp, codec, key, payload))
      modifies segments[|segments| - 1]
      ensures Valid() && offset == NextOffset(old(Model()))
      ensures Model() == Written(old(Model()), Record(offset, timestamp, codec, key, payload), indexEvery)
    {
      hide SegOK, LogOK, AllRecords, SegWrite;
      ghost var log := Model();
      WrittenOK(log, Record(NextOffset(log), timestamp, codec, key, payload), indexEvery);
      LastOK(log);
      offset := segments[|segments| - 1].Write(timestamp, codec, key, payload);
      assert Model() == Written(log, Record(offset, timestamp, codec, key, payload), indexEvery);
    }

    method Append(timestamp: int, codec: Byte, key: Bytes, payload: Bytes) returns (offset: int)
      requires Valid() && Room(Model(), Record(NextOffset(Model()), timestamp, codec, key, payload))
      modifies this`segments, segments[|segments| - 1]
      ensures Valid() && offset == NextOffset(old(Model()))
      ensures Model() == Appended(old(Model()), Record(offset, timestamp, codec, key, payload), segMaxBytes, indexEvery)
    {
      hide SegOK, LogOK, AllRecords, SegmentsOK, Rolled, Written;
      RollOK(Model(), segMaxBytes);
      Roll();
      offset := WriteActive(timestamp, codec, key, payload);
    }

    lemma Fields(i: nat)
      requires Valid() && i < |segments|
      ensures segments[i].nextOffset == Model()[i].next && segments[i].baseOffset == Model()[i].base
    {
      hide SegOK, LogOK;
      assert SegmentOK(segments[i]);
    }

    /** The bytes one segment contributes: from the first record at or above `start`, or all. */
    method SegmentBytes(i: nat, start: int, exact: bool) returns (b: Bytes)
      requires Valid() && i < |segments|
      requires !exact ==> start <= segments[i].baseOffset
      ensures AllFit(From(Model()[i].records, start)) && b == EncodeAll(crc, From(Model()[i].records, start))
    {
      hide AllRecords, From, EncodeAll, IndexOK, PositionOf, LogBytes, EncodeIndex;
      var seg := segments[i];
      ghost var rs := Model()[i].records;
      assert seg.Valid();
      FromFits(rs, start);
      var fileOffset := FILE_HEADER;
      if exact {
        fileOffset := seg.FindExactPosition(start);
        ghost var j: nat :| SafeStart(rs, start, fileOffset, j) && From(rs, start) == rs[j..];
        LogBytesFrom(crc, seg.model, j);
      } else {
        WholeSegment(seg.model, start);
        FirstPosition(rs);
        LogBytesFrom(crc, seg.model, 0);
        assert rs[0..] == rs;
      }
      b := seg.logFile[fileOffset..seg.logSize];
    }

    /** Send the raw records from `start` on, at most `maxBytes` of them when that is positive. */
    method SendTo(start: int, maxBytes: int) returns (sent: Bytes)
      requires Valid()
      ensures AllFit(From(AllRecords(Model()), start)) && sent == Limit(Raw(crc, Model(), start), maxBytes)
    {
      hide SegOK, AllRecords, From, Limit, Raw, SegmentsOK, LogOK, Model;
      ghost var log := Model();
      ValidSegments(log);
      RawWhole(crc, log, 0, start);
      var first := -1;
      sent := [];
      NothingSent(crc, log, start, maxBytes);
      for i := 0 to |segments|
        invariant AllFit(From(AllRecords(log[..i]), start)) && sent == Limit(Raw(crc, log[..i], start), maxBytes)
        invariant first != -1 ==> forall k :: i <= k < |log| ==> start <= log[k].base
      {
        RawStep(crc, log, i, start);
        Fields(i);
        if segments[i].nextOffset <= start {
          SkippedSegment(log[i], start);
          NoBytes(crc, Raw(crc, log[..i], start));
        } else {
          if maxBytes > 0 && |sent| >= maxBytes {
            RawWhole(crc, log, i, start);
            LimitReached(Raw(crc, log[..i], start), Raw(crc, log, start), maxBytes);
            return;
          }
          if first == -1 {
            first := i;
            LaterSegments(log, i, start);
          }
          var bytes := SegmentBytes(i, start, i == first);
          LimitMore(Raw(crc, log[..i], start), bytes, maxBytes);
          sent := sent + (if maxBytes > 0 && |sent| + |bytes| > maxBytes then bytes[..maxBytes - |sent|] else bytes);
        }
      }
      assert log[..|log|] == log;
    }

    method Read(start: int, maxCount: int) returns (r: Result<seq<Record>>)
      requires Valid()
      ensures r == Ok(First(From(AllRecords(Model()), start), maxCount))
    {
      hide SegOK, AllRecords, From, First, LogBytes, EncodeIndex, ReadAt, AllFit, IndexFits, LogOK;
      ghost var log := Model();
      var msgs := [];
      NothingYet(log, start, maxCount);
      for i := 0 to |segments|
        invariant msgs == First(From(AllRecords(log[..i]), start), maxCount)
        invariant maxCount > 0 ==> |msgs| < maxCount
      {
        FromStep(log, i, start);
        FirstGrows(From(AllRecords(log[..i]), start), From(log[i].records, start), maxCount);
        if segments[i].nextOffset <= start {
          SkippedSegment(log[i], start);
        } else {
          var batch := segments[i].Read(start, maxCount - |msgs|);
          if batch.Err? { return Err; }
          msgs := msgs + batch.value;
          if |msgs| >= maxCount {
            FromPrefix(log, i + 1, start);
            FirstDone(From(AllRecords(log[..i + 1]), start), From(AllRecords(log[i + 1..]), start), maxCount);
            return Ok(msgs);
          }
        }
      }
      assert log[..|log|] == log;
      r := Ok(msgs);
    }
  }

  /** Segments past one that reaches beyond `start` lie wholly at or above it. */
  lemma LaterSegments(log: Log, i: nat, start: int)
    requires LogOK(log) && i < |log| && log[i].next > start
    ensures forall k :: i < k < |log| ==> start <= log[k].base
  {
    hide SegOK;
  }

  lemma ValidSegments(log: Log)
    requires LogOK(log)
    ensures forall k :: 0 <= k < |log| ==> SegOK(log[k])
  {
    hide SegOK;
  }

  /** The same segments in order of their bases are the same log. */
  lemma {:induction false} SortedOnce(a: Log, b: Log)
    requires forall i, j :: 0 <= i < j < |a| ==> a[i].base < a[j].base
    requires forall i, j :: 0 <= i < j < |b| ==> b[i].base < b[j].base
    requires (forall i :: 0 <= i < |a| ==> a[i] in b) && forall i :: 0 <= i < |b| ==> b[i] in a
    ensures a == b
  {
    assert (a != [] ==> a[0] in b) && (b != [] ==> b[0] in a);
    if a != [] && b != [] {
      var la, lb := a[|a| - 1], b[|b| - 1];
      assert la in b && lb in a;
      assert la == lb;
      SortedOnce(a[..|a| - 1], b[..|b| - 1]);
    }
  }

  lemma RewrittenOK(log: Log, i: nat, s: Seg)
    requires i < |log| && LogOK(log[i := s])
    ensures SegOK(s)
  {
    hide SegOK;
    assert SegOK(log[i := s][i]);
  }

  lemma AfterRewriteOK(log: Log, i: nat, kept: seq<Record>, every: int, fault: Fault)
    requires LogOK(log) && i < |log| && LogOK(log[i := SegRewrite(log[i], kept, every)]) && fault != IndexRename
    ensures LogOK(log[i := AfterRewrite(log[i], kept, every, fault)])
  {
    hide SegOK, SegRewrite;
    SinceIsFree(log[i]);
  }

  lemma LastOK(log: Log)
    requires LogOK(log)
    ensures log != [] && SegOK(log[|log| - 1]) && log[|log| - 1].next == NextOffset(log)
  {
  }
}
