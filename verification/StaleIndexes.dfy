/**
 A rewrite renames the new log into place before the new index. If the second rename fails, or the process dies
 between the two, the compacted log is left with the index of the old one, and reads trust that index. This
 module says exactly when they still find everything.
 */
module StaleIndexes {
  import opened Bytes
  import opened Records
  import opened Segments
  import opened PartitionLogs
  import opened KeyCompaction

  /** Every read finds exactly the records at or above its start, up to its limit. */
  ghost predicate ReadsRight(crc: Checksum, s: Seg)
    requires AllFit(s.records) && IndexFits(s.index)
  {
    forall start: int, n: int :: ReadAt(crc, s, start, n) == Ok(First(From(s.records, start), n))
  }

  /** The sweep drops nothing before record `j`, or everything from it on. */
  predicate Harmless(sweep: Sweep, rs: seq<Record>, j: nat)
    requires j <= |rs|
  {
    sweep.Kept(rs[..j]) == rs[..j] || sweep.Kept(rs[j..]) == []
  }

  /** That holds of every record that the index points to. */
  ghost predicate IndexHarmless(sweep: Sweep, s: Seg) {
    forall k, j :: 0 <= k < |s.index| && 0 <= j < |s.records| && s.records[j].offset == s.index[k].offset ==>
      Harmless(sweep, s.records, j)
  }

  lemma KeptSplits(sweep: Sweep, rs: seq<Record>, j: nat)
    requires j <= |rs|
    ensures sweep.Kept(rs) == sweep.Kept(rs[..j]) + sweep.Kept(rs[j..])
  {
    hide Filter;
    FilterConcat(sweep.tomb, sweep.latest, sweep.now, sweep.grace, rs[..j], rs[j..]);
    assert rs[..j] + rs[j..] == rs;
  }

  lemma {:induction false} DroppingShortens(sweep: Sweep, rs: seq<Record>)
    ensures sweep.Kept(rs) == rs || Length(sweep.Kept(rs)) < Length(rs)
  {
    if rs != [] {
      var front, kept := rs[..|rs| - 1], sweep.Kept(rs[..|rs| - 1]);
      DroppingShortens(sweep, front);
      KeptIsShorter(sweep, front);
      assert (kept + [rs[|rs| - 1]])[..|kept|] == kept;
    }
  }

  /** A read never returns more than there are bytes. */
  lemma {:induction false} ReadIsBounded(crc: Checksum, b: Bytes, start: int, n: int)
    ensures ReadFrom(crc, b, start, n).Ok? ==> Length(ReadFrom(crc, b, start, n).value) <= |b|
    decreases |b|
  {
    hide Decode, Length;
    NoLength();
    if n > 0 && Decode(crc, b).Got? {
      var d := Decode(crc, b);
      var m := if d.record.offset < start then n else n - 1;
      ReadIsBounded(crc, b[d.size..], start, m);
      var rest := ReadFrom(crc, b[d.size..], start, m);
      if rest.Ok? {
        LengthConcat([d.record], rest.value);
        OneLength(d.record);
      }
    }
  }

  lemma OneLength(r: Record)
    ensures Length([r]) == Size(r)
  {
    assert [r][..0] == [];
  }

  /** A read from the offset of an index entry starts at that entry's position. */
  lemma {:induction false} BestAtEntry(index: seq<IndexEntry>, k: nat, best: int)
    requires Rising(index) && k < |index|
    ensures Best(index, index[k].offset, best) == index[k].position
    decreases |index|
  {
    if k > 0 {
      BestAtEntry(index[1..], k - 1, index[0].position);
    } else if |index| > 1 {
      assert index[1..][0].offset > index[0].offset;
    }
  }

  /** Every read starts at the beginning or at the position of an entry not above it. */
  lemma {:induction false} BestIsEntry(index: seq<IndexEntry>, start: int, best: int) returns (k: nat)
    ensures Best(index, start, best) == best
         || (k < |index| && index[k].offset <= start && Best(index, start, best) == index[k].position)
    decreases |index|
  {
    k := 0;
    if index != [] && index[0].offset <= start {
      var i := BestIsEntry(index[1..], start, index[0].position);
      k := if Best(index[1..], start, index[0].position) == index[0].position then 0 else i + 1;
    }
  }

  /** The record an entry points to. */
  lemma EntryRecord(s: Seg, k: nat) returns (j: nat)
    requires SegOK(s) && k < |s.index|
    ensures j < |s.records| && s.records[j].offset == s.index[k].offset
    ensures PositionOf(s.records, j) == s.index[k].position
  {
    hide Length, AllFit, IndexFits;
    assert PointsInto(s.index[k], s.records);
    j :| 0 <= j < |s.records| && s.records[j].offset == s.index[k].offset
         && PositionOf(s.records, j) == s.index[k].position;
  }

  /** The compacted log and what its files hold. */
  lemma KeptFits(sweep: Sweep, s: Seg)
    requires SegOK(s)
    ensures AllFit(sweep.Kept(s.records)) && IndexFits(s.index)
  {
    hide Filter, IndexOK, Length;
    KeptAreMembers(sweep, s.records);
    var kept := sweep.Kept(s.records);
    forall i | 0 <= i < |kept| ensures Fits(kept[i]) {
      assert kept[i] in s.records;
    }
  }

  /** Where the read starts in the old log, it starts in the new one too, and misses nothing. */
  lemma HarmlessRead(crc: Checksum, sweep: Sweep, s: Seg, start: int, n: int, j: nat)
    requires SegOK(s) && j <= |s.records| && Harmless(sweep, s.records, j)
    requires SafeStart(s.records, start, Best(s.index, start, FILE_HEADER), j)
    ensures var kept := sweep.Kept(s.records);
            && AllFit(kept) && IndexFits(s.index)
            && ReadAt(crc, HalfSwapped(s, kept), start, n) == Ok(First(From(kept, start), n))
  {
    hide Filter, IndexOK, Length, EncodeAll, LogBytes, Best, From, First, Decode;
    var rs, kept, pos := s.records, sweep.Kept(s.records), Best(s.index, start, FILE_HEADER);
    KeptFits(sweep, s);
    KeptSplits(sweep, rs, j);
    var t := HalfSwapped(s, kept);
    if sweep.Kept(rs[..j]) == rs[..j] {
      assert kept[..j] == rs[..j];
      LogBytesFrom(crc, t, j);
      assert forall i :: 0 <= i < j ==> kept[i].offset < start by {
        assert forall i :: 0 <= i < j ==> kept[i] == kept[..j][i] == rs[i];
      }
      FromSkips(kept, start, j);
      ReadRecords(crc, kept[j..], start, n);
    } else {
      NothingLeft(crc, sweep, s, start, n, j);
    }
  }

  /** Everything from the start on was dropped: the old position is past the end of the new log. */
  lemma NothingLeft(crc: Checksum, sweep: Sweep, s: Seg, start: int, n: int, j: nat)
    requires SegOK(s) && j <= |s.records| && sweep.Kept(s.records[j..]) == []
    requires SafeStart(s.records, start, Best(s.index, start, FILE_HEADER), j)
    ensures var kept := sweep.Kept(s.records);
            && AllFit(kept) && IndexFits(s.index)
            && ReadAt(crc, HalfSwapped(s, kept), start, n) == Ok(First(From(kept, start), n))
  {
    hide Filter, IndexOK, Length, EncodeAll, LogBytes, Best;
    var rs, kept := s.records, sweep.Kept(s.records);
    KeptFits(sweep, s);
    KeptSplits(sweep, rs, j);
    assert kept == sweep.Kept(rs[..j]);
    KeptIsShorter(sweep, rs[..j]);
    KeptAreMembers(sweep, rs[..j]);
    RewriteSize(crc, HalfSwapped(s, kept));
    forall i | 0 <= i < |kept| ensures kept[i].offset < start {
      assert kept[i] in rs[..j];
    }
    FromNone(kept, start);
  }

  /** A harmful entry: records before it were dropped, some from it on were not. A read from its offset cannot
      return all of those: not enough bytes are left behind the stale position. */
  lemma HarmfulRead(crc: Checksum, sweep: Sweep, s: Seg, k: nat, j: nat)
    requires SegOK(s) && k < |s.index| && j < |s.records| && s.records[j].offset == s.index[k].offset
    requires !Harmless(sweep, s.records, j)
    ensures var kept := sweep.Kept(s.records);
            var start, n := s.records[j].offset, |s.records|;
            && AllFit(kept) && IndexFits(s.index)
            && ReadAt(crc, HalfSwapped(s, kept), start, n) != Ok(First(From(kept, start), n))
  {
    hide Filter, IndexOK, Length, EncodeAll, LogBytes, Best, ReadFrom, First;
    var rs, kept := s.records, sweep.Kept(s.records);
    var start, want := rs[j].offset, sweep.Kept(rs[j..]);
    KeptFits(sweep, s);
    KeptSplits(sweep, rs, j);
    DroppingShortens(sweep, rs[..j]);
    LengthConcat(sweep.Kept(rs[..j]), want);
    Wanted(sweep, s, j);
    StalePosition(s, k, j);
    RewriteSize(crc, HalfSwapped(s, kept));
    var rest := Beyond(LogBytes(crc, HalfSwapped(s, kept)), PositionOf(rs, j));
    assert |rest| < Length(want) by { SomeLength(want); }
    ReadIsBounded(crc, rest, start, |rs|);
  }

  lemma SomeLength(rs: seq<Record>)
    requires rs != []
    ensures Length(rs) > 0
  {
  }

  lemma StalePosition(s: Seg, k: nat, j: nat)
    requires SegOK(s) && k < |s.index| && j < |s.records| && s.records[j].offset == s.index[k].offset
    ensures Best(s.index, s.records[j].offset, FILE_HEADER) == PositionOf(s.records, j)
  {
    hide Length, Best, AllFit, IndexFits;
    var i := EntryRecord(s, k);
    assert i == j;
    BestAtEntry(s.index, k, FILE_HEADER);
  }

  /** What a read from record `j`'s offset should return. */
  lemma Wanted(sweep: Sweep, s: Seg, j: nat)
    requires SegOK(s) && j < |s.records|
    ensures var want := sweep.Kept(s.records[j..]);
            First(From(sweep.Kept(s.records), s.records[j].offset), |s.records|) == want
  {
    hide Filter, IndexOK, Length, AllFit, IndexFits;
    var rs := s.records;
    var below, want, start := sweep.Kept(rs[..j]), sweep.Kept(rs[j..]), rs[j].offset;
    KeptSplits(sweep, rs, j);
    KeptAreMembers(sweep, rs[..j]);
    KeptAreMembers(sweep, rs[j..]);
    forall i | 0 <= i < |below| ensures below[i].offset < start {
      assert below[i] in rs[..j];
    }
    forall i | 0 <= i < |want| ensures want[i].offset >= start {
      assert want[i] in rs[j..];
    }
    FromConcat(below, want, start);
    FromNone(below, start);
    FromAll(want, start);
  }

  /** With the new log and the old index every read is right if and only if, for each record the index points to,
      the sweep drops nothing before it or everything from it on. */
  lemma StaleIndexExactly(crc: Checksum, sweep: Sweep, s: Seg)
    requires SegOK(s)
    ensures AllFit(sweep.Kept(s.records)) && IndexFits(s.index)
    ensures ReadsRight(crc, HalfSwapped(s, sweep.Kept(s.records))) <==> IndexHarmless(sweep, s)
  {
    hide SegOK, Harmless, ReadAt, From, First, Filter, AllFit, IndexFits;
    var t := HalfSwapped(s, sweep.Kept(s.records));
    KeptFits(sweep, s);
    if IndexHarmless(sweep, s) {
      forall start: int, n: int ensures ReadAt(crc, t, start, n) == Ok(First(From(t.records, start), n)) {
        var j := HarmlessStart(sweep, s, start);
        HarmlessRead(crc, sweep, s, start, n, j);
      }
    } else {
      var k, j :| 0 <= k < |s.index| && 0 <= j < |s.records| && s.records[j].offset == s.index[k].offset
                  && !Harmless(sweep, s.records, j);
      HarmfulRead(crc, sweep, s, k, j);
    }
  }

  lemma HarmlessStart(sweep: Sweep, s: Seg, start: int) returns (j: nat)
    requires SegOK(s) && IndexHarmless(sweep, s)
    ensures j <= |s.records| && Harmless(sweep, s.records, j)
    ensures SafeStart(s.records, start, Best(s.index, start, FILE_HEADER), j)
  {
    hide Length, Best, IndexOK, AllFit, IndexFits, Filter;
    var k := BestIsEntry(s.index, start, FILE_HEADER);
    if Best(s.index, start, FILE_HEADER) == FILE_HEADER {
      j := 0;
      FirstPosition(s.records);
      assert s.records[..0] == [];
      NoneKept(sweep);
    } else {
      j := EntryRecord(s, k);
    }
  }

  // ---------------------------------------------------------------------
  // A segment that a half-finished rewrite leaves unreadable

  lemma NewerIsKept(a: Record, b: Record, tomb: Tombstone, now: int)
    requires a.key == b.key != [] && a.offset != b.offset && !tomb(b)
    ensures Sweep(tomb, Latest([a, b]), now, 0).Kept([a, b]) == [b]
  {
    var sweep := Sweep(tomb, Latest([a, b]), now, 0);
    assert [a, b][..1] == [a] && [a][..0] == [];
    assert Latest([a, b])[b.key] == b.offset;
    assert sweep.Kept([]) == [] && sweep.Kept([a]) == [];
  }

  /** A segment of two records, both indexed. */
  lemma TwoRecords(a: Record, b: Record)
    requires Fits(a) && Fits(b) && a.offset == 0 && b.offset == 1
    ensures var s := SegWrite(SegWrite(NewSeg(0), a, 0), b, 0);
            && SegOK(s) && s.records == [a, b] && |s.index| == 2
            && s.index[1] == IndexEntry(1, FILE_HEADER + Size(a))
  {
    hide SegOK, Length;
    NoLength();
    OneLength(a);
    NewSegOK();
    WriteOK(NewSeg(0), a, 0);
    assert [] + [a] == [a];
    WriteOK(SegWrite(NewSeg(0), a, 0), b, 0);
  }

  lemma NewSegOK()
    ensures SegOK(NewSeg(0))
  {
    NoIndexOK([]);
  }

  /** Two records of one key in a segment that indexes every record, the newer one no longer than the older.
      The sweep keeps the newer one. With the old index a read from its offset returns nothing, and no error. */
  lemma StaleIndexHidesRecord(crc: Checksum, a: Record, b: Record, tomb: Tombstone, now: int)
    requires Fits(a) && Fits(b) && a.offset == 0 && b.offset == 1
    requires a.key == b.key != [] && Size(b) <= Size(a) && !tomb(b)
    ensures var s := SegWrite(SegWrite(NewSeg(0), a, 0), b, 0);
            var sweep := Sweep(tomb, Latest(s.records), now, 0);
            && SegOK(s) && sweep.Kept(s.records) == [b] && AllFit([b]) && IndexFits(s.index)
            && From([b], 1) == [b]
            && forall n: int :: ReadAt(crc, HalfSwapped(s, [b]), 1, n) == Ok([])
  {
    hide SegWrite, Filter, Latest, LogBytes, Best, PointsInto, Length, Size;
    var s := SegWrite(SegWrite(NewSeg(0), a, 0), b, 0);
    TwoRecords(a, b);
    NewerIsKept(a, b, tomb, now);
    BestAtEntry(s.index, 1, FILE_HEADER);
    OneLength(b);
    RewriteSize(crc, HalfSwapped(s, [b]));
    FromAll([b], 1);
    assert Beyond(LogBytes(crc, HalfSwapped(s, [b])), FILE_HEADER + Size(a)) == [];
  }
}
