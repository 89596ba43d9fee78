/**
 One segment of a partition log: a file of records and a sparse index file of (offset, position)
 pairs. A read starts at the position the index suggests and scans from there.
 */
module Segments {
  import opened Bytes
  import opened Records

  datatype IndexEntry = IndexEntry(offset: int, position: int)

  predicate EntryFits(e: IndexEntry) {
    0 <= e.offset < TWO_63 && 0 <= e.position < TWO_63
  }

  predicate IndexFits(index: seq<IndexEntry>) {
    forall k :: 0 <= k < |index| ==> EntryFits(index[k])
  }

  function EncodeEntry(e: IndexEntry): (b: Bytes)
    requires EntryFits(e)
    ensures |b| == 16
  {
    Put(e.offset, 8) + Put(e.position, 8)
  }

  /** The bytes of an index entry: offset and position, eight bytes each, least significant first. */
  lemma EntryLayout(e: IndexEntry)
    requires EntryFits(e)
    ensures NumberAt(EncodeEntry(e), 0, 8, e.offset) && NumberAt(EncodeEntry(e), 8, 8, e.position)
  {
    hide Put, NumberAt;
    var b := EncodeEntry(e);
    assert b[0..8] == Put(e.offset, 8) && b[8..16] == Put(e.position, 8);
    NumberIsAt(b, 0, 8, e.offset);
    NumberIsAt(b, 8, 8, e.position);
  }

  function EncodeIndex(index: seq<IndexEntry>): (b: Bytes)
    requires IndexFits(index)
    ensures |b| == 16 * |index|
  {
    if index == [] then [] else EncodeIndex(index[..|index| - 1]) + EncodeEntry(index[|index| - 1])
  }

  lemma {:induction false} EntryBytes(index: seq<IndexEntry>, k: nat)
    requires IndexFits(index) && k < |index|
    ensures EncodeIndex(index)[16 * k..16 * k + 16] == EncodeEntry(index[k])
  {
    hide EncodeEntry;
    var last := |index| - 1;
    if k < last {
      EntryBytes(index[..last], k);
      assert EncodeIndex(index)[16 * k..16 * k + 16] == EncodeIndex(index[..last])[16 * k..16 * k + 16];
    }
  }

  lemma DecodeEntry(index: seq<IndexEntry>, k: nat)
    requires IndexFits(index) && k < |index|
    ensures var b := EncodeIndex(index);
            && Signed(Take(b[16 * k..16 * k + 8])) == index[k].offset
            && Signed(Take(b[16 * k + 8..16 * k + 16])) == index[k].position
  {
    hide EncodeIndex, Put, Take;
    var b := EncodeIndex(index);
    EntryBytes(index, k);
    var e := b[16 * k..16 * k + 16];
    assert b[16 * k..16 * k + 8] == e[..8] == Put(index[k].offset, 8);
    assert b[16 * k + 8..16 * k + 16] == e[8..] == Put(index[k].position, 8);
    SpanValues();
    TakePut(index[k].offset, 8);
    TakePut(index[k].position, 8);
  }

  // ---------------------------------------------------------------------
  // A segment as a value

  datatype Seg = Seg(base: int, next: int, records: seq<Record>, index: seq<IndexEntry>, since: int)

  predicate Ascending(rs: seq<Record>) {
    forall i, j :: 0 <= i < j < |rs| ==> rs[i].offset < rs[j].offset
  }

  function PositionOf(rs: seq<Record>, j: nat): nat
    requires j <= |rs|
  {
    FILE_HEADER + Length(rs[..j])
  }

  /** An index entry tells the truth: some record has this offset and this position. */
  ghost predicate PointsInto(e: IndexEntry, rs: seq<Record>) {
    exists j :: 0 <= j < |rs| && rs[j].offset == e.offset && PositionOf(rs, j) == e.position
  }

  ghost predicate IndexOK(index: seq<IndexEntry>, rs: seq<Record>) {
    Rising(index) && forall k :: 0 <= k < |index| ==> PointsInto(index[k], rs)
  }

  predicate Rising(index: seq<IndexEntry>) {
    forall i, j :: 0 <= i < j < |index| ==> index[i].offset < index[j].offset
  }

  ghost predicate SegOK(s: Seg) {
    && 0 <= s.base <= s.next < TWO_63
    && AllFit(s.records) && Ascending(s.records)
    && (forall i :: 0 <= i < |s.records| ==> s.base <= s.records[i].offset < s.next)
    && FILE_HEADER + Length(s.records) < TWO_63
    && IndexFits(s.index) && IndexOK(s.index, s.records)
  }

  function NewSeg(base: int): Seg {
    Seg(base, base, [], [], 0)
  }

  function FileSize(s: Seg): nat {
    FILE_HEADER + Length(s.records)
  }

  /** The index and byte counter after one more record. */
  function Indexed(index: seq<IndexEntry>, since: int, rs: seq<Record>, r: Record, every: int)
    : (seq<IndexEntry>, int)
  {
    if since + Size(r) >= every then (index + [IndexEntry(r.offset, FILE_HEADER + Length(rs))], 0)
    else (index, since + Size(r))
  }

  function SegWrite(s: Seg, r: Record, every: int): Seg {
    var (index, since) := Indexed(s.index, s.since, s.records, r, every);
    Seg(s.base, s.next + 1, s.records + [r], index, since)
  }

  /** Reopening finds the next offset from the records on disk. */
  function NextAfter(base: int, rs: seq<Record>): int {
    if rs == [] then base else rs[|rs| - 1].offset + 1
  }

  function SegReopen(s: Seg): Seg {
    s.(next := NextAfter(s.base, s.records), since := 0)
  }

  /** The index a rewrite builds, and its byte counter. */
  function Reindexed(rs: seq<Record>, every: int): (seq<IndexEntry>, int) {
    if rs == [] then ([], 0)
    else
      var (index, since) := Reindexed(rs[..|rs| - 1], every);
      Indexed(index, since, rs[..|rs| - 1], rs[|rs| - 1], every)
  }

  function SegRewrite(s: Seg, kept: seq<Record>, every: int): Seg {
    s.(records := kept, index := Reindexed(kept, every).0, since := 0)
  }

  /** A rewrite that renamed the new log into place but not the new index. */
  function HalfSwapped(s: Seg, kept: seq<Record>): Seg {
    s.(records := kept, since := 0)
  }

  /** How far a rewrite gets: to the end, nowhere, or to one of the two renames. */
  datatype Fault = NoFault | Early | LogRename | IndexRename

  /** What a rewrite leaves, depending on how far it gets. */
  function AfterRewrite(s: Seg, kept: seq<Record>, every: int, fault: Fault): Seg {
    match fault
    case NoFault => SegRewrite(s, kept, every)
    case Early => s
    case LogRename => s.(since := 0)
    case IndexRename => HalfSwapped(s, kept)
  }

  lemma PointsIntoMore(e: IndexEntry, rs: seq<Record>, r: Record)
    requires PointsInto(e, rs)
    ensures PointsInto(e, rs + [r])
  {
    hide Length;
    var j :| 0 <= j < |rs| && rs[j].offset == e.offset && PositionOf(rs, j) == e.position;
    assert (rs + [r])[..j] == rs[..j];
    assert (rs + [r])[j] == rs[j];
  }

  lemma IndexedOK(index: seq<IndexEntry>, since: int, rs: seq<Record>, r: Record, every: int)
    requires IndexOK(index, rs) && IndexFits(index) && Fits(r) && FILE_HEADER + Length(rs) < TWO_63
    requires forall i :: 0 <= i < |rs| ==> rs[i].offset < r.offset
    ensures var index' := Indexed(index, since, rs, r, every).0;
            IndexOK(index', rs + [r]) && IndexFits(index')
  {
    hide Length, PointsInto;
    forall k | 0 <= k < |index| ensures PointsInto(index[k], rs + [r]) && index[k].offset < r.offset {
      PointsIntoMore(index[k], rs, r);
      EntryIsBelow(index[k], rs, r);
    }
    PointsToLast(rs, r);
  }

  lemma EntryIsBelow(e: IndexEntry, rs: seq<Record>, r: Record)
    requires PointsInto(e, rs) && forall i :: 0 <= i < |rs| ==> rs[i].offset < r.offset
    ensures e.offset < r.offset
  {
  }

  lemma PointsToLast(rs: seq<Record>, r: Record)
    ensures PointsInto(IndexEntry(r.offset, FILE_HEADER + Length(rs)), rs + [r])
  {
    hide Length;
    var all := rs + [r];
    assert all[..|rs|] == rs && all[|rs|].offset == r.offset;
    assert PositionOf(all, |rs|) == FILE_HEADER + Length(rs);
  }

  lemma WriteOK(s: Seg, r: Record, every: int)
    requires SegOK(s) && Fits(r) && r.offset == s.next && s.next + 1 < TWO_63
    requires FileSize(s) + Size(r) < TWO_63
    ensures SegOK(SegWrite(s, r, every))
  {
    hide IndexOK;
    IndexedOK(s.index, s.since, s.records, r, every);
    assert (s.records + [r])[..|s.records|] == s.records;
  }

  lemma ReopenOK(s: Seg)
    requires SegOK(s)
    ensures SegOK(SegReopen(s)) && SegReopen(s).next <= s.next
  {
  }

  lemma {:induction false} ReindexedOK(rs: seq<Record>, every: int)
    requires AllFit(rs) && Ascending(rs) && FILE_HEADER + Length(rs) < TWO_63
    ensures IndexOK(Reindexed(rs, every).0, rs) && IndexFits(Reindexed(rs, every).0)
  {
    hide IndexOK, Indexed;
    if rs == [] {
      NoIndexOK(rs);
    } else {
      var front, last := rs[..|rs| - 1], rs[|rs| - 1];
      ReindexedOK(front, every);
      IndexedOK(Reindexed(front, every).0, Reindexed(front, every).1, front, last, every);
      assert front + [last] == rs;
    }
  }

  /** Where the last entry of a fresh index points: behind record `k` fewer than `every` bytes follow. */
  ghost predicate IndexedUpTo(rs: seq<Record>, index: seq<IndexEntry>, since: int, every: int, k: nat) {
    && k <= |rs| && since == Length(rs[k..]) && since < every
    && (if k == 0 then index == []
        else index != [] && index[|index| - 1] == IndexEntry(rs[k - 1].offset, PositionOf(rs, k - 1)))
  }

  /** A rebuilt index is never behind by more than its spacing: the records after the last one it points to are
      together shorter than that. */
  lemma {:induction false} IndexKeepsUp(rs: seq<Record>, every: int) returns (k: nat)
    requires every > 0
    ensures IndexedUpTo(rs, Reindexed(rs, every).0, Reindexed(rs, every).1, every, k)
  {
    hide Size;
    if rs == [] {
      k := 0;
    } else {
      var front, last := rs[..|rs| - 1], rs[|rs| - 1];
      var j := IndexKeepsUp(front, every);
      var (index, since) := Reindexed(front, every);
      assert rs[j..] == front[j..] + [last];
      assert rs[j..][..|rs| - j - 1] == front[j..];
      if since + Size(last) >= every {
        k := |rs|;
        assert rs[k..] == [] && rs[..|rs| - 1] == front;
      } else {
        k := j;
        if j > 0 {
          assert rs[..j - 1] == front[..j - 1];
        }
      }
    }
  }

  lemma NoIndexOK(rs: seq<Record>)
    ensures IndexOK([], rs)
  {
  }

  // ---------------------------------------------------------------------
  // Where a read starts

  /** The position of the last index entry not above `start`, looking no further than the first one
      above it. */
  function Best(index: seq<IndexEntry>, start: int, best: int): int {
    if index == [] then best
    else if index[0].offset <= start then Best(index[1..], start, index[0].position)
    else best
  }

  /** In a rising index that is the last of all entries not above `start`; if there is none, the given default. */
  lemma {:induction false} BestExactly(index: seq<IndexEntry>, start: int, best: int)
    requires Rising(index)
    ensures forall k :: 0 <= k < |index| && index[k].offset <= start
                        && (k + 1 < |index| ==> index[k + 1].offset > start) ==>
              Best(index, start, best) == index[k].position
    ensures (index != [] ==> index[0].offset > start) ==> Best(index, start, best) == best
    decreases |index|
  {
    if index != [] && index[0].offset <= start {
      BestExactly(index[1..], start, index[0].position);
      forall k | 0 <= k < |index| && index[k].offset <= start && (k + 1 < |index| ==> index[k + 1].offset > start)
        ensures Best(index, start, best) == index[k].position
      {
        if k > 0 {
          assert index[1..][k - 1] == index[k];
        } else if |index| > 1 {
          assert index[1..][0] == index[1];
        }
      }
    }
  }

  ghost predicate SafeStart(rs: seq<Record>, start: int, pos: int, j: nat) {
    && j <= |rs|
    && pos == PositionOf(rs, j)
    && forall i :: 0 <= i < j ==> rs[i].offset < start
  }

  /** Wherever the index sends a read, only records below `start` are skipped. */
  lemma {:induction false} BestIsSafe(rs: seq<Record>, index: seq<IndexEntry>, start: int, best: int)
    returns (j: nat)
    requires Ascending(rs) && IndexOK(index, rs)
    requires exists i: nat :: SafeStart(rs, start, best, i)
    ensures SafeStart(rs, start, Best(index, start, best), j)
    decreases |index|
  {
    hide Length;
    if index != [] && index[0].offset <= start {
      assert PointsInto(index[0], rs);
      var i: nat :| i < |rs| && rs[i].offset == index[0].offset && PositionOf(rs, i) == index[0].position;
      assert SafeStart(rs, start, index[0].position, i);
      j := BestIsSafe(rs, index[1..], start, index[0].position);
    } else {
      j :| SafeStart(rs, start, best, j);
    }
  }

  /** Skipping records below `start` does not change what is read from it. */
  lemma {:induction false} FromSkips(rs: seq<Record>, start: int, j: nat)
    requires j <= |rs| && forall i :: 0 <= i < j ==> rs[i].offset < start
    ensures From(rs[j..], start) == From(rs, start)
  {
    if j == 0 {
      assert rs[0..] == rs;
    } else {
      assert rs[1..][j - 1..] == rs[j..];
      FromSkips(rs[1..], start, j - 1);
    }
  }

  /** With everything at or above `start`, all of it is read. */
  lemma {:induction false} FromAll(rs: seq<Record>, start: int)
    requires forall i :: 0 <= i < |rs| ==> rs[i].offset >= start
    ensures From(rs, start) == rs
  {
    if rs != [] {
      FromAll(rs[1..], start);
    }
  }

  lemma {:induction false} FromNone(rs: seq<Record>, start: int)
    requires forall i :: 0 <= i < |rs| ==> rs[i].offset < start
    ensures From(rs, start) == []
  {
    if rs != [] {
      FromNone(rs[1..], start);
    }
  }

  lemma {:induction false} FromConcat(a: seq<Record>, b: seq<Record>, start: int)
    ensures From(a + b, start) == From(a, start) + From(b, start)
  {
    if a == [] {
      assert a + b == b;
    } else {
      assert (a + b)[1..] == a[1..] + b;
      FromConcat(a[1..], b, start);
    }
  }

  // ---------------------------------------------------------------------
  // The segment on disk

  /** The log file of a segment. */
  function LogBytes(crc: Checksum, s: Seg): Bytes
    requires AllFit(s.records)
  {
    MAGIC + EncodeAll(crc, s.records)
  }

  /** What reading a segment's files gives, whatever its index says; past the end there is nothing to read. */
  function ReadAt(crc: Checksum, s: Seg, start: int, n: int): Result<seq<Record>>
    requires AllFit(s.records) && IndexFits(s.index)
  {
    ReadFrom(crc, Beyond(LogBytes(crc, s), Best(s.index, start, FILE_HEADER)), start, n)
  }

  function Beyond(b: Bytes, pos: int): Bytes {
    if 0 <= pos <= |b| then b[pos..] else []
  }

  /** A truthful index changes nothing about what is read. */
  lemma ReadIsExact(crc: Checksum, s: Seg, start: int, n: int)
    requires SegOK(s)
    ensures ReadAt(crc, s, start, n) == Ok(First(From(s.records, start), n))
  {
    hide EncodeAll, LogBytes, PositionOf, IndexOK, Best, From, First;
    var j := SafeBest(s, start);
    LogBytesFrom(crc, s, j);
    FromSkips(s.records, start, j);
    ReadRecords(crc, s.records[j..], start, n);
  }

  lemma LogBytesFrom(crc: Checksum, s: Seg, j: nat)
    requires AllFit(s.records) && j <= |s.records|
    ensures PositionOf(s.records, j) <= |LogBytes(crc, s)| == FileSize(s)
    ensures LogBytes(crc, s)[PositionOf(s.records, j)..] == EncodeAll(crc, s.records[j..])
  {
    hide EncodeAll, Length;
    EncodeFrom(crc, s.records, j);
    var b, n := EncodeAll(crc, s.records), Length(s.records[..j]);
    assert (MAGIC + b)[FILE_HEADER + n..] == b[n..];
  }

  /** One record further. */
  lemma NextPosition(rs: seq<Record>, j: nat)
    requires j < |rs|
    ensures PositionOf(rs, j + 1) == PositionOf(rs, j) + Size(rs[j])
  {
    assert rs[..j + 1][..j] == rs[..j];
  }

  /** The header a skipping scan sees at record `j`. */
  lemma HeaderAt(crc: Checksum, rs: seq<Record>)
    requires AllFit(rs) && rs != []
    ensures var b := EncodeAll(crc, rs);
            && |b| >= HEADER && Signed(Take(b[..8])) == rs[0].offset
            && HEADER + Take(b[16..18]) + Take(b[18..22]) == Size(rs[0])
  {
    hide EncodeAll, Header, Take, Encode;
    assert [rs[0]] + rs[1..] == rs;
    EncodeConcat(crc, [rs[0]], rs[1..]);
    EncodeOne(crc, rs[0]);
    EncodeParts(crc, rs[0], EncodeAll(crc, rs[1..]));
    HeaderFields(crc, rs[0]);
    var b, h := EncodeAll(crc, rs), Header(crc, rs[0]);
    assert b[..8] == h[..8] && b[16..18] == h[16..18] && b[18..22] == h[18..22];
  }

  class Segment {
    const crc: Checksum
    const maxBytes: int
    const indexEvery: int
    var baseOffset: int
    var nextOffset: int
    var logFile: Bytes
    var indexFile: Bytes
    var logSize: int
    var byteSinceIndex: int
    ghost var model: Seg

    ghost predicate Valid()
      reads this
    {
      SegOK(model) && Stored()
    }

    /** The fields and files say what the model says, true or not. */
    ghost predicate Stored()
      reads this
    {
      && AllFit(model.records) && IndexFits(model.index)
      && baseOffset == model.base && nextOffset == model.next && byteSinceIndex == model.since
      && logFile == LogBytes(crc, model) && logSize == FileSize(model)
      && indexFile == EncodeIndex(model.index)
    }

    /** A segment whose file does not exist yet. */
    constructor Create(crc: Checksum, base: int, maxBytes: int, indexEvery: int)
      requires 0 <= base < TWO_63
      ensures Valid() && model == NewSeg(base)
      ensures this.crc == crc && this.maxBytes == maxBytes && this.indexEvery == indexEvery
    {
      this.crc, this.maxBytes, this.indexEvery := crc, maxBytes, indexEvery;
      baseOffset, nextOffset, logFile, indexFile := base, base, MAGIC, [];
      logSize, byteSinceIndex := FILE_HEADER, 0;
      model := NewSeg(base);
      new;
      assert MAGIC + [] == MAGIC;
    }

    /** A segment found on disk. */
    constructor Open(files: Segment, maxBytes: int, indexEvery: int)
      requires files.Stored()
      ensures Stored() && model == SegReopen(files.model)
      ensures files.Valid() ==> Valid()
      ensures crc == files.crc && this.maxBytes == maxBytes && this.indexEvery == indexEvery
    {
      crc, this.maxBytes, this.indexEvery := files.crc, maxBytes, indexEvery;
      baseOffset, nextOffset := files.baseOffset, files.baseOffset;
      logFile, indexFile := files.logFile, files.indexFile;
      logSize, byteSinceIndex := |files.logFile|, 0;
      model := SegReopen(files.model);
      new;
      LogBytesFrom(crc, files.model, 0);
      if SegOK(files.model) {
        ReopenOK(files.model);
      }
      nextOffset := RecoverNextOffset();
    }

    /** Scan the log for the last offset. */
    method RecoverNextOffset() returns (next: int)
      requires AllFit(model.records) && logFile == LogBytes(crc, model) && baseOffset == model.base
      ensures next == NextAfter(model.base, model.records)
    {
      hide EncodeAll, LogBytes, PositionOf, Decode, IndexOK;
      ghost var rs := model.records;
      ghost var j := 0;
      var pos, last := FILE_HEADER, baseOffset - 1;
      FirstPosition(rs);
      LogBytesFrom(crc, model, 0);
      while true
        invariant 0 <= j <= |rs| && pos == PositionOf(rs, j) <= |logFile|
        invariant last + 1 == NextAfter(baseOffset, rs[..j])
        decreases |rs| - j
      {
        LogBytesFrom(crc, model, j);
        if j < |rs| {
          DecodeFirst(crc, rs[j..]);
          NextPosition(rs, j);
          assert rs[..j + 1][j] == rs[j] == rs[j..][0];
          LogBytesFrom(crc, model, j + 1);
        } else {
          DecodeNothing(crc);
          assert rs[j..] == [];
        }
        var d := Decode(crc, logFile[pos..]);
        if !d.Got? { break; }
        last := d.record.offset;
        pos := pos + d.size;
        j := j + 1;
      }
      assert rs[..|rs|] == rs;
      next := last + 1;
    }

    /** Append one record: data first, then possibly an index entry. */
    method Write(timestamp: int, codec: Byte, key: Bytes, payload: Bytes) returns (offset: int)
      requires Valid() && nextOffset + 1 < TWO_63
      requires Fits(Record(nextOffset, timestamp, codec, key, payload))
      requires logSize + Size(Record(nextOffset, timestamp, codec, key, payload)) < TWO_63
      modifies this
      ensures Valid() && offset == old(nextOffset)
      ensures model == SegWrite(old(model), Record(offset, timestamp, codec, key, payload), indexEvery)
    {
      hide SegOK, LogBytes, Encode, EncodeIndex, EncodeEntry, Length;
      offset := nextOffset;
      var r := Record(offset, timestamp, codec, key, payload);
      var rec := Encode(crc, r);
      var recPos := logSize;
      WriteOK(model, r, indexEvery);
      WriteBytes(crc, model, r, indexEvery);
      logFile, logSize, nextOffset := logFile + rec, logSize + |rec|, nextOffset + 1;
      byteSinceIndex := byteSinceIndex + |rec|;
      if byteSinceIndex >= indexEvery {
        indexFile, byteSinceIndex := indexFile + EncodeEntry(IndexEntry(offset, recPos)), 0;
      }
      model := SegWrite(model, r, indexEvery);
    }

    method FindPosition(start: int) returns (pos: int)
      requires Stored()
      ensures pos == Best(model.index, start, FILE_HEADER)
    {
      hide EncodeIndex, SegOK, IndexOK, LogBytes;
      ghost var index := model.index;
      IndexOfStored();
      var i, k := 0, 0;
      pos := FILE_HEADER;
      assert index[0..] == index;
      while i + 16 <= |indexFile|
        invariant 0 <= k <= |index| && i == 16 * k
        invariant Best(index, start, FILE_HEADER) == Best(index[k..], start, pos)
        decreases |index| - k
      {
        DecodeEntry(index, k);
        var idxOff := Signed(Take(indexFile[i..i + 8]));
        var filePos := Signed(Take(indexFile[i + 8..i + 16]));
        assert index[k..][1..] == index[k + 1..];
        if idxOff > start { break; }
        pos := filePos;
        i, k := i + 16, k + 1;
      }
    }

    /** The position of the first record at or above `start`, or the end of the log. */
    method FindExactPosition(start: int) returns (pos: int)
      requires Valid()
      ensures exists j: nat ::
                SafeStart(model.records, start, pos, j) && From(model.records, start) == model.records[j..]
    {
      hide EncodeAll, LogBytes, PositionOf, IndexOK, EncodeIndex, Best, Take, From;
      pos := FindPosition(start);
      ghost var rs := model.records;
      ghost var j := SafeBest(model, start);
      LogBytesFrom(crc, model, j);
      while true
        invariant SafeStart(rs, start, pos, j) && pos <= |logFile|
        decreases |rs| - j
      {
        LogBytesFrom(crc, model, j);
        if j < |rs| {
          HeaderAt(crc, rs[j..]);
          NextPosition(rs, j);
          LogBytesFrom(crc, model, j + 1);
        } else {
          DecodeNothing(crc);
          assert rs[j..] == [];
        }
        var rest := logFile[pos..];
        if |rest| < HEADER { break; }
        var recOff, skip := Signed(Take(rest[..8])), Take(rest[16..18]) + Take(rest[18..22]);
        if recOff >= start { break; }
        pos := pos + HEADER + skip;
        j := j + 1;
      }
      FromSkips(rs, start, j);
      FromAll(rs[j..], start);
    }

    /** Up to `n` records from `start` on, scanning from the position the index gives. */
    method Read(start: int, n: int) returns (r: Result<seq<Record>>)
      requires Stored()
      ensures r == ReadAt(crc, model, start, n)
      ensures Valid() ==> r == Ok(First(From(model.records, start), n))
    {
      hide LogBytes, EncodeIndex, SegOK, Best, From, First, ReadFrom;
      var pos := FindPosition(start);
      if SegOK(model) {
        ReadIsExact(crc, model, start, n);
      }
      r := ScanRecords(crc, Beyond(logFile, pos), start, n);
    }

    /** The scanning loop, on any bytes: stop at the end or after `n` records, fail on a bad checksum. */
    static method ScanRecords(crc: Checksum, file: Bytes, start: int, n: int) returns (r: Result<seq<Record>>)
      ensures r == ReadFrom(crc, file, start, n)
    {
      hide Decode;
      var msgs, rest := [], file;
      PrependNothing(ReadFrom(crc, file, start, n));
      while |msgs| < n
        invariant ReadFrom(crc, file, start, n) == Prepend(msgs, ReadFrom(crc, rest, start, n - |msgs|))
        decreases |rest|
      {
        var d := Decode(crc, rest);
        if d.End? { break; }
        if d.Corrupt? { return Err; }
        var tail := rest[d.size..];
        if d.record.offset >= start {
          PrependMore(msgs, [d.record], ReadFrom(crc, tail, start, n - |msgs| - 1));
          msgs := msgs + [d.record];
        }
        rest := tail;
      }
      assert ReadFrom(crc, rest, start, n - |msgs|) == Ok([]);
      assert msgs + [] == msgs;
      r := Ok(msgs);
    }

    /** Replace the files by the given records and a rebuilt index: the new files are written next to the old ones
        and then renamed into place, the log first. */
    method Rewrite(kept: seq<Record>, fault: Fault) returns (ok: bool)
      requires Valid() && SegOK(SegRewrite(model, kept, indexEvery))
      modifies this
      ensures Stored() && (fault != IndexRename ==> Valid()) && ok == fault.NoFault?
      ensures model == AfterRewrite(old(model), kept, indexEvery, fault)
    {
      hide SegOK, LogBytes, EncodeIndex;
      var log, index := Rebuild(crc, kept, indexEvery, model);
      if fault == Early { return false; }
      byteSinceIndex := 0;
      SinceIsFree(model);
      if fault == LogRename {
        SameLog(crc, model, model.(since := 0));
        model := model.(since := 0);
        return false;
      }
      RewriteFits(model, kept, indexEvery);
      RewriteSize(crc, SegRewrite(model, kept, indexEvery));
      logFile, logSize := log, |log|;
      if fault == IndexRename {
        SameLog(crc, SegRewrite(model, kept, indexEvery), HalfSwapped(model, kept));
        model := HalfSwapped(model, kept);
        return false;
      }
      indexFile := index;
      model := SegRewrite(model, kept, indexEvery);
      return true;
    }

    static method Rebuild(crc: Checksum, kept: seq<Record>, every: int, ghost s: Seg) returns (log: Bytes, index: Bytes)
      requires SegOK(SegRewrite(s, kept, every))
      ensures log == LogBytes(crc, SegRewrite(s, kept, every))
      ensures index == EncodeIndex(SegRewrite(s, kept, every).index)
    {
      hide Encode, EncodeAll, EncodeEntry, EncodeIndex, Reindexed, Length, SegOK, IndexOK, Ascending;
      RewriteFits(s, kept, every);
      RebuildNone(crc, kept, every);
      var since := 0;
      log, index := MAGIC, [];
      assert MAGIC + [] == MAGIC;
      for i := 0 to |kept|
        invariant AllFit(kept[..i]) && IndexFits(Reindexed(kept[..i], every).0)
        invariant log == MAGIC + EncodeAll(crc, kept[..i])
        invariant index == EncodeIndex(Reindexed(kept[..i], every).0) && since == Reindexed(kept[..i], every).1
      {
        RebuildStep(crc, kept, i, every);
        var rec, pos := Encode(crc, kept[i]), |log|;
        log, since := log + rec, since + |rec|;
        if since >= every {
          index, since := index + EncodeEntry(IndexEntry(kept[i].offset, pos)), 0;
        }
      }
      assert kept[..|kept|] == kept;
    }

    lemma IndexOfStored()
      requires Stored()
      ensures IndexFits(model.index) && indexFile == EncodeIndex(model.index)
    {
    }
  }

  lemma FirstPosition(rs: seq<Record>)
    ensures PositionOf(rs, 0) == FILE_HEADER
  {
  }

  /** The files after a write. */
  lemma WriteBytes(crc: Checksum, s: Seg, r: Record, every: int)
    requires SegOK(s) && Fits(r) && FileSize(s) < TWO_63
    ensures var t := SegWrite(s, r, every);
            && AllFit(t.records) && LogBytes(crc, t) == LogBytes(crc, s) + Encode(crc, r)
            && FileSize(t) == FileSize(s) + Size(r)
            && IndexFits(t.index)
            && EncodeIndex(t.index) == EncodeIndex(s.index)
               + (if |t.index| > |s.index| then EncodeEntry(IndexEntry(r.offset, FileSize(s))) else [])
  {
    hide IndexOK, Encode, EncodeEntry;
    var t := SegWrite(s, r, every);
    assert t.records[..|s.records|] == s.records;
    if |t.index| > |s.index| {
      assert t.index[..|s.index|] == s.index;
    }
  }

  lemma SafeBest(s: Seg, start: int) returns (j: nat)
    requires SegOK(s)
    ensures SafeStart(s.records, start, Best(s.index, start, FILE_HEADER), j)
  {
    hide IndexOK, Best, Length, AllFit;
    FirstPosition(s.records);
    assert SafeStart(s.records, start, FILE_HEADER, 0);
    j := BestIsSafe(s.records, s.index, start, FILE_HEADER);
  }

  lemma PrependNothing(rest: Result<seq<Record>>)
    ensures Prepend([], rest) == rest
  {
    if rest.Ok? {
      assert [] + rest.value == rest.value;
    }
  }

  lemma PrependMore(a: seq<Record>, b: seq<Record>, rest: Result<seq<Record>>)
    ensures Prepend(a, Prepend(b, rest)) == Prepend(a + b, rest)
  {
    if rest.Ok? {
      assert a + (b + rest.value) == a + b + rest.value;
    }
  }

  lemma RewriteSize(crc: Checksum, s: Seg)
    requires AllFit(s.records)
    ensures |LogBytes(crc, s)| == FileSize(s)
  {
  }

  /** The byte counter is not on disk. */
  lemma SinceIsFree(s: Seg)
    requires SegOK(s)
    ensures SegOK(s.(since := 0))
  {
  }

  lemma SameLog(crc: Checksum, s: Seg, t: Seg)
    requires AllFit(s.records) && s.records == t.records
    ensures LogBytes(crc, s) == LogBytes(crc, t)
  {
  }

  lemma RewriteFits(s: Seg, kept: seq<Record>, every: int)
    requires SegOK(SegRewrite(s, kept, every))
    ensures AllFit(kept) && Ascending(kept) && FILE_HEADER + Length(kept) < TWO_63
    ensures IndexFits(SegRewrite(s, kept, every).index)
  {
  }

  lemma LengthOfPrefix(rs: seq<Record>, i: nat)
    requires i <= |rs|
    ensures Length(rs[..i]) <= Length(rs)
  {
    hide Length;
    assert rs[..i] + rs[i..] == rs;
    LengthConcat(rs[..i], rs[i..]);
  }

  lemma EncodeStep(crc: Checksum, kept: seq<Record>, i: nat)
    requires AllFit(kept) && i < |kept|
    ensures AllFit(kept[..i]) && AllFit(kept[..i + 1])
    ensures EncodeAll(crc, kept[..i + 1]) == EncodeAll(crc, kept[..i]) + Encode(crc, kept[i])
  {
    hide Encode;
    assert kept[..i + 1][..i] == kept[..i];
  }

  lemma ReindexStep(kept: seq<Record>, i: nat, every: int)
    requires i < |kept|
    ensures Reindexed(kept[..i + 1], every)
         == Indexed(Reindexed(kept[..i], every).0, Reindexed(kept[..i], every).1, kept[..i], kept[i], every)
  {
    hide Indexed;
    assert kept[..i + 1][..i] == kept[..i];
  }

  lemma RebuildNone(crc: Checksum, kept: seq<Record>, every: int)
    ensures EncodeAll(crc, kept[..0]) == [] && Reindexed(kept[..0], every) == ([], 0) && EncodeIndex([]) == []
  {
  }

  /** One more record in the rebuilt files. */
  lemma RebuildStep(crc: Checksum, kept: seq<Record>, i: nat, every: int)
    requires AllFit(kept) && Ascending(kept) && i < |kept| && FILE_HEADER + Length(kept) < TWO_63
    ensures AllFit(kept[..i]) && AllFit(kept[..i + 1])
    ensures EncodeAll(crc, kept[..i + 1]) == EncodeAll(crc, kept[..i]) + Encode(crc, kept[i])
    ensures FILE_HEADER + Length(kept[..i]) < TWO_63
    ensures Reindexed(kept[..i + 1], every)
         == Indexed(Reindexed(kept[..i], every).0, Reindexed(kept[..i], every).1, kept[..i], kept[i], every)
    ensures IndexFits(Reindexed(kept[..i], every).0) && IndexFits(Reindexed(kept[..i + 1], every).0)
    ensures var index := Reindexed(kept[..i], every).0;
            EncodeIndex(index + [IndexEntry(kept[i].offset, FILE_HEADER + Length(kept[..i]))])
            == EncodeIndex(index) + EncodeEntry(IndexEntry(kept[i].offset, FILE_HEADER + Length(kept[..i])))
  {
    hide Encode, EncodeAll, EncodeEntry, EncodeIndex, IndexOK, Indexed, Reindexed, Length;
    LengthOfPrefix(kept, i);
    LengthOfPrefix(kept, i + 1);
    EncodeStep(crc, kept, i);
    ReindexStep(kept, i, every);
    ReindexedOK(kept[..i], every);
    ReindexedOK(kept[..i + 1], every);
    EncodeIndexMore(Reindexed(kept[..i], every).0, IndexEntry(kept[i].offset, FILE_HEADER + Length(kept[..i])));
  }

  lemma EncodeIndexMore(index: seq<IndexEntry>, e: IndexEntry)
    requires IndexFits(index) && EntryFits(e)
    ensures EncodeIndex(index + [e]) == EncodeIndex(index) + EncodeEntry(e)
  {
    assert (index + [e])[..|index|] == index;
  }
}
