/**
 The write-ahead log: length-prefixed, checksummed entries in one file, recovered
 after a crash by keeping the longest run of valid entries and cutting off the rest.
 Everything here holds for every checksum function.
 */
module Wal {
  import opened Bytes

  const HEADER := 16

  type Checksum = Bytes -> U32

  datatype Entry = Entry(offset: int, data: Bytes)

  predicate Fits(e: Entry) {
    -TWO_63 <= e.offset < TWO_63 && |e.data| < TWO_32
  }

  predicate AllFit(es: seq<Entry>) {
    forall i :: 0 <= i < |es| ==> Fits(es[i])
  }

  function Encode(crc: Checksum, e: Entry): (r: Bytes)
    requires Fits(e)
    ensures |r| == HEADER + |e.data|
  {
    Put(Unsigned(e.offset), 8) + Put(|e.data|, 4) + Put(crc(e.data), 4) + e.data
  }

  function EncodeAll(crc: Checksum, es: seq<Entry>): Bytes
    requires AllFit(es)
  {
    if es == [] then [] else Encode(crc, es[0]) + EncodeAll(crc, es[1..])
  }

  datatype Parsed = Stop | Got(entry: Entry, size: nat)

  /** The entry at the start of `b`: stop at a short header, short data or a wrong checksum. */
  function Parse(crc: Checksum, b: Bytes): Parsed {
    if |b| < HEADER then Stop
    else
      var length := Take(b[8..12]);
      if |b| < HEADER + length then Stop
      else
        var data := b[HEADER..HEADER + length];
        if crc(data) != Take(b[12..16]) then Stop
        else Got(Entry(Signed(Take(b[..8])), data), HEADER + length)
  }

  /** The longest run of valid entries at the start of `b`. */
  function Scan(crc: Checksum, b: Bytes): seq<Entry>
    decreases |b|
  {
    match Parse(crc, b)
    case Stop => []
    case Got(e, n) => [e] + Scan(crc, b[n..])
  }

  /** The bytes of an entry: eight of its offset, four of the length of its data, four of their checksum, then the data;
      numbers have their least significant byte first and negative ones count down from two to the 64th. */
  lemma EntryLayout(crc: Checksum, e: Entry)
    requires Fits(e)
    ensures var b := Encode(crc, e);
            && NumberAt(b, 0, 8, if e.offset < 0 then e.offset + TWO_64 else e.offset)
            && NumberAt(b, 8, 4, |e.data|) && NumberAt(b, 12, 4, crc(e.data)) && b[16..] == e.data
  {
    hide Put, NumberAt, Encode;
    var b := Encode(crc, e);
    EncodeParts(crc, e, []);
    assert b + [] == b;
    NumberIsAt(b, 0, 8, Unsigned(e.offset));
    NumberIsAt(b, 8, 4, |e.data|);
    NumberIsAt(b, 12, 4, crc(e.data));
  }

  lemma EncodeParts(crc: Checksum, e: Entry, rest: Bytes)
    requires Fits(e)
    ensures var b := Encode(crc, e) + rest;
            && b[..8] == Put(Unsigned(e.offset), 8) && b[8..12] == Put(|e.data|, 4) && b[12..16] == Put(crc(e.data), 4)
            && b[HEADER..HEADER + |e.data|] == e.data && b[HEADER + |e.data|..] == rest
  {
  }

  lemma ParseEncode(crc: Checksum, e: Entry, rest: Bytes)
    requires Fits(e)
    ensures Parse(crc, Encode(crc, e) + rest) == Got(e, HEADER + |e.data|)
  {
    EncodeParts(crc, e, rest);
    SpanValues();
    TakePut(Unsigned(e.offset), 8);
    TakePut(|e.data|, 4);
    TakePut(crc(e.data), 4);
  }

  /** What was parsed is exactly what was on disk. */
  lemma EncodeParse(crc: Checksum, b: Bytes)
    requires Parse(crc, b).Got?
    ensures var p := Parse(crc, b);
            && HEADER <= p.size <= |b| && Fits(p.entry) && p.size == HEADER + |p.entry.data|
            && Encode(crc, p.entry) == b[..p.size]
  {
    SpanValues();
    PutTake(b[..8]);
    PutTake(b[8..12]);
    PutTake(b[12..16]);
  }

  // ---------------------------------------------------------------------
  // Recovery

  /** Where recovery cuts the file. */
  function Cut(crc: Checksum, b: Bytes): nat
    decreases |b|
  {
    match Parse(crc, b)
    case Stop => 0
    case Got(_, n) => n + Cut(crc, b[n..])
  }

  /** Recovery keeps exactly the encoding of the entries it returns, and what follows is no valid entry. */
  lemma {:induction false} RecoveryIsExact(crc: Checksum, b: Bytes)
    ensures AllFit(Scan(crc, b)) && Cut(crc, b) <= |b|
    ensures EncodeAll(crc, Scan(crc, b)) == b[..Cut(crc, b)]
    ensures Parse(crc, b[Cut(crc, b)..]).Stop?
    decreases |b|
  {
    if Parse(crc, b).Got? {
      EncodeParse(crc, b);
      var n := Parse(crc, b).size;
      RecoveryIsExact(crc, b[n..]);
      var es, cut := Scan(crc, b[n..]), Cut(crc, b[n..]);
      assert Scan(crc, b)[1..] == es;
      assert b[..n] + b[n..][..cut] == b[..n + cut];
      assert b[n..][cut..] == b[n + cut..];
    }
  }

  /** Entries followed by something that is no valid entry are recovered, and nothing else is. */
  lemma {:induction false} ScanStops(crc: Checksum, es: seq<Entry>, tail: Bytes)
    requires AllFit(es) && Parse(crc, tail).Stop?
    ensures Scan(crc, EncodeAll(crc, es) + tail) == es
    ensures Cut(crc, EncodeAll(crc, es) + tail) == |EncodeAll(crc, es)|
    decreases |es|
  {
    if es == [] {
      assert EncodeAll(crc, es) + tail == tail;
    } else {
      var rest := EncodeAll(crc, es[1..]) + tail;
      assert EncodeAll(crc, es) + tail == Encode(crc, es[0]) + rest;
      ParseEncode(crc, es[0], rest);
      ScanStops(crc, es[1..], tail);
    }
  }

  /** Recovering a recovered file changes nothing. */
  lemma RecoveryIsIdempotent(crc: Checksum, b: Bytes)
    ensures var kept := b[..if Cut(crc, b) <= |b| then Cut(crc, b) else 0];
            Scan(crc, kept) == Scan(crc, b) && Cut(crc, kept) == |kept|
  {
    RecoveryIsExact(crc, b);
    ScanStops(crc, Scan(crc, b), []);
    assert EncodeAll(crc, Scan(crc, b)) + [] == b[..Cut(crc, b)];
  }

  /** No longer run of valid entries begins the file. */
  lemma {:induction false} RecoveryIsMaximal(crc: Checksum, b: Bytes, es: seq<Entry>)
    requires AllFit(es) && EncodeAll(crc, es) <= b
    ensures es <= Scan(crc, b)
    decreases |es|
  {
    if es != [] {
      var first := Encode(crc, es[0]);
      var rest := b[|first|..];
      assert b == first + rest;
      ParseEncode(crc, es[0], rest);
      assert EncodeAll(crc, es[1..]) <= rest;
      RecoveryIsMaximal(crc, rest, es[1..]);
    }
  }

  /** A strict prefix of an entry is never mistaken for one. */
  lemma TornEntryStops(crc: Checksum, e: Entry, k: nat)
    requires Fits(e) && k < HEADER + |e.data|
    ensures Parse(crc, Encode(crc, e)[..k]).Stop?
  {
    var b := Encode(crc, e)[..k];
    if k >= HEADER {
      EncodeParts(crc, e, []);
      assert (Encode(crc, e) + [])[8..12] == b[8..12];
      SpanValues();
      TakePut(|e.data|, 4);
    }
  }

  /** A crash while writing one more entry loses that entry and no other. */
  lemma TornWriteIsCutOff(crc: Checksum, es: seq<Entry>, e: Entry, k: nat)
    requires AllFit(es) && Fits(e) && k < HEADER + |e.data|
    ensures var b := EncodeAll(crc, es) + Encode(crc, e)[..k];
            Scan(crc, b) == es && Cut(crc, b) == |EncodeAll(crc, es)|
  {
    TornEntryStops(crc, e, k);
    ScanStops(crc, es, Encode(crc, e)[..k]);
  }

  lemma {:induction false} EncodeAllAppend(crc: Checksum, es: seq<Entry>, e: Entry)
    requires AllFit(es) && Fits(e)
    ensures EncodeAll(crc, es + [e]) == EncodeAll(crc, es) + Encode(crc, e)
  {
    if es == [] {
      assert es + [e] == [e];
      assert EncodeAll(crc, [e][1..]) == [];
    } else {
      EncodeAllAppend(crc, es[1..], e);
      assert (es + [e])[1..] == es[1..] + [e];
    }
  }

  // ---------------------------------------------------------------------
  // The log object

  /** The given payloads, numbered from zero: what a log holds after those appends. */
  function Numbered(ds: seq<Bytes>): seq<Entry> {
    seq(|ds|, i requires 0 <= i < |ds| => Entry(i, ds[i]))
  }

  predicate Small(ds: seq<Bytes>) {
    |ds| < TWO_63 && forall i :: 0 <= i < |ds| ==> |ds[i]| < TWO_32
  }

  function MaxOffset(es: seq<Entry>, m: int): int {
    if es == [] then m else MaxOffset(es[1..], if es[0].offset > m then es[0].offset else m)
  }

  class Log {
    const crc: Checksum
    var file: Bytes
    var nextOffset: int

    /** The file holds the payloads in order and the next append gets the next number. */
    ghost predicate Holds(ds: seq<Bytes>)
      reads this
    {
      Small(ds) && file == EncodeAll(crc, Numbered(ds)) && nextOffset == |ds|
    }

    /** A file just opened, before recovery has looked at it. */
    constructor (checksum: Checksum, contents: Bytes)
      ensures crc == checksum && file == contents && nextOffset == 0
    {
      crc, file, nextOffset := checksum, contents, 0;
    }

    /** Read entries from the start until one is partial or corrupt. */
    method ReadEntries() returns (entries: seq<Entry>, maxOffset: int, pos: nat)
      ensures entries == Scan(crc, file) && pos == Cut(crc, file) <= |file|
      ensures maxOffset == MaxOffset(entries, -1)
    {
      MaxOffsetAtLeast([], -1);
      hide Parse, Scan, Cut, MaxOffset;
      entries, maxOffset, pos := [], -1, 0;
      assert file[0..] == file;
      var p := Parse(crc, file);
      while p.Got?
        invariant 0 <= pos <= |file| && p == Parse(crc, file[pos..])
        invariant entries + Scan(crc, file[pos..]) == Scan(crc, file)
        invariant pos + Cut(crc, file[pos..]) == Cut(crc, file)
        invariant maxOffset == MaxOffset(entries, -1)
        decreases |file| - pos
      {
        ScanStep(crc, file, pos);
        MaxOffsetAppend(entries, p.entry, -1);
        assert entries + ([p.entry] + Scan(crc, file[pos + p.size..]))
               == entries + [p.entry] + Scan(crc, file[pos + p.size..]);
        entries := entries + [p.entry];
        if p.entry.offset > maxOffset {
          maxOffset := p.entry.offset;
        }
        pos := pos + p.size;
        p := Parse(crc, file[pos..]);
      }
      ScanStep(crc, file, pos);
      assert entries + [] == entries;
    }

    method Recover() returns (entries: seq<Entry>)
      requires nextOffset == 0
      modifies this
      ensures entries == Scan(crc, old(file))
      ensures Cut(crc, old(file)) <= |old(file)| && file == old(file)[..Cut(crc, old(file))]
      ensures nextOffset == MaxOffset(entries, -1) + 1
    {
      var maxOffset, truncateTo;
      entries, maxOffset, truncateTo := ReadEntries();
      MaxOffsetAtLeast(entries, -1);
      file := file[..truncateTo];
      if maxOffset >= 0 {
        nextOffset := maxOffset + 1;
      }
    }

    method WriteEntry(offset: int, data: Bytes)
      requires Fits(Entry(offset, data))
      modifies this`file
      ensures file == old(file) + Encode(crc, Entry(offset, data))
    {
      var header := Put(Unsigned(offset), 8) + Put(|data|, 4) + Put(crc(data), 4);
      file := file + header;
      file := file + data;
      assert file == old(file) + (header + data);
    }

    method Append(data: Bytes, ghost ds: seq<Bytes>) returns (offset: int)
      requires Holds(ds) && Small(ds + [data])
      modifies this`file, this`nextOffset
      ensures Holds(ds + [data]) && offset == |ds|
    {
      NumberedAppend(crc, ds, data);
      offset := nextOffset;
      WriteEntry(offset, data);
      nextOffset := nextOffset + 1;
    }

    /** Replace the whole contents. */
    method Truncate(entries: seq<Bytes>)
      requires Small(entries)
      modifies this`file, this`nextOffset
      ensures Holds(entries)
    {
      file := [];
      nextOffset := 0;
      for i := 0 to |entries|
        invariant Holds(entries[..i])
      {
        assert entries[..i + 1] == entries[..i] + [entries[i]];
        var _ := Append(entries[i], entries[..i]);
      }
      assert entries[..|entries|] == entries;
    }
  }

  lemma NumberedAppend(crc: Checksum, ds: seq<Bytes>, data: Bytes)
    requires Small(ds + [data])
    ensures Small(ds) && AllFit(Numbered(ds)) && Fits(Entry(|ds|, data))
    ensures Numbered(ds + [data]) == Numbered(ds) + [Entry(|ds|, data)]
    ensures EncodeAll(crc, Numbered(ds + [data])) == EncodeAll(crc, Numbered(ds)) + Encode(crc, Entry(|ds|, data))
  {
    assert Small(ds) by {
      forall i | 0 <= i < |ds| ensures |ds[i]| < TWO_32 {
        assert (ds + [data])[i] == ds[i];
      }
    }
    assert |(ds + [data])[|ds|]| < TWO_32;
    EncodeAllAppend(crc, Numbered(ds), Entry(|ds|, data));
  }

  lemma ScanStep(crc: Checksum, file: Bytes, pos: nat)
    requires pos <= |file|
    ensures match Parse(crc, file[pos..])
            case Stop => Scan(crc, file[pos..]) == [] && Cut(crc, file[pos..]) == 0
            case Got(e, n) =>
              && 0 < n && pos + n <= |file|
              && Scan(crc, file[pos..]) == [e] + Scan(crc, file[pos + n..])
              && Cut(crc, file[pos..]) == n + Cut(crc, file[pos + n..])
  {
    var p := Parse(crc, file[pos..]);
    if p.Got? {
      assert file[pos..][p.size..] == file[pos + p.size..];
    }
  }

  lemma {:induction false} MaxOffsetAtLeast(es: seq<Entry>, m: int)
    ensures MaxOffset(es, m) >= m
    ensures es == [] ==> MaxOffset(es, m) == m
  {
    if es != [] {
      MaxOffsetAtLeast(es[1..], if es[0].offset > m then es[0].offset else m);
    }
  }

  lemma {:induction false} MaxOffsetAppend(es: seq<Entry>, e: Entry, m: int)
    ensures MaxOffset(es + [e], m) == if e.offset > MaxOffset(es, m) then e.offset else MaxOffset(es, m)
  {
    if es == [] {
      assert es + [e] == [e];
      assert MaxOffset([e][1..], e.offset) == e.offset;
    } else {
      assert (es + [e])[1..] == es[1..] + [e];
      MaxOffsetAppend(es[1..], e, if es[0].offset > m then es[0].offset else m);
    }
  }

  lemma {:induction false} MaxOffsetNumbered(ds: seq<Bytes>)
    ensures MaxOffset(Numbered(ds), -1) == |ds| - 1
  {
    if ds != [] {
      var front := ds[..|ds| - 1];
      MaxOffsetNumbered(front);
      assert Numbered(ds) == Numbered(front) + [Entry(|front|, ds[|front|])];
      MaxOffsetAppend(Numbered(front), Entry(|front|, ds[|front|]), -1);
    }
  }

  // ---------------------------------------------------------------------
  // Runs with crashes

  /** Either the whole entry reaches the disk, or a crash leaves only its first `bytes` bytes and the log is
      reopened; or the log is replaced, or a crash stops the replacement after `done` entries and `bytes`
      bytes of the next. */
  datatype Op =
    | Write(data: Bytes)
    | Crash(data: Bytes, bytes: nat)
    | Replace(entries: seq<Bytes>)
    | CrashInReplace(entries: seq<Bytes>, done: nat, bytes: nat)

  predicate OpFits(op: Op) {
    if op.Replace? || op.CrashInReplace? then Small(op.entries) else |op.data| < TWO_32
  }

  /** What the log holds after one operation: an entry survives if it was written in full. Replacing is not
      atomic: the old entries are gone as soon as it starts. */
  function Survive(ds: seq<Bytes>, op: Op): seq<Bytes> {
    match op
    case Write(d) => ds + [d]
    case Crash(d, n) => if n < HEADER + |d| then ds else ds + [d]
    case Replace(es) => es
    case CrashInReplace(es, done, n) =>
      if done >= |es| then es else if n < HEADER + |es[done]| then es[..done] else es[..done] + [es[done]]
  }

  function Survivors(ops: seq<Op>): seq<Bytes> {
    if ops == [] then [] else Survive(Survivors(ops[..|ops| - 1]), ops[|ops| - 1])
  }

  /** The file after recovery. */
  function Recovered(crc: Checksum, file: Bytes): Bytes {
    file[..if Cut(crc, file) <= |file| then Cut(crc, file) else 0]
  }

  /** The file after at most `bytes` bytes of one more entry and a recovery; the next offset is the one
      recovery computes. */
  function FileAdd(crc: Checksum, file: Bytes, data: Bytes, bytes: nat): Bytes
    requires |data| < TWO_32
  {
    var next := MaxOffset(Scan(crc, file), -1) + 1;
    if !Fits(Entry(next, data)) then file
    else
      var e := Encode(crc, Entry(next, data));
      if bytes >= |e| then Recovered(crc, file + e) else Recovered(crc, file + e[..bytes])
  }

  function FileOf(crc: Checksum, ds: seq<Bytes>): Bytes
    requires Small(ds)
  {
    NumberedFit(ds);
    EncodeAll(crc, Numbered(ds))
  }

  /** The file after one operation on it. */
  function FileNext(crc: Checksum, file: Bytes, op: Op): Bytes
    requires OpFits(op)
  {
    match op
    case Write(d) => FileAdd(crc, file, d, HEADER + |d|)
    case Crash(d, n) => FileAdd(crc, file, d, n)
    case Replace(es) => FileOf(crc, es)
    case CrashInReplace(es, done, n) =>
      if done >= |es| then FileOf(crc, es) else FileAdd(crc, FileOf(crc, es[..done]), es[done], n)
  }

  function FileAfter(crc: Checksum, ops: seq<Op>): Bytes
    requires forall i :: 0 <= i < |ops| ==> OpFits(ops[i])
  {
    if ops == [] then [] else FileNext(crc, FileAfter(crc, ops[..|ops| - 1]), ops[|ops| - 1])
  }

  lemma NumberedFit(ds: seq<Bytes>)
    requires Small(ds)
    ensures AllFit(Numbered(ds))
  {
  }

  lemma NothingStops(crc: Checksum)
    ensures Parse(crc, []).Stop?
  {
  }

  lemma RecoveredWhole(crc: Checksum, es: seq<Entry>, tail: Bytes)
    requires AllFit(es) && Parse(crc, tail).Stop?
    ensures Recovered(crc, EncodeAll(crc, es) + tail) == EncodeAll(crc, es)
  {
    ScanStops(crc, es, tail);
  }

  /** Adding to a well-formed file: the entry is there if all its bytes are, and otherwise nothing of it is. */
  lemma OneEntry(crc: Checksum, ds: seq<Bytes>, data: Bytes, bytes: nat)
    requires Small(ds) && |ds| + 1 < TWO_63 && |data| < TWO_32
    ensures var after := if bytes < HEADER + |data| then ds else ds + [data];
            Small(after) && FileAdd(crc, FileOf(crc, ds), data, bytes) == FileOf(crc, after)
  {
    hide Parse, Scan, Cut, Recovered, EncodeAll, MaxOffset;
    NumberedFit(ds);
    var es, file := Numbered(ds), EncodeAll(crc, Numbered(ds));
    NothingStops(crc);
    ScanStops(crc, es, []);
    assert file + [] == file;
    MaxOffsetNumbered(ds);
    var e := Entry(|ds|, data);
    if bytes < HEADER + |data| {
      TornEntryStops(crc, e, bytes);
      RecoveredWhole(crc, es, Encode(crc, e)[..bytes]);
    } else {
      NumberedAppend(crc, ds, data);
      RecoveredWhole(crc, Numbered(ds + [data]), []);
      assert file + Encode(crc, e) + [] == file + Encode(crc, e);
    }
  }

  lemma OneOperation(crc: Checksum, ds: seq<Bytes>, op: Op)
    requires Small(ds) && |ds| + 1 < TWO_63 && OpFits(op)
    ensures Small(Survive(ds, op)) && FileNext(crc, FileOf(crc, ds), op) == FileOf(crc, Survive(ds, op))
  {
    hide FileAdd, FileOf;
    match op
    case Write(d) => OneEntry(crc, ds, d, HEADER + |d|);
    case Crash(d, n) => OneEntry(crc, ds, d, n);
    case Replace(es) =>
    case CrashInReplace(es, done, n) =>
      if done < |es| {
        OneEntry(crc, es[..done], es[done], n);
      }
  }

  /** Over any run of writes and replacements, with crashes at any byte of either, the log holds exactly the
      payloads written in full since the last replacement began, in order and numbered from zero. */
  lemma {:induction false} SurvivorsAreKept(crc: Checksum, ops: seq<Op>)
    requires forall i :: 0 <= i < |ops| ==> OpFits(ops[i])
    requires forall i :: 0 <= i <= |ops| ==> |Survivors(ops[..i])| + 1 < TWO_63
    ensures Small(Survivors(ops)) && AllFit(Numbered(Survivors(ops)))
    ensures FileAfter(crc, ops) == FileOf(crc, Survivors(ops))
    ensures Scan(crc, FileAfter(crc, ops)) == Numbered(Survivors(ops))
    ensures MaxOffset(Scan(crc, FileAfter(crc, ops)), -1) + 1 == |Survivors(ops)|
    decreases |ops|
  {
    var ds := Survivors(ops);
    if ops != [] {
      var front := ops[..|ops| - 1];
      assert forall i :: 0 <= i <= |front| ==> front[..i] == ops[..i];
      SurvivorsAreKept(crc, front);
      assert ops[..|ops| - 1] == front;
      OneOperation(crc, Survivors(front), ops[|ops| - 1]);
    }
    ScanStops(crc, Numbered(ds), []);
    assert FileAfter(crc, ops) + [] == FileAfter(crc, ops);
    MaxOffsetNumbered(ds);
  }
}
