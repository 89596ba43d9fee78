/**
 Log records on disk (version 2): a 27-byte header, the key, the stored payload. The payload's
 inner encoding and its compression are opaque. Everything holds for every checksum function.
 */
module Records {
  import opened Bytes

  const HEADER := 27
  const FILE_HEADER := 5

  const MAGIC: Bytes := [0x50, 0x53, 0x47, 0x32, 2]

  type Checksum = Bytes -> U32

  datatype Result<T> = Ok(value: T) | Err

  datatype Record = Record(offset: int, timestamp: int, codec: Byte, key: Bytes, payload: Bytes)

  predicate Fits(r: Record) {
    && 0 <= r.offset < TWO_63
    && -TWO_63 <= r.timestamp < TWO_63
    && |r.key| < 0x1_0000
    && |r.payload| < TWO_32
  }

  predicate AllFit(rs: seq<Record>) {
    forall i :: 0 <= i < |rs| ==> Fits(rs[i])
  }

  function Size(r: Record): (n: nat)
    ensures n >= HEADER
  {
    HEADER + |r.key| + |r.payload|
  }

  function Length(rs: seq<Record>): nat {
    if rs == [] then 0 else Length(rs[..|rs| - 1]) + Size(rs[|rs| - 1])
  }

  function Header(crc: Checksum, r: Record): (b: Bytes)
    requires Fits(r)
    ensures |b| == HEADER
  {
    Put(r.offset, 8) + Put(Unsigned(r.timestamp), 8) + Put(|r.key|, 2) + Put(|r.payload|, 4)
    + Put(crc(r.payload), 4) + [r.codec]
  }

  function Encode(crc: Checksum, r: Record): (b: Bytes)
    requires Fits(r)
    ensures |b| == Size(r)
  {
    Header(crc, r) + r.key + r.payload
  }

  function EncodeAll(crc: Checksum, rs: seq<Record>): (b: Bytes)
    requires AllFit(rs)
    ensures |b| == Length(rs)
  {
    if rs == [] then [] else EncodeAll(crc, rs[..|rs| - 1]) + Encode(crc, rs[|rs| - 1])
  }

  /** What reading a record at the start of `b` gives: nothing left (or a torn record), a checksum
      mismatch, or a record and its size. */
  datatype Decoded = End | Corrupt | Got(record: Record, size: nat)

  function Decode(crc: Checksum, b: Bytes): (d: Decoded)
    ensures d.Got? ==> d.size <= |b| && d.size == Size(d.record)
  {
    if |b| < HEADER then End
    else
      var keyLen, payloadLen := Take(b[16..18]), Take(b[18..22]);
      var size := HEADER + keyLen + payloadLen;
      if |b| < size then End
      else
        var payload := b[HEADER + keyLen..size];
        if crc(payload) != Take(b[22..26]) then Corrupt
        else
          Got(Record(Signed(Take(b[..8])), Signed(Take(b[8..16])), b[26], b[HEADER..HEADER + keyLen], payload), size)
  }

  /** The bytes of a record: offset, timestamp, length of key and of payload, checksum of the payload, codec, then key
      and payload; numbers have their least significant byte first. */
  lemma RecordLayout(crc: Checksum, r: Record)
    requires Fits(r)
    ensures var b := Encode(crc, r);
            && NumberAt(b, 0, 8, r.offset)
            && NumberAt(b, 8, 8, if r.timestamp < 0 then r.timestamp + TWO_64 else r.timestamp)
            && NumberAt(b, 16, 2, |r.key|) && NumberAt(b, 18, 4, |r.payload|)
            && NumberAt(b, 22, 4, crc(r.payload)) && b[26] == r.codec
            && b[27..27 + |r.key|] == r.key && b[27 + |r.key|..] == r.payload
  {
    hide Put, NumberAt, Encode, Header;
    var b, h := Encode(crc, r), Header(crc, r);
    EncodeParts(crc, r, []);
    HeaderParts(crc, r);
    assert b + [] == b && b[..27] == h;
    assert b[0..8] == h[..8] && b[8..16] == h[8..16] && b[16..18] == h[16..18];
    assert b[18..22] == h[18..22] && b[22..26] == h[22..26] && b[26] == h[26];
    NumberIsAt(b, 0, 8, r.offset);
    NumberIsAt(b, 8, 8, Unsigned(r.timestamp));
    NumberIsAt(b, 16, 2, |r.key|);
    NumberIsAt(b, 18, 4, |r.payload|);
    NumberIsAt(b, 22, 4, crc(r.payload));
    assert b[27 + |r.key|..] == b[27 + |r.key|..Size(r)];
  }

  lemma HeaderParts(crc: Checksum, r: Record)
    requires Fits(r)
    ensures var h := Header(crc, r);
            && h[..8] == Put(r.offset, 8) && h[8..16] == Put(Unsigned(r.timestamp), 8)
            && h[16..18] == Put(|r.key|, 2) && h[18..22] == Put(|r.payload|, 4)
            && h[22..26] == Put(crc(r.payload), 4) && h[26] == r.codec
  {
  }

  lemma HeaderFields(crc: Checksum, r: Record)
    requires Fits(r)
    ensures var h := Header(crc, r);
            && Signed(Take(h[..8])) == r.offset && Signed(Take(h[8..16])) == r.timestamp
            && Take(h[16..18]) == |r.key| && Take(h[18..22]) == |r.payload|
            && Take(h[22..26]) == crc(r.payload) && h[26] == r.codec
  {
    hide Header, Put, Take;
    HeaderParts(crc, r);
    SpanValues();
    TakePut(r.offset, 8);
    TakePut(Unsigned(r.timestamp), 8);
    TakePut(|r.key|, 2);
    TakePut(|r.payload|, 4);
    TakePut(crc(r.payload), 4);
  }

  lemma EncodeParts(crc: Checksum, r: Record, rest: Bytes)
    requires Fits(r)
    ensures var b, k := Encode(crc, r) + rest, HEADER + |r.key|;
            && b[..HEADER] == Header(crc, r) && b[HEADER..k] == r.key && b[k..Size(r)] == r.payload
            && b[Size(r)..] == rest
  {
    hide Header;
  }

  lemma DecodeEncode(crc: Checksum, r: Record, rest: Bytes)
    requires Fits(r)
    ensures Decode(crc, Encode(crc, r) + rest) == Got(r, Size(r))
    ensures (Encode(crc, r) + rest)[Size(r)..] == rest
  {
    hide Header, Encode, Take, Signed;
    var b := Encode(crc, r) + rest;
    EncodeParts(crc, r, rest);
    HeaderFields(crc, r);
    var h := b[..HEADER];
    assert b[..8] == h[..8] && b[8..16] == h[8..16] && b[16..18] == h[16..18];
    assert b[18..22] == h[18..22] && b[22..26] == h[22..26] && b[26] == h[26];
  }

  /** Encoding what was decoded gives back the bytes on disk, so copying a record verbatim and
      re-encoding it are the same. */
  lemma EncodeDecode(crc: Checksum, b: Bytes)
    requires Decode(crc, b).Got? && Decode(crc, b).record.offset >= 0
    ensures var d := Decode(crc, b); Fits(d.record) && Encode(crc, d.record) == b[..d.size]
  {
    hide Header, Put, Take, Span;
    var d := Decode(crc, b);
    HeaderOfDecoded(crc, b);
    var k := HEADER + |d.record.key|;
    assert b[..HEADER] + b[HEADER..k] + b[k..d.size] == b[..d.size];
  }

  lemma HeaderOfDecoded(crc: Checksum, b: Bytes)
    requires Decode(crc, b).Got? && Decode(crc, b).record.offset >= 0
    ensures var d := Decode(crc, b); Fits(d.record) && Header(crc, d.record) == b[..HEADER]
  {
    hide Put, Take, Span;
    SpanValues();
    PutTake(b[..8]);
    PutTake(b[8..16]);
    PutTake(b[16..18]);
    PutTake(b[18..22]);
    PutTake(b[22..26]);
    assert b[..8] + b[8..16] + b[16..18] + b[18..22] + b[22..26] + [b[26]] == b[..HEADER];
  }

  // ---------------------------------------------------------------------
  // Runs of records

  lemma {:induction false} LengthConcat(a: seq<Record>, b: seq<Record>)
    ensures Length(a + b) == Length(a) + Length(b)
  {
    if b == [] {
      assert a + b == a;
    } else {
      assert (a + b)[..|a + b| - 1] == a + b[..|b| - 1];
      LengthConcat(a, b[..|b| - 1]);
    }
  }

  lemma EncodeMore(crc: Checksum, rs: seq<Record>, r: Record)
    requires AllFit(rs) && Fits(r)
    ensures AllFit(rs + [r]) && EncodeAll(crc, rs + [r]) == EncodeAll(crc, rs) + Encode(crc, r)
  {
    hide Encode, Fits, Length;
    assert (rs + [r])[..|rs|] == rs;
  }

  lemma {:induction false} EncodeConcat(crc: Checksum, a: seq<Record>, b: seq<Record>)
    requires AllFit(a) && AllFit(b)
    ensures AllFit(a + b) && EncodeAll(crc, a + b) == EncodeAll(crc, a) + EncodeAll(crc, b)
  {
    hide Encode, EncodeAll, Fits, Length;
    if b == [] {
      assert a + b == a;
      DecodeNothing(crc);
    } else {
      var front, last := b[..|b| - 1], b[|b| - 1];
      EncodeConcat(crc, a, front);
      EncodeMore(crc, front, last);
      EncodeMore(crc, a + front, last);
      assert front + [last] == b && (a + front) + [last] == a + b;
    }
  }

  lemma EncodeOne(crc: Checksum, r: Record)
    requires Fits(r)
    ensures AllFit([r]) && EncodeAll(crc, [r]) == Encode(crc, r)
  {
    hide Encode;
    assert [r][..0] == [];
  }

  /** The bytes from the `j`-th record's position on are the records from the `j`-th on. */
  lemma EncodeFrom(crc: Checksum, rs: seq<Record>, j: nat)
    requires AllFit(rs) && j <= |rs|
    ensures Length(rs[..j]) <= Length(rs) && EncodeAll(crc, rs)[Length(rs[..j])..] == EncodeAll(crc, rs[j..])
  {
    hide EncodeAll, Length;
    EncodeConcat(crc, rs[..j], rs[j..]);
    assert rs[..j] + rs[j..] == rs;
  }

  /** A non-empty run decodes to its first record and leaves the rest. */
  lemma DecodeFirst(crc: Checksum, rs: seq<Record>)
    requires AllFit(rs) && rs != []
    ensures Decode(crc, EncodeAll(crc, rs)) == Got(rs[0], Size(rs[0]))
    ensures EncodeAll(crc, rs)[Size(rs[0])..] == EncodeAll(crc, rs[1..])
  {
    hide EncodeAll, Decode, Encode;
    assert [rs[0]] + rs[1..] == rs;
    EncodeConcat(crc, [rs[0]], rs[1..]);
    EncodeOne(crc, rs[0]);
    DecodeEncode(crc, rs[0], EncodeAll(crc, rs[1..]));
  }

  // ---------------------------------------------------------------------
  // Reading

  /** The records with offset at least `start`. */
  function From(rs: seq<Record>, start: int): seq<Record> {
    if rs == [] then []
    else if rs[0].offset >= start then [rs[0]] + From(rs[1..], start)
    else From(rs[1..], start)
  }

  /** At most `n` of them. */
  function First(rs: seq<Record>, n: int): seq<Record> {
    if n <= 0 then [] else if n < |rs| then rs[..n] else rs
  }

  lemma FirstMore(a: seq<Record>, b: seq<Record>, n: int)
    requires |a| <= n
    ensures First(a + b, n) == a + First(b, n - |a|)
  {
  }

  /** What a scan of the bytes `b` for up to `n` records from `start` on yields. */
  function ReadFrom(crc: Checksum, b: Bytes, start: int, n: int): Result<seq<Record>>
    decreases |b|
  {
    if n <= 0 then Ok([])
    else
      match Decode(crc, b)
      case End => Ok([])
      case Corrupt => Err
      case Got(r, size) =>
        if r.offset < start then ReadFrom(crc, b[size..], start, n)
        else Prepend([r], ReadFrom(crc, b[size..], start, n - 1))
  }

  function Prepend(rs: seq<Record>, rest: Result<seq<Record>>): Result<seq<Record>> {
    match rest
    case Ok(more) => Ok(rs + more)
    case Err => Err
  }

  lemma {:induction false} ReadRecords(crc: Checksum, rs: seq<Record>, start: int, n: int)
    requires AllFit(rs)
    ensures ReadFrom(crc, EncodeAll(crc, rs), start, n) == Ok(First(From(rs, start), n))
  {
    hide EncodeAll, Decode;
    if n > 0 {
      if rs == [] {
        DecodeNothing(crc);
      } else {
        DecodeFirst(crc, rs);
        ReadRecords(crc, rs[1..], start, if rs[0].offset < start then n else n - 1);
        FirstMore([rs[0]], From(rs[1..], start), n);
      }
    }
  }

  lemma DecodeNothing(crc: Checksum)
    ensures EncodeAll(crc, []) == [] && Decode(crc, []) == End
  {
  }
}
