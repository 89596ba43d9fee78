/**
 The consumer-offset log: commits are appended, replay keeps the last value of each
 "group/topic/partition" key, and a checkpoint replaces the whole history by one record
 per key of the current snapshot. The record format itself is an opaque injective encoding.
 */
module OffsetWal {
  import opened Options

  datatype OffsetRecord = OffsetRecord(group: string, topic: string, partition: int, offset: int)

  predicate IsInt32(p: int) {
    -0x8000_0000 <= p < 0x8000_0000
  }

  // ---------------------------------------------------------------------
  // Decimal numbers

  predicate IsDigit(c: char) {
    '0' <= c <= '9'
  }

  function DigitValue(c: char): int {
    (c as int) - ('0' as int)
  }

  function Digit(d: nat): char
    requires d < 10
  {
    ('0' as int + d) as char
  }

  function Digits(n: nat): (s: string)
    ensures s != [] && forall i :: 0 <= i < |s| ==> IsDigit(s[i])
  {
    if n < 10 then [Digit(n)] else Digits(n / 10) + [Digit(n % 10)]
  }

  function Value(s: string): int {
    if s == [] then 0 else Value(s[..|s| - 1]) * 10 + DigitValue(s[|s| - 1])
  }

  lemma {:induction false} ValueOfDigits(n: nat)
    ensures Value(Digits(n)) == n
  {
    if n >= 10 {
      ValueOfDigits(n / 10);
      assert Digits(n)[..|Digits(n)| - 1] == Digits(n / 10);
    } else {
      assert Digits(n)[..0] == [];
    }
  }

  function Itoa(p: int): string {
    if p < 0 then "-" + Digits(-p) else Digits(p)
  }

  /** How many digits the string starts with. */
  function DigitRun(s: string): (n: nat)
    ensures n <= |s| && forall i :: 0 <= i < n ==> IsDigit(s[i])
    ensures n < |s| ==> !IsDigit(s[n])
  {
    if s == [] || !IsDigit(s[0]) then 0 else 1 + DigitRun(s[1..])
  }

  /** Scan a decimal 32-bit integer: blanks, a sign, digits; whatever follows the digits is ignored. */
  function ScanInt32(s: string): Option<int> {
    if s != [] && s[0] == ' ' then ScanInt32(s[1..])
    else
      var signed := s != [] && (s[0] == '-' || s[0] == '+');
      var body := if signed then s[1..] else s;
      var run := DigitRun(body);
      var v := if signed && s[0] == '-' then -Value(body[..run]) else Value(body[..run]);
      if run == 0 || !IsInt32(v) then None else Some(v)
  }

  lemma ScanPlain(s: string, n: int)
    requires s != [] && IsDigit(s[0]) && Value(s[..DigitRun(s)]) == n
    ensures ScanInt32(s) == if IsInt32(n) then Some(n) else None
  {
    hide Value;
  }

  lemma ScanMinus(s: string, n: int)
    requires s != [] && IsDigit(s[0]) && Value(s[..DigitRun(s)]) == n
    ensures ScanInt32("-" + s) == if IsInt32(-n) then Some(-n) else None
  {
    hide Value, DigitRun;
    assert ("-" + s)[1..] == s;
    assert DigitRun(s) > 0;
  }

  /** A printed number is read back if it fits into 32 bits, whatever follows it that is no digit; otherwise reading
      fails. */
  lemma ScanDecimal(n: int, rest: string)
    requires n >= 0 && (rest != [] ==> !IsDigit(rest[0]))
    ensures ScanInt32(Digits(n) + rest) == if n < 0x8000_0000 then Some(n) else None
    ensures ScanInt32("-" + (Digits(n) + rest)) == if n <= 0x8000_0000 then Some(-n) else None
  {
    hide Digits, Value, DigitRun, ScanInt32;
    var d := Digits(n);
    var body := d + rest;
    RunOfDigits(d, rest);
    ValueOfDigits(n);
    assert body[..|d|] == d && IsDigit(body[0]);
    ScanPlain(body, n);
    ScanMinus(body, n);
  }

  lemma {:induction false} RunOfDigits(d: string, rest: string)
    requires (forall i :: 0 <= i < |d| ==> IsDigit(d[i])) && (rest != [] ==> !IsDigit(rest[0]))
    ensures DigitRun(d + rest) == |d|
  {
    if d == [] {
      assert d + rest == rest;
    } else {
      RunOfDigits(d[1..], rest);
      assert (d + rest)[1..] == d[1..] + rest;
    }
  }

  lemma ScanItoa(p: int)
    requires IsInt32(p)
    ensures ScanInt32(Itoa(p)) == Some(p)
  {
    hide Digits, ScanInt32;
    var n := if p < 0 then -p else p;
    ScanDecimal(n, []);
    assert Digits(n) + [] == Digits(n);
  }

  // ---------------------------------------------------------------------
  // Keys

  function OffsetKey(group: string, topic: string, partition: int): string {
    group + "/" + topic + "/" + Itoa(partition)
  }

  function FirstSlash(s: string): (i: int)
    ensures -1 <= i < |s|
    ensures i >= 0 ==> s[i] == '/' && forall j :: 0 <= j < i ==> s[j] != '/'
    ensures i < 0 ==> forall j :: 0 <= j < |s| ==> s[j] != '/'
  {
    if s == [] then -1
    else if s[0] == '/' then 0
    else
      var i := FirstSlash(s[1..]);
      assert forall j :: 1 <= j < |s| ==> s[j] == s[1..][j - 1];
      if i < 0 then -1 else i + 1
  }

  function LastSlash(s: string): (i: int)
    ensures -1 <= i < |s|
    ensures i >= 0 ==> s[i] == '/'
    ensures forall j :: i < j < |s| ==> s[j] != '/'
  {
    if s == [] then -1
    else if s[|s| - 1] == '/' then |s| - 1
    else LastSlash(s[..|s| - 1])
  }

  function ParseOffsetKey(key: string, offset: int): Option<OffsetRecord> {
    var last := LastSlash(key);
    if last < 0 then None
    else
      var groupTopic := key[..last];
      var mid := FirstSlash(groupTopic);
      if mid < 0 then None
      else
        match ScanInt32(key[last + 1..])
        case None => None
        case Some(p) => Some(OffsetRecord(groupTopic[..mid], groupTopic[mid + 1..], p, offset))
  }

  function KeyOf(r: OffsetRecord): string {
    OffsetKey(r.group, r.topic, r.partition)
  }

  lemma ItoaHasNoSlash(p: int)
    ensures forall i :: 0 <= i < |Itoa(p)| ==> Itoa(p)[i] != '/'
  {
  }

  lemma InTail(names: string, tail: string, i: int)
    requires i < |names| + 1 + |tail|
    ensures |names| < i ==> (names + "/" + tail)[i] == tail[i - |names| - 1]
  {
  }

  lemma SplitLast(names: string, tail: string)
    requires forall i :: 0 <= i < |tail| ==> tail[i] != '/'
    ensures LastSlash(names + "/" + tail) == |names|
  {
    hide LastSlash;
    var s := names + "/" + tail;
    var last := LastSlash(s);
    assert s[|names|] == '/';
    InTail(names, tail, last);
  }

  lemma SplitFirst(group: string, topic: string)
    ensures var s := group + "/" + topic; var mid := FirstSlash(s);
            && 0 <= mid <= |group|
            && s[..mid] + "/" + s[mid + 1..] == s
            && (s[..mid] == group && s[mid + 1..] == topic <==> '/' !in group)
  {
    hide FirstSlash;
    var s := group + "/" + topic;
    var mid := FirstSlash(s);
    assert s[|group|] == '/';
    assert forall j :: 0 <= j < |group| ==> s[j] == group[j];
    if mid == |group| {
      assert s[..mid] == group && s[mid + 1..] == topic;
    } else {
      assert group[mid] == '/';
      assert |s[..mid]| < |group|;
    }
  }

  /** A generated key parses back to a record with the same key, even when names contain slashes;
      the names themselves come back exactly when the group has none. */
  lemma KeyRoundTrip(group: string, topic: string, partition: int, offset: int)
    requires IsInt32(partition)
    ensures var r := ParseOffsetKey(OffsetKey(group, topic, partition), offset);
            && r.Some? && KeyOf(r.value) == OffsetKey(group, topic, partition)
            && r.value.partition == partition && r.value.offset == offset
            && (r.value.group == group && r.value.topic == topic <==> '/' !in group)
  {
    hide FirstSlash, LastSlash, Itoa, ScanInt32;
    var names, tail := group + "/" + topic, Itoa(partition);
    var key := OffsetKey(group, topic, partition);
    assert key == names + "/" + tail;
    ItoaHasNoSlash(partition);
    SplitLast(names, tail);
    assert key[..|names|] == names && key[|names| + 1..] == tail;
    ScanItoa(partition);
    SplitFirst(group, topic);
  }

  // ---------------------------------------------------------------------
  // Replay: the last write of each key wins

  function Replay(log: seq<OffsetRecord>): map<string, int> {
    if log == [] then map[]
    else
      var last := log[|log| - 1];
      Replay(log[..|log| - 1])[KeyOf(last) := last.offset]
  }

  /** Record `i` is the last one of its key. */
  ghost predicate IsLast(log: seq<OffsetRecord>, i: nat, key: string) {
    i < |log| && KeyOf(log[i]) == key && forall j :: i < j < |log| ==> KeyOf(log[j]) != key
  }

  lemma {:induction false} ReplayIsLastWrite(log: seq<OffsetRecord>, i: nat, key: string)
    requires IsLast(log, i, key)
    ensures key in Replay(log) && Replay(log)[key] == log[i].offset
  {
    hide KeyOf;
    var front := log[..|log| - 1];
    if i < |front| {
      assert KeyOf(log[|log| - 1]) != key;
      ReplayIsLastWrite(front, i, key);
    }
  }

  lemma {:induction false} ReplayHoldsWrittenKeys(log: seq<OffsetRecord>, key: string)
    ensures key in Replay(log) <==> exists i :: 0 <= i < |log| && KeyOf(log[i]) == key
  {
    hide KeyOf;
    if log != [] {
      var front := log[..|log| - 1];
      ReplayHoldsWrittenKeys(front, key);
      assert forall i :: 0 <= i < |front| ==> front[i] == log[i];
    }
  }

  // ---------------------------------------------------------------------
  // Checkpoint

  /** A key that a checkpoint writes back under the same name. */
  predicate Canonical(key: string) {
    ParseOffsetKey(key, 0).Some? && KeyOf(ParseOffsetKey(key, 0).value) == key
  }

  predicate AllCanonical(m: map<string, int>) {
    forall k :: k in m ==> Canonical(k)
  }

  predicate Generated(r: OffsetRecord) {
    IsInt32(r.partition)
  }

  lemma GeneratedIsCanonical(r: OffsetRecord)
    requires Generated(r)
    ensures Canonical(KeyOf(r))
  {
    hide ParseOffsetKey;
    KeyRoundTrip(r.group, r.topic, r.partition, 0);
  }

  /** The record a checkpoint writes for one key. */
  lemma ParsedRecord(key: string, offset: int)
    ensures ParseOffsetKey(key, offset).Some? == ParseOffsetKey(key, 0).Some?
    ensures Canonical(key) ==>
              KeyOf(ParseOffsetKey(key, offset).value) == key && ParseOffsetKey(key, offset).value.offset == offset
  {
    hide KeyOf, ScanInt32, FirstSlash, LastSlash;
    if ParseOffsetKey(key, offset).Some? {
      SameKey(ParseOffsetKey(key, offset).value, ParseOffsetKey(key, 0).value);
    }
  }

  lemma SameKey(a: OffsetRecord, b: OffsetRecord)
    requires a.group == b.group && a.topic == b.topic && a.partition == b.partition
    ensures KeyOf(a) == KeyOf(b)
  {
  }

  /** `log` replays to the part of `snapshot` outside `todo`. */
  ghost predicate Written(log: seq<OffsetRecord>, snapshot: map<string, int>, todo: set<string>) {
    var m := Replay(log);
    && (forall k :: k in m <==> k in snapshot && k !in todo)
    && (forall k :: k in m ==> m[k] == snapshot[k])
  }

  lemma WriteOne(log: seq<OffsetRecord>, snapshot: map<string, int>, todo: set<string>, r: OffsetRecord)
    requires Written(log, snapshot, todo)
    requires KeyOf(r) in todo && KeyOf(r) in snapshot && r.offset == snapshot[KeyOf(r)]
    ensures Written(log + [r], snapshot, todo - {KeyOf(r)})
  {
    hide KeyOf;
    assert (log + [r])[..|log|] == log;
  }

  /** The offset log and the offset store it backs. */
  class OffsetLog {
    var records: seq<OffsetRecord>
    var commitCount: nat

    constructor ()
      ensures records == [] && commitCount == 0
    {
      records, commitCount := [], 0;
    }

    method Commit(group: string, topic: string, partition: int, offset: int)
      requires IsInt32(partition)
      modifies this
      ensures Replay(records) == old(Replay(records))[OffsetKey(group, topic, partition) := offset]
      ensures records == old(records) + [OffsetRecord(group, topic, partition, offset)]
      ensures commitCount == old(commitCount) + 1
    {
      var r := OffsetRecord(group, topic, partition, offset);
      records, commitCount := records + [r], commitCount + 1;
      assert records[..|records| - 1] == old(records);
    }

    method ReplayAll() returns (result: map<string, int>)
      ensures result == Replay(records)
    {
      hide KeyOf;
      result := map[];
      for i := 0 to |records|
        invariant result == Replay(records[..i])
      {
        var rec := records[i];
        assert records[..i + 1][..i] == records[..i];
        result := result[KeyOf(rec) := rec.offset];
      }
      assert records[..|records|] == records;
    }

    /** One record per key of the snapshot, in whatever order the map is walked. */
    static method SnapshotRecords(snapshot: map<string, int>) returns (ok: bool, entries: seq<OffsetRecord>)
      ensures ok <==> forall k :: k in snapshot ==> ParseOffsetKey(k, snapshot[k]).Some?
      ensures ok ==> |entries| == |snapshot|
      ensures AllCanonical(snapshot) ==> ok && Replay(entries) == snapshot
    {
      hide ParseOffsetKey, KeyOf, Replay;
      var todo := snapshot.Keys;
      ok, entries := true, [];
      assert Replay([]) == map[] by { EmptyReplay(); }
      while todo != {}
        invariant todo <= snapshot.Keys
        invariant |entries| + |todo| == |snapshot.Keys|
        invariant forall k :: k in snapshot && k !in todo ==> ParseOffsetKey(k, snapshot[k]).Some?
        invariant AllCanonical(snapshot) ==> Written(entries, snapshot, todo)
        decreases todo
      {
        var key :| key in todo;
        var rec := ParseOffsetKey(key, snapshot[key]);
        ParsedRecord(key, snapshot[key]);
        if rec.None? {
          ok := false;
          return;
        }
        if AllCanonical(snapshot) {
          WriteOne(entries, snapshot, todo, rec.value);
        }
        entries := entries + [rec.value];
        todo := todo - {key};
      }
      assert |snapshot| == |snapshot.Keys|;
    }

    method Checkpoint(snapshot: map<string, int>) returns (ok: bool)
      modifies this
      ensures ok <==> forall k :: k in snapshot ==> ParseOffsetKey(k, snapshot[k]).Some?
      ensures ok ==> |records| == |snapshot| && commitCount == 0
      ensures !ok ==> records == old(records) && commitCount == old(commitCount)
      ensures AllCanonical(snapshot) ==> ok && Replay(records) == snapshot
    {
      hide ParseOffsetKey, Replay, Canonical;
      var entries;
      ok, entries := SnapshotRecords(snapshot);
      if ok {
        records, commitCount := entries, 0;
      }
    }
  }

  lemma EmptyReplay()
    ensures Replay([]) == map[]
  {
  }

  // ---------------------------------------------------------------------
  // Runs

  /** `rewritten` is what a walk over the snapshot in the order `keys` writes. */
  ghost predicate Walk(keys: seq<string>, rewritten: seq<OffsetRecord>, snapshot: map<string, int>) {
    && |keys| == |rewritten|
    && (forall k :: k in snapshot <==> k in keys)
    && (forall i, j :: 0 <= i < j < |keys| ==> keys[i] != keys[j])
    && (forall i :: 0 <= i < |keys| ==>
                      keys[i] in snapshot && ParseOffsetKey(keys[i], snapshot[keys[i]]) == Some(rewritten[i]))
  }

  ghost predicate IsCheckpoint(rewritten: seq<OffsetRecord>, snapshot: map<string, int>) {
    exists keys: seq<string> :: Walk(keys, rewritten, snapshot)
  }

  lemma WalkKeys(keys: seq<string>, rewritten: seq<OffsetRecord>, snapshot: map<string, int>)
    requires Walk(keys, rewritten, snapshot) && AllCanonical(snapshot)
    ensures forall i :: 0 <= i < |keys| ==> KeyOf(rewritten[i]) == keys[i] && rewritten[i].offset == snapshot[keys[i]]
  {
    hide ParseOffsetKey, KeyOf;
    forall i | 0 <= i < |keys|
      ensures KeyOf(rewritten[i]) == keys[i] && rewritten[i].offset == snapshot[keys[i]]
    {
      ParsedRecord(keys[i], snapshot[keys[i]]);
    }
  }

  lemma WalkReplays(keys: seq<string>, rewritten: seq<OffsetRecord>, snapshot: map<string, int>, k: string)
    requires Walk(keys, rewritten, snapshot) && AllCanonical(snapshot)
    ensures k in Replay(rewritten) <==> k in snapshot
    ensures k in snapshot ==> Replay(rewritten)[k] == snapshot[k]
  {
    hide ParseOffsetKey, KeyOf, Replay, Canonical;
    WalkKeys(keys, rewritten, snapshot);
    ReplayHoldsWrittenKeys(rewritten, k);
    if k in snapshot {
      var i :| 0 <= i < |keys| && keys[i] == k;
      assert IsLast(rewritten, i, k);
      ReplayIsLastWrite(rewritten, i, k);
    }
  }

  /** Any walk order gives a log that replays to the snapshot. */
  lemma CheckpointReplaysToSnapshot(rewritten: seq<OffsetRecord>, snapshot: map<string, int>)
    requires IsCheckpoint(rewritten, snapshot) && AllCanonical(snapshot)
    ensures Replay(rewritten) == snapshot
  {
    hide Walk, AllCanonical, Replay;
    var keys: seq<string> :| Walk(keys, rewritten, snapshot);
    forall k
      ensures k in Replay(rewritten) <==> k in snapshot
      ensures k in snapshot ==> Replay(rewritten)[k] == snapshot[k]
    {
      WalkReplays(keys, rewritten, snapshot, k);
    }
  }

  /** What the broker holds: the store in memory and the log on disk. */
  datatype Offsets = Offsets(store: map<string, int>, log: seq<OffsetRecord>)

  datatype Step =
    | Commit(record: OffsetRecord)
    | Checkpoint(rewritten: seq<OffsetRecord>)
    | Restart

  /** A step that cannot happen leaves the state alone. */
  ghost function Apply(s: Offsets, step: Step): Offsets {
    match step
    case Commit(r) =>
      if Generated(r) then Offsets(s.store[KeyOf(r) := r.offset], s.log + [r]) else s
    case Checkpoint(rewritten) =>
      if s.store != map[] && IsCheckpoint(rewritten, s.store) then s.(log := rewritten) else s
    case Restart => s.(store := Replay(s.log))
  }

  ghost function Exec(steps: seq<Step>): Offsets {
    if steps == [] then Offsets(map[], []) else Apply(Exec(steps[..|steps| - 1]), steps[|steps| - 1])
  }

  /** The commits of a run, in order. */
  function Commits(steps: seq<Step>): seq<OffsetRecord> {
    if steps == [] then []
    else
      var rest := Commits(steps[..|steps| - 1]);
      match steps[|steps| - 1]
      case Commit(r) => if Generated(r) then rest + [r] else rest
      case _ => rest
  }

  /** The store, and what a restart would rebuild from the log, are the last-write-wins map of `commits`. */
  ghost predicate Agrees(s: Offsets, commits: seq<OffsetRecord>) {
    s.store == Replay(s.log) && s.store == Replay(commits) && AllCanonical(s.store)
  }

  lemma ReplayMore(log: seq<OffsetRecord>, r: OffsetRecord)
    ensures Replay(log + [r]) == Replay(log)[KeyOf(r) := r.offset]
  {
    hide KeyOf;
    assert (log + [r])[..|log|] == log;
  }

  lemma CommitAgrees(s: Offsets, commits: seq<OffsetRecord>, r: OffsetRecord)
    requires Agrees(s, commits) && Generated(r)
    ensures Agrees(Apply(s, Commit(r)), commits + [r])
  {
    hide KeyOf, Replay, Canonical;
    GeneratedIsCanonical(r);
    ReplayMore(s.log, r);
    ReplayMore(commits, r);
  }

  lemma CheckpointAgrees(s: Offsets, commits: seq<OffsetRecord>, rewritten: seq<OffsetRecord>)
    requires Agrees(s, commits)
    ensures Agrees(Apply(s, Checkpoint(rewritten)), commits)
  {
    hide Replay, IsCheckpoint, AllCanonical;
    if s.store != map[] && IsCheckpoint(rewritten, s.store) {
      CheckpointReplaysToSnapshot(rewritten, s.store);
    }
  }

  lemma RestartAgrees(s: Offsets, commits: seq<OffsetRecord>)
    requires Agrees(s, commits)
    ensures Agrees(Apply(s, Restart), commits)
  {
    hide Replay, AllCanonical;
  }

  /** Checkpoints and restarts are invisible: after any run the store, and what a restart would
      rebuild from the log, are both the last-write-wins map of all commits ever made. */
  lemma {:induction false} CheckpointsAreTransparent(steps: seq<Step>)
    ensures var s := Exec(steps);
            && s.store == Replay(s.log)
            && s.store == Replay(Commits(steps))
            && AllCanonical(s.store)
  {
    hide Replay, AllCanonical;
    RunAgrees(steps);
  }

  lemma {:induction false} RunAgrees(steps: seq<Step>)
    ensures Agrees(Exec(steps), Commits(steps))
  {
    hide Agrees, Apply, Generated;
    if steps == [] {
      NothingAgrees();
    } else {
      var before, step := steps[..|steps| - 1], steps[|steps| - 1];
      RunAgrees(before);
      match step
      case Commit(r) =>
        if Generated(r) {
          CommitAgrees(Exec(before), Commits(before), r);
        } else {
          RefusedCommit(Exec(before), r);
        }
      case Checkpoint(rewritten) => CheckpointAgrees(Exec(before), Commits(before), rewritten);
      case Restart => RestartAgrees(Exec(before), Commits(before));
    }
  }

  lemma NothingAgrees()
    ensures Agrees(Offsets(map[], []), [])
  {
  }

  lemma RefusedCommit(s: Offsets, r: OffsetRecord)
    requires !Generated(r)
    ensures Apply(s, Commit(r)) == s
  {
  }

  /** The checkpoint loop takes its snapshot before it rewrites the log. A commit of `r` that lands in
      between is lost to the next restart, exactly when it changed its key. */
  lemma RacingCommitIsForgotten(s: Offsets, r: OffsetRecord, rewritten: seq<OffsetRecord>)
    requires AllCanonical(s.store) && Generated(r)
    requires IsCheckpoint(rewritten, s.store)
    ensures var raced := Apply(s, Commit(r)).(log := rewritten);
            Replay(raced.log) == raced.store <==> KeyOf(r) in s.store && s.store[KeyOf(r)] == r.offset
  {
    hide ParseOffsetKey, KeyOf, Replay, IsCheckpoint, Canonical;
    CheckpointReplaysToSnapshot(rewritten, s.store);
    var after := s.store[KeyOf(r) := r.offset];
    assert KeyOf(r) in after && after[KeyOf(r)] == r.offset;
  }
}
