/**
 The state of one Raft node as a value, and what each handler does to it.

 Every handler of the node runs under the node's mutex, so a handler is one
 function from the old state (and the message) to the new state (and the reply).
 `RaftNode.Node` is the object that updates its fields in place; its methods are
 proved to compute exactly these functions.
 */
module RaftTypes {

  /** Node identifiers are only ever compared, so a number stands for each name. */
  type NodeId = nat

  /** The empty name: no vote cast, no leader known. */
  const NOBODY: NodeId := 0

  /** An opaque application command. */
  type Command = string

  datatype Role = Follower | Candidate | Leader

  datatype LogEntry = LogEntry(term: nat, index: nat, command: Command)

  type Log = seq<LogEntry>

  datatype RPC =
    | RequestVote(term: nat, candidateId: NodeId, lastLogIndex: nat, lastLogTerm: nat)
    | VoteReply(term: nat, granted: bool)
    | AppendEntries(term: nat, leaderId: NodeId, prevIndex: nat, prevTerm: nat, entries: Log, leaderCommit: nat)
    | AppendReply(term: nat, success: bool, matchIndex: nat, conflictIndex: nat, conflictTerm: nat)

  datatype Packet = Packet(from: NodeId, to: NodeId, rpc: RPC)

  /** `currentTerm`, `votedFor` and `log` are persistent; everything after them is volatile.
      `applied` lists the commands handed to the state machine since the node started. */
  datatype NodeState = NodeState(
    self: NodeId,
    peers: seq<NodeId>,
    currentTerm: nat,
    votedFor: NodeId,
    log: Log,
    role: Role,
    commitIndex: nat,
    lastApplied: nat,
    applied: seq<Command>,
    leaderId: NodeId,
    leaderKnown: bool,
    nextIndex: map<NodeId, nat>,
    matchIndex: map<NodeId, nat>,
    voteGranted: set<NodeId>)

  /** Go's map lookup: a missing key reads as zero. */
  function Get(m: map<NodeId, nat>, k: NodeId): nat {
    if k in m then m[k] else 0
  }

  /** The map after setting every key in `ks` to `v`. */
  function SetAll(m: map<NodeId, nat>, ks: seq<NodeId>, v: nat): map<NodeId, nat> {
    if ks == [] then m else SetAll(m, ks[..|ks| - 1], v)[ks[|ks| - 1] := v]
  }

  /** The same request addressed to every node in `to`. */
  function Broadcast(from: NodeId, to: seq<NodeId>, rpc: RPC): seq<Packet> {
    seq(|to|, i requires 0 <= i < |to| => Packet(from, to[i], rpc))
  }

  function Quorum(s: NodeState): nat {
    (|s.peers| + 1) / 2 + 1
  }

  /** The state of a node that has just been constructed with the given persistent state. */
  function Fresh(self: NodeId, peers: seq<NodeId>, term: nat, votedFor: NodeId, log: Log): NodeState {
    NodeState(self, peers, term, votedFor, log, Follower, 0, 0, [], NOBODY, false, map[], map[], {})
  }

  // ---------------------------------------------------------------------
  // Election

  function LastLogIndex(log: Log): nat {
    if log == [] then 0 else log[|log| - 1].index
  }

  function LastLogTerm(log: Log): nat {
    if log == [] then 0 else log[|log| - 1].term
  }

  /** A higher term was seen: adopt it, forget the vote and the leader, follow. */
  function AdoptTerm(s: NodeState, term: nat): NodeState {
    s.(currentTerm := term, votedFor := NOBODY, role := Follower, leaderId := NOBODY, leaderKnown := false)
  }

  function BecomeLeader(s: NodeState): NodeState {
    s.(role := Leader, leaderId := s.self, leaderKnown := true,
       nextIndex := SetAll(s.nextIndex, s.peers, |s.log| + 1),
       matchIndex := SetAll(s.matchIndex, s.peers, 0))
  }

  /** The state in which a candidate starts an election for the next term. */
  function StartElection(s: NodeState): NodeState {
    s.(currentTerm := s.currentTerm + 1, votedFor := s.self, role := Candidate,
       leaderId := NOBODY, leaderKnown := false, voteGranted := {s.self})
  }

  function OnElectionTimeout(s: NodeState): (NodeState, seq<Packet>) {
    if s.role == Leader then (s, [])
    else
      var e := StartElection(s);
      if s.peers == [] then (BecomeLeader(e), [])
      else
        (e, Broadcast(s.self, s.peers, RequestVote(e.currentTerm, s.self, |s.log|, LastLogTerm(s.log))))
  }

  predicate UpToDate(log: Log, lastLogIndex: nat, lastLogTerm: nat) {
    || lastLogTerm > LastLogTerm(log)
    || (lastLogTerm == LastLogTerm(log) && lastLogIndex >= LastLogIndex(log))
  }

  function OnRequestVote(s: NodeState, a: RPC): (NodeState, Packet)
    requires a.RequestVote?
  {
    var s1 := if a.term > s.currentTerm then AdoptTerm(s, a.term) else s;
    var grant :=
      && a.term >= s1.currentTerm
      && (s1.votedFor == NOBODY || s1.votedFor == a.candidateId)
      && UpToDate(s1.log, a.lastLogIndex, a.lastLogTerm);
    var s2 := if grant then s1.(votedFor := a.candidateId) else s1;
    (s2, Packet(s.self, a.candidateId, VoteReply(s1.currentTerm, grant)))
  }

  function OnVoteReply(s: NodeState, from: NodeId, r: RPC): NodeState
    requires r.VoteReply?
  {
    if r.term > s.currentTerm then AdoptTerm(s, r.term)
    else if s.role != Candidate || r.term != s.currentTerm || !r.granted then s
    else
      var s1 := s.(voteGranted := s.voteGranted + {from});
      if |s1.voteGranted| >= Quorum(s1) then BecomeLeader(s1) else s1
  }

  // ---------------------------------------------------------------------
  // Log replication: follower side

  /** The first index of the run of entries that have the same term as entry `ci` and end at it. */
  function FirstOfTerm(log: Log, ci: nat): (r: nat)
    requires 1 <= ci <= |log|
    ensures 1 <= r <= ci
    ensures forall j :: r - 1 <= j < ci ==> log[j].term == log[ci - 1].term
    ensures r > 1 ==> log[r - 2].term != log[ci - 1].term
  {
    if ci > 1 && log[ci - 2].term == log[ci - 1].term then FirstOfTerm(log, ci - 1) else ci
  }

  /** Overlay `entries` on the log behind position `at`, cutting the log at the first
      entry whose term differs and leaving it alone where it already agrees. */
  function Splice(log: Log, at: nat, entries: Log): Log
    requires at <= |log|
    decreases |entries|
  {
    if entries == [] then log
    else if at == |log| then log + entries
    else if log[at].term != entries[0].term then log[..at] + entries
    else Splice(log, at + 1, entries[1..])
  }

  datatype AppendResult =
    | Appended(log: Log)
    | Conflict(index: nat, term: nat)

  function AppendFromLeader(log: Log, prevIndex: nat, prevTerm: nat, entries: Log): AppendResult {
    if prevIndex > |log| then Conflict(|log| + 1, 0)
    else if prevIndex > 0 && log[prevIndex - 1].term != prevTerm then
      Conflict(FirstOfTerm(log, prevIndex), log[prevIndex - 1].term)
    else Appended(Splice(log, prevIndex, entries))
  }

  function Commands(log: Log): seq<Command> {
    seq(|log|, i requires 0 <= i < |log| => log[i].command)
  }

  /** Nothing but the commit index and what has been applied differs. */
  ghost predicate OnlyCommits(s: NodeState, r: NodeState) {
    r == s.(commitIndex := r.commitIndex, lastApplied := r.lastApplied, applied := r.applied)
  }

  /** Hand every committed, not yet applied command to the state machine. */
  function ApplyCommitted(s: NodeState): (r: NodeState)
    requires s.commitIndex <= |s.log|
    ensures OnlyCommits(s, r)
  {
    if s.lastApplied >= s.commitIndex then s
    else s.(applied := s.applied + Commands(s.log[s.lastApplied..s.commitIndex]), lastApplied := s.commitIndex)
  }

  function FollowLeader(s: NodeState, term: nat, leaderId: NodeId): NodeState {
    s.(currentTerm := term, votedFor := NOBODY, role := Follower, leaderId := leaderId, leaderKnown := true)
  }

  function CommitUpTo(s: NodeState, leaderCommit: nat): (r: NodeState)
    ensures OnlyCommits(s, r)
  {
    if leaderCommit <= s.commitIndex then s
    else ApplyCommitted(s.(commitIndex := if |s.log| < leaderCommit then |s.log| else leaderCommit))
  }

  function OnAppendEntries(s: NodeState, a: RPC): (NodeState, Packet)
    requires a.AppendEntries?
  {
    if a.term < s.currentTerm then
      (s, Packet(s.self, a.leaderId, AppendReply(s.currentTerm, false, 0, 0, 0)))
    else
      var s1 := FollowLeader(s, a.term, a.leaderId);
      match AppendFromLeader(s.log, a.prevIndex, a.prevTerm, a.entries)
      case Conflict(ci, ct) =>
        (s1, Packet(s.self, a.leaderId, AppendReply(a.term, false, 0, ci, ct)))
      case Appended(log) =>
        (CommitUpTo(s1.(log := log), a.leaderCommit),
         Packet(s.self, a.leaderId, AppendReply(a.term, true, |log|, 0, 0)))
  }

  // ---------------------------------------------------------------------
  // Log replication: leader side

  /** The last index at which the log holds an entry of the given term, or 0. */
  function LastWithTerm(log: Log, term: nat): (r: nat)
    ensures r <= |log|
    ensures r > 0 ==> log[r - 1].term == term
    ensures forall j :: r <= j < |log| ==> log[j].term != term
  {
    if log == [] then 0
    else if log[|log| - 1].term == term then |log|
    else LastWithTerm(log[..|log| - 1], term)
  }

  /** Where the leader resumes after a rejected AppendEntries. */
  function NextAfterConflict(log: Log, conflictIndex: nat, conflictTerm: nat): nat {
    var next :=
      if conflictTerm > 0 && LastWithTerm(log, conflictTerm) > 0 then LastWithTerm(log, conflictTerm) + 1
      else conflictIndex;
    if next < 1 then 1 else next
  }

  /** How many of the nodes in `ks` are known to hold the log up to `idx`. */
  function CountAtLeast(m: map<NodeId, nat>, ks: seq<NodeId>, idx: nat): nat {
    if ks == [] then 0
    else CountAtLeast(m, ks[..|ks| - 1], idx) + if Get(m, ks[|ks| - 1]) >= idx then 1 else 0
  }

  function Replicated(s: NodeState, idx: nat): nat {
    1 + CountAtLeast(s.matchIndex, s.peers, idx)
  }

  predicate Committable(s: NodeState, idx: nat)
    requires 1 <= idx <= |s.log|
  {
    s.log[idx - 1].term == s.currentTerm && Replicated(s, idx) >= Quorum(s)
  }

  /** The highest committable index in `(commitIndex, idx]`, or the commit index if there is none. */
  function HighestCommittable(s: NodeState, idx: nat): (r: nat)
    requires idx <= |s.log|
    ensures r == s.commitIndex || (s.commitIndex < r <= idx && Committable(s, r))
    ensures forall j :: r < j <= idx && s.commitIndex < j ==> !Committable(s, j)
  {
    if idx <= s.commitIndex then s.commitIndex
    else if Committable(s, idx) then idx
    else HighestCommittable(s, idx - 1)
  }

  function AdvanceCommit(s: NodeState): (r: NodeState)
    ensures OnlyCommits(s, r)
  {
    if s.role != Leader || HighestCommittable(s, |s.log|) == s.commitIndex then s
    else ApplyCommitted(s.(commitIndex := HighestCommittable(s, |s.log|)))
  }

  function OnAppendReply(s: NodeState, from: NodeId, r: RPC): NodeState
    requires r.AppendReply?
  {
    if r.term > s.currentTerm then AdoptTerm(s, r.term)
    else if s.role != Leader then s
    else if r.success then
      AdvanceCommit(s.(matchIndex := s.matchIndex[from := r.matchIndex],
                       nextIndex := s.nextIndex[from := r.matchIndex + 1]))
    else
      s.(nextIndex := s.nextIndex[from := NextAfterConflict(s.log, r.conflictIndex, r.conflictTerm)])
  }

  const MAX_UINT64: nat := 0xFFFF_FFFF_FFFF_FFFF

  /** The AppendEntries request for a peer whose next index is `next`. Subtracting one
      from an unset (zero) next index would wrap around; `RaftCluster.ReachableWellFormed` shows it never does. */
  function EntriesFrom(term: nat, leader: NodeId, log: Log, commit: nat, next: nat): RPC {
    var prev := if next == 0 then MAX_UINT64 else next - 1;
    AppendEntries(
      term, leader, prev,
      if 0 < prev <= |log| then log[prev - 1].term else 0,
      if 1 <= next <= |log| then log[next - 1..] else [],
      commit)
  }

  /** The first `k` replication requests of a heartbeat. */
  function Requests(s: NodeState, next: map<NodeId, nat>, k: nat): seq<Packet>
    requires k <= |s.peers|
  {
    seq(k, i requires 0 <= i < k =>
      Packet(s.self, s.peers[i], EntriesFrom(s.currentTerm, s.self, s.log, s.commitIndex, Get(next, s.peers[i]))))
  }

  /** Pull every next index that lies beyond the end of the log back to it. */
  function ClampAll(m: map<NodeId, nat>, ks: seq<NodeId>, len: nat): map<NodeId, nat> {
    if ks == [] then m
    else
      var rest := ClampAll(m, ks[..|ks| - 1], len);
      if Get(rest, ks[|ks| - 1]) > len then rest[ks[|ks| - 1] := len + 1] else rest
  }

  function OnHeartbeat(s: NodeState): (NodeState, seq<Packet>) {
    if s.role != Leader then (s, [])
    else
      var next := ClampAll(s.nextIndex, s.peers, |s.log|);
      (s.(nextIndex := next), Requests(s, next, |s.peers|))
  }

  function OnPropose(s: NodeState, cmd: Command): NodeState {
    if s.role != Leader then s
    else s.(log := s.log + [LogEntry(s.currentTerm, |s.log| + 1, cmd)])
  }

  /** A restart reloads the persistent state; a node without peers elects itself at once. */
  function OnRestart(s: NodeState): NodeState {
    var f := Fresh(s.self, s.peers, s.currentTerm, s.votedFor, s.log);
    if s.peers != [] then f
    else BecomeLeader(f.(currentTerm := f.currentTerm + 1, votedFor := f.self))
  }

  // ---------------------------------------------------------------------
  // The index tables

  lemma {:induction false} SetAllGet(m: map<NodeId, nat>, ks: seq<NodeId>, v: nat, k: NodeId)
    ensures Get(SetAll(m, ks, v), k) == if k in ks then v else Get(m, k)
  {
    if ks != [] {
      SetAllGet(m, ks[..|ks| - 1], v, k);
      assert ks == ks[..|ks| - 1] + [ks[|ks| - 1]];
    }
  }

  /** Clamping touches only the keys it is given, so later keys are still as they were. */
  lemma {:induction false} ClampAllOther(m: map<NodeId, nat>, ks: seq<NodeId>, len: nat, k: NodeId)
    ensures Get(ClampAll(m, ks, len), k)
         == if k in ks && Get(m, k) > len then len + 1 else Get(m, k)
  {
    if ks != [] {
      ClampAllOther(m, ks[..|ks| - 1], len, k);
      ClampAllOther(m, ks[..|ks| - 1], len, ks[|ks| - 1]);
      assert ks == ks[..|ks| - 1] + [ks[|ks| - 1]];
    }
  }

  lemma ClampKeepsPositive(m: map<NodeId, nat>, ks: seq<NodeId>, len: nat)
    requires forall k :: k in ks ==> Get(m, k) >= 1
    ensures forall k :: k in ks ==> Get(ClampAll(m, ks, len), k) >= 1
  {
    forall k | k in ks ensures Get(ClampAll(m, ks, len), k) >= 1 {
      ClampAllOther(m, ks, len, k);
    }
  }
}
