/**
 The Raft node as an object whose fields the handlers update in place.
 `View()` is the node's state as a value, and each method computes the function
 of the same name in `RaftTypes`, so what is proved of runs of those functions
 holds of runs of these methods. The loops stay inside their arrays: indexing the
 log never goes out of range, and `nextIndex - 1` never wraps around.
 */
module RaftNode {
  import opened RaftTypes

  lemma PrefixStep(s: seq<NodeId>, i: nat)
    requires i < |s|
    ensures s[..i + 1][..i] == s[..i] && s[..i + 1][i] == s[i]
  {
  }

  lemma ClampStep(m: map<NodeId, nat>, ks: seq<NodeId>, len: nat, i: nat)
    requires i < |ks|
    ensures var before, k := ClampAll(m, ks[..i], len), ks[i];
            && (Get(before, k) >= 1 <==> Get(m, k) >= 1)
            && ClampAll(m, ks[..i + 1], len) == (if Get(before, k) > len then before[k := len + 1] else before)
            && Get(ClampAll(m, ks[..i + 1], len), k) == Get(ClampAll(m, ks, len), k)
  {
    PrefixStep(ks, i);
    ClampAllOther(m, ks[..i], len, ks[i]);
    ClampAllOther(m, ks[..i + 1], len, ks[i]);
    ClampAllOther(m, ks, len, ks[i]);
  }

  lemma RequestsStep(s: NodeState, next: map<NodeId, nat>, k: nat)
    requires k < |s.peers|
    ensures Requests(s, next, k + 1) == Requests(s, next, k) +
              [Packet(s.self, s.peers[k],
                      EntriesFrom(s.currentTerm, s.self, s.log, s.commitIndex, Get(next, s.peers[k])))]
  {
  }

  class Node {
    const selfID: NodeId
    const peers: seq<NodeId>

    var currentTerm: nat
    var votedFor: NodeId
    var log: Log
    var role: Role
    var commitIndex: nat
    var lastApplied: nat
    var applied: seq<Command>
    var leaderID: NodeId
    var leaderKnown: bool
    var nextIndex: map<NodeId, nat>
    var matchIndex: map<NodeId, nat>
    var voteGranted: set<NodeId>

    ghost function View(): NodeState
      reads this
    {
      NodeState(selfID, peers, currentTerm, votedFor, log, role, commitIndex, lastApplied, applied,
                leaderID, leaderKnown, nextIndex, matchIndex, voteGranted)
    }

    /** A leader has a next index of at least one for every peer. */
    ghost predicate Valid()
      reads this
    {
      role == Leader ==> forall p :: p in peers ==> Get(nextIndex, p) >= 1
    }

    constructor (self: NodeId, others: seq<NodeId>, term: nat, vote: NodeId, entries: Log)
      ensures Valid()
      ensures selfID == self && peers == others
      ensures View() == OnRestart(Fresh(self, others, term, vote, entries))
    {
      selfID, peers := self, others;
      currentTerm, votedFor, log := term, vote, entries;
      role, commitIndex, lastApplied, applied := Follower, 0, 0, [];
      leaderID, leaderKnown := NOBODY, false;
      nextIndex, matchIndex, voteGranted := map[], map[], {};
      new;
      if |peers| == 0 {
        currentTerm := currentTerm + 1;
        votedFor := selfID;
        BecomeLeaderLocked();
      }
    }

    method ResetIndices()
      modifies this`nextIndex, this`matchIndex
      ensures nextIndex == SetAll(old(nextIndex), peers, |log| + 1)
      ensures matchIndex == SetAll(old(matchIndex), peers, 0)
    {
      for i := 0 to |peers|
        invariant nextIndex == SetAll(old(nextIndex), peers[..i], |log| + 1)
        invariant matchIndex == SetAll(old(matchIndex), peers[..i], 0)
      {
        PrefixStep(peers, i);
        nextIndex := nextIndex[peers[i] := |log| + 1];
        matchIndex := matchIndex[peers[i] := 0];
      }
      assert peers[..|peers|] == peers;
    }

    method BecomeLeaderLocked()
      modifies this`role, this`leaderID, this`leaderKnown, this`nextIndex, this`matchIndex
      ensures Valid()
      ensures View() == BecomeLeader(old(View()))
    {
      role := Leader;
      leaderID := selfID;
      leaderKnown := true;
      ResetIndices();
      forall p | p in peers ensures Get(nextIndex, p) >= 1 {
        SetAllGet(old(nextIndex), peers, |log| + 1, p);
      }
    }

    method SendToPeers(rpc: RPC) returns (sent: seq<Packet>)
      ensures sent == Broadcast(selfID, peers, rpc)
    {
      sent := [];
      for i := 0 to |peers|
        invariant sent == Broadcast(selfID, peers[..i], rpc)
      {
        sent := sent + [Packet(selfID, peers[i], rpc)];
      }
    }

    method HandleElectionTimeout() returns (sent: seq<Packet>)
      requires Valid()
      modifies this
      ensures Valid()
      ensures View() == OnElectionTimeout(old(View())).0
      ensures sent == OnElectionTimeout(old(View())).1
    {
      sent := [];
      if role == Leader {
        return;
      }
      currentTerm := currentTerm + 1;
      votedFor := selfID;
      role := Candidate;
      leaderID := NOBODY;
      leaderKnown := false;
      voteGranted := {selfID};
      assert View() == StartElection(old(View()));
      if |peers| == 0 {
        BecomeLeaderLocked();
        return;
      }
      sent := SendToPeers(RequestVote(currentTerm, selfID, |log|, if |log| > 0 then log[|log| - 1].term else 0));
    }

    method HandleRequestVote(args: RPC) returns (reply: Packet)
      requires Valid() && args.RequestVote?
      modifies this
      ensures Valid()
      ensures View() == OnRequestVote(old(View()), args).0
      ensures reply == OnRequestVote(old(View()), args).1
    {
      if args.term > currentTerm {
        currentTerm := args.term;
        votedFor := NOBODY;
        role := Follower;
        leaderID := NOBODY;
        leaderKnown := false;
      }
      var granted := false;
      if args.term >= currentTerm {
        if votedFor == NOBODY || votedFor == args.candidateId {
          var lastIdx, lastTerm := LastLogIndexAndTermLocked();
          if args.lastLogTerm > lastTerm || (args.lastLogTerm == lastTerm && args.lastLogIndex >= lastIdx) {
            granted := true;
            votedFor := args.candidateId;
          }
        }
      }
      reply := Packet(selfID, args.candidateId, VoteReply(currentTerm, granted));
    }

    method LastLogIndexAndTermLocked() returns (index: nat, term: nat)
      ensures index == LastLogIndex(log) && term == LastLogTerm(log)
    {
      if |log| == 0 {
        return 0, 0;
      }
      var last := log[|log| - 1];
      return last.index, last.term;
    }

    method HandleVoteResponse(from: NodeId, reply: RPC)
      requires Valid() && reply.VoteReply?
      modifies this
      ensures Valid()
      ensures View() == OnVoteReply(old(View()), from, reply)
    {
      if reply.term > currentTerm {
        currentTerm := reply.term;
        votedFor := NOBODY;
        role := Follower;
        leaderID := NOBODY;
        leaderKnown := false;
        return;
      }
      if role != Candidate || reply.term != currentTerm {
        return;
      }
      if reply.granted {
        voteGranted := voteGranted + {from};
        var quorum := (|peers| + 1) / 2 + 1;
        if |voteGranted| >= quorum {
          BecomeLeaderLocked();
        }
      }
    }

    method AppendEntriesFromLeader(prevIndex: nat, prevTerm: nat, entries: Log)
      returns (success: bool, conflictIndex: nat, conflictTerm: nat)
      modifies this`log
      ensures match AppendFromLeader(old(log), prevIndex, prevTerm, entries)
              case Appended(l) => success && log == l && conflictIndex == conflictTerm == 0
              case Conflict(ci, ct) => !success && log == old(log) && conflictIndex == ci && conflictTerm == ct
    {
      if prevIndex > |log| {
        return false, |log| + 1, 0;
      }
      if prevIndex > 0 && log[prevIndex - 1].term != prevTerm {
        var ct := log[prevIndex - 1].term;
        var ci := prevIndex;
        while ci > 1 && log[ci - 2].term == ct
          invariant 1 <= ci <= prevIndex
          invariant log[ci - 1].term == ct
          invariant FirstOfTerm(log, ci) == FirstOfTerm(log, prevIndex)
        {
          ci := ci - 1;
        }
        return false, ci, ct;
      }
      var i := 0;
      while i < |entries|
        invariant 0 <= i <= |entries| && prevIndex + i <= |log|
        invariant log == old(log)
        invariant Splice(log, prevIndex + i, entries[i..]) == Splice(log, prevIndex, entries)
      {
        var idx := prevIndex + 1 + i;
        assert entries[i..][1..] == entries[i + 1..];
        if idx > |log| {
          log := log + entries[i..];
          break;
        }
        if log[idx - 1].term != entries[i].term {
          log := log[..idx - 1];
          log := log + entries[i..];
          break;
        }
        i := i + 1;
      }
      return true, 0, 0;
    }

    method ApplyCommittedLocked()
      requires commitIndex <= |log|
      modifies this`lastApplied, this`applied
      ensures View() == ApplyCommitted(old(View()))
    {
      if lastApplied >= commitIndex {
        return;
      }
      while lastApplied < commitIndex
        invariant old(lastApplied) <= lastApplied <= commitIndex
        invariant applied == old(applied) + Commands(log[old(lastApplied)..lastApplied])
      {
        lastApplied := lastApplied + 1;
        applied := applied + [log[lastApplied - 1].command];
      }
    }

    method FollowCommit(leaderCommit: nat)
      modifies this`commitIndex, this`lastApplied, this`applied
      ensures View() == CommitUpTo(old(View()), leaderCommit)
    {
      if leaderCommit > commitIndex {
        var newCommit := leaderCommit;
        if |log| < newCommit {
          newCommit := |log|;
        }
        commitIndex := newCommit;
        ApplyCommittedLocked();
      }
    }

    method HandleAppendEntries(args: RPC) returns (reply: Packet)
      requires Valid() && args.AppendEntries?
      modifies this
      ensures Valid()
      ensures View() == OnAppendEntries(old(View()), args).0
      ensures reply == OnAppendEntries(old(View()), args).1
    {
      if args.term > currentTerm {
        currentTerm := args.term;
        votedFor := NOBODY;
        role := Follower;
        leaderID := args.leaderId;
        leaderKnown := true;
      }
      if args.term < currentTerm {
        reply := Packet(selfID, args.leaderId, AppendReply(currentTerm, false, 0, 0, 0));
        return;
      }
      currentTerm := args.term;
      votedFor := NOBODY;
      role := Follower;
      leaderID := args.leaderId;
      leaderKnown := true;
      assert View() == FollowLeader(old(View()), args.term, args.leaderId);
      var success, conflictIndex, conflictTerm :=
        AppendEntriesFromLeader(args.prevIndex, args.prevTerm, args.entries);
      if success {
        FollowCommit(args.leaderCommit);
      }
      reply := Packet(selfID, args.leaderId,
                      AppendReply(currentTerm, success, if success then |log| else 0, conflictIndex, conflictTerm));
    }

    method HandleAppendResponse(from: NodeId, reply: RPC)
      requires Valid() && reply.AppendReply?
      modifies this
      ensures Valid()
      ensures View() == OnAppendReply(old(View()), from, reply)
    {
      if reply.term > currentTerm {
        currentTerm := reply.term;
        votedFor := NOBODY;
        role := Follower;
        leaderID := NOBODY;
        leaderKnown := false;
        return;
      }
      if role != Leader {
        return;
      }
      if reply.success {
        RecordMatch(from, reply.matchIndex);
      } else {
        var next := FindNext(reply.conflictIndex, reply.conflictTerm);
        nextIndex := nextIndex[from := next];
      }
    }

    method RecordMatch(from: NodeId, index: nat)
      requires Valid() && role == Leader
      modifies this`matchIndex, this`nextIndex, this`commitIndex, this`lastApplied, this`applied
      ensures Valid()
      ensures View() == AdvanceCommit(old(View()).(matchIndex := old(matchIndex)[from := index],
                                                   nextIndex := old(nextIndex)[from := index + 1]))
    {
      matchIndex := matchIndex[from := index];
      nextIndex := nextIndex[from := index + 1];
      AdvanceCommitIndexLocked();
    }

    method FindNext(conflictIndex: nat, conflictTerm: nat) returns (next: nat)
      ensures next == NextAfterConflict(log, conflictIndex, conflictTerm)
    {
      next := conflictIndex;
      if conflictTerm > 0 {
        var i := |log|;
        assert log[..i] == log;
        while i > 0
          invariant 0 <= i <= |log|
          invariant next == conflictIndex
          invariant LastWithTerm(log[..i], conflictTerm) == LastWithTerm(log, conflictTerm)
        {
          assert log[..i][..i - 1] == log[..i - 1];
          if log[i - 1].term == conflictTerm {
            next := i + 1;
            break;
          }
          i := i - 1;
        }
      }
      if next < 1 {
        next := 1;
      }
    }

    method CountReplicated(idx: nat) returns (replicated: nat)
      ensures replicated == Replicated(View(), idx)
    {
      replicated := 1;
      for i := 0 to |peers|
        invariant replicated == 1 + CountAtLeast(matchIndex, peers[..i], idx)
      {
        PrefixStep(peers, i);
        if Get(matchIndex, peers[i]) >= idx {
          replicated := replicated + 1;
        }
      }
      assert peers[..|peers|] == peers;
    }

    method AdvanceCommitIndexLocked()
      requires Valid()
      modifies this`commitIndex, this`lastApplied, this`applied
      ensures View() == AdvanceCommit(old(View()))
    {
      if role != Leader {
        return;
      }
      var idx := |log|;
      while idx > commitIndex
        invariant 0 <= idx <= |log|
        invariant View() == old(View())
        invariant HighestCommittable(View(), idx) == HighestCommittable(View(), |log|)
      {
        if log[idx - 1].term == currentTerm {
          var replicated := CountReplicated(idx);
          var quorum := (|peers| + 1) / 2 + 1;
          if replicated >= quorum {
            commitIndex := idx;
            ApplyCommittedLocked();
            return;
          }
        }
        idx := idx - 1;
      }
    }

    /** The request for one peer; `nextIndex - 1` cannot wrap around. */
    method PrepareEntries(peer: NodeId) returns (rpc: RPC)
      requires Get(nextIndex, peer) >= 1
      modifies this`nextIndex
      ensures nextIndex ==
              if old(Get(nextIndex, peer)) > |log| then old(nextIndex)[peer := |log| + 1] else old(nextIndex)
      ensures rpc == EntriesFrom(currentTerm, selfID, log, commitIndex, Get(nextIndex, peer))
    {
      var next := Get(nextIndex, peer);
      if next > |log| {
        next := |log| + 1;
        nextIndex := nextIndex[peer := next];
      }
      var prev := next - 1;
      var prevTerm := 0;
      if prev > 0 && prev <= |log| {
        prevTerm := log[prev - 1].term;
      }
      var entries := [];
      if next <= |log| && next >= 1 {
        entries := log[next - 1..];
      }
      rpc := AppendEntries(currentTerm, selfID, prev, prevTerm, entries, commitIndex);
    }

    method PrepareAll() returns (sent: seq<Packet>)
      requires forall p :: p in peers ==> Get(nextIndex, p) >= 1
      modifies this`nextIndex
      ensures nextIndex == ClampAll(old(nextIndex), peers, |log|)
      ensures sent == Requests(old(View()), nextIndex, |peers|)
    {
      ghost var was := View();
      ghost var next := ClampAll(was.nextIndex, peers, |log|);
      sent := [];
      for i := 0 to |peers|
        invariant nextIndex == ClampAll(was.nextIndex, peers[..i], |log|)
        invariant sent == Requests(was, next, i)
      {
        ClampStep(was.nextIndex, peers, |log|, i);
        RequestsStep(was, next, i);
        var rpc := PrepareEntries(peers[i]);
        sent := sent + [Packet(selfID, peers[i], rpc)];
      }
      assert peers[..|peers|] == peers;
    }

    method SendAppendEntriesToAll() returns (sent: seq<Packet>)
      requires Valid()
      modifies this`nextIndex
      ensures Valid()
      ensures View() == OnHeartbeat(old(View())).0
      ensures sent == OnHeartbeat(old(View())).1
    {
      if role != Leader {
        return [];
      }
      ClampKeepsPositive(nextIndex, peers, |log|);
      sent := PrepareAll();
    }

    method Propose(cmd: Command) returns (index: nat)
      requires Valid()
      modifies this`log
      ensures Valid()
      ensures View() == OnPropose(old(View()), cmd)
      ensures index == if role == Leader then |log| else 0
    {
      if role != Leader {
        return 0;
      }
      log := log + [LogEntry(currentTerm, |log| + 1, cmd)];
      index := |log|;
    }
  }
}
