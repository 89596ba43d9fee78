/**
 Log matching. As long as no term has two leaders, two logs that hold an entry with
 the same index and term are identical up to that entry, whatever is lost, duplicated,
 reordered or restarted.

 The proof compares every log with one reference: the log of the proposing leader at
 the moment of each proposal (`Cluster.proposed`).
 */
module RaftLogMatching {
  import opened RaftTypes
  import opened RaftCluster
  import opened RaftElection

  type Proposals = map<(nat, nat), Log>

  /** Every prefix of the log is the leader's log at the proposal of the prefix's last entry. */
  ghost predicate Recorded(pr: Proposals, log: Log) {
    forall i :: 0 <= i < |log| ==> (i + 1, log[i].term) in pr && pr[(i + 1, log[i].term)] == log[..i + 1]
  }

  /** The log that precedes an AppendEntries with the given previous index and term. */
  function Base(pr: Proposals, prev: nat, prevTerm: nat): Log {
    if prev > 0 && (prev, prevTerm) in pr then pr[(prev, prevTerm)] else []
  }

  ghost predicate SliceRecorded(pr: Proposals, rpc: RPC)
    requires rpc.AppendEntries?
  {
    && (rpc.prevIndex > 0 ==> (rpc.prevIndex, rpc.prevTerm) in pr)
    && |Base(pr, rpc.prevIndex, rpc.prevTerm)| == rpc.prevIndex
    && Recorded(pr, Base(pr, rpc.prevIndex, rpc.prevTerm) + rpc.entries)
  }

  /** The proposals of one term extend one another. */
  ghost predicate Nested(pr: Proposals) {
    forall i: nat, j: nat, t: nat :: (i, t) in pr && (j, t) in pr && i <= j ==>
      i <= |pr[(j, t)]| && pr[(i, t)] == pr[(j, t)][..i]
  }

  ghost predicate LeaderHolds(pr: Proposals, s: NodeState) {
    s.role == Leader ==>
      forall i: nat :: (i, s.currentTerm) in pr ==> i <= |s.log| && s.log[..i] == pr[(i, s.currentTerm)]
  }

  ghost predicate UniqueLeaders(events: seq<Event>) {
    forall a: NodeId, b: NodeId, t: nat :: BecameLeader(a, t) in events && BecameLeader(b, t) in events ==> a == b
  }

  /** A node has not led a later term than its own, nor its own term if it is still campaigning in it. */
  ghost predicate LeadersOK(c: Cluster) {
    forall n: NodeId, t: nat :: BecameLeader(n, t) in c.events ==>
      n in c.nodes && t <= c.nodes[n].currentTerm && !(c.nodes[n].role == Candidate && c.nodes[n].currentTerm == t)
  }

  ghost predicate ProposalsOK(c: Cluster) {
    && Nested(c.proposed)
    && forall i: nat, t: nat :: (i, t) in c.proposed ==>
         |c.proposed[(i, t)]| == i && exists n: NodeId :: BecameLeader(n, t) in c.events
  }

  ghost predicate MatchOK(c: Cluster) {
    && LeadersOK(c) && ProposalsOK(c)
    && (forall n :: n in c.nodes ==> Recorded(c.proposed, c.nodes[n].log) && LeaderHolds(c.proposed, c.nodes[n]))
    && (forall p :: p in c.net && p.rpc.AppendEntries? ==> SliceRecorded(c.proposed, p.rpc))
  }

  /** Overlaying a recorded slice on a recorded log with the same base gives a recorded log. */
  lemma {:induction false} SpliceRecorded(pr: Proposals, log: Log, base: Log, entries: Log)
    requires Recorded(pr, log) && Recorded(pr, base + entries)
    requires |base| <= |log| && log[..|base|] == base
    ensures Recorded(pr, Splice(log, |base|, entries))
    decreases |entries|
  {
    var at := |base|;
    if entries != [] {
      if at == |log| {
        assert log[..at] == log;
      } else if log[at].term == entries[0].term {
        var all := base + entries;
        assert all[at] == entries[0];
        assert log[..at + 1] == all[..at + 1];
        assert all[..at + 1] + entries[1..] == all;
        SpliceRecorded(pr, log, all[..at + 1], entries[1..]);
      }
    }
  }

  /** A log that passes the consistency check of a recorded AppendEntries begins with its base. */
  lemma AppendRecorded(pr: Proposals, log: Log, rpc: RPC)
    requires rpc.AppendEntries? && SliceRecorded(pr, rpc) && Recorded(pr, log)
    requires AppendFromLeader(log, rpc.prevIndex, rpc.prevTerm, rpc.entries).Appended?
    ensures Recorded(pr, AppendFromLeader(log, rpc.prevIndex, rpc.prevTerm, rpc.entries).log)
  {
    var prev := rpc.prevIndex;
    var base := Base(pr, prev, rpc.prevTerm);
    if prev > 0 {
      assert log[prev - 1].term == rpc.prevTerm;
    }
    assert log[..prev] == base;
    SpliceRecorded(pr, log, base, rpc.entries);
  }

  /** What a leader sends is a slice of its recorded log. */
  lemma EntriesRecorded(pr: Proposals, s: NodeState, next: nat)
    requires Recorded(pr, s.log) && 1 <= next <= |s.log| + 1
    ensures SliceRecorded(pr, EntriesFrom(s.currentTerm, s.self, s.log, s.commitIndex, next))
  {
    var rpc := EntriesFrom(s.currentTerm, s.self, s.log, s.commitIndex, next);
    var base := Base(pr, next - 1, rpc.prevTerm);
    assert base == s.log[..next - 1];
    assert base + rpc.entries == s.log;
  }

  lemma RecordedMore(pr: Proposals, pr': Proposals, log: Log)
    requires Recorded(pr, log) && forall k :: k in pr ==> k in pr' && pr'[k] == pr[k]
    ensures Recorded(pr', log)
  {
  }

  lemma SliceRecordedMore(pr: Proposals, pr': Proposals, rpc: RPC)
    requires rpc.AppendEntries? && SliceRecorded(pr, rpc)
    requires forall k :: k in pr ==> k in pr' && pr'[k] == pr[k]
    ensures SliceRecorded(pr', rpc)
  {
    assert Base(pr', rpc.prevIndex, rpc.prevTerm) == Base(pr, rpc.prevIndex, rpc.prevTerm);
    RecordedMore(pr, pr', Base(pr, rpc.prevIndex, rpc.prevTerm) + rpc.entries);
  }

  /** A proposal by the only leader of its term is new and extends the earlier ones. */
  lemma ProposeRecorded(c: Cluster, n: NodeId, cmd: Command)
    requires MatchOK(c) && n in c.nodes && c.nodes[n].role == Leader
    ensures var s, s' := c.nodes[n], OnPropose(c.nodes[n], cmd);
            var key := (|s.log| + 1, s.currentTerm);
            var pr' := c.proposed[key := s'.log];
            key !in c.proposed && Recorded(pr', s'.log) && LeaderHolds(pr', s') && Nested(pr')
  {
    var s := c.nodes[n];
    var s' := OnPropose(s, cmd);
    var key := (|s.log| + 1, s.currentTerm);
    var pr' := c.proposed[key := s'.log];
    assert Recorded(c.proposed, s.log) && LeaderHolds(c.proposed, s);
    assert key !in c.proposed;
    forall i | 0 <= i < |s'.log|
      ensures (i + 1, s'.log[i].term) in pr' && pr'[(i + 1, s'.log[i].term)] == s'.log[..i + 1]
    {
      if i < |s.log| {
        assert s'.log[..i + 1] == s.log[..i + 1];
      } else {
        assert s'.log[..i + 1] == s'.log;
      }
    }
    forall i: nat | (i, s.currentTerm) in pr' ensures i <= |s'.log| && s'.log[..i] == pr'[(i, s.currentTerm)] {
      if (i, s.currentTerm) != key {
        assert s'.log[..i] == s.log[..i];
      } else {
        assert s'.log[..i] == s'.log;
      }
    }
  }

  // ---------------------------------------------------------------------
  // One step

  /** The invariants, and a step after which still no term has two leaders. */
  ghost predicate Ready(c: Cluster, step: Step) {
    && WellFormed(c) && VotesOK(c) && MatchOK(c)
    && Enabled(c, step) && UniqueLeaders(Apply(c, step).events)
  }

  lemma StepShape(c: Cluster, step: Step)
    requires WellFormed(c) && Enabled(c, step)
    ensures var n := Recipient(step); var s := c.nodes[n]; var e := StepEffect(s, step);
            && VoteMove(s, e.state, e.votes) && RoleMove(s, e, step)
            && Apply(c, step) == Install(c, n, e, Proposed(c, step))
            && s.self == n
  {
    hide LogOK, NodeOK, StepEffect, Proposed, Install, VoteMove, RoleMove;
    if step.Deliver? || step.CrashInHandler? {
      IncomingPacket(c, step);
    }
    StepMoves(c.nodes[Recipient(step)], step);
  }

  lemma LeadersStep(c: Cluster, step: Step)
    requires WellFormed(c) && LeadersOK(c) && Enabled(c, step)
    ensures LeadersOK(Apply(c, step))
  {
    hide WellFormed, Apply, Enabled, StepEffect, Proposed;
    StepShape(c, step);
  }

  /** A leader elected by this step is the first of its term, so nothing has been proposed in it. */
  lemma NewLeaderFindsNothing(c: Cluster, step: Step)
    requires Ready(c, step)
    ensures var s, e := c.nodes[Recipient(step)], StepEffect(c.nodes[Recipient(step)], step);
            e.state.role == Leader && !(s.role == Leader && s.currentTerm == e.state.currentTerm) ==>
              forall i: nat :: (i, e.state.currentTerm) !in c.proposed
  {
    hide WellFormed, Apply, StepEffect, Proposed, VotesOK;
    StepShape(c, step);
    var n := Recipient(step);
    var s, s' := c.nodes[n], StepEffect(c.nodes[n], step).state;
    if s'.role == Leader && !(s.role == Leader && s.currentTerm == s'.currentTerm) {
      assert ElectionEvents(s, s') == [BecameLeader(n, s'.currentTerm)];
      assert BecameLeader(n, s'.currentTerm) in Apply(c, step).events;
      assert forall m: NodeId :: BecameLeader(m, s'.currentTerm) in c.events ==>
               BecameLeader(m, s'.currentTerm) in Apply(c, step).events;
      assert forall m: NodeId :: BecameLeader(m, s'.currentTerm) !in c.events;
    }
  }

  /** Only an accepted AppendEntries and a proposal change a log. */
  lemma LogChanges(s: NodeState, step: Step)
    ensures var s' := StepEffect(s, step).state;
            && (step.Propose? ==> s' == OnPropose(s, step.cmd))
            && (s'.log == s.log
            || (step.Propose? && s.role == Leader)
            || (step.Deliver? && step.packet.rpc.AppendEntries? && s'.role == Follower &&
                var a := step.packet.rpc;
                AppendFromLeader(s.log, a.prevIndex, a.prevTerm, a.entries) == Appended(s'.log)))
  {
    hide CommitUpTo, AdvanceCommit, AppendFromLeader, NextAfterConflict, SetAll, ClampAll;
  }

  lemma OwnMatch(c: Cluster, step: Step)
    requires Ready(c, step)
    ensures var s' := StepEffect(c.nodes[Recipient(step)], step).state;
            Recorded(Proposed(c, step), s'.log) && LeaderHolds(Proposed(c, step), s')
  {
    hide WellFormed, Apply, StepEffect, VotesOK, LeadersOK, ProposalsOK, Recorded, UniqueLeaders, VoteMove, RoleMove;
    var n := Recipient(step);
    var s, s' := c.nodes[n], StepEffect(c.nodes[n], step).state;
    LogChanges(s, step);
    if step.Propose? && s.role == Leader {
      ProposeRecorded(c, n, step.cmd);
    } else {
      if s'.log != s.log {
        AppendRecorded(c.proposed, s.log, step.packet.rpc);
      }
      NewLeaderFindsNothing(c, step);
    }
  }

  lemma ProposalsStep(c: Cluster, step: Step)
    requires Ready(c, step)
    ensures ProposalsOK(Apply(c, step))
    ensures forall k :: k in c.proposed ==> k in Proposed(c, step) && Proposed(c, step)[k] == c.proposed[k]
  {
    hide WellFormed, StepEffect, LeadersOK, UniqueLeaders, NodeVotesOK, Recorded;
    var n := Recipient(step);
    var s, c' := c.nodes[n], Apply(c, step);
    assert c.events <= c'.events;
    assert c'.proposed == Proposed(c, step);
    if step.Propose? && s.role == Leader {
      ProposeRecorded(c, n, step.cmd);
      LeaderEvent(c, n);
      assert BecameLeader(n, s.currentTerm) in c'.events;
    }
    forall i: nat, t: nat | (i, t) in c.proposed ensures exists m: NodeId :: BecameLeader(m, t) in c'.events {
      var m: NodeId :| BecameLeader(m, t) in c.events;
      assert BecameLeader(m, t) in c'.events;
    }
  }

  lemma LeaderEvent(c: Cluster, n: NodeId)
    requires WellFormed(c) && VotesOK(c) && n in c.nodes && c.nodes[n].role == Leader
    ensures BecameLeader(n, c.nodes[n].currentTerm) in c.events
  {
    assert NodeVotesOK(c.nodes[n], c.events, c.nodes.Keys);
  }

  lemma OtherMatch(c: Cluster, step: Step, m: NodeId)
    requires Ready(c, step) && m in c.nodes && m != Recipient(step)
    ensures Recorded(Proposed(c, step), c.nodes[m].log) && LeaderHolds(Proposed(c, step), c.nodes[m])
  {
    hide WellFormed, StepEffect, VotesOK, LeadersOK, ProposalsOK;
    ProposalsStep(c, step);
    RecordedMore(c.proposed, Proposed(c, step), c.nodes[m].log);
    var n := Recipient(step);
    if step.Propose? && c.nodes[n].role == Leader && c.nodes[m].role == Leader {
      LeaderEvent(c, n);
      LeaderEvent(c, m);
      assert BecameLeader(n, c.nodes[n].currentTerm) in Apply(c, step).events;
      assert BecameLeader(m, c.nodes[m].currentTerm) in Apply(c, step).events;
    }
  }

  lemma SentSlices(pr: Proposals, s: NodeState, step: Step, p: Packet)
    requires NodeOK(s) && Recorded(pr, s.log)
    requires p in StepEffect(s, step).sent && p.rpc.AppendEntries?
    ensures SliceRecorded(pr, p.rpc)
  {
    hide Recorded, SliceRecorded;
    assert step.Heartbeat? && s.role == Leader;
    var next := ClampAll(s.nextIndex, s.peers, |s.log|);
    var i :| 0 <= i < |s.peers|
             && p.rpc == EntriesFrom(s.currentTerm, s.self, s.log, s.commitIndex, Get(next, s.peers[i]));
    ClampAllOther(s.nextIndex, s.peers, |s.log|, s.peers[i]);
    EntriesRecorded(pr, s, Get(next, s.peers[i]));
  }

  lemma PacketMatch(c: Cluster, step: Step, p: Packet)
    requires Ready(c, step) && p in Apply(c, step).net && p.rpc.AppendEntries?
    ensures SliceRecorded(Proposed(c, step), p.rpc)
  {
    hide StepEffect, VotesOK, LeadersOK, ProposalsOK, SliceRecorded, Recorded, UniqueLeaders, Proposed, NodeOK;
    ProposalsStep(c, step);
    if p !in c.net {
      SentSlices(c.proposed, c.nodes[Recipient(step)], step, p);
    }
    SliceRecordedMore(c.proposed, Proposed(c, step), p.rpc);
  }

  lemma ApplyKeepsMatch(c: Cluster, step: Step)
    requires WellFormed(c) && VotesOK(c) && MatchOK(c) && UniqueLeaders(Apply(c, step).events)
    ensures MatchOK(Apply(c, step))
  {
    hide WellFormed, StepEffect, VotesOK, LeadersOK, ProposalsOK, SliceRecorded, Recorded, LeaderHolds,
         UniqueLeaders, Proposed;
    if Enabled(c, step) {
      var c' := Apply(c, step);
      LeadersStep(c, step);
      ProposalsStep(c, step);
      OwnMatch(c, step);
      forall n | n in c'.nodes ensures Recorded(c'.proposed, c'.nodes[n].log) && LeaderHolds(c'.proposed, c'.nodes[n]) {
        if n != Recipient(step) {
          OtherMatch(c, step, n);
        }
      }
      forall p | p in c'.net && p.rpc.AppendEntries? ensures SliceRecorded(c'.proposed, p.rpc) {
        PacketMatch(c, step, p);
      }
    }
  }

  // ---------------------------------------------------------------------
  // Every run

  lemma InitialMatch(c: Cluster)
    requires Initial(c)
    ensures MatchOK(c)
  {
  }

  lemma UniqueInPrefix(events: seq<Event>, more: seq<Event>)
    requires events <= more && UniqueLeaders(more)
    ensures UniqueLeaders(events)
  {
  }

  lemma {:induction false} ReachableMatch(c0: Cluster, steps: seq<Step>)
    requires Initial(c0) && UniqueLeaders(Exec(c0, steps).events)
    ensures MatchOK(Exec(c0, steps))
    decreases |steps|
  {
    hide WellFormed, Apply, Initial, VotesOK, MatchOK, UniqueLeaders;
    if steps == [] {
      InitialMatch(c0);
    } else {
      var front := steps[..|steps| - 1];
      EventsGrow(c0, steps, |front|);
      UniqueInPrefix(Exec(c0, front).events, Exec(c0, steps).events);
      ReachableMatch(c0, front);
      ReachableWellFormed(c0, front);
      ReachableVotes(c0, front);
      ApplyKeepsMatch(Exec(c0, front), steps[|steps| - 1]);
    }
  }

  /** Two logs that agree on the index and term of an entry agree on everything up to it. */
  ghost predicate LogsMatch(c: Cluster) {
    forall a, b, i ::
      a in c.nodes && b in c.nodes && 0 <= i < |c.nodes[a].log| && i < |c.nodes[b].log| &&
      c.nodes[a].log[i].term == c.nodes[b].log[i].term ==>
        c.nodes[a].log[..i + 1] == c.nodes[b].log[..i + 1]
  }

  lemma NoSplitNoDuplicate(c0: Cluster, steps: seq<Step>)
    requires Initial(c0) && AtMostOneLeader(c0, steps)
    ensures UniqueLeaders(Exec(c0, steps).events)
  {
    hide Apply, Initial, Exec, EverLeader;
    forall a: NodeId, b: NodeId, t: nat
      | BecameLeader(a, t) in Exec(c0, steps).events && BecameLeader(b, t) in Exec(c0, steps).events
      ensures a == b
    {
      EverLeaderIsRecorded(c0, steps, a, t);
      EverLeaderIsRecorded(c0, steps, b, t);
    }
  }

  /** In every run in which no term has two leaders, logs match. */
  lemma LogMatching(c0: Cluster, steps: seq<Step>)
    requires Initial(c0) && AtMostOneLeader(c0, steps)
    ensures LogsMatch(Exec(c0, steps))
  {
    hide Apply, Initial, Exec, AtMostOneLeader;
    NoSplitNoDuplicate(c0, steps);
    ReachableMatch(c0, steps);
    var c := Exec(c0, steps);
    assert forall n :: n in c.nodes ==> Recorded(c.proposed, c.nodes[n].log);
  }
}
