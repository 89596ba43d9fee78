/**
 Commit safety: in a cluster of at most two nodes all nodes apply the same commands in the same order. Two logs
 there never contradict each other, because whoever leads has the other's vote and the longer log.
 */
module RaftCommit {
  import opened RaftTypes
  import opened RaftCluster
  import opened RaftElection
  import opened RaftLogMatching

  ghost predicate Comparable<T(!new)>(a: seq<T>, b: seq<T>) {
    a <= b || b <= a
  }

  /** What a node has applied at one moment and what a node has applied at another, each since it last started:
      one is a prefix of the other. */
  ghost predicate AppliedAgree(c: Cluster, c': Cluster) {
    forall m, n :: m in c.nodes && n in c'.nodes ==> Comparable(c.nodes[m].applied, c'.nodes[n].applied)
  }

  // ---------------------------------------------------------------------
  // Splicing between logs that do not contradict each other

  /** Nothing is cut: the result is the longer of the log and the sender's log up to the end of the slice. */
  lemma {:induction false} SpliceComparable(f: Log, l: Log, at: nat, k: nat)
    requires Comparable(f, l) && at <= |f| && at + k <= |l|
    ensures Splice(f, at, l[at..at + k]) == if at + k <= |f| then f else l[..at + k]
    decreases k
  {
    var entries := l[at..at + k];
    if k > 0 {
      if at == |f| {
        assert f == l[..at];
        assert l[..at] + entries == l[..at + k];
      } else {
        assert f[at] == l[at] == entries[0];
        assert entries[1..] == l[at + 1..at + 1 + (k - 1)];
        SpliceComparable(f, l, at + 1, k - 1);
      }
    }
  }

  lemma LastOfPrefix(l: Log, f: Log, term: nat)
    requires l <= f && LogOK(f, term)
    ensures LastLogTerm(l) <= LastLogTerm(f) && LastLogIndex(f) == |f|
  {
    if l != [] {
      assert l[|l| - 1] == f[|l| - 1];
    }
  }

  /** Of two such logs in term order, the one that is up to date with the other extends it. */
  lemma UpToDateExtends(f: Log, l: Log, term: nat)
    requires Comparable(f, l) && LogOK(f, term) && UpToDate(f, |l|, LastLogTerm(l))
    ensures f <= l
  {
    hide LogOK, LastLogTerm;
    if l <= f {
      LastOfPrefix(l, f, term);
    }
  }

  // ---------------------------------------------------------------------
  // The invariant of a pair

  ghost predicate AppliedOK(s: NodeState) {
    && s.commitIndex <= |s.log| && s.lastApplied <= |s.log|
    && s.applied == Commands(s.log[..s.lastApplied])
  }

  /** Slices are of the sender's log; a standing candidate asked with its own log; a grant to it came from a log
      it extends. */
  ghost predicate MailOK(c: Cluster, p: Packet)
    requires p.from in c.nodes && p.to in c.nodes
  {
    var x, y := c.nodes[p.from], c.nodes[p.to];
    match p.rpc
    case RequestVote(t, _, li, lt) =>
      x.role == Candidate && x.currentTerm == t ==> li == |x.log| && lt == LastLogTerm(x.log)
    case VoteReply(t, granted) =>
      granted ==> t <= y.currentTerm && (y.role == Candidate && y.currentTerm == t ==> x.log <= y.log)
    case AppendEntries(_, _, prev, _, entries, _) =>
      prev + |entries| <= |x.log| && entries == x.log[prev..prev + |entries|]
    case AppendReply(_, _, _, _, _) => true
  }

  ghost predicate LogsOK(c: Cluster, x: NodeId, y: NodeId)
    requires x in c.nodes && y in c.nodes
  {
    && Comparable(c.nodes[x].log, c.nodes[y].log)
    && (c.nodes[x].role == Leader ==> c.nodes[y].log <= c.nodes[x].log)
  }

  ghost predicate PairOK(c: Cluster) {
    && (forall n :: n in c.nodes ==> AppliedOK(c.nodes[n]))
    && (forall x, y :: x in c.nodes && y in c.nodes && x != y ==> LogsOK(c, x, y))
    && (forall p :: p in c.net ==> p.from in c.nodes && p.to in c.nodes && MailOK(c, p))
  }

  // ---------------------------------------------------------------------
  // Who leads a pair

  /** A leader of a pair has the other node's vote as well as its own. */
  lemma LeaderHasBoth(c: Cluster, x: NodeId, y: NodeId)
    requires WellFormed(c) && VotesOK(c) && |c.nodes| <= 2
    requires x in c.nodes && y in c.nodes && x != y && c.nodes[x].role == Leader
    ensures var t := c.nodes[x].currentTerm;
            && Granted(y, t, x) in c.events && Granted(x, t, x) in c.events && BecameLeader(x, t) in c.events
            && t <= c.nodes[y].currentTerm
  {
    hide NodeOK, LogOK, PeersAre, PacketOK;
    assert |c.nodes| == |c.nodes.Keys|;
    var t := c.nodes[x].currentTerm;
    assert NodeVotesOK(c.nodes[x], c.events, c.nodes.Keys) && NodeVotesOK(c.nodes[y], c.events, c.nodes.Keys);
    var k, q := ElectedByMajority(c.events, c.nodes.Keys, x, t);
    PairIsAll(c.nodes.Keys, x, y);
    FullMajority(q, c.nodes.Keys, x, y);
    var i :| 0 <= i < k && c.events[..k][i] == Granted(y, t, x);
    assert c.events[i] == Granted(y, t, x);
    assert Granted(x, t, x) in c.events[..k];
  }

  lemma NotBothLead(c: Cluster, x: NodeId, y: NodeId)
    requires WellFormed(c) && VotesOK(c) && |c.nodes| <= 2
    requires x in c.nodes && y in c.nodes && x != y && c.nodes[x].role == Leader
    ensures c.nodes[y].role != Leader
  {
    hide WellFormed, NodeVotesOK, PacketVotesOK, HistoryOK;
    assert |c.nodes| == |c.nodes.Keys|;
    if c.nodes[y].role == Leader {
      LeaderHasBoth(c, x, y);
      LeaderHasBoth(c, y, x);
      TwoNodesHistory(c.events, c.nodes.Keys, x, y, c.nodes[x].currentTerm);
    }
  }

  /** A node that has granted its vote to the other in the other's current term does not lead. */
  lemma GranterDoesNotLead(c: Cluster, p: Packet)
    requires WellFormed(c) && VotesOK(c) && |c.nodes| <= 2
    requires p in c.net && p.rpc.VoteReply? && p.rpc.granted && c.nodes[p.to].currentTerm == p.rpc.term
    ensures c.nodes[p.from].role != Leader
  {
    hide NodeOK, LogOK, NodeVotesOK, HistoryOK;
    assert PacketOK(c, p) && PacketVotesOK(p, c.events);
    assert |c.nodes| == |c.nodes.Keys|;
    var x, y, t := p.to, p.from, p.rpc.term;
    if c.nodes[y].role == Leader {
      LeaderHasBoth(c, y, x);
      PairIsAll(c.nodes.Keys, x, y);
      var g :| 0 <= g < |c.events| && c.events[g] == Granted(y, t, x);
      NoFirstCrossVote(c.events, c.nodes.Keys, x, y, t, g);
    }
  }

  // ---------------------------------------------------------------------
  // One step

  /** The invariants before a step that can happen. */
  ghost predicate Steady(c: Cluster, step: Step) {
    WellFormed(c) && VotesOK(c) && |c.nodes| <= 2 && PairOK(c) && Enabled(c, step)
  }

  /** Accepting a slice takes over a longer prefix of the sender's log, or nothing. */
  lemma AcceptStep(f: Log, l: Log, a: RPC, log: Log)
    requires Comparable(f, l) && a.AppendEntries?
    requires a.prevIndex + |a.entries| <= |l| && a.entries == l[a.prevIndex..a.prevIndex + |a.entries|]
    requires AppendFromLeader(f, a.prevIndex, a.prevTerm, a.entries) == Appended(log)
    ensures f <= log && (log == f || log <= l)
  {
    SpliceComparable(f, l, a.prevIndex, |a.entries|);
  }

  /** How a node's log changes: not at all, by its own proposal as a leader, or to a longer prefix of the
      sender's log. */
  lemma LogStep(c: Cluster, step: Step)
    requires Steady(c, step)
    ensures var s := c.nodes[Recipient(step)]; var s' := StepEffect(s, step).state;
            && s.log <= s'.log
            && (|| s'.log == s.log
                || (s.role == Leader && s'.role == Leader && s'.currentTerm == s.currentTerm)
                || (step.Deliver? && step.packet.from in c.nodes && step.packet.from != Recipient(step)
                    && s'.role == Follower && s'.log <= c.nodes[step.packet.from].log))
  {
    hide VotesOK, NodeOK, AppliedOK, StepEffect, LogOK, AppendFromLeader;
    var s := c.nodes[Recipient(step)];
    var s' := StepEffect(s, step).state;
    LogChanges(s, step);
    if s'.log != s.log && !step.Propose? {
      var p := step.packet;
      assert PacketOK(c, p) && MailOK(c, p) && LogsOK(c, p.to, p.from);
      AcceptStep(s.log, c.nodes[p.from].log, p.rpc, s'.log);
    }
  }

  /** How a node comes to lead. */
  lemma LeadStep(c: Cluster, step: Step)
    requires Steady(c, step) && |c.nodes| == 2
    ensures var n := Recipient(step); var s := c.nodes[n]; var s' := StepEffect(s, step).state;
            s'.role == Leader ==>
              || (s.role == Leader && s'.currentTerm == s.currentTerm)
              || (&& s'.log == s.log && s.role == Candidate && step.Deliver?
                  && step.packet.rpc == VoteReply(s.currentTerm, true) && step.packet.to == n)
  {
    hide VotesOK, NodeOK, AppliedOK, StepEffect, VoteMove, LogOK;
    StepShape(c, step);
    LogChanges(c.nodes[Recipient(step)], step);
    var n := Recipient(step);
    assert PeersAre(c.nodes[n].peers, c.nodes.Keys, n);
    assert |c.nodes| == |c.nodes.Keys|;
  }

  /** What a node sends out. */
  ghost predicate SentOK(s: NodeState, e: Effect, step: Step, p: Packet) {
    match p.rpc
    case RequestVote(t, _, li, lt) => t == e.state.currentTerm && li == |e.state.log| && lt == LastLogTerm(e.state.log)
    case VoteReply(t, granted) =>
      granted ==>
        && step.Deliver? && step.packet.rpc.RequestVote? && step.packet.rpc.term == t
        && p.to == step.packet.rpc.candidateId && e.state.log == s.log
        && UpToDate(s.log, step.packet.rpc.lastLogIndex, step.packet.rpc.lastLogTerm)
    case AppendEntries(_, _, prev, _, entries, _) =>
      e.state.log == s.log && prev + |entries| <= |s.log| && entries == s.log[prev..prev + |entries|]
    case AppendReply(_, _, _, _, _) => true
  }

  lemma AskForVotes(s: NodeState, step: Step, p: Packet)
    requires step.Timeout? && p in StepEffect(s, step).sent
    ensures SentOK(s, StepEffect(s, step), step, p)
  {
  }

  lemma SendSlices(s: NodeState, step: Step, p: Packet)
    requires NodeOK(s) && step.Heartbeat? && p in StepEffect(s, step).sent
    ensures SentOK(s, StepEffect(s, step), step, p)
  {
    hide LogOK, ClampAll;
    if s.role == Leader {
      var next := ClampAll(s.nextIndex, s.peers, |s.log|);
      var i :| 0 <= i < |s.peers| && p == Requests(s, next, |s.peers|)[i];
      ClampAllOther(s.nextIndex, s.peers, |s.log|, s.peers[i]);
    }
  }

  lemma AnswerMail(s: NodeState, step: Step, p: Packet)
    requires (step.Deliver? || step.CrashInHandler?) && p in StepEffect(s, step).sent
    ensures SentOK(s, StepEffect(s, step), step, p)
  {
    hide CommitUpTo, AppendFromLeader, UpToDate;
  }

  lemma SendsOK(s: NodeState, step: Step, p: Packet)
    requires NodeOK(s) && p in StepEffect(s, step).sent
    ensures SentOK(s, StepEffect(s, step), step, p)
  {
    match step
    case Timeout(_) => AskForVotes(s, step, p);
    case Heartbeat(_) => SendSlices(s, step, p);
    case Deliver(_) => AnswerMail(s, step, p);
    case _ =>
  }

  /** A standing candidate keeps its log; a new one has a new term. */
  lemma CandidateStep(c: Cluster, step: Step)
    requires Steady(c, step)
    ensures var s := c.nodes[Recipient(step)]; var s' := StepEffect(s, step).state;
            && s.currentTerm <= s'.currentTerm
            && (s'.role == Candidate ==>
                  s'.log == s.log && (s'.currentTerm > s.currentTerm || s.role == Candidate))
  {
    hide VotesOK, NodeOK, AppliedOK, StepEffect, LogOK, AppendFromLeader;
    StepShape(c, step);
    LogChanges(c.nodes[Recipient(step)], step);
  }

  /** The cluster after a step: one node changed, and only that node sent anything. */
  lemma AfterStep(c: Cluster, step: Step)
    requires Steady(c, step)
    ensures Recipient(step) in c.nodes
    ensures var n := Recipient(step); var e := StepEffect(c.nodes[n], step);
            && Apply(c, step).nodes == c.nodes[n := e.state]
            && (forall p :: p in Apply(c, step).net ==> p in c.net || p in e.sent)
            && (forall p :: p in e.sent ==> p.from == n && p.to in c.nodes && p.to != n)
  {
    hide WellFormed, VotesOK, PairOK, StepEffect, Proposed, Apply;
    var n := Recipient(step);
    EnabledStepOK(c, step);
    WellFormedNode(c, n);
    Installed(c, n, StepEffect(c.nodes[n], step), Proposed(c, step));
    assert Apply(c, step) == Install(c, n, StepEffect(c.nodes[n], step), Proposed(c, step)) by { UnfoldApply(c, step); }
  }

  lemma UnfoldApply(c: Cluster, step: Step)
    requires Enabled(c, step)
    ensures Apply(c, step) == Install(c, Recipient(step), StepEffect(c.nodes[Recipient(step)], step), Proposed(c, step))
  {
    hide StepEffect, Proposed, Install;
  }

  lemma WellFormedNode(c: Cluster, n: NodeId)
    requires WellFormed(c) && n in c.nodes
    ensures c.nodes[n].self == n && NodeOK(c.nodes[n])
  {
    hide NodeOK;
  }

  /** In a pair a node that is not `n` is the other one. */
  lemma TheOther(c: Cluster, n: NodeId, x: NodeId, y: NodeId)
    requires |c.nodes| <= 2 && n in c.nodes && x in c.nodes && y in c.nodes && x != n && y != n
    ensures x == y
  {
    assert |c.nodes| == |c.nodes.Keys|;
    PairIsAll(c.nodes.Keys, n, x);
  }

  lemma LogsStep(c: Cluster, step: Step, x: NodeId, y: NodeId)
    requires Steady(c, step) && x in c.nodes && y in c.nodes && x != y
    ensures x in Apply(c, step).nodes && y in Apply(c, step).nodes && LogsOK(Apply(c, step), x, y)
  {
    hide WellFormed, VotesOK, StepEffect, Apply, AppliedOK, Enabled;
    AfterStep(c, step);
    LogStep(c, step);
    var n := Recipient(step);
    assert LogsOK(c, x, y) && LogsOK(c, y, x);
    assert |c.nodes| == |c.nodes.Keys|;
    PairIsAll(c.nodes.Keys, x, y);
    if n == x || n == y {
      var o := if n == x then y else x;
      if step.Deliver? && step.packet.from in c.nodes && step.packet.from != n {
        TheOther(c, n, step.packet.from, o);
      }
      LeadStep(c, step);
      VoteFromOther(c, step);
      if c.nodes[n].role == Leader {
        NotBothLead(c, n, o);
      }
    }
  }

  /** A vote that elects comes from a log the candidate extends. */
  lemma VoteFromOther(c: Cluster, step: Step)
    requires Steady(c, step)
    ensures var s := c.nodes[Recipient(step)];
            step.Deliver? && step.packet.rpc == VoteReply(s.currentTerm, true) && s.role == Candidate ==>
              && step.packet.from in c.nodes && step.packet.from != Recipient(step)
              && c.nodes[step.packet.from].log <= s.log
  {
    hide VotesOK, StepEffect, AppliedOK, NodeOK, LogsOK;
    if step.Deliver? {
      assert PacketOK(c, step.packet) && MailOK(c, step.packet);
    }
  }

  lemma OldMail(c: Cluster, step: Step, p: Packet)
    requires Steady(c, step) && p in c.net
    ensures p.from in Apply(c, step).nodes && p.to in Apply(c, step).nodes && MailOK(Apply(c, step), p)
  {
    hide VotesOK, StepEffect, Apply, AppliedOK, Enabled, NodeOK;
    AfterStep(c, step);
    LogStep(c, step);
    CandidateStep(c, step);
    assert PacketOK(c, p) && MailOK(c, p);
    var n := Recipient(step);
    if p.rpc.VoteReply? && p.rpc.granted && p.from == n {
      if c.nodes[p.to].currentTerm == p.rpc.term {
        GranterDoesNotLead(c, p);
      }
      if step.Deliver? && step.packet.from in c.nodes && step.packet.from != n {
        TheOther(c, n, step.packet.from, p.to);
      }
    }
  }

  lemma NewMail(c: Cluster, step: Step, p: Packet)
    requires Steady(c, step) && p in StepEffect(c.nodes[Recipient(step)], step).sent
    ensures p.from in Apply(c, step).nodes && p.to in Apply(c, step).nodes && MailOK(Apply(c, step), p)
  {
    hide VotesOK, StepEffect, Apply, AppliedOK, NodeOK, UpToDate, LastLogTerm;
    AfterStep(c, step);
    var n := Recipient(step);
    WellFormedNode(c, n);
    SendsOK(c.nodes[n], step, p);
    if p.rpc.VoteReply? && p.rpc.granted {
      var q := step.packet;
      assert PacketOK(c, q) && MailOK(c, q) && LogsOK(c, n, q.from);
      LogInOrder(c.nodes[n]);
      if UpToDate(c.nodes[n].log, |c.nodes[q.from].log|, LastLogTerm(c.nodes[q.from].log)) {
        UpToDateExtends(c.nodes[n].log, c.nodes[q.from].log, c.nodes[n].currentTerm);
      }
    }
  }

  lemma LogInOrder(s: NodeState)
    requires NodeOK(s)
    ensures LogOK(s.log, s.currentTerm)
  {
  }

  // ---------------------------------------------------------------------
  // What is applied

  lemma ApplyCommittedOK(s: NodeState)
    requires AppliedOK(s)
    ensures AppliedOK(ApplyCommitted(s))
  {
    if s.lastApplied < s.commitIndex {
      assert s.log[..s.lastApplied] + s.log[s.lastApplied..s.commitIndex] == s.log[..s.commitIndex];
    }
  }

  lemma CommitUpToOK(s: NodeState, leaderCommit: nat)
    requires AppliedOK(s)
    ensures AppliedOK(CommitUpTo(s, leaderCommit))
  {
    hide ApplyCommitted;
    if leaderCommit > s.commitIndex {
      ApplyCommittedOK(s.(commitIndex := if |s.log| < leaderCommit then |s.log| else leaderCommit));
    }
  }

  lemma AdvanceCommitOK(s: NodeState)
    requires AppliedOK(s)
    ensures AppliedOK(AdvanceCommit(s))
  {
    hide ApplyCommitted, Committable;
    if s.role == Leader && HighestCommittable(s, |s.log|) != s.commitIndex {
      ApplyCommittedOK(s.(commitIndex := HighestCommittable(s, |s.log|)));
    }
  }

  /** A longer log leaves what was applied where it was. */
  lemma LongerLogOK(s: NodeState, log: Log)
    requires AppliedOK(s) && s.log <= log
    ensures AppliedOK(s.(log := log))
  {
    assert log[..s.lastApplied] == s.log[..s.lastApplied];
  }

  lemma DeliverApplied(s: NodeState, p: Packet)
    requires AppliedOK(s) && s.log <= DeliverEffect(s, p).state.log
    ensures AppliedOK(DeliverEffect(s, p).state)
  {
    hide CommitUpTo, AdvanceCommit, AppendFromLeader, NextAfterConflict, SetAll, UpToDate;
    match p.rpc
    case RequestVote(_, _, _, _) =>
    case VoteReply(_, _) =>
    case AppendEntries(term, leader, prev, prevTerm, entries, commit) =>
      if term >= s.currentTerm {
        match AppendFromLeader(s.log, prev, prevTerm, entries)
        case Conflict(_, _) =>
        case Appended(log) =>
          var s1 := FollowLeader(s, term, leader);
          LongerLogOK(s1, log);
          CommitUpToOK(s1.(log := log), commit);
      }
    case AppendReply(_, success, index, _, _) =>
      if success {
        AdvanceCommitOK(s.(matchIndex := s.matchIndex[p.from := index], nextIndex := s.nextIndex[p.from := index + 1]));
      }
  }

  lemma AppliedStep(s: NodeState, step: Step)
    requires AppliedOK(s) && s.log <= StepEffect(s, step).state.log
    ensures AppliedOK(StepEffect(s, step).state)
  {
    hide AdvanceCommit, SetAll, ClampAll, DeliverEffect;
    match step
    case Deliver(p) => DeliverApplied(s, p);
    case Advance(_) => AdvanceCommitOK(s);
    case Propose(_, cmd) => LongerLogOK(s, OnPropose(s, cmd).log);
    case _ =>
  }

  // ---------------------------------------------------------------------
  // Runs

  lemma PairStep(c: Cluster, step: Step)
    requires Steady(c, step)
    ensures PairOK(Apply(c, step))
  {
    hide WellFormed, VotesOK, StepEffect, Apply, MailOK, LogsOK, Enabled;
    AfterStep(c, step);
    LogStep(c, step);
    var c', n := Apply(c, step), Recipient(step);
    AppliedStep(c.nodes[n], step);
    forall x, y | x in c'.nodes && y in c'.nodes && x != y ensures LogsOK(c', x, y) {
      LogsStep(c, step, x, y);
    }
    forall p | p in c'.net ensures p.from in c'.nodes && p.to in c'.nodes && MailOK(c', p) {
      if p in c.net {
        OldMail(c, step, p);
      } else {
        NewMail(c, step, p);
      }
    }
  }

  lemma InitialPair(c: Cluster)
    requires Initial(c)
    ensures PairOK(c)
  {
  }

  lemma {:induction false} ReachablePair(c0: Cluster, steps: seq<Step>)
    requires Initial(c0) && |c0.nodes| <= 2
    ensures PairOK(Exec(c0, steps))
    decreases |steps|
  {
    hide Apply, WellFormed, VotesOK, PairOK, Initial;
    if steps == [] {
      InitialPair(c0);
    } else {
      var before, step := steps[..|steps| - 1], steps[|steps| - 1];
      ReachablePair(c0, before);
      if Enabled(Exec(c0, before), step) {
        ReachableSteady(c0, before, step);
        PairStep(Exec(c0, before), step);
      } else {
        Disabled(Exec(c0, before), step);
      }
    }
  }

  lemma ReachableSteady(c0: Cluster, steps: seq<Step>, step: Step)
    requires Initial(c0) && |c0.nodes| <= 2 && PairOK(Exec(c0, steps)) && Enabled(Exec(c0, steps), step)
    ensures Steady(Exec(c0, steps), step)
  {
    hide Apply, WellFormed, VotesOK, PairOK, Initial;
    ReachableWellFormed(c0, steps);
    ReachableVotes(c0, steps);
    var c := Exec(c0, steps);
    assert |c.nodes| == |c.nodes.Keys| == |c0.nodes.Keys| == |c0.nodes|;
  }

  lemma Disabled(c: Cluster, step: Step)
    requires !Enabled(c, step)
    ensures Apply(c, step) == c
  {
  }

  lemma CommandsOfPrefix(a: Log, b: Log, i: nat, j: nat)
    requires Comparable(a, b) && i <= |a| && j <= |b|
    ensures Comparable(Commands(a[..i]), Commands(b[..j]))
  {
    if i <= j {
      assert Commands(a[..i]) <= Commands(b[..j]);
    } else {
      assert Commands(b[..j]) <= Commands(a[..i]);
    }
  }

  ghost predicate LogsGrow(c: Cluster, c': Cluster) {
    c'.nodes.Keys == c.nodes.Keys && forall n :: n in c.nodes ==> c.nodes[n].log <= c'.nodes[n].log
  }

  /** Nothing in a log is ever taken back. */
  lemma {:induction false} LogsOnlyGrow(c0: Cluster, steps: seq<Step>, i: nat)
    requires Initial(c0) && |c0.nodes| <= 2 && i <= |steps|
    ensures LogsGrow(Exec(c0, steps[..i]), Exec(c0, steps))
    decreases |steps|
  {
    hide Apply, WellFormed, VotesOK, PairOK, Initial, StepEffect;
    if i == |steps| {
      assert steps[..i] == steps;
    } else {
      var before, step := steps[..|steps| - 1], steps[|steps| - 1];
      LogsOnlyGrow(c0, before, i);
      assert before[..i] == steps[..i];
      if Enabled(Exec(c0, before), step) {
        ReachablePair(c0, before);
        ReachableSteady(c0, before, step);
        LogStep(Exec(c0, before), step);
        AfterStep(Exec(c0, before), step);
      } else {
        Disabled(Exec(c0, before), step);
      }
    }
  }

  lemma LogsComparable(c: Cluster, m: NodeId, n: NodeId)
    requires PairOK(c) && m in c.nodes && n in c.nodes
    ensures Comparable(c.nodes[m].log, c.nodes[n].log)
  {
    hide AppliedOK, MailOK;
    if m != n {
      assert LogsOK(c, m, n);
    }
  }

  /** In every run of a cluster of at most two nodes, all nodes apply the same commands in the same order: what
      any node applied by any moment, before or after whatever restarts, agrees with what any node has applied at
      the end. */
  lemma SmallClusterAgrees(c0: Cluster, steps: seq<Step>, i: nat)
    requires Initial(c0) && |c0.nodes| <= 2 && i <= |steps|
    ensures AppliedAgree(Exec(c0, steps[..i]), Exec(c0, steps))
  {
    hide Apply, Initial, WellFormed, Exec, MailOK, LogsOK;
    var b, c := Exec(c0, steps[..i]), Exec(c0, steps);
    ReachablePair(c0, steps[..i]);
    ReachablePair(c0, steps);
    LogsOnlyGrow(c0, steps, i);
    forall m, n | m in b.nodes && n in c.nodes ensures Comparable(b.nodes[m].applied, c.nodes[n].applied) {
      var k := b.nodes[m].lastApplied;
      assert AppliedOK(b.nodes[m]) && AppliedOK(c.nodes[n]);
      assert b.nodes[m].log[..k] == c.nodes[m].log[..k];
      LogsComparable(c, m, n);
      CommandsOfPrefix(c.nodes[m].log, c.nodes[n].log, k, c.nodes[n].lastApplied);
    }
  }
}
