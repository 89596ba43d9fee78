/**
 A Raft cluster as a transition system.

 A cluster is the state of its nodes and the packets sent so far. Packets are
 never removed and any of them may be delivered at any time, so a run may lose,
 duplicate and reorder messages freely. A run is a list of steps from an initial
 cluster; a step that is not enabled leaves the cluster as it is.

 `events` and `proposed` are history: they record votes, acceptances, elections and
 the log at each proposal, and no handler reads them.
 */
module RaftCluster {
  import opened RaftTypes

  datatype Event =
    | Granted(voter: NodeId, term: nat, candidate: NodeId)
    | Accepted(voter: NodeId, term: nat)
    | BecameLeader(leader: NodeId, term: nat)

  /** `proposed[(i, t)]` is the leader's log just after it appended entry `i` in term `t`. */
  datatype Cluster = Cluster(
    nodes: map<NodeId, NodeState>,
    net: set<Packet>,
    events: seq<Event>,
    proposed: map<(nat, nat), Log>)

  datatype Step =
    | Timeout(node: NodeId)
    | Deliver(packet: Packet)
    | Heartbeat(node: NodeId)
    | Propose(node: NodeId, cmd: Command)
    | Advance(node: NodeId)
    | Restart(node: NodeId)
    // The node crashes while handling `packet`, after the handler's first write to
    // stable storage and before its second, and restarts.
    | CrashInHandler(packet: Packet)

  /** What a step does: the new state of one node, what it sends, and the votes and acceptances it makes. */
  datatype Effect = Effect(state: NodeState, sent: seq<Packet>, votes: seq<Event>)

  function Recipient(step: Step): NodeId {
    match step
    case Deliver(p) => p.to
    case CrashInHandler(p) => p.to
    case _ => step.node
  }

  predicate Enabled(c: Cluster, step: Step) {
    && Recipient(step) in c.nodes
    && (step.Deliver? ==> step.packet in c.net)
    && (step.CrashInHandler? ==>
          && step.packet in c.net
          && InterruptedTerm(c.nodes[step.packet.to], step.packet.rpc))
  }

  /** The message makes the handler persist the message's term, with the vote cleared, before anything else. */
  predicate InterruptedTerm(s: NodeState, rpc: RPC) {
    || (rpc.RequestVote? && rpc.term > s.currentTerm)
    || (rpc.AppendEntries? && rpc.term >= s.currentTerm)
  }

  /** A node that is now leader of a term it did not lead before has just been elected. */
  function ElectionEvents(s: NodeState, s': NodeState): seq<Event> {
    if s'.role == Leader && (s.role != Leader || s.currentTerm != s'.currentTerm)
    then [BecameLeader(s'.self, s'.currentTerm)] else []
  }

  function DeliverEffect(s: NodeState, p: Packet): Effect {
    match p.rpc
    case RequestVote(_, candidate, _, _) =>
      var (s', reply) := OnRequestVote(s, p.rpc);
      var granted := reply.rpc.VoteReply? && reply.rpc.granted;
      Effect(s', [reply], if granted then [Granted(s.self, s'.currentTerm, candidate)] else [])
    case VoteReply(_, _) =>
      Effect(OnVoteReply(s, p.from, p.rpc), [], [])
    case AppendEntries(term, _, _, _, _, _) =>
      var (s', reply) := OnAppendEntries(s, p.rpc);
      Effect(s', [reply], if term >= s.currentTerm then [Accepted(s.self, term)] else [])
    case AppendReply(_, _, _, _, _) =>
      Effect(OnAppendReply(s, p.from, p.rpc), [], [])
  }

  function StepEffect(s: NodeState, step: Step): Effect {
    match step
    case Timeout(_) =>
      var (s', sent) := OnElectionTimeout(s);
      Effect(s', sent, if s.role == Leader then [] else [Granted(s.self, s'.currentTerm, s.self)])
    case Deliver(p) => DeliverEffect(s, p)
    case Heartbeat(_) =>
      var (s', sent) := OnHeartbeat(s);
      Effect(s', sent, [])
    case Propose(_, cmd) => Effect(OnPropose(s, cmd), [], [])
    case Advance(_) => Effect(AdvanceCommit(s), [], [])
    case Restart(_) =>
      var s' := OnRestart(s);
      Effect(s', [], if s.peers == [] then [Granted(s.self, s'.currentTerm, s.self)] else [])
    case CrashInHandler(p) =>
      Effect(Fresh(s.self, s.peers, p.rpc.term, NOBODY, s.log), [],
             if p.rpc.AppendEntries? then [Accepted(s.self, p.rpc.term)] else [])
  }

  function SentSet(sent: seq<Packet>): set<Packet> {
    set p | p in sent
  }

  /** Install the effect of a step on node `n`. */
  function Install(c: Cluster, n: NodeId, e: Effect, proposed: map<(nat, nat), Log>): Cluster
    requires n in c.nodes
  {
    Cluster(c.nodes[n := e.state], c.net + SentSet(e.sent),
            c.events + e.votes + ElectionEvents(c.nodes[n], e.state), proposed)
  }

  function Proposed(c: Cluster, step: Step): map<(nat, nat), Log>
    requires Enabled(c, step)
  {
    var s := c.nodes[Recipient(step)];
    if step.Propose? && s.role == Leader
    then c.proposed[(|s.log| + 1, s.currentTerm) := OnPropose(s, step.cmd).log] else c.proposed
  }

  function Apply(c: Cluster, step: Step): Cluster {
    if !Enabled(c, step) then c
    else Install(c, Recipient(step), StepEffect(c.nodes[Recipient(step)], step), Proposed(c, step))
  }

  function Exec(c: Cluster, steps: seq<Step>): Cluster {
    if steps == [] then c else Apply(Exec(c, steps[..|steps| - 1]), steps[|steps| - 1])
  }

  lemma {:induction false} ExecAppend(c: Cluster, steps: seq<Step>, more: seq<Step>)
    ensures Exec(c, steps + more) == Exec(Exec(c, steps), more)
    decreases |more|
  {
    hide Apply;
    if more == [] {
      assert steps + more == steps;
    } else {
      assert (steps + more)[..|steps + more| - 1] == steps + more[..|more| - 1];
      ExecAppend(c, steps, more[..|more| - 1]);
    }
  }

  lemma ExecTwo(c: Cluster, s1: Step, s2: Step)
    ensures Exec(c, [s1, s2]) == Apply(Apply(c, s1), s2)
    ensures Exec(c, [s1]) == Apply(c, s1)
    ensures Exec(c, []) == c
  {
    hide Apply;
    assert [s1, s2][..1] == [s1] && [s1][..0] == [];
    assert Exec(c, [s1]) == Apply(c, s1);
  }

  /** Every node is new, and the peers of each are exactly the other nodes. */
  ghost predicate Initial(c: Cluster) {
    && c.net == {} && c.events == [] && c.proposed == map[]
    && NOBODY !in c.nodes
    && forall n :: n in c.nodes ==>
         && c.nodes[n] == Fresh(n, c.nodes[n].peers, 0, NOBODY, [])
         && PeersAre(c.nodes[n].peers, c.nodes.Keys, n)
  }

  /** The peers of `n` are the other nodes, each listed once. */
  ghost predicate PeersAre(peers: seq<NodeId>, all: set<NodeId>, n: NodeId) {
    && |peers| + 1 == |all|
    && forall p :: p in peers <==> p in all && p != n
  }

  // ---------------------------------------------------------------------
  // Well-formedness of every reachable cluster

  /** Entry `i` sits at position `i`; terms start at one, never decrease and are bounded. */
  ghost predicate LogOK(log: Log, term: nat) {
    && (forall i :: 0 <= i < |log| ==> log[i].index == i + 1 && 1 <= log[i].term <= term)
    && (forall i, j :: 0 <= i < j < |log| ==> log[i].term <= log[j].term)
  }

  /** The entries follow position `prev` without a gap, in term order, starting no lower than `prevTerm`. */
  ghost predicate SliceOK(prev: nat, prevTerm: nat, entries: Log, term: nat) {
    && (prev == 0 <==> prevTerm == 0)
    && (forall i :: 0 <= i < |entries| ==>
          entries[i].index == prev + 1 + i && 1 <= entries[i].term <= term && prevTerm <= entries[i].term)
    && (forall i, j :: 0 <= i < j < |entries| ==> entries[i].term <= entries[j].term)
  }

  ghost predicate NodeOK(s: NodeState) {
    && LogOK(s.log, s.currentTerm)
    && (s.role != Follower ==> s.currentTerm >= 1)
    && (s.role == Leader ==> forall p :: p in s.peers ==> Get(s.nextIndex, p) >= 1)
    && s.commitIndex <= s.lastApplied == |s.applied|
  }

  ghost predicate RpcOK(p: Packet) {
    match p.rpc
    case RequestVote(_, candidate, _, _) => candidate == p.from
    case VoteReply(_, _) => true
    case AppendEntries(term, leader, prev, prevTerm, entries, _) =>
      leader == p.from && SliceOK(prev, prevTerm, entries, term)
    case AppendReply(_, _, _, _, _) => true
  }

  ghost predicate PacketOK(c: Cluster, p: Packet) {
    && p.from in c.nodes && p.to in c.nodes && p.from != p.to
    && p.rpc.term <= c.nodes[p.from].currentTerm
    && RpcOK(p)
  }

  ghost predicate WellFormed(c: Cluster) {
    && NOBODY !in c.nodes
    && (forall n :: n in c.nodes ==>
          && c.nodes[n].self == n
          && PeersAre(c.nodes[n].peers, c.nodes.Keys, n)
          && NodeOK(c.nodes[n]))
    && (forall p :: p in c.net ==> PacketOK(c, p))
  }

  /** A log cut at `at` and continued by a slice that fits there is in order. */
  lemma JoinKeepsOrder(log: Log, at: nat, prevTerm: nat, entries: Log, term: nat)
    requires at <= |log|
    requires LogOK(log, term) && SliceOK(at, prevTerm, entries, term)
    requires at > 0 ==> log[at - 1].term == prevTerm
    ensures LogOK(log[..at] + entries, term)
  {
    var joined := log[..at] + entries;
    forall i, j | 0 <= i < j < |joined| ensures joined[i].term <= joined[j].term {
      assert i < at ==> log[i].term <= log[at - 1].term;
    }
  }

  lemma {:induction false} SpliceKeepsOrder(log: Log, at: nat, prevTerm: nat, entries: Log, term: nat)
    requires at <= |log|
    requires LogOK(log, term) && SliceOK(at, prevTerm, entries, term)
    requires at > 0 ==> log[at - 1].term == prevTerm
    ensures LogOK(Splice(log, at, entries), term)
    decreases |entries|
  {
    if entries != [] {
      if at < |log| && log[at].term == entries[0].term {
        SpliceKeepsOrder(log, at + 1, entries[0].term, entries[1..], term);
      } else {
        hide LogOK, SliceOK;
        JoinKeepsOrder(log, at, prevTerm, entries, term);
        assert at == |log| ==> log[..at] == log;
      }
    }
  }

  /** The node stays well-formed, never goes back a term, and sends only well-formed packets of its own. */
  ghost predicate GoodEffect(s: NodeState, e: Effect, to: set<NodeId>) {
    && NodeOK(e.state)
    && e.state.self == s.self && e.state.peers == s.peers
    && s.currentTerm <= e.state.currentTerm
    && forall p :: p in e.sent ==>
         p.from == s.self && p.to in to && p.rpc.term <= e.state.currentTerm && RpcOK(p)
  }

  lemma BecomeLeaderOK(s: NodeState)
    requires NodeOK(s) && s.currentTerm >= 1
    ensures var b := BecomeLeader(s);
            NodeOK(b) && b.self == s.self && b.peers == s.peers && b.currentTerm == s.currentTerm
  {
    forall p | p in s.peers ensures Get(BecomeLeader(s).nextIndex, p) >= 1 {
      SetAllGet(s.nextIndex, s.peers, |s.log| + 1, p);
    }
  }

  lemma TimeoutOK(s: NodeState, n: NodeId, to: set<NodeId>)
    requires NodeOK(s) && forall p :: p in s.peers ==> p in to
    ensures GoodEffect(s, StepEffect(s, Timeout(n)), to)
  {
  }

  lemma RestartOK(s: NodeState, n: NodeId, to: set<NodeId>)
    requires NodeOK(s)
    ensures GoodEffect(s, StepEffect(s, Restart(n)), to)
  {
  }

  lemma HeartbeatOK(s: NodeState, n: NodeId, to: set<NodeId>)
    requires NodeOK(s) && forall p :: p in s.peers ==> p in to
    ensures GoodEffect(s, StepEffect(s, Heartbeat(n)), to)
  {
    if s.role == Leader {
      var next := ClampAll(s.nextIndex, s.peers, |s.log|);
      ClampKeepsPositive(s.nextIndex, s.peers, |s.log|);
      forall i | 0 <= i < |s.peers|
        ensures var rpc := EntriesFrom(s.currentTerm, s.self, s.log, s.commitIndex, Get(next, s.peers[i]));
                SliceOK(rpc.prevIndex, rpc.prevTerm, rpc.entries, rpc.term)
      {
        ClampAllOther(s.nextIndex, s.peers, |s.log|, s.peers[i]);
        EntriesFromOK(s, Get(next, s.peers[i]));
      }
    }
  }

  lemma EntriesFromOK(s: NodeState, next: nat)
    requires LogOK(s.log, s.currentTerm) && 1 <= next <= |s.log| + 1
    ensures var rpc := EntriesFrom(s.currentTerm, s.self, s.log, s.commitIndex, next);
            SliceOK(rpc.prevIndex, rpc.prevTerm, rpc.entries, rpc.term)
  {
  }

  lemma CommitOK(s: NodeState, leaderCommit: nat)
    requires NodeOK(s)
    ensures NodeOK(CommitUpTo(s, leaderCommit)) && NodeOK(AdvanceCommit(s))
  {
  }

  lemma AppendEntriesOK(s: NodeState, p: Packet, to: set<NodeId>)
    requires NodeOK(s) && p.rpc.AppendEntries? && RpcOK(p) && p.from in to
    ensures GoodEffect(s, DeliverEffect(s, p), to)
  {
    var a := p.rpc;
    if a.term >= s.currentTerm && AppendFromLeader(s.log, a.prevIndex, a.prevTerm, a.entries).Appended? {
      assert LogOK(s.log, a.term);
      SpliceKeepsOrder(s.log, a.prevIndex, a.prevTerm, a.entries, a.term);
      var s1 := FollowLeader(s, a.term, a.leaderId).(log := Splice(s.log, a.prevIndex, a.entries));
      CommitOK(s1, a.leaderCommit);
    }
  }

  lemma AppendReplyOK(s: NodeState, p: Packet, to: set<NodeId>)
    requires NodeOK(s) && p.rpc.AppendReply?
    ensures GoodEffect(s, DeliverEffect(s, p), to)
  {
    hide AdvanceCommit;
    var r := p.rpc;
    if r.term <= s.currentTerm && s.role == Leader && r.success {
      CommitOK(s.(matchIndex := s.matchIndex[p.from := r.matchIndex],
                  nextIndex := s.nextIndex[p.from := r.matchIndex + 1]), 0);
    }
  }

  lemma RequestVoteOK(s: NodeState, p: Packet, to: set<NodeId>)
    requires NodeOK(s) && p.rpc.RequestVote? && RpcOK(p) && p.from in to
    ensures GoodEffect(s, DeliverEffect(s, p), to)
  {
  }

  lemma VoteReplyOK(s: NodeState, p: Packet, to: set<NodeId>)
    requires NodeOK(s) && p.rpc.VoteReply?
    ensures GoodEffect(s, DeliverEffect(s, p), to)
  {
    hide BecomeLeader;
    if p.rpc.term <= s.currentTerm && s.role == Candidate {
      BecomeLeaderOK(s.(voteGranted := s.voteGranted + {p.from}));
    }
  }

  lemma StepOK(s: NodeState, step: Step, to: set<NodeId>)
    requires NodeOK(s) && forall p :: p in s.peers ==> p in to
    requires step.Deliver? || step.CrashInHandler? ==> RpcOK(step.packet) && step.packet.from in to
    requires step.CrashInHandler? ==> InterruptedTerm(s, step.packet.rpc)
    ensures GoodEffect(s, StepEffect(s, step), to)
  {
    match step
    case Timeout(n) => TimeoutOK(s, n, to);
    case Deliver(p) =>
      match p.rpc {
        case RequestVote(_, _, _, _) => RequestVoteOK(s, p, to);
        case VoteReply(_, _) => VoteReplyOK(s, p, to);
        case AppendEntries(_, _, _, _, _, _) => AppendEntriesOK(s, p, to);
        case AppendReply(_, _, _, _, _) => AppendReplyOK(s, p, to);
      }
    case Heartbeat(n) => HeartbeatOK(s, n, to);
    case Propose(_, _) =>
    case Advance(_) => CommitOK(s, 0);
    case Restart(n) => RestartOK(s, n, to);
    case CrashInHandler(_) =>
  }

  lemma InstallKeepsPackets(c: Cluster, n: NodeId, e: Effect, proposed: map<(nat, nat), Log>, p: Packet)
    requires WellFormed(c) && n in c.nodes
    requires GoodEffect(c.nodes[n], e, c.nodes.Keys - {n})
    requires p in Install(c, n, e, proposed).net
    ensures PacketOK(Install(c, n, e, proposed), p)
  {
    hide NodeOK, RpcOK, PeersAre;
    if p in c.net {
      assert PacketOK(c, p);
    }
  }

  lemma InstallWellFormed(c: Cluster, n: NodeId, e: Effect, proposed: map<(nat, nat), Log>)
    requires WellFormed(c) && n in c.nodes
    requires GoodEffect(c.nodes[n], e, c.nodes.Keys - {n})
    ensures var c' := Install(c, n, e, proposed);
            && WellFormed(c') && c'.nodes.Keys == c.nodes.Keys
            && forall m :: m in c.nodes ==> c.nodes[m].currentTerm <= c'.nodes[m].currentTerm
  {
    hide NodeOK, PacketOK, PeersAre;
    var c' := Install(c, n, e, proposed);
    assert c'.nodes.Keys == c.nodes.Keys;
    forall p | p in c'.net ensures PacketOK(c', p) {
      InstallKeepsPackets(c, n, e, proposed, p);
    }
  }

  lemma EnabledStepOK(c: Cluster, step: Step)
    requires WellFormed(c) && Enabled(c, step)
    ensures var n := Recipient(step); GoodEffect(c.nodes[n], StepEffect(c.nodes[n], step), c.nodes.Keys - {n})
  {
    hide StepEffect, LogOK, NodeOK, GoodEffect, RpcOK;
    var n := Recipient(step);
    if step.Deliver? || step.CrashInHandler? {
      assert PacketOK(c, step.packet);
    }
    StepOK(c.nodes[n], step, c.nodes.Keys - {n});
  }

  lemma ApplyWellFormed(c: Cluster, step: Step)
    requires WellFormed(c)
    ensures WellFormed(Apply(c, step))
    ensures Apply(c, step).nodes.Keys == c.nodes.Keys
    ensures forall n :: n in c.nodes ==> c.nodes[n].currentTerm <= Apply(c, step).nodes[n].currentTerm
  {
    hide StepEffect, WellFormed, Proposed, GoodEffect, Install;
    if Enabled(c, step) {
      var n := Recipient(step);
      EnabledStepOK(c, step);
      InstallWellFormed(c, n, StepEffect(c.nodes[n], step), Proposed(c, step));
    }
  }

  lemma InitialWellFormed(c: Cluster)
    requires Initial(c)
    ensures WellFormed(c)
  {
  }

  /** An enabled step changes only its recipient, and only adds packets. */
  lemma ApplyFrame(c: Cluster, step: Step)
    requires Enabled(c, step)
    ensures var c', n := Apply(c, step), Recipient(step);
            var e := StepEffect(c.nodes[n], step);
            && c'.nodes == c.nodes[n := e.state]
            && (forall p :: p in c.net || p in e.sent ==> p in c'.net)
  {
    hide StepEffect, Proposed;
  }

  /** In every reachable cluster logs, packets and index tables are well-formed. */
  lemma {:induction false} ReachableWellFormed(c0: Cluster, steps: seq<Step>)
    requires Initial(c0)
    ensures WellFormed(Exec(c0, steps))
    ensures Exec(c0, steps).nodes.Keys == c0.nodes.Keys
    decreases |steps|
  {
    hide WellFormed, Apply, Initial;
    if steps == [] {
      InitialWellFormed(c0);
    } else {
      ReachableWellFormed(c0, steps[..|steps| - 1]);
      ApplyWellFormed(Exec(c0, steps[..|steps| - 1]), steps[|steps| - 1]);
    }
  }

  /** A node's term never goes back, over any stretch of any run. */
  lemma {:induction false} TermsNeverDecrease(c0: Cluster, steps: seq<Step>, i: nat, n: NodeId)
    requires Initial(c0) && i <= |steps| && n in c0.nodes
    ensures n in Exec(c0, steps[..i]).nodes && n in Exec(c0, steps).nodes
    ensures Exec(c0, steps[..i]).nodes[n].currentTerm <= Exec(c0, steps).nodes[n].currentTerm
    decreases |steps|
  {
    hide WellFormed, Apply, Initial;
    ReachableWellFormed(c0, steps[..i]);
    ReachableWellFormed(c0, steps);
    if i == |steps| {
      assert steps[..i] == steps;
    } else {
      var front := steps[..|steps| - 1];
      TermsNeverDecrease(c0, front, i, n);
      assert front[..i] == steps[..i];
      ReachableWellFormed(c0, front);
      ApplyWellFormed(Exec(c0, front), steps[|steps| - 1]);
    }
  }
}
