/**
 Which votes are granted. A ballot carries the length and the last term of the log its candidate had when it asked;
 a voter compares them with its own log. Everything here is said of the logs themselves, at the moment of asking and
 at the moment of voting, which may be far apart.
 */
module RaftBallots {
  import opened RaftTypes
  import opened RaftCluster
  import opened RaftElection
  import opened RaftLogMatching
  import opened RaftBackoff

  /** Log `l` ends in a later term than `v`, or in the same term and is no shorter. */
  ghost predicate AsRecent(l: Log, v: Log) {
    v == [] || (l != [] && (|| l[|l| - 1].term > v[|v| - 1].term
                            || (l[|l| - 1].term == v[|v| - 1].term && |l| >= |v|)))
  }

  /** With step `i` of the run node `x` starts its election of term `t`. */
  ghost predicate AsksAt(c0: Cluster, steps: seq<Step>, i: nat, x: NodeId, t: nat) {
    && i < |steps| && steps[i] == Timeout(x) && x in Exec(c0, steps[..i]).nodes
    && Exec(c0, steps[..i]).nodes[x].currentTerm + 1 == t
    && x in Exec(c0, steps[..i + 1]).nodes && Exec(c0, steps[..i + 1]).nodes[x].currentTerm == t
  }

  /** The log with which it asks. */
  ghost function LogAsked(c0: Cluster, steps: seq<Step>, i: nat, x: NodeId): Log
    requires i < |steps| && x in Exec(c0, steps[..i]).nodes
  {
    Exec(c0, steps[..i]).nodes[x].log
  }

  /** What a ballot says of a log. */
  ghost predicate Describes(rpc: RPC, l: Log)
    requires rpc.RequestVote?
  {
    rpc.lastLogIndex == |l| && rpc.lastLogTerm == if l == [] then 0 else l[|l| - 1].term
  }

  lemma SentBallots(s: NodeState, step: Step, p: Packet)
    requires p in StepEffect(s, step).sent && p.rpc.RequestVote?
    ensures step.Timeout? && p.from == s.self && p.rpc.candidateId == s.self
    ensures p.rpc.term == s.currentTerm + 1 == StepEffect(s, step).state.currentTerm
    ensures Describes(p.rpc, s.log)
  {
    hide SetAll, ClampAll;
  }

  lemma AsksLater(c0: Cluster, steps: seq<Step>, step: Step, i: nat, x: NodeId, t: nat)
    requires AsksAt(c0, steps, i, x, t)
    ensures AsksAt(c0, steps + [step], i, x, t)
    ensures LogAsked(c0, steps + [step], i, x) == LogAsked(c0, steps, i, x)
  {
    hide Exec;
    assert (steps + [step])[..i] == steps[..i] && (steps + [step])[..i + 1] == steps[..i + 1];
  }

  /** Every ballot was sent by its candidate when it started that election, and describes the log it had then. */
  lemma {:induction false} BallotOrigin(c0: Cluster, steps: seq<Step>, p: Packet) returns (i: nat)
    requires Initial(c0) && p in Exec(c0, steps).net && p.rpc.RequestVote?
    ensures AsksAt(c0, steps, i, p.from, p.rpc.term) && Describes(p.rpc, LogAsked(c0, steps, i, p.from))
    ensures p.rpc.candidateId == p.from
    decreases |steps|
  {
    hide Apply, WellFormed;
    var front, step := steps[..|steps| - 1], steps[|steps| - 1];
    assert steps == front + [step];
    var c := Exec(c0, front);
    if p in c.net {
      i := BallotOrigin(c0, front, p);
      AsksLater(c0, front, step, i, p.from, p.rpc.term);
    } else {
      ReachableWellFormed(c0, front);
      NewPacket(c, step, p);
      SentBallots(c.nodes[Recipient(step)], step, p);
      i := |front|;
      assert steps[..i] == front && steps[..i + 1] == steps;
    }
  }

  lemma NewPacket(c: Cluster, step: Step, p: Packet)
    requires WellFormed(c) && p !in c.net && p in Apply(c, step).net
    ensures Enabled(c, step) && c.nodes[Recipient(step)].self == Recipient(step)
    ensures p in StepEffect(c.nodes[Recipient(step)], step).sent
    ensures Apply(c, step).nodes == c.nodes[Recipient(step) := StepEffect(c.nodes[Recipient(step)], step).state]
  {
    hide StepEffect, Proposed, NodeOK, PacketOK;
  }

  /** A node asks at most once in a term, and in rising terms. */
  lemma AsksInRisingTerms(c0: Cluster, steps: seq<Step>, i: nat, j: nat, x: NodeId, t: nat, u: nat)
    requires Initial(c0) && AsksAt(c0, steps, i, x, t) && AsksAt(c0, steps, j, x, u) && i < j
    ensures t < u
  {
    hide Exec, Initial;
    KnownFromTheStart(c0, steps[..i], x);
    assert steps[..j][..i + 1] == steps[..i + 1];
    TermsNeverDecrease(c0, steps[..j], i + 1, x);
  }

  lemma KnownFromTheStart(c0: Cluster, steps: seq<Step>, x: NodeId)
    requires Initial(c0) && x in Exec(c0, steps).nodes
    ensures x in c0.nodes
  {
    hide Exec, Initial;
    ReachableWellFormed(c0, steps);
  }

  /** Whether the voter may still vote for the sender of the ballot. */
  ghost predicate VoteIsFree(s: NodeState, p: Packet) {
    p.rpc.term > s.currentTerm || (p.rpc.term == s.currentTerm && (s.votedFor == NOBODY || s.votedFor == p.from))
  }

  /** What a voter does with a ballot. */
  ghost predicate Decides(c: Cluster, c': Cluster, p: Packet, granted: bool)
    requires p.to in c.nodes && p.rpc.RequestVote?
  {
    var s := c.nodes[p.to];
    var t := if p.rpc.term > s.currentTerm then p.rpc.term else s.currentTerm;
    && c'.events == c.events + (if granted then [Granted(p.to, t, p.from)] else [])
    && Packet(p.to, p.from, VoteReply(t, granted)) in c'.net
    && p.to in c'.nodes && c'.nodes[p.to].log == s.log && c'.nodes[p.to].currentTerm == t
    && (granted ==> c'.nodes[p.to].votedFor == p.from)
    && (!granted && p.rpc.term <= s.currentTerm ==> c'.nodes[p.to] == s)
    && (p.rpc.term > s.currentTerm ==> c'.nodes[p.to].role == Follower)
  }

  lemma VoteEffect(s: NodeState, p: Packet, l: Log)
    requires NodeOK(s) && p.rpc.RequestVote? && p.rpc.candidateId == p.from && p.to == s.self
    requires Describes(p.rpc, l) && forall k :: 0 <= k < |l| ==> l[k].term >= 1
    ensures var e, granted := StepEffect(s, Deliver(p)), VoteIsFree(s, p) && AsRecent(l, s.log);
            var t := if p.rpc.term > s.currentTerm then p.rpc.term else s.currentTerm;
            && e.votes == (if granted then [Granted(p.to, t, p.from)] else [])
            && e.sent == [Packet(p.to, p.from, VoteReply(t, granted))]
            && e.state.log == s.log && e.state.currentTerm == t
            && (granted ==> e.state.votedFor == p.from)
            && (!granted && p.rpc.term <= s.currentTerm ==> e.state == s)
            && (p.rpc.term > s.currentTerm ==> e.state.role == Follower)
            && ElectionEvents(s, e.state) == []
  {
  }

  lemma TermsArePositive(c0: Cluster, steps: seq<Step>, n: NodeId)
    requires Initial(c0) && n in Exec(c0, steps).nodes
    ensures forall k :: 0 <= k < |Exec(c0, steps).nodes[n].log| ==> Exec(c0, steps).nodes[n].log[k].term >= 1
  {
    hide Exec, Initial;
    ReachableWellFormed(c0, steps);
    assert NodeOK(Exec(c0, steps).nodes[n]);
  }

  /** In every run: the answer to a ballot is a vote if and only if the voter's vote is free and the log with which the
      candidate asked is as recent as the voter's log now. */
  lemma VoteGrantedExactly(c0: Cluster, steps: seq<Step>, p: Packet) returns (i: nat)
    requires Initial(c0) && p in Exec(c0, steps).net && p.rpc.RequestVote?
    ensures AsksAt(c0, steps, i, p.from, p.rpc.term) && p.to in Exec(c0, steps).nodes
    ensures var c := Exec(c0, steps);
            Decides(c, Exec(c0, steps + [Deliver(p)]), p,
                    VoteIsFree(c.nodes[p.to], p) && AsRecent(LogAsked(c0, steps, i, p.from), c.nodes[p.to].log))
  {
    hide Exec, Apply, Initial, WellFormed, AsksAt, AsRecent, NodeOK, StepEffect;
    var c, step := Exec(c0, steps), Deliver(p);
    ReachableWellFormed(c0, steps);
    i := BallotOrigin(c0, steps, p);
    AskedBy(c0, steps, i, p.from, p.rpc.term);
    TermsArePositive(c0, steps[..i], p.from);
    BallotArrives(c, p);
    VoteEffect(c.nodes[p.to], p, LogAsked(c0, steps, i, p.from));
    DeliverInstalls(c, p);
    ExecAppend(c0, steps, [step]);
    ExecTwo(c, step, step);
  }

  lemma AskedBy(c0: Cluster, steps: seq<Step>, i: nat, x: NodeId, t: nat)
    requires AsksAt(c0, steps, i, x, t)
    ensures i < |steps| && x in Exec(c0, steps[..i]).nodes
  {
  }

  lemma BallotArrives(c: Cluster, p: Packet)
    requires WellFormed(c) && p in c.net
    ensures p.to in c.nodes && c.nodes[p.to].self == p.to && NodeOK(c.nodes[p.to])
  {
    hide NodeOK;
    assert PacketOK(c, p);
  }

  lemma DeliverInstalls(c: Cluster, p: Packet)
    requires p in c.net && p.to in c.nodes
    ensures var c', s := Apply(c, Deliver(p)), c.nodes[p.to];
            var e := StepEffect(s, Deliver(p));
            && c'.nodes == c.nodes[p.to := e.state]
            && c'.events == c.events + e.votes + ElectionEvents(s, e.state)
            && forall q :: q in e.sent ==> q in c'.net
  {
    hide StepEffect;
  }

  // ---------------------------------------------------------------------
  // Who gets elected

  /** At step `j` of the run `v` votes for the election of term `t` that `x` started with step `i`; the log with which
      `x` asked is as recent as the log of `v` then. */
  ghost predicate VotesAt(c0: Cluster, steps: seq<Step>, j: nat, i: nat, v: NodeId, x: NodeId, t: nat) {
    && i < j < |steps| && AsksAt(c0, steps, i, x, t)
    && v in Exec(c0, steps[..j]).nodes && x in Exec(c0, steps[..i]).nodes
    && AsRecent(Exec(c0, steps[..i]).nodes[x].log, Exec(c0, steps[..j]).nodes[v].log)
    && Exec(c0, steps[..j + 1]).events == Exec(c0, steps[..j]).events + [Granted(v, t, x)]
  }

  lemma VotesLater(c0: Cluster, steps: seq<Step>, step: Step, j: nat, i: nat, v: NodeId, x: NodeId, t: nat)
    requires VotesAt(c0, steps, j, i, v, x, t)
    ensures VotesAt(c0, steps + [step], j, i, v, x, t)
  {
    hide Exec, AsksAt, AsRecent;
    var all := steps + [step];
    AsksLater(c0, steps, step, i, x, t);
    assert all[..i] == steps[..i] && all[..j] == steps[..j] && all[..j + 1] == steps[..j + 1];
  }

  /** Only a ballot brings about a vote for another node. */
  lemma NewVote(c: Cluster, step: Step, v: NodeId, x: NodeId, t: nat)
    requires WellFormed(c) && v != x && Granted(v, t, x) !in c.events && Granted(v, t, x) in Apply(c, step).events
    ensures step.Deliver? && step.packet in c.net && step.packet.rpc.RequestVote?
  {
    hide WellFormed, Proposed;
    if Enabled(c, step) {
      StepShape(c, step);
    }
  }

  lemma {:induction false} VoteOrigin(c0: Cluster, steps: seq<Step>, v: NodeId, x: NodeId, t: nat)
    returns (j: nat, i: nat)
    requires Initial(c0) && v != x && Granted(v, t, x) in Exec(c0, steps).events
    ensures VotesAt(c0, steps, j, i, v, x, t)
    decreases |steps|
  {
    hide Apply, WellFormed, AsRecent, AsksAt, VotesAt;
    assert steps != [] by { NoEventsYet(c0, v, x, t); }
    var front, step := steps[..|steps| - 1], steps[|steps| - 1];
    assert steps == front + [step];
    if Granted(v, t, x) in Exec(c0, front).events {
      j, i := VoteOrigin(c0, front, v, x, t);
      VotesLater(c0, front, step, j, i, v, x, t);
    } else {
      ReachableWellFormed(c0, front);
      NewVote(Exec(c0, front), step, v, x, t);
      i := VoteGrantedExactly(c0, front, step.packet);
      j := |front|;
      VotedNow(c0, front, step.packet, i, v, x, t);
    }
  }

  lemma NoEventsYet(c0: Cluster, v: NodeId, x: NodeId, t: nat)
    requires Initial(c0)
    ensures Granted(v, t, x) !in Exec(c0, []).events
  {
  }

  lemma VotedNow(c0: Cluster, front: seq<Step>, p: Packet, i: nat, v: NodeId, x: NodeId, t: nat)
    requires Initial(c0) && p in Exec(c0, front).net && p.rpc.RequestVote? && p.to in Exec(c0, front).nodes
    requires AsksAt(c0, front, i, p.from, p.rpc.term)
    requires var c := Exec(c0, front);
             Decides(c, Exec(c0, front + [Deliver(p)]), p,
                     VoteIsFree(c.nodes[p.to], p) && AsRecent(LogAsked(c0, front, i, p.from), c.nodes[p.to].log))
    requires Granted(v, t, x) !in Exec(c0, front).events
    requires Granted(v, t, x) in Exec(c0, front + [Deliver(p)]).events
    ensures VotesAt(c0, front + [Deliver(p)], |front|, i, v, x, t)
  {
    hide Exec, Initial, AsRecent;
    var steps := front + [Deliver(p)];
    assert steps[..|front|] == front && steps[..|front| + 1] == steps && steps[..i] == front[..i];
    AsksLater(c0, front, Deliver(p), i, p.from, p.rpc.term);
  }

  /** Everyone in `q` but the leader itself voted for it, for a log as recent as its own. */
  ghost predicate ElectedBy(c0: Cluster, steps: seq<Step>, q: set<NodeId>, n: NodeId, term: nat) {
    && Majority(q, c0.nodes.Keys)
    && forall v :: v in q && v != n ==> exists j: nat, i: nat :: VotesAt(c0, steps, j, i, v, n, term)
  }

  /** In every run: whoever ever leads a term was voted for by a majority, and asked each of them with a log as recent
      as the one that voter had when it voted. */
  lemma LeaderWasAsRecent(c0: Cluster, steps: seq<Step>, n: NodeId, term: nat) returns (q: set<NodeId>)
    requires Initial(c0) && EverLeader(c0, steps, n, term)
    ensures ElectedBy(c0, steps, q, n, term)
  {
    hide Exec, Initial, EverLeader, VotesAt;
    LeaderHoldsMajority(c0, steps, n, term);
    q :| MajorityFor(Exec(c0, steps).events, q, c0.nodes.Keys, n, term);
    forall v | v in q && v != n ensures exists j: nat, i: nat :: VotesAt(c0, steps, j, i, v, n, term) {
      var j, i := VoteOrigin(c0, steps, v, n, term);
    }
  }

  // ---------------------------------------------------------------------
  // Runs without two leaders of a term

  /** Proposals stay. */
  lemma {:induction false} ProposalsGrow(c0: Cluster, steps: seq<Step>, i: nat)
    requires Initial(c0) && UniqueLeaders(Exec(c0, steps).events) && i <= |steps|
    ensures var pr, pr' := Exec(c0, steps[..i]).proposed, Exec(c0, steps).proposed;
            forall k :: k in pr ==> k in pr' && pr'[k] == pr[k]
    decreases |steps|
  {
    hide Apply, Initial, WellFormed, VotesOK, MatchOK, UniqueLeaders;
    if i == |steps| {
      assert steps[..i] == steps;
    } else {
      var front, step := steps[..|steps| - 1], steps[|steps| - 1];
      assert front[..i] == steps[..i];
      EventsGrow(c0, steps, |front|);
      UniqueInPrefix(Exec(c0, front).events, Exec(c0, steps).events);
      ProposalsGrow(c0, front, i);
      ReachableWellFormed(c0, front);
      ReachableVotes(c0, front);
      ReachableMatch(c0, front);
      StepKeepsProposals(Exec(c0, front), step);
    }
  }

  lemma StepKeepsProposals(c: Cluster, step: Step)
    requires WellFormed(c) && VotesOK(c) && MatchOK(c) && UniqueLeaders(Apply(c, step).events)
    ensures forall k :: k in c.proposed ==> k in Apply(c, step).proposed && Apply(c, step).proposed[k] == c.proposed[k]
  {
    hide WellFormed, VotesOK, MatchOK, UniqueLeaders, StepEffect, Proposed;
    if Enabled(c, step) {
      ProposalsStep(c, step);
    }
  }

  lemma RecordedPrefix(pr: Proposals, v: Log, l: Log)
    requires Nested(pr) && Recorded(pr, v) && Recorded(pr, l)
    requires v != [] && l != [] && v[|v| - 1].term == l[|l| - 1].term && |v| <= |l|
    ensures v <= l
  {
    assert v[..|v|] == v && l[..|l|] == l;
  }

  /** If no term has had two leaders: a voter whose last entry is of the same term as that of the log it votes for has
      a prefix of that log. */
  lemma VoterHasPrefix(c0: Cluster, steps: seq<Step>, i: nat, x: NodeId, v: NodeId)
    requires Initial(c0) && AtMostOneLeader(c0, steps)
    requires i < |steps| && x in Exec(c0, steps[..i]).nodes && v in Exec(c0, steps).nodes
    requires var l, f := LogAsked(c0, steps, i, x), Exec(c0, steps).nodes[v].log;
             AsRecent(l, f) && f != [] && l[|l| - 1].term == f[|f| - 1].term
    ensures Exec(c0, steps).nodes[v].log <= LogAsked(c0, steps, i, x)
  {
    hide Exec, Initial, AtMostOneLeader, UniqueLeaders, LeadersOK, Recorded, Nested, SliceRecorded;
    NoSplitNoDuplicate(c0, steps);
    EventsGrow(c0, steps, i);
    UniqueInPrefix(Exec(c0, steps[..i]).events, Exec(c0, steps).events);
    ReachableMatch(c0, steps[..i]);
    ReachableMatch(c0, steps);
    ProposalsGrow(c0, steps, i);
    var pr := Exec(c0, steps).proposed;
    RecordedMore(Exec(c0, steps[..i]).proposed, pr, LogAsked(c0, steps, i, x));
    RecordedPrefix(pr, Exec(c0, steps).nodes[v].log, LogAsked(c0, steps, i, x));
  }

  // ---------------------------------------------------------------------
  // Elections that succeed, and restarts

  /** A node that times out, unless it leads, enters the next term, votes for itself and asks everybody else; one
      that is alone leads at once. */
  ghost predicate Campaigns(c: Cluster, c': Cluster, x: NodeId)
    requires x in c.nodes && x in c'.nodes
  {
    var s, s' := c.nodes[x], c'.nodes[x];
    && s'.currentTerm == s.currentTerm + 1 && s'.votedFor == x && s'.log == s.log && s'.voteGranted == {x}
    && s'.commitIndex == s.commitIndex && s'.applied == s.applied
    && s'.role == (if c.nodes.Keys == {x} then Leader else Candidate)
    && forall v :: v in c.nodes && v != x ==> Ballot(s'.currentTerm, x, s.log, v) in c'.net
  }

  lemma TimeoutEffect(s: NodeState, ids: set<NodeId>)
    requires PeersAre(s.peers, ids, s.self) && s.self in ids && s.role != Leader
    ensures var e := StepEffect(s, Timeout(s.self));
            && e.state.currentTerm == s.currentTerm + 1 && e.state.votedFor == s.self && e.state.log == s.log
            && e.state.voteGranted == {s.self} && e.state.self == s.self && e.state.peers == s.peers
            && e.state.commitIndex == s.commitIndex && e.state.applied == s.applied
            && e.state.role == (if ids == {s.self} then Leader else Candidate)
            && forall v :: v in ids && v != s.self ==> Ballot(s.currentTerm + 1, s.self, s.log, v) in e.sent
  {
    hide SetAll;
    var e := StepEffect(s, Timeout(s.self));
    assert s.peers == [] <==> ids == {s.self} by { AloneExactly(s.peers, ids, s.self); }
    forall v | v in ids && v != s.self ensures Ballot(s.currentTerm + 1, s.self, s.log, v) in e.sent {
      var i :| 0 <= i < |s.peers| && s.peers[i] == v;
      assert e.sent[i] == Ballot(s.currentTerm + 1, s.self, s.log, v);
    }
  }

  lemma AloneExactly(peers: seq<NodeId>, ids: set<NodeId>, n: NodeId)
    requires PeersAre(peers, ids, n) && n in ids
    ensures peers == [] <==> ids == {n}
  {
    if peers == [] {
      assert forall m :: m in ids ==> m == n;
    } else {
      assert peers[0] in peers;
    }
  }

  lemma TimeoutCampaigns(c: Cluster, x: NodeId)
    requires WellFormed(c) && x in c.nodes && c.nodes[x].role != Leader
    ensures var c' := Apply(c, Timeout(x));
            x in c'.nodes && Enabled(c, Timeout(x)) && Campaigns(c, c', x) && c'.nodes == c.nodes[x := c'.nodes[x]]
  {
    hide Apply, WellFormed, StepEffect, NodeOK, Ballot;
    WellFormedPeers(c, x);
    TimeoutEffect(c.nodes[x], c.nodes.Keys);
    ApplyFrame(c, Timeout(x));
  }

  lemma WellFormedPeers(c: Cluster, n: NodeId)
    requires WellFormed(c) && n in c.nodes
    ensures c.nodes[n].self == n && PeersAre(c.nodes[n].peers, c.nodes.Keys, n) && NodeOK(c.nodes[n])
  {
    hide NodeOK, PeersAre;
  }

  /** In every reachable cluster a timeout starts an election, and leaves a leader alone. */
  lemma TimeoutStartsElection(c0: Cluster, steps: seq<Step>, x: NodeId)
    requires Initial(c0) && x in Exec(c0, steps).nodes
    ensures var c, c' := Exec(c0, steps), Exec(c0, steps + [Timeout(x)]);
            && x in c'.nodes
            && if c.nodes[x].role == Leader then c'.nodes[x] == c.nodes[x] else Campaigns(c, c', x)
  {
    hide Exec, Apply, Initial, WellFormed, Campaigns;
    var c := Exec(c0, steps);
    ReachableWellFormed(c0, steps);
    ExecAppend(c0, steps, [Timeout(x)]);
    ExecTwo(c, Timeout(x), Timeout(x));
    if c.nodes[x].role == Leader {
      ApplyFrame(c, Timeout(x));
    } else {
      TimeoutCampaigns(c, x);
    }
  }

  /** A restart keeps term, vote and log and nothing else; a node that is alone leads a new term at once. */
  lemma RestartKeepsWhatIsStored(c0: Cluster, steps: seq<Step>, n: NodeId)
    requires Initial(c0) && n in Exec(c0, steps).nodes
    ensures var c, c' := Exec(c0, steps), Exec(c0, steps + [Restart(n)]);
            && n in c'.nodes
            && var s, s' := c.nodes[n], c'.nodes[n];
               && s'.log == s.log && s'.commitIndex == 0 && s'.applied == []
               && if c0.nodes.Keys == {n}
                  then s'.role == Leader && s'.currentTerm == s.currentTerm + 1 && s'.votedFor == n
                  else s'.role == Follower && s'.currentTerm == s.currentTerm && s'.votedFor == s.votedFor
  {
    hide Exec, Apply, Initial, WellFormed, NodeOK, SetAll;
    var c := Exec(c0, steps);
    ReachableWellFormed(c0, steps);
    WellFormedPeers(c, n);
    AloneExactly(c.nodes[n].peers, c.nodes.Keys, n);
    ApplyFrame(c, Restart(n));
    ExecAppend(c0, steps, [Restart(n)]);
    ExecTwo(c, Restart(n), Restart(n));
  }

  // ---------------------------------------------------------------------
  // Who is taken for the leader

  /** Whoever a node takes for the leader was elected in the node's term; a leader takes itself, a candidate nobody. */
  ghost predicate KnowsLeader(s: NodeState, events: seq<Event>) {
    && (s.leaderKnown ==> BecameLeader(s.leaderId, s.currentTerm) in events)
    && (s.role == Leader ==> s.leaderKnown && s.leaderId == s.self)
    && (s.role == Candidate ==> !s.leaderKnown)
  }

  /** The leader a step makes known is the node itself, or the one whose request was delivered. */
  lemma LeaderMoves(s: NodeState, step: Step, events: seq<Event>)
    requires KnowsLeader(s, events) && (step.CrashInHandler? ==> InterruptedTerm(s, step.packet.rpc))
    ensures var s' := StepEffect(s, step).state;
            && (s'.leaderKnown ==>
                  || (s.leaderKnown && s'.leaderId == s.leaderId && s'.currentTerm == s.currentTerm)
                  || s'.role == Leader
                  || (step.Deliver? && step.packet.rpc.AppendEntries? &&
                      s'.leaderId == step.packet.rpc.leaderId && s'.currentTerm == step.packet.rpc.term))
            && (s'.role == Leader ==> s'.leaderKnown && s'.leaderId == s'.self)
            && (s'.role == Candidate ==> !s'.leaderKnown)
  {
    hide SetAll, CommitUpTo, AdvanceCommit, AppendFromLeader, NextAfterConflict, UpToDate, ClampAll;
  }

  lemma StepKnowsLeader(c: Cluster, step: Step, n: NodeId)
    requires WellFormed(c) && VotesOK(c) && VotesOK(Apply(c, step)) && Enabled(c, step) && n in c.nodes
    requires KnowsLeader(c.nodes[n], c.events)
    ensures n in Apply(c, step).nodes && KnowsLeader(Apply(c, step).nodes[n], Apply(c, step).events)
  {
    hide StepEffect, HistoryOK, VoteStands, NodeOK, PeersAre, Proposed, LogOK;
    var c' := Apply(c, step);
    assert forall e :: e in c.events ==> e in c'.events;
    assert NodeVotesOK(c'.nodes[n], c'.events, c'.nodes.Keys);
    if n == Recipient(step) {
      LeaderMoves(c.nodes[n], step, c.events);
      StepMovesSelf(c, step);
      if step.Deliver? && step.packet.rpc.AppendEntries? {
        assert PacketOK(c, step.packet) && PacketVotesOK(step.packet, c.events);
      }
    }
  }

  lemma StepMovesSelf(c: Cluster, step: Step)
    requires WellFormed(c) && Enabled(c, step)
    ensures StepEffect(c.nodes[Recipient(step)], step).state.self == Recipient(step)
  {
    hide StepEffect, NodeOK, PeersAre, RoleMove, SliceOK;
    if step.Deliver? || step.CrashInHandler? {
      assert PacketOK(c, step.packet);
    }
    StepMoves(c.nodes[Recipient(step)], step);
  }

  /** In every reachable cluster, whoever a node takes for the leader was elected in that node's term. */
  lemma {:induction false} KnownLeaderWasElected(c0: Cluster, steps: seq<Step>, n: NodeId)
    requires Initial(c0) && n in Exec(c0, steps).nodes
    ensures KnowsLeader(Exec(c0, steps).nodes[n], Exec(c0, steps).events)
    decreases |steps|
  {
    if steps != [] {
      hide Apply, Initial, WellFormed, VotesOK, KnowsLeader;
      var c, step := Exec(c0, steps[..|steps| - 1]), steps[|steps| - 1];
      SameNodes(c, step);
      KnownLeaderWasElected(c0, steps[..|steps| - 1], n);
      if Enabled(c, step) {
        ReachableWellFormed(c0, steps[..|steps| - 1]);
        ReachableVotes(c0, steps[..|steps| - 1]);
        ReachableVotes(c0, steps);
        StepKnowsLeader(c, step, n);
      } else {
        Stutters(c, step);
      }
    }
  }

  lemma SameNodes(c: Cluster, step: Step)
    ensures Apply(c, step).nodes.Keys == c.nodes.Keys
  {
    hide StepEffect, Proposed;
  }

  lemma Stutters(c: Cluster, step: Step)
    requires !Enabled(c, step)
    ensures Apply(c, step) == c
  {
  }

  /** A request that is accepted makes the node a follower that knows the sender as leader of the request's term. */
  lemma AcceptingIsFollowing(c0: Cluster, steps: seq<Step>, p: Packet)
    requires Initial(c0) && p in Exec(c0, steps).net && p.rpc.AppendEntries?
    requires p.to in Exec(c0, steps).nodes && p.rpc.term >= Exec(c0, steps).nodes[p.to].currentTerm
    ensures var c' := Exec(c0, steps + [Deliver(p)]);
            && p.to in c'.nodes
            && var s' := c'.nodes[p.to];
               s'.role == Follower && s'.currentTerm == p.rpc.term && s'.leaderKnown && s'.leaderId == p.from
  {
    hide Exec, Apply, Initial, WellFormed, CommitUpTo, AppendFromLeader;
    var c := Exec(c0, steps);
    ReachableWellFormed(c0, steps);
    SenderIsLeader(c, p);
    ApplyFrame(c, Deliver(p));
    ExecAppend(c0, steps, [Deliver(p)]);
    ExecTwo(c, Deliver(p), Deliver(p));
  }

  lemma SenderIsLeader(c: Cluster, p: Packet)
    requires WellFormed(c) && p in c.net && p.rpc.AppendEntries?
    ensures p.rpc.leaderId == p.from
  {
    assert PacketOK(c, p);
  }

  /** Counts nothing for anybody else and has everybody else start behind the end of its log. */
  ghost predicate StartsOver(s: NodeState, ids: set<NodeId>) {
    forall f :: f in ids && f != s.self ==> Get(s.matchIndex, f) == 0 && Get(s.nextIndex, f) == |s.log| + 1
  }

  lemma LeaderTables(s: NodeState, ids: set<NodeId>)
    requires PeersAre(s.peers, ids, s.self)
    ensures StartsOver(BecomeLeader(s), ids)
  {
    forall f | f in ids && f != s.self
      ensures Get(BecomeLeader(s).matchIndex, f) == 0 && Get(BecomeLeader(s).nextIndex, f) == |s.log| + 1
    {
      SetAllGet(s.matchIndex, s.peers, 0, f);
      SetAllGet(s.nextIndex, s.peers, |s.log| + 1, f);
    }
  }

  lemma ElectionStartsOver(s: NodeState, step: Step, ids: set<NodeId>)
    requires PeersAre(s.peers, ids, s.self) && s.role != Leader && StepEffect(s, step).state.role == Leader
    ensures StartsOver(StepEffect(s, step).state, ids) && StepEffect(s, step).state.log == s.log
  {
    hide SetAll, CommitUpTo, AdvanceCommit, AppendFromLeader, NextAfterConflict, UpToDate, ClampAll;
    hide StartsOver, PeersAre;
    match step
    case Timeout(_) => LeaderTables(StartElection(s), ids);
    case Restart(_) =>
      LeaderTables(Fresh(s.self, s.peers, s.currentTerm + 1, s.self, s.log), ids);
    case Deliver(p) => LeaderTables(s.(voteGranted := s.voteGranted + {p.from}), ids);
    case _ =>
  }

  /** However a node comes to lead, in every run, it starts over: what followers confirmed to it before is forgotten. */
  lemma NewLeaderStartsOver(c0: Cluster, steps: seq<Step>, step: Step, n: NodeId)
    requires Initial(c0) && n in Exec(c0, steps).nodes && Exec(c0, steps).nodes[n].role != Leader
    requires n in Exec(c0, steps + [step]).nodes && Exec(c0, steps + [step]).nodes[n].role == Leader
    ensures var s' := Exec(c0, steps + [step]).nodes[n];
            StartsOver(s', c0.nodes.Keys) && s'.log == Exec(c0, steps).nodes[n].log
  {
    hide Exec, Apply, Initial, WellFormed, StepEffect, StartsOver, NodeOK, PeersAre;
    var c := Exec(c0, steps);
    ReachableWellFormed(c0, steps);
    WellFormedPeers(c, n);
    ExecAppend(c0, steps, [step]);
    ExecTwo(c, step, step);
    if Enabled(c, step) {
      ApplyFrame(c, step);
      ElectionStartsOver(c.nodes[n], step, c.nodes.Keys);
    } else {
      Stutters(c, step);
    }
  }

  /** The election of term `t` that `x` holds with log `l`: it leads, or it has the votes of `got` and not enough yet.
      Those of `vs` from `k` on are still to be asked, and nothing keeps them from voting for it. */
  ghost predicate Polling(c: Cluster, x: NodeId, t: nat, l: Log, vs: seq<NodeId>, k: nat) {
    && WellFormed(c) && x in c.nodes && k <= |vs|
    && c.nodes[x].currentTerm == t && c.nodes[x].log == l
    && (c.nodes[x].role == Leader
        || (c.nodes[x].role == Candidate && |c.nodes[x].voteGranted| < Quorum(c.nodes[x]) && x in c.nodes[x].voteGranted
            && forall i :: 0 <= i < k ==> vs[i] in c.nodes[x].voteGranted))
    && forall i :: k <= i < |vs| ==> MayVote(c, x, t, l, vs[i])
  }

  ghost predicate MayVote(c: Cluster, x: NodeId, t: nat, l: Log, v: NodeId) {
    && v in c.nodes && v != x && c.nodes[v].currentTerm < t && AsRecent(l, c.nodes[v].log)
    && Ballot(t, x, l, v) in c.net
  }

  lemma PollVoter(c: Cluster, x: NodeId, t: nat, l: Log, v: NodeId)
    requires WellFormed(c) && x in c.nodes && c.nodes[x].log == l && MayVote(c, x, t, l, v)
    ensures var c' := Apply(c, Deliver(Ballot(t, x, l, v)));
            && Enabled(c, Deliver(Ballot(t, x, l, v))) && c'.nodes == c.nodes[v := c'.nodes[v]]
            && Packet(v, x, VoteReply(t, true)) in c'.net
  {
    hide Apply, WellFormed, StepEffect, NodeOK, AsRecent;
    WellFormedPeers(c, v);
    WellFormedPeers(c, x);
    PositiveTerms(c.nodes[x]);
    VoteEffect(c.nodes[v], Ballot(t, x, l, v), l);
    ApplyFrame(c, Deliver(Ballot(t, x, l, v)));
  }

  lemma PositiveTerms(s: NodeState)
    requires NodeOK(s)
    ensures forall k :: 0 <= k < |s.log| ==> s.log[k].term >= 1
  {
  }

  lemma CountPolled(c: Cluster, x: NodeId, t: nat, v: NodeId)
    requires WellFormed(c) && x in c.nodes && c.nodes[x].currentTerm == t && Packet(v, x, VoteReply(t, true)) in c.net
    ensures var c', s := Apply(c, Deliver(Packet(v, x, VoteReply(t, true)))), c.nodes[x];
            && Enabled(c, Deliver(Packet(v, x, VoteReply(t, true)))) && c'.nodes == c.nodes[x := c'.nodes[x]]
            && c'.nodes[x].currentTerm == t && c'.nodes[x].log == s.log
            && (s.role == Leader ==> c'.nodes[x].role == Leader)
            && (s.role == Candidate ==>
                  || c'.nodes[x].role == Leader
                  || (c'.nodes[x].role == Candidate && c'.nodes[x].voteGranted == s.voteGranted + {v}
                      && |c'.nodes[x].voteGranted| < Quorum(c'.nodes[x])))
  {
    hide Apply, WellFormed, SetAll;
    ApplyFrame(c, Deliver(Packet(v, x, VoteReply(t, true))));
  }

  /** One voter is asked and its answer counted. */
  lemma PollOne(c: Cluster, x: NodeId, t: nat, l: Log, vs: seq<NodeId>, k: nat) returns (steps: seq<Step>)
    requires Polling(c, x, t, l, vs, k) && k < |vs| && Distinct(vs)
    ensures AllEnabled(c, steps) && Polling(Exec(c, steps), x, t, l, vs, k + 1)
  {
    hide Apply, Exec, WellFormed, AsRecent, Ballot, AllEnabled, Quorum;
    var v := vs[k];
    var ask, count := Deliver(Ballot(t, x, l, v)), Deliver(Packet(v, x, VoteReply(t, true)));
    assert MayVote(c, x, t, l, v);
    PollVoter(c, x, t, l, v);
    var c1 := Apply(c, ask);
    ApplyWellFormed(c, ask);
    CountPolled(c1, x, t, v);
    ApplyWellFormed(c1, count);
    NetGrows(c, ask);
    NetGrows(c1, count);
    EnabledTwo(c, ask, count);
    steps := [ask, count];
    var c2 := Apply(c1, count);
    forall i | k + 1 <= i < |vs| ensures MayVote(c2, x, t, l, vs[i]) {
      assert MayVote(c, x, t, l, vs[i]) && c2.nodes[vs[i]] == c.nodes[vs[i]];
    }
  }

  lemma NetGrows(c: Cluster, step: Step)
    ensures c.net <= Apply(c, step).net
  {
    hide StepEffect, Proposed;
  }

  lemma {:induction false} PollAll(c: Cluster, x: NodeId, t: nat, l: Log, vs: seq<NodeId>, k: nat)
    returns (steps: seq<Step>)
    requires Polling(c, x, t, l, vs, k) && Distinct(vs)
    ensures AllEnabled(c, steps) && Polling(Exec(c, steps), x, t, l, vs, |vs|)
    decreases |vs| - k
  {
    hide Apply, Exec, Polling, AllEnabled;
    if k <= |vs| && k == |vs| {
      steps := [];
      NothingToDo(c);
    } else {
      KnownK(c, x, t, l, vs, k);
      var first := PollOne(c, x, t, l, vs, k);
      var more := PollAll(Exec(c, first), x, t, l, vs, k + 1);
      ExecAppend(c, first, more);
      EnabledAppend(c, first, more);
      steps := first + more;
    }
  }

  lemma KnownK(c: Cluster, x: NodeId, t: nat, l: Log, vs: seq<NodeId>, k: nat)
    requires Polling(c, x, t, l, vs, k)
    ensures k <= |vs|
  {
  }

  lemma NothingToDo(c: Cluster)
    ensures AllEnabled(c, []) && Exec(c, []) == c
  {
  }

  /** From every reachable cluster: a node that does not lead, whose log is as recent as those of a majority that is
      not ahead of its term, can win the election of the next term with their votes. */
  lemma CandidateWins(c0: Cluster, steps: seq<Step>, x: NodeId, vs: seq<NodeId>) returns (more: seq<Step>)
    requires Initial(c0) && x in Exec(c0, steps).nodes && Exec(c0, steps).nodes[x].role != Leader
    requires Distinct(vs) && 2 * |Members(vs) + {x}| > |c0.nodes.Keys|
    requires forall v :: v in vs ==>
               && v in Exec(c0, steps).nodes && v != x
               && Exec(c0, steps).nodes[v].currentTerm <= Exec(c0, steps).nodes[x].currentTerm
               && AsRecent(Exec(c0, steps).nodes[x].log, Exec(c0, steps).nodes[v].log)
    ensures AllEnabled(Exec(c0, steps), [Timeout(x)] + more)
    ensures var c, c' := Exec(c0, steps), Exec(c0, steps + ([Timeout(x)] + more));
            && x in c'.nodes && c'.nodes[x].role == Leader
            && c'.nodes[x].currentTerm == c.nodes[x].currentTerm + 1 && c'.nodes[x].log == c.nodes[x].log
  {
    hide Apply, Exec, Initial, WellFormed, AllEnabled, AsRecent, Polling;
    var c := Exec(c0, steps);
    var t, l := c.nodes[x].currentTerm + 1, c.nodes[x].log;
    ReachableWellFormed(c0, steps);
    TimeoutCampaigns(c, x);
    ApplyWellFormed(c, Timeout(x));
    EnabledOne(c, Timeout(x));
    var c1 := Apply(c, Timeout(x));
    StartsPolling(c, c1, x, vs);
    more := PollAll(c1, x, t, l, vs, 0);
    ExecAppend(c, [Timeout(x)], more);
    EnabledAppend(c, [Timeout(x)], more);
    ExecAppend(c0, steps, [Timeout(x)] + more);
    ReachableWellFormed(c0, steps + ([Timeout(x)] + more));
    PollIsWon(Exec(c1, more), x, t, l, vs);
  }

  lemma StartsPolling(c: Cluster, c1: Cluster, x: NodeId, vs: seq<NodeId>)
    requires WellFormed(c1) && x in c.nodes && x in c1.nodes && c1.nodes == c.nodes[x := c1.nodes[x]]
    requires Campaigns(c, c1, x)
    requires forall v :: v in vs ==>
               && v in c.nodes && v != x && c.nodes[v].currentTerm <= c.nodes[x].currentTerm
               && AsRecent(c.nodes[x].log, c.nodes[v].log)
    ensures Polling(c1, x, c.nodes[x].currentTerm + 1, c.nodes[x].log, vs, 0)
  {
    hide WellFormed, AsRecent, Ballot;
    OneVoteIsFew(c1, x);
    assert c1.nodes.Keys == c.nodes.Keys;
    forall i | 0 <= i < |vs| ensures MayVote(c1, x, c.nodes[x].currentTerm + 1, c.nodes[x].log, vs[i]) {
      assert vs[i] in vs;
    }
  }

  lemma OneVoteIsFew(c: Cluster, x: NodeId)
    requires WellFormed(c) && x in c.nodes
    ensures c.nodes.Keys != {x} ==> Quorum(c.nodes[x]) > 1
  {
    hide WellFormed, NodeOK;
    WellFormedPeers(c, x);
    AloneExactly(c.nodes[x].peers, c.nodes.Keys, x);
  }

  /** Whoever has been asked has voted, so a majority that has been asked has elected. */
  lemma PollIsWon(c: Cluster, x: NodeId, t: nat, l: Log, vs: seq<NodeId>)
    requires Polling(c, x, t, l, vs, |vs|) && 2 * |Members(vs) + {x}| > |c.nodes.Keys|
    ensures c.nodes[x].role == Leader && c.nodes[x].currentTerm == t && c.nodes[x].log == l
  {
    hide NodeOK, PacketOK, MayVote;
    WellFormedPeers(c, x);
    if c.nodes[x].role == Candidate {
      assert Members(vs) + {x} <= c.nodes[x].voteGranted;
      Subset(Members(vs) + {x}, c.nodes[x].voteGranted);
    }
  }
}
