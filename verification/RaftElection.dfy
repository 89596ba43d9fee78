/**
 Elections. A leader always holds a majority of votes. A node that accepts an
 AppendEntries of its own term forgets its vote, so it can vote again in that term:
 two leaders of one term are possible, but only through a node that voted for both
 of them and accepted an AppendEntries of that term in between.
 */
module RaftElection {
  import opened RaftTypes
  import opened RaftCluster

  /** The vote request of a candidate of term `t` with log `l`. */
  function Ballot(t: nat, x: NodeId, l: Log, v: NodeId): Packet {
    Packet(x, v, RequestVote(t, x, |l|, LastLogTerm(l)))
  }

  predicate Distinct(vs: seq<NodeId>) {
    forall i, j :: 0 <= i < j < |vs| ==> vs[i] != vs[j]
  }

  function Members(vs: seq<NodeId>): set<NodeId> {
    set v | v in vs
  }

  predicate GrantBy(e: Event, voter: NodeId, term: nat) {
    e.Granted? && e.voter == voter && e.term == term
  }

  ghost predicate AcceptedBetween(events: seq<Event>, i: nat, k: nat, voter: NodeId, term: nat)
    requires k <= |events|
  {
    exists j :: i < j < k && events[j] == Accepted(voter, term)
  }

  ghost predicate Majority(q: set<NodeId>, ids: set<NodeId>) {
    q <= ids && 2 * |q| > |ids|
  }

  ghost predicate MajorityFor(past: seq<Event>, q: set<NodeId>, ids: set<NodeId>, n: NodeId, term: nat) {
    Majority(q, ids) && forall v :: v in q ==> Granted(v, term, n) in past
  }

  /** What must have happened before an event. */
  ghost predicate EventOK(past: seq<Event>, e: Event, ids: set<NodeId>) {
    match e
    case Granted(v, t, x) =>
      && v in ids && x in ids
      && forall i :: 0 <= i < |past| && GrantBy(past[i], v, t) ==>
           x != v && (past[i].candidate == x || AcceptedBetween(past, i, |past|, v, t))
    case Accepted(v, t) =>
      exists l :: 0 <= l < |past| && past[l].BecameLeader? && past[l].term == t && past[l].leader in ids - {v}
    case BecameLeader(n, t) =>
      n in ids && exists q: set<NodeId> :: MajorityFor(past, q, ids, n, t)
  }

  ghost predicate HistoryOK(events: seq<Event>, ids: set<NodeId>) {
    events == [] ||
    (HistoryOK(events[..|events| - 1], ids) && EventOK(events[..|events| - 1], events[|events| - 1], ids))
  }

  lemma {:induction false} HistoryAt(events: seq<Event>, ids: set<NodeId>, k: nat)
    requires HistoryOK(events, ids) && k < |events|
    ensures EventOK(events[..k], events[k], ids)
    decreases |events|
  {
    if k < |events| - 1 {
      HistoryAt(events[..|events| - 1], ids, k);
      assert events[..|events| - 1][..k] == events[..k];
    }
  }

  lemma HistoryAppend(events: seq<Event>, e: Event, ids: set<NodeId>)
    requires HistoryOK(events, ids) && EventOK(events, e, ids)
    ensures HistoryOK(events + [e], ids)
  {
    assert (events + [e])[..|events|] == events;
  }

  // ---------------------------------------------------------------------
  // How the state of the nodes and the network bears out the history

  /** A vote cast in the node's current term stands, unless the node has accepted since. */
  ghost predicate VoteStands(s: NodeState, events: seq<Event>, i: nat)
    requires i < |events|
  {
    GrantBy(events[i], s.self, s.currentTerm) ==>
      s.votedFor == events[i].candidate || AcceptedBetween(events, i, |events|, s.self, s.currentTerm)
  }

  ghost predicate NodeVotesOK(s: NodeState, events: seq<Event>, ids: set<NodeId>) {
    && (forall i :: 0 <= i < |events| && events[i].Granted? && events[i].voter == s.self ==>
          events[i].term <= s.currentTerm)
    && (forall i :: 0 <= i < |events| ==> VoteStands(s, events, i))
    && (s.role == Candidate ==>
          forall v :: v in s.voteGranted ==> v in ids && Granted(v, s.currentTerm, s.self) in events)
    && (s.role == Leader ==> BecameLeader(s.self, s.currentTerm) in events)
  }

  ghost predicate PacketVotesOK(p: Packet, events: seq<Event>) {
    && (p.rpc.VoteReply? && p.rpc.granted ==> Granted(p.from, p.rpc.term, p.to) in events)
    && (p.rpc.AppendEntries? ==> BecameLeader(p.from, p.rpc.term) in events)
  }

  ghost predicate VotesOK(c: Cluster) {
    && HistoryOK(c.events, c.nodes.Keys)
    && (forall n :: n in c.nodes ==> NodeVotesOK(c.nodes[n], c.events, c.nodes.Keys))
    && (forall p :: p in c.net ==> PacketVotesOK(p, c.events))
  }

  /** What one step may do to the term and the vote of a node, and the vote events it records. */
  ghost predicate VoteMove(s: NodeState, s': NodeState, votes: seq<Event>) {
    && s'.self == s.self
    && (|| (s'.currentTerm == s.currentTerm && s'.votedFor == s.votedFor && votes == [])
        || (s'.currentTerm > s.currentTerm && s'.votedFor == NOBODY && votes == [])
        || (s'.currentTerm >= s.currentTerm && s'.votedFor == NOBODY && votes == [Accepted(s.self, s'.currentTerm)])
        || (s'.votedFor != NOBODY && votes == [Granted(s.self, s'.currentTerm, s'.votedFor)] &&
            (|| s'.currentTerm > s.currentTerm
             || (s'.currentTerm == s.currentTerm && s'.votedFor != s.self && s.votedFor in {NOBODY, s'.votedFor}))))
  }

  /** Where the votes of a candidate, a leader or a reply come from. */
  ghost predicate RoleMove(s: NodeState, e: Effect, step: Step) {
    var s' := e.state;
    && (s'.role == Candidate ==>
          || (s'.currentTerm > s.currentTerm && s'.voteGranted == {s.self}
              && Granted(s.self, s'.currentTerm, s.self) in e.votes)
          || (s.role == Candidate && s'.currentTerm == s.currentTerm && s'.voteGranted == s.voteGranted)
          || VoteCounted(s, s', step))
    && (s'.role == Leader ==>
          || (s.role == Leader && s'.currentTerm == s.currentTerm)
          || (s.peers == [] && e.votes == [Granted(s.self, s'.currentTerm, s.self)])
          || (VoteCounted(s, s', step) && |s'.voteGranted| >= Quorum(s)))
    && (forall v :: v in e.votes ==>
          match v
          case Granted(_, _, x) => x == s.self || (step.Deliver? && x == step.packet.from)
          case Accepted(_, t) =>
            (step.Deliver? || step.CrashInHandler?) && step.packet.rpc.AppendEntries? && step.packet.rpc.term == t
          case BecameLeader(_, _) => false)
    && (forall p :: p in e.sent ==>
          && p.from == s.self
          && (p.rpc.VoteReply? && p.rpc.granted ==> Granted(s.self, p.rpc.term, p.to) in e.votes)
          && (p.rpc.AppendEntries? ==> s.role == Leader && p.rpc.term == s.currentTerm))
  }

  ghost predicate VoteCounted(s: NodeState, s': NodeState, step: Step) {
    && s.role == Candidate && s'.currentTerm == s.currentTerm
    && step.Deliver? && step.packet.rpc == VoteReply(s.currentTerm, true)
    && s'.voteGranted == s.voteGranted + {step.packet.from}
  }

  /** What the step lemmas assume of the packet that is delivered. */
  ghost predicate Incoming(s: NodeState, step: Step) {
    && (step.Deliver? || step.CrashInHandler? ==>
          RpcOK(step.packet) && step.packet.from !in {s.self, NOBODY})
    && (step.CrashInHandler? ==> InterruptedTerm(s, step.packet.rpc))
  }

  lemma RequestVoteMoves(s: NodeState, p: Packet)
    requires Incoming(s, Deliver(p)) && s.self != NOBODY && p.rpc.RequestVote?
    ensures var e := DeliverEffect(s, p); VoteMove(s, e.state, e.votes) && RoleMove(s, e, Deliver(p))
  {
    hide LogOK;
  }

  lemma VoteReplyMoves(s: NodeState, p: Packet)
    requires Incoming(s, Deliver(p)) && s.self != NOBODY && p.rpc.VoteReply?
    ensures var e := DeliverEffect(s, p); VoteMove(s, e.state, e.votes) && RoleMove(s, e, Deliver(p))
  {
    hide SetAll;
  }

  lemma AppendMoves(s: NodeState, p: Packet)
    requires Incoming(s, Deliver(p)) && s.self != NOBODY && (p.rpc.AppendEntries? || p.rpc.AppendReply?)
    ensures var e := DeliverEffect(s, p); VoteMove(s, e.state, e.votes) && RoleMove(s, e, Deliver(p))
  {
    hide CommitUpTo, AdvanceCommit, AppendFromLeader, NextAfterConflict, SliceOK;
  }

  lemma LocalMoves(s: NodeState, step: Step)
    requires Incoming(s, step) && s.self != NOBODY && !step.Deliver?
    ensures var e := StepEffect(s, step); VoteMove(s, e.state, e.votes) && RoleMove(s, e, step)
  {
    hide SetAll, AdvanceCommit, ClampAll;
  }

  lemma StepMoves(s: NodeState, step: Step)
    requires Incoming(s, step) && s.self != NOBODY
    ensures var e := StepEffect(s, step); VoteMove(s, e.state, e.votes) && RoleMove(s, e, step)
  {
    hide VoteMove, RoleMove, DeliverEffect;
    match step
    case Deliver(p) =>
      match p.rpc {
        case RequestVote(_, _, _, _) => RequestVoteMoves(s, p);
        case VoteReply(_, _) => VoteReplyMoves(s, p);
        case AppendEntries(_, _, _, _, _, _) => AppendMoves(s, p);
        case AppendReply(_, _, _, _, _) => AppendMoves(s, p);
      }
    case _ => LocalMoves(s, step);
  }

  // ---------------------------------------------------------------------
  // Every step keeps the history and the states in agreement

  /** The step is enabled on a cluster that satisfies the invariants, and has effect `e` on node `n`. */
  ghost predicate Takes(c: Cluster, n: NodeId, e: Effect, step: Step) {
    && VotesOK(c)
    && NOBODY !in c.nodes && n in c.nodes && c.nodes[n].self == n
    && PeersAre(c.nodes[n].peers, c.nodes.Keys, n)
    && (step.Deliver? || step.CrashInHandler? ==>
          step.packet in c.net && step.packet.to == n && step.packet.from in c.nodes && step.packet.from != n)
    && VoteMove(c.nodes[n], e.state, e.votes)
    && RoleMove(c.nodes[n], e, step)
  }

  lemma AcceptedLater(events: seq<Event>, more: seq<Event>, i: nat, voter: NodeId, term: nat)
    requires AcceptedBetween(events, i, |events|, voter, term)
    ensures AcceptedBetween(events + more, i, |events + more|, voter, term)
  {
    var j :| i < j < |events| && events[j] == Accepted(voter, term);
    assert (events + more)[j] == Accepted(voter, term);
  }

  lemma VoteHistory(c: Cluster, n: NodeId, e: Effect, step: Step)
    requires Takes(c, n, e, step)
    ensures HistoryOK(c.events + e.votes, c.nodes.Keys)
  {
    if e.votes == [] {
      assert c.events + e.votes == c.events;
    } else {
      var s, v := c.nodes[n], e.votes[0];
      assert e.votes == [v] && v in e.votes;
      assert NodeVotesOK(s, c.events, c.nodes.Keys);
      if v.Accepted? {
        assert PacketVotesOK(step.packet, c.events);
      } else {
        forall i | 0 <= i < |c.events| && GrantBy(c.events[i], n, v.term)
          ensures v.candidate != n
               && (c.events[i].candidate == v.candidate || AcceptedBetween(c.events, i, |c.events|, n, v.term))
        {
          assert VoteStands(s, c.events, i);
          HistoryAt(c.events, c.nodes.Keys, i);
        }
      }
      HistoryAppend(c.events, v, c.nodes.Keys);
    }
  }

  lemma OwnVotesStand(c: Cluster, n: NodeId, e: Effect, step: Step, more: seq<Event>)
    requires Takes(c, n, e, step)
    requires more == e.votes || exists x :: more == e.votes + [BecameLeader(n, x)]
    ensures forall i ::
              0 <= i < |c.events + more| && (c.events + more)[i].Granted? && (c.events + more)[i].voter == n ==>
              (c.events + more)[i].term <= e.state.currentTerm
    ensures forall i :: 0 <= i < |c.events + more| ==> VoteStands(e.state, c.events + more, i)
  {
    var s, s', all := c.nodes[n], e.state, c.events + more;
    assert NodeVotesOK(s, c.events, c.nodes.Keys);
    forall i | 0 <= i < |all| ensures VoteStands(s', all, i) {
      if i < |c.events| && GrantBy(all[i], n, s'.currentTerm) {
        assert VoteStands(s, c.events, i);
        HistoryAt(c.events, c.nodes.Keys, i);
        if e.votes == [Accepted(n, s'.currentTerm)] {
          assert all[|c.events|] == Accepted(n, s'.currentTerm);
        } else if AcceptedBetween(c.events, i, |c.events|, n, s'.currentTerm) {
          AcceptedLater(c.events, more, i, n, s'.currentTerm);
        }
      }
    }
  }

  /** A vote that is counted was granted. */
  lemma CountedWasGranted(c: Cluster, n: NodeId, e: Effect, step: Step)
    requires Takes(c, n, e, step) && VoteCounted(c.nodes[n], e.state, step)
    ensures forall v :: v in e.state.voteGranted ==>
              v in c.nodes && Granted(v, e.state.currentTerm, n) in c.events + e.votes
  {
    assert PacketVotesOK(step.packet, c.events);
    assert NodeVotesOK(c.nodes[n], c.events, c.nodes.Keys);
  }

  lemma ElectionHistory(c: Cluster, n: NodeId, e: Effect, step: Step)
    requires Takes(c, n, e, step)
    ensures HistoryOK(c.events + e.votes + ElectionEvents(c.nodes[n], e.state), c.nodes.Keys)
  {
    VoteHistory(c, n, e, step);
    var past, s, s' := c.events + e.votes, c.nodes[n], e.state;
    if ElectionEvents(s, s') == [] {
      assert past + [] == past;
    } else {
      var q := if s.peers == [] && e.votes == [Granted(n, s'.currentTerm, n)] then {n} else s'.voteGranted;
      if q != {n} {
        CountedWasGranted(c, n, e, step);
      }
      assert past[|c.events|..] == e.votes;
      assert MajorityFor(past, q, c.nodes.Keys, n, s'.currentTerm);
      HistoryAppend(past, BecameLeader(n, s'.currentTerm), c.nodes.Keys);
    }
  }

  /** The votes of a candidate are on record. */
  lemma CandidateVotes(c: Cluster, n: NodeId, e: Effect, step: Step)
    requires Takes(c, n, e, step) && e.state.role == Candidate
    ensures forall v :: v in e.state.voteGranted ==>
              v in c.nodes && Granted(v, e.state.currentTerm, n) in c.events + e.votes
  {
    hide HistoryOK, PacketVotesOK, VoteStands, VoteMove;
    assert NodeVotesOK(c.nodes[n], c.events, c.nodes.Keys);
    if VoteCounted(c.nodes[n], e.state, step) {
      CountedWasGranted(c, n, e, step);
    }
  }

  /** So is the election of a leader. */
  lemma LeaderOnRecord(c: Cluster, n: NodeId, e: Effect, step: Step)
    requires Takes(c, n, e, step) && e.state.role == Leader
    ensures BecameLeader(n, e.state.currentTerm) in c.events + (e.votes + ElectionEvents(c.nodes[n], e.state))
  {
    hide HistoryOK, PacketVotesOK, VoteStands, RoleMove;
    assert NodeVotesOK(c.nodes[n], c.events, c.nodes.Keys);
  }

  lemma OwnNodeVotes(c: Cluster, n: NodeId, e: Effect, step: Step, more: seq<Event>)
    requires Takes(c, n, e, step)
    requires more == e.votes + ElectionEvents(c.nodes[n], e.state)
    ensures NodeVotesOK(e.state, c.events + more, c.nodes.Keys)
  {
    hide HistoryOK, PacketVotesOK, VoteStands, RoleMove;
    var s' := e.state;
    assert more == e.votes || more == e.votes + [BecameLeader(n, s'.currentTerm)];
    OwnVotesStand(c, n, e, step, more);
    if s'.role == Candidate {
      CandidateVotes(c, n, e, step);
      assert c.events + more == c.events + e.votes + ElectionEvents(c.nodes[n], s');
    } else if s'.role == Leader {
      LeaderOnRecord(c, n, e, step);
    }
  }

  lemma OtherNodeVotes(s: NodeState, events: seq<Event>, more: seq<Event>, ids: set<NodeId>)
    requires NodeVotesOK(s, events, ids)
    requires forall m :: m in more && m.Granted? ==> m.voter != s.self
    ensures NodeVotesOK(s, events + more, ids)
  {
    var all := events + more;
    forall i | 0 <= i < |all| ensures VoteStands(s, all, i) {
      if i < |events| {
        assert VoteStands(s, events, i);
        if AcceptedBetween(events, i, |events|, s.self, s.currentTerm) {
          AcceptedLater(events, more, i, s.self, s.currentTerm);
        }
      } else {
        assert all[i] in more;
      }
    }
  }

  lemma TakesKeepsNodeVotes(c: Cluster, n: NodeId, e: Effect, step: Step, more: seq<Event>, m: NodeId)
    requires Takes(c, n, e, step) && m in c.nodes && c.nodes[m].self == m
    requires more == e.votes + ElectionEvents(c.nodes[n], e.state)
    ensures NodeVotesOK(if m == n then e.state else c.nodes[m], c.events + more, c.nodes.Keys)
  {
    hide NodeVotesOK, HistoryOK, RoleMove, PacketVotesOK, PeersAre;
    if m == n {
      OwnNodeVotes(c, n, e, step, more);
    } else {
      OtherNodeVotes(c.nodes[m], c.events, more, c.nodes.Keys);
    }
  }

  lemma Installed(c: Cluster, n: NodeId, e: Effect, proposed: map<(nat, nat), Log>)
    requires n in c.nodes
    ensures var c' := Install(c, n, e, proposed);
            && c'.nodes == c.nodes[n := e.state] && c'.nodes.Keys == c.nodes.Keys
            && c'.events == c.events + (e.votes + ElectionEvents(c.nodes[n], e.state))
            && c'.events == c.events + e.votes + ElectionEvents(c.nodes[n], e.state)
            && forall p :: p in c'.net ==> p in c.net || p in e.sent
  {
    hide ElectionEvents;
  }

  lemma TakesKeepsVotes(c: Cluster, n: NodeId, e: Effect, step: Step, proposed: map<(nat, nat), Log>)
    requires (forall m :: m in c.nodes ==> c.nodes[m].self == m) && Takes(c, n, e, step)
    ensures VotesOK(Install(c, n, e, proposed))
  {
    hide NodeVotesOK, HistoryOK, PacketVotesOK, ElectionEvents, Install, VoteMove, RoleMove, PeersAre;
    var c' := Install(c, n, e, proposed);
    var more := e.votes + ElectionEvents(c.nodes[n], e.state);
    Installed(c, n, e, proposed);
    ElectionHistory(c, n, e, step);
    forall m | m in c'.nodes ensures NodeVotesOK(c'.nodes[m], c'.events, c'.nodes.Keys) {
      TakesKeepsNodeVotes(c, n, e, step, more, m);
    }
    forall p | p in c'.net ensures PacketVotesOK(p, c'.events) {
      NewPacketVotes(c, n, e, step, more, p);
    }
  }

  lemma NewPacketVotes(c: Cluster, n: NodeId, e: Effect, step: Step, more: seq<Event>, p: Packet)
    requires Takes(c, n, e, step)
    requires p in c.net || p in e.sent
    requires e.votes <= more
    ensures PacketVotesOK(p, c.events + more)
  {
    if p in c.net {
      assert PacketVotesOK(p, c.events);
    } else {
      assert NodeVotesOK(c.nodes[n], c.events, c.nodes.Keys);
      assert forall v :: v in e.votes ==> v in more;
    }
  }

  lemma ApplyKeepsVotes(c: Cluster, step: Step)
    requires WellFormed(c) && VotesOK(c)
    ensures VotesOK(Apply(c, step))
  {
    hide LogOK, NodeOK, StepEffect, Proposed, VoteMove, RoleMove, VotesOK, Install, PeersAre, RpcOK;
    if Enabled(c, step) {
      var n := Recipient(step);
      if step.Deliver? || step.CrashInHandler? {
        assert PacketOK(c, step.packet);
      }
      StepMoves(c.nodes[n], step);
      TakesKeepsVotes(c, n, StepEffect(c.nodes[n], step), step, Proposed(c, step));
    }
  }

  lemma InitialVotes(c: Cluster)
    requires Initial(c)
    ensures VotesOK(c)
  {
  }

  lemma {:induction false} ReachableVotes(c0: Cluster, steps: seq<Step>)
    requires Initial(c0)
    ensures VotesOK(Exec(c0, steps))
    decreases |steps|
  {
    hide WellFormed, Apply, Initial, VotesOK;
    if steps == [] {
      InitialVotes(c0);
    } else {
      ReachableVotes(c0, steps[..|steps| - 1]);
      ReachableWellFormed(c0, steps[..|steps| - 1]);
      ApplyKeepsVotes(Exec(c0, steps[..|steps| - 1]), steps[|steps| - 1]);
    }
  }

  // ---------------------------------------------------------------------
  // What follows for leaders

  lemma MajoritiesMeet(p: set<NodeId>, q: set<NodeId>, ids: set<NodeId>) returns (v: NodeId)
    requires Majority(p, ids) && Majority(q, ids)
    ensures v in p && v in q
  {
    if p * q == {} {
      assert |p + q| == |p| + |q|;
      Subset(p + q, ids);
    }
    v :| v in p * q;
  }

  lemma {:induction false} Subset(a: set<NodeId>, b: set<NodeId>)
    requires a <= b
    ensures |a| <= |b|
  {
    if a != {} {
      var x :| x in a;
      Subset(a - {x}, b - {x});
    }
  }

  /** Someone voted for both in the same term, and accepted an AppendEntries of that term between the two votes. */
  ghost predicate ReVote(events: seq<Event>, a: NodeId, b: NodeId, term: nat) {
    exists v, i, k ::
      && 0 <= i < k < |events|
      && events[i].Granted? && events[k].Granted?
      && ((events[i] == Granted(v, term, a) && events[k] == Granted(v, term, b)) ||
          (events[i] == Granted(v, term, b) && events[k] == Granted(v, term, a)))
      && AcceptedBetween(events, i, k, v, term)
  }

  lemma ElectedByMajority(events: seq<Event>, ids: set<NodeId>, n: NodeId, term: nat) returns (k: nat, q: set<NodeId>)
    requires HistoryOK(events, ids) && BecameLeader(n, term) in events
    ensures k < |events| && events[k] == BecameLeader(n, term) && n in ids
    ensures MajorityFor(events[..k], q, ids, n, term)
  {
    k :| 0 <= k < |events| && events[k] == BecameLeader(n, term);
    HistoryAt(events, ids, k);
    q :| MajorityFor(events[..k], q, ids, n, term);
  }

  /** Of two votes of one node for different candidates, the later one came after an acceptance. */
  lemma VotesApart(events: seq<Event>, ids: set<NodeId>, i: nat, k: nat)
    requires HistoryOK(events, ids) && i < k < |events|
    requires events[k].Granted? && GrantBy(events[i], events[k].voter, events[k].term)
    requires events[i].candidate != events[k].candidate
    ensures AcceptedBetween(events, i, k, events[k].voter, events[k].term)
    ensures events[k].candidate != events[k].voter
  {
    HistoryAt(events, ids, k);
    var past := events[..k];
    assert past[i] == events[i];
    var j :| i < j < |past| && past[j] == Accepted(events[k].voter, events[k].term);
    assert events[j] == Accepted(events[k].voter, events[k].term);
  }

  lemma TwoLeadersHistory(events: seq<Event>, ids: set<NodeId>, a: NodeId, b: NodeId, term: nat)
    requires HistoryOK(events, ids) && a != b
    requires BecameLeader(a, term) in events && BecameLeader(b, term) in events
    ensures ReVote(events, a, b, term)
  {
    var ka, qa := ElectedByMajority(events, ids, a, term);
    var kb, qb := ElectedByMajority(events, ids, b, term);
    var v := MajoritiesMeet(qa, qb, ids);
    var i :| 0 <= i < |events| && events[i] == Granted(v, term, a);
    var k :| 0 <= k < |events| && events[k] == Granted(v, term, b);
    if i < k {
      VotesApart(events, ids, i, k);
    } else {
      VotesApart(events, ids, k, i);
    }
  }

  /** In a cluster of at most two nodes the first vote of one for the other would have to come before itself. */
  lemma TwoNodesHistory(events: seq<Event>, ids: set<NodeId>, a: NodeId, b: NodeId, term: nat)
    requires HistoryOK(events, ids) && |ids| <= 2
    requires BecameLeader(a, term) in events && BecameLeader(b, term) in events
    ensures a == b
  {
    if a != b {
      var ka, qa := ElectedByMajority(events, ids, a, term);
      var kb, qb := ElectedByMajority(events, ids, b, term);
      assert ids == {a, b} by { PairIsAll(ids, a, b); }
      assert qa == ids by { FullMajority(qa, ids, a, b); }
      assert qb == ids by { FullMajority(qb, ids, a, b); }
      var g :| 0 <= g < |events| && events[g] == Granted(b, term, a);
      NoFirstCrossVote(events, ids, a, b, term, g);
    }
  }

  lemma PairIsAll(ids: set<NodeId>, a: NodeId, b: NodeId)
    requires a in ids && b in ids && a != b && |ids| <= 2
    ensures ids == {a, b} && |ids| == 2
  {
    Subset({a, b}, ids);
    if x :| x in ids && x !in {a, b} {
      Subset({a, b, x}, ids);
    }
  }

  lemma FullMajority(q: set<NodeId>, ids: set<NodeId>, a: NodeId, b: NodeId)
    requires Majority(q, ids) && ids == {a, b} && a != b
    ensures q == ids
  {
    if x :| x in ids && x !in q {
      Subset(q, ids - {x});
    }
  }

  lemma {:induction false} NoFirstCrossVote(events: seq<Event>, ids: set<NodeId>, a: NodeId, b: NodeId,
                                            term: nat, g: nat)
    requires HistoryOK(events, ids) && ids == {a, b} && a != b
    requires Granted(b, term, b) in events
    requires g < |events| && events[g] == Granted(b, term, a)
    ensures false
    decreases g
  {
    var i :| 0 <= i < |events| && events[i] == Granted(b, term, b);
    if g < i {
      VotesApart(events, ids, g, i);
    }
    VotesApart(events, ids, i, g);
    var j :| i < j < g && events[j] == Accepted(b, term);
    HistoryAt(events, ids, j);
    var l :| 0 <= l < j && events[..j][l].BecameLeader? && events[..j][l].term == term
             && events[..j][l].leader in ids - {b};
    assert events[l] == BecameLeader(a, term);
    HistoryAt(events, ids, l);
    var q: set<NodeId> :| MajorityFor(events[..l], q, ids, a, term);
    FullMajority(q, ids, a, b);
    var g' :| 0 <= g' < l && events[..l][g'] == Granted(b, term, a);
    NoFirstCrossVote(events, ids, a, b, term, g');
  }

  // ---------------------------------------------------------------------
  // Runs

  predicate IsLeader(c: Cluster, n: NodeId, term: nat) {
    n in c.nodes && c.nodes[n].role == Leader && c.nodes[n].currentTerm == term
  }

  /** At some point of the run the node is leader of the term. */
  ghost predicate EverLeader(c0: Cluster, steps: seq<Step>, n: NodeId, term: nat) {
    exists i :: 0 <= i <= |steps| && IsLeader(Exec(c0, steps[..i]), n, term)
  }

  ghost predicate AtMostOneLeader(c0: Cluster, steps: seq<Step>) {
    forall a, b, term :: EverLeader(c0, steps, a, term) && EverLeader(c0, steps, b, term) ==> a == b
  }

  lemma ApplyEvents(c: Cluster, step: Step, n: NodeId, term: nat)
    requires WellFormed(c) && VotesOK(c)
    ensures c.events <= Apply(c, step).events
    ensures BecameLeader(n, term) in Apply(c, step).events && BecameLeader(n, term) !in c.events
            ==> IsLeader(Apply(c, step), n, term)
  {
    hide LogOK, NodeOK, StepEffect, Proposed, VotesOK, PeersAre, RpcOK, PacketOK;
    if Enabled(c, step) {
      var m := Recipient(step);
      if step.Deliver? || step.CrashInHandler? {
        assert PacketOK(c, step.packet);
        IncomingPacket(c, step);
      }
      StepMoves(c.nodes[m], step);
    }
  }

  lemma IncomingPacket(c: Cluster, step: Step)
    requires WellFormed(c) && Enabled(c, step) && (step.Deliver? || step.CrashInHandler?)
    ensures Incoming(c.nodes[Recipient(step)], step)
  {
    hide NodeOK;
    assert PacketOK(c, step.packet);
  }

  lemma {:induction false} EventsGrow(c0: Cluster, steps: seq<Step>, i: nat)
    requires Initial(c0) && i <= |steps|
    ensures Exec(c0, steps[..i]).events <= Exec(c0, steps).events
    decreases |steps|
  {
    hide WellFormed, Apply, Initial, VotesOK;
    if i == |steps| {
      assert steps[..i] == steps;
    } else {
      var front := steps[..|steps| - 1];
      EventsGrow(c0, front, i);
      assert front[..i] == steps[..i];
      ReachableWellFormed(c0, front);
      ReachableVotes(c0, front);
      ApplyEvents(Exec(c0, front), steps[|steps| - 1], 0, 0);
    }
  }

  /** The history records exactly the nodes that are ever leader. */
  lemma {:induction false} EverLeaderIsRecorded(c0: Cluster, steps: seq<Step>, n: NodeId, term: nat)
    requires Initial(c0)
    ensures EverLeader(c0, steps, n, term) <==> BecameLeader(n, term) in Exec(c0, steps).events
    decreases |steps|
  {
    hide Apply, Initial, WellFormed;
    if EverLeader(c0, steps, n, term) {
      var i :| 0 <= i <= |steps| && IsLeader(Exec(c0, steps[..i]), n, term);
      LeaderIsRecorded(c0, steps[..i], n, term);
      EventsGrow(c0, steps, i);
    }
    if BecameLeader(n, term) in Exec(c0, steps).events {
      if steps == [] {
        InitialHistory(c0);
      } else {
        var front := steps[..|steps| - 1];
        EverLeaderIsRecorded(c0, front, n, term);
        ReachableWellFormed(c0, front);
        ReachableVotes(c0, front);
        ApplyEvents(Exec(c0, front), steps[|steps| - 1], n, term);
        if EverLeader(c0, front, n, term) {
          var i :| 0 <= i <= |front| && IsLeader(Exec(c0, front[..i]), n, term);
          assert front[..i] == steps[..i];
        } else {
          assert steps[..|steps|] == steps;
        }
      }
    }
  }

  lemma InitialHistory(c: Cluster)
    requires Initial(c)
    ensures c.events == []
  {
  }

  lemma LeaderIsRecorded(c0: Cluster, steps: seq<Step>, n: NodeId, term: nat)
    requires Initial(c0) && IsLeader(Exec(c0, steps), n, term)
    ensures BecameLeader(n, term) in Exec(c0, steps).events
  {
    ReachableVotes(c0, steps);
    ReachableWellFormed(c0, steps);
    var c := Exec(c0, steps);
    assert NodeVotesOK(c.nodes[n], c.events, c.nodes.Keys);
  }

  /** Whoever is ever leader of a term was granted a vote in that term by a majority of the nodes. */
  lemma LeaderHoldsMajority(c0: Cluster, steps: seq<Step>, n: NodeId, term: nat)
    requires Initial(c0) && EverLeader(c0, steps, n, term)
    ensures exists q: set<NodeId> :: MajorityFor(Exec(c0, steps).events, q, c0.nodes.Keys, n, term)
  {
    hide Apply, Initial, WellFormed;
    EverLeaderIsRecorded(c0, steps, n, term);
    ReachableVotes(c0, steps);
    ReachableWellFormed(c0, steps);
    var k, q := ElectedByMajority(Exec(c0, steps).events, c0.nodes.Keys, n, term);
    assert MajorityFor(Exec(c0, steps).events, q, c0.nodes.Keys, n, term);
  }

  /** If two nodes are ever leader of the same term, some node voted for both in that term
      and accepted an AppendEntries of that term between its two votes. */
  lemma TwoLeadersNeedReVote(c0: Cluster, steps: seq<Step>, a: NodeId, b: NodeId, term: nat)
    requires Initial(c0) && a != b
    requires EverLeader(c0, steps, a, term) && EverLeader(c0, steps, b, term)
    ensures ReVote(Exec(c0, steps).events, a, b, term)
  {
    hide Apply, Initial, WellFormed;
    EverLeaderIsRecorded(c0, steps, a, term);
    EverLeaderIsRecorded(c0, steps, b, term);
    ReachableVotes(c0, steps);
    TwoLeadersHistory(Exec(c0, steps).events, Exec(c0, steps).nodes.Keys, a, b, term);
  }

  lemma SmallClusterOneLeader(c0: Cluster, steps: seq<Step>)
    requires Initial(c0) && |c0.nodes| <= 2
    ensures AtMostOneLeader(c0, steps)
  {
    hide Apply, Initial, WellFormed, EverLeader;
    ReachableVotes(c0, steps);
    ReachableWellFormed(c0, steps);
    assert |c0.nodes| == |c0.nodes.Keys|;
    forall a, b, term | EverLeader(c0, steps, a, term) && EverLeader(c0, steps, b, term) ensures a == b {
      EverLeaderIsRecorded(c0, steps, a, term);
      EverLeaderIsRecorded(c0, steps, b, term);
      TwoNodesHistory(Exec(c0, steps).events, c0.nodes.Keys, a, b, term);
    }
  }
}
