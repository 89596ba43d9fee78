/**
 A leader's search for the point of agreement can go round in circles. Any cluster of three or more nodes has a
 run, with two leaders of term two, after which one of them asks the other at next index two, three, two, three
 and so on, and the other's log never changes.
 */
module RaftLivelock {
  import opened RaftTypes
  import opened RaftCluster
  import opened RaftElection
  import opened RaftBackoff
  import opened RaftSplit

  /** The leader holds terms one and two, the follower one entry of term two. */
  ghost predicate Stuck(c: Cluster, l: NodeId, f: NodeId, next: nat) {
    && Leading(c, l, f) && NextFor(c.nodes[l], f) == next
    && |c.nodes[l].log| == 2 && c.nodes[l].log[0].term == 1 && c.nodes[l].log[1].term == 2
    && |c.nodes[f].log| == 1 && c.nodes[f].log[0].term == 2
  }

  /** What the follower answers, and where the leader goes from there. */
  lemma StuckAnswers(l: Log, f: Log)
    requires |l| == 2 && l[0].term == 1 && l[1].term == 2 && |f| == 1 && f[0].term == 2
    ensures Answer(l, f, 2) == Conflict(1, 2) && NextAfterConflict(l, 1, 2) == 3
    ensures Answer(l, f, 3) == Conflict(2, 0) && NextAfterConflict(l, 2, 0) == 2
  {
  }

  /** The leader's next request is sent, and the follower answers it with a rejection. */
  ghost predicate RequestIsRejected(c: Cluster, l: NodeId, f: NodeId)
    requires l in c.nodes && f in c.nodes
  {
    var s, ask := c.nodes[l], Request(c.nodes[l], f);
    && ask in StepEffect(s, Heartbeat(l)).sent
    && f in Apply(c, Heartbeat(l)).nodes
    && exists ci, ct :: StepEffect(Apply(c, Heartbeat(l)).nodes[f], Deliver(ask)).sent == [Rejection(s, f, ci, ct)]
  }

  lemma StuckIsRejected(c: Cluster, l: NodeId, f: NodeId, next: nat)
    requires Stuck(c, l, f, next) && (next == 2 || next == 3)
    ensures RequestIsRejected(c, l, f)
  {
    hide Apply, WellFormed, Answer, NextAfterConflict, Request, NodeOK, StepEffect;
    var s := c.nodes[l];
    StuckAnswers(s.log, c.nodes[f].log);
    LeaderIsSelf(c, l, f);
    HeartbeatAsks(s, f);
    Ask(c, l, f);
    NodeIsOK(c, f);
    FollowerAnswers(c.nodes[f], s);
    var ci, ct := if next == 2 then 1 else 2, if next == 2 then 2 else 0;
    assert StepEffect(Apply(c, Heartbeat(l)).nodes[f], Deliver(Request(s, f))).sent == [Rejection(s, f, ci, ct)];
  }

  /** One round takes the next index from two to three, or back. */
  lemma Bounce(c: Cluster, l: NodeId, f: NodeId, next: nat)
    requires Stuck(c, l, f, next) && (next == 2 || next == 3)
    ensures var c' := Exec(c, Round(c, l, f));
            && AllEnabled(c, Round(c, l, f)) && |Round(c, l, f)| == 3 && Stuck(c', l, f, 5 - next)
            && c'.nodes[l].log == c.nodes[l].log && c'.nodes[f].log == c.nodes[f].log
  {
    hide Exec, WellFormed, Answer, NextAfterConflict, Request, AllEnabled;
    StuckAnswers(c.nodes[l].log, c.nodes[f].log);
    RoundRuns(c, l, f);
  }

  /** After `n` rounds from `c`, all of whose steps have happened, the two logs are what they were, the next index is
      two or three by turns, and the next request is rejected again. */
  ghost predicate Circling(c: Cluster, l: NodeId, f: NodeId, n: nat)
    requires l in c.nodes && f in c.nodes
  {
    var c', steps := Exec(c, Rounds(c, l, f, n)), Rounds(c, l, f, n);
    && |steps| == 3 * n && AllEnabled(c, steps)
    && Stuck(c', l, f, 2 + n % 2) && RequestIsRejected(c', l, f)
    && c'.nodes[l].log == c.nodes[l].log && c'.nodes[f].log == c.nodes[f].log
  }

  lemma {:induction false} RoundsBounce(c: Cluster, l: NodeId, f: NodeId, next: nat, n: nat)
    requires Stuck(c, l, f, next) && (next == 2 || next == 3)
    ensures var c', steps := Exec(c, Rounds(c, l, f, n)), Rounds(c, l, f, n);
            && |steps| == 3 * n && AllEnabled(c, steps)
            && Stuck(c', l, f, if n % 2 == 0 then next else 5 - next)
            && c'.nodes[l].log == c.nodes[l].log && c'.nodes[f].log == c.nodes[f].log
    decreases n
  {
    hide Apply, Exec, Stuck, Round, AllEnabled;
    StuckNodes(c, l, f, next);
    if n == 0 {
      NoSteps(c);
    } else {
      var c1 := Exec(c, Round(c, l, f));
      Bounce(c, l, f, next);
      RoundsBounce(c1, l, f, 5 - next, n - 1);
      ExecAppend(c, Round(c, l, f), Rounds(c1, l, f, n - 1));
      EnabledAppend(c, Round(c, l, f), Rounds(c1, l, f, n - 1));
    }
  }

  lemma NoSteps(c: Cluster)
    ensures Exec(c, []) == c && AllEnabled(c, [])
  {
  }

  /** From a stuck pair on, however many requests the leader sends: each is rejected and neither log changes. */
  lemma StuckForEver(c: Cluster, l: NodeId, f: NodeId, n: nat)
    requires Stuck(c, l, f, 2)
    ensures l in c.nodes && f in c.nodes && Circling(c, l, f, n)
  {
    hide Apply, Exec, Stuck, Rounds, AllEnabled, RequestIsRejected;
    StuckNodes(c, l, f, 2);
    RoundsBounce(c, l, f, 2, n);
    var c' := Exec(c, Rounds(c, l, f, n));
    StuckNodes(c', l, f, 2 + n % 2);
    StuckIsRejected(c', l, f, 2 + n % 2);
  }

  lemma StuckNodes(c: Cluster, l: NodeId, f: NodeId, next: nat)
    requires Stuck(c, l, f, next)
    ensures l in c.nodes && f in c.nodes
  {
  }

  // ---------------------------------------------------------------------
  // How a cluster gets there

  /** A node of the split that restarts can run again. */
  lemma ReadyAgain(c: Cluster, c': Cluster, z: NodeId, vote: NodeId, l: Log, vs: seq<NodeId>)
    requires Selves(c) && Knows(c, z, vs) && vs != [] && z !in vs && c'.nodes.Keys == c.nodes.Keys
    requires c'.nodes[z] == Fresh(z, c.nodes[z].peers, 1, vote, l)
    requires forall i :: 0 <= i < |vs| ==> c'.nodes[vs[i]] == c.nodes[vs[i]] && Follows(c.nodes[vs[i]], 1)
    ensures ReadyToRun(c', 1, z, l, vs)
  {
  }

  /** One of two nodes, a leader, proposes, then both restart. */
  lemma BothRestart(c: Cluster, a: NodeId, b: NodeId)
    requires Selves(c) && a in c.nodes && b in c.nodes && a != b && c.nodes[a].role == Leader
    requires c.nodes[a].peers != [] && c.nodes[b].peers != []
    ensures var c', s, r := Exec(c, [Propose(a, "x"), Restart(a)] + [Restart(b)]), c.nodes[a], c.nodes[b];
            && Outside(c, c', {a, b})
            && c'.nodes[a] == Fresh(a, s.peers, s.currentTerm, s.votedFor,
                                    s.log + [LogEntry(s.currentTerm, |s.log| + 1, "x")])
            && c'.nodes[b] == Fresh(b, r.peers, r.currentTerm, r.votedFor, r.log)
  {
    hide Apply, Exec;
    var c1, c2 := Apply(c, Propose(a, "x")), Apply(Apply(c, Propose(a, "x")), Restart(a));
    ExecTwo(c, Propose(a, "x"), Restart(a));
    ExecTwo(c2, Restart(b), Restart(b));
    ExecAppend(c, [Propose(a, "x"), Restart(a)], [Restart(b)]);
    Proposes(c, a, "x");
    Restarted(c1, a);
    Restarted(c2, b);
  }

  /** Both leaders of a split are ready to run again, one of them with a longer log. */
  lemma StepBack(c: Cluster, a: NodeId, b: NodeId, vs: seq<NodeId>)
    requires Selves(c) && Split(c, 1, a, b, [], vs) && vs != []
    ensures var c' := Exec(c, [Propose(a, "x"), Restart(a)] + [Restart(b)]);
            && ReadyToRun(c', 1, b, [], vs) && ReadyToRun(c', 1, a, [LogEntry(1, 1, "x")], vs)
  {
    hide Apply, Exec, ReadyToRun, Follows, Untouched, NextAt, Quorum, Distinct, Fresh;
    var c' := Exec(c, [Propose(a, "x"), Restart(a)] + [Restart(b)]);
    assert vs[0] in c.nodes[a].peers && vs[0] in c.nodes[b].peers;
    BothRestart(c, a, b);
    assert [] + [LogEntry(1, 1, "x")] == [LogEntry(1, 1, "x")];
    ReadyAgain(c, c', a, c.nodes[a].votedFor, [LogEntry(1, 1, "x")], vs);
    ReadyAgain(c, c', b, c.nodes[b].votedFor, [], vs);
  }

  lemma Restarted(c: Cluster, x: NodeId)
    requires x in c.nodes && c.nodes[x].peers != []
    ensures var c', s := Apply(c, Restart(x)), c.nodes[x];
            && Outside(c, c', {x})
            && c'.nodes[x] == Fresh(s.self, s.peers, s.currentTerm, s.votedFor, s.log)
  {
  }

  /** Both have won term two; each proposes once more. */
  lemma Diverge(c: Cluster, a: NodeId, b: NodeId, x: LogEntry, vs: seq<NodeId>)
    requires WellFormed(c) && Split(c, 2, b, a, [x], vs) && x.term == 1
    ensures Stuck(Exec(c, [Propose(b, "d"), Propose(a, "c")]), a, b, 2)
  {
    hide Apply, Exec, WellFormed, Follows, Knows;
    var c1 := Apply(c, Propose(b, "d"));
    var c2 := Apply(c1, Propose(a, "c"));
    ExecTwo(c, Propose(b, "d"), Propose(a, "c"));
    ApplyWellFormed(c, Propose(b, "d"));
    ApplyWellFormed(c1, Propose(a, "c"));
    Proposes(c, b, "d");
    Proposes(c1, a, "c");
    PeerOf(c, a, b);
  }

  lemma Proposes(c: Cluster, z: NodeId, cmd: Command)
    requires z in c.nodes && c.nodes[z].role == Leader
    ensures var c', s := Apply(c, Propose(z, cmd)), c.nodes[z];
            && Outside(c, c', {z})
            && c'.nodes[z] == s.(log := s.log + [LogEntry(s.currentTerm, |s.log| + 1, cmd)])
  {
  }

  lemma PeerOf(c: Cluster, a: NodeId, b: NodeId)
    requires WellFormed(c) && a in c.nodes && b in c.nodes && a != b
    ensures b in c.nodes[a].peers
  {
    hide NodeOK;
    assert PeersAre(c.nodes[a].peers, c.nodes.Keys, a);
  }

  lemma StuckRun(c0: Cluster) returns (steps: seq<Step>, l: NodeId, f: NodeId)
    requires Initial(c0) && |c0.nodes| >= 3
    ensures Stuck(Exec(c0, steps), l, f, 2)
  {
    hide Apply, Exec, Initial, Split, ReadyToRun, Stuck, WellFormed, Poised;
    var s1, a, b, vs := SplitRun(c0);
    var c1 := Exec(c0, s1);
    ReachableSelves(c0, s1);
    var s2 := [Propose(a, "x"), Restart(a)] + [Restart(b)];
    StepBack(c1, a, b, vs);
    var c2 := Exec(c1, s2);
    var x, s3 := LogEntry(1, 1, "x"), [Timeout(b), Timeout(a)];
    ExecTwo(c2, Timeout(b), Timeout(a));
    assert a != b by { Apart(c1, a, b, vs); }
    BothCampaign(c2, 1, b, a, [x], vs);
    var c3 := Exec(c2, s3);
    var s4 := ElectBoth(c3, 2, b, a, [x], vs);
    var c4 := Exec(c3, s4);
    ExecAppend(c0, s1, s2);
    ExecAppend(c0, s1 + s2, s3);
    ExecAppend(c0, s1 + s2 + s3, s4);
    ReachableWellFormed(c0, s1 + s2 + s3 + s4);
    var s5 := [Propose(b, "d"), Propose(a, "c")];
    Diverge(c4, a, b, x, vs);
    ExecAppend(c0, s1 + s2 + s3 + s4, s5);
    steps, l, f := s1 + s2 + s3 + s4 + s5, a, b;
  }

  lemma Apart(c: Cluster, a: NodeId, b: NodeId, vs: seq<NodeId>)
    requires Split(c, 1, a, b, [], vs)
    ensures a != b
  {
  }

  /** The cluster can enter a circle from which this exchange never leaves: after some run, however many more
      rounds follow, every request of the leader is rejected, its next index goes from two to three and back, and
      neither log changes. */
  lemma BackoffCanLoop(c0: Cluster) returns (steps: seq<Step>, l: NodeId, f: NodeId)
    requires Initial(c0) && |c0.nodes| >= 3
    ensures var c := Exec(c0, steps);
            && l in c.nodes && f in c.nodes && Stuck(c, l, f, 2)
            && forall n: nat :: Circling(c, l, f, n)
  {
    hide Apply, Exec, Initial, Stuck, Circling;
    steps, l, f := StuckRun(c0);
    var c := Exec(c0, steps);
    StuckNodes(c, l, f, 2);
    forall n: nat ensures Circling(c, l, f, n) {
      StuckForEver(c, l, f, n);
    }
  }
}
