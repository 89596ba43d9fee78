/**
 Any cluster of three or more nodes has a run with two leaders of one term: two
 candidates start elections, the voters elect the first, accept its heartbeat (which
 clears their votes) and then answer the second candidate's delayed vote requests.
 So election safety and log matching hold in all runs exactly when the cluster has at
 most two nodes.
 */
module RaftSplit {
  import opened RaftTypes
  import opened RaftCluster
  import opened RaftElection
  import opened RaftLogMatching

  function Grant(t: nat, v: NodeId, x: NodeId): Packet {
    Packet(v, x, VoteReply(t, true))
  }

  /** The node will vote for anyone who asks in term `t`. */
  ghost predicate Willing(s: NodeState, t: nat) {
    && s.log == [] && s.role == Follower
    && (s.currentTerm < t || (s.currentTerm == t && s.votedFor == NOBODY))
  }

  /** The node follows in term `t` with an empty log. */
  ghost predicate Follows(s: NodeState, t: nat) {
    s.log == [] && s.role == Follower && s.currentTerm == t
  }

  /** `c'` differs from `c` only at the nodes in `at`, and only more has been sent. */
  ghost predicate Outside(c: Cluster, c': Cluster, at: set<NodeId>) {
    && c'.nodes.Keys == c.nodes.Keys && c.net <= c'.net
    && (forall n :: n in c.nodes ==> c'.nodes[n].self == c.nodes[n].self && c'.nodes[n].peers == c.nodes[n].peers)
    && (forall n :: n in c.nodes && n !in at ==> c'.nodes[n] == c.nodes[n])
  }

  lemma CastVote(c: Cluster, t: nat, x: NodeId, l: Log, v: NodeId)
    requires v in c.nodes && c.nodes[v].self == v && Willing(c.nodes[v], t) && Ballot(t, x, l, v) in c.net
    ensures var c' := Apply(c, Deliver(Ballot(t, x, l, v)));
            Outside(c, c', {v}) && Follows(c'.nodes[v], t) && Grant(t, v, x) in c'.net
  {
    var e := StepEffect(c.nodes[v], Deliver(Ballot(t, x, l, v)));
    assert e.sent == [Grant(t, v, x)];
  }

  /** Nothing committed, nothing applied. */
  ghost predicate Untouched(s: NodeState) {
    s.commitIndex == 0 && s.lastApplied == 0 && s.applied == []
  }

  ghost predicate NextAt(s: NodeState, next: nat) {
    forall v :: v in s.peers ==> Get(s.nextIndex, v) == next
  }

  lemma CountedVote(s: NodeState, v: NodeId)
    requires s.role == Candidate && v !in s.voteGranted && Untouched(s)
    ensures var s' := OnVoteReply(s, v, VoteReply(s.currentTerm, true));
            && s'.self == s.self && s'.peers == s.peers
            && s'.currentTerm == s.currentTerm && s'.log == s.log && Untouched(s')
            && s'.voteGranted == s.voteGranted + {v} && |s'.voteGranted| == |s.voteGranted| + 1
            && s'.role == (if |s.voteGranted| + 1 >= Quorum(s) then Leader else Candidate)
            && (s'.role == Leader ==> NextAt(s', |s.log| + 1))
  {
    hide SetAll;
    forall p | p in s.peers ensures Get(SetAll(s.nextIndex, s.peers, |s.log| + 1), p) == |s.log| + 1 {
      SetAllGet(s.nextIndex, s.peers, |s.log| + 1, p);
    }
  }

  lemma CountVote(c: Cluster, t: nat, x: NodeId, v: NodeId)
    requires x in c.nodes && Grant(t, v, x) in c.net && Untouched(c.nodes[x])
    requires c.nodes[x].role == Candidate && c.nodes[x].currentTerm == t && v !in c.nodes[x].voteGranted
    ensures var c', s := Apply(c, Deliver(Grant(t, v, x))), c.nodes[x];
            && Outside(c, c', {x})
            && c'.nodes[x].currentTerm == t && c'.nodes[x].log == s.log && Untouched(c'.nodes[x])
            && c'.nodes[x].voteGranted == s.voteGranted + {v}
            && |c'.nodes[x].voteGranted| == |s.voteGranted| + 1
            && c'.nodes[x].role == (if |s.voteGranted| + 1 >= Quorum(s) then Leader else Candidate)
            && (c'.nodes[x].role == Leader ==> NextAt(c'.nodes[x], |s.log| + 1))
  {
    hide OnVoteReply, SetAll, Quorum, Apply, NextAt;
    CountedVote(c.nodes[x], v);
    ApplyFrame(c, Deliver(Grant(t, v, x)));
  }

  /** A heartbeat of a leader with an empty log. */
  function Beat(t: nat, x: NodeId, v: NodeId): Packet {
    Packet(x, v, AppendEntries(t, x, 0, 0, [], 0))
  }

  lemma Accept(c: Cluster, t: nat, x: NodeId, v: NodeId)
    requires v in c.nodes && Follows(c.nodes[v], t) && Beat(t, x, v) in c.net
    ensures var c' := Apply(c, Deliver(Beat(t, x, v))); Outside(c, c', {v}) && Willing(c'.nodes[v], t)
  {
  }

  /** The candidate of term `t` with log `l` has `k + 1` votes and those of `vs[k..]` are still to come. */
  ghost predicate Collecting(c: Cluster, t: nat, x: NodeId, l: Log, vs: seq<NodeId>, k: nat) {
    && k < |vs|
    && x in c.nodes && c.nodes[x].role == Candidate && c.nodes[x].currentTerm == t && c.nodes[x].log == l
    && Untouched(c.nodes[x])
    && |c.nodes[x].voteGranted| == k + 1
    && Quorum(c.nodes[x]) == |vs| + 1
    && (forall i :: k <= i < |vs| ==>
          && vs[i] in c.nodes && vs[i] != x && c.nodes[vs[i]].self == vs[i]
          && Willing(c.nodes[vs[i]], t) && vs[i] !in c.nodes[x].voteGranted && Ballot(t, x, l, vs[i]) in c.net)
    && Distinct(vs)
  }

  /** The candidate has won its election with log `l`. */
  ghost predicate Won(c: Cluster, t: nat, x: NodeId, l: Log) {
    && x in c.nodes && c.nodes[x].role == Leader && c.nodes[x].currentTerm == t && c.nodes[x].log == l
    && Untouched(c.nodes[x]) && NextAt(c.nodes[x], |l| + 1)
  }

  /** After the vote of `vs[k]` is counted the candidate waits for the next one, or has won. */
  lemma StillCollecting(c: Cluster, c1: Cluster, c2: Cluster, t: nat, x: NodeId, l: Log, vs: seq<NodeId>, k: nat)
    requires Collecting(c, t, x, l, vs, k)
    requires Outside(c, c1, {vs[k]}) && Outside(c1, c2, {x})
    requires c2.nodes[x].role == (if k + 2 >= Quorum(c.nodes[x]) then Leader else Candidate)
    requires c2.nodes[x].currentTerm == t && c2.nodes[x].log == l && Untouched(c2.nodes[x])
    requires c2.nodes[x].voteGranted == c.nodes[x].voteGranted + {vs[k]} && |c2.nodes[x].voteGranted| == k + 2
    requires c2.nodes[x].role == Leader ==> NextAt(c2.nodes[x], |l| + 1)
    ensures k + 1 < |vs| ==> Collecting(c2, t, x, l, vs, k + 1)
    ensures k + 1 == |vs| ==> Won(c2, t, x, l)
  {
    hide Willing, Ballot, NextAt, Untouched;
  }

  lemma OutsideBoth(c: Cluster, c1: Cluster, c2: Cluster, p: set<NodeId>, q: set<NodeId>)
    requires Outside(c, c1, p) && Outside(c1, c2, q)
    ensures Outside(c, c2, p + q)
  {
  }

  lemma CollectOne(c: Cluster, t: nat, x: NodeId, l: Log, vs: seq<NodeId>, k: nat) returns (steps: seq<Step>)
    requires Collecting(c, t, x, l, vs, k)
    ensures var c' := Exec(c, steps);
            && Outside(c, c', {vs[k], x}) && Follows(c'.nodes[vs[k]], t)
            && (k + 1 < |vs| ==> Collecting(c', t, x, l, vs, k + 1))
            && (k + 1 == |vs| ==> Won(c', t, x, l))
  {
    hide Apply, Exec, NextAt, Untouched;
    var v := vs[k];
    steps := [Deliver(Ballot(t, x, l, v)), Deliver(Grant(t, v, x))];
    ExecTwo(c, steps[0], steps[1]);
    CastVote(c, t, x, l, v);
    var c1 := Apply(c, steps[0]);
    CountVote(c1, t, x, v);
    var c2 := Apply(c1, steps[1]);
    hide Willing, Quorum;
    StillCollecting(c, c1, c2, t, x, l, vs, k);
    OutsideBoth(c, c1, c2, {v}, {x});
  }

  lemma Voters(c: Cluster, t: nat, x: NodeId, l: Log, vs: seq<NodeId>, k: nat)
    requires Collecting(c, t, x, l, vs, k)
    ensures k < |vs| && Distinct(vs) && x in c.nodes
    ensures forall i :: k <= i < |vs| ==> vs[i] in c.nodes && vs[i] != x
  {
  }

  lemma {:induction false} Collect(c: Cluster, t: nat, x: NodeId, l: Log, vs: seq<NodeId>, k: nat)
    returns (steps: seq<Step>)
    requires Collecting(c, t, x, l, vs, k)
    ensures var c' := Exec(c, steps);
            && Outside(c, c', Members(vs) + {x})
            && Won(c', t, x, l)
            && (forall i :: k <= i < |vs| ==> Follows(c'.nodes[vs[i]], t))
            && (forall i :: 0 <= i < k && vs[i] in c.nodes && vs[i] != x ==> c'.nodes[vs[i]] == c.nodes[vs[i]])
    decreases |vs| - k
  {
    hide Apply, Follows, Won, Exec, Collecting;
    Voters(c, t, x, l, vs, k);
    steps := CollectOne(c, t, x, l, vs, k);
    if k + 1 < |vs| {
      var c1 := Exec(c, steps);
      var more := Collect(c1, t, x, l, vs, k + 1);
      ExecAppend(c, steps, more);
      steps := steps + more;
    }
  }

  lemma {:induction false} AcceptAll(c: Cluster, t: nat, x: NodeId, vs: seq<NodeId>, k: nat) returns (steps: seq<Step>)
    requires k <= |vs|
    requires Distinct(vs)
    requires forall i :: k <= i < |vs| ==>
               vs[i] in c.nodes && Follows(c.nodes[vs[i]], t) && Beat(t, x, vs[i]) in c.net
    ensures var c' := Exec(c, steps);
            && Outside(c, c', Members(vs))
            && (forall i :: k <= i < |vs| ==> Willing(c'.nodes[vs[i]], t))
            && (forall i :: 0 <= i < k && vs[i] in c.nodes ==> c'.nodes[vs[i]] == c.nodes[vs[i]])
    decreases |vs| - k
  {
    hide Apply, Exec, Willing, Follows, Beat;
    var step := Deliver(Beat(t, x, if k < |vs| then vs[k] else x));
    ExecTwo(c, step, step);
    if k == |vs| {
      steps := [];
    } else {
      steps := [step];
      Accept(c, t, x, vs[k]);
      var c1 := Apply(c, step);
      var more := AcceptAll(c1, t, x, vs, k + 1);
      ExecAppend(c, steps, more);
      steps := steps + more;
    }
  }

  lemma Campaign(c: Cluster, x: NodeId)
    requires x in c.nodes && c.nodes[x].self == x && c.nodes[x].role == Follower && c.nodes[x].peers != []
    ensures var c', s := Apply(c, Timeout(x)), c.nodes[x];
            && Outside(c, c', {x})
            && c'.nodes[x] == StartElection(s) && c'.nodes[x].voteGranted == {x}
            && forall v :: v in s.peers ==> Ballot(s.currentTerm + 1, x, s.log, v) in c'.net
  {
    var s := c.nodes[x];
    var t, l := s.currentTerm + 1, s.log;
    var sent := Broadcast(x, s.peers, RequestVote(t, x, |l|, LastLogTerm(l)));
    forall v | v in s.peers ensures Ballot(t, x, l, v) in SentSet(sent) {
      var i :| 0 <= i < |s.peers| && s.peers[i] == v;
      assert sent[i] == Ballot(t, x, l, v);
    }
    assert StepEffect(s, Timeout(x)).sent == sent;
  }

  lemma FirstHeartbeat(c: Cluster, t: nat, x: NodeId)
    requires Won(c, t, x, []) && c.nodes[x].self == x
    ensures var c' := Apply(c, Heartbeat(x));
            && Outside(c, c', {x}) && Won(c', t, x, [])
            && forall v :: v in c.nodes[x].peers ==> Beat(t, x, v) in c'.net
  {
    var s := c.nodes[x];
    var sent := StepEffect(s, Heartbeat(x)).sent;
    forall v | v in s.peers
      ensures Get(ClampAll(s.nextIndex, s.peers, 0), v) == 1 && Beat(t, x, v) in SentSet(sent)
    {
      var i :| 0 <= i < |s.peers| && s.peers[i] == v;
      ClampAllOther(s.nextIndex, s.peers, 0, v);
      assert sent[i] == Beat(t, x, v);
    }
  }

  lemma {:induction false} Pick(all: set<NodeId>, k: nat) returns (vs: seq<NodeId>)
    requires k <= |all|
    ensures |vs| == k && (forall i :: 0 <= i < k ==> vs[i] in all)
    ensures Distinct(vs)
  {
    if k == 0 {
      vs := [];
    } else {
      var x :| x in all;
      var rest := Pick(all - {x}, k - 1);
      vs := rest + [x];
    }
  }

  /** Candidates `a` and `b` have both asked for votes, and the voters in `vs` are enough to elect either. The
      first candidate's log is empty, the second's is `l`. */
  ghost predicate Poised(c: Cluster, t: nat, a: NodeId, b: NodeId, l: Log, vs: seq<NodeId>) {
    && a != b && a !in vs && b !in vs
    && Collecting(c, t, a, [], vs, 0) && Collecting(c, t, b, l, vs, 0)
    && Knows(c, a, vs) && Knows(c, b, vs)
  }

  ghost predicate Knows(c: Cluster, x: NodeId, vs: seq<NodeId>) {
    && x in c.nodes && c.nodes[x].self == x && Quorum(c.nodes[x]) == |vs| + 1 && Distinct(vs)
    && forall i :: 0 <= i < |vs| ==> vs[i] in c.nodes && vs[i] in c.nodes[x].peers
  }

  lemma StillKnows(c: Cluster, c': Cluster, x: NodeId, vs: seq<NodeId>, at: set<NodeId>)
    requires Knows(c, x, vs) && Outside(c, c', at)
    ensures Knows(c', x, vs)
  {
  }

  /** Two leaders of term `t`, with the voters following. */
  ghost predicate Split(c: Cluster, t: nat, a: NodeId, b: NodeId, l: Log, vs: seq<NodeId>) {
    && a != b && a !in vs && b !in vs
    && Won(c, t, a, []) && Won(c, t, b, l)
    && Knows(c, a, vs) && Knows(c, b, vs)
    && forall i :: 0 <= i < |vs| ==> vs[i] in c.nodes && Follows(c.nodes[vs[i]], t)
  }

  lemma Prepare(c0: Cluster) returns (steps: seq<Step>, a: NodeId, b: NodeId, vs: seq<NodeId>)
    requires Initial(c0) && |c0.nodes| >= 3
    ensures Poised(Exec(c0, steps), 1, a, b, [], vs) && vs != []
  {
    hide Apply, Exec, Poised, Initial;
    var all := c0.nodes.Keys;
    assert |c0.nodes| == |all|;
    var ab := Pick(all, 2);
    a, b := ab[0], ab[1];
    vs := Pick(all - {a, b}, |all| / 2);
    steps := [Timeout(a), Timeout(b)];
    ExecTwo(c0, Timeout(a), Timeout(b));
    forall x | x in c0.nodes ensures ReadyToRun(c0, 0, x, [], vs) || x !in {a, b} {
      if x in {a, b} {
        InitialReady(c0, x, vs);
      }
    }
    BothCampaign(c0, 0, a, b, [], vs);
  }

  /** A follower of term `t` with log `l` that could be elected by `vs`. */
  ghost predicate ReadyToRun(c: Cluster, t: nat, x: NodeId, l: Log, vs: seq<NodeId>) {
    && Knows(c, x, vs) && vs != [] && x !in vs
    && c.nodes[x].role == Follower && c.nodes[x].currentTerm == t && c.nodes[x].log == l && Untouched(c.nodes[x])
    && forall i :: 0 <= i < |vs| ==> c.nodes[vs[i]].self == vs[i] && Willing(c.nodes[vs[i]], t + 1)
  }

  lemma InitialReady(c0: Cluster, x: NodeId, vs: seq<NodeId>)
    requires Initial(c0) && x in c0.nodes && |vs| == |c0.nodes| / 2 >= 1 && Distinct(vs)
    requires forall i :: 0 <= i < |vs| ==> vs[i] in c0.nodes && vs[i] != x
    ensures ReadyToRun(c0, 0, x, [], vs)
  {
    assert |c0.nodes| == |c0.nodes.Keys|;
    assert PeersAre(c0.nodes[x].peers, c0.nodes.Keys, x);
  }

  /** Once its request is out the candidate waits for the voters. */
  lemma Waiting(c0: Cluster, c: Cluster, t: nat, x: NodeId, l: Log, vs: seq<NodeId>)
    requires ReadyToRun(c0, t, x, l, vs)
    requires c.nodes.Keys == c0.nodes.Keys && c.nodes[x] == StartElection(c0.nodes[x])
    requires forall i :: 0 <= i < |vs| ==> c.nodes[vs[i]] == c0.nodes[vs[i]]
    requires forall v :: v in c0.nodes[x].peers ==> Ballot(t + 1, x, l, v) in c.net
    ensures Collecting(c, t + 1, x, l, vs, 0) && Knows(c, x, vs)
  {
    hide Willing, Ballot;
  }

  lemma BothCampaign(c0: Cluster, t: nat, a: NodeId, b: NodeId, l: Log, vs: seq<NodeId>)
    requires a != b && ReadyToRun(c0, t, a, [], vs) && ReadyToRun(c0, t, b, l, vs)
    ensures Poised(Apply(Apply(c0, Timeout(a)), Timeout(b)), t + 1, a, b, l, vs)
  {
    hide Apply, Collecting, Willing, Ballot, StartElection, Untouched;
    assert vs[0] in c0.nodes[a].peers && vs[0] in c0.nodes[b].peers;
    Campaign(c0, a);
    var c1 := Apply(c0, Timeout(a));
    assert c1.nodes[b] == c0.nodes[b];
    Campaign(c1, b);
    var c2 := Apply(c1, Timeout(b));
    assert forall i :: 0 <= i < |vs| ==> vs[i] != a && vs[i] != b;
    Waiting(c0, c2, t, a, [], vs);
    Waiting(c0, c2, t, b, l, vs);
  }

  lemma WonStays(c: Cluster, c': Cluster, t: nat, x: NodeId, l: Log, at: set<NodeId>)
    requires Won(c, t, x, l) && Outside(c, c', at) && x !in at
    ensures Won(c', t, x, l)
  {
  }

  /** Once the voters are willing again, the other candidate is still collecting. */
  lemma StillWaiting(c: Cluster, c': Cluster, t: nat, a: NodeId, b: NodeId, l: Log, vs: seq<NodeId>)
    requires Collecting(c, t, b, l, vs, 0) && Outside(c, c', Members(vs) + {a}) && a != b && b !in vs
    requires forall i :: 0 <= i < |vs| ==> vs[i] in c'.nodes && Willing(c'.nodes[vs[i]], t)
    ensures Collecting(c', t, b, l, vs, 0)
  {
    hide Willing, Ballot;
    assert c'.nodes[b] == c.nodes[b];
  }

  /** A candidate with an empty log wins and sends its heartbeats. */
  lemma WinAndBeat(c: Cluster, t: nat, a: NodeId, vs: seq<NodeId>) returns (steps: seq<Step>)
    requires Collecting(c, t, a, [], vs, 0) && Knows(c, a, vs) && a !in vs
    ensures var c' := Exec(c, steps);
            && Outside(c, c', Members(vs) + {a}) && Won(c', t, a, [])
            && forall i :: 0 <= i < |vs| ==>
                 vs[i] in c'.nodes && Follows(c'.nodes[vs[i]], t) && Beat(t, a, vs[i]) in c'.net
  {
    hide Apply, Exec, Willing, Follows, Won, Collecting, Distinct, Beat, Quorum;
    var first := Collect(c, t, a, [], vs, 0);
    var c1 := Exec(c, first);
    StillKnows(c, c1, a, vs, Members(vs) + {a});
    FirstHeartbeat(c1, t, a);
    ExecTwo(c1, Heartbeat(a), Heartbeat(a));
    var c2 := Exec(c1, [Heartbeat(a)]);
    VotersFollow(c1, c2, t, a, vs);
    ExecAppend(c, first, [Heartbeat(a)]);
    steps := first + [Heartbeat(a)];
  }

  /** The first candidate wins and its heartbeat is accepted, which clears the votes. */
  lemma ElectFirst(c: Cluster, t: nat, a: NodeId, b: NodeId, l: Log, vs: seq<NodeId>) returns (steps: seq<Step>)
    requires Poised(c, t, a, b, l, vs)
    ensures var c' := Exec(c, steps);
            Won(c', t, a, []) && Collecting(c', t, b, l, vs, 0) && Knows(c', a, vs) && Knows(c', b, vs)
  {
    hide Apply, Exec, Willing, Follows, Won, Collecting, Distinct, Beat, Quorum;
    var first := WinAndBeat(c, t, a, vs);
    var c1 := Exec(c, first);
    var second := AcceptAll(c1, t, a, vs, 0);
    var c2 := Exec(c1, second);
    OutsideBoth(c, c1, c2, Members(vs) + {a}, Members(vs));
    assert Members(vs) + {a} + Members(vs) == Members(vs) + {a};
    WonStays(c1, c2, t, a, [], Members(vs));
    StillWaiting(c, c2, t, a, b, l, vs);
    StillKnows(c, c2, a, vs, Members(vs) + {a});
    StillKnows(c, c2, b, vs, Members(vs) + {a});
    ExecAppend(c, first, second);
    steps := first + second;
  }

  lemma VotersFollow(c: Cluster, c': Cluster, t: nat, a: NodeId, vs: seq<NodeId>)
    requires Outside(c, c', {a}) && a !in vs
    requires forall i :: 0 <= i < |vs| ==> vs[i] in c.nodes && Follows(c.nodes[vs[i]], t)
    ensures forall i :: 0 <= i < |vs| ==> vs[i] in c'.nodes && Follows(c'.nodes[vs[i]], t)
  {
  }

  /** The second candidate wins with the same voters. */
  lemma ElectBoth(c: Cluster, t: nat, a: NodeId, b: NodeId, l: Log, vs: seq<NodeId>) returns (steps: seq<Step>)
    requires Poised(c, t, a, b, l, vs)
    ensures Split(Exec(c, steps), t, a, b, l, vs)
  {
    hide Apply, Exec, Collecting, Won, Follows;
    var first := ElectFirst(c, t, a, b, l, vs);
    var c1 := Exec(c, first);
    var second := Collect(c1, t, b, l, vs, 0);
    var c2 := Exec(c1, second);
    WonStays(c1, c2, t, a, [], Members(vs) + {b});
    StillKnows(c1, c2, a, vs, Members(vs) + {b});
    StillKnows(c1, c2, b, vs, Members(vs) + {b});
    ExecAppend(c, first, second);
    steps := first + second;
  }

  ghost predicate Selves(c: Cluster) {
    forall n :: n in c.nodes ==> c.nodes[n].self == n
  }

  lemma ReachableSelves(c0: Cluster, steps: seq<Step>)
    requires Initial(c0)
    ensures Selves(Exec(c0, steps))
  {
    hide Exec, Initial, NodeOK, PeersAre, PacketOK;
    ReachableWellFormed(c0, steps);
  }

  lemma SplitRun(c0: Cluster) returns (steps: seq<Step>, a: NodeId, b: NodeId, vs: seq<NodeId>)
    requires Initial(c0) && |c0.nodes| >= 3
    ensures Split(Exec(c0, steps), 1, a, b, [], vs) && vs != []
  {
    hide Apply, Exec, Initial, Split, Poised;
    var first;
    first, a, b, vs := Prepare(c0);
    var second := ElectBoth(Exec(c0, first), 1, a, b, [], vs);
    ExecAppend(c0, first, second);
    steps := first + second;
  }

  /** Every cluster of three or more nodes has a run that ends with two leaders of term one. */
  lemma TwoLeadersRun(c0: Cluster) returns (steps: seq<Step>, a: NodeId, b: NodeId)
    requires Initial(c0) && |c0.nodes| >= 3
    ensures a != b && IsLeader(Exec(c0, steps), a, 1) && IsLeader(Exec(c0, steps), b, 1)
  {
    hide Apply, Exec, Initial, Knows, Follows, Untouched, NextAt;
    var vs;
    steps, a, b, vs := SplitRun(c0);
  }

  /** Election safety holds in all runs of a cluster exactly when it has at most two nodes. */
  lemma ElectionSafetyExactly(c0: Cluster)
    requires Initial(c0)
    ensures (forall steps :: AtMostOneLeader(c0, steps)) <==> |c0.nodes| <= 2
  {
    hide Apply, Exec, Initial;
    if |c0.nodes| <= 2 {
      forall steps ensures AtMostOneLeader(c0, steps) {
        SmallClusterOneLeader(c0, steps);
      }
    } else {
      var steps, a, b := TwoLeadersRun(c0);
      assert steps[..|steps|] == steps;
      assert EverLeader(c0, steps, a, 1) && EverLeader(c0, steps, b, 1);
      assert !AtMostOneLeader(c0, steps);
    }
  }

  lemma ProposeFirst(c: Cluster, x: NodeId, cmd: Command)
    requires IsLeader(c, x, 1) && c.nodes[x].log == []
    ensures var c' := Apply(c, Propose(x, cmd));
            Outside(c, c', {x}) && c'.nodes[x].log == [LogEntry(1, 1, cmd)]
  {
  }

  lemma BothPropose(c: Cluster, a: NodeId, b: NodeId)
    requires IsLeader(c, a, 1) && IsLeader(c, b, 1) && a != b && c.nodes[a].log == [] == c.nodes[b].log
    ensures !LogsMatch(Apply(Apply(c, Propose(a, "x")), Propose(b, "y")))
  {
    hide Apply;
    ProposeFirst(c, a, "x");
    var c1 := Apply(c, Propose(a, "x"));
    ProposeFirst(c1, b, "y");
    var c2 := Apply(c1, Propose(b, "y"));
    assert c2.nodes[a].log[..1][0].command == "x" && c2.nodes[b].log[..1][0].command == "y";
  }

  /** Log matching holds in all runs of a cluster exactly when it has at most two nodes:
      two leaders of one term may each propose a first entry of their own. */
  lemma LogMatchingExactly(c0: Cluster)
    requires Initial(c0)
    ensures (forall steps :: LogsMatch(Exec(c0, steps))) <==> |c0.nodes| <= 2
  {
    hide Apply, Exec, Initial;
    if |c0.nodes| <= 2 {
      forall steps ensures LogsMatch(Exec(c0, steps)) {
        SmallClusterOneLeader(c0, steps);
        LogMatching(c0, steps);
      }
    } else {
      var first, a, b, _ := SplitRun(c0);
      var second := [Propose(a, "x"), Propose(b, "y")];
      ExecTwo(Exec(c0, first), second[0], second[1]);
      ExecAppend(c0, first, second);
      BothPropose(Exec(c0, first), a, b);
      assert !LogsMatch(Exec(c0, first + second));
    }
  }
}
