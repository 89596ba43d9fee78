/**
 Any cluster of three or more nodes has a run in which two leaders of one term commit different commands at the
 same index: the voters keep the first leader's entry, because the second's has the same term, and still report
 a log of that length. So commit safety holds in all runs exactly when the cluster has at most two nodes.
 */
module RaftDoubleCommit {
  import opened RaftTypes
  import opened RaftCluster
  import opened RaftCommit
  import opened RaftElection
  import opened RaftSplit

  /** A follower of term one whose log is empty or one entry of that term. */
  ghost predicate Holds(s: NodeState) {
    s.currentTerm == 1 && s.role == Follower && (s.log == [] || (|s.log| == 1 && s.log[0].term == 1))
  }

  function Order(z: NodeId, e: LogEntry, v: NodeId): Packet {
    Packet(z, v, AppendEntries(1, z, 0, 0, [e], 0))
  }

  function Receipt(v: NodeId, z: NodeId): Packet {
    Packet(v, z, AppendReply(1, true, 1, 0, 0))
  }

  ghost predicate Done(s: NodeState, e: LogEntry) {
    s.commitIndex == 1 && s.lastApplied == 1 && s.applied == [e.command]
  }

  /** A leader of term one that is replicating its first entry. */
  ghost predicate Pushing(s: NodeState, e: LogEntry) {
    s.role == Leader && s.currentTerm == 1 && s.log == [e] && e.term == 1 && (Untouched(s) || Done(s, e))
  }

  /** Whatever entry of the term it holds, a voter reports a log of length one. */
  lemma Obey(c: Cluster, z: NodeId, e: LogEntry, v: NodeId)
    requires v in c.nodes && c.nodes[v].self == v && Holds(c.nodes[v]) && e.term == 1 && Order(z, e, v) in c.net
    ensures var c' := Apply(c, Deliver(Order(z, e, v)));
            Outside(c, c', {v}) && Holds(c'.nodes[v]) && Receipt(v, z) in c'.net
  {
    hide Apply;
    ObeyEffect(c.nodes[v], z, e);
    ApplyFrame(c, Deliver(Order(z, e, v)));
  }

  lemma ObeyEffect(s: NodeState, z: NodeId, e: LogEntry)
    requires Holds(s) && e.term == 1
    ensures var effect := StepEffect(s, Deliver(Order(z, e, s.self)));
            && effect.sent == [Receipt(s.self, z)] && Holds(effect.state)
            && effect.state.self == s.self && effect.state.peers == s.peers
  {
    assert Splice(s.log, 0, [e]) == if s.log == [] then [e] else s.log;
  }

  lemma TallyEffect(s: NodeState, e: LogEntry, v: NodeId)
    requires Pushing(s, e)
    ensures var s' := OnAppendReply(s, v, AppendReply(1, true, 1, 0, 0));
            && Pushing(s', e) && s'.self == s.self && s'.peers == s.peers && s'.matchIndex == s.matchIndex[v := 1]
            && (1 + CountAtLeast(s'.matchIndex, s.peers, 1) >= Quorum(s) ==> Done(s', e))
  {
    hide CountAtLeast;
    var s1 := s.(matchIndex := s.matchIndex[v := 1], nextIndex := s.nextIndex[v := 2]);
    assert HighestCommittable(s1, 0) == s1.commitIndex || s1.commitIndex == 1;
    assert Commands([e]) == [e.command];
    assert [e][0..1] == [e];
  }

  lemma Tally(c: Cluster, z: NodeId, e: LogEntry, v: NodeId)
    requires z in c.nodes && Pushing(c.nodes[z], e) && Receipt(v, z) in c.net
    ensures var c', s := Apply(c, Deliver(Receipt(v, z))), c.nodes[z];
            && Outside(c, c', {z}) && Pushing(c'.nodes[z], e) && c'.nodes[z].matchIndex == s.matchIndex[v := 1]
            && (1 + CountAtLeast(c'.nodes[z].matchIndex, s.peers, 1) >= Quorum(s) ==> Done(c'.nodes[z], e))
  {
    hide Apply, OnAppendReply, CountAtLeast, Quorum;
    TallyEffect(c.nodes[z], e, v);
    ApplyFrame(c, Deliver(Receipt(v, z)));
  }

  // ---------------------------------------------------------------------
  // A quorum of receipts

  lemma {:induction false} CountCovers(m: map<NodeId, nat>, ks: seq<NodeId>, idx: nat, w: set<NodeId>)
    requires forall x :: x in w ==> x in ks && Get(m, x) >= idx
    ensures CountAtLeast(m, ks, idx) >= |w|
  {
    if ks == [] {
      assert w == {};
    } else {
      var last := ks[|ks| - 1];
      CountCovers(m, ks[..|ks| - 1], idx, w - {last});
      if last in w {
        assert |w| == |w - {last}| + 1;
      } else {
        assert w - {last} == w;
      }
    }
  }

  lemma {:induction false} MembersSize(vs: seq<NodeId>)
    requires Distinct(vs)
    ensures |Members(vs)| == |vs|
  {
    if vs != [] {
      var front, last := vs[..|vs| - 1], vs[|vs| - 1];
      MembersSize(front);
      assert Members(vs) == Members(front) + {last};
    } else {
      assert Members(vs) == {};
    }
  }

  lemma EnoughReceipts(s: NodeState, vs: seq<NodeId>)
    requires Distinct(vs) && Quorum(s) == |vs| + 1
    requires forall i :: 0 <= i < |vs| ==> vs[i] in s.peers && Get(s.matchIndex, vs[i]) >= 1
    ensures 1 + CountAtLeast(s.matchIndex, s.peers, 1) >= Quorum(s)
  {
    hide CountAtLeast, Quorum;
    MembersSize(vs);
    CountCovers(s.matchIndex, s.peers, 1, Members(vs));
  }

  /** The leader has the receipts of `vs[..k]`; its orders to the others are out. */
  ghost predicate Replicating(c: Cluster, z: NodeId, e: LogEntry, vs: seq<NodeId>, k: nat) {
    && Knows(c, z, vs) && z !in vs && k <= |vs| && Pushing(c.nodes[z], e)
    && (forall i :: 0 <= i < k ==> Get(c.nodes[z].matchIndex, vs[i]) >= 1)
    && (forall i :: 0 <= i < |vs| ==>
          c.nodes[vs[i]].self == vs[i] && Holds(c.nodes[vs[i]]) && Order(z, e, vs[i]) in c.net)
  }

  /** One more order delivered. */
  lemma AfterOrder(c: Cluster, c1: Cluster, z: NodeId, e: LogEntry, vs: seq<NodeId>, k: nat)
    requires Replicating(c, z, e, vs, k) && k < |vs|
    requires Outside(c, c1, {vs[k]}) && Holds(c1.nodes[vs[k]])
    ensures Replicating(c1, z, e, vs, k) && z in c1.nodes && c1.nodes[z] == c.nodes[z]
  {
    hide Order, Holds, Pushing, Quorum, Distinct;
    StillKnows(c, c1, z, vs, {vs[k]});
  }

  /** One more receipt counted. */
  lemma AfterReceipt(c: Cluster, c2: Cluster, z: NodeId, e: LogEntry, vs: seq<NodeId>, k: nat)
    requires Replicating(c, z, e, vs, k) && k < |vs|
    requires Outside(c, c2, {z}) && Pushing(c2.nodes[z], e)
    requires c2.nodes[z].matchIndex == c.nodes[z].matchIndex[vs[k] := 1]
    ensures Replicating(c2, z, e, vs, k + 1)
  {
    hide Order, Holds, Pushing, Quorum, Distinct, Get;
    StillKnows(c, c2, z, vs, {z});
    Receipts(c.nodes[z].matchIndex, c2.nodes[z].matchIndex, vs, k);
  }

  lemma ReplicateOne(c: Cluster, z: NodeId, e: LogEntry, vs: seq<NodeId>, k: nat) returns (steps: seq<Step>)
    requires Replicating(c, z, e, vs, k) && k < |vs|
    ensures var c' := Exec(c, steps);
            && Outside(c, c', Members(vs) + {z}) && Replicating(c', z, e, vs, k + 1)
            && (k + 1 == |vs| ==> Done(c'.nodes[z], e))
  {
    hide Apply, Exec, Order, Receipt, Holds, Pushing, Done, Quorum, CountAtLeast, Replicating, Outside;
    var v := vs[k];
    steps := [Deliver(Order(z, e, v)), Deliver(Receipt(v, z))];
    ExecTwo(c, steps[0], steps[1]);
    ReadyFor(c, z, e, vs, k);
    Obey(c, z, e, v);
    var c1 := Apply(c, steps[0]);
    AfterOrder(c, c1, z, e, vs, k);
    Tally(c1, z, e, v);
    var c2 := Apply(c1, steps[1]);
    AfterReceipt(c1, c2, z, e, vs, k);
    Within(c, c1, c2, vs, k, z);
    if k + 1 == |vs| {
      AllIn(c1, c2, z, e, vs);
    }
  }

  lemma ReadyFor(c: Cluster, z: NodeId, e: LogEntry, vs: seq<NodeId>, k: nat)
    requires Replicating(c, z, e, vs, k) && k < |vs|
    ensures z in c.nodes && vs[k] in c.nodes && c.nodes[vs[k]].self == vs[k] && Holds(c.nodes[vs[k]])
    ensures e.term == 1 && Order(z, e, vs[k]) in c.net && Pushing(c.nodes[z], e)
  {
    hide Order, Holds;
  }

  lemma Within(c: Cluster, c1: Cluster, c2: Cluster, vs: seq<NodeId>, k: nat, z: NodeId)
    requires k < |vs| && Outside(c, c1, {vs[k]}) && Outside(c1, c2, {z})
    ensures Outside(c, c2, Members(vs) + {z})
  {
  }

  lemma AllIn(c: Cluster, c': Cluster, z: NodeId, e: LogEntry, vs: seq<NodeId>)
    requires Replicating(c', z, e, vs, |vs|) && z in c.nodes && Outside(c, c', {z})
    ensures 1 + CountAtLeast(c'.nodes[z].matchIndex, c.nodes[z].peers, 1) >= Quorum(c.nodes[z])
  {
    hide Order, Holds, Pushing, CountAtLeast;
    EnoughReceipts(c'.nodes[z], vs);
  }

  lemma Receipts(m: map<NodeId, nat>, m': map<NodeId, nat>, vs: seq<NodeId>, k: nat)
    requires k < |vs| && m' == m[vs[k] := 1] && forall i :: 0 <= i < k ==> Get(m, vs[i]) >= 1
    ensures forall i :: 0 <= i < k + 1 ==> Get(m', vs[i]) >= 1
  {
  }

  lemma {:induction false} ReplicateAll(c: Cluster, z: NodeId, e: LogEntry, vs: seq<NodeId>, k: nat)
    returns (steps: seq<Step>)
    requires Replicating(c, z, e, vs, k) && k < |vs|
    ensures var c' := Exec(c, steps);
            && Outside(c, c', Members(vs) + {z}) && Replicating(c', z, e, vs, |vs|) && Done(c'.nodes[z], e)
    decreases |vs| - k
  {
    hide Apply, Exec, Replicating, Done, Outside;
    steps := ReplicateOne(c, z, e, vs, k);
    if k + 1 < |vs| {
      var c1 := Exec(c, steps);
      var more := ReplicateAll(c1, z, e, vs, k + 1);
      OutsideBoth(c, c1, Exec(c1, more), Members(vs) + {z}, Members(vs) + {z});
      assert Members(vs) + {z} + (Members(vs) + {z}) == Members(vs) + {z};
      ExecAppend(c, steps, more);
      steps := steps + more;
    }
  }

  // ---------------------------------------------------------------------
  // The run

  /** A leader that has just won proposes its first entry and sends it out. */
  lemma Launch(c: Cluster, z: NodeId, cmd: Command)
    requires Won(c, 1, z, []) && c.nodes[z].self == z
    ensures var c', e := Exec(c, [Propose(z, cmd), Heartbeat(z)]), LogEntry(1, 1, cmd);
            && Outside(c, c', {z}) && Pushing(c'.nodes[z], e)
            && forall v :: v in c.nodes[z].peers ==> Order(z, e, v) in c'.net
  {
    hide Apply, Exec, NextAt, Untouched, Order;
    ExecTwo(c, Propose(z, cmd), Heartbeat(z));
    var c1 := Apply(c, Propose(z, cmd));
    LaunchPropose(c, z, cmd);
    LaunchBeat(c1, z, LogEntry(1, 1, cmd));
  }

  lemma LaunchPropose(c: Cluster, z: NodeId, cmd: Command)
    requires Won(c, 1, z, [])
    ensures var c' := Apply(c, Propose(z, cmd));
            && Outside(c, c', {z}) && Pushing(c'.nodes[z], LogEntry(1, 1, cmd))
            && Untouched(c'.nodes[z]) && NextAt(c'.nodes[z], 1)
  {
  }

  lemma LaunchBeat(c: Cluster, z: NodeId, e: LogEntry)
    requires z in c.nodes && c.nodes[z].self == z && Pushing(c.nodes[z], e) && Untouched(c.nodes[z])
    requires NextAt(c.nodes[z], 1)
    ensures var c' := Apply(c, Heartbeat(z));
            && Outside(c, c', {z}) && Pushing(c'.nodes[z], e)
            && forall v :: v in c.nodes[z].peers ==> Order(z, e, v) in c'.net
  {
    var s := c.nodes[z];
    var sent := StepEffect(s, Heartbeat(z)).sent;
    forall v | v in s.peers ensures Order(z, e, v) in SentSet(sent) {
      var i :| 0 <= i < |s.peers| && s.peers[i] == v;
      ClampAllOther(s.nextIndex, s.peers, 1, v);
      assert [e][0..] == [e];
      assert sent[i] == Order(z, e, v);
    }
  }

  /** From its election to the commit of its first entry. */
  lemma CommitFirst(c: Cluster, z: NodeId, cmd: Command, vs: seq<NodeId>) returns (steps: seq<Step>)
    requires Selves(c) && Won(c, 1, z, []) && Knows(c, z, vs) && z !in vs && vs != []
    requires forall i :: 0 <= i < |vs| ==> Holds(c.nodes[vs[i]])
    ensures var c' := Exec(c, steps);
            && Outside(c, c', Members(vs) + {z}) && Done(c'.nodes[z], LogEntry(1, 1, cmd))
            && forall i :: 0 <= i < |vs| ==> Holds(c'.nodes[vs[i]])
  {
    hide Apply, Exec, Holds, Pushing, Done, Order, Won;
    var e, first := LogEntry(1, 1, cmd), [Propose(z, cmd), Heartbeat(z)];
    Launch(c, z, cmd);
    var c1 := Exec(c, first);
    StillKnows(c, c1, z, vs, {z});
    assert forall i :: 0 <= i < |vs| ==> c1.nodes[vs[i]] == c.nodes[vs[i]];
    var second := ReplicateAll(c1, z, e, vs, 0);
    OutsideBoth(c, c1, Exec(c1, second), {z}, Members(vs) + {z});
    assert {z} + (Members(vs) + {z}) == Members(vs) + {z};
    ExecAppend(c, first, second);
    steps := first + second;
  }

  lemma FollowersHold(c: Cluster, vs: seq<NodeId>)
    requires forall i :: 0 <= i < |vs| ==> vs[i] in c.nodes && Follows(c.nodes[vs[i]], 1)
    ensures forall i :: 0 <= i < |vs| ==> Holds(c.nodes[vs[i]])
  {
  }

  lemma TwoCommits(c: Cluster, a: NodeId, b: NodeId, vs: seq<NodeId>) returns (steps: seq<Step>)
    requires Selves(c) && Split(c, 1, a, b, [], vs) && vs != []
    ensures var c' := Exec(c, steps);
            && a in c'.nodes && b in c'.nodes
            && c'.nodes[a].applied == ["x"] && c'.nodes[b].applied == ["y"]
  {
    hide Apply, Exec, Holds, Won, Follows;
    FollowersHold(c, vs);
    var first := CommitFirst(c, a, "x", vs);
    var c1 := Exec(c, first);
    WonStays(c, c1, 1, b, [], Members(vs) + {a});
    StillKnows(c, c1, b, vs, Members(vs) + {a});
    var second := CommitFirst(c1, b, "y", vs);
    ExecAppend(c, first, second);
    steps := first + second;
  }

  /** Every cluster of three or more nodes has a run in which two nodes apply different commands first. */
  lemma DoubleCommitRun(c0: Cluster) returns (steps: seq<Step>, a: NodeId, b: NodeId)
    requires Initial(c0) && |c0.nodes| >= 3
    ensures var c := Exec(c0, steps);
            a in c.nodes && b in c.nodes && c.nodes[a].applied == ["x"] && c.nodes[b].applied == ["y"]
  {
    hide Apply, Exec, Initial, Split;
    var first, vs;
    first, a, b, vs := SplitRun(c0);
    ReachableSelves(c0, first);
    var second := TwoCommits(Exec(c0, first), a, b, vs);
    ExecAppend(c0, first, second);
    steps := first + second;
  }

  /** All nodes apply the same commands in the same order, at any two moments of all runs of a cluster, exactly when
      it has at most two nodes. */
  lemma CommitSafetyExactly(c0: Cluster)
    requires Initial(c0)
    ensures (forall steps, i: nat :: i <= |steps| ==> AppliedAgree(Exec(c0, steps[..i]), Exec(c0, steps)))
            <==> |c0.nodes| <= 2
  {
    hide Apply, Exec, Initial;
    if |c0.nodes| <= 2 {
      forall steps, i: nat | i <= |steps| ensures AppliedAgree(Exec(c0, steps[..i]), Exec(c0, steps)) {
        SmallClusterAgrees(c0, steps, i);
      }
    } else {
      var steps, a, b := DoubleCommitRun(c0);
      var c := Exec(c0, steps);
      assert c.nodes[a].applied[0] != c.nodes[b].applied[0];
      assert !Comparable(c.nodes[a].applied, c.nodes[b].applied);
      assert steps[..|steps|] == steps;
      assert !AppliedAgree(c, c);
    }
  }
}
