/**
 What a leader commits, and that it gets there: an entry of its term that a majority holds is committed, a proposal
 that reaches a majority is applied by leader and followers, and a node that hears of a higher term stops leading.
 */
module RaftProgress {
  import opened RaftTypes
  import opened RaftCluster
  import opened RaftElection
  import opened RaftLogMatching
  import opened RaftBackoff

  // ---------------------------------------------------------------------
  // What a leader may commit

  /** As far as the leader knows, it and the others of a majority hold entry `idx`, which is of its term. */
  ghost predicate CanCommit(s: NodeState, ids: set<NodeId>, idx: nat) {
    && 1 <= idx <= |s.log| && s.log[idx - 1].term == s.currentTerm
    && exists q: set<NodeId> :: Holders(s, ids, idx, q)
  }

  ghost predicate Holders(s: NodeState, ids: set<NodeId>, idx: nat, q: set<NodeId>) {
    q <= ids && 2 * |q| > |ids| && forall p :: p in q && p != s.self ==> p in s.matchIndex && s.matchIndex[p] >= idx
  }

  /** The commit index is the highest that can be committed, or is where it was. */
  ghost predicate CommitsAll(s: NodeState, s': NodeState, ids: set<NodeId>) {
    && (s'.commitIndex == s.commitIndex || (s'.commitIndex > s.commitIndex && CanCommit(s, ids, s'.commitIndex)))
    && NothingLeft(s', ids)
    && AppliesUpTo(s, s')
    && s' == s.(commitIndex := s'.commitIndex, lastApplied := s'.lastApplied, applied := s'.applied)
  }

  ghost predicate NothingLeft(s: NodeState, ids: set<NodeId>) {
    forall idx: nat :: idx > s.commitIndex ==> !CanCommit(s, ids, idx)
  }

  function AtLeast(m: map<NodeId, nat>, ks: seq<NodeId>, idx: nat): set<NodeId> {
    set k | k in ks && Get(m, k) >= idx
  }

  lemma {:induction false} MembersAtMost(ks: seq<NodeId>)
    ensures |Members(ks)| <= |ks|
  {
    if ks == [] {
      assert Members(ks) == {};
    } else {
      MembersAtMost(ks[..|ks| - 1]);
      assert Members(ks) == Members(ks[..|ks| - 1]) + {ks[|ks| - 1]};
    }
  }

  /** Over a list without repetitions the count is the number of those that hold the entry. */
  lemma {:induction false} CountIsSize(m: map<NodeId, nat>, ks: seq<NodeId>, idx: nat)
    requires |Members(ks)| == |ks|
    ensures CountAtLeast(m, ks, idx) == |AtLeast(m, ks, idx)|
  {
    if ks == [] {
      assert AtLeast(m, ks, idx) == {};
    } else {
      NewMember(m, ks, idx);
      CountIsSize(m, ks[..|ks| - 1], idx);
    }
  }

  lemma NewMember(m: map<NodeId, nat>, ks: seq<NodeId>, idx: nat)
    requires |Members(ks)| == |ks| && ks != []
    ensures var front, last := ks[..|ks| - 1], ks[|ks| - 1];
            && |Members(front)| == |front|
            && |AtLeast(m, ks, idx)| == |AtLeast(m, front, idx)| + if Get(m, last) >= idx then 1 else 0
  {
    hide Get;
    var front, last := ks[..|ks| - 1], ks[|ks| - 1];
    MembersAtMost(front);
    assert Members(ks) == Members(front) + {last};
    if Get(m, last) >= idx {
      assert AtLeast(m, ks, idx) == AtLeast(m, front, idx) + {last};
    } else {
      assert AtLeast(m, ks, idx) == AtLeast(m, front, idx);
    }
  }

  lemma PeersListed(peers: seq<NodeId>, ids: set<NodeId>, n: NodeId)
    requires PeersAre(peers, ids, n) && n in ids
    ensures Members(peers) == ids - {n} && |Members(peers)| == |peers|
  {
    assert Members(peers) == ids - {n};
  }

  /** The count against the quorum is the majority. */
  lemma QuorumIsMajority(s: NodeState, ids: set<NodeId>, idx: nat)
    requires PeersAre(s.peers, ids, s.self) && s.self in ids && idx >= 1
    ensures Replicated(s, idx) >= Quorum(s) <==> exists q: set<NodeId> :: Holders(s, ids, idx, q)
  {
    hide CountAtLeast;
    PeersListed(s.peers, ids, s.self);
    CountIsSize(s.matchIndex, s.peers, idx);
    var w := AtLeast(s.matchIndex, s.peers, idx) + {s.self};
    assert s.self !in AtLeast(s.matchIndex, s.peers, idx);
    assert |w| == Replicated(s, idx);
    if Replicated(s, idx) >= Quorum(s) {
      assert Holders(s, ids, idx, w);
    }
    if q: set<NodeId> :| Holders(s, ids, idx, q) {
      assert q <= w;
      Subset(q, w);
    }
  }

  lemma CommittableExactly(s: NodeState, ids: set<NodeId>, idx: nat)
    requires PeersAre(s.peers, ids, s.self) && s.self in ids && 1 <= idx <= |s.log|
    ensures Committable(s, idx) <==> CanCommit(s, ids, idx)
  {
    hide Replicated, Quorum, PeersAre, Holders;
    QuorumIsMajority(s, ids, idx);
  }

  lemma AdvanceEffect(s: NodeState, ids: set<NodeId>)
    requires PeersAre(s.peers, ids, s.self) && s.self in ids && s.role == Leader
    requires s.commitIndex <= s.lastApplied == |s.applied|
    ensures CommitsAll(s, AdvanceCommit(s), ids)
  {
    hide Committable, PeersAre, CanCommit;
    forall idx | 1 <= idx <= |s.log| ensures Committable(s, idx) <==> CanCommit(s, ids, idx) {
      CommittableExactly(s, ids, idx);
    }
    NoneBeyond(s, ids);
    forall idx: nat ensures CanCommit(AdvanceCommit(s), ids, idx) == CanCommit(s, ids, idx) {
      SameCommittable(s, AdvanceCommit(s), ids, idx);
    }
  }

  lemma NoneBeyond(s: NodeState, ids: set<NodeId>)
    ensures forall idx: nat :: CanCommit(s, ids, idx) ==> 1 <= idx <= |s.log|
  {
  }

  /** In every reachable cluster: a leader that looks whether it can commit ends at the highest entry of its own term
      that it knows a majority to hold, or stays where it was, and applies what that covers. */
  lemma AdvanceCommitsExactly(c0: Cluster, steps: seq<Step>, n: NodeId)
    requires Initial(c0) && n in Exec(c0, steps).nodes && Exec(c0, steps).nodes[n].role == Leader
    ensures var c, c' := Exec(c0, steps), Exec(c0, steps + [Advance(n)]);
            n in c'.nodes && CommitsAll(c.nodes[n], c'.nodes[n], c0.nodes.Keys)
  {
    hide Exec, Apply, Initial, WellFormed, NodeOK, CommitsAll, AdvanceCommit, PeersAre;
    var c := Exec(c0, steps);
    ReachableWellFormed(c0, steps);
    GoodNode(c, n);
    AdvanceEffect(c.nodes[n], c.nodes.Keys);
    ApplyFrame(c, Advance(n));
    ExecAppend(c0, steps, [Advance(n)]);
    ExecTwo(c, Advance(n), Advance(n));
  }

  lemma GoodNode(c: Cluster, n: NodeId)
    requires WellFormed(c) && n in c.nodes
    ensures c.nodes[n].self == n && PeersAre(c.nodes[n].peers, c.nodes.Keys, n)
    ensures c.nodes[n].commitIndex <= c.nodes[n].lastApplied == |c.nodes[n].applied|
  {
    assert NodeOK(c.nodes[n]);
  }

  /** In every reachable cluster: a success reply of a term not above the leader's moves the sender's match index to
      the reported length and its next index behind it, and then everything that can be committed is. */
  lemma ReceiptCommitsExactly(c0: Cluster, steps: seq<Step>, p: Packet)
    requires Initial(c0) && p in Exec(c0, steps).net && p.rpc.AppendReply? && p.rpc.success
    requires p.to in Exec(c0, steps).nodes && Exec(c0, steps).nodes[p.to].role == Leader
    requires p.rpc.term <= Exec(c0, steps).nodes[p.to].currentTerm
    ensures var c, c' := Exec(c0, steps), Exec(c0, steps + [Deliver(p)]);
            && p.to in c'.nodes
            && CommitsAll(Counted(c.nodes[p.to], p.from, p.rpc.matchIndex), c'.nodes[p.to], c0.nodes.Keys)
  {
    hide Exec, Initial, WellFormed, CommitsAll;
    var c := Exec(c0, steps);
    ReachableWellFormed(c0, steps);
    CountReceipt(c, p);
    ExecAppend(c0, steps, [Deliver(p)]);
    ExecTwo(c, Deliver(p), Deliver(p));
  }

  /** The leader after it has noted that `f` holds `len` entries. */
  function Counted(s: NodeState, f: NodeId, len: nat): NodeState {
    s.(matchIndex := s.matchIndex[f := len], nextIndex := s.nextIndex[f := len + 1])
  }

  lemma CountReceipt(c: Cluster, p: Packet)
    requires WellFormed(c) && p in c.net && p.to in c.nodes && p.rpc.AppendReply? && p.rpc.success
    requires c.nodes[p.to].role == Leader && p.rpc.term <= c.nodes[p.to].currentTerm
    ensures var c', s := Apply(c, Deliver(p)), c.nodes[p.to];
            && CommitsAll(Counted(s, p.from, p.rpc.matchIndex), c'.nodes[p.to], c.nodes.Keys)
            && c'.nodes == c.nodes[p.to := c'.nodes[p.to]]
  {
    hide Apply, WellFormed, NodeOK, CommitsAll, AdvanceCommit, PeersAre;
    GoodNode(c, p.to);
    AdvanceEffect(Counted(c.nodes[p.to], p.from, p.rpc.matchIndex), c.nodes.Keys);
    ApplyFrame(c, Deliver(p));
  }

  // ---------------------------------------------------------------------
  // From a proposal to its commit

  /** The leader asks once more, the follower agrees, and the leader notes it. */
  function Confirm(c: Cluster, l: NodeId, f: NodeId): seq<Step>
    requires l in c.nodes && f in c.nodes
  {
    [Heartbeat(l), Deliver(Request(c.nodes[l], f)), Deliver(Receipt(c.nodes[l], f, |c.nodes[f].log|))]
  }

  lemma {:induction false} SpliceOfPrefix(f: Log, l: Log, at: nat)
    requires l <= f && at <= |l|
    ensures Splice(f, at, l[at..]) == f
    decreases |l| - at
  {
    if at < |l| {
      assert l[at..][1..] == l[at + 1..];
      SpliceOfPrefix(f, l, at + 1);
    }
  }

  /** A follower that holds the leader's log accepts any request and keeps its log. */
  lemma HolderAccepts(l: Log, f: Log, next: nat)
    requires l <= f && 1 <= next <= |l| + 1
    ensures Answer(l, f, next) == Appended(f)
  {
    SpliceOfPrefix(f, l, next - 1);
    if next == |l| + 1 {
      assert l[next - 1..] == [];
    }
  }

  /** Nothing has happened to the leader but that it noted a receipt of `f`, and perhaps committed. */
  ghost predicate Notes(c: Cluster, c': Cluster, l: NodeId, f: NodeId) {
    && l in c.nodes && c'.nodes.Keys == c.nodes.Keys
    && var s, s' := c.nodes[l], c'.nodes[l];
       && s'.self == s.self && s'.role == s.role && s'.currentTerm == s.currentTerm && s'.log == s.log
       && s'.commitIndex >= s.commitIndex && f in s'.matchIndex && s'.matchIndex[f] >= |s.log|
       && (forall p :: p != f && p in s.matchIndex ==> p in s'.matchIndex && s'.matchIndex[p] == s.matchIndex[p])
       && NothingLeft(s', c.nodes.Keys) && AppliesUpTo(s, s')
       && forall n :: n in c.nodes && n != l && n != f ==> c'.nodes[n] == c.nodes[n]
  }

  /** The steps of a confirmation one by one. */
  lemma ConfirmSteps(c: Cluster, l: NodeId, f: NodeId) returns (c2: Cluster)
    requires Leading(c, l, f) && c.nodes[l].log <= c.nodes[f].log
    ensures var note := Receipt(c.nodes[l], f, |c.nodes[f].log|);
            && Leading(c2, l, f) && c2.nodes[l] == c.nodes[l].(nextIndex := c2.nodes[l].nextIndex)
            && c2.nodes[f].log == c.nodes[f].log && CommitsWith(c.nodes[f], c2.nodes[f], c.nodes[l].commitIndex)
            && note in c2.net && note.to == l && note.from == f
            && AllEnabled(c, Confirm(c, l, f)) && Exec(c, Confirm(c, l, f)) == Apply(c2, Deliver(note))
  {
    hide Apply, Exec, WellFormed, Answer, AllEnabled, CommitsWith, Request;
    var s := c.nodes[l];
    var ask, note := Deliver(Request(s, f)), Deliver(Receipt(s, f, |c.nodes[f].log|));
    Ask(c, l, f);
    assert s.self == l by { LeaderIsSelf(c, l, f); }
    HolderAccepts(s.log, c.nodes[f].log, NextFor(s, f));
    var c1 := Apply(c, Heartbeat(l));
    Reply(c1, s, l, f);
    assert ask.packet.to == f by { RequestIsFor(s, f); }
    EnabledTwo(c, Heartbeat(l), ask);
    c2 := Apply(c1, ask);
    EnabledOne(c2, note);
    EnabledAppend(c, [Heartbeat(l), ask], [note]);
    ExecAppend(c, [Heartbeat(l), ask], [note]);
    assert [Heartbeat(l), ask] + [note] == Confirm(c, l, f);
  }

  lemma RequestIsFor(s: NodeState, f: NodeId)
    ensures Request(s, f).to == f && Request(s, f).from == s.self
  {
  }

  lemma ConfirmRuns(c: Cluster, l: NodeId, f: NodeId)
    requires Leading(c, l, f) && c.nodes[l].log <= c.nodes[f].log
    ensures var c' := Exec(c, Confirm(c, l, f));
            && AllEnabled(c, Confirm(c, l, f)) && Leading(c', l, f) && Notes(c, c', l, f)
            && c'.nodes[f].log == c.nodes[f].log && CommitsWith(c.nodes[f], c'.nodes[f], c.nodes[l].commitIndex)
  {
    hide Apply, Exec, WellFormed, AllEnabled, CommitsWith, Notes, CommitsAll;
    var c2 := ConfirmSteps(c, l, f);
    var note := Receipt(c.nodes[l], f, |c.nodes[f].log|);
    CountReceipt(c2, note);
    ApplyWellFormed(c2, Deliver(note));
    OnlyRecipients(c, Confirm(c, l, f), {l, f});
    StillLeads(Counted(c2.nodes[l], f, |c.nodes[f].log|), Apply(c2, Deliver(note)).nodes[l], c2.nodes.Keys);
    assert c2.nodes.Keys == Apply(c2, Deliver(note)).nodes.Keys;
    AfterNote(c, c2, Apply(c2, Deliver(note)), l, f);
  }

  lemma StillLeads(s: NodeState, s': NodeState, ids: set<NodeId>)
    requires CommitsAll(s, s', ids)
    ensures s'.role == s.role && s'.currentTerm == s.currentTerm && s'.log == s.log
  {
  }

  /** What can be committed does not depend on what is. */
  lemma SameCommittable(s: NodeState, s': NodeState, ids: set<NodeId>, idx: nat)
    requires s'.self == s.self && s'.log == s.log && s'.currentTerm == s.currentTerm && s'.matchIndex == s.matchIndex
    ensures CanCommit(s', ids, idx) == CanCommit(s, ids, idx)
  {
    assert forall q: set<NodeId> :: Holders(s', ids, idx, q) == Holders(s, ids, idx, q);
  }

  lemma AfterNote(c: Cluster, c2: Cluster, c3: Cluster, l: NodeId, f: NodeId)
    requires l in c.nodes && f in c.nodes && c3.nodes.Keys == c.nodes.Keys == c2.nodes.Keys
    requires c2.nodes[l] == c.nodes[l].(nextIndex := c2.nodes[l].nextIndex) && c.nodes[l].log <= c.nodes[f].log
    requires CommitsAll(Counted(c2.nodes[l], f, |c.nodes[f].log|), c3.nodes[l], c.nodes.Keys)
    requires forall n :: n in c.nodes && n != l && n != f ==> c3.nodes[n] == c.nodes[n]
    ensures Notes(c, c3, l, f)
  {
    hide NothingLeft;
    var s1, s' := Counted(c2.nodes[l], f, |c.nodes[f].log|), c3.nodes[l];
    assert s1.applied == c.nodes[l].applied && AppliesUpTo(s1, s');
  }

  /** Exchange until the follower holds the leader's log, then once more so that the leader notes it. */
  lemma BringAlong(c: Cluster, l: NodeId, f: NodeId) returns (steps: seq<Step>)
    requires Leading(c, l, f) && Coherent(c.nodes[l].log, c.nodes[f].log)
    ensures var c' := Exec(c, steps);
            && AllEnabled(c, steps) && Leading(c', l, f) && Notes(c, c', l, f)
            && c.nodes[l].log <= c'.nodes[f].log && Catches(c.nodes[l], c.nodes[f], c'.nodes[f])
  {
    hide Apply, Exec, WellFormed, Coherent, AllEnabled, CommitsWith, Notes, Catches;
    var n := Converge(c, l, f);
    var c1 := Exec(c, Rounds(c, l, f, n));
    ConfirmRuns(c1, l, f);
    var c2 := Exec(c1, Confirm(c1, l, f));
    steps := Rounds(c, l, f, n) + Confirm(c1, l, f);
    ExecAppend(c, Rounds(c, l, f, n), Confirm(c1, l, f));
    EnabledAppend(c, Rounds(c, l, f, n), Confirm(c1, l, f));
    NotesToo(c, c1, c2, l, f);
    StillCatches(c.nodes[l], c.nodes[f], c1.nodes[f], c2.nodes[f]);
  }

  lemma NotesToo(c: Cluster, c1: Cluster, c2: Cluster, l: NodeId, f: NodeId)
    requires Notes(c1, c2, l, f) && l in c.nodes && OthersSame(c, c1, l, f)
    requires c1.nodes[l] == c.nodes[l].(nextIndex := c1.nodes[l].nextIndex)
    ensures Notes(c, c2, l, f)
  {
    hide NothingLeft;
    assert c1.nodes[l].applied == c.nodes[l].applied;
  }

  lemma StillCatches(s: NodeState, t: NodeState, t1: NodeState, t2: NodeState)
    requires Catches(s, t, t1) && CommitsWith(t1, t2, s.commitIndex) && s.log <= t1.log && t2.log == t1.log
    ensures Catches(s, t, t2)
  {
    forall k | |t.applied| <= k < |t2.applied| && k < |s.log| ensures t2.applied[k] == s.log[k].command {
      if k < |t1.applied| {
        assert t2.applied[k] == t1.applied[k];
      }
    }
  }

  // ---------------------------------------------------------------------
  // A majority

  /** The leader of `c` has asked every node of `fs` to the end. */
  ghost predicate Passed(c: Cluster, c': Cluster, l: NodeId, fs: seq<NodeId>) {
    && l in c.nodes && c'.nodes.Keys == c.nodes.Keys && WellFormed(c')
    && KeepsLeading(c.nodes[l], c'.nodes[l], fs) && NothingLeft(c'.nodes[l], c.nodes.Keys)
    && (forall n :: n in c.nodes && n != l && n !in fs ==> c'.nodes[n] == c.nodes[n])
    && (forall f :: f in fs ==>
          && f in c.nodes && Leading(c', l, f) && c.nodes[l].log <= c'.nodes[f].log
          && Catches(c.nodes[l], c.nodes[f], c'.nodes[f]))
  }

  ghost predicate KeepsLeading(s: NodeState, s': NodeState, fs: seq<NodeId>) {
    && s'.self == s.self && s'.role == s.role && s'.currentTerm == s.currentTerm && s'.log == s.log
    && s'.commitIndex >= s.commitIndex && AppliesOn(s, s')
    && forall f :: f in fs ==> f in s'.matchIndex && s'.matchIndex[f] >= |s.log|
  }

  /** What is applied since comes from the log, which is the same. */
  ghost predicate AppliesOn(s: NodeState, s': NodeState) {
    && s.applied <= s'.applied && |s'.applied| >= s'.commitIndex
    && forall k :: |s.applied| <= k < |s'.applied| ==> AppliedAt(s'.applied, s.log, k)
  }

  lemma {:induction false} Pass(c: Cluster, l: NodeId, fs: seq<NodeId>) returns (steps: seq<Step>)
    requires WellFormed(c) && l in c.nodes && c.nodes[l].role == Leader && NothingLeft(c.nodes[l], c.nodes.Keys)
    requires Distinct(fs)
    requires forall f :: f in fs ==> Leading(c, l, f) && Coherent(c.nodes[l].log, c.nodes[f].log)
    ensures AllEnabled(c, steps) && Passed(c, Exec(c, steps), l, fs)
    decreases |fs|
  {
    hide Apply, Exec, WellFormed, Coherent, AllEnabled, NothingLeft, Passed;
    if fs == [] {
      steps := [];
      PassedNobody(c, l);
    } else {
      var front, f := fs[..|fs| - 1], fs[|fs| - 1];
      var before := Pass(c, l, front);
      var c1 := Exec(c, before);
      assert f in fs && f !in front && l !in front;
      StillToAsk(c, c1, l, front, f);
      var more := BringAlong(c1, l, f);
      ExecAppend(c, before, more);
      EnabledAppend(c, before, more);
      steps := before + more;
      PassedOneMore(c, c1, Exec(c1, more), l, front, f);
      assert front + [f] == fs;
    }
  }

  lemma PassedNobody(c: Cluster, l: NodeId)
    requires WellFormed(c) && l in c.nodes && NothingLeft(c.nodes[l], c.nodes.Keys)
    ensures AllEnabled(c, []) && Exec(c, []) == c && Passed(c, c, l, [])
  {
    hide NothingLeft;
    GoodNode(c, l);
  }

  lemma StillToAsk(c: Cluster, c1: Cluster, l: NodeId, front: seq<NodeId>, f: NodeId)
    requires Passed(c, c1, l, front) && f !in front && Leading(c, l, f)
    ensures Leading(c1, l, f) && c1.nodes[f] == c.nodes[f] && c1.nodes[l].log == c.nodes[l].log
  {
    hide WellFormed, NothingLeft, Catches;
  }

  lemma LeadsOn(s: NodeState, s1: NodeState, s2: NodeState, front: seq<NodeId>, f: NodeId)
    requires KeepsLeading(s, s1, front) && AppliesUpTo(s1, s2) && s2.commitIndex >= s1.commitIndex
    requires s2.self == s1.self && s2.role == s1.role && s2.currentTerm == s1.currentTerm && s2.log == s1.log
    requires f in s2.matchIndex && s2.matchIndex[f] >= |s.log|
    requires forall p :: p != f && p in s1.matchIndex ==> p in s2.matchIndex && s2.matchIndex[p] == s1.matchIndex[p]
    ensures KeepsLeading(s, s2, front + [f])
  {
    assert AppliesOn(s, s2) by { AppliesOnward(s, s1, s2); }
  }

  lemma AppliesOnward(s: NodeState, s1: NodeState, s2: NodeState)
    requires AppliesOn(s, s1) && AppliesUpTo(s1, s2) && s.log == s2.log
    ensures AppliesOn(s, s2)
  {
    forall k | |s.applied| <= k < |s2.applied| ensures AppliedAt(s2.applied, s.log, k) {
      if k < |s1.applied| {
        assert AppliedAt(s1.applied, s.log, k) && s2.applied[k] == s1.applied[k];
      }
    }
  }

  lemma CatchesMore(s: NodeState, s1: NodeState, t: NodeState, t': NodeState)
    requires Catches(s1, t, t') && s1.log == s.log && s1.commitIndex >= s.commitIndex
    ensures Catches(s, t, t')
  {
  }

  lemma PassedOneMore(c: Cluster, c1: Cluster, c2: Cluster, l: NodeId, front: seq<NodeId>, f: NodeId)
    requires Passed(c, c1, l, front) && f !in front && f != l && f in c.nodes && l !in front
    requires Notes(c1, c2, l, f) && Leading(c2, l, f) && c1.nodes[l].log <= c2.nodes[f].log
    requires c1.nodes[f] == c.nodes[f] && Catches(c1.nodes[l], c1.nodes[f], c2.nodes[f])
    ensures Passed(c, c2, l, front + [f])
  {
    hide WellFormed, NothingLeft, KeepsLeading, Catches, AppliesUpTo, Leading;
    assert KeepsLeading(c.nodes[l], c2.nodes[l], front + [f]) by {
      LogKept(c.nodes[l], c1.nodes[l], front);
      LeadsOn(c.nodes[l], c1.nodes[l], c2.nodes[l], front, f);
    }
    LogKept(c.nodes[l], c1.nodes[l], front);
    WellFormedLed(c2, l, f);
    CatchesMore(c.nodes[l], c1.nodes[l], c.nodes[f], c2.nodes[f]);
    forall g | g in front + [f]
      ensures g in c.nodes && Leading(c2, l, g) && c.nodes[l].log <= c2.nodes[g].log
              && Catches(c.nodes[l], c.nodes[g], c2.nodes[g])
    {
      if g != f {
        assert c2.nodes[g] == c1.nodes[g];
        LeadsStill(c1, c2, l, g);
      }
    }
  }

  lemma LeadsStill(c1: Cluster, c2: Cluster, l: NodeId, g: NodeId)
    requires Leading(c1, l, g) && c2.nodes.Keys == c1.nodes.Keys && c2.nodes[g] == c1.nodes[g] && WellFormed(c2)
    requires c2.nodes[l].role == c1.nodes[l].role && c2.nodes[l].currentTerm == c1.nodes[l].currentTerm
    ensures Leading(c2, l, g)
  {
    hide WellFormed;
  }

  lemma WellFormedLed(c: Cluster, l: NodeId, f: NodeId)
    requires Leading(c, l, f)
    ensures WellFormed(c)
  {
  }

  // ---------------------------------------------------------------------
  // Proposals reach the state machines

  /** Committed and applied to the end of `log`; what was applied since `t` are its commands. */
  ghost predicate HasApplied(t: NodeState, t': NodeState, log: Log) {
    && log <= t'.log && t'.commitIndex >= |log| && t.applied <= t'.applied && |t'.applied| >= |log|
    && forall k :: |t.applied| <= k < |log| ==> t'.applied[k] == log[k].command
  }

  /** If with the leader a majority has been asked, its last entry, if of its own term, is committed. */
  lemma MajorityCommits(c: Cluster, c': Cluster, l: NodeId, fs: seq<NodeId>)
    requires Passed(c, c', l, fs) && c.nodes[l].self == l
    requires forall f :: f in fs ==> f in c.nodes
    requires 2 * |Members(fs) + {l}| > |c.nodes.Keys|
    requires c.nodes[l].log != [] && c.nodes[l].log[|c.nodes[l].log| - 1].term == c.nodes[l].currentTerm
    ensures c'.nodes[l].commitIndex >= |c.nodes[l].log|
  {
    hide WellFormed, Catches, AppliesOn, CanCommit, Leading;
    AllHold(c'.nodes[l], c.nodes.Keys, fs);
  }

  lemma AllHold(s: NodeState, ids: set<NodeId>, fs: seq<NodeId>)
    requires s.self in ids && (forall f :: f in fs ==> f in ids && f in s.matchIndex && s.matchIndex[f] >= |s.log|)
    requires 2 * |Members(fs) + {s.self}| > |ids| && s.log != [] && s.log[|s.log| - 1].term == s.currentTerm
    ensures CanCommit(s, ids, |s.log|)
  {
    assert Holders(s, ids, |s.log|, Members(fs) + {s.self});
  }

  /** Two passes: the first commits at the leader, the second tells the followers. */
  lemma TwoPasses(c: Cluster, l: NodeId, fs: seq<NodeId>) returns (steps: seq<Step>)
    requires WellFormed(c) && l in c.nodes && c.nodes[l].role == Leader && NothingLeft(c.nodes[l], c.nodes.Keys)
    requires Distinct(fs) && 2 * |Members(fs) + {l}| > |c.nodes.Keys|
    requires forall f :: f in fs ==> Leading(c, l, f) && Coherent(c.nodes[l].log, c.nodes[f].log)
    requires c.nodes[l].log != [] && c.nodes[l].log[|c.nodes[l].log| - 1].term == c.nodes[l].currentTerm
    ensures AllEnabled(c, steps) && Exec(c, steps).nodes.Keys == c.nodes.Keys
    ensures var c', log := Exec(c, steps), c.nodes[l].log;
            && c'.nodes[l].log == log && HasApplied(c.nodes[l], c'.nodes[l], log)
            && forall f :: f in fs ==> f in c.nodes && HasApplied(c.nodes[f], c'.nodes[f], log)
  {
    hide Apply, Exec, WellFormed, Coherent, AllEnabled, NothingLeft, Catches, KeepsLeading, HasApplied;
    GoodNode(c, l);
    var first := Pass(c, l, fs);
    var c1 := Exec(c, first);
    MajorityCommits(c, c1, l, fs);
    LogKept(c.nodes[l], c1.nodes[l], fs);
    forall f | f in fs ensures Leading(c1, l, f) && Coherent(c1.nodes[l].log, c1.nodes[f].log) {
      PrefixCoherent(c1.nodes[l].log, c1.nodes[f].log);
    }
    StillLeader(c.nodes[l], c1.nodes[l], fs);
    var second := Pass(c1, l, fs);
    var c2 := Exec(c1, second);
    ExecAppend(c, first, second);
    EnabledAppend(c, first, second);
    steps := first + second;
    LogKept(c1.nodes[l], c2.nodes[l], fs);
    LeaderHasApplied(c.nodes[l], c1.nodes[l], c2.nodes[l], fs);
    forall f | f in fs ensures f in c.nodes && HasApplied(c.nodes[f], c2.nodes[f], c.nodes[l].log) {
      FollowerHasApplied(c.nodes[l], c1.nodes[l], c.nodes[f], c1.nodes[f], c2.nodes[f]);
    }
  }

  lemma PrefixCoherent(l: Log, f: Log)
    requires l <= f
    ensures Coherent(l, f)
  {
  }

  lemma StillLeader(s: NodeState, s': NodeState, fs: seq<NodeId>)
    requires KeepsLeading(s, s', fs)
    ensures s'.role == s.role
  {
  }

  lemma LeaderHasApplied(s: NodeState, s1: NodeState, s2: NodeState, fs: seq<NodeId>)
    requires KeepsLeading(s, s1, fs) && KeepsLeading(s1, s2, fs) && s1.commitIndex >= |s.log|
    ensures HasApplied(s, s2, s.log)
  {
    forall k | |s.applied| <= k < |s.log| ensures s2.applied[k] == s.log[k].command {
      if k < |s1.applied| {
        assert AppliedAt(s1.applied, s.log, k) && s2.applied[k] == s1.applied[k];
      }
    }
  }

  lemma FollowerHasApplied(s: NodeState, s1: NodeState, t: NodeState, t1: NodeState, t2: NodeState)
    requires Catches(s, t, t1) && Catches(s1, t1, t2) && s1.log == s.log && s1.commitIndex >= |s.log|
    requires s.log <= t2.log
    ensures HasApplied(t, t2, s.log)
  {
    forall k | |t.applied| <= k < |s.log| ensures t2.applied[k] == s.log[k].command {
      if k < |t1.applied| {
        assert t2.applied[k] == t1.applied[k];
      }
    }
  }

  lemma ProposeStep(c: Cluster, l: NodeId, cmd: Command)
    requires WellFormed(c) && l in c.nodes && c.nodes[l].role == Leader
    ensures var c', s := Apply(c, Propose(l, cmd)), c.nodes[l];
            && Enabled(c, Propose(l, cmd)) && c'.events == c.events
            && c'.nodes == c.nodes[l := s.(log := s.log + [LogEntry(s.currentTerm, |s.log| + 1, cmd)])]
  {
    hide WellFormed;
  }

  lemma AdvanceStep(c: Cluster, l: NodeId)
    requires WellFormed(c) && l in c.nodes && c.nodes[l].role == Leader
    ensures var c' := Apply(c, Advance(l));
            && Enabled(c, Advance(l)) && c'.nodes == c.nodes[l := c'.nodes[l]]
            && CommitsAll(c.nodes[l], c'.nodes[l], c.nodes.Keys)
  {
    hide Apply, WellFormed, NodeOK, CommitsAll, AdvanceCommit, PeersAre;
    GoodNode(c, l);
    AdvanceEffect(c.nodes[l], c.nodes.Keys);
    ApplyFrame(c, Advance(l));
  }

  /** From every reachable cluster in which no term has had two leaders: whatever a leader proposes, if with it a
      majority is not ahead of its term, message exchange brings it and all of them to commit and apply its log up to
      and with the proposal. */
  lemma ProposalIsApplied(c0: Cluster, steps: seq<Step>, l: NodeId, cmd: Command, fs: seq<NodeId>)
    returns (more: seq<Step>)
    requires Initial(c0) && AtMostOneLeader(c0, steps)
    requires l in Exec(c0, steps).nodes && Exec(c0, steps).nodes[l].role == Leader
    requires Distinct(fs) && 2 * |Members(fs) + {l}| > |c0.nodes.Keys|
    requires forall f :: f in fs ==> Leading(Exec(c0, steps), l, f)
    ensures AllEnabled(Exec(c0, steps), [Propose(l, cmd)] + more)
    ensures var c, c' := Exec(c0, steps), Exec(c0, steps + ([Propose(l, cmd)] + more));
            var log := c.nodes[l].log + [LogEntry(c.nodes[l].currentTerm, |c.nodes[l].log| + 1, cmd)];
            && l in c'.nodes && c'.nodes[l].log == log && HasApplied(c.nodes[l], c'.nodes[l], log)
            && forall f :: f in fs ==> f in c.nodes && f in c'.nodes && HasApplied(c.nodes[f], c'.nodes[f], log)
  {
    hide Apply, Exec, Initial, AtMostOneLeader, WellFormed, Coherent, AllEnabled, NothingLeft, HasApplied, CommitsAll;
    var c, ask := Exec(c0, steps), Propose(l, cmd);
    ReachableWellFormed(c0, steps);
    ProposeStep(c, l, cmd);
    EnabledTwo(c, ask, Advance(l));
    var c1, c2 := Apply(c, ask), Apply(Apply(c, ask), Advance(l));
    ExecAppend(c0, steps, [ask]);
    ExecTwo(c, ask, Advance(l));
    ReachableWellFormed(c0, steps + [ask]);
    AdvanceStep(c1, l);
    ApplyWellFormed(c1, Advance(l));
    Advanced(c1.nodes[l], c2.nodes[l], c1.nodes.Keys);
    forall f | f in fs ensures Leading(c2, l, f) && Coherent(c2.nodes[l].log, c2.nodes[f].log) {
      CoherentAfter(c0, steps, l, cmd, f);
    }
    var rest := TwoPasses(c2, l, fs);
    more := [Advance(l)] + rest;
    assert [ask] + more == [ask, Advance(l)] + rest;
    EnabledAppend(c, [ask, Advance(l)], rest);
    ExecAppend(c, [ask, Advance(l)], rest);
    ExecAppend(c0, steps, [ask] + more);
    FromBefore(c.nodes[l], c1.nodes[l], c2.nodes[l], Exec(c2, rest).nodes[l], c1.nodes.Keys);
  }

  lemma Advanced(s: NodeState, s': NodeState, ids: set<NodeId>)
    requires CommitsAll(s, s', ids)
    ensures s'.role == s.role && s'.log == s.log && s'.currentTerm == s.currentTerm && NothingLeft(s', ids)
  {
  }

  lemma FromBefore(s: NodeState, s1: NodeState, s2: NodeState, s3: NodeState, ids: set<NodeId>)
    requires s1.applied == s.applied && CommitsAll(s1, s2, ids) && HasApplied(s2, s3, s2.log) && s2.log == s1.log
    ensures HasApplied(s, s3, s1.log)
  {
    forall k | |s.applied| <= k < |s1.log| ensures s3.applied[k] == s1.log[k].command {
      if k < |s2.applied| {
        assert AppliedAt(s2.applied, s2.log, k) && s3.applied[k] == s2.applied[k];
      }
    }
  }

  lemma CoherentAfter(c0: Cluster, steps: seq<Step>, l: NodeId, cmd: Command, f: NodeId)
    requires Initial(c0) && AtMostOneLeader(c0, steps) && Leading(Exec(c0, steps), l, f)
    ensures var c1 := Apply(Exec(c0, steps), Propose(l, cmd));
            l in c1.nodes && f in c1.nodes && Coherent(c1.nodes[l].log, c1.nodes[f].log)
  {
    hide Apply, Exec, Initial, AtMostOneLeader, WellFormed, Coherent, LeadersOK, UniqueLeaders;
    NoSplitNoDuplicate(c0, steps);
    ProposeStep(Exec(c0, steps), l, cmd);
    ExecAppend(c0, steps, [Propose(l, cmd)]);
    ExecTwo(Exec(c0, steps), Propose(l, cmd), Propose(l, cmd));
    ReachableMatch(c0, steps + [Propose(l, cmd)]);
    var c1 := Exec(c0, steps + [Propose(l, cmd)]);
    RecordedCoherent(c1.proposed, c1.nodes[l].log, c1.nodes[f].log);
  }

  // ---------------------------------------------------------------------
  // Higher terms

  /** A delivery leaves no node in a term below the message's; a node that was below it follows in it. */
  lemma NobodyLeadsBelow(c0: Cluster, steps: seq<Step>, p: Packet)
    requires Initial(c0) && p in Exec(c0, steps).net && p.to in Exec(c0, steps).nodes
    ensures var c, c' := Exec(c0, steps), Exec(c0, steps + [Deliver(p)]);
            && p.to in c'.nodes && c'.nodes[p.to].currentTerm == Max(c.nodes[p.to].currentTerm, p.rpc.term)
            && (p.rpc.term > c.nodes[p.to].currentTerm ==> c'.nodes[p.to].role == Follower)
  {
    hide Exec, Apply, StepEffect, Initial;
    var c := Exec(c0, steps);
    HigherTerm(c.nodes[p.to], p);
    ApplyFrame(c, Deliver(p));
    ExecAppend(c0, steps, [Deliver(p)]);
    ExecTwo(c, Deliver(p), Deliver(p));
  }

  lemma HigherTerm(s: NodeState, p: Packet)
    ensures var s' := StepEffect(s, Deliver(p)).state;
            && s'.currentTerm == Max(s.currentTerm, p.rpc.term)
            && (p.rpc.term > s.currentTerm ==> s'.role == Follower)
  {
    hide CommitUpTo, AdvanceCommit, AppendFromLeader, NextAfterConflict, SetAll, UpToDate;
  }

  /** A leader whose request reaches a node of a higher term gets that term in the answer and steps down on it. */
  lemma StaleLeaderStepsDown(c0: Cluster, steps: seq<Step>, l: NodeId, p: Packet) returns (answer: Packet)
    requires Initial(c0) && p in Exec(c0, steps).net && p.rpc.AppendEntries? && p.from == l
    requires l in Exec(c0, steps).nodes && p.to in Exec(c0, steps).nodes
    requires Exec(c0, steps).nodes[p.to].currentTerm > Exec(c0, steps).nodes[l].currentTerm >= p.rpc.term
    ensures AllEnabled(Exec(c0, steps), [Deliver(p), Deliver(answer)])
    ensures var c, c' := Exec(c0, steps), Exec(c0, steps + [Deliver(p), Deliver(answer)]);
            && l in c'.nodes && c'.nodes[l].role == Follower
            && c'.nodes[l].currentTerm == c.nodes[p.to].currentTerm
            && p.to in c'.nodes && c'.nodes[p.to] == c.nodes[p.to]
  {
    hide Exec, Apply, StepEffect, Initial, WellFormed, AllEnabled;
    var c := Exec(c0, steps);
    ReachableWellFormed(c0, steps);
    LeaderAddressed(c, p);
    answer := Packet(p.to, l, AppendReply(c.nodes[p.to].currentTerm, false, 0, 0, 0));
    StaleRequest(c.nodes[p.to], p);
    ApplyFrame(c, Deliver(p));
    var c1 := Apply(c, Deliver(p));
    HigherTerm(c1.nodes[l], answer);
    ApplyFrame(c1, Deliver(answer));
    EnabledTwo(c, Deliver(p), Deliver(answer));
    ExecAppend(c0, steps, [Deliver(p), Deliver(answer)]);
  }

  lemma LeaderAddressed(c: Cluster, p: Packet)
    requires WellFormed(c) && p in c.net && p.rpc.AppendEntries? && p.to in c.nodes
    ensures p.rpc.leaderId == p.from != p.to && c.nodes[p.to].self == p.to
  {
    assert PacketOK(c, p);
  }

  lemma StaleRequest(s: NodeState, p: Packet)
    requires p.rpc.AppendEntries? && p.rpc.term < s.currentTerm
    ensures var e := StepEffect(s, Deliver(p));
            e.state == s && e.sent == [Packet(s.self, p.rpc.leaderId, AppendReply(s.currentTerm, false, 0, 0, 0))]
  {
  }

  lemma LogKept(s: NodeState, s': NodeState, fs: seq<NodeId>)
    requires KeepsLeading(s, s', fs)
    ensures s'.log == s.log && s'.commitIndex >= s.commitIndex
  {
  }
}
