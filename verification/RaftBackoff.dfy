/**
 The leader's search for the point where a follower's log departs from its own.
 A rejected AppendEntries carries a conflict hint, and the leader moves its next index
 for that follower by it. In every run without two leaders in a term each rejection
 lowers the next index, so the exchange ends with the leader's whole log in the
 follower's log.
 */
module RaftBackoff {
  import opened RaftTypes
  import opened RaftCluster
  import opened RaftElection
  import opened RaftLogMatching

  /** What a follower with log `f` answers to the request the leader with log `l` sends at `next`. */
  function Answer(l: Log, f: Log, next: nat): AppendResult {
    var rpc := EntriesFrom(0, NOBODY, l, 0, next);
    AppendFromLeader(f, rpc.prevIndex, rpc.prevTerm, rpc.entries)
  }

  /** Whether the leader's log has an entry of the follower's conflicting term at or behind the point of conflict. */
  predicate HintOvershoots(l: Log, f: Log, next: nat)
    requires 2 <= next <= |l| + 1
  {
    next - 1 <= |f| && exists i :: next - 1 <= i < |l| && l[i].term == f[next - 2].term
  }

  /** A rejection lowers the next index if and only if the hint does not overshoot. */
  lemma RejectionLowersExactly(l: Log, f: Log, next: nat, term: nat)
    requires LogOK(l, term) && LogOK(f, term) && 1 <= next <= |l| + 1
    requires Answer(l, f, next).Conflict?
    ensures next >= 2
    ensures var a := Answer(l, f, next);
            NextAfterConflict(l, a.index, a.term) < next <==> !HintOvershoots(l, f, next)
  {
    hide FirstOfTerm, LastWithTerm, Splice;
    var a := Answer(l, f, next);
    if next - 1 <= |f| {
      var last := LastWithTerm(l, a.term);
      if last >= next {
        assert l[last - 1].term == a.term;
      }
    }
  }

  /** The two logs agree wherever they hold the same index and term, and a term the follower
      holds at some index is not first reached by the leader at a later one. */
  ghost predicate Coherent(l: Log, f: Log) {
    && (forall i :: 0 <= i < |l| && i < |f| && l[i].term == f[i].term ==> l[..i + 1] == f[..i + 1])
    && (forall p, i :: 0 <= p < |f| && p <= i < |l| && f[p].term == l[i].term ==> l[p].term == f[p].term)
  }

  /** In every run without two leaders in a term any two logs are coherent. */
  lemma CoherentInRun(c0: Cluster, steps: seq<Step>, a: NodeId, b: NodeId)
    requires Initial(c0) && AtMostOneLeader(c0, steps)
    requires a in Exec(c0, steps).nodes && b in Exec(c0, steps).nodes
    ensures Coherent(Exec(c0, steps).nodes[a].log, Exec(c0, steps).nodes[b].log)
  {
    hide Apply, Initial, Exec, AtMostOneLeader, LeadersOK;
    NoSplitNoDuplicate(c0, steps);
    ReachableMatch(c0, steps);
    var c := Exec(c0, steps);
    RecordedCoherent(c.proposed, c.nodes[a].log, c.nodes[b].log);
  }

  lemma RecordedCoherent(pr: Proposals, l: Log, f: Log)
    requires Nested(pr) && Recorded(pr, l) && Recorded(pr, f)
    ensures Coherent(l, f)
  {
    forall p, i | 0 <= p < |f| && p <= i < |l| && f[p].term == l[i].term ensures l[p].term == f[p].term {
      assert pr[(p + 1, f[p].term)] == f[..p + 1];
      assert pr[(i + 1, f[p].term)] == l[..i + 1];
      assert f[..p + 1] == l[..i + 1][..p + 1];
      assert f[..p + 1][p] == l[..i + 1][p];
    }
  }

  /** Once the consistency check passes, the leader's whole log is in the follower's. */
  lemma AcceptedHoldsAll(l: Log, f: Log, next: nat)
    requires Coherent(l, f) && 1 <= next <= |l| + 1
    requires Answer(l, f, next).Appended?
    ensures l <= Answer(l, f, next).log
  {
    var rpc := EntriesFrom(0, NOBODY, l, 0, next);
    if next > 1 {
      assert l[next - 2].term == f[next - 2].term;
      assert l[..next - 1] == f[..next - 1];
    }
    assert l[..next - 1] + rpc.entries == l;
    SpliceCovers(l, f, next - 1);
  }

  lemma {:induction false} SpliceCovers(l: Log, f: Log, at: nat)
    requires Coherent(l, f) && at <= |l| && at <= |f| && l[..at] == f[..at]
    ensures l <= Splice(f, at, l[at..])
    decreases |l| - at
  {
    if at < |l| && at < |f| && f[at].term == l[at].term {
      assert l[at..][1..] == l[at + 1..];
      SpliceCovers(l, f, at + 1);
    } else if at == |l| {
      assert l == l[..at];
    } else {
      assert l[..at] + l[at..] == l;
    }
  }

  // ---------------------------------------------------------------------
  // What an accepted request commits

  function Min(a: nat, b: nat): nat {
    if a < b then a else b
  }

  function Max(a: nat, b: nat): nat {
    if a < b then b else a
  }

  /** From `t` to `t'` everything up to the commit index has been applied, from the log as it is then. */
  ghost predicate AppliesUpTo(t: NodeState, t': NodeState) {
    && t.applied <= t'.applied && |t'.applied| == Max(|t.applied|, t'.commitIndex)
    && forall k :: |t.applied| <= k < |t'.applied| ==> AppliedAt(t'.applied, t'.log, k)
  }

  predicate AppliedAt(applied: seq<Command>, log: Log, k: nat) {
    k < |applied| && k < |log| && applied[k] == log[k].command
  }

  /** The commit index follows the leader's as far as the log reaches, and what it covers is applied. */
  ghost predicate CommitsWith(t: NodeState, t': NodeState, leaderCommit: nat) {
    && t'.commitIndex == (if leaderCommit > t.commitIndex then Min(leaderCommit, |t'.log|) else t.commitIndex)
    && AppliesUpTo(t, t')
  }

  /** The consistency check of a request. */
  predicate Fits(log: Log, rpc: RPC)
    requires rpc.AppendEntries?
  {
    rpc.prevIndex <= |log| && (rpc.prevIndex > 0 ==> log[rpc.prevIndex - 1].term == rpc.prevTerm)
  }

  lemma RequestEffect(t: NodeState, p: Packet)
    requires NodeOK(t) && p.rpc.AppendEntries? && p.rpc.term >= t.currentTerm
    ensures var e := StepEffect(t, Deliver(p));
            if Fits(t.log, p.rpc)
            then CommitsWith(t, e.state, p.rpc.leaderCommit)
                 && e.state.log == Splice(t.log, p.rpc.prevIndex, p.rpc.entries)
                 && e.sent == [Packet(t.self, p.rpc.leaderId, AppendReply(p.rpc.term, true, |e.state.log|, 0, 0))]
            else e.state.log == t.log && e.state.commitIndex == t.commitIndex && e.state.applied == t.applied
  {
    hide FirstOfTerm, Splice, LogOK;
  }

  /** Some entry of the request has another term than the log has in its place. */
  ghost predicate Disagrees(log: Log, at: nat, entries: Log) {
    exists i :: 0 <= i < |entries| && at + i < |log| && log[at + i].term != entries[i].term
  }

  /** How long the log is once the request is in it: a disagreement cuts it behind the request. */
  ghost function LengthAfter(log: Log, at: nat, entries: Log): nat {
    if Disagrees(log, at, entries) then at + |entries| else Max(|log|, at + |entries|)
  }

  lemma {:induction false} SpliceLength(log: Log, at: nat, entries: Log)
    requires at <= |log|
    ensures |Splice(log, at, entries)| == LengthAfter(log, at, entries)
    decreases |entries|
  {
    if entries != [] && at < |log| {
      if log[at].term != entries[0].term {
        assert log[at + 0].term != entries[0].term;
      } else {
        SpliceLength(log, at + 1, entries[1..]);
        DisagreesLater(log, at, entries);
      }
    }
  }

  lemma DisagreesLater(log: Log, at: nat, entries: Log)
    requires entries != [] && at < |log| && log[at].term == entries[0].term
    ensures Disagrees(log, at, entries) <==> Disagrees(log, at + 1, entries[1..])
  {
    if Disagrees(log, at, entries) {
      var i :| 0 <= i < |entries| && at + i < |log| && log[at + i].term != entries[i].term;
      assert entries[1..][i - 1] == entries[i] && log[at + 1 + (i - 1)] == log[at + i];
    }
    if Disagrees(log, at + 1, entries[1..]) {
      var i :| 0 <= i < |entries[1..]| && at + 1 + i < |log| && log[at + 1 + i].term != entries[1..][i].term;
      assert entries[i + 1] == entries[1..][i] && log[at + (i + 1)] == log[at + 1 + i];
    }
  }

  /** The commit index of a follower whose log a request cuts below it, while the leader claims more, goes back. */
  lemma CommitSetBack(s: NodeState, p: Packet, a: LogEntry, b: LogEntry, e: LogEntry)
    requires s.log == [a, b] && s.commitIndex == 2 && e.term != a.term
    requires p.rpc == AppendEntries(s.currentTerm, p.from, 0, 0, [e], 3)
    ensures var s' := StepEffect(s, Deliver(p)).state; s'.log == [e] && s'.commitIndex == 1
  {
  }

  /** In every reachable cluster: a request of a term not below the receiver's that passes the consistency check moves
      the commit index to the leader's as far as the log then reaches, and applies what that covers; one that does
      not commits nothing. The commit index does not go back, exactly except if the request leaves the log shorter
      than it and the leader claims more. */
  lemma RequestCommits(c0: Cluster, steps: seq<Step>, p: Packet)
    requires Initial(c0) && p in Exec(c0, steps).net && p.rpc.AppendEntries?
    requires p.to in Exec(c0, steps).nodes && p.rpc.term >= Exec(c0, steps).nodes[p.to].currentTerm
    ensures var c, c' := Exec(c0, steps), Exec(c0, steps + [Deliver(p)]);
            p.to in c'.nodes
            && var t, t', m := c.nodes[p.to], c'.nodes[p.to], p.rpc.leaderCommit;
               if Fits(t.log, p.rpc)
               then CommitsWith(t, t', m)
                    && |t'.log| == LengthAfter(t.log, p.rpc.prevIndex, p.rpc.entries)
                    && (t'.commitIndex == Max(t.commitIndex, Min(m, |t'.log|)) <==>
                          !(LengthAfter(t.log, p.rpc.prevIndex, p.rpc.entries) < t.commitIndex < m))
               else t'.log == t.log && t'.commitIndex == t.commitIndex && t'.applied == t.applied
  {
    hide Exec, Apply, Initial, WellFormed, StepEffect, NodeOK, AppliesUpTo, Splice, LengthAfter;
    var c := Exec(c0, steps);
    ReachableWellFormed(c0, steps);
    NodeIsOK(c, p.to);
    RequestEffect(c.nodes[p.to], p);
    if Fits(c.nodes[p.to].log, p.rpc) {
      SpliceLength(c.nodes[p.to].log, p.rpc.prevIndex, p.rpc.entries);
    }
    ApplyFrame(c, Deliver(p));
    ExecAppend(c0, steps, [Deliver(p)]);
    ExecTwo(c, Deliver(p), Deliver(p));
  }

  lemma NodeIsOK(c: Cluster, n: NodeId)
    requires WellFormed(c) && n in c.nodes
    ensures NodeOK(c.nodes[n]) && c.nodes[n].self == n
  {
    hide NodeOK;
  }

  // ---------------------------------------------------------------------
  // The exchange as steps of the cluster

  ghost predicate Leading(c: Cluster, l: NodeId, f: NodeId) {
    && WellFormed(c) && l in c.nodes && f in c.nodes && l != f
    && c.nodes[l].role == Leader && c.nodes[f].currentTerm <= c.nodes[l].currentTerm
  }

  function NextFor(s: NodeState, f: NodeId): nat {
    if Get(s.nextIndex, f) > |s.log| then |s.log| + 1 else Get(s.nextIndex, f)
  }

  function Request(s: NodeState, f: NodeId): Packet {
    Packet(s.self, f, EntriesFrom(s.currentTerm, s.self, s.log, s.commitIndex, NextFor(s, f)))
  }

  function Receipt(s: NodeState, f: NodeId, len: nat): Packet {
    Packet(f, s.self, AppendReply(s.currentTerm, true, len, 0, 0))
  }

  ghost predicate AppliedSame(t: NodeState, t': NodeState) {
    t'.commitIndex == t.commitIndex && t'.applied == t.applied
  }

  function Rejection(s: NodeState, f: NodeId, ci: nat, ct: nat): Packet {
    Packet(f, s.self, AppendReply(s.currentTerm, false, 0, ci, ct))
  }

  /** One round: the leader asks, the follower answers, and if the answer is a rejection the leader reads it. */
  function Round(c: Cluster, l: NodeId, f: NodeId): seq<Step>
    requires l in c.nodes && f in c.nodes
  {
    var s := c.nodes[l];
    var ask, a := [Heartbeat(l), Deliver(Request(s, f))], Answer(s.log, c.nodes[f].log, NextFor(s, f));
    if a.Appended? then ask else ask + [Deliver(Rejection(s, f, a.index, a.term))]
  }

  function Rounds(c: Cluster, l: NodeId, f: NodeId, n: nat): seq<Step>
    decreases n
  {
    if n == 0 || l !in c.nodes || f !in c.nodes then []
    else Round(c, l, f) + Rounds(Exec(c, Round(c, l, f)), l, f, n - 1)
  }

  /** Each of the steps can happen when its turn comes. */
  ghost predicate AllEnabled(c: Cluster, steps: seq<Step>) {
    forall i :: 0 <= i < |steps| ==> Enabled(Exec(c, steps[..i]), steps[i])
  }

  lemma EnabledAppend(c: Cluster, steps: seq<Step>, more: seq<Step>)
    requires AllEnabled(c, steps) && AllEnabled(Exec(c, steps), more)
    ensures AllEnabled(c, steps + more)
  {
    hide Enabled, Exec;
    var all := steps + more;
    forall i | 0 <= i < |all| ensures Enabled(Exec(c, all[..i]), all[i]) {
      if i < |steps| {
        assert all[..i] == steps[..i];
      } else {
        assert all[..i] == steps + more[..i - |steps|];
        ExecAppend(c, steps, more[..i - |steps|]);
      }
    }
  }

  lemma EnabledOne(c: Cluster, step: Step)
    requires Enabled(c, step)
    ensures AllEnabled(c, [step]) && Exec(c, [step]) == Apply(c, step)
  {
    hide Enabled, Apply;
    assert [step][..0] == [];
  }

  lemma EnabledTwo(c: Cluster, s1: Step, s2: Step)
    requires Enabled(c, s1) && Enabled(Apply(c, s1), s2)
    ensures AllEnabled(c, [s1, s2]) && Exec(c, [s1, s2]) == Apply(Apply(c, s1), s2)
  {
    hide Enabled, Apply, Exec;
    EnabledOne(c, s1);
    EnabledOne(Apply(c, s1), s2);
    EnabledAppend(c, [s1], [s2]);
    ExecTwo(c, s1, s2);
    assert [s1] + [s2] == [s1, s2];
  }

  lemma HeartbeatAsks(s: NodeState, f: NodeId)
    requires NodeOK(s) && s.role == Leader && f in s.peers
    ensures var e := StepEffect(s, Heartbeat(s.self));
            && Request(s, f) in e.sent && 1 <= NextFor(s, f)
            && e.state == s.(nextIndex := e.state.nextIndex)
  {
    var i :| 0 <= i < |s.peers| && s.peers[i] == f;
    ClampAllOther(s.nextIndex, s.peers, |s.log|, f);
    assert StepEffect(s, Heartbeat(s.self)).sent[i] == Request(s, f);
  }

  /** The leader's heartbeat asks the follower at its next index. */
  lemma Ask(c: Cluster, l: NodeId, f: NodeId)
    requires Leading(c, l, f)
    ensures var c', s := Apply(c, Heartbeat(l)), c.nodes[l];
            && Leading(c', l, f) && Request(s, f) in c'.net && 1 <= NextFor(s, f)
            && c'.nodes[f] == c.nodes[f] && c'.nodes[l] == s.(nextIndex := c'.nodes[l].nextIndex)
  {
    hide WellFormed, StepEffect, Apply, Request, NodeOK;
    ApplyWellFormed(c, Heartbeat(l));
    LeaderIsSelf(c, l, f);
    ApplyFrame(c, Heartbeat(l));
    HeartbeatAsks(c.nodes[l], f);
  }

  lemma FollowerAnswers(t: NodeState, s: NodeState)
    requires t.currentTerm <= s.currentTerm && NodeOK(t)
    ensures var e := StepEffect(t, Deliver(Request(s, t.self)));
            && e.state.currentTerm == s.currentTerm
            && match Answer(s.log, t.log, NextFor(s, t.self))
               case Appended(log) =>
                 && e.state.log == log && CommitsWith(t, e.state, s.commitIndex)
                 && e.sent == [Receipt(s, t.self, |log|)]
               case Conflict(ci, ct) =>
                 && e.state.log == t.log && e.state.commitIndex == t.commitIndex && e.state.applied == t.applied
                 && e.sent == [Packet(t.self, s.self, AppendReply(s.currentTerm, false, 0, ci, ct))]
  {
    hide CommitUpTo, AppendFromLeader, CommitsWith, NodeOK;
    FitsExactly(t.log, Request(s, t.self).rpc);
    RequestEffect(t, Request(s, t.self));
  }

  lemma FitsExactly(log: Log, rpc: RPC)
    requires rpc.AppendEntries?
    ensures Fits(log, rpc) <==> AppendFromLeader(log, rpc.prevIndex, rpc.prevTerm, rpc.entries).Appended?
  {
  }

  lemma Reply(c: Cluster, s: NodeState, l: NodeId, f: NodeId)
    requires Leading(c, l, f) && s.self == l && s.log == c.nodes[l].log && s.currentTerm == c.nodes[l].currentTerm
    requires Request(s, f) in c.net
    ensures var c' := Apply(c, Deliver(Request(s, f)));
            && Leading(c', l, f) && c'.nodes[l] == c.nodes[l]
            && match Answer(s.log, c.nodes[f].log, NextFor(s, f))
               case Appended(log) =>
                 && c'.nodes[f].log == log && CommitsWith(c.nodes[f], c'.nodes[f], s.commitIndex)
                 && Receipt(s, f, |log|) in c'.net
               case Conflict(ci, ct) =>
                 && c'.nodes[f].log == c.nodes[f].log && AppliedSame(c.nodes[f], c'.nodes[f])
                 && Packet(f, l, AppendReply(s.currentTerm, false, 0, ci, ct)) in c'.net
  {
    hide WellFormed, StepEffect, Answer, Apply, EntriesFrom, NodeOK, CommitsWith;
    NodeIsOK(c, f);
    var step := Deliver(Request(s, f));
    ApplyWellFormed(c, step);
    LeaderIsSelf(c, l, f);
    ApplyFrame(c, step);
    FollowerAnswers(c.nodes[f], s);
  }

  lemma Retreat(c: Cluster, l: NodeId, f: NodeId, ci: nat, ct: nat)
    requires Leading(c, l, f) && Packet(f, l, AppendReply(c.nodes[l].currentTerm, false, 0, ci, ct)) in c.net
    ensures var c' := Apply(c, Deliver(Packet(f, l, AppendReply(c.nodes[l].currentTerm, false, 0, ci, ct))));
            && Leading(c', l, f) && c'.nodes[f] == c.nodes[f]
            && c'.nodes[l] == c.nodes[l].(nextIndex := c'.nodes[l].nextIndex)
            && Get(c'.nodes[l].nextIndex, f) == NextAfterConflict(c.nodes[l].log, ci, ct)
  {
    hide WellFormed, NextAfterConflict;
    ApplyWellFormed(c, Deliver(Packet(f, l, AppendReply(c.nodes[l].currentTerm, false, 0, ci, ct))));
  }

  /** Steps change only the nodes they are addressed to. */
  lemma {:induction false} OnlyRecipients(c: Cluster, steps: seq<Step>, at: set<NodeId>)
    requires forall i :: 0 <= i < |steps| ==> Recipient(steps[i]) in at
    ensures var c' := Exec(c, steps);
            c'.nodes.Keys == c.nodes.Keys && forall n :: n in c.nodes && n !in at ==> c'.nodes[n] == c.nodes[n]
    decreases |steps|
  {
    hide StepEffect, Proposed;
    if steps != [] {
      OnlyRecipients(c, steps[..|steps| - 1], at);
    }
  }

  /** Nobody but the two has changed. */
  ghost predicate OthersSame(c: Cluster, c': Cluster, l: NodeId, f: NodeId) {
    && c'.nodes.Keys == c.nodes.Keys
    && forall n :: n in c.nodes && n != l && n != f ==> c'.nodes[n] == c.nodes[n]
  }

  /** What a round does: all of its steps happen, an accepted request leaves the answer's log, and a rejected one
      leaves both logs and moves the next index as the hint says. */
  lemma RoundRuns(c: Cluster, l: NodeId, f: NodeId)
    requires Leading(c, l, f)
    ensures var c', s := Exec(c, Round(c, l, f)), c.nodes[l];
            && AllEnabled(c, Round(c, l, f)) && OthersSame(c, c', l, f)
            && Leading(c', l, f) && c'.nodes[l] == s.(nextIndex := c'.nodes[l].nextIndex)
            && var a := Answer(s.log, c.nodes[f].log, NextFor(s, f));
               if a.Appended?
               then c'.nodes[f].log == a.log && CommitsWith(c.nodes[f], c'.nodes[f], s.commitIndex)
               else c'.nodes[f].log == c.nodes[f].log && AppliedSame(c.nodes[f], c'.nodes[f])
                    && Get(c'.nodes[l].nextIndex, f) == NextAfterConflict(s.log, a.index, a.term)
  {
    hide Apply, Exec, WellFormed, Answer, NextAfterConflict, AllEnabled, CommitsWith;
    var s := c.nodes[l];
    var ask := Deliver(Request(s, f));
    Ask(c, l, f);
    assert s.self == l by { LeaderIsSelf(c, l, f); }
    var c1 := Apply(c, Heartbeat(l));
    Reply(c1, s, l, f);
    EnabledTwo(c, Heartbeat(l), ask);
    OnlyRecipients(c, Round(c, l, f), {l, f});
    var a := Answer(s.log, c.nodes[f].log, NextFor(s, f));
    if a.Conflict? {
      var c2, third := Apply(c1, ask), Deliver(Rejection(s, f, a.index, a.term));
      Retreat(c2, l, f, a.index, a.term);
      EnabledOne(c2, third);
      EnabledAppend(c, [Heartbeat(l), ask], [third]);
      ExecAppend(c, [Heartbeat(l), ask], [third]);
    }
  }

  /** Between coherent logs a round gives the follower the leader's log, or the next index goes down. */
  lemma Exchange(c: Cluster, l: NodeId, f: NodeId)
    requires Leading(c, l, f) && Coherent(c.nodes[l].log, c.nodes[f].log)
    ensures var c', s := Exec(c, Round(c, l, f)), c.nodes[l];
            && AllEnabled(c, Round(c, l, f)) && 1 <= NextFor(s, f) && OthersSame(c, c', l, f)
            && Leading(c', l, f) && c'.nodes[l] == s.(nextIndex := c'.nodes[l].nextIndex)
            && if Answer(s.log, c.nodes[f].log, NextFor(s, f)).Appended?
               then s.log <= c'.nodes[f].log && CommitsWith(c.nodes[f], c'.nodes[f], s.commitIndex)
               else && c'.nodes[f].log == c.nodes[f].log && AppliedSame(c.nodes[f], c'.nodes[f])
                    && NextFor(c'.nodes[l], f) < NextFor(s, f)
  {
    hide Apply, Exec, WellFormed, Round, AllEnabled, CommitsWith;
    var s, next := c.nodes[l], NextFor(c.nodes[l], f);
    RoundRuns(c, l, f);
    Ask(c, l, f);
    if Answer(s.log, c.nodes[f].log, next).Appended? {
      AcceptedHoldsAll(s.log, c.nodes[f].log, next);
    } else {
      LogsAreOK(c, l, f);
      RejectionLowersExactly(s.log, c.nodes[f].log, next, s.currentTerm);
    }
  }

  lemma LeaderIsSelf(c: Cluster, l: NodeId, f: NodeId)
    requires Leading(c, l, f)
    ensures c.nodes[l].self == l && c.nodes[f].self == f
    ensures NodeOK(c.nodes[l]) && f in c.nodes[l].peers
  {
    hide NodeOK;
    assert PeersAre(c.nodes[l].peers, c.nodes.Keys, l);
  }

  lemma LogsAreOK(c: Cluster, l: NodeId, f: NodeId)
    requires Leading(c, l, f)
    ensures LogOK(c.nodes[l].log, c.nodes[l].currentTerm) && LogOK(c.nodes[f].log, c.nodes[l].currentTerm)
  {
    assert NodeOK(c.nodes[l]) && NodeOK(c.nodes[f]);
  }

  /** After so many rounds, all of whose steps happen, the follower holds the leader's log and has committed as far
      as the leader had; what it has applied on the way are the leader's commands. */
  ghost predicate CaughtUpAfter(c: Cluster, l: NodeId, f: NodeId, n: nat)
    requires l in c.nodes && f in c.nodes
  {
    var c', s, t := Exec(c, Rounds(c, l, f, n)), c.nodes[l], c.nodes[f];
    && AllEnabled(c, Rounds(c, l, f, n)) && Leading(c', l, f) && OthersSame(c, c', l, f)
    && c'.nodes[l] == s.(nextIndex := c'.nodes[l].nextIndex) && s.log <= c'.nodes[f].log
    && Catches(s, t, c'.nodes[f])
  }

  ghost predicate Catches(s: NodeState, t: NodeState, t': NodeState) {
    && t'.commitIndex >= Min(s.commitIndex, |s.log|) && t.applied <= t'.applied && |t'.applied| >= t'.commitIndex
    && forall k :: |t.applied| <= k < |t'.applied| && k < |s.log| ==> t'.applied[k] == s.log[k].command
  }

  lemma {:induction false} Converge(c: Cluster, l: NodeId, f: NodeId) returns (n: nat)
    requires Leading(c, l, f) && Coherent(c.nodes[l].log, c.nodes[f].log)
    ensures n <= NextFor(c.nodes[l], f) && CaughtUpAfter(c, l, f, n)
    decreases NextFor(c.nodes[l], f)
  {
    hide Apply, Exec, WellFormed, Coherent, Round, AllEnabled, NextFor, Answer, CommitsWith, Catches;
    Exchange(c, l, f);
    var c1 := Exec(c, Round(c, l, f));
    if Answer(c.nodes[l].log, c.nodes[f].log, NextFor(c.nodes[l], f)).Appended? {
      n := 1;
      assert Rounds(c1, l, f, 0) == [];
      assert Rounds(c, l, f, 1) == Round(c, l, f);
      CatchesAtOnce(c.nodes[l], c.nodes[f], c1.nodes[f]);
    } else {
      var m := Converge(c1, l, f);
      n := m + 1;
      ExecAppend(c, Round(c, l, f), Rounds(c1, l, f, m));
      EnabledAppend(c, Round(c, l, f), Rounds(c1, l, f, m));
      CatchesToo(c.nodes[l], c1.nodes[l], c.nodes[f], c1.nodes[f], Exec(c1, Rounds(c1, l, f, m)).nodes[f]);
    }
  }

  lemma CatchesAtOnce(s: NodeState, t: NodeState, t': NodeState)
    requires CommitsWith(t, t', s.commitIndex) && s.log <= t'.log
    ensures Catches(s, t, t')
  {
    forall k | |t.applied| <= k < |t'.applied| && k < |s.log| ensures t'.applied[k] == s.log[k].command {
      assert AppliedAt(t'.applied, t'.log, k);
    }
  }

  lemma CatchesToo(s: NodeState, s1: NodeState, t: NodeState, t1: NodeState, t': NodeState)
    requires Catches(s1, t1, t') && s1 == s.(nextIndex := s1.nextIndex) && AppliedSame(t, t1)
    ensures Catches(s, t, t')
  {
  }

  /** From every reachable cluster in which no term has had two leaders, a follower that is not ahead of the
      leader's term holds the leader's whole log, and has committed and applied as far as the leader had, after at
      most as many rounds as the next index says. */
  lemma FollowerCatchesUp(c0: Cluster, steps: seq<Step>, l: NodeId, f: NodeId) returns (n: nat)
    requires Initial(c0) && AtMostOneLeader(c0, steps)
    requires Leading(Exec(c0, steps), l, f)
    ensures var c := Exec(c0, steps);
            n <= NextFor(c.nodes[l], f) && CaughtUpAfter(c, l, f, n)
  {
    hide Apply, Exec, WellFormed, Initial, AtMostOneLeader, Coherent, CaughtUpAfter;
    CoherentInRun(c0, steps, l, f);
    n := Converge(Exec(c0, steps), l, f);
  }
}
