/**
 Exactly-once publishes in parallel. A publish holds the lock of its partition from the lookup to the store of its
 result, but nothing else, so publishes to different partitions interleave: another may look up, write, mark or
 store between any two steps of this one.
 */
module PublishRuns {
  import opened Dedup
  import opened Options

  datatype Stage = Looked | Written(offset: nat) | Marked(offset: nat)

  /** A publish whose lookup found nothing, and how far it has come. */
  datatype Job = Job(request: Request, stage: Stage)

  /** `st.appends` lists the appends in the order they were marked, `made` in the order they were made; `busy` maps
      each locked partition to the publish that holds it. A restart keeps the logs and forgets everything else, so
      `st.appends` is what was marked since the last one. */
  datatype Live = Live(st: State, made: seq<Append>, busy: map<nat, Job>)

  datatype Step =
    | Begin(request: Request)
    | Write(partition: nat, ok: bool)
    | MarkIt(partition: nat)
    | Store(partition: nat)
    | Purge(bound: nat, kept: map<Key, Result>)
    | Restart

  function KeyOf(r: Request): Key {
    Key(r.client, r.seqNum)
  }

  function ResultOf(r: Request, offset: nat): Result {
    Result(Some(r.message), r.partition, offset)
  }

  function AppendOf(r: Request, offset: nat): Append {
    Append(r.client, r.seqNum, ResultOf(r, offset))
  }

  /** The request is valid, its partition is free, and nothing is remembered of it. */
  predicate Starts(x: Live, size: nat, r: Request) {
    r.partition < |x.st.logs| && r.partition !in x.busy && r.seqNum > 0 && Remembered(x.st, size, r).None?
  }

  /** A step that is not possible changes nothing; a publish that is answered from memory or refused is one of those. */
  ghost function Apply(x: Live, size: nat, step: Step): Live {
    match step
    case Begin(r) => if Starts(x, size, r) then x.(busy := x.busy[r.partition := Job(r, Looked)]) else x
    case Write(p, ok) =>
      if p !in x.busy || x.busy[p].stage != Looked || p >= |x.st.logs| then x
      else if !ok then x.(busy := x.busy - {p})
      else
        var r, offset := x.busy[p].request, |x.st.logs[p]|;
        Live(x.st.(logs := x.st.logs[p := x.st.logs[p] + [r.message]]), x.made + [AppendOf(r, offset)],
             x.busy[p := Job(r, Written(offset))])
    case MarkIt(p) =>
      if p !in x.busy || !x.busy[p].stage.Written? then x
      else
        var r, offset := x.busy[p].request, x.busy[p].stage.offset;
        x.(st := x.st.(appends := x.st.appends + [AppendOf(r, offset)]), busy := x.busy[p := Job(r, Marked(offset))])
    case Store(p) =>
      if p !in x.busy || !x.busy[p].stage.Marked? then x
      else
        var r, offset := x.busy[p].request, x.busy[p].stage.offset;
        x.(st := x.st.(store := x.st.store[KeyOf(r) := ResultOf(r, offset)]), busy := x.busy - {p})
    case Purge(bound, kept) =>
      if Purges(x.st.store, bound, kept) then x.(st := x.st.(store := kept)) else x
    case Restart => Live(State(x.st.logs, map[], []), x.made, map[])
  }

  ghost function Exec(partitions: nat, size: nat, steps: seq<Step>): Live {
    if steps == [] then Live(State(seq(partitions, _ => []), map[], []), [], map[])
    else Apply(Exec(partitions, size, steps[..|steps| - 1]), size, steps[|steps| - 1])
  }

  /** The steps of one publish, one after the other, are the publish as a whole, whatever else is under way. */
  lemma PublishIsItsSteps(x: Live, size: nat, r: Request, ok: bool)
    requires r.partition !in x.busy
    ensures var p := r.partition;
            var y := Apply(Apply(Apply(Apply(x, size, Begin(r)), size, Write(p, ok)), size, MarkIt(p)), size, Store(p));
            y.st == Publish(x.st, size, r, ok).0 && y.busy == x.busy
  {
    hide Remembered, Purges;
    var x1 := Apply(x, size, Begin(r));
    if Starts(x, size, r) {
      assert x1.busy - {r.partition} == x.busy;
    }
  }

  // ---------------------------------------------------------------------
  // Runs in which no key is published twice at once

  /** No two publishes under one key are under way. */
  ghost predicate DistinctJobs(x: Live) {
    forall p, q :: p in x.busy && q in x.busy && p != q ==> KeyOf(x.busy[p].request) != KeyOf(x.busy[q].request)
  }

  ghost predicate NoOverlap(partitions: nat, size: nat, steps: seq<Step>) {
    forall i :: 0 <= i <= |steps| ==> DistinctJobs(Exec(partitions, size, steps[..i]))
  }

  function InWindow(st: State, size: nat, k: Key): Option<nat> {
    Find(Window(MarksOf(st.appends, k.client), size), k.seqNum)
  }

  /** A publish under way: its key is not in the store, nor in the window until it is marked; what it has written is
      where it says, and what it has marked is the last append under its key. */
  ghost predicate JobOK(st: State, size: nat, p: nat, job: Job) {
    var r := job.request;
    && r.partition == p < |st.logs| && KeyOf(r) !in st.store
    && match job.stage
       case Looked => InWindow(st, size, KeyOf(r)).None?
       case Written(offset) => InWindow(st, size, KeyOf(r)).None? && At(st, ResultOf(r, offset))
       case Marked(offset) =>
         At(st, ResultOf(r, offset)) && LastAppend(st.appends, KeyOf(r)) == Some(ResultOf(r, offset))
  }

  ghost predicate LiveOK(x: Live, size: nat) {
    Inv(x.st, size) && forall p :: p in x.busy ==> JobOK(x.st, size, p, x.busy[p])
  }

  lemma WindowShifts(marks: seq<Mark>, m: Mark, size: nat, seqNum: nat)
    requires Find(Window(marks, size), seqNum).None? && m.seqNum != seqNum
    ensures Find(Window(marks + [m], size), seqNum).None?
  {
    hide Find;
    FindHolds(Window(marks, size), seqNum);
    FindHolds(Window(marks + [m], size), seqNum);
  }

  lemma BeginOK(x: Live, size: nat, r: Request)
    requires LiveOK(x, size)
    ensures LiveOK(Apply(x, size, Begin(r)), size)
  {
    hide Inv, MarksOf, Find, LastAppend, Window;
  }

  lemma WriteOK(x: Live, size: nat, p: nat, ok: bool)
    requires LiveOK(x, size)
    ensures LiveOK(Apply(x, size, Write(p, ok)), size)
  {
    hide MarksOf, Find, LastAppend, Window, Spaced;
    var y := Apply(x, size, Write(p, ok));
    forall q | q in y.busy ensures JobOK(y.st, size, q, y.busy[q]) {
      assert JobOK(x.st, size, q, x.busy[q]);
    }
  }

  lemma MarkOK(x: Live, size: nat, p: nat)
    requires LiveOK(x, size) && DistinctJobs(x) && p in x.busy && x.busy[p].stage.Written?
    ensures LiveOK(Apply(x, size, MarkIt(p)), size)
  {
    hide MarksOf, Find, LastAppend, Window, Spaced;
    var y := Apply(x, size, MarkIt(p));
    var r := x.busy[p].request;
    var a := AppendOf(r, x.busy[p].stage.offset);
    assert JobOK(x.st, size, p, x.busy[p]);
    MarkKeepsMemory(x.st, size, r, a.result.offset);
    forall q | q in y.busy ensures JobOK(y.st, size, q, y.busy[q]) {
      var k := KeyOf(x.busy[q].request);
      assert JobOK(x.st, size, q, x.busy[q]);
      LastAppendMore(x.st.appends, a, k);
      MarksOfMore(x.st.appends, a, k.client);
      if q != p && k.client == r.client && !x.busy[q].stage.Marked? {
        WindowShifts(MarksOf(x.st.appends, k.client), Mark(r.seqNum, a.result.offset), size, k.seqNum);
      }
    }
  }

  /** Marking a key that is in neither the window nor the store. */
  lemma MarkKeepsMemory(st: State, size: nat, r: Request, offset: nat)
    requires Inv(st, size) && At(st, ResultOf(r, offset))
    requires KeyOf(r) !in st.store && InWindow(st, size, KeyOf(r)).None?
    ensures Inv(st.(appends := st.appends + [AppendOf(r, offset)]), size)
  {
    hide MarksOf, Find, LastAppend, Window, Spaced;
    var a := AppendOf(r, offset);
    var after := st.(appends := st.appends + [a]);
    forall c: nat ensures Spaced(MarksOf(after.appends, c), size) {
      MarksOfMore(st.appends, a, c);
      if c == r.client {
        SpacedMore(MarksOf(st.appends, c), Mark(r.seqNum, offset), size);
      }
    }
    forall k | k in after.store ensures LastAppend(after.appends, k) == Some(after.store[k]) {
      LastAppendMore(st.appends, a, k);
    }
  }

  lemma StoreKeeps(x: Live, size: nat, p: nat)
    requires LiveOK(x, size) && DistinctJobs(x)
    ensures LiveOK(Apply(x, size, Store(p)), size)
  {
    hide MarksOf, Find, LastAppend, Window, Spaced;
    var y := Apply(x, size, Store(p));
    if y != x {
      assert JobOK(x.st, size, p, x.busy[p]);
      forall q | q in y.busy ensures JobOK(y.st, size, q, y.busy[q]) {
        assert JobOK(x.st, size, q, x.busy[q]);
      }
    }
  }

  lemma PurgeOK(x: Live, size: nat, bound: nat, kept: map<Key, Result>)
    requires LiveOK(x, size)
    ensures LiveOK(Apply(x, size, Purge(bound, kept)), size)
  {
    hide MarksOf, Find, LastAppend, Window, Spaced;
    var y := Apply(x, size, Purge(bound, kept));
    if y != x {
      PurgeInv(x.st, size, bound, kept);
      forall q | q in y.busy ensures JobOK(y.st, size, q, y.busy[q]) {
        assert JobOK(x.st, size, q, x.busy[q]);
      }
    }
  }

  lemma StepOK(x: Live, size: nat, step: Step)
    requires LiveOK(x, size) && DistinctJobs(x)
    ensures LiveOK(Apply(x, size, step), size)
  {
    hide LiveOK, DistinctJobs, Remembered, Purges;
    match step
    case Begin(r) => BeginOK(x, size, r);
    case Write(p, ok) => WriteOK(x, size, p, ok);
    case MarkIt(p) =>
      if p in x.busy && x.busy[p].stage.Written? {
        MarkOK(x, size, p);
      }
    case Store(p) => StoreKeeps(x, size, p);
    case Purge(bound, kept) => PurgeOK(x, size, bound, kept);
    case Restart => RestartOK(x, size);
  }

  lemma RestartOK(x: Live, size: nat)
    ensures LiveOK(Apply(x, size, Restart), size)
  {
    assert forall c: nat :: MarksOf([], c) == [];
  }

  /** After a restart every valid request is appended, whether it was before or not. */
  lemma RestartForgets(x: Live, size: nat, r: Request)
    requires r.partition < |x.st.logs| && r.seqNum > 0
    ensures var y := Apply(x, size, Restart);
            && Starts(y, size, r)
            && Publish(y.st, size, r, true).0.logs[r.partition] == x.st.logs[r.partition] + [r.message]
  {
    assert MarksOf([], r.client) == [];
  }

  lemma NoOverlapBefore(partitions: nat, size: nat, steps: seq<Step>)
    requires NoOverlap(partitions, size, steps) && steps != []
    ensures NoOverlap(partitions, size, steps[..|steps| - 1])
    ensures DistinctJobs(Exec(partitions, size, steps[..|steps| - 1])) && DistinctJobs(Exec(partitions, size, steps))
  {
    hide Exec, DistinctJobs;
    var before := steps[..|steps| - 1];
    forall i | 0 <= i <= |before| ensures DistinctJobs(Exec(partitions, size, before[..i])) {
      assert before[..i] == steps[..i];
    }
    assert steps[..|steps|] == steps;
  }

  lemma {:induction false} ReachableOK(partitions: nat, size: nat, steps: seq<Step>)
    requires NoOverlap(partitions, size, steps)
    ensures LiveOK(Exec(partitions, size, steps), size)
  {
    hide Apply, NoOverlap, DistinctJobs;
    if steps == [] {
      assert forall c: nat :: MarksOf([], c) == [];
    } else {
      hide LiveOK;
      NoOverlapBefore(partitions, size, steps);
      ReachableOK(partitions, size, steps[..|steps| - 1]);
      StepOK(Exec(partitions, size, steps[..|steps| - 1]), size, steps[|steps| - 1]);
    }
  }

  /** In every run in which no key is published twice at once: a client's marks with one number, since the last
      restart, are more than a window apart, so inside any window each was appended once; and the memory is in order,
      so that every further publish is answered as ExactlyOnce and RetryResultExactly say. */
  lemma RunsAreExactlyOnce(partitions: nat, size: nat, steps: seq<Step>)
    requires NoOverlap(partitions, size, steps)
    ensures var st := Exec(partitions, size, steps).st;
            && Inv(st, size)
            && forall c: nat, i, j :: 0 <= i < j < |MarksOf(st.appends, c)| && j - i <= size ==>
                 MarksOf(st.appends, c)[i].seqNum != MarksOf(st.appends, c)[j].seqNum
  {
    hide Exec, MarksOf, NoOverlap, StoreOK, InLogs;
    ReachableOK(partitions, size, steps);
    var st := Exec(partitions, size, steps).st;
    forall c: nat, i, j | 0 <= i < j < |MarksOf(st.appends, c)| && j - i <= size
      ensures MarksOf(st.appends, c)[i].seqNum != MarksOf(st.appends, c)[j].seqNum
    {
      assert Spaced(MarksOf(st.appends, c), size);
    }
  }

  // ---------------------------------------------------------------------
  // Never twice

  function KeyMade(a: Append): Key {
    Key(a.client, a.seqNum)
  }

  ghost predicate DistinctKeys(made: seq<Append>) {
    forall i, j :: 0 <= i < j < |made| ==> KeyMade(made[i]) != KeyMade(made[j])
  }

  predicate InHand(x: Live, k: Key, p: nat) {
    p in x.busy && x.busy[p].stage != Looked && KeyOf(x.busy[p].request) == k
  }

  /** Every append is in the store, or its publish is still under way. */
  ghost predicate Accounted(x: Live) {
    forall i :: 0 <= i < |x.made| ==>
      KeyMade(x.made[i]) in x.st.store || exists p :: InHand(x, KeyMade(x.made[i]), p)
  }

  lemma StillAccounted(x: Live, y: Live, k: Key)
    requires k in x.st.store || exists p :: InHand(x, k, p)
    requires forall p :: InHand(x, k, p) ==> k in y.st.store || InHand(y, k, p)
    requires k in x.st.store ==> k in y.st.store
    ensures k in y.st.store || exists p :: InHand(y, k, p)
  {
    if k !in x.st.store {
      var p :| InHand(x, k, p);
    }
  }

  lemma StepAccounted(x: Live, size: nat, step: Step)
    requires Accounted(x) && !step.Purge? && !step.Restart?
    ensures Accounted(Apply(x, size, step))
  {
    hide Remembered;
    var y := Apply(x, size, step);
    forall i | 0 <= i < |y.made|
      ensures KeyMade(y.made[i]) in y.st.store || exists p :: InHand(y, KeyMade(y.made[i]), p)
    {
      var k := KeyMade(y.made[i]);
      if i < |x.made| {
        StillAccounted(x, y, k);
      } else {
        assert InHand(y, k, step.partition);
      }
    }
  }

  lemma StepDistinct(x: Live, size: nat, step: Step)
    requires LiveOK(x, size) && DistinctJobs(x) && Accounted(x) && DistinctKeys(x.made)
    ensures DistinctKeys(Apply(x, size, step).made)
  {
    hide Remembered, Inv, InWindow, LastAppend, At, Purges;
    var y := Apply(x, size, step);
    if y.made != x.made {
      var p := step.partition;
      assert JobOK(x.st, size, p, x.busy[p]);
      assert forall i :: 0 <= i < |x.made| ==> KeyMade(x.made[i]) != KeyOf(x.busy[p].request);
    }
  }

  ghost predicate NothingForgotten(steps: seq<Step>) {
    forall i :: 0 <= i < |steps| ==> !steps[i].Purge? && !steps[i].Restart?
  }

  /** Without purges and restarts, and if no key is published twice at once, no key is ever appended twice, however
      small the window. */
  lemma {:induction false} NeverTwice(partitions: nat, size: nat, steps: seq<Step>)
    requires NoOverlap(partitions, size, steps) && NothingForgotten(steps)
    ensures Accounted(Exec(partitions, size, steps)) && DistinctKeys(Exec(partitions, size, steps).made)
  {
    hide Apply, NoOverlap, DistinctJobs;
    if steps != [] {
      hide Accounted, DistinctKeys;
      var before := steps[..|steps| - 1];
      NoOverlapBefore(partitions, size, steps);
      NeverTwice(partitions, size, before);
      ReachableOK(partitions, size, before);
      StepAccounted(Exec(partitions, size, before), size, steps[|steps| - 1]);
      StepDistinct(Exec(partitions, size, before), size, steps[|steps| - 1]);
    }
  }

  // ---------------------------------------------------------------------
  // Which requests are safe

  /** To which partitions the requests under each key may go. */
  type Routes = Key -> set<nat>

  ghost predicate Routed(routes: Routes, steps: seq<Step>) {
    forall i :: 0 <= i < |steps| && steps[i].Begin? ==>
      steps[i].request.partition in routes(KeyOf(steps[i].request))
  }

  /** Each key has at most one of the partitions. */
  ghost predicate OneEach(routes: Routes, partitions: nat) {
    forall k: Key, p: nat, q: nat ::
      k.seqNum > 0 && p in routes(k) && q in routes(k) && p < partitions && q < partitions ==> p == q
  }

  ghost predicate JobsRouted(routes: Routes, partitions: nat, x: Live) {
    && |x.st.logs| == partitions
    && forall p :: p in x.busy ==>
         && x.busy[p].request.partition == p < partitions && x.busy[p].request.seqNum > 0
         && p in routes(KeyOf(x.busy[p].request))
  }

  lemma StepRouted(routes: Routes, partitions: nat, x: Live, size: nat, step: Step)
    requires JobsRouted(routes, partitions, x)
    requires step.Begin? ==> step.request.partition in routes(KeyOf(step.request))
    ensures JobsRouted(routes, partitions, Apply(x, size, step))
  {
    hide Remembered, Purges;
  }

  lemma {:induction false} RoutedJobs(routes: Routes, partitions: nat, size: nat, steps: seq<Step>)
    requires Routed(routes, steps)
    ensures JobsRouted(routes, partitions, Exec(partitions, size, steps))
  {
    hide Apply;
    if steps != [] {
      hide JobsRouted;
      var before := steps[..|steps| - 1];
      RoutedJobs(routes, partitions, size, before);
      StepRouted(routes, partitions, Exec(partitions, size, before), size, steps[|steps| - 1]);
    }
  }

  /** If all requests under a key go to one partition, its lock keeps them apart. */
  lemma OneRouteNoOverlap(routes: Routes, partitions: nat, size: nat, steps: seq<Step>)
    requires Routed(routes, steps) && OneEach(routes, partitions)
    ensures NoOverlap(partitions, size, steps)
  {
    hide Exec;
    forall i | 0 <= i <= |steps| ensures DistinctJobs(Exec(partitions, size, steps[..i])) {
      RoutedJobs(routes, partitions, size, steps[..i]);
    }
  }

  /** Two publishes of one key to two partitions: both look up, then both write. */
  function Race(r: Request, q: nat): seq<Step> {
    [Begin(r), Begin(r.(partition := q)), Write(r.partition, true), Write(q, true), MarkIt(r.partition), MarkIt(q)]
  }

  lemma ExecMore(partitions: nat, size: nat, steps: seq<Step>, step: Step)
    ensures Exec(partitions, size, steps + [step]) == Apply(Exec(partitions, size, steps), size, step)
  {
    hide Apply;
    assert (steps + [step])[..|steps|] == steps;
  }

  ghost predicate BothLooked(x: Live, partitions: nat, r: Request, q: nat) {
    x == Live(State(seq(partitions, _ => []), map[], []), [],
              map[r.partition := Job(r, Looked), q := Job(r.(partition := q), Looked)])
  }

  lemma BothLook(partitions: nat, size: nat, r: Request, q: nat)
    requires r.seqNum > 0 && r.partition != q && r.partition < partitions && q < partitions
    ensures BothLooked(Exec(partitions, size, [Begin(r), Begin(r.(partition := q))]), partitions, r, q)
  {
    hide Exec;
    var r' := r.(partition := q);
    NoStepsYet(partitions, size);
    ExecMore(partitions, size, [], Begin(r));
    ExecMore(partitions, size, [Begin(r)], Begin(r'));
    assert [] + [Begin(r)] == [Begin(r)] && [Begin(r)] + [Begin(r')] == [Begin(r), Begin(r')];
  }

  lemma NoStepsYet(partitions: nat, size: nat)
    ensures Exec(partitions, size, []) == Live(State(seq(partitions, _ => []), map[], []), [], map[])
  {
  }

  /** Both are appended and marked. */
  lemma RaceDoubles(partitions: nat, size: nat, r: Request, q: nat)
    requires r.seqNum > 0 && r.partition != q && r.partition < partitions && q < partitions
    ensures var x, twice := Exec(partitions, size, Race(r, q)), [AppendOf(r, 0), AppendOf(r.(partition := q), 0)];
            x.made == twice && x.st.appends == twice
  {
    hide Exec;
    var p, s2 := r.partition, [Begin(r), Begin(r.(partition := q))];
    BothLook(partitions, size, r, q);
    var s3, s4 := s2 + [Write(p, true)], s2 + [Write(p, true)] + [Write(q, true)];
    ExecMore(partitions, size, s2, Write(p, true));
    ExecMore(partitions, size, s3, Write(q, true));
    ExecMore(partitions, size, s4, MarkIt(p));
    ExecMore(partitions, size, s4 + [MarkIt(p)], MarkIt(q));
    assert s4 + [MarkIt(p)] + [MarkIt(q)] == Race(r, q);
  }

  /** A way to send two requests under one key to two partitions. */
  lemma TwoRoutes(routes: Routes, partitions: nat) returns (r: Request, q: nat)
    requires !OneEach(routes, partitions)
    ensures r.seqNum > 0 && r.partition != q && r.partition < partitions && q < partitions
    ensures Routed(routes, Race(r, q)) && NothingForgotten(Race(r, q))
  {
    var k: Key, p: nat, p': nat :|
      k.seqNum > 0 && p in routes(k) && p' in routes(k) && p < partitions && p' < partitions && p != p';
    r, q := Request(k.client, k.seqNum, p, 0), p';
  }

  /** No run without purges and restarts appends a key twice if and only if all requests under a key go to one
      partition. */
  lemma NeverTwiceExactly(routes: Routes, partitions: nat, size: nat)
    ensures (forall steps :: Routed(routes, steps) && NothingForgotten(steps) ==>
               DistinctKeys(Exec(partitions, size, steps).made))
            <==> OneEach(routes, partitions)
  {
    hide Exec, OneEach, Routed, NothingForgotten, Race;
    if OneEach(routes, partitions) {
      forall steps | Routed(routes, steps) && NothingForgotten(steps)
        ensures DistinctKeys(Exec(partitions, size, steps).made)
      {
        OneRouteNoOverlap(routes, partitions, size, steps);
        NeverTwice(partitions, size, steps);
      }
    } else {
      var r, q := TwoRoutes(routes, partitions);
      RaceDoubles(partitions, size, r, q);
      var made := Exec(partitions, size, Race(r, q)).made;
      assert KeyMade(made[0]) == KeyMade(made[1]);
    }
  }

  ghost predicate AllSpaced(st: State, size: nat) {
    forall c: nat :: Spaced(MarksOf(st.appends, c), size)
  }

  /** In all runs, with purges and since the last restart, a number recurs only more than a window later, if and only
      if all requests under a key go to one partition. */
  lemma SpacingExactly(routes: Routes, partitions: nat, size: nat)
    requires size > 0
    ensures (forall steps :: Routed(routes, steps) ==> AllSpaced(Exec(partitions, size, steps).st, size))
            <==> OneEach(routes, partitions)
  {
    hide Exec, OneEach, Routed, NothingForgotten, Race;
    if OneEach(routes, partitions) {
      forall steps | Routed(routes, steps) ensures AllSpaced(Exec(partitions, size, steps).st, size) {
        OneRouteNoOverlap(routes, partitions, size, steps);
        ReachableOK(partitions, size, steps);
      }
    } else {
      var r, q := TwoRoutes(routes, partitions);
      RaceDoubles(partitions, size, r, q);
      TwoMarks(Exec(partitions, size, Race(r, q)).st, size, r, q);
    }
  }

  lemma TwoMarks(st: State, size: nat, r: Request, q: nat)
    requires size > 0 && st.appends == [AppendOf(r, 0), AppendOf(r.(partition := q), 0)]
    ensures !AllSpaced(st, size)
  {
    var a, b := AppendOf(r, 0), AppendOf(r.(partition := q), 0);
    assert [] + [a] == [a] && [a] + [b] == [a, b];
    MarksOfMore([], a, r.client);
    MarksOfMore([a], b, r.client);
    var marks := MarksOf(st.appends, r.client);
    assert marks[0].seqNum == marks[1].seqNum;
    assert !Spaced(marks, size);
  }
}
