/**
 Token-bucket rate limiting per client and per topic, with a refund when the topic denies what the
 client was granted, and eviction of idle buckets. Time and tokens are reals.
 */
module RateLimiting {

  /** `Unused` is a bucket that does not exist yet. */
  datatype Bucket = Unused | Bucket(tokens: real, last: real, lastSeen: real)

  /** Tokens per second and bucket size, as the configuration gives them. */
  datatype Limits = Limits(rate: int, burst: int)

  function Cap(l: Limits): (c: real)
    ensures c >= 1.0
  {
    if l.burst <= 0 then 1.0 else l.burst as real
  }

  function Rate(l: Limits): (r: real)
    ensures r >= 0.0
  {
    if l.rate <= 0 then 0.0 else l.rate as real
  }

  function AtLeastOne(n: int): nat {
    if n < 1 then 1 else n
  }

  function NotNegative(n: int): nat {
    if n < 0 then 0 else n
  }

  function Min(a: real, b: real): real {
    if a <= b then a else b
  }

  /** The burst a configuration amounts to. The guard against an empty bucket never has to act on a
      positive rate. */
  function ConfiguredBurst(rps: int, multiplier: int): (b: int)
    ensures b >= 1 && b >= rps
    ensures rps > 0 && multiplier > 0 ==> b == rps * multiplier
    ensures rps > 0 && multiplier <= 0 ==> b == rps
    ensures rps <= 0 ==> b == 1
  {
    if rps <= 0 then 1
    else
      var b := if multiplier <= 0 then rps else rps * multiplier;
      AtLeast(rps, multiplier);
      if b < 1 then 1 else b
  }

  lemma AtLeast(a: int, b: int)
    requires a > 0
    ensures b > 0 ==> a * b >= a
  {
  }

  /** What flows into a bucket in a time span. */
  function Inflow(l: Limits, d: real): real {
    d * Rate(l)
  }

  /** In the numbers of the configuration. */
  lemma InConfigured(l: Limits, d: real)
    ensures Inflow(l, d) == d * NotNegative(l.rate) as real && Cap(l) == AtLeastOne(l.burst) as real
  {
  }

  lemma InflowAdds(l: Limits, a: real, b: real)
    ensures Inflow(l, a + b) == Inflow(l, a) + Inflow(l, b)
    ensures a >= 0.0 ==> Inflow(l, a) >= 0.0
  {
  }

  /** The tokens a bucket has at a given time. */
  function Level(b: Bucket, l: Limits, now: real): real {
    match b
    case Unused => Cap(l)
    case Bucket(tokens, last, _) =>
      var accrued := if now > last then tokens + Inflow(l, now - last) else tokens;
      Min(accrued, Cap(l))
  }

  // ---------------------------------------------------------------------
  // The bucket as the limiter mutates it

  class TokenBucket {
    var used: bool
    var tokens: real
    var last: real
    var lastSeen: real

    ghost function View(): Bucket
      reads this
    {
      if used then Bucket(tokens, last, lastSeen) else Unused
    }

    constructor ()
      ensures View() == Unused
    {
      used, tokens, last, lastSeen := false, 0.0, 0.0, 0.0;
    }

    method Refill(rate: int, burst: int, now: real)
      modifies this
      ensures View() == Bucket(Level(old(View()), Limits(rate, burst), now), now, lastSeen)
      ensures lastSeen == old(lastSeen) && last == now
      ensures var cap, gone := AtLeastOne(burst) as real, now - old(last);
              tokens == if !old(used) then cap
                        else if gone > 0.0 && rate > 0 then Min(cap, old(tokens) + gone * rate as real)
                        else Min(cap, old(tokens))
    {
      var cap := if burst <= 0 then 1 else burst;
      if !used {
        used, last, tokens := true, now, cap as real;
        return;
      }
      var elapsed := now - last;
      if elapsed > 0.0 && rate > 0 {
        tokens := tokens + elapsed * rate as real;
      }
      if tokens > cap as real {
        tokens := cap as real;
      }
      last := now;
    }

    method Allow(rate: int, burst: int, now: real) returns (ok: bool)
      modifies this
      ensures (View(), ok) == Take(old(View()), Limits(rate, burst), now)
    {
      Refill(rate, burst, now);
      lastSeen := now;
      if tokens >= 1.0 {
        tokens := tokens - 1.0;
        return true;
      }
      return false;
    }

    method Refund()
      requires used
      modifies this
      ensures View() == Refunded(old(View()))
    {
      tokens := tokens + 1.0;
    }
  }

  function Take(b: Bucket, l: Limits, now: real): (Bucket, bool) {
    var level := Level(b, l, now);
    if level >= 1.0 then (Bucket(level - 1.0, now, now), true) else (Bucket(level, now, now), false)
  }

  function Refunded(b: Bucket): Bucket
    requires b.Bucket?
  {
    b.(tokens := b.tokens + 1.0)
  }

  // ---------------------------------------------------------------------
  // The limiter

  datatype Config = Config(client: Limits, topic: Limits, ttl: real)

  /** The bucket of every client and every topic. */
  datatype Limiter = Limiter(clients: nat -> Bucket, topics: nat -> Bucket)

  datatype Step =
    | Allow(client: nat, topic: nat, now: real)
    | AllowClient(client: nat, now: real)
    | AllowTopic(topic: nat, now: real)
    | Evict(now: real)

  function Put(m: nat -> Bucket, id: nat, b: Bucket): nat -> Bucket {
    (x: nat) => if x == id then b else m(x)
  }

  predicate Idle(b: Bucket, ttl: real, now: real) {
    b.Bucket? && now - b.lastSeen > ttl
  }

  function Evicted(b: Bucket, ttl: real, now: real): Bucket {
    if Idle(b, ttl, now) then Unused else b
  }

  function Apply(c: Config, s: Limiter, step: Step): (Limiter, bool) {
    match step
    case AllowClient(id, now) =>
      var (b, ok) := Take(s.clients(id), c.client, now);
      (s.(clients := Put(s.clients, id, b)), ok)
    case AllowTopic(id, now) =>
      var (b, ok) := Take(s.topics(id), c.topic, now);
      (s.(topics := Put(s.topics, id, b)), ok)
    case Allow(client, topic, now) =>
      var (cb, ok) := Take(s.clients(client), c.client, now);
      if !ok then (s.(clients := Put(s.clients, client, cb)), false)
      else
        var (tb, ok') := Take(s.topics(topic), c.topic, now);
        (Limiter(Put(s.clients, client, if ok' then cb else Refunded(cb)), Put(s.topics, topic, tb)), ok')
    case Evict(now) =>
      (Limiter((id: nat) => Evicted(s.clients(id), c.ttl, now), (id: nat) => Evicted(s.topics(id), c.ttl, now)), true)
  }

  function Fresh(): Limiter {
    Limiter(_ => Unused, _ => Unused)
  }

  function Exec(c: Config, steps: seq<Step>): Limiter {
    if steps == [] then Fresh()
    else Apply(c, Exec(c, steps[..|steps| - 1]), steps[|steps| - 1]).0
  }

  /** A clock that never runs backwards. */
  predicate Monotone(steps: seq<Step>) {
    forall i, j :: 0 <= i < j < |steps| ==> steps[i].now <= steps[j].now
  }

  /** Whether the last step of a run was a request that was granted. */
  function Granted(c: Config, steps: seq<Step>): bool
    requires steps != []
  {
    !steps[|steps| - 1].Evict? && Apply(c, Exec(c, steps[..|steps| - 1]), steps[|steps| - 1]).1
  }

  // ---------------------------------------------------------------------
  // Tokens stay within bounds

  predicate BucketOK(b: Bucket, l: Limits, now: real) {
    b.Bucket? ==> 0.0 <= b.tokens <= Cap(l) && b.last == b.lastSeen <= now
  }

  ghost predicate LimiterOK(c: Config, s: Limiter, now: real) {
    && (forall id: nat :: BucketOK(s.clients(id), c.client, now))
    && (forall id: nat :: BucketOK(s.topics(id), c.topic, now))
  }

  lemma LevelBounds(b: Bucket, l: Limits, now: real)
    requires b.Bucket? ==> 0.0 <= b.tokens
    ensures 0.0 <= Level(b, l, now) <= Cap(l)
  {
    if b.Bucket? {
      InflowAdds(l, now - b.last, 0.0);
    }
  }

  lemma StepOK(c: Config, s: Limiter, step: Step, before: real)
    requires LimiterOK(c, s, before) && before <= step.now
    ensures LimiterOK(c, Apply(c, s, step).0, step.now)
  {
    forall id: nat ensures BucketOK(s.clients(id), c.client, step.now) && BucketOK(s.topics(id), c.topic, step.now) {
    }
    if step.Allow? || step.AllowClient? {
      LevelBounds(s.clients(step.client), c.client, step.now);
    }
    if step.Allow? || step.AllowTopic? {
      LevelBounds(s.topics(step.topic), c.topic, step.now);
    }
  }

  /** In every run every bucket holds between zero and its burst, refunds included. */
  lemma {:induction false} TokensStayInBounds(c: Config, steps: seq<Step>, now: real)
    requires Monotone(steps) && (steps != [] ==> steps[|steps| - 1].now <= now)
    ensures LimiterOK(c, Exec(c, steps), now)
  {
    hide Apply;
    if steps != [] {
      var front, step := steps[..|steps| - 1], steps[|steps| - 1];
      TokensStayInBounds(c, front, step.now);
      StepOK(c, Exec(c, front), step, step.now);
      Later(c, Exec(c, steps), step.now, now);
    }
  }

  lemma Later(c: Config, s: Limiter, before: real, now: real)
    requires LimiterOK(c, s, before) && before <= now
    ensures LimiterOK(c, s, now)
  {
    forall id: nat ensures BucketOK(s.clients(id), c.client, now) && BucketOK(s.topics(id), c.topic, now) {
      assert BucketOK(s.clients(id), c.client, before) && BucketOK(s.topics(id), c.topic, before);
    }
  }

  // ---------------------------------------------------------------------
  // How many requests are granted

  datatype Side = Client | Topic

  function BucketOf(s: Limiter, side: Side, id: nat): Bucket {
    if side.Client? then s.clients(id) else s.topics(id)
  }

  function LimitsOf(c: Config, side: Side): Limits {
    if side.Client? then c.client else c.topic
  }

  /** The step is a request that counts against this client or topic. */
  predicate Concerns(step: Step, side: Side, id: nat) {
    match step
    case Allow(client, topic, _) => if side.Client? then client == id else topic == id
    case AllowClient(client, _) => side.Client? && client == id
    case AllowTopic(topic, _) => side.Topic? && topic == id
    case Evict(_) => false
  }

  /** Granted requests for one client or topic among the steps from the `i`-th on. */
  function Grants(c: Config, steps: seq<Step>, i: nat, side: Side, id: nat): nat {
    if |steps| <= i then 0
    else
      Grants(c, steps[..|steps| - 1], i, side, id)
      + if Concerns(steps[|steps| - 1], side, id) && Granted(c, steps) then 1 else 0
  }

  /** An idle bucket has refilled by the time it may be evicted. */
  predicate RefillsInTime(c: Config, side: Side) {
    var l := LimitsOf(c, side);
    c.ttl * NotNegative(l.rate) as real >= AtLeastOne(l.burst) as real
  }

  lemma LevelGrows(b: Bucket, l: Limits, t: real, u: real)
    requires t <= u && (b.Bucket? ==> b.last <= t)
    ensures Level(b, l, u) <= Level(b, l, t) + Inflow(l, u - t)
  {
    hide Inflow;
    InflowAdds(l, u - t, if b.Bucket? then t - b.last else 0.0);
    if b.Bucket? {
      assert u - t + (t - b.last) == u - b.last;
      InflowAdds(l, 0.0, t - b.last);
    }
  }

  /** A bucket touched now has exactly its tokens. */
  lemma LevelNow(tokens: real, l: Limits, now: real)
    requires tokens <= Cap(l)
    ensures Level(Bucket(tokens, now, now), l, now) == tokens
  {
  }

  /** A grant costs one token; a denial, refunded or not, costs nothing. */
  lemma StepCost(c: Config, s: Limiter, step: Step, side: Side, id: nat)
    requires !step.Evict?
    ensures var (after, ok) := Apply(c, s, step);
            Level(BucketOf(after, side, id), LimitsOf(c, side), step.now)
            == Level(BucketOf(s, side, id), LimitsOf(c, side), step.now)
               - (if Concerns(step, side, id) && ok then 1.0 else 0.0)
  {
    var l, level := LimitsOf(c, side), Level(BucketOf(s, side, id), LimitsOf(c, side), step.now);
    LevelNow(level, l, step.now);
    LevelNow(level - 1.0, l, step.now);
  }

  lemma TtlIsPositive(c: Config, side: Side)
    requires RefillsInTime(c, side)
    ensures c.ttl > 0.0
  {
    InflowAdds(LimitsOf(c, side), -c.ttl, c.ttl);
  }

  /** An idle bucket that refills in time is full when it is evicted. */
  lemma EvictionIsSilent(c: Config, b: Bucket, side: Side, now: real)
    requires RefillsInTime(c, side) && BucketOK(b, LimitsOf(c, side), now)
    ensures Level(Evicted(b, c.ttl, now), LimitsOf(c, side), now) == Level(b, LimitsOf(c, side), now)
  {
    hide Inflow;
    TtlIsPositive(c, side);
    InConfigured(LimitsOf(c, side), c.ttl);
    if Idle(b, c.ttl, now) {
      InflowAdds(LimitsOf(c, side), now - b.last - c.ttl, c.ttl);
      assert now - b.last - c.ttl + c.ttl == now - b.last;
    }
  }

  ghost predicate NoEviction(steps: seq<Step>) {
    forall i :: 0 <= i < |steps| ==> !steps[i].Evict?
  }

  /** What is left in the bucket plus what was granted never exceeds the burst plus the refill. */
  lemma {:induction false} GrantsAndLevel(c: Config, steps: seq<Step>, i: nat, side: Side, id: nat)
    requires Monotone(steps) && i < |steps| && (RefillsInTime(c, side) || NoEviction(steps))
    ensures var now := steps[|steps| - 1].now;
            var l := LimitsOf(c, side);
            Grants(c, steps, i, side, id) as real + Level(BucketOf(Exec(c, steps), side, id), l, now)
            <= Cap(l) + Inflow(l, now - steps[i].now)
  {
    hide Apply, Level, BucketOf, Inflow, Cap;
    var front, step, l := steps[..|steps| - 1], steps[|steps| - 1], LimitsOf(c, side);
    var s, now := Exec(c, front), step.now;
    TokensStayInBounds(c, front, now);
    BucketIsOK(c, s, side, id, now);
    LevelBounds(BucketOf(s, side, id), l, now);
    if step.Evict? {
      EvictStep(c, s, side, id, now);
    } else {
      StepCost(c, s, step, side, id);
    }
    if i < |front| {
      var before := front[|front| - 1].now;
      assert NoEviction(steps) ==> NoEviction(front);
      GrantsAndLevel(c, front, i, side, id);
      TokensStayInBounds(c, front, before);
      BucketIsOK(c, s, side, id, before);
      LevelGrows(BucketOf(s, side, id), l, before, now);
      InflowAdds(l, before - steps[i].now, now - before);
      assert before - steps[i].now + (now - before) == now - steps[i].now;
    } else {
      InflowAdds(l, now - steps[i].now, 0.0);
    }
  }

  lemma BucketIsOK(c: Config, s: Limiter, side: Side, id: nat, now: real)
    requires LimiterOK(c, s, now)
    ensures BucketOK(BucketOf(s, side, id), LimitsOf(c, side), now)
  {
    assert BucketOK(s.clients(id), c.client, now) && BucketOK(s.topics(id), c.topic, now);
  }

  lemma EvictStep(c: Config, s: Limiter, side: Side, id: nat, now: real)
    requires RefillsInTime(c, side) && BucketOK(BucketOf(s, side, id), LimitsOf(c, side), now)
    ensures var after := Apply(c, s, Evict(now)).0;
            Level(BucketOf(after, side, id), LimitsOf(c, side), now)
            == Level(BucketOf(s, side, id), LimitsOf(c, side), now)
  {
    EvictionIsSilent(c, BucketOf(s, side, id), side, now);
  }

  /** From the `i`-th step of a run on, one client or topic is granted at most its burst plus what its rate
      gives for the time since. */
  ghost predicate WithinBound(c: Config, steps: seq<Step>, i: nat, side: Side, id: nat)
    requires i < |steps|
  {
    var l, elapsed := LimitsOf(c, side), steps[|steps| - 1].now - steps[i].now;
    Grants(c, steps, i, side, id) as real <= AtLeastOne(l.burst) as real + elapsed * NotNegative(l.rate) as real
  }

  /** The bound holds between any two steps of every run without evictions, and of every run at all if
      idle buckets refill within the time to live. GrantsBoundedExactly says that this is the exact condition. */
  lemma GrantsAreBounded(c: Config, steps: seq<Step>, i: nat, side: Side, id: nat)
    requires Monotone(steps) && i < |steps| && (RefillsInTime(c, side) || NoEviction(steps))
    ensures WithinBound(c, steps, i, side, id)
  {
    hide Apply, Level, BucketOf, Cap, Inflow, NotNegative, AtLeastOne, Grants;
    GrantsAndLevel(c, steps, i, side, id);
    var now := steps[|steps| - 1].now;
    InConfigured(LimitsOf(c, side), now - steps[i].now);
    TokensStayInBounds(c, steps, now);
    BucketIsOK(c, Exec(c, steps), side, id, now);
    LevelBounds(BucketOf(Exec(c, steps), side, id), LimitsOf(c, side), now);
  }

  // ---------------------------------------------------------------------
  // Eviction cannot be noticed

  /** The answers to the requests of a run. */
  function Answers(c: Config, steps: seq<Step>): seq<bool> {
    if steps == [] then []
    else if steps[|steps| - 1].Evict? then Answers(c, steps[..|steps| - 1])
    else Answers(c, steps[..|steps| - 1]) + [Granted(c, steps)]
  }

  /** The run with the evictions left out. */
  function Requests(steps: seq<Step>): seq<Step> {
    if steps == [] then []
    else if steps[|steps| - 1].Evict? then Requests(steps[..|steps| - 1])
    else Requests(steps[..|steps| - 1]) + [steps[|steps| - 1]]
  }

  ghost predicate Unobservable(c: Config) {
    forall steps: seq<Step> :: Monotone(steps) ==> Answers(c, steps) == Answers(c, Requests(steps))
  }

  /** Two limiters with the same tokens everywhere. */
  ghost predicate SameLevels(c: Config, s: Limiter, u: Limiter, now: real) {
    && LimiterOK(c, s, now) && LimiterOK(c, u, now)
    && forall side: Side, id: nat ::
         Level(BucketOf(s, side, id), LimitsOf(c, side), now) == Level(BucketOf(u, side, id), LimitsOf(c, side), now)
  }

  lemma LevelLater(b: Bucket, l: Limits, t: real, u: real)
    requires t <= u && BucketOK(b, l, t)
    ensures Level(b, l, u) == Min(Level(b, l, t) + Inflow(l, u - t), Cap(l))
  {
    hide Inflow;
    InflowAdds(l, u - t, if b.Bucket? then t - b.last else 0.0);
    if b.Bucket? {
      assert u - t + (t - b.last) == u - b.last;
      InflowAdds(l, 0.0, t - b.last);
    }
  }

  lemma SameLater(c: Config, s: Limiter, u: Limiter, before: real, now: real)
    requires SameLevels(c, s, u, before) && before <= now
    ensures SameLevels(c, s, u, now)
  {
    hide Level, BucketOf, BucketOK;
    Later(c, s, before, now);
    Later(c, u, before, now);
    forall side: Side, id: nat
      ensures Level(BucketOf(s, side, id), LimitsOf(c, side), now)
           == Level(BucketOf(u, side, id), LimitsOf(c, side), now)
    {
      BucketIsOK(c, s, side, id, before);
      BucketIsOK(c, u, side, id, before);
      LevelLater(BucketOf(s, side, id), LimitsOf(c, side), before, now);
      LevelLater(BucketOf(u, side, id), LimitsOf(c, side), before, now);
    }
  }

  /** Answers depend on levels only. */
  lemma SameAnswer(c: Config, s: Limiter, u: Limiter, step: Step)
    requires SameLevels(c, s, u, step.now) && !step.Evict?
    ensures Apply(c, s, step).1 == Apply(c, u, step).1
  {
    hide Level;
    if step.Allow? || step.AllowClient? {
      SameAt(c, s, u, Client, step.client, step.now);
    }
    if step.Allow? || step.AllowTopic? {
      SameAt(c, s, u, Topic, step.topic, step.now);
    }
  }

  lemma SameAt(c: Config, s: Limiter, u: Limiter, side: Side, id: nat, now: real)
    requires SameLevels(c, s, u, now)
    ensures Level(BucketOf(s, side, id), LimitsOf(c, side), now) == Level(BucketOf(u, side, id), LimitsOf(c, side), now)
  {
  }

  lemma SameStep(c: Config, s: Limiter, u: Limiter, step: Step)
    requires SameLevels(c, s, u, step.now) && !step.Evict?
    ensures SameLevels(c, Apply(c, s, step).0, Apply(c, u, step).0, step.now)
  {
    hide Level, BucketOf, Apply, LimiterOK;
    var s', u' := Apply(c, s, step).0, Apply(c, u, step).0;
    StepOK(c, s, step, step.now);
    StepOK(c, u, step, step.now);
    SameAnswer(c, s, u, step);
    forall side: Side, id: nat
      ensures Level(BucketOf(s', side, id), LimitsOf(c, side), step.now)
           == Level(BucketOf(u', side, id), LimitsOf(c, side), step.now)
    {
      StepCost(c, s, step, side, id);
      StepCost(c, u, step, side, id);
      SameAt(c, s, u, side, id, step.now);
    }
  }

  lemma SameEvict(c: Config, s: Limiter, u: Limiter, now: real)
    requires SameLevels(c, s, u, now) && RefillsInTime(c, Client) && RefillsInTime(c, Topic)
    ensures SameLevels(c, Apply(c, s, Evict(now)).0, u, now)
  {
    hide Level, BucketOf, Apply, RefillsInTime;
    var s' := Apply(c, s, Evict(now)).0;
    StepOK(c, s, Evict(now), now);
    forall side: Side, id: nat
      ensures Level(BucketOf(s', side, id), LimitsOf(c, side), now)
           == Level(BucketOf(u, side, id), LimitsOf(c, side), now)
    {
      BucketIsOK(c, s, side, id, now);
      EvictStep(c, s, side, id, now);
      SameAt(c, s, u, side, id, now);
    }
  }

  lemma {:induction false} EvictionsDoNotShow(c: Config, steps: seq<Step>, now: real)
    requires Monotone(steps) && (steps != [] ==> steps[|steps| - 1].now <= now)
    requires RefillsInTime(c, Client) && RefillsInTime(c, Topic)
    ensures Answers(c, steps) == Answers(c, Requests(steps))
    ensures SameLevels(c, Exec(c, steps), Exec(c, Requests(steps)), now)
  {
    hide Apply, SameLevels, RefillsInTime;
    if steps == [] {
      FreshSame(c, now);
    } else {
      var front, step := steps[..|steps| - 1], steps[|steps| - 1];
      EvictionsDoNotShow(c, front, step.now);
      var s, u := Exec(c, front), Exec(c, Requests(front));
      if step.Evict? {
        SameEvict(c, s, u, step.now);
      } else {
        assert Requests(steps)[..|Requests(front)|] == Requests(front);
        SameAnswer(c, s, u, step);
        SameStep(c, s, u, step);
      }
      SameLater(c, Exec(c, steps), Exec(c, Requests(steps)), step.now, now);
    }
  }

  lemma FreshSame(c: Config, now: real)
    ensures SameLevels(c, Fresh(), Fresh(), now)
  {
  }

  // ---------------------------------------------------------------------
  // ... exactly when idle buckets refill in time

  /** A request of client or topic 0. */
  function Ask(side: Side, now: real): Step {
    if side.Client? then AllowClient(0, now) else AllowTopic(0, now)
  }

  function Asks(side: Side, n: nat, now: real): seq<Step> {
    seq(n, _ => Ask(side, now))
  }

  function Yes(n: nat): seq<bool> {
    seq(n, _ => true)
  }

  function LevelOf(c: Config, steps: seq<Step>, side: Side, now: real): real {
    Level(BucketOf(Exec(c, steps), side, 0), LimitsOf(c, side), now)
  }

  lemma OneAsk(c: Config, steps: seq<Step>, side: Side, now: real)
    ensures var run := steps + [Ask(side, now)];
            && Granted(c, run) == (LevelOf(c, steps, side, now) >= 1.0)
            && LevelOf(c, run, side, now) == LevelOf(c, steps, side, now) - (if Granted(c, run) then 1.0 else 0.0)
            && Answers(c, run) == Answers(c, steps) + [Granted(c, run)]
  {
    var run := steps + [Ask(side, now)];
    assert run[..|steps|] == steps;
    StepCost(c, Exec(c, steps), Ask(side, now), side, 0);
  }

  /** As many requests as there are tokens are all granted. */
  lemma {:induction false} EnoughTokens(c: Config, steps: seq<Step>, side: Side, n: nat, now: real)
    requires LevelOf(c, steps, side, now) >= n as real
    ensures LevelOf(c, steps + Asks(side, n, now), side, now) == LevelOf(c, steps, side, now) - n as real
    ensures Answers(c, steps + Asks(side, n, now)) == Answers(c, steps) + Yes(n)
  {
    hide LevelOf, Answers, Granted;
    if n == 0 {
      assert steps + Asks(side, 0, now) == steps;
    } else {
      EnoughTokens(c, steps, side, n - 1, now);
      var run := steps + Asks(side, n - 1, now);
      OneAsk(c, run, side, now);
      assert steps + Asks(side, n, now) == run + [Ask(side, now)];
      assert Yes(n) == Yes(n - 1) + [true];
    }
  }

  /** Conversely, if all were granted the tokens were there. */
  lemma {:induction false} AllGranted(c: Config, steps: seq<Step>, side: Side, n: nat, now: real)
    requires Monotone(steps + Asks(side, n, now)) && (steps != [] ==> steps[|steps| - 1].now <= now)
    requires Answers(c, steps + Asks(side, n, now)) == Answers(c, steps) + Yes(n)
    ensures LevelOf(c, steps + Asks(side, n, now), side, now) == LevelOf(c, steps, side, now) - n as real
    ensures LevelOf(c, steps, side, now) >= n as real
  {
    hide Answers, Granted, Level, BucketOf;
    var all := steps + Asks(side, n, now);
    if n == 0 {
      assert all == steps;
    } else {
      var run := steps + Asks(side, n - 1, now);
      assert all == run + [Ask(side, now)];
      OneAsk(c, run, side, now);
      assert Yes(n) == Yes(n - 1) + [true];
      assert Answers(c, run) + [Granted(c, all)] == (Answers(c, steps) + Yes(n - 1)) + [true];
      SameInit(Answers(c, run), Granted(c, all), Answers(c, steps) + Yes(n - 1), true);
      assert Monotone(run) by { assert forall i :: 0 <= i < |run| ==> run[i] == all[i]; }
      AllGranted(c, steps, side, n - 1, now);
    }
    TokensStayInBounds(c, all, now);
    BucketIsOK(c, Exec(c, all), side, 0, now);
    LevelBounds(BucketOf(Exec(c, all), side, 0), LimitsOf(c, side), now);
  }

  /** A moment after the time to live by which an empty bucket is not full again. */
  lemma TooSoon(c: Config, side: Side) returns (e: real)
    requires c.ttl > 0.0 && !RefillsInTime(c, side)
    ensures e > c.ttl && Inflow(LimitsOf(c, side), e) < Cap(LimitsOf(c, side))
  {
    var l := LimitsOf(c, side);
    if Rate(l) == 0.0 {
      e := c.ttl + 1.0;
    } else {
      var gap := Cap(l) - c.ttl * Rate(l);
      e := c.ttl + gap / Rate(l) / 2.0;
      assert gap / Rate(l) * Rate(l) == gap;
      assert gap / Rate(l) > 0.0 by { Positive(gap, Rate(l)); }
      assert Inflow(l, e) == c.ttl * Rate(l) + gap / 2.0;
    }
  }

  lemma Positive(a: real, b: real)
    requires a > 0.0 && b > 0.0
    ensures a / b > 0.0
  {
  }

  lemma SameInit(a: seq<bool>, x: bool, b: seq<bool>, y: bool)
    requires a + [x] == b + [y]
    ensures a == b && x == y
  {
    assert (a + [x])[..|a|] == a && (b + [y])[..|b|] == b;
    assert (a + [x])[|a|] == x && (b + [y])[|b|] == y;
  }

  lemma {:induction false} AsksAreRequests(steps: seq<Step>, side: Side, n: nat, now: real)
    ensures Requests(steps + Asks(side, n, now)) == Requests(steps) + Asks(side, n, now)
  {
    var run := steps + Asks(side, n, now);
    if n == 0 {
      assert run == steps && Asks(side, 0, now) == [];
    } else {
      AsksAreRequests(steps, side, n - 1, now);
      assert run[..|run| - 1] == steps + Asks(side, n - 1, now);
      assert Asks(side, n, now) == Asks(side, n - 1, now) + [Ask(side, now)];
    }
  }

  /** The bucket after its whole burst was taken at time zero. */
  ghost predicate DrainedAt(b: Bucket) {
    b == Bucket(0.0, 0.0, 0.0)
  }

  lemma {:induction false} Draining(c: Config, side: Side, n: nat)
    requires n <= AtLeastOne(LimitsOf(c, side).burst)
    ensures BucketOf(Exec(c, Asks(side, n, 0.0)), side, 0)
         == if n == 0 then Unused else Bucket(Cap(LimitsOf(c, side)) - n as real, 0.0, 0.0)
  {
    var run := Asks(side, n, 0.0);
    if n > 0 {
      Draining(c, side, n - 1);
      assert run[..n - 1] == Asks(side, n - 1, 0.0);
    }
  }

  lemma Drained(c: Config, side: Side, n: nat)
    requires n == AtLeastOne(LimitsOf(c, side).burst)
    ensures DrainedAt(BucketOf(Exec(c, Asks(side, n, 0.0)), side, 0))
  {
    Draining(c, side, n);
  }

  lemma AfterEviction(c: Config, side: Side, n: nat, e: real)
    requires n == AtLeastOne(LimitsOf(c, side).burst) && e > c.ttl > 0.0
    requires DrainedAt(BucketOf(Exec(c, Asks(side, n, 0.0)), side, 0))
    ensures LevelOf(c, Asks(side, n, 0.0) + [Evict(e)], side, e) == n as real
  {
    var drain := Asks(side, n, 0.0);
    assert (drain + [Evict(e)])[..|drain|] == drain;
  }

  lemma NotFull(c: Config, side: Side, n: nat, e: real)
    requires n == AtLeastOne(LimitsOf(c, side).burst) && e > 0.0
    requires Inflow(LimitsOf(c, side), e) < Cap(LimitsOf(c, side))
    requires DrainedAt(BucketOf(Exec(c, Asks(side, n, 0.0)), side, 0))
    ensures LevelOf(c, Asks(side, n, 0.0), side, e) < n as real
  {
    hide Inflow;
    assert e - 0.0 == e;
  }

  /** Drain a bucket, evict it too soon, and drain it again: only the evicted one keeps granting. */
  lemma EvictionShows(c: Config, side: Side) returns (steps: seq<Step>)
    requires c.ttl > 0.0 && !RefillsInTime(c, side)
    ensures Monotone(steps) && Answers(c, steps) != Answers(c, Requests(steps))
  {
    hide Answers, Granted, Requests, RefillsInTime, LevelOf, Inflow;
    var e := TooSoon(c, side);
    var n := AtLeastOne(LimitsOf(c, side).burst);
    var drain, again := Asks(side, n, 0.0), Asks(side, n, e);
    var evicted := drain + [Evict(e)];
    steps := evicted + again;
    assert Monotone(steps);
    Drained(c, side, n);
    AfterEviction(c, side, n, e);
    EnoughTokens(c, evicted, side, n, e);
    RequestsOfDrain(side, n, e);
    assert Requests(steps) == drain + again by { AsksAreRequests(evicted, side, n, e); }
    assert Answers(c, evicted) == Answers(c, drain) by { EvictionAnswersNothing(c, drain, e); }
    if Answers(c, drain + again) == Answers(c, drain) + Yes(n) {
      assert Monotone(drain + again);
      AllGranted(c, drain, side, n, e);
      NotFull(c, side, n, e);
    }
  }

  lemma GrantsMore(c: Config, run: seq<Step>, side: Side, now: real)
    ensures var all := run + [Ask(side, now)];
            Grants(c, all, 0, side, 0) == Grants(c, run, 0, side, 0) + (if Granted(c, all) then 1 else 0)
  {
    hide Granted;
    assert (run + [Ask(side, now)])[..|run|] == run;
  }

  lemma AsksMore(steps: seq<Step>, side: Side, n: nat, now: real)
    requires n > 0
    ensures steps + Asks(side, n, now) == steps + Asks(side, n - 1, now) + [Ask(side, now)]
    ensures steps + Asks(side, 0, now) == steps
  {
    hide Ask;
  }

  /** Where tokens suffice every request counts as a grant. */
  lemma {:induction false} EnoughGrants(c: Config, steps: seq<Step>, side: Side, n: nat, now: real)
    requires LevelOf(c, steps, side, now) >= n as real
    ensures Grants(c, steps + Asks(side, n, now), 0, side, 0) == Grants(c, steps, 0, side, 0) + n
  {
    hide LevelOf, Granted, Grants, Asks, Answers;
    AsksMore(steps, side, if n == 0 then 1 else n, now);
    if n > 0 {
      EnoughTokens(c, steps, side, n - 1, now);
      EnoughGrants(c, steps, side, n - 1, now);
      var run := steps + Asks(side, n - 1, now);
      OneAsk(c, run, side, now);
      GrantsMore(c, run, side, now);
    }
  }

  // ---------------------------------------------------------------------
  // The bound is tight

  /** However many requests come at one moment, exactly as many are granted as there are whole tokens. */
  lemma {:induction false} AsksGrantExactly(c: Config, steps: seq<Step>, side: Side, n: nat, now: real)
    requires LevelOf(c, steps, side, now) >= 0.0
    ensures var all, whole := steps + Asks(side, n, now), LevelOf(c, steps, side, now).Floor;
            var granted := if n < whole then n else whole;
            && Grants(c, all, 0, side, 0) == Grants(c, steps, 0, side, 0) + granted
            && LevelOf(c, all, side, now) == LevelOf(c, steps, side, now) - granted as real
  {
    hide LevelOf, Granted, Grants, Asks;
    AsksMore(steps, side, if n == 0 then 1 else n, now);
    if n > 0 {
      AsksGrantExactly(c, steps, side, n - 1, now);
      var run := steps + Asks(side, n - 1, now);
      OneAsk(c, run, side, now);
      GrantsMore(c, run, side, now);
    }
  }

  /** A bucket drained to the last token and left alone for `d` seconds grants exactly the whole tokens of its rate
      times `d`, up to its burst. */
  lemma DrainedGrantsExactly(c: Config, side: Side, d: real, n: nat)
    requires d > 0.0
    ensures var l := LimitsOf(c, side);
            var drain := Asks(side, AtLeastOne(l.burst), 0.0);
            var whole := Min(AtLeastOne(l.burst) as real, d * NotNegative(l.rate) as real).Floor;
            Grants(c, drain + Asks(side, n, d), 0, side, 0)
            == AtLeastOne(l.burst) + if n < whole then n else whole
  {
    hide LevelOf, Granted, Grants, Asks;
    var l := LimitsOf(c, side);
    var burst := AtLeastOne(l.burst);
    var drain := Asks(side, burst, 0.0);
    FullAtFirst(c, side, burst);
    EnoughGrants(c, [], side, burst, 0.0);
    assert [] + drain == drain;
    Drained(c, side, burst);
    LevelAfter(c, side, d);
    AsksGrantExactly(c, drain, side, n, d);
  }

  lemma LevelAfter(c: Config, side: Side, d: real)
    requires d > 0.0 && DrainedAt(BucketOf(Exec(c, Asks(side, AtLeastOne(LimitsOf(c, side).burst), 0.0)), side, 0))
    ensures var l := LimitsOf(c, side);
            LevelOf(c, Asks(side, AtLeastOne(l.burst), 0.0), side, d)
            == Min(AtLeastOne(l.burst) as real, d * NotNegative(l.rate) as real) >= 0.0
  {
    var l := LimitsOf(c, side);
    InflowAdds(l, d, 0.0);
    assert d - 0.0 == d;
  }

  lemma EvictionIsNoGrant(c: Config, steps: seq<Step>, side: Side, now: real)
    ensures Grants(c, steps + [Evict(now)], 0, side, 0) == Grants(c, steps, 0, side, 0)
  {
    hide Granted;
    assert (steps + [Evict(now)])[..|steps|] == steps;
  }

  /** Drain a bucket, evict it too soon, and drain it again: twice the burst is granted, more than the bound. */
  lemma EvictionGrantsTooMuch(c: Config, side: Side) returns (steps: seq<Step>)
    requires c.ttl > 0.0 && !RefillsInTime(c, side)
    ensures Monotone(steps) && steps != [] && !WithinBound(c, steps, 0, side, 0)
  {
    hide Granted, RefillsInTime, LevelOf, Inflow, Grants, Cap, NotNegative, AtLeastOne, Asks, Monotone, Exec, BucketOf;
    var e := TooSoon(c, side);
    InConfigured(LimitsOf(c, side), e);
    var n := AtLeastOne(LimitsOf(c, side).burst);
    var drain, again := Asks(side, n, 0.0), Asks(side, n, e);
    var evicted := drain + [Evict(e)];
    steps := evicted + again;
    assert Monotone(steps) by { DrainsInOrder(side, n, e); }
    Drained(c, side, n);
    AfterEviction(c, side, n, e);
    FullAtFirst(c, side, n);
    EnoughGrants(c, [], side, n, 0.0);
    assert [] + drain == drain;
    EvictionIsNoGrant(c, drain, side, e);
    EnoughGrants(c, evicted, side, n, e);
    assert steps[|steps| - 1].now - steps[0].now == e by { FirstAndLast(side, n, e); }
  }

  lemma DrainsInOrder(side: Side, n: nat, e: real)
    requires e >= 0.0
    ensures Monotone(Asks(side, n, 0.0) + [Evict(e)] + Asks(side, n, e))
  {
  }

  lemma FirstAndLast(side: Side, n: nat, e: real)
    requires n > 0
    ensures var run := Asks(side, n, 0.0) + [Evict(e)] + Asks(side, n, e);
            run[0].now == 0.0 && run[|run| - 1].now == e
  {
  }

  lemma FullAtFirst(c: Config, side: Side, n: nat)
    requires n == AtLeastOne(LimitsOf(c, side).burst)
    ensures LevelOf(c, [], side, 0.0) == n as real && Grants(c, [], 0, side, 0) == 0
  {
  }

  /** Every stretch of every run keeps the bound exactly when buckets refill from empty within the time to
      live. */
  lemma GrantsBoundedExactly(c: Config, side: Side)
    requires c.ttl > 0.0
    ensures (forall steps: seq<Step>, i: nat, id: nat ::
               Monotone(steps) && i < |steps| ==> WithinBound(c, steps, i, side, id))
            <==> RefillsInTime(c, side)
  {
    hide WithinBound, RefillsInTime, Monotone;
    if RefillsInTime(c, side) {
      forall steps: seq<Step>, i: nat, id: nat | Monotone(steps) && i < |steps|
        ensures WithinBound(c, steps, i, side, id)
      {
        GrantsAreBounded(c, steps, i, side, id);
      }
    } else {
      var steps := EvictionGrantsTooMuch(c, side);
      assert Monotone(steps) && 0 < |steps| && !WithinBound(c, steps, 0, side, 0);
    }
  }

  lemma EvictionAnswersNothing(c: Config, steps: seq<Step>, now: real)
    ensures Answers(c, steps + [Evict(now)]) == Answers(c, steps)
  {
    assert (steps + [Evict(now)])[..|steps|] == steps;
  }

  lemma RequestsOfDrain(side: Side, n: nat, e: real)
    ensures Requests(Asks(side, n, 0.0) + [Evict(e)]) == Asks(side, n, 0.0)
  {
    var drain := Asks(side, n, 0.0);
    assert (drain + [Evict(e)])[..|drain|] == drain;
    AsksAreRequests([], side, n, 0.0);
    assert [] + drain == drain;
  }

  /** Eviction of idle buckets can never be noticed exactly when both kinds of bucket refill from empty
      within the time to live. */
  lemma EvictionExactly(c: Config)
    requires c.ttl > 0.0
    ensures Unobservable(c) <==> RefillsInTime(c, Client) && RefillsInTime(c, Topic)
  {
    hide Answers, Requests, RefillsInTime, Monotone;
    if RefillsInTime(c, Client) && RefillsInTime(c, Topic) {
      forall steps: seq<Step> | Monotone(steps) ensures Answers(c, steps) == Answers(c, Requests(steps)) {
        EvictionsDoNotShow(c, steps, if steps == [] then 0.0 else steps[|steps| - 1].now);
      }
    } else {
      var side := if RefillsInTime(c, Client) then Topic else Client;
      var steps := EvictionShows(c, side);
      assert Monotone(steps) && Answers(c, steps) != Answers(c, Requests(steps));
    }
  }

  // ---------------------------------------------------------------------
  // The limiter as the broker holds it

  lemma PutTwice(m: nat -> Bucket, id: nat, b: Bucket, b': Bucket)
    ensures forall x: nat :: Put(Put(m, id, b), id, b')(x) == Put(m, id, b')(x)
  {
  }

  /** A request against both limits, spelt out. */
  lemma StepOfBoth(c: Config, s: Limiter, client: nat, topic: nat, now: real)
    ensures var (cb, yes) := Take(s.clients(client), c.client, now);
            var (tb, also) := Take(s.topics(topic), c.topic, now);
            && cb.Bucket? && Put(s.clients, client, cb)(client) == cb
            && Apply(c, s, Allow(client, topic, now))
               == (if !yes then (s.(clients := Put(s.clients, client, cb)), false)
                   else (Limiter(Put(s.clients, client, if also then cb else Refunded(cb)),
                                 Put(s.topics, topic, tb)), also))
  {
    hide Level;
  }

  class RateLimiter {
    var enabled: bool
    var perClientRPS: int
    var perTopicRPS: int
    var multiplier: int
    var clients: map<nat, TokenBucket>
    var topics: map<nat, TokenBucket>

    /** No bucket is shared. */
    ghost predicate Valid()
      reads this
    {
      && (forall i, j :: i in clients && j in clients && i != j ==> clients[i] != clients[j])
      && (forall i, j :: i in topics && j in topics && i != j ==> topics[i] != topics[j])
      && (forall i, j :: i in clients && j in topics ==> clients[i] != topics[j])
    }

    static ghost function At(m: map<nat, TokenBucket>, id: nat): Bucket
      reads m.Values
    {
      if id in m then m[id].View() else Unused
    }

    ghost predicate Represents(s: Limiter)
      reads this, clients.Values, topics.Values
    {
      forall id: nat :: s.clients(id) == At(clients, id) && s.topics(id) == At(topics, id)
    }

    function Limit(ttl: real): Config
      reads this
    {
      Config(Limits(perClientRPS, ConfiguredBurst(perClientRPS, multiplier)),
             Limits(perTopicRPS, ConfiguredBurst(perTopicRPS, multiplier)), ttl)
    }

    constructor (enabled: bool, perClientRPS: int, perTopicRPS: int, multiplier: int)
      ensures Valid() && Represents(Fresh()) && this.enabled == enabled
      ensures this.perClientRPS == perClientRPS && this.perTopicRPS == perTopicRPS && this.multiplier == multiplier
    {
      this.enabled, this.multiplier := enabled, multiplier;
      this.perClientRPS, this.perTopicRPS := perClientRPS, perTopicRPS;
      clients, topics := map[], map[];
    }

    /** New limits start with no buckets at all. */
    method UpdateLimits(enabled: bool, perClientRPS: int, perTopicRPS: int, multiplier: int)
      modifies this
      ensures Valid() && Represents(Fresh()) && this.enabled == enabled
      ensures this.perClientRPS == perClientRPS && this.perTopicRPS == perTopicRPS && this.multiplier == multiplier
    {
      this.enabled, this.multiplier := enabled, multiplier;
      this.perClientRPS, this.perTopicRPS := perClientRPS, perTopicRPS;
      clients, topics := map[], map[];
    }

    /** Take a token from the client's bucket, made if there is none yet. */
    method TakeClient(id: nat, now: real, ghost s: Limiter) returns (ok: bool)
      requires Valid() && Represents(s)
      modifies this`clients, clients.Values
      ensures Valid() && id in clients && fresh(clients.Values - old(clients.Values))
      ensures var (b, yes) := Take(s.clients(id), Limit(0.0).client, now);
              ok == yes && Represents(s.(clients := Put(s.clients, id, b)))
    {
      hide Take;
      assert s.clients(id) == At(clients, id);
      if id !in clients {
        var made := new TokenBucket();
        clients := clients[id := made];
      }
      ok := clients[id].Allow(perClientRPS, ConfiguredBurst(perClientRPS, multiplier), now);
    }

    method TakeTopic(id: nat, now: real, ghost s: Limiter) returns (ok: bool)
      requires Valid() && Represents(s)
      modifies this`topics, topics.Values
      ensures Valid() && id in topics
      ensures var (b, yes) := Take(s.topics(id), Limit(0.0).topic, now);
              ok == yes && Represents(s.(topics := Put(s.topics, id, b)))
    {
      hide Take;
      assert s.topics(id) == At(topics, id);
      if id !in topics {
        var made := new TokenBucket();
        topics := topics[id := made];
      }
      ok := topics[id].Allow(perTopicRPS, ConfiguredBurst(perTopicRPS, multiplier), now);
    }

    method RefundClient(id: nat, ghost s: Limiter)
      requires Valid() && Represents(s) && id in clients && s.clients(id).Bucket?
      modifies clients.Values
      ensures Valid() && Represents(s.(clients := Put(s.clients, id, Refunded(s.clients(id)))))
    {
      assert s.clients(id) == At(clients, id);
      clients[id].Refund();
    }

    /** One request against both limits; a topic's denial gives the client's token back. */
    method AllowBoth(client: nat, topic: nat, now: real, ghost s: Limiter) returns (ok: bool)
      requires Valid() && Represents(s)
      modifies this`clients, this`topics, clients.Values, topics.Values
      ensures Valid()
      ensures !enabled ==> ok && Represents(s)
      ensures enabled ==> Represents(Apply(Limit(0.0), s, Allow(client, topic, now)).0)
                          && ok == Apply(Limit(0.0), s, Allow(client, topic, now)).1
    {
      hide Level, Represents, Valid, Put, Take;
      if !enabled { return true; }
      StepOfBoth(Limit(0.0), s, client, topic, now);
      ok := TakeClient(client, now, s);
      if !ok { return; }
      ghost var s1 := s.(clients := Put(s.clients, client, Take(s.clients(client), Limit(0.0).client, now).0));
      ok := TakeTopic(topic, now, s1);
      ghost var s2 := s1.(topics := Put(s1.topics, topic, Take(s1.topics(topic), Limit(0.0).topic, now).0));
      if !ok {
        RefundClient(client, s2);
        PutTwice(s.clients, client, s1.clients(client), Refunded(s1.clients(client)));
        SameBuckets(s2.(clients := Put(s2.clients, client, Refunded(s2.clients(client)))),
                    s2.(clients := Put(s.clients, client, Refunded(s1.clients(client)))));
      }
    }

    lemma SameBuckets(s: Limiter, u: Limiter)
      requires Represents(s)
      requires forall id: nat :: s.clients(id) == u.clients(id) && s.topics(id) == u.topics(id)
      ensures Represents(u)
    {
    }

    /** The buckets of one kind that are not idle. */
    static method Busy(m: map<nat, TokenBucket>, ttl: real, now: real) returns (kept: map<nat, TokenBucket>)
      ensures forall id :: id in kept <==> id in m && !Idle(m[id].View(), ttl, now)
      ensures forall id :: id in kept ==> kept[id] == m[id]
    {
      var todo := m.Keys;
      kept := m;
      while todo != {}
        invariant todo <= m.Keys
        invariant forall id :: id in kept <==> id in m && (id in todo || !Idle(m[id].View(), ttl, now))
        invariant forall id :: id in kept ==> kept[id] == m[id]
        decreases todo
      {
        var id :| id in todo;
        if m[id].used && now - m[id].lastSeen > ttl {
          kept := kept - {id};
        }
        todo := todo - {id};
      }
    }

    static lemma BusyIsEvicted(m: map<nat, TokenBucket>, kept: map<nat, TokenBucket>, ttl: real, now: real)
      requires forall id :: id in kept <==> id in m && !Idle(m[id].View(), ttl, now)
      requires forall id :: id in kept ==> kept[id] == m[id]
      ensures forall id: nat :: Evicted(At(m, id), ttl, now) == At(kept, id)
    {
    }

    /** Keep some of the buckets. */
    method Retain(busyClients: map<nat, TokenBucket>, busyTopics: map<nat, TokenBucket>)
      requires Valid()
      requires forall id :: id in busyClients ==> id in clients && busyClients[id] == clients[id]
      requires forall id :: id in busyTopics ==> id in topics && busyTopics[id] == topics[id]
      modifies this`clients, this`topics
      ensures Valid() && clients == busyClients && topics == busyTopics
    {
      clients, topics := busyClients, busyTopics;
    }

    method EvictIdle(ttl: real, now: real, ghost s: Limiter)
      requires Valid() && Represents(s)
      modifies this`clients, this`topics
      ensures Valid() && Represents(Apply(Limit(ttl), s, Evict(now)).0)
    {
      hide Evicted, Idle, Valid, At;
      var busyClients := Busy(clients, ttl, now);
      var busyTopics := Busy(topics, ttl, now);
      BusyIsEvicted(clients, busyClients, ttl, now);
      BusyIsEvicted(topics, busyTopics, ttl, now);
      Retain(busyClients, busyTopics);
    }
  }
}
