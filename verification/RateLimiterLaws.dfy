/** How many requests the limiter really admits, over whole runs with any number of pods. */
module RateLimiterLaws {
  import opened Sequences
  import opened RateLimiter

  // ---------------------------------------------------------------------------------------------
  // Counting decisions
  // ---------------------------------------------------------------------------------------------

  function Count(p: Decision -> bool, log: seq<Decision>): nat {
    |Filter(p, log)|
  }

  /** Admitted under the limit, not failed open. */
  function Admitted(log: seq<Decision>, k: Key): nat {
    Count((d: Decision) => d.key == k && d.allowed && !d.open, log)
  }

  /** INCRs that ran. */
  function Counted(log: seq<Decision>, k: Key): nat {
    Count((d: Decision) => d.key == k && d.counted, log)
  }

  /** The two instants by which requests can be counted: when the pod read its clock, and when the limiter let
      the request through or refused it. */
  datatype Instant = Reading | Deciding

  function When(instant: Instant, d: Decision): nat {
    match instant case Reading => d.at case Deciding => d.decided
  }

  predicate InWindow(instant: Instant, d: Decision, client: string, since: nat, length: nat) {
    d.key.client == client && since <= When(instant, d) < since + length
  }

  function AllowedWithin(instant: Instant, client: string, since: nat, length: nat): Decision -> bool {
    d => InWindow(instant, d, client, since, length) && d.allowed
  }

  function FailedOpenWithin(instant: Instant, client: string, since: nat, length: nat): Decision -> bool {
    d => InWindow(instant, d, client, since, length) && d.open
  }

  /** Requests of a client with their instant in [since, since + length) that were let through. */
  function AllowedIn(log: seq<Decision>, instant: Instant, client: string, since: nat, length: nat): nat {
    Count(AllowedWithin(instant, client, since, length), log)
  }

  function FailedOpenIn(log: seq<Decision>, instant: Instant, client: string, since: nat, length: nat): nat {
    Count(FailedOpenWithin(instant, client, since, length), log)
  }

  lemma CountSnoc(p: Decision -> bool, log: seq<Decision>, d: Decision)
    ensures Count(p, log + [d]) == Count(p, log) + if p(d) then 1 else 0
  {
    assert (log + [d])[..|log|] == log;
  }

  lemma {:induction false} CountUnion(p: Decision -> bool, q: Decision -> bool, r: Decision -> bool, log: seq<Decision>)
    requires forall d :: d in log && p(d) ==> q(d) || r(d)
    ensures Count(p, log) <= Count(q, log) + Count(r, log)
  {
    if log != [] {
      SplitLast(log);
      CountUnion(p, q, r, log[..|log| - 1]);
      assert log[|log| - 1] in log;
    }
  }

  // ---------------------------------------------------------------------------------------------
  // The invariant
  // ---------------------------------------------------------------------------------------------

  /** The counter outlives every request that can still increment it. */
  predicate TTLCovers(cfg: Config) {
    2 * cfg.skew + cfg.delay <= COUNTER_TTL - MINUTE
  }

  /** Twice the skew and the delay fit in a minute. */
  lemma TTLCoversIff(cfg: Config)
    ensures TTLCovers(cfg) <==> 2 * cfg.skew + cfg.delay <= 60000
  {}

  ghost predicate Near(cfg: Config, at: nat, clock: nat) {
    clock <= at + cfg.skew && at <= clock + cfg.skew
  }

  ghost predicate RequestsInv(cfg: Config, s: State) {
    forall id :: id in s.requests ==>
      match s.requests[id]
      case Arrived(k, at, clock) => at <= s.now && Near(cfg, at, clock) && k.bucket == BucketAt(clock)
      case FirstHit(k) => MINUTE * k.bucket <= s.now + cfg.skew
  }

  ghost predicate StoreInv(cfg: Config, s: State) {
    forall k :: k in s.store ==>
      && MINUTE * k.bucket <= s.now + cfg.skew
      && (s.store[k].expiry.Some? ==> s.store[k].expiry.value + cfg.skew >= MINUTE * k.bucket + COUNTER_TTL)
  }

  /** Until the TTL could have run out, a counter holds the number of INCRs that ran. */
  ghost predicate CountInv(cfg: Config, s: State) {
    && (forall k :: Counted(s.log, k) == 0 ==> k !in s.store)
    && (forall k :: Counted(s.log, k) > 0 && s.now + cfg.skew < MINUTE * k.bucket + COUNTER_TTL ==>
          k in s.store && s.store[k].count == Counted(s.log, k))
  }

  ghost predicate AdmissionInv(cfg: Config, s: State) {
    forall k :: Admitted(s.log, k) <= Counted(s.log, k) && Admitted(s.log, k) <= cfg.rpm
  }

  /** Decided within the delay of the clock reading. */
  ghost predicate Prompt(cfg: Config, d: Decision) {
    d.at <= d.decided <= d.at + cfg.delay
  }

  ghost predicate LogInv(cfg: Config, s: State) {
    forall d :: d in s.log ==>
      Near(cfg, d.at, d.clock) && d.key.bucket == BucketAt(d.clock) && (!d.open ==> Prompt(cfg, d))
  }

  ghost predicate Inv(cfg: Config, s: State) {
    RequestsInv(cfg, s) && StoreInv(cfg, s) && CountInv(cfg, s) && AdmissionInv(cfg, s) && LogInv(cfg, s)
  }

  lemma BucketBounds(clock: nat)
    ensures MINUTE * BucketAt(clock) <= clock < MINUTE * BucketAt(clock) + MINUTE
    ensures BucketAt(clock) == clock / MINUTE
  {}

  lemma CountsAfter(log: seq<Decision>, d: Decision, k: Key)
    ensures Counted(log + [d], k) == Counted(log, k) + if d.key == k && d.counted then 1 else 0
    ensures Admitted(log + [d], k) == Admitted(log, k) + if d.key == k && d.allowed && !d.open then 1 else 0
  {
    CountSnoc((d: Decision) => d.key == k && d.counted, log, d);
    CountSnoc((d: Decision) => d.key == k && d.allowed && !d.open, log, d);
  }

  /** While an INCR can still run, the TTL has not run out, so the counter holds the true count. */
  lemma IncrSeesTrueCount(cfg: Config, s: State, id: nat)
    requires TTLCovers(cfg) && RequestsInv(cfg, s) && CountInv(cfg, s)
    requires id in s.requests && s.requests[id].Arrived? && s.now <= s.requests[id].at + cfg.delay
    ensures CountOf(s.store, s.requests[id].key) == Counted(s.log, s.requests[id].key)
    ensures MINUTE * s.requests[id].key.bucket <= s.now + cfg.skew
  {
    var r := s.requests[id];
    BucketBounds(r.clock);
    assert s.now + cfg.skew < MINUTE * r.key.bucket + COUNTER_TTL;
    assert Counted(s.log, r.key) == 0 || Counted(s.log, r.key) > 0;
  }

  lemma IncrKeepsCounts(cfg: Config, s: State, id: nat, outcome: IncrOutcome)
    requires TTLCovers(cfg) && Inv(cfg, s) && Enabled(cfg, s, Incr(id, outcome))
    ensures CountInv(cfg, IncrStep(cfg, s, id, outcome)) && AdmissionInv(cfg, IncrStep(cfg, s, id, outcome))
  {
    var s' := IncrStep(cfg, s, id, outcome);
    if !outcome.NotRun? {
      IncrSeesTrueCount(cfg, s, id);
    }
    forall k ensures Counted(s'.log, k) == 0 ==> k !in s'.store
      ensures Counted(s'.log, k) > 0 && s.now + cfg.skew < MINUTE * k.bucket + COUNTER_TTL ==>
        k in s'.store && s'.store[k].count == Counted(s'.log, k)
      ensures Admitted(s'.log, k) <= Counted(s'.log, k) && Admitted(s'.log, k) <= cfg.rpm
    {
      CountsAfter(s.log, s'.log[|s.log|], k);
      assert Admitted(s.log, k) <= Counted(s.log, k) && Admitted(s.log, k) <= cfg.rpm;
    }
  }

  lemma IncrKeepsRest(cfg: Config, s: State, id: nat, outcome: IncrOutcome)
    requires TTLCovers(cfg) && Inv(cfg, s) && Enabled(cfg, s, Incr(id, outcome))
    ensures var s' := IncrStep(cfg, s, id, outcome); RequestsInv(cfg, s') && StoreInv(cfg, s') && LogInv(cfg, s')
  {
    if !outcome.NotRun? {
      IncrSeesTrueCount(cfg, s, id);
    }
  }

  lemma TickKeepsInv(cfg: Config, s: State, d: nat)
    requires Inv(cfg, s)
    ensures Inv(cfg, Next(cfg, s, Tick(d)))
  {}

  lemma ArriveKeepsInv(cfg: Config, s: State, id: nat, clientIP: string, clock: nat)
    requires Inv(cfg, s) && Enabled(cfg, s, Arrive(id, clientIP, clock))
    ensures Inv(cfg, Next(cfg, s, Arrive(id, clientIP, clock)))
  {}

  lemma ExpireKeepsInv(cfg: Config, s: State, id: nat, delivered: bool)
    requires Inv(cfg, s) && Enabled(cfg, s, Expire(id, delivered))
    ensures Inv(cfg, Next(cfg, s, Expire(id, delivered)))
  {}

  lemma EvictKeepsInv(cfg: Config, s: State, k: Key)
    requires Inv(cfg, s) && Enabled(cfg, s, Evict(k))
    ensures Inv(cfg, Next(cfg, s, Evict(k)))
  {}

  lemma StepKeepsInv(cfg: Config, s: State, e: Event)
    requires TTLCovers(cfg) && Inv(cfg, s) && Enabled(cfg, s, e)
    ensures Inv(cfg, Next(cfg, s, e))
  {
    match e {
      case Tick(d) => TickKeepsInv(cfg, s, d);
      case Arrive(id, clientIP, clock) => ArriveKeepsInv(cfg, s, id, clientIP, clock);
      case Incr(id, outcome) =>
        IncrKeepsCounts(cfg, s, id, outcome);
        IncrKeepsRest(cfg, s, id, outcome);
      case Expire(id, delivered) => ExpireKeepsInv(cfg, s, id, delivered);
      case Evict(k) => EvictKeepsInv(cfg, s, k);
    }
  }

  lemma {:induction false} RunKeepsInv(cfg: Config, events: seq<Event>)
    requires TTLCovers(cfg) && Exec(cfg, events).Some?
    ensures Inv(cfg, Exec(cfg, events).value)
  {
    if events != [] {
      RunKeepsInv(cfg, events[..|events| - 1]);
      StepKeepsInv(cfg, Exec(cfg, events[..|events| - 1]).value, events[|events| - 1]);
    }
  }

  // ---------------------------------------------------------------------------------------------
  // Upper bounds
  // ---------------------------------------------------------------------------------------------

  /** Each client and minute admits at most the limit, even if every EXPIRE is late or lost. */
  lemma BucketBound(cfg: Config, events: seq<Event>, k: Key)
    requires TTLCovers(cfg) && Exec(cfg, events).Some?
    ensures Admitted(Exec(cfg, events).value.log, k) <= cfg.rpm
  {
    RunKeepsInv(cfg, events);
  }

  predicate AdmittedOverBuckets(d: Decision, client: string, first: nat, buckets: nat) {
    d.key.client == client && first <= d.key.bucket < first + buckets && d.allowed && !d.open
  }

  /** Admissions of a client over consecutive buckets. */
  function AdmittedOver(log: seq<Decision>, client: string, first: nat, buckets: nat): nat {
    Count((d: Decision) => AdmittedOverBuckets(d, client, first, buckets), log)
  }

  lemma {:induction false} AdmittedOverBound(log: seq<Decision>, client: string, first: nat, buckets: nat, rpm: nat)
    requires forall k :: Admitted(log, k) <= rpm
    ensures AdmittedOver(log, client, first, buckets) <= rpm * buckets
  {
    if buckets == 0 {
      FilterNone((d: Decision) => AdmittedOverBuckets(d, client, first, 0), log);
    } else {
      var n := buckets - 1;
      var k := Key(client, first + n);
      AdmittedOverBound(log, client, first, n, rpm);
      CountUnion((d: Decision) => AdmittedOverBuckets(d, client, first, buckets),
                 (d: Decision) => AdmittedOverBuckets(d, client, first, n),
                 (d: Decision) => d.key == k && d.allowed && !d.open, log);
      assert Admitted(log, k) <= rpm;
      assert rpm * buckets == rpm * n + rpm;
    }
  }

  /** How far a request's instant may lie from its pod's clock reading, beyond the skew. */
  function Lag(cfg: Config, instant: Instant): nat {
    match instant case Reading => 0 case Deciding => cfg.delay
  }

  function MinusOrZero(a: nat, b: nat): nat {
    if a < b then 0 else a - b
  }

  /** The clock readings of requests with their instant in the window lie between these two. */
  function FirstReading(cfg: Config, instant: Instant, since: nat): nat {
    MinusOrZero(since, Lag(cfg, instant) + cfg.skew)
  }

  function LastReading(cfg: Config, since: nat, length: nat): nat
    requires length > 0
  {
    since + length - 1 + cfg.skew
  }

  lemma BucketsOrdered(a: nat, b: nat)
    requires a <= b
    ensures BucketAt(a) <= BucketAt(b)
  {
    BucketBounds(a);
    BucketBounds(b);
  }

  /** The buckets from the first possible reading to the last. */
  function BucketsTouched(cfg: Config, instant: Instant, since: nat, length: nat): nat
    requires length > 0
  {
    var first, last := FirstReading(cfg, instant, since), LastReading(cfg, since, length);
    assert BucketAt(first) <= BucketAt(last) by { BucketsOrdered(first, last); }
    BucketAt(last) - BucketAt(first) + 1
  }

  lemma BucketInRange(cfg: Config, instant: Instant, d: Decision, client: string, since: nat, length: nat)
    requires Near(cfg, d.at, d.clock) && d.key.bucket == BucketAt(d.clock) && Prompt(cfg, d)
    requires length > 0 && InWindow(instant, d, client, since, length)
    ensures BucketAt(FirstReading(cfg, instant, since)) <= d.key.bucket
    ensures d.key.bucket < BucketAt(FirstReading(cfg, instant, since)) + BucketsTouched(cfg, instant, since, length)
  {
    BucketsOrdered(FirstReading(cfg, instant, since), d.clock);
    BucketsOrdered(d.clock, LastReading(cfg, since, length));
  }

  /** In every run, with any number of pods and interleavings, the requests of one client whose clock reading (or
      decision) falls within `length` and that are let through number at most the limit times the minutes their
      readings can touch, plus those that failed open. */
  lemma WindowBound(cfg: Config, events: seq<Event>, instant: Instant, client: string, since: nat, length: nat)
    requires TTLCovers(cfg) && Exec(cfg, events).Some? && length > 0
    ensures var log := Exec(cfg, events).value.log;
      AllowedIn(log, instant, client, since, length)
      <= cfg.rpm * BucketsTouched(cfg, instant, since, length) + FailedOpenIn(log, instant, client, since, length)
  {
    RunKeepsInv(cfg, events);
    var log := Exec(cfg, events).value.log;
    var first := BucketAt(FirstReading(cfg, instant, since));
    var buckets := BucketsTouched(cfg, instant, since, length);
    AdmittedOverBound(log, client, first, buckets, cfg.rpm);
    var inside, admitted := AllowedWithin(instant, client, since, length),
                            (d: Decision) => AdmittedOverBuckets(d, client, first, buckets);
    var failed := FailedOpenWithin(instant, client, since, length);
    forall d | d in log && inside(d) ensures admitted(d) || failed(d) {
      if !d.open {
        BucketInRange(cfg, instant, d, client, since, length);
      }
    }
    CountUnion(inside, admitted, failed, log);
  }

  /** The most minutes that the readings of any window of this length can touch: the readings spread over the
      length, the lag and twice the skew. */
  function MostBuckets(cfg: Config, instant: Instant, length: nat): nat
    requires length > 0
  {
    (length + Lag(cfg, instant) + 2 * cfg.skew + MINUTE - 2) / MINUTE + 1
  }

  lemma FewBucketsTouched(cfg: Config, instant: Instant, since: nat, length: nat)
    requires length > 0
    ensures BucketsTouched(cfg, instant, since, length) <= MostBuckets(cfg, instant, length)
  {
    BucketBounds(FirstReading(cfg, instant, since));
    BucketBounds(LastReading(cfg, since, length));
  }

  lemma Monotone(a: nat, b: nat, c: nat)
    requires b <= c
    ensures a * b <= a * c
  {}

  /** Counted by clock reading, with unskewed clocks: at most rpm * (ceil(length / 60 s) + 1), plus failures. */
  lemma WindowBoundUnskewed(cfg: Config, events: seq<Event>, client: string, since: nat, length: nat)
    requires cfg.skew == 0 && cfg.delay <= MINUTE && Exec(cfg, events).Some? && length > 0
    ensures var log := Exec(cfg, events).value.log;
      AllowedIn(log, Reading, client, since, length)
      <= cfg.rpm * ((length + MINUTE - 1) / MINUTE + 1) + FailedOpenIn(log, Reading, client, since, length)
  {
    WindowBound(cfg, events, Reading, client, since, length);
    FewBucketsTouched(cfg, Reading, since, length);
    Monotone(cfg.rpm, BucketsTouched(cfg, Reading, since, length), (length + MINUTE - 1) / MINUTE + 1);
  }
}
