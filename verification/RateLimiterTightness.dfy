/** The limiter's bounds are exact: runs that reach them, and the clock skew at which they break. */
module RateLimiterTightness {
  import opened Sequences
  import opened RateLimiter
  import opened RateLimiterLaws

  // ---------------------------------------------------------------------------------------------
  // Building runs
  // ---------------------------------------------------------------------------------------------

  lemma Extend(cfg: Config, events: seq<Event>, s: State, e: Event)
    requires Exec(cfg, events) == Some(s) && Enabled(cfg, s, e)
    ensures Exec(cfg, events + [e]) == Some(Next(cfg, s, e))
  {
    assert (events + [e])[..|events|] == events;
  }

  ghost predicate FreeFrom(s: State, base: nat) {
    forall id :: id in s.requests ==> id < base
  }

  /** n requests with numbers from `base` arrived at the same moment. */
  ghost predicate Waiting(s: State, base: nat, n: nat, r: Request) {
    && (forall id :: base <= id < base + n ==> id in s.requests && s.requests[id] == r)
    && (forall id :: id in s.requests ==> id < base + n)
  }

  lemma ArriveMany(cfg: Config, events: seq<Event>, base: nat, n: nat, clientIP: string, clock: nat)
    returns (events': seq<Event>)
    requires Exec(cfg, events).Some? && FreeFrom(Exec(cfg, events).value, base)
    requires Near(cfg, Exec(cfg, events).value.now, clock)
    ensures Exec(cfg, events').Some?
    ensures var s, s' := Exec(cfg, events).value, Exec(cfg, events').value;
      && s' == s.(requests := s'.requests)
      && Waiting(s', base, n, Arrived(Key(ClientKey(clientIP), BucketAt(clock)), s.now, clock))
  {
    var s := Exec(cfg, events).value;
    var r := Arrived(Key(ClientKey(clientIP), BucketAt(clock)), s.now, clock);
    events' := events;
    for i := 0 to n
      invariant Exec(cfg, events').Some?
      invariant var s' := Exec(cfg, events').value; s' == s.(requests := s'.requests) && Waiting(s', base, i, r)
    {
      Extend(cfg, events', Exec(cfg, events').value, Arrive(base + i, clientIP, clock));
      events' := events' + [Arrive(base + i, clientIP, clock)];
    }
  }

  function Copies(d: Decision, n: nat): seq<Decision> {
    seq(n, _ => d)
  }

  /** All of them are answered by a counter that is not there yet, within the limit. */
  lemma IncrMany(cfg: Config, events: seq<Event>, base: nat, n: nat, key: Key, at: nat, clock: nat)
    returns (events': seq<Event>)
    requires Exec(cfg, events).Some? && n <= cfg.rpm
    requires var s := Exec(cfg, events).value;
      Waiting(s, base, n, Arrived(key, at, clock)) && key !in s.store && s.now <= at + cfg.delay
    ensures Exec(cfg, events').Some?
    ensures var s, s' := Exec(cfg, events).value, Exec(cfg, events').value;
      && s'.now == s.now
      && s'.log == s.log + Copies(Decision(key, at, clock, s.now, true, false, true), n)
      && FreeFrom(s', base + n)
      && (forall k :: k != key ==> (k in s'.store <==> k in s.store))
  {
    var s := Exec(cfg, events).value;
    var d := Decision(key, at, clock, s.now, true, false, true);
    events' := events;
    for i := 0 to n
      invariant Exec(cfg, events').Some?
      invariant var s' := Exec(cfg, events').value;
        && s'.now == s.now
        && s'.log == s.log + Copies(d, i)
        && CountOf(s'.store, key) == i && (i == 0 ==> key !in s'.store)
        && (forall id :: base + i <= id < base + n ==> id in s'.requests && s'.requests[id] == Arrived(key, at, clock))
        && FreeFrom(s', base + n)
        && (forall k :: k != key ==> (k in s'.store <==> k in s.store))
    {
      var s' := Exec(cfg, events').value;
      Extend(cfg, events', s', Incr(base + i, Answered));
      events' := events' + [Incr(base + i, Answered)];
      assert Copies(d, i + 1) == Copies(d, i) + [d];
    }
  }

  lemma {:induction false} CountCopies(p: Decision -> bool, log: seq<Decision>, d: Decision, n: nat)
    ensures Count(p, log + Copies(d, n)) == Count(p, log) + if p(d) then n else 0
  {
    if n == 0 {
      assert log + Copies(d, 0) == log;
    } else {
      CountCopies(p, log, d, n - 1);
      CountSnoc(p, log + Copies(d, n - 1), d);
      assert log + Copies(d, n) == log + Copies(d, n - 1) + [d];
    }
  }

  // ---------------------------------------------------------------------------------------------
  // The skew at which a bucket's bound breaks
  // ---------------------------------------------------------------------------------------------

  ghost predicate EveryBucketWithinLimit(cfg: Config) {
    forall events, k | Exec(cfg, events).Some? :: Admitted(Exec(cfg, events).value.log, k) <= cfg.rpm
  }

  /** One request at `now`, counted first, its EXPIRE delivered at once. */
  lemma FirstHitAt(cfg: Config, now: nat, clock: nat) returns (events: seq<Event>)
    requires Near(cfg, now, clock) && cfg.rpm > 0
    ensures var k := Key(ClientKey(""), BucketAt(clock));
      Exec(cfg, events) == Some(State(now, map[k := Counter(1, Some(now + COUNTER_TTL))], map[],
                                      [Decision(k, now, clock, now, true, false, true)]))
  {
    var s := INIT;
    events := [];
    Extend(cfg, events, s, Tick(now));
    events, s := events + [Tick(now)], Next(cfg, s, Tick(now));
    Extend(cfg, events, s, Arrive(0, "", clock));
    events, s := events + [Arrive(0, "", clock)], Next(cfg, s, Arrive(0, "", clock));
    Extend(cfg, events, s, Incr(0, Answered));
    events, s := events + [Incr(0, Answered)], Next(cfg, s, Incr(0, Answered));
    Extend(cfg, events, s, Expire(0, true));
    events, s := events + [Expire(0, true)], Next(cfg, s, Expire(0, true));
    var k := Key(ClientKey(""), BucketAt(clock));
    assert s.store == map[k := Counter(1, Some(now + COUNTER_TTL))];
    assert s.requests == map[];
    assert s.log == [Decision(k, now, clock, now, true, false, true)];
  }

  /** The limit's worth of requests arrive together, wait the full delay, and find the counter just expired. */
  lemma SpendAfterExpiry(cfg: Config, events: seq<Event>, clock: nat, late: nat) returns (events': seq<Event>)
    requires Exec(cfg, events).Some? && Exec(cfg, events).value.requests == map[]
    requires Near(cfg, late, clock) && Exec(cfg, events).value.now <= late
    requires var s, k := Exec(cfg, events).value, Key(ClientKey(""), BucketAt(clock));
      k in s.store && s.store[k].expiry.Some? && s.store[k].expiry.value <= late + cfg.delay
    ensures Exec(cfg, events').Some?
    ensures Exec(cfg, events').value.log == Exec(cfg, events).value.log
      + Copies(Decision(Key(ClientKey(""), BucketAt(clock)), late, clock, late + cfg.delay, true, false, true), cfg.rpm)
  {
    var s, k := Exec(cfg, events).value, Key(ClientKey(""), BucketAt(clock));
    Extend(cfg, events, s, Tick(late - s.now));
    events' := ArriveMany(cfg, events + [Tick(late - s.now)], 0, cfg.rpm, "", clock);
    s := Exec(cfg, events').value;
    Extend(cfg, events', s, Tick(cfg.delay));
    events', s := events' + [Tick(cfg.delay)], Next(cfg, s, Tick(cfg.delay));
    Extend(cfg, events', s, Evict(k));
    events' := events' + [Evict(k)];
    events' := IncrMany(cfg, events', 0, cfg.rpm, k, late, clock);
  }

  lemma CountOneAndCopies(p: Decision -> bool, first: Decision, d: Decision, n: nat)
    requires p(first) && p(d)
    ensures Count(p, [first] + Copies(d, n)) == n + 1
  {
    CountCopies(p, [first], d, n);
    CountSnoc(p, [], first);
    assert [] + [first] == [first];
  }

  /** A counter created by the fastest clock at the start of its minute has expired by the time the slowest
      clock's last requests of that minute reach Redis: they get a fresh counter, and a fresh limit. */
  lemma LateRequestsGetFreshCounter(cfg: Config) returns (events: seq<Event>, k: Key)
    requires !TTLCovers(cfg) && cfg.rpm > 0
    ensures Exec(cfg, events).Some? && Admitted(Exec(cfg, events).value.log, k) == cfg.rpm + 1
  {
    var start := MINUTE * (cfg.skew + 1);
    var end := start + MINUTE - 1;
    BucketBounds(start);
    BucketBounds(end);
    k := Key(ClientKey(""), cfg.skew + 1);
    assert BucketAt(start) == cfg.skew + 1 && BucketAt(end) == cfg.skew + 1;
    events := FirstHitAt(cfg, start - cfg.skew, start);
    events := SpendAfterExpiry(cfg, events, end, end + cfg.skew);
    var first := Decision(k, start - cfg.skew, start, start - cfg.skew, true, false, true);
    var last := Decision(k, end + cfg.skew, end, end + cfg.skew + cfg.delay, true, false, true);
    CountOneAndCopies((d: Decision) => d.key == k && d.allowed && !d.open, first, last, cfg.rpm);
  }

  /** The limit per client and minute holds in every run exactly when twice the skew plus the delay fits in
      the TTL's second minute (skews up to 30 s, if an INCR runs as soon as the clock is read). */
  lemma BucketBoundIff(cfg: Config)
    requires cfg.rpm > 0
    ensures EveryBucketWithinLimit(cfg) <==> TTLCovers(cfg)
    ensures EveryBucketWithinLimit(cfg) <==> 2 * cfg.skew + cfg.delay <= 60000
  {
    if TTLCovers(cfg) {
      forall events, k | Exec(cfg, events).Some? ensures Admitted(Exec(cfg, events).value.log, k) <= cfg.rpm {
        BucketBound(cfg, events, k);
      }
    } else {
      var events, k := LateRequestsGetFreshCounter(cfg);
    }
  }

  // ---------------------------------------------------------------------------------------------
  // A fixed window, not a sliding one
  // ---------------------------------------------------------------------------------------------

  /** When the requests of one minute read the clock, what they read, and when they reach Redis. */
  datatype Visit = Visit(clock: nat, at: nat, decided: nat)

  function Spent(clientIP: string, visit: Visit): Decision {
    Decision(Key(ClientKey(clientIP), BucketAt(visit.clock)), visit.at, visit.clock, visit.decided, true, false, true)
  }

  /** The whole limit of one minute: the requests arrive together, and reach Redis together somewhat later. Two
      counts see it, one that includes these decisions and one that does not. */
  lemma SpendBucket(cfg: Config, events: seq<Event>, base: nat, clientIP: string, visit: Visit,
                    included: Decision -> bool, excluded: Decision -> bool)
    returns (events': seq<Event>)
    requires Exec(cfg, events).Some?
    requires Near(cfg, visit.at, visit.clock) && visit.at <= visit.decided <= visit.at + cfg.delay
    requires var s := Exec(cfg, events).value;
      && s.now <= visit.at && FreeFrom(s, base)
      && Key(ClientKey(clientIP), BucketAt(visit.clock)) !in s.store
    requires included(Spent(clientIP, visit)) && !excluded(Spent(clientIP, visit))
    ensures Exec(cfg, events').Some?
    ensures var s, s' := Exec(cfg, events).value, Exec(cfg, events').value;
      && s'.now == visit.decided
      && Count(included, s'.log) == Count(included, s.log) + cfg.rpm
      && Count(excluded, s'.log) == Count(excluded, s.log)
      && FreeFrom(s', base + cfg.rpm)
      && (forall k :: k in s'.store ==> k in s.store || k == Key(ClientKey(clientIP), BucketAt(visit.clock)))
  {
    var s, key := Exec(cfg, events).value, Key(ClientKey(clientIP), BucketAt(visit.clock));
    Extend(cfg, events, s, Tick(visit.at - s.now));
    events' := ArriveMany(cfg, events + [Tick(visit.at - s.now)], base, cfg.rpm, clientIP, visit.clock);
    var pause := Tick(visit.decided - visit.at);
    Extend(cfg, events', Exec(cfg, events').value, pause);
    events' := IncrMany(cfg, events' + [pause], base, cfg.rpm, key, visit.at, visit.clock);
    CountCopies(included, s.log, Spent(clientIP, visit), cfg.rpm);
    CountCopies(excluded, s.log, Spent(clientIP, visit), cfg.rpm);
  }

  /** The first minute's requests come from the slowest clock, as late as counts; the last minute's from the
      fastest clock; the others at the end of their minute, by the fastest clock. */
  function VisitOf(cfg: Config, instant: Instant, since: nat, length: nat, n: nat): (v: Visit)
    requires TTLCovers(cfg) && length > 0 && n < BucketsTouched(cfg, instant, since, length)
  {
    if n == 0 then
      Visit(FirstReading(cfg, instant, since), MinusOrZero(since, Lag(cfg, instant)), since)
    else
      var b := BucketAt(FirstReading(cfg, instant, since)) + n;
      var clock := if n + 1 < BucketsTouched(cfg, instant, since, length) then MINUTE * b + MINUTE - 1
                   else LastReading(cfg, since, length);
      var at := MinusOrZero(clock, cfg.skew);
      Visit(clock, at, at)
  }

  lemma VisitFits(cfg: Config, instant: Instant, since: nat, length: nat, n: nat)
    requires TTLCovers(cfg) && length > 0 && n < BucketsTouched(cfg, instant, since, length)
    ensures var v := VisitOf(cfg, instant, since, length, n);
      && BucketAt(v.clock) == BucketAt(FirstReading(cfg, instant, since)) + n
      && Near(cfg, v.at, v.clock) && v.at <= v.decided <= v.at + cfg.delay
      && since <= v.decided < since + length
      && (instant.Reading? ==> v.at == v.decided)
  {
    BucketBounds(FirstReading(cfg, instant, since));
    BucketBounds(LastReading(cfg, since, length));
    BucketBounds(VisitOf(cfg, instant, since, length, n).clock);
  }

  lemma VisitsInOrder(cfg: Config, instant: Instant, since: nat, length: nat, n: nat)
    requires TTLCovers(cfg) && length > 0 && n + 1 < BucketsTouched(cfg, instant, since, length)
    ensures VisitOf(cfg, instant, since, length, n).decided <= VisitOf(cfg, instant, since, length, n + 1).at
  {
    VisitFits(cfg, instant, since, length, n);
    VisitFits(cfg, instant, since, length, n + 1);
    BucketBounds(LastReading(cfg, since, length));
  }

  /** So many requests are let through by counters of buckets below `bucket`, and nothing failed. */
  ghost predicate SpentSoFar(instant: Instant, client: string, since: nat, length: nat, s: State, spent: nat,
                             bucket: nat)
  {
    && FreeFrom(s, spent)
    && (forall k :: k in s.store ==> k.bucket < bucket)
    && AllowedIn(s.log, instant, client, since, length) == spent
    && FailedOpenIn(s.log, instant, client, since, length) == 0
  }

  lemma SpendMinute(cfg: Config, instant: Instant, clientIP: string, since: nat, length: nat,
                    events: seq<Event>, spent: nat, visit: Visit)
    returns (events': seq<Event>)
    requires Exec(cfg, events).Some? && Exec(cfg, events).value.now <= visit.at
    requires SpentSoFar(instant, ClientKey(clientIP), since, length, Exec(cfg, events).value,
                        spent, BucketAt(visit.clock))
    requires Near(cfg, visit.at, visit.clock) && visit.at <= visit.decided <= visit.at + cfg.delay
    requires InWindow(instant, Spent(clientIP, visit), ClientKey(clientIP), since, length)
    ensures Exec(cfg, events').Some? && Exec(cfg, events').value.now == visit.decided
    ensures SpentSoFar(instant, ClientKey(clientIP), since, length, Exec(cfg, events').value,
                       spent + cfg.rpm, BucketAt(visit.clock) + 1)
  {
    events' := SpendBucket(cfg, events, spent, clientIP, visit,
                           AllowedWithin(instant, ClientKey(clientIP), since, length),
                           FailedOpenWithin(instant, ClientKey(clientIP), since, length));
  }

  /** Spend the whole limit in every minute that the readings of a window can touch: no failure needed. */
  lemma FullWindow(cfg: Config, instant: Instant, clientIP: string, since: nat, length: nat)
    returns (events: seq<Event>)
    requires TTLCovers(cfg) && length > 0
    ensures Exec(cfg, events).Some?
    ensures var log := Exec(cfg, events).value.log;
      && AllowedIn(log, instant, ClientKey(clientIP), since, length)
         == cfg.rpm * BucketsTouched(cfg, instant, since, length)
      && FailedOpenIn(log, instant, ClientKey(clientIP), since, length) == 0
  {
    var first, touched := BucketAt(FirstReading(cfg, instant, since)), BucketsTouched(cfg, instant, since, length);
    var client := ClientKey(clientIP);
    events := [];
    for n := 0 to touched
      invariant Exec(cfg, events).Some?
      invariant SpentSoFar(instant, client, since, length, Exec(cfg, events).value, cfg.rpm * n, first + n)
      invariant n < touched ==> Exec(cfg, events).value.now <= VisitOf(cfg, instant, since, length, n).at
    {
      VisitFits(cfg, instant, since, length, n);
      assert cfg.rpm * (n + 1) == cfg.rpm * n + cfg.rpm;
      var visit := VisitOf(cfg, instant, since, length, n);
      events := SpendMinute(cfg, instant, clientIP, since, length, events, cfg.rpm * n, visit);
      if n + 1 < touched {
        VisitsInOrder(cfg, instant, since, length, n);
      }
    }
  }

  ghost predicate WindowWithin(cfg: Config, instant: Instant, client: string, since: nat, length: nat, bound: nat) {
    forall events | Exec(cfg, events).Some? ::
      var log := Exec(cfg, events).value.log;
      AllowedIn(log, instant, client, since, length) <= bound + FailedOpenIn(log, instant, client, since, length)
  }

  /** The exact bound for a window, by clock reading or by decision: the limit times the minutes that the
      readings can touch. */
  lemma WindowBoundIff(cfg: Config, instant: Instant, clientIP: string, since: nat, length: nat, bound: nat)
    requires TTLCovers(cfg) && length > 0
    ensures WindowWithin(cfg, instant, ClientKey(clientIP), since, length, bound)
       <==> bound >= cfg.rpm * BucketsTouched(cfg, instant, since, length)
  {
    var client := ClientKey(clientIP);
    if bound >= cfg.rpm * BucketsTouched(cfg, instant, since, length) {
      forall events | Exec(cfg, events).Some?
        ensures var log := Exec(cfg, events).value.log;
          AllowedIn(log, instant, client, since, length) <= bound + FailedOpenIn(log, instant, client, since, length)
      {
        WindowBound(cfg, events, instant, client, since, length);
      }
    } else {
      var events := FullWindow(cfg, instant, clientIP, since, length);
    }
  }

  ghost predicate EveryWindowWithin(cfg: Config, instant: Instant, client: string, length: nat, bound: nat) {
    forall since :: WindowWithin(cfg, instant, client, since, length, bound)
  }

  /** A window whose readings start in the last millisecond of a minute touches the most minutes. */
  lemma MostBucketsReached(cfg: Config, instant: Instant, length: nat)
    requires length > 0
    ensures BucketsTouched(cfg, instant, MINUTE - 1 + Lag(cfg, instant) + cfg.skew, length)
         == MostBuckets(cfg, instant, length)
  {
    var since := MINUTE - 1 + Lag(cfg, instant) + cfg.skew;
    BucketBounds(FirstReading(cfg, instant, since));
    BucketBounds(LastReading(cfg, since, length));
  }

  /** The exact bound for all windows of one length. */
  lemma EveryWindowBoundIff(cfg: Config, instant: Instant, clientIP: string, length: nat, bound: nat)
    requires TTLCovers(cfg) && length > 0
    ensures EveryWindowWithin(cfg, instant, ClientKey(clientIP), length, bound)
       <==> bound >= cfg.rpm * MostBuckets(cfg, instant, length)
  {
    if bound >= cfg.rpm * MostBuckets(cfg, instant, length) {
      forall since ensures WindowWithin(cfg, instant, ClientKey(clientIP), since, length, bound) {
        FewBucketsTouched(cfg, instant, since, length);
        Monotone(cfg.rpm, BucketsTouched(cfg, instant, since, length), MostBuckets(cfg, instant, length));
        WindowBoundIff(cfg, instant, clientIP, since, length, bound);
      }
    } else {
      var since := MINUTE - 1 + Lag(cfg, instant) + cfg.skew;
      MostBucketsReached(cfg, instant, length);
      WindowBoundIff(cfg, instant, clientIP, since, length, bound);
    }
  }

  /** ceil(length / 60 s). */
  function WholeMinutes(length: nat): nat {
    (length + MINUTE - 1) / MINUTE
  }

  lemma MultipliesIff(a: nat, b: nat, c: nat)
    requires a > 0
    ensures a * b <= a * c <==> b <= c
  {
    if b > c {
      assert a * b == a * c + a * (b - c);
      assert a * (b - c) >= 1 * (b - c) by { Monotone(b - c, 1, a); }
    } else {
      Monotone(a, b, c);
    }
  }

  /** For limits other than zero, bounds compare as their numbers of minutes do. */
  lemma BucketCountIff(cfg: Config, instant: Instant, clientIP: string, length: nat, minutes: nat)
    requires TTLCovers(cfg) && length > 0 && cfg.rpm > 0
    ensures EveryWindowWithin(cfg, instant, ClientKey(clientIP), length, cfg.rpm * minutes)
       <==> MostBuckets(cfg, instant, length) <= minutes
  {
    EveryWindowBoundIff(cfg, instant, clientIP, length, cfg.rpm * minutes);
    MultipliesIff(cfg.rpm, MostBuckets(cfg, instant, length), minutes);
  }

  lemma FewerBucketsIff(cfg: Config, instant: Instant, length: nat)
    requires length > 0
    ensures MostBuckets(cfg, instant, length) <= WholeMinutes(length) + 1
       <==> Lag(cfg, instant) + 2 * cfg.skew <= MINUTE * WholeMinutes(length) - length + 1
  {}

  /** The simple bound, the limit times one more than the window's length in minutes, holds for all windows of a
      length exactly when lag and twice the skew exceed what the length lacks to whole minutes by at most 1 ms:
      always for unskewed clock readings, for decisions within 60 s only if they take at most 1 ms. */
  lemma SimpleBoundIff(cfg: Config, instant: Instant, clientIP: string, length: nat)
    requires TTLCovers(cfg) && length > 0 && cfg.rpm > 0
    ensures EveryWindowWithin(cfg, instant, ClientKey(clientIP), length, cfg.rpm * (WholeMinutes(length) + 1))
       <==> Lag(cfg, instant) + 2 * cfg.skew <= MINUTE * WholeMinutes(length) - length + 1
  {
    FewerBucketsIff(cfg, instant, length);
    BucketCountIff(cfg, instant, clientIP, length, WholeMinutes(length) + 1);
  }

  /** Requests that take 2 ms to reach Redis (or clocks 1 ms off) let three times the limit through within one
      minute. */
  lemma ThriceTheLimitInOneMinute(cfg: Config, clientIP: string) returns (events: seq<Event>)
    requires TTLCovers(cfg) && cfg.delay + 2 * cfg.skew >= 2
    ensures Exec(cfg, events).Some?
    ensures var log, since := Exec(cfg, events).value.log, MINUTE - 1 + cfg.delay + cfg.skew;
      && AllowedIn(log, Deciding, ClientKey(clientIP), since, MINUTE) == 3 * cfg.rpm
      && FailedOpenIn(log, Deciding, ClientKey(clientIP), since, MINUTE) == 0
  {
    MostBucketsReached(cfg, Deciding, MINUTE);
    assert MostBuckets(cfg, Deciding, MINUTE) == 3;
    events := FullWindow(cfg, Deciding, clientIP, MINUTE - 1 + cfg.delay + cfg.skew, MINUTE);
  }

  /** A run under tighter bounds on the environment is a run under looser ones. */
  lemma {:induction false} RunUnderLooserBounds(tight: Config, loose: Config, events: seq<Event>)
    requires Exec(tight, events).Some?
    requires tight.rpm == loose.rpm && tight.skew <= loose.skew && tight.delay <= loose.delay
    ensures Exec(loose, events) == Exec(tight, events)
  {
    if events != [] {
      RunUnderLooserBounds(tight, loose, events[..|events| - 1]);
    }
  }

  /** Whatever the bounds, and without using them: twice the limit passes within two milliseconds around a
      minute's end, so "at most the limit in any 60 seconds" holds only for windows inside one minute. */
  lemma TwiceTheLimitInTwoMilliseconds(cfg: Config, instant: Instant, clientIP: string) returns (events: seq<Event>)
    ensures Exec(cfg, events).Some?
    ensures var log := Exec(cfg, events).value.log;
      && AllowedIn(log, instant, ClientKey(clientIP), MINUTE - 1, 2) == 2 * cfg.rpm
      && FailedOpenIn(log, instant, ClientKey(clientIP), MINUTE - 1, 2) == 0
  {
    var exact := Config(cfg.rpm, 0, 0);
    MostBucketsReached(exact, instant, 2);
    assert MostBuckets(exact, instant, 2) == 2;
    events := FullWindow(exact, instant, clientIP, MINUTE - 1, 2);
    RunUnderLooserBounds(exact, cfg, events);
  }

  // ---------------------------------------------------------------------------------------------
  // A counter that missed its EXPIRE
  // ---------------------------------------------------------------------------------------------

  /** The counter exists, has no expiry, and no pod is about to set one. */
  ghost predicate Orphaned(s: State, k: Key) {
    && k in s.store && s.store[k].expiry == None
    && forall id :: id in s.requests ==> s.requests[id] != FirstHit(k)
  }

  /** A pending EXPIRE is the only one for its counter, which is there and has no expiry; counters are positive. */
  ghost predicate PendingInv(s: State) {
    && (forall k :: k in s.store ==> s.store[k].count > 0)
    && (forall id :: id in s.requests && s.requests[id].FirstHit? ==>
          s.requests[id].key in s.store && s.store[s.requests[id].key].expiry == None)
    && (forall i, j :: i in s.requests && j in s.requests && i != j && s.requests[i].FirstHit? ==>
          s.requests[i] != s.requests[j])
  }

  lemma StepKeepsPending(cfg: Config, s: State, e: Event)
    requires PendingInv(s) && Enabled(cfg, s, e)
    ensures PendingInv(Next(cfg, s, e))
  {
    var s' := Next(cfg, s, e);
    match e {
      case Incr(id, outcome) =>
        var k := s.requests[id].key;
        assert outcome.Answered? && CountOf(s'.store, k) == 1 ==> k !in s.store;
      case _ =>
    }
  }

  lemma {:induction false} RunKeepsPending(cfg: Config, events: seq<Event>)
    requires Exec(cfg, events).Some?
    ensures PendingInv(Exec(cfg, events).value)
  {
    if events != [] {
      RunKeepsPending(cfg, events[..|events| - 1]);
      StepKeepsPending(cfg, Exec(cfg, events[..|events| - 1]).value, events[|events| - 1]);
    }
  }

  lemma StepKeepsOrphan(cfg: Config, s: State, e: Event, k: Key)
    requires Orphaned(s, k) && Enabled(cfg, s, e) && s.store[k].count > 0
    ensures Orphaned(Next(cfg, s, e), k) && Next(cfg, s, e).store[k].count >= s.store[k].count
  {}

  /** A first INCR whose answer was lost, or an EXPIRE that was lost. */
  predicate Orphans(s: State, e: Event, k: Key) {
    match e
    case Incr(id, outcome) =>
      id in s.requests && s.requests[id].key == k && k !in s.store && outcome.ReplyLost?
    case Expire(id, delivered) => id in s.requests && s.requests[id].key == k && !delivered
    case _ => false
  }

  lemma StepOrphansIff(cfg: Config, s: State, e: Event, k: Key)
    requires PendingInv(s) && Enabled(cfg, s, e)
    ensures Orphaned(Next(cfg, s, e), k) <==> Orphaned(s, k) || Orphans(s, e, k)
  {
    if Orphaned(s, k) {
      StepKeepsOrphan(cfg, s, e, k);
    } else if e.Incr? && s.requests[e.id].key == k {
      var s' := Next(cfg, s, e);
      if k in s.store && s.store[k].expiry == None {
        var id :| id in s.requests && s.requests[id] == FirstHit(k);
        assert s'.requests[id] == FirstHit(k);
      }
      if e.outcome.Answered? && k !in s.store {
        assert s'.requests[e.id] == FirstHit(k);
      }
    } else if e.Expire? && s.requests[e.id].key == k {
    } else if k in s.store && s.store[k].expiry == None {
      var id :| id in s.requests && s.requests[id] == FirstHit(k);
      assert Next(cfg, s, e).requests[id] == FirstHit(k);
    }
  }

  /** Step i of a run leaves k without an expiry for ever. */
  ghost predicate OrphansAt(cfg: Config, events: seq<Event>, i: nat, k: Key)
    requires i < |events|
  {
    Exec(cfg, events[..i]).Some? && Orphans(Exec(cfg, events[..i]).value, events[i], k)
  }

  /** In any run a counter is without an expiry, and never to get one, exactly when some step was a first INCR of it
      whose answer was lost or an EXPIRE of it that was lost. */
  lemma {:induction false} OrphanedIff(cfg: Config, events: seq<Event>, k: Key)
    requires Exec(cfg, events).Some?
    ensures Orphaned(Exec(cfg, events).value, k) <==> exists i :: 0 <= i < |events| && OrphansAt(cfg, events, i, k)
  {
    if events != [] {
      var n := |events| - 1;
      var init := events[..n];
      OrphanedIff(cfg, init, k);
      RunKeepsPending(cfg, init);
      StepOrphansIff(cfg, Exec(cfg, init).value, events[n], k);
      assert OrphansAt(cfg, events, n, k) <==> Orphans(Exec(cfg, init).value, events[n], k);
      forall i | 0 <= i < n ensures OrphansAt(cfg, events, i, k) <==> OrphansAt(cfg, init, i, k) {
        assert init[..i] == events[..i];
      }
    }
  }

  /** Once the EXPIRE of a counter is lost the counter stays in Redis for ever: no later step removes it or
      gives it an expiry. */
  lemma {:induction false} OrphanNeverExpires(cfg: Config, events: seq<Event>, more: seq<Event>, k: Key)
    requires Exec(cfg, events).Some? && Orphaned(Exec(cfg, events).value, k)
    requires Exec(cfg, events + more).Some?
    ensures Orphaned(Exec(cfg, events + more).value, k)
    ensures Exec(cfg, events + more).value.store[k].count >= Exec(cfg, events).value.store[k].count
  {
    if more == [] {
      assert events + more == events;
    } else {
      var init := more[..|more| - 1];
      assert (events + more)[..|events + more| - 1] == events + init;
      OrphanNeverExpires(cfg, events, init, k);
      RunKeepsPending(cfg, events + init);
      StepKeepsOrphan(cfg, Exec(cfg, events + init).value, more[|more| - 1], k);
    }
  }

  /** It happens: one request whose INCR is answered and whose EXPIRE is lost. */
  lemma LostExpireRun(cfg: Config, clientIP: string) returns (events: seq<Event>)
    ensures Exec(cfg, events).Some? && Orphaned(Exec(cfg, events).value, Key(ClientKey(clientIP), 0))
  {
    var s1 := Next(cfg, INIT, Arrive(0, clientIP, 0));
    var s2 := Next(cfg, s1, Incr(0, Answered));
    Extend(cfg, [], INIT, Arrive(0, clientIP, 0));
    Extend(cfg, [] + [Arrive(0, clientIP, 0)], s1, Incr(0, Answered));
    events := [] + [Arrive(0, clientIP, 0)] + [Incr(0, Answered)];
    Extend(cfg, events, s2, Expire(0, false));
    events := events + [Expire(0, false)];
  }

  // ---------------------------------------------------------------------------------------------
  // A call of Allow is a run of steps
  // ---------------------------------------------------------------------------------------------

  /** A call that runs without interruption is an arrival, an INCR and, after a first hit, an EXPIRE: the same
      store, and a decision that agrees with the call's answer. */
  lemma AllowIsARun(cfg: Config, s: State, id: nat, clientIP: string, clock: nat, outcome: IncrOutcome,
                    expireDelivered: bool)
    requires id !in s.requests && Near(cfg, s.now, clock)
    ensures var k := Key(ClientKey(clientIP), BucketAt(clock));
      var s1 := Next(cfg, s, Arrive(id, clientIP, clock));
      Enabled(cfg, s1, Incr(id, outcome)) &&
      var s2 := Next(cfg, s1, Incr(id, outcome));
      var s3 := if id in s2.requests then Next(cfg, s2, Expire(id, expireDelivered)) else s2;
      && s3.store == AfterAllow(s.store, k, s.now, outcome, expireDelivered)
      && s3.requests == s.requests && s3.now == s.now
      && s3.log == s.log + [Decision(k, s.now, clock, s.now, !outcome.NotRun?, !outcome.Answered?,
                                     !outcome.Answered? || CountOf(s.store, k) < cfg.rpm)]
  {}
}
