/** The distributed rate limiter: pods with skewed clocks share one Redis counter per client and minute.
    Times are milliseconds. */
module RateLimiter {
  import opened Sequences
  import opened Text

  const MINUTE := 60000
  const COUNTER_TTL := 120000

  // ---------------------------------------------------------------------------------------------
  // Keys
  // ---------------------------------------------------------------------------------------------

  datatype Key = Key(client: string, bucket: nat)

  /** The client's address when the request carries one, else one bucket shared by all. */
  function ClientKey(clientIP: string): string {
    if clientIP != "" then clientIP else "global"
  }

  /** Whole seconds, then whole minutes. */
  function BucketAt(clock: nat): nat {
    clock / 1000 / 60
  }

  function KeyText(k: Key): string {
    "ratelimit:" + k.client + ":" + Decimal(k.bucket)
  }

  lemma SampleKeyText()
    ensures KeyText(Key("10.0.0.1", 7)) == "ratelimit:10.0.0.1:7"
  {
    assert Decimal(7) == "7";
  }

  /** Clients and buckets never share a Redis key, whatever colons an address contains. */
  lemma KeyTextInjective(a: Key, b: Key)
    requires KeyText(a) == KeyText(b)
    ensures a == b
  {
    var prefix := "ratelimit:";
    DecimalReadsBack(a.bucket);
    DecimalReadsBack(b.bucket);
    LastSeparator(prefix + a.client, Decimal(a.bucket), prefix + b.client, Decimal(b.bucket), ':');
    assert (prefix + a.client)[|prefix|..] == a.client;
    assert (prefix + b.client)[|prefix|..] == b.client;
  }

  // ---------------------------------------------------------------------------------------------
  // Redis
  // ---------------------------------------------------------------------------------------------

  datatype Counter = Counter(count: nat, expiry: Option<nat>)

  type Store = map<Key, Counter>

  function CountOf(store: Store, k: Key): nat {
    if k in store then store[k].count else 0
  }

  function Incremented(store: Store, k: Key): Store {
    store[k := if k in store then store[k].(count := store[k].count + 1) else Counter(1, None)]
  }

  /** A no-op on a missing key. */
  function Expiring(store: Store, k: Key, expiry: nat): Store {
    if k in store then store[k := store[k].(expiry := Some(expiry))] else store
  }

  // ---------------------------------------------------------------------------------------------
  // One call of Allow
  // ---------------------------------------------------------------------------------------------

  /** What Redis did with the INCR: ran it and answered, ran it but the answer was lost, did not run it. */
  datatype IncrOutcome = Answered | ReplyLost | NotRun

  class RedisClient {
    var counters: Store

    constructor ()
      ensures counters == map[]
    {
      counters := map[];
    }

    /** None is the error the caller sees. */
    method Incr(key: Key, outcome: IncrOutcome) returns (count: Option<nat>)
      modifies this
      ensures counters == if outcome.NotRun? then old(counters) else Incremented(old(counters), key)
      ensures count == if outcome.Answered? then Some(CountOf(counters, key)) else None
    {
      if outcome.NotRun? {
        return None;
      }
      counters := Incremented(counters, key);
      count := if outcome.Answered? then Some(counters[key].count) else None;
    }

    method Expire(key: Key, ttl: nat, now: nat, delivered: bool)
      modifies this
      ensures counters == if delivered then Expiring(old(counters), key, now + ttl) else old(counters)
    {
      if delivered && key in counters {
        counters := counters[key := counters[key].(expiry := Some(now + ttl))];
      }
    }
  }

  /** The store after a whole call: the INCR if it ran, and the EXPIRE of a first hit if it was delivered. */
  function AfterAllow(store: Store, k: Key, now: nat, outcome: IncrOutcome, expireDelivered: bool): Store {
    var store' := if outcome.NotRun? then store else Incremented(store, k);
    if outcome.Answered? && CountOf(store', k) == 1 && expireDelivered then Expiring(store', k, now + COUNTER_TTL)
    else store'
  }

  /** What a call leaves in Redis: one more in the counter of the client and minute, if the INCR ran; 120 seconds to
      live if that was the first and the pod heard of it and its EXPIRE arrived; every other counter as it was. */
  ghost predicate Counted(before: Store, after: Store, k: Key, now: nat, outcome: IncrOutcome, expireDelivered: bool) {
    && (forall other :: other != k ==> (other in after <==> other in before))
    && (forall other :: other != k && other in before ==> after[other] == before[other])
    && (outcome.NotRun? ==> after == before)
    && (!outcome.NotRun? ==>
          && k in after && after[k].count == CountOf(before, k) + 1
          && after[k].expiry == if outcome.Answered? && after[k].count == 1 && expireDelivered then Some(now + 120000)
                                else if k in before then before[k].expiry else None)
  }

  class GlobalRateLimiter {
    const redis: RedisClient?
    const rpm: nat

    /** Without Redis the limiter is the stub that allows everything. */
    constructor (rps: nat, redis: RedisClient?)
      ensures this.redis == redis && rpm == rps * 60
    {
      this.redis := redis;
      this.rpm := rps * 60;
    }

    /** `clock` is this pod's clock, `now` the Redis clock when the EXPIRE runs. The call fails open; an
        answered one is allowed up to the limit, by the count of its client and minute. */
    method Allow(clientIP: string, clock: nat, now: nat, outcome: IncrOutcome, expireDelivered: bool)
      returns (allowed: bool)
      modifies redis
      ensures redis == null ==> allowed
      ensures redis != null ==>
        var k := Key(ClientKey(clientIP), BucketAt(clock));
        && redis.counters == AfterAllow(old(redis.counters), k, now, outcome, expireDelivered)
        && (allowed <==> !outcome.Answered? || CountOf(old(redis.counters), k) < rpm)
      ensures redis != null ==>
        Counted(old(redis.counters), redis.counters, Key(if clientIP != "" then clientIP else "global", clock / 60000),
                now, outcome, expireDelivered)
      ensures redis != null && outcome.Answered? ==>
        var k := Key(if clientIP != "" then clientIP else "global", clock / 60000);
        k in redis.counters && (allowed <==> redis.counters[k].count <= rpm)
    {
      if redis == null {
        return true;
      }
      assert clock / 1000 / 60 == clock / 60000;
      var clientKey := "global";
      if clientIP != "" {
        clientKey := clientIP;
      }
      var bucket := clock / 1000 / 60;
      var redisKey := Key(clientKey, bucket);
      var count := redis.Incr(redisKey, outcome);
      if count.None? {
        return true;
      }
      if count.value == 1 {
        redis.Expire(redisKey, COUNTER_TTL, now, expireDelivered);
      }
      return count.value <= rpm;
    }
  }

  // ---------------------------------------------------------------------------------------------
  // Many pods, interleaved
  // ---------------------------------------------------------------------------------------------

  /** Bounds on the environment: how far a pod's clock may be from the Redis clock, and how long after reading
      its clock a pod's INCR may still run. */
  datatype Config = Config(rpm: nat, skew: nat, delay: nat)

  /** A request after its clock reading, or after a first hit and before its EXPIRE. */
  datatype Request = Arrived(key: Key, at: nat, clock: nat) | FirstHit(key: Key)

  /** A request's answer. `at` is the Redis time of its clock reading `clock`, `decided` that of its INCR, or of
      giving it up, which is when it is let through or refused; `counted`: its INCR ran; `open`: it was let
      through because the pod saw an error. */
  datatype Decision = Decision(key: Key, at: nat, clock: nat, decided: nat, counted: bool, open: bool, allowed: bool)

  datatype State = State(now: nat, store: Store, requests: map<nat, Request>, log: seq<Decision>)

  /** `Expire(_, false)` is an EXPIRE that was lost; one that never comes is delayed for ever. */
  datatype Event =
    | Tick(d: nat)
    | Arrive(id: nat, clientIP: string, clock: nat)
    | Incr(id: nat, outcome: IncrOutcome)
    | Expire(id: nat, delivered: bool)
    | Evict(key: Key)

  const INIT := State(0, map[], map[], [])

  predicate Enabled(cfg: Config, s: State, e: Event) {
    match e
    case Tick(_) => true
    case Arrive(id, _, clock) => id !in s.requests && clock <= s.now + cfg.skew && s.now <= clock + cfg.skew
    case Incr(id, outcome) =>
      && id in s.requests && s.requests[id].Arrived?
      && (outcome.NotRun? || s.now <= s.requests[id].at + cfg.delay)
    case Expire(id, _) => id in s.requests && s.requests[id].FirstHit?
    case Evict(k) => k in s.store && s.store[k].expiry.Some? && s.store[k].expiry.value <= s.now
  }

  function IncrStep(cfg: Config, s: State, id: nat, outcome: IncrOutcome): State
    requires id in s.requests && s.requests[id].Arrived?
  {
    var r := s.requests[id];
    var store := if outcome.NotRun? then s.store else Incremented(s.store, r.key);
    var count := CountOf(store, r.key);
    var answered := outcome.Answered?;
    State(s.now, store,
          if answered && count == 1 then s.requests[id := FirstHit(r.key)] else s.requests - {id},
          s.log + [Decision(r.key, r.at, r.clock, s.now, !outcome.NotRun?, !answered, !answered || count <= cfg.rpm)])
  }

  function Next(cfg: Config, s: State, e: Event): State
    requires Enabled(cfg, s, e)
  {
    match e
    case Tick(d) => s.(now := s.now + d)
    case Arrive(id, clientIP, clock) =>
      s.(requests := s.requests[id := Arrived(Key(ClientKey(clientIP), BucketAt(clock)), s.now, clock)])
    case Incr(id, outcome) => IncrStep(cfg, s, id, outcome)
    case Expire(id, delivered) =>
      s.(store := if delivered then Expiring(s.store, s.requests[id].key, s.now + COUNTER_TTL) else s.store,
         requests := s.requests - {id})
    case Evict(k) => s.(store := s.store - {k})
  }

  function Exec(cfg: Config, events: seq<Event>): Option<State> {
    if events == [] then Some(INIT)
    else
      match Exec(cfg, events[..|events| - 1])
      case None => None
      case Some(s) => if Enabled(cfg, s, events[|events| - 1]) then Some(Next(cfg, s, events[|events| - 1])) else None
  }
}
