/**
 The per-key token bucket of RateLimitMiddleware (internal/api/middleware.go:140-242): a bounded
 map of lazily refilled buckets, idle sweeps from another goroutine, and displacement of the
 oldest bucket when the map is full. Times are seconds on a monotone clock; every step below runs
 under the mutex.
 */
module RateLimiter {

  const MAX_BUCKETS: nat := 100000
  const BUCKET_TTL: real := 600.0

  import opened Basics

  datatype Bucket = Bucket(tokens: real, lastRefill: real)

  type Buckets = map<string, Bucket>

  /** The burst is two seconds of the rate. */
  function Burst(rps: real): real { rps * 2.0 }

  /** What a rate earns in some time. */
  function Earned(elapsed: real, rps: real): real { elapsed * rps }

  function Refill(b: Bucket, rps: real, now: real): Bucket {
    Bucket(Min(b.tokens + Earned(now - b.lastRefill, rps), Burst(rps)), now)
  }

  predicate Admits(b: Bucket) { b.tokens >= 1.0 }

  function Take(b: Bucket): Bucket {
    if Admits(b) then b.(tokens := b.tokens - 1.0) else b
  }

  predicate Idle(b: Bucket, now: real) { now - b.lastRefill > BUCKET_TTL }

  function Swept(buckets: Buckets, now: real): Buckets {
    map k | k in buckets && !Idle(buckets[k], now) :: buckets[k]
  }

  predicate Oldest(buckets: Buckets, k: string) {
    k in buckets && forall x :: x in buckets ==> buckets[k].lastRefill <= buckets[x].lastRefill
  }

  /** What can happen to the map. `created` is the clock when a missing bucket was made, `now` the
      clock of the refill; `victim` is the bucket displaced to make room. */
  datatype Event =
    | Request(key: string, rps: real, created: real, now: real, victim: Option<string>)
    | Sweep(now: real)

  /** The bucket a request meets. */
  function Met(buckets: Buckets, e: Event): Bucket
    requires e.Request?
  {
    Refill(if e.key in buckets then buckets[e.key] else Bucket(Burst(e.rps), e.created), e.rps, e.now)
  }

  predicate Admitted(buckets: Buckets, e: Event) {
    e.Request? && Admits(Met(buckets, e))
  }

  function Next(buckets: Buckets, e: Event): Buckets {
    match e
    case Sweep(now) => Swept(buckets, now)
    case Request(key, _, _, _, victim) =>
      (match victim case None => buckets case Some(v) => buckets - {v})[key := Take(Met(buckets, e))]
  }

  /** The steps the limiter takes from clock `clock` on. */
  predicate Legal(buckets: Buckets, clock: real, e: Event) {
    match e
    case Sweep(now) => clock <= now
    case Request(key, rps, created, now, victim) =>
      && key != "" && rps > 0.0 && clock <= created <= now
      && (victim.Some? <==> key !in buckets && |buckets| >= MAX_BUCKETS)
      && (victim.Some? ==> Oldest(buckets, victim.value))
  }

  class Limiter {
    var buckets: Buckets

    constructor ()
      ensures buckets == map[]
    {
      buckets := map[];
    }

    /** The eviction sweep. */
    method EvictIdle(now: real)
      modifies this
      ensures buckets == Next(old(buckets), Sweep(now))
    {
      var rest := buckets.Keys;
      while rest != {}
        invariant rest <= buckets.Keys <= old(buckets).Keys
        invariant forall k :: k in buckets ==> buckets[k] == old(buckets)[k]
        invariant forall k :: k in old(buckets) && k !in rest ==> (k in buckets <==> !Idle(old(buckets)[k], now))
        decreases |rest|
      {
        var k :| k in rest;
        if now - buckets[k].lastRefill > BUCKET_TTL {
          buckets := buckets - {k};
        }
        rest := rest - {k};
      }
    }

    /** The oldest bucket, whichever comes first in the map's order. */
    method FindOldest() returns (oldestKey: string)
      requires buckets != map[] && "" !in buckets
      ensures oldestKey in buckets
      ensures forall x :: x in buckets ==> buckets[oldestKey].lastRefill <= buckets[x].lastRefill
    {
      oldestKey := "";
      var oldest := 0.0;
      var rest := buckets.Keys;
      while rest != {}
        invariant rest <= buckets.Keys
        invariant oldestKey == "" ==> rest == buckets.Keys
        invariant oldestKey != "" ==> oldestKey in buckets && oldest == buckets[oldestKey].lastRefill
        invariant oldestKey != "" ==> forall x :: x in buckets && x !in rest ==> oldest <= buckets[x].lastRefill
        decreases |rest|
      {
        var k :| k in rest;
        if oldestKey == "" || buckets[k].lastRefill < oldest {
          oldestKey := k;
          oldest := buckets[k].lastRefill;
        }
        rest := rest - {k};
      }
      assert oldestKey == "" ==> buckets.Keys == {};
    }

    /** One request. A key or rate that is not limited passes without touching the map. */
    method Handle(key: string, rps: real, created: real, now: real)
      returns (admitted: bool, ghost victim: Option<string>)
      requires "" !in buckets
      modifies this
      ensures rps <= 0.0 || key == "" ==> admitted && buckets == old(buckets)
      ensures rps > 0.0 && key != "" ==>
        var e := Request(key, rps, created, now, victim);
        && (created <= now ==> Legal(old(buckets), created, e))
        && admitted == Admitted(old(buckets), e)
        && buckets == Next(old(buckets), e)
      ensures "" !in buckets
    {
      hide Earned;
      victim := None;
      if rps <= 0.0 || key == "" {
        return true, None;
      }
      var burst := rps * 2.0;
      var b := Bucket(burst, created);
      if key in buckets {
        b := buckets[key];
      } else if |buckets| >= MAX_BUCKETS {
        assert buckets != map[];
        var oldest := FindOldest();
        victim := Some(oldest);
        buckets := buckets - {oldest};
      }
      var elapsed := now - b.lastRefill;
      b := b.(tokens := b.tokens + Earned(elapsed, rps));
      if b.tokens > burst {
        b := b.(tokens := burst);
      }
      b := b.(lastRefill := now);
      if b.tokens < 1.0 {
        buckets := buckets[key := b];
        return false, victim;
      }
      buckets := buckets[key := b.(tokens := b.tokens - 1.0)];
      return true, victim;
    }
  }

  // ---- Whole runs ----

  function TimeOf(e: Event): real { e.now }

  function Run(buckets: Buckets, log: seq<Event>): Buckets {
    if log == [] then buckets else Next(Run(buckets, log[..|log| - 1]), log[|log| - 1])
  }

  function Clock(clock: real, log: seq<Event>): real {
    if log == [] then clock else TimeOf(log[|log| - 1])
  }

  predicate LegalRun(buckets: Buckets, clock: real, log: seq<Event>) {
    if log == [] then true
    else
      var front := log[..|log| - 1];
      LegalRun(buckets, clock, front) && Legal(Run(buckets, front), Clock(clock, front), log[|log| - 1])
  }

  predicate Asks(e: Event, k: string) {
    e.Request? && e.key == k
  }

  /** No request of key `k` runs at more than `rate`. Other keys run at any rate. */
  predicate RatesWithin(log: seq<Event>, k: string, rate: real) {
    forall i :: 0 <= i < |log| && Asks(log[i], k) ==> log[i].rps <= rate
  }

  /** No bucket is overdrawn, no refill is ahead of the clock, the map is bounded. */
  predicate Sound(buckets: Buckets, clock: real) {
    && (forall k :: k in buckets ==> 0.0 <= buckets[k].tokens && buckets[k].lastRefill <= clock)
    && |buckets| <= MAX_BUCKETS
    && "" !in buckets
  }

  /** The bucket of key `k` holds at most a burst. */
  predicate WithinBurst(buckets: Buckets, k: string, rate: real) {
    k in buckets ==> buckets[k].tokens <= Burst(rate)
  }

  /** One request, beside any other keys: the tokens its key has by then are what was left plus the rate
      for every second since, and at most two seconds' worth, which is also what a key without a bucket
      has. It is admitted if and only if that is at least one, which it then pays. No other bucket
      changes, but for a displaced one. */
  lemma RequestIs(buckets: Buckets, clock: real, e: Event)
    requires Sound(buckets, clock) && Legal(buckets, clock, e) && e.Request?
    ensures var full := 2.0 * e.rps;
      var grown :=
        if e.key in buckets then buckets[e.key].tokens + e.rps * (e.now - buckets[e.key].lastRefill) else full;
      var level := if grown < full then grown else full;
      && (Admitted(buckets, e) <==> level >= 1.0)
      && (e.victim.Some? <==> e.key !in buckets && |buckets| >= 100000)
      && (e.victim.Some? ==> e.victim.value in buckets)
      && (e.victim.Some? ==> forall x :: x in buckets ==> buckets[e.victim.value].lastRefill <= buckets[x].lastRefill)
      && e.key in Next(buckets, e)
      && Next(buckets, e)[e.key] == Bucket(if level >= 1.0 then level - 1.0 else level, e.now)
      && (forall k :: k != e.key ==> (k in Next(buckets, e) <==> k in buckets && e.victim != Some(k)))
      && (forall k :: k != e.key && k in Next(buckets, e) ==> Next(buckets, e)[k] == buckets[k])
  {
    if e.key !in buckets {
      assert (e.now - e.created) * e.rps >= 0.0;
    }
  }

  /** A sweep removes exactly the buckets that have not been refilled for more than ten minutes. */
  lemma SweepIs(buckets: Buckets, now: real, k: string)
    ensures k in Next(buckets, Sweep(now)) <==> k in buckets && now <= buckets[k].lastRefill + 600.0
    ensures k in Next(buckets, Sweep(now)) ==> Next(buckets, Sweep(now))[k] == buckets[k]
  {
  }

  lemma EarnedGrows(s: real, t: real, low: real, high: real)
    requires 0.0 <= s <= t && 0.0 <= low <= high
    ensures 0.0 <= Earned(s, low) <= Earned(t, high)
  {
    assert 0.0 <= s * low;
    assert s * low <= t * low;
    assert t * low <= t * high;
  }

  lemma EarnedAdds(s: real, t: real, rps: real)
    ensures Earned(s + t, rps) == Earned(s, rps) + Earned(t, rps)
    ensures Earned(0.0, rps) == 0.0
  {
  }

  lemma EarnedIs(n: real, rps: real)
    ensures Earned(n, rps) == n * rps
    ensures Earned(1.0, rps) == rps
  {
  }

  lemma EarnedInTtl(elapsed: real, rps: real)
    requires elapsed >= BUCKET_TTL && rps > 0.0
    ensures Earned(elapsed, rps) >= Burst(rps)
  {
    EarnedGrows(BUCKET_TTL, elapsed, rps, rps);
  }

  lemma RefillBounds(b: Bucket, rps: real, rate: real, now: real)
    requires 0.0 <= b.tokens && b.lastRefill <= now && 0.0 < rps <= rate
    ensures 0.0 <= Refill(b, rps, now).tokens <= Burst(rps) <= Burst(rate)
    ensures Refill(b, rps, now).tokens <= Min(b.tokens + Earned(now - b.lastRefill, rate), Burst(rate))
  {
    EarnedGrows(now - b.lastRefill, now - b.lastRefill, rps, rate);
    hide Earned;
  }

  lemma SweptIsSmaller(buckets: Buckets, now: real)
    ensures Swept(buckets, now).Keys <= buckets.Keys && |Swept(buckets, now)| <= |buckets|
  {
    Smaller(Swept(buckets, now).Keys, buckets.Keys);
  }

  lemma {:induction false} Smaller<T>(a: set<T>, b: set<T>)
    requires a <= b
    ensures |a| <= |b|
  {
    if a == {} {
    } else {
      var x :| x in a;
      Smaller(a - {x}, b - {x});
    }
  }

  lemma SizeAfter(buckets: Buckets, e: Event)
    requires |buckets| <= MAX_BUCKETS && e.Request?
    requires e.victim.Some? <==> e.key !in buckets && |buckets| >= MAX_BUCKETS
    requires e.victim.Some? ==> e.victim.value in buckets
    ensures |Next(buckets, e)| <= MAX_BUCKETS
  {
    hide Met;
    var b := Take(Met(buckets, e));
    hide Take;
    var left := match e.victim case None => buckets case Some(v) => buckets - {v};
    if e.victim.Some? {
      assert left.Keys == buckets.Keys - {e.victim.value};
    }
    assert |left| == |left.Keys| && |buckets| == |buckets.Keys|;
    assert Next(buckets, e) == left[e.key := b];
    assert left[e.key := b].Keys == left.Keys + {e.key};
    assert |left[e.key := b]| == |left[e.key := b].Keys|;
  }

  lemma StepIsSound(buckets: Buckets, clock: real, e: Event)
    requires Sound(buckets, clock) && Legal(buckets, clock, e)
    ensures Sound(Next(buckets, e), TimeOf(e))
  {
    if e.Request? {
      SizeAfter(buckets, e);
      RefillBounds(if e.key in buckets then buckets[e.key] else Bucket(Burst(e.rps), e.created), e.rps, e.rps, e.now);
    } else {
      SweptIsSmaller(buckets, e.now);
    }
  }

  /** A request leaves its key at most the burst of its own rate; nothing else adds tokens. */
  lemma StepIsWithinBurst(buckets: Buckets, e: Event, k: string, rate: real)
    requires WithinBurst(buckets, k, rate) && (Asks(e, k) ==> e.rps <= rate)
    ensures WithinBurst(Next(buckets, e), k, rate)
  {
  }

  /** Over every run, with every key at rates of its own: no bucket is overdrawn, no refill is ahead
      of the clock, and the map never exceeds its cap. */
  lemma {:induction false} RunIsSound(buckets: Buckets, clock: real, log: seq<Event>)
    requires Sound(buckets, clock) && LegalRun(buckets, clock, log)
    ensures Sound(Run(buckets, log), Clock(clock, log))
    ensures clock <= Clock(clock, log)
  {
    if log == [] {
    } else {
      var front := log[..|log| - 1];
      RunIsSound(buckets, clock, front);
      StepIsSound(Run(buckets, front), Clock(clock, front), log[|log| - 1]);
    }
  }

  /** The tokens of a key stay between 0 and twice its own highest rate, whatever the rates of the
      other keys. */
  lemma {:induction false} TokensStayInBurst(buckets: Buckets, clock: real, log: seq<Event>, k: string, rate: real)
    requires Sound(buckets, clock) && LegalRun(buckets, clock, log)
    requires WithinBurst(buckets, k, rate) && RatesWithin(log, k, rate)
    ensures k in Run(buckets, log) ==> 0.0 <= Run(buckets, log)[k].tokens <= Burst(rate)
  {
    RunIsSound(buckets, clock, log);
    hide Next;
    hide Burst;
    if log == [] {
    } else {
      var front := log[..|log| - 1];
      TokensStayInBurst(buckets, clock, front, k, rate);
      StepIsWithinBurst(Run(buckets, front), log[|log| - 1], k, rate);
    }
  }

  // ---- The admission bound ----

  /** How many requests of `k` a run admits. */
  function Admissions(buckets: Buckets, log: seq<Event>, k: string): nat {
    if log == [] then 0
    else
      var front, e := log[..|log| - 1], log[|log| - 1];
      Admissions(buckets, front, k) + if AdmitsKey(Run(buckets, front), e, k) then 1 else 0
  }

  predicate Displaces(e: Event, k: string) {
    e.Request? && e.victim == Some(k)
  }

  function Displacements(log: seq<Event>, k: string): nat {
    if log == [] then 0
    else Displacements(log[..|log| - 1], k) + if Displaces(log[|log| - 1], k) then 1 else 0
  }

  /** What a key could spend at most at time `t`: its refilled bucket, or a fresh one. */
  function Credit(buckets: Buckets, k: string, rate: real, t: real): real {
    if k in buckets then Min(buckets[k].tokens + Earned(t - buckets[k].lastRefill, rate), Burst(rate)) else Burst(rate)
  }

  lemma CreditBounds(buckets: Buckets, k: string, rate: real, t: real)
    requires rate > 0.0 && Sound(buckets, t)
    ensures 0.0 <= Credit(buckets, k, rate, t) <= Burst(rate)
  {
    if k in buckets {
      EarnedGrows(t - buckets[k].lastRefill, t - buckets[k].lastRefill, rate, rate);
    }
    hide Earned;
  }

  lemma CreditOverTime(buckets: Buckets, k: string, rate: real, s: real, t: real)
    requires rate > 0.0 && s <= t
    ensures Credit(buckets, k, rate, t) <= Credit(buckets, k, rate, s) + Earned(t - s, rate)
  {
    EarnedGrows(0.0, t - s, rate, rate);
    if k in buckets {
      EarnedAdds(s - buckets[k].lastRefill, t - s, rate);
    }
    hide Earned;
  }

  predicate AdmitsKey(buckets: Buckets, e: Event, k: string) {
    Asks(e, k) && Admitted(buckets, e)
  }

  /** A request of the key is paid from its credit. */
  lemma RequestSpends(buckets: Buckets, clock: real, rate: real, e: Event)
    requires rate > 0.0 && Sound(buckets, clock) && Legal(buckets, clock, e) && e.Request? && e.rps <= rate
    ensures (if Admitted(buckets, e) then 1.0 else 0.0) + Credit(Next(buckets, e), e.key, rate, e.now)
         <= Credit(buckets, e.key, rate, e.now)
  {
    var met := if e.key in buckets then buckets[e.key] else Bucket(Burst(e.rps), e.created);
    RefillBounds(met, e.rps, rate, e.now);
    var after := Take(Refill(met, e.rps, e.now));
    assert Next(buckets, e)[e.key] == after && after.lastRefill == e.now;
    EarnedAdds(0.0, 0.0, rate);
    hide Earned;
  }

  /** A sweep is free: a bucket idle beyond the TTL has credit for a full burst already. */
  lemma SweepIsFree(buckets: Buckets, clock: real, rate: real, now: real, k: string)
    requires rate > 0.0 && Sound(buckets, clock) && clock <= now
    ensures Credit(Swept(buckets, now), k, rate, now) == Credit(buckets, k, rate, now)
  {
    if k in buckets && Idle(buckets[k], now) {
      EarnedInTtl(now - buckets[k].lastRefill, rate);
    }
    hide Earned;
  }

  /** One step: what it admits is paid from the credit; a displacement gives at most a burst away. */
  lemma CreditStep(buckets: Buckets, clock: real, rate: real, e: Event, k: string)
    requires rate > 0.0 && Sound(buckets, clock) && Legal(buckets, clock, e)
    requires Asks(e, k) ==> e.rps <= rate
    ensures (if AdmitsKey(buckets, e, k) then 1.0 else 0.0) + Credit(Next(buckets, e), k, rate, TimeOf(e))
         <= Credit(buckets, k, rate, clock) + Earned(TimeOf(e) - clock, rate)
           + (if Displaces(e, k) then Burst(rate) else 0.0)
  {
    var t := TimeOf(e);
    CreditOverTime(buckets, k, rate, clock, t);
    assert Sound(buckets, t);
    CreditBounds(buckets, k, rate, t);
    hide Earned;
    match e {
      case Request(key, _, _, _, victim) =>
        if key == k {
          RequestSpends(buckets, clock, rate, e);
        } else if victim == Some(k) {
          assert k !in Next(buckets, e);
        } else {
          assert (k in Next(buckets, e) <==> k in buckets) && (k in buckets ==> Next(buckets, e)[k] == buckets[k]);
        }
      case Sweep(now) =>
        SweepIsFree(buckets, clock, rate, now, k);
    }
  }

  /** A burst for each displacement. */
  function Gifts(log: seq<Event>, k: string, rate: real): real {
    Earned(Displacements(log, k) as real, Burst(rate))
  }

  lemma {:induction false} CreditOfRun(buckets: Buckets, clock: real, rate: real, log: seq<Event>, k: string)
    requires rate > 0.0 && Sound(buckets, clock) && LegalRun(buckets, clock, log) && RatesWithin(log, k, rate)
    ensures Admissions(buckets, log, k) as real + Credit(Run(buckets, log), k, rate, Clock(clock, log))
         <= Credit(buckets, k, rate, clock) + Earned(Clock(clock, log) - clock, rate) + Gifts(log, k, rate)
  {
    hide Credit;
    hide Earned;
    hide Sound;
    hide Admitted;
    hide Next;
    hide Legal;
    EarnedAdds(0.0, 0.0, rate);
    EarnedAdds(0.0, 0.0, Burst(rate));
    if log == [] {
    } else {
      var front, e := log[..|log| - 1], log[|log| - 1];
      CreditOfRun(buckets, clock, rate, front, k);
      RunIsSound(buckets, clock, front);
      CreditStep(Run(buckets, front), Clock(clock, front), rate, e, k);
      EarnedAdds(Clock(clock, front) - clock, TimeOf(e) - Clock(clock, front), rate);
      EarnedAdds(Displacements(front, k) as real, 1.0, Burst(rate));
      EarnedIs(1.0, Burst(rate));
    }
  }

  /** The admission bound. From any sound state at time `clock`, in any run, the requests of a key
      whose own rates are at most `rate` are admitted at most Burst(rate) = 2 * rate times, plus
      rate * (elapsed time), plus one burst for each time its bucket is displaced. Sweeps, and the
      rates and numbers of other keys, do not matter. */
  lemma AdmissionBound(buckets: Buckets, clock: real, rate: real, log: seq<Event>, k: string)
    requires rate > 0.0 && Sound(buckets, clock) && LegalRun(buckets, clock, log) && RatesWithin(log, k, rate)
    ensures Admissions(buckets, log, k) as real
         <= Burst(rate) + Earned(Clock(clock, log) - clock, rate) + Gifts(log, k, rate)
  {
    hide Earned;
    hide Credit;
    hide Sound;
    hide Run;
    hide LegalRun;
    hide Gifts;
    CreditOfRun(buckets, clock, rate, log, k);
    RunIsSound(buckets, clock, log);
    CreditBounds(buckets, k, rate, clock);
    CreditBounds(Run(buckets, log), k, rate, Clock(clock, log));
  }

  /** A request at less than half a request per second is refused in every state; a key that meets
      no bucket is admitted exactly from half a request per second on. */
  lemma HalfARequest(buckets: Buckets, clock: real, e: Event)
    ensures e.Request? && e.rps < 0.5 ==> !Admitted(buckets, e)
    ensures Legal(buckets, clock, e) && e.Request? && e.key !in buckets ==> (Admitted(buckets, e) <==> e.rps >= 0.5)
  {
    if Legal(buckets, clock, e) && e.Request? && e.key !in buckets {
      EarnedGrows(0.0, e.now - e.created, e.rps, e.rps);
    }
    hide Earned;
  }

  /** So a key whose own rates stay below half a request per second is never admitted, beside any
      other keys. */
  lemma {:induction false} SlowKeyIsNeverAdmitted(buckets: Buckets, log: seq<Event>, k: string)
    requires forall i :: 0 <= i < |log| && Asks(log[i], k) ==> log[i].rps < 0.5
    ensures Admissions(buckets, log, k) == 0
  {
    if log == [] {
    } else {
      var front, e := log[..|log| - 1], log[|log| - 1];
      SlowKeyIsNeverAdmitted(buckets, front, k);
      HalfARequest(Run(buckets, front), 0.0, e);
      hide Admitted;
      assert Asks(log[|log| - 1], k) ==> e.rps < 0.5;
    }
  }

  // ---- The lazy map refines one ideal bucket per key ----

  datatype Ask = Ask(rps: real, now: real)

  /** The specification: a bucket that is never swept, and full before its first request. */
  function IdealMet(level: Option<Bucket>, a: Ask): Bucket {
    match level
    case None => Bucket(Burst(a.rps), a.now)
    case Some(b) => Refill(b, a.rps, a.now)
  }

  function IdealNext(level: Option<Bucket>, a: Ask): Option<Bucket> {
    Some(Take(IdealMet(level, a)))
  }

  function IdealRun(level: Option<Bucket>, asks: seq<Ask>): Option<Bucket> {
    if asks == [] then level else IdealNext(IdealRun(level, asks[..|asks| - 1]), asks[|asks| - 1])
  }

  function IdealDecisions(level: Option<Bucket>, asks: seq<Ask>): seq<bool> {
    if asks == [] then []
    else
      var front, a := asks[..|asks| - 1], asks[|asks| - 1];
      IdealDecisions(level, front) + [Admits(IdealMet(IdealRun(level, front), a))]
  }

  function AsksOf(log: seq<Event>, k: string): seq<Ask> {
    if log == [] then []
    else
      var e := log[|log| - 1];
      AsksOf(log[..|log| - 1], k) + if Asks(e, k) then [Ask(e.rps, e.now)] else []
  }

  function DecisionsOf(buckets: Buckets, log: seq<Event>, k: string): seq<bool> {
    if log == [] then []
    else
      var front, e := log[..|log| - 1], log[|log| - 1];
      DecisionsOf(buckets, front, k) + if Asks(e, k) then [Admitted(Run(buckets, front), e)] else []
  }

  /** The map's bucket is the ideal one, unless it was swept, and then the ideal one is idle. */
  predicate Tracks(buckets: Buckets, k: string, level: Option<Bucket>, clock: real) {
    if k in buckets then level == Some(buckets[k])
    else level.Some? ==> level.value.tokens >= 0.0 && Idle(level.value, clock)
  }

  /** A request that meets no bucket finds a full one, and so does the ideal bucket if it is idle. */
  lemma FreshIsIdeal(buckets: Buckets, clock: real, e: Event, level: Option<Bucket>)
    requires Legal(buckets, clock, e) && e.Request? && e.key !in buckets
    requires level.Some? ==> level.value.tokens >= 0.0 && Idle(level.value, clock)
    ensures Met(buckets, e) == IdealMet(level, Ask(e.rps, e.now)) == Bucket(Burst(e.rps), e.now)
  {
    EarnedGrows(0.0, e.now - e.created, e.rps, e.rps);
    if level.Some? {
      EarnedInTtl(e.now - level.value.lastRefill, e.rps);
    }
    hide Earned;
  }

  lemma TracksStep(buckets: Buckets, clock: real, e: Event, k: string, level: Option<Bucket>)
    requires Sound(buckets, clock) && Legal(buckets, clock, e) && !Displaces(e, k)
    requires Tracks(buckets, k, level, clock)
    ensures Asks(e, k) ==>
      var a := Ask(e.rps, e.now);
      && (Admitted(buckets, e) <==> Admits(IdealMet(level, a)))
      && Tracks(Next(buckets, e), k, IdealNext(level, a), TimeOf(e))
    ensures !Asks(e, k) ==> Tracks(Next(buckets, e), k, level, TimeOf(e))
  {
    if Asks(e, k) {
      if k !in buckets {
        FreshIsIdeal(buckets, clock, e, level);
      }
      assert Met(buckets, e) == IdealMet(level, Ask(e.rps, e.now));
      hide Met;
      hide IdealMet;
    }
  }

  lemma {:induction false} RunTracks(buckets: Buckets, clock: real, log: seq<Event>, k: string)
    requires k !in buckets && Sound(buckets, clock) && LegalRun(buckets, clock, log)
    requires Displacements(log, k) == 0
    ensures Tracks(Run(buckets, log), k, IdealRun(None, AsksOf(log, k)), Clock(clock, log))
    ensures DecisionsOf(buckets, log, k) == IdealDecisions(None, AsksOf(log, k))
  {
    if log == [] {
    } else {
      var front, e := log[..|log| - 1], log[|log| - 1];
      RunTracks(buckets, clock, front, k);
      RunIsSound(buckets, clock, front);
      TracksStep(Run(buckets, front), Clock(clock, front), e, k, IdealRun(None, AsksOf(front, k)));
      hide Tracks;
      hide IdealMet;
      if Asks(e, k) {
        assert AsksOf(log, k)[..|AsksOf(log, k)| - 1] == AsksOf(front, k);
      } else {
        assert AsksOf(log, k) == AsksOf(front, k);
      }
    }
  }

  /** The lazy map is observably one ideal bucket per key. Every decision on a key whose bucket is
      not displaced is the ideal bucket's decision on that key's own requests: sweeps, other keys
      and their displacements are unobservable, whatever rates the requests carry. */
  lemma LazyRefinesIdeal(clock: real, log: seq<Event>, k: string)
    requires LegalRun(map[], clock, log) && Displacements(log, k) == 0
    ensures DecisionsOf(map[], log, k) == IdealDecisions(None, AsksOf(log, k))
  {
    RunTracks(map[], clock, log, k);
  }

  // ---- Rejected requests leave no trace ----

  predicate ConstantRate(asks: seq<Ask>, rps: real) {
    forall i :: 0 <= i < |asks| ==> asks[i].rps == rps
  }

  predicate InOrder(asks: seq<Ask>) {
    forall i, j :: 0 <= i <= j < |asks| ==> asks[i].now <= asks[j].now
  }

  /** The elements that are marked. */
  function Selected<T>(s: seq<T>, keep: seq<bool>): seq<T>
    requires |keep| == |s|
  {
    if s == [] then []
    else
      var front := Selected(s[..|s| - 1], keep[..|s| - 1]);
      if keep[|s| - 1] then front + [s[|s| - 1]] else front
  }

  lemma SelectedAppend<T>(s: seq<T>, keep: seq<bool>, x: T, k: bool)
    requires |keep| == |s|
    ensures Selected(s + [x], keep + [k]) == if k then Selected(s, keep) + [x] else Selected(s, keep)
  {
    assert (s + [x])[..|s|] == s && (keep + [k])[..|s|] == keep;
  }

  /** Only requests that are rejected are left out. */
  predicate DropsOnlyRejected(decisions: seq<bool>, keep: seq<bool>) {
    |keep| == |decisions| && forall i :: 0 <= i < |keep| && !keep[i] ==> !decisions[i]
  }

  /** Two levels that every later request at this rate finds equal. */
  ghost predicate SameFrom(x: Option<Bucket>, y: Option<Bucket>, rps: real, t: real) {
    forall now :: now >= t ==> IdealMet(x, Ask(rps, now)) == IdealMet(y, Ask(rps, now))
  }

  lemma RejectionLeavesNoTrace(x: Option<Bucket>, y: Option<Bucket>, rps: real, t: real, a: Ask)
    requires rps > 0.0 && SameFrom(x, y, rps, t) && a.rps == rps && a.now >= t
    requires !Admits(IdealMet(x, a))
    ensures SameFrom(IdealNext(x, a), y, rps, a.now)
  {
    forall now | now >= a.now
      ensures IdealMet(IdealNext(x, a), Ask(rps, now)) == IdealMet(y, Ask(rps, now))
    {
      var met := IdealMet(x, a);
      assert met == IdealMet(y, Ask(rps, a.now));
      RefillTwice(y, rps, a.now, now);
    }
  }

  /** Refilling in two steps at one rate is refilling once. */
  lemma RefillTwice(level: Option<Bucket>, rps: real, s: real, now: real)
    requires rps > 0.0 && s <= now
    ensures Refill(IdealMet(level, Ask(rps, s)), rps, now) == IdealMet(level, Ask(rps, now))
  {
    EarnedGrows(0.0, now - s, rps, rps);
    if level.Some? {
      EarnedAdds(s - level.value.lastRefill, now - s, rps);
    }
    hide Earned;
  }

  lemma {:induction false} DecisionsLength(level: Option<Bucket>, asks: seq<Ask>)
    ensures |IdealDecisions(level, asks)| == |asks|
  {
    if asks == [] {
    } else {
      DecisionsLength(level, asks[..|asks| - 1]);
    }
  }

  lemma IdealAppend(level: Option<Bucket>, asks: seq<Ask>, a: Ask)
    ensures IdealRun(level, asks + [a]) == IdealNext(IdealRun(level, asks), a)
    ensures IdealDecisions(level, asks + [a])
      == IdealDecisions(level, asks) + [Admits(IdealMet(IdealRun(level, asks), a))]
  {
    assert (asks + [a])[..|asks|] == asks;
  }

  lemma {:induction false} SelectionTracks(asks: seq<Ask>, keep: seq<bool>, rps: real)
    requires rps > 0.0 && ConstantRate(asks, rps) && InOrder(asks)
    requires DropsOnlyRejected(IdealDecisions(None, asks), keep) && |keep| == |asks|
    ensures |asks| > 0 ==>
      SameFrom(IdealRun(None, asks), IdealRun(None, Selected(asks, keep)), rps, asks[|asks| - 1].now)
    ensures |IdealDecisions(None, asks)| == |asks|
    ensures IdealDecisions(None, Selected(asks, keep)) == Selected(IdealDecisions(None, asks), keep)
  {
    DecisionsLength(None, asks);
    if asks == [] {
    } else {
      var n := |asks| - 1;
      var front, a, kept := asks[..n], asks[n], keep[..n];
      var decisions := IdealDecisions(None, asks);
      var x, y := IdealRun(None, front), IdealRun(None, Selected(front, kept));
      var decision := Admits(IdealMet(x, a));
      assert asks == front + [a] && keep == kept + [keep[n]];
      IdealAppend(None, front, a);
      IdealAppend(None, Selected(front, kept), a);
      DecisionsLength(None, front);
      assert decisions[..n] == IdealDecisions(None, front) && decisions[n] == decision;
      assert DropsOnlyRejected(decisions[..n], kept);
      SelectionTracks(front, kept, rps);
      SelectedAppend(front, kept, a, keep[n]);
      SelectedAppend(IdealDecisions(None, front), kept, decision, keep[n]);
      hide Selected;
      hide IdealDecisions;
      hide IdealRun;
      assert SameFrom(x, y, rps, a.now);
      assert a == Ask(rps, a.now);
      if !keep[n] {
        RejectionLeavesNoTrace(x, y, rps, a.now, a);
      }
    }
  }

  /** At a constant rate rejected requests are invisible: delete any of them from a history, and
      every request that is left is decided as before. */
  lemma RejectionsAreInvisible(asks: seq<Ask>, keep: seq<bool>, rps: real)
    requires rps > 0.0 && ConstantRate(asks, rps) && InOrder(asks)
    requires DropsOnlyRejected(IdealDecisions(None, asks), keep) && |keep| == |asks|
    ensures |IdealDecisions(None, asks)| == |asks|
    ensures IdealDecisions(None, Selected(asks, keep)) == Selected(IdealDecisions(None, asks), keep)
  {
    SelectionTracks(asks, keep, rps);
  }

  lemma {:induction false} AsksAreInOrder(buckets: Buckets, clock: real, log: seq<Event>, k: string)
    requires LegalRun(buckets, clock, log)
    ensures clock <= Clock(clock, log)
    ensures InOrder(AsksOf(log, k)) && forall i :: 0 <= i < |AsksOf(log, k)| ==>
      AsksOf(log, k)[i].now <= Clock(clock, log)
  {
    if log == [] {
    } else {
      AsksAreInOrder(buckets, clock, log[..|log| - 1], k);
      hide Run;
      hide Oldest;
    }
  }

  /** The same of the bucket map itself. Two runs, with whatever sweeps and other keys, in which a key
      of constant rate asks the same except for some rejected requests, decide the rest alike. */
  lemma DeletedRejectionsChangeNothing(clock: real, log: seq<Event>, clock': real, log': seq<Event>, k: string,
                                       keep: seq<bool>, rps: real)
    requires LegalRun(map[], clock, log) && Displacements(log, k) == 0
    requires LegalRun(map[], clock', log') && Displacements(log', k) == 0
    requires rps > 0.0 && ConstantRate(AsksOf(log, k), rps)
    requires DropsOnlyRejected(DecisionsOf(map[], log, k), keep) && |keep| == |AsksOf(log, k)|
    requires AsksOf(log', k) == Selected(AsksOf(log, k), keep)
    ensures DecisionsOf(map[], log', k) == Selected(DecisionsOf(map[], log, k), keep)
  {
    LazyRefinesIdeal(clock, log, k);
    LazyRefinesIdeal(clock', log', k);
    AsksAreInOrder(map[], clock, log, k);
    RejectionsAreInvisible(AsksOf(log, k), keep, rps);
  }

  // ---- Rates that change ----

  lemma EqualLevelsStayEqual(x: Option<Bucket>, y: Option<Bucket>, rps: real, t: real)
    requires rps > 0.0 && IdealMet(x, Ask(rps, t)) == IdealMet(y, Ask(rps, t))
    ensures SameFrom(x, y, rps, t)
  {
    forall now | now >= t
      ensures IdealMet(x, Ask(rps, now)) == IdealMet(y, Ask(rps, now))
    {
      RefillTwice(x, rps, t, now);
      RefillTwice(y, rps, t, now);
    }
  }

  /** Exactly when a request rejected at its own rate leaves no trace for later requests at `rps`:
      when the tokens it left, capped to their burst, are those they would have found without it. It
      earned at its own rate until then, and a lower rate also capped the bucket lower. */
  lemma RejectionTraceIff(level: Option<Bucket>, rejected: Ask, rps: real)
    requires rps > 0.0 && !Admits(IdealMet(level, rejected))
    ensures SameFrom(IdealNext(level, rejected), level, rps, rejected.now) <==>
      Min(IdealMet(level, rejected).tokens, Burst(rps)) == IdealMet(level, Ask(rps, rejected.now)).tokens
  {
    var t := rejected.now;
    var after := IdealNext(level, rejected);
    EarnedAdds(0.0, 0.0, rps);
    assert IdealMet(after, Ask(rps, t)) == Bucket(Min(IdealMet(level, rejected).tokens, Burst(rps)), t);
    assert IdealMet(level, Ask(rps, t)).lastRefill == t;
    hide IdealMet;
    if IdealMet(after, Ask(rps, t)) == IdealMet(level, Ask(rps, t)) {
      EqualLevelsStayEqual(after, level, rps, t);
    }
  }

  /** Two levels decide every later request at this rate alike. */
  ghost predicate DecideAlike(x: Option<Bucket>, y: Option<Bucket>, rps: real, t: real) {
    forall now :: now >= t ==> (Admits(IdealMet(x, Ask(rps, now))) <==> Admits(IdealMet(y, Ask(rps, now))))
  }

  /** A level below one token reaches it at a time of its own. */
  lemma LowerLevelIsSeen(low: real, high: real, rps: real, t: real) returns (now: real)
    requires 0.5 <= rps && 0.0 <= low < high <= Burst(rps) && low < 1.0
    ensures now >= t
    ensures !Admits(Refill(Bucket(low, t), rps, now)) && Admits(Refill(Bucket(high, t), rps, now))
  {
    var wait := if high >= 1.0 then 0.0 else (1.0 - high) / rps;
    now := t + wait;
    assert wait * rps == if high >= 1.0 then 0.0 else 1.0 - high;
    EarnedIs(wait, rps);
    assert now - t == wait;
    hide Earned;
  }

  /** A trace can be seen: from half a request per second on, some later decision differs unless the
      levels are the same. Below that, no later request is admitted either way. */
  lemma TraceIsVisibleIff(level: Option<Bucket>, rejected: Ask, rps: real)
    requires rps > 0.0 && rejected.rps > 0.0 && !Admits(IdealMet(level, rejected))
    requires level.Some? ==> level.value.tokens >= 0.0 && level.value.lastRefill <= rejected.now
    ensures DecideAlike(IdealNext(level, rejected), level, rps, rejected.now) <==>
      rps < 0.5 || SameFrom(IdealNext(level, rejected), level, rps, rejected.now)
  {
    var t := rejected.now;
    var after := IdealNext(level, rejected);
    if rps >= 0.5 && !SameFrom(after, level, rps, t) {
      var a, b := IdealMet(after, Ask(rps, t)), IdealMet(level, Ask(rps, t));
      if level.Some? {
        RefillBounds(level.value, rejected.rps, rejected.rps, t);
        RefillBounds(level.value, rps, rps, t);
      }
      EarnedAdds(0.0, 0.0, rps);
      assert 0.0 <= a.tokens <= Burst(rps) && 0.0 <= b.tokens <= Burst(rps) && a.tokens < 1.0;
      if a == b {
        EqualLevelsStayEqual(after, level, rps, t);
      }
      var now;
      if a.tokens < b.tokens {
        now := LowerLevelIsSeen(a.tokens, b.tokens, rps, t);
      } else {
        now := LowerLevelIsSeen(b.tokens, a.tokens, rps, t);
      }
      RefillTwice(after, rps, t, now);
      RefillTwice(level, rps, t, now);
    }
  }

  // ---- A run that shows a rejection ----

  lemma OneMore(clock: real, log: seq<Event>, e: Event, k: string)
    requires LegalRun(map[], clock, log) && Legal(Run(map[], log), Clock(clock, log), e) && Asks(e, k)
    ensures LegalRun(map[], clock, log + [e]) && Clock(clock, log + [e]) == e.now
    ensures Run(map[], log + [e]) == Next(Run(map[], log), e)
    ensures DecisionsOf(map[], log + [e], k) == DecisionsOf(map[], log, k) + [Admitted(Run(map[], log), e)]
  {
    hide Legal;
    hide Next;
    hide Admitted;
    assert (log + [e])[..|log|] == log;
  }

  /** A request of one key, at a map that is not full. */
  function Asking(rps: real, now: real): Event {
    Request("k", rps, now, now, None)
  }

  function OneBucket(tokens: real, lastRefill: real): Buckets {
    map["k" := Bucket(tokens, lastRefill)]
  }

  lemma AskingIsLegal(buckets: Buckets, clock: real, rps: real, now: real)
    requires rps > 0.0 && clock <= now && |buckets| <= 1
    ensures Legal(buckets, clock, Asking(rps, now)) && Asks(Asking(rps, now), "k")
  {
  }

  /** What a request leaves of one bucket, and of none. */
  lemma AskingMoves(tokens: real, lastRefill: real, rps: real, now: real)
    ensures var found := Min(tokens + (now - lastRefill) * rps, rps * 2.0);
      && Admitted(OneBucket(tokens, lastRefill), Asking(rps, now)) == (found >= 1.0)
      && Next(OneBucket(tokens, lastRefill), Asking(rps, now))
         == OneBucket(if found >= 1.0 then found - 1.0 else found, now)
  {
    var before := OneBucket(tokens, lastRefill);
    assert before["k" := Take(Met(before, Asking(rps, now)))]
        == map["k" := Take(Met(before, Asking(rps, now)))];
  }

  lemma FirstAsking()
    ensures Admitted(map[], Asking(1.0, 0.0)) && Next(map[], Asking(1.0, 0.0)) == OneBucket(1.0, 0.0)
  {
    var none: Buckets, e := map[], Asking(1.0, 0.0);
    FirstMet(none, e);
    hide Met;
    hide Earned;
    NextOfOne(none, e);
    assert none["k" := Bucket(1.0, 0.0)] == map["k" := Bucket(1.0, 0.0)];
  }

  lemma FirstMet(buckets: Buckets, e: Event)
    requires e.Request? && e.key !in buckets && e.created == e.now
    ensures Met(buckets, e) == Bucket(2.0 * e.rps, e.now)
  {
  }

  lemma NextOfOne(buckets: Buckets, e: Event)
    requires e.Request? && e.victim == None
    ensures Next(buckets, e) == buckets[e.key := Take(Met(buckets, e))]
  {
    hide Met;
  }

  /** Two requests at full rate empty the bucket. */
  function Emptied(): seq<Event> { [Asking(1.0, 0.0)] + [Asking(1.0, 0.0)] }

  lemma NothingAsked()
    ensures LegalRun(map[], 0.0, []) && Clock(0.0, []) == 0.0
    ensures Run(map[], []) == map[] && DecisionsOf(map[], [], "k") == []
  {
  }

  lemma EmptiedRun()
    ensures LegalRun(map[], 0.0, Emptied()) && Clock(0.0, Emptied()) == 0.0
    ensures Run(map[], Emptied()) == OneBucket(0.0, 0.0) && DecisionsOf(map[], Emptied(), "k") == [true, true]
  {
    hide LegalRun;
    hide Run;
    hide DecisionsOf;
    hide Legal;
    hide Admitted;
    hide Next;
    hide Clock;
    var one := [Asking(1.0, 0.0)];
    assert [] + one == one;
    NothingAsked();
    AskingIsLegal(map[], 0.0, 1.0, 0.0);
    OneMore(0.0, [], Asking(1.0, 0.0), "k");
    FirstAsking();
    AskingIsLegal(OneBucket(1.0, 0.0), 0.0, 1.0, 0.0);
    OneMore(0.0, one, Asking(1.0, 0.0), "k");
    AskingMoves(1.0, 0.0, 1.0, 0.0);
  }

  /** Two runs of the map in which it does. A bucket is emptied, a request is rejected at a quarter of a
      request per second, and the next one at full rate is rejected too; without the rejected request
      it is admitted. */
  lemma RateChangesLeaveTraces()
    ensures var slow, later := Asking(0.25, 1.0), Asking(1.0, 1.25);
      var log, log' := Emptied() + [slow] + [later], Emptied() + [later];
      && LegalRun(map[], 0.0, log) && DecisionsOf(map[], log, "k") == [true, true, false, false]
      && LegalRun(map[], 0.0, log') && DecisionsOf(map[], log', "k") == [true, true, true]
  {
    hide LegalRun;
    hide Run;
    hide DecisionsOf;
    hide Legal;
    hide Admitted;
    hide Next;
    hide Emptied;
    var slow, later := Asking(0.25, 1.0), Asking(1.0, 1.25);
    EmptiedRun();
    AskingIsLegal(OneBucket(0.0, 0.0), 0.0, 0.25, 1.0);
    AskingIsLegal(OneBucket(0.0, 0.0), 0.0, 1.0, 1.25);
    AskingMoves(0.0, 0.0, 0.25, 1.0);
    AskingMoves(0.0, 0.0, 1.0, 1.25);
    OneMore(0.0, Emptied(), later, "k");
    OneMore(0.0, Emptied(), slow, "k");
    AskingIsLegal(OneBucket(0.25, 1.0), 1.0, 1.0, 1.25);
    AskingMoves(0.25, 1.0, 1.0, 1.25);
    OneMore(0.0, Emptied() + [slow], later, "k");
  }
}
