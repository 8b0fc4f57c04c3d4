/**
 API-key authentication through a TTL cache (internal/apikeyauth/service.go:53-132), with the
 repository as a changing map from digest to record. The cache mutex covers one get or one set, not
 a whole call, so calls interleave between clock read, get, lookup and set.
 */
module ApiKeyCache {

  import opened Basics

  /** A row of the key table; times are integers of the service clock. */
  datatype Record = Record(
    id: nat, keyDigest: string, ownerID: string, authLevel: string, rateLimit: Option<real>,
    expiresAt: Option<int>, active: bool)

  datatype Principal = Principal(
    id: nat, keyDigest: string, ownerID: string, authLevel: string, rateLimit: Option<real>, expiresAt: Option<int>)

  datatype Answer = Refused | Accepted(principal: Principal)

  datatype Entry = Entry(answer: Answer, expiresAt: int)

  type Cache = map<string, Entry>

  datatype Lookup = Found(record: Record) | Missing | LookupError

  datatype Reply = Reply(answer: Answer) | Failed

  function PrincipalOf(r: Record): Principal {
    Principal(r.id, r.keyDigest, r.ownerID, r.authLevel, r.rateLimit, r.expiresAt)
  }

  predicate IsExpired(expiresAt: Option<int>, now: int) {
    expiresAt.Some? && !(expiresAt.value > now)
  }

  /** What the repository says about a key at a clock reading. */
  function Verdict(r: Option<Record>, now: int): Answer {
    match r
    case None => Refused
    case Some(record) =>
      if !record.active || IsExpired(record.expiresAt, now) then Refused else Accepted(PrincipalOf(record))
  }

  predicate Fresh(cache: Cache, digest: string, now: int) {
    digest in cache && now < cache[digest].expiresAt
  }

  /** A get removes an entry that has run out. */
  function AfterGet(cache: Cache, digest: string, now: int): Cache {
    if digest in cache && !Fresh(cache, digest, now) then cache - {digest} else cache
  }

  function AfterSet(cache: Cache, digest: string, answer: Answer, now: int, ttl: int): Cache {
    cache[digest := Entry(answer, now + ttl)]
  }

  class Service {
    const ttl: int
    const digestOf: string -> string
    var cache: Cache

    constructor (ttl: int, digestOf: string -> string)
      ensures this.ttl == ttl && this.digestOf == digestOf && cache == map[]
    {
      this.ttl, this.digestOf, cache := ttl, digestOf, map[];
    }

    method GetCached(digest: string, now: int) returns (hit: Option<Answer>)
      modifies this
      ensures hit ==
        if digest in old(cache) && now < old(cache)[digest].expiresAt then Some(old(cache)[digest].answer) else None
      ensures cache == if digest in old(cache) && hit.None? then old(cache) - {digest} else old(cache)
      ensures cache == AfterGet(old(cache), digest, now)
    {
      if digest !in cache {
        return None;
      }
      var entry := cache[digest];
      if !(now < entry.expiresAt) {
        cache := cache - {digest};
        return None;
      }
      return Some(entry.answer);
    }

    method SetCached(digest: string, answer: Answer, now: int)
      modifies this
      ensures cache == old(cache)[digest := Entry(answer, now + ttl)]
    {
      cache := cache[digest := Entry(answer, now + ttl)];
    }

    /** One call without interference: the key is already trimmed, `lookup` is what the repository
        would answer. A record found is accepted if and only if it is active and does not run out, or
        runs out later than now. */
    method Authenticate(key: string, now: int, lookup: Lookup) returns (reply: Reply)
      modifies this
      ensures key == "" ==> reply == Reply(Refused) && cache == old(cache)
      ensures key != "" ==>
        var d := digestOf(key);
        if d in old(cache) && now < old(cache)[d].expiresAt then
          reply == Reply(old(cache)[d].answer) && cache == old(cache)
        else match lookup
          case LookupError => reply == Failed && cache == old(cache) - {d}
          case Missing => reply == Reply(Refused) && cache == old(cache)[d := Entry(Refused, now + ttl)]
          case Found(r) =>
            && reply == Reply(if r.active && (r.expiresAt.None? || now < r.expiresAt.value) then
                 Accepted(Principal(r.id, r.keyDigest, r.ownerID, r.authLevel, r.rateLimit, r.expiresAt)) else Refused)
            && cache == old(cache)[d := Entry(reply.answer, now + ttl)]
    {
      if key == "" {
        return Reply(Refused);
      }
      var digest := digestOf(key);
      var hit := GetCached(digest, now);
      if hit.Some? {
        return Reply(hit.value);
      }
      match lookup {
        case LookupError =>
          return Failed;
        case Missing =>
          SetCached(digest, Refused, now);
          return Reply(Refused);
        case Found(record) =>
          if !record.active || IsExpired(record.expiresAt, now) {
            SetCached(digest, Refused, now);
            return Reply(Refused);
          }
          var principal := PrincipalOf(record);
          SetCached(digest, Accepted(principal), now);
          return Reply(Accepted(principal));
      }
    }
  }

  // ---- Interleaved calls ----

  /** Where a call stands; `start` is its clock reading. */
  datatype Call =
    | Begun(digest: string, start: int)
    | Missed(digest: string, start: int)
    | Looked(digest: string, start: int, record: Option<Record>)
    | Done(digest: string, start: int, answer: Answer)
    | Aborted(digest: string, start: int)

  /** A read of the repository: what it returned, the clock reading of the call that made it, and the
      moment it was made. */
  datatype Reading = Reading(digest: string, record: Option<Record>, stamp: int, at: int)

  type Repo = map<string, Record>

  /** `readings` only records what happened. */
  datatype State = State(clock: int, repo: Repo, cache: Cache, calls: map<nat, Call>, readings: seq<Reading>)

  datatype Step =
    | Tick(clock: int)
    | ChangeRepo(repo: Repo)
    | Begin(call: nat, digest: string)
    | Get(call: nat)
    | Look(call: nat)
    | LookFails(call: nat)
    | Set(call: nat)

  function InRepo(repo: Repo, digest: string): Option<Record> {
    if digest in repo then Some(repo[digest]) else None
  }

  predicate Legal(s: State, step: Step) {
    match step
    case Tick(t) => s.clock <= t
    case ChangeRepo(_) => true
    case Begin(c, _) => c !in s.calls
    case Get(c) => c in s.calls && s.calls[c].Begun?
    case Look(c) => c in s.calls && s.calls[c].Missed?
    case LookFails(c) => c in s.calls && s.calls[c].Missed?
    case Set(c) => c in s.calls && s.calls[c].Looked?
  }

  function Next(s: State, step: Step, ttl: int): State
    requires Legal(s, step)
  {
    match step
    case Tick(t) => s.(clock := t)
    case ChangeRepo(repo) => s.(repo := repo)
    case Begin(c, digest) => s.(calls := s.calls[c := Begun(digest, s.clock)])
    case Get(c) =>
      var d, start := s.calls[c].digest, s.calls[c].start;
      s.(cache := AfterGet(s.cache, d, start),
         calls := s.calls[
            c := if Fresh(s.cache, d, start) then Done(d, start, s.cache[d].answer) else Missed(d, start)])
    case Look(c) =>
      var d, start := s.calls[c].digest, s.calls[c].start;
      var record := InRepo(s.repo, d);
      s.(calls := s.calls[c := Looked(d, start, record)], readings := s.readings + [Reading(d, record, start, s.clock)])
    case LookFails(c) =>
      s.(calls := s.calls[c := Aborted(s.calls[c].digest, s.calls[c].start)])
    case Set(c) =>
      var d, start := s.calls[c].digest, s.calls[c].start;
      var answer := Verdict(s.calls[c].record, start);
      s.(cache := AfterSet(s.cache, d, answer, start, ttl), calls := s.calls[c := Done(d, start, answer)])
  }

  predicate LegalRun(s: State, steps: seq<Step>, ttl: int)
    decreases steps, 0
  {
    if steps == [] then true
    else LegalRun(s, steps[..|steps| - 1], ttl) && Legal(Run(s, steps[..|steps| - 1], ttl), steps[|steps| - 1])
  }

  function Run(s: State, steps: seq<Step>, ttl: int): State
    requires LegalRun(s, steps, ttl)
    decreases steps, 1
  {
    if steps == [] then s else Next(Run(s, steps[..|steps| - 1], ttl), steps[|steps| - 1], ttl)
  }

  function Start(clock: int, repo: Repo): State {
    State(clock, repo, map[], map[], [])
  }

  /** A read of `digest`, recorded by now, that is where `answer` came from. */
  predicate Behind(r: Reading, readings: seq<Reading>, digest: string, answer: Answer) {
    r in readings && r.digest == digest && answer == Verdict(r.record, r.stamp)
  }

  /** An entry runs out one TTL after the stamp of the read it came from. */
  ghost predicate SoundEntry(readings: seq<Reading>, digest: string, e: Entry, ttl: int) {
    exists r :: Behind(r, readings, digest, e.answer) && e.expiresAt == r.stamp + ttl
  }

  predicate IsReadOf(r: Reading, readings: seq<Reading>, digest: string, record: Option<Record>, stamp: int) {
    r in readings && r.digest == digest && r.record == record && r.stamp == stamp
  }

  ghost predicate SoundCall(readings: seq<Reading>, call: Call, clock: int, ttl: int) {
    && call.start <= clock
    && match call
       case Looked(d, start, record) => exists r :: IsReadOf(r, readings, d, record, start)
       case Done(d, start, answer) => exists r :: Behind(r, readings, d, answer) && start - ttl < r.stamp
       case _ => true
  }

  ghost predicate Sound(s: State, ttl: int) {
    && (forall d :: d in s.cache ==> SoundEntry(s.readings, d, s.cache[d], ttl))
    && (forall c :: c in s.calls ==> SoundCall(s.readings, s.calls[c], s.clock, ttl))
    && (forall r :: r in s.readings ==> r.stamp <= r.at <= s.clock)
  }

  lemma EntryKeepsSound(readings: seq<Reading>, more: seq<Reading>, digest: string, e: Entry, ttl: int)
    requires SoundEntry(readings, digest, e, ttl)
    ensures SoundEntry(readings + more, digest, e, ttl)
  {
    var r :| Behind(r, readings, digest, e.answer) && e.expiresAt == r.stamp + ttl;
    assert Behind(r, readings + more, digest, e.answer);
  }

  lemma CallKeepsSound(readings: seq<Reading>, more: seq<Reading>, call: Call, clock: int, later: int, ttl: int)
    requires SoundCall(readings, call, clock, ttl) && clock <= later
    ensures SoundCall(readings + more, call, later, ttl)
  {
    match call {
      case Looked(d, start, record) =>
        var r :| IsReadOf(r, readings, d, record, start);
        assert IsReadOf(r, readings + more, d, record, start);
      case Done(d, start, answer) =>
        var r :| Behind(r, readings, d, answer) && start - ttl < r.stamp;
        assert Behind(r, readings + more, d, answer);
      case _ =>
    }
  }

  lemma GetIsSound(s: State, c: nat, ttl: int)
    requires Sound(s, ttl) && Legal(s, Get(c))
    ensures SoundCall(s.readings, Next(s, Get(c), ttl).calls[c], s.clock, ttl)
  {
    var d, start := s.calls[c].digest, s.calls[c].start;
    if Fresh(s.cache, d, start) {
      assert SoundEntry(s.readings, d, s.cache[d], ttl);
      var r :| Behind(r, s.readings, d, s.cache[d].answer) && s.cache[d].expiresAt == r.stamp + ttl;
      assert start - ttl < r.stamp;
    }
  }

  lemma SetIsSound(s: State, c: nat, ttl: int)
    requires Sound(s, ttl) && Legal(s, Set(c)) && ttl > 0
    ensures var s' := Next(s, Set(c), ttl);
      SoundCall(s.readings, s'.calls[c], s.clock, ttl)
        && SoundEntry(s.readings, s.calls[c].digest, s'.cache[s.calls[c].digest], ttl)
  {
    var d, start := s.calls[c].digest, s.calls[c].start;
    assert SoundCall(s.readings, s.calls[c], s.clock, ttl);
    var r :| IsReadOf(r, s.readings, d, s.calls[c].record, start);
    assert Behind(r, s.readings, d, Verdict(s.calls[c].record, start));
  }

  lemma StepIsSound(s: State, step: Step, ttl: int)
    requires Sound(s, ttl) && Legal(s, step) && ttl > 0
    ensures Sound(Next(s, step, ttl), ttl)
  {
    hide SoundCall;
    hide SoundEntry;
    var s' := Next(s, step, ttl);
    match step {
      case Tick(t) =>
        forall c | c in s.calls
          ensures SoundCall(s.readings, s.calls[c], t, ttl)
        {
          CallKeepsSound(s.readings, [], s.calls[c], s.clock, t, ttl);
          assert s.readings + [] == s.readings;
        }
      case Look(c) =>
        LookIsSound(s, c, ttl);
      case Get(c) =>
        GetIsSound(s, c, ttl);
      case Set(c) =>
        SetIsSound(s, c, ttl);
      case Begin(c, d) =>
        assert SoundCall(s.readings, Begun(d, s.clock), s.clock, ttl) by {
          WaitingIsSound(s.readings, Begun(d, s.clock), s.clock, ttl);
        }
      case LookFails(c) =>
        assert s.calls[c].start <= s.clock by { CallStart(s, c, ttl); }
        WaitingIsSound(s.readings, s'.calls[c], s.clock, ttl);
      case ChangeRepo(_) =>
    }
  }

  lemma CallStart(s: State, c: nat, ttl: int)
    requires Sound(s, ttl) && c in s.calls
    ensures s.calls[c].start <= s.clock
  {
  }

  lemma WaitingIsSound(readings: seq<Reading>, call: Call, clock: int, ttl: int)
    requires call.start <= clock && !call.Looked? && !call.Done?
    ensures SoundCall(readings, call, clock, ttl)
  {
  }

  lemma LookIsSound(s: State, c: nat, ttl: int)
    requires Sound(s, ttl) && Legal(s, Look(c))
    ensures Sound(Next(s, Look(c), ttl), ttl)
  {
    var d, start := s.calls[c].digest, s.calls[c].start;
    var read := Reading(d, InRepo(s.repo, d), start, s.clock);
    var s' := Next(s, Look(c), ttl);
    CallStart(s, c, ttl);
    forall x | x in s.cache
      ensures SoundEntry(s'.readings, x, s'.cache[x], ttl)
    {
      EntryKeepsSound(s.readings, [read], x, s.cache[x], ttl);
    }
    forall x | x in s'.calls
      ensures SoundCall(s'.readings, s'.calls[x], s.clock, ttl)
    {
      if x == c {
        assert IsReadOf(read, s'.readings, d, read.record, start);
      } else {
        CallKeepsSound(s.readings, [read], s.calls[x], s.clock, s.clock, ttl);
      }
    }
  }

  lemma {:induction false} RunIsSound(clock: int, repo: Repo, steps: seq<Step>, ttl: int)
    requires ttl > 0 && LegalRun(Start(clock, repo), steps, ttl)
    ensures Sound(Run(Start(clock, repo), steps, ttl), ttl)
  {
    if steps == [] {
    } else {
      RunIsSound(clock, repo, steps[..|steps| - 1], ttl);
      StepIsSound(Run(Start(clock, repo), steps[..|steps| - 1], ttl), steps[|steps| - 1], ttl);
      hide Sound;
    }
  }

  /** Bounded staleness, under every interleaving of calls with each other and with changes of the
      repository: every answer is the verdict on a read whose clock stamp, and whose moment, is later
      than the start of the call less the TTL. */
  lemma BoundedStaleness(clock: int, repo: Repo, steps: seq<Step>, ttl: int, c: nat) returns (r: Reading)
    requires ttl > 0 && LegalRun(Start(clock, repo), steps, ttl)
    requires var s := Run(Start(clock, repo), steps, ttl); c in s.calls && s.calls[c].Done?
    ensures var s := Run(Start(clock, repo), steps, ttl);
      && Behind(r, s.readings, s.calls[c].digest, s.calls[c].answer)
      && s.calls[c].start - ttl < r.stamp <= r.at <= s.clock
  {
    var s := Run(Start(clock, repo), steps, ttl);
    RunIsSound(clock, repo, steps, ttl);
    assert SoundCall(s.readings, s.calls[c], s.clock, ttl);
    r :| Behind(r, s.readings, s.calls[c].digest, s.calls[c].answer) && s.calls[c].start - ttl < r.stamp;
  }

  // ---- What reads of a key can return ----

  /** Whenever the clock is at `from` or later, the repository's record of `digest` is one that
      `holds`. */
  predicate RepoHolds(s: State, digest: string, from: int, holds: Option<Record> -> bool) {
    s.clock >= from ==> holds(InRepo(s.repo, digest))
  }

  predicate AlwaysHolds(clock: int, repo: Repo, steps: seq<Step>, ttl: int, digest: string, from: int,
      holds: Option<Record> -> bool)
    requires LegalRun(Start(clock, repo), steps, ttl)
  {
    && RepoHolds(Run(Start(clock, repo), steps, ttl), digest, from, holds)
    && (steps != [] ==> AlwaysHolds(clock, repo, steps[..|steps| - 1], ttl, digest, from, holds))
  }

  lemma {:induction false} ReadingsHold(clock: int, repo: Repo, steps: seq<Step>, ttl: int, digest: string,
      from: int, holds: Option<Record> -> bool)
    requires LegalRun(Start(clock, repo), steps, ttl) && AlwaysHolds(clock, repo, steps, ttl, digest, from, holds)
    ensures forall r :: r in Run(Start(clock, repo), steps, ttl).readings && r.digest == digest && r.at >= from ==>
      holds(r.record)
  {
    if steps == [] {
    } else {
      ReadingsHold(clock, repo, steps[..|steps| - 1], ttl, digest, from, holds);
    }
  }

  function NotActive(): Option<Record> -> bool {
    (r: Option<Record>) => r.None? || !r.value.active
  }

  /** A key that is disabled (or gone) from time `from` on is refused by every call that starts one
      TTL or more after `from`. */
  lemma RevocationBound(clock: int, repo: Repo, steps: seq<Step>, ttl: int, digest: string, from: int, c: nat)
    requires ttl > 0 && LegalRun(Start(clock, repo), steps, ttl)
    requires AlwaysHolds(clock, repo, steps, ttl, digest, from, NotActive())
    requires var s := Run(Start(clock, repo), steps, ttl);
      c in s.calls && s.calls[c].Done? && s.calls[c].digest == digest && s.calls[c].start >= from + ttl
    ensures Run(Start(clock, repo), steps, ttl).calls[c].answer == Refused
  {
    var r := BoundedStaleness(clock, repo, steps, ttl, c);
    ReadingsHold(clock, repo, steps, ttl, digest, from, NotActive());
  }

  function ActiveForever(): Option<Record> -> bool {
    (r: Option<Record>) => r.Some? && r.value.active && r.value.expiresAt.None?
  }

  /** The other way round: a key that is active without expiry from time `from` on is accepted by
      every call that starts one TTL or more after `from` and completes, negative caching
      notwithstanding. */
  lemma ActivationBound(clock: int, repo: Repo, steps: seq<Step>, ttl: int, digest: string, from: int, c: nat)
    requires ttl > 0 && LegalRun(Start(clock, repo), steps, ttl)
    requires AlwaysHolds(clock, repo, steps, ttl, digest, from, ActiveForever())
    requires var s := Run(Start(clock, repo), steps, ttl);
      c in s.calls && s.calls[c].Done? && s.calls[c].digest == digest && s.calls[c].start >= from + ttl
    ensures Run(Start(clock, repo), steps, ttl).calls[c].answer.Accepted?
  {
    var r := BoundedStaleness(clock, repo, steps, ttl, c);
    ReadingsHold(clock, repo, steps, ttl, digest, from, ActiveForever());
  }

  /** An expired key is accepted for less than one TTL past its expiry. */
  lemma ExpiryBound(clock: int, repo: Repo, steps: seq<Step>, ttl: int, c: nat)
    requires ttl > 0 && LegalRun(Start(clock, repo), steps, ttl)
    requires var s := Run(Start(clock, repo), steps, ttl);
      c in s.calls && s.calls[c].Done? && s.calls[c].answer.Accepted?
    ensures var call := Run(Start(clock, repo), steps, ttl).calls[c];
      call.answer.principal.expiresAt.Some? ==> call.start < call.answer.principal.expiresAt.value + ttl
  {
    var r := BoundedStaleness(clock, repo, steps, ttl, c);
  }

  // ---- What answers say ----

  /** The verdict on a record is acceptance, with what the record says, if and only if the record is
      active and does not run out, or runs out later. */
  lemma VerdictIff(r: Option<Record>, now: int)
    ensures var a := Verdict(r, now);
      && (a.Accepted? <==> r.Some? && r.value.active && (r.value.expiresAt == None || now < r.value.expiresAt.value))
      && (a.Accepted? ==> a.principal == Principal(r.value.id, r.value.keyDigest, r.value.ownerID,
                                                    r.value.authLevel, r.value.rateLimit, r.value.expiresAt))
  {
  }

  /** What the cache answers: the last answer set for a digest, for one TTL from the clock reading of its
      call, whatever is set for other digests. */
  lemma CacheServes(cache: Cache, digest: string, answer: Answer, now: int, ttl: int, other: string, later: int)
    ensures var after := AfterSet(cache, digest, answer, now, ttl);
      && (Fresh(after, digest, later) <==> later < now + ttl)
      && after[digest].answer == answer
      && (other != digest ==>
            (Fresh(after, other, later) <==> other in cache && later < cache[other].expiresAt)
            && (other in cache ==> after[other] == cache[other]))
  {
  }

  /** The repository's record of the digest at some moment of the run, and when that was. */
  ghost predicate WasHeld(s: State, steps: seq<Step>, ttl: int, digest: string, record: Option<Record>, at: int)
    requires LegalRun(s, steps, ttl)
    decreases steps
  {
    || (InRepo(Run(s, steps, ttl).repo, digest) == record && Run(s, steps, ttl).clock == at)
    || (steps != [] && WasHeld(s, steps[..|steps| - 1], ttl, digest, record, at))
  }

  /** Every read returned what the repository held at that moment. */
  lemma {:induction false} ReadingsWereHeld(s: State, steps: seq<Step>, ttl: int)
    requires LegalRun(s, steps, ttl) && s.readings == []
    ensures forall r :: r in Run(s, steps, ttl).readings ==> WasHeld(s, steps, ttl, r.digest, r.record, r.at)
  {
    if steps == [] {
    } else {
      var front, step := steps[..|steps| - 1], steps[|steps| - 1];
      ReadingsWereHeld(s, front, ttl);
      var before, after := Run(s, front, ttl), Run(s, steps, ttl);
      forall r | r in after.readings
        ensures WasHeld(s, steps, ttl, r.digest, r.record, r.at)
      {
        if r !in before.readings {
          assert step.Look? && r.record == InRepo(after.repo, r.digest) && r.at == after.clock;
        }
      }
    }
  }

  /** Under every interleaving an accepted answer says what a record said that the repository held, for
      the digest of the call, at a moment later than the start of the call less the TTL. */
  lemma AcceptedWasHeld(clock: int, repo: Repo, steps: seq<Step>, ttl: int, c: nat) returns (record: Record, at: int)
    requires ttl > 0 && LegalRun(Start(clock, repo), steps, ttl)
    requires var s := Run(Start(clock, repo), steps, ttl);
      c in s.calls && s.calls[c].Done? && s.calls[c].answer.Accepted?
    ensures var call := Run(Start(clock, repo), steps, ttl).calls[c];
      && WasHeld(Start(clock, repo), steps, ttl, call.digest, Some(record), at)
      && call.start - ttl < at && record.active
      && call.answer.principal == Principal(record.id, record.keyDigest, record.ownerID, record.authLevel,
                                            record.rateLimit, record.expiresAt)
  {
    var r := BoundedStaleness(clock, repo, steps, ttl, c);
    ReadingsWereHeld(Start(clock, repo), steps, ttl);
    VerdictIff(r.record, r.stamp);
    hide LegalRun;
    hide Run;
    hide WasHeld;
    record, at := r.record.value, r.at;
  }

  /** The record is active, and runs out at this time, if ever. */
  function ActiveUntil(expiry: Option<int>): Option<Record> -> bool {
    (r: Option<Record>) => r.Some? && r.value.active && r.value.expiresAt == expiry
  }

  /** A key that is active from time `from` on, and runs out at `expiry` if ever: a call that starts one
      TTL or more after `from` and completes is accepted if and only if the read behind its answer was
      made by a call that started before the expiry. */
  lemma AcceptedIffReadInTime(clock: int, repo: Repo, steps: seq<Step>, ttl: int, digest: string, from: int,
      expiry: Option<int>, c: nat) returns (r: Reading)
    requires ttl > 0 && LegalRun(Start(clock, repo), steps, ttl)
    requires AlwaysHolds(clock, repo, steps, ttl, digest, from, ActiveUntil(expiry))
    requires var s := Run(Start(clock, repo), steps, ttl);
      c in s.calls && s.calls[c].Done? && s.calls[c].digest == digest && s.calls[c].start >= from + ttl
    ensures var s := Run(Start(clock, repo), steps, ttl);
      && r in s.readings && r.digest == digest && s.calls[c].start - ttl < r.stamp <= r.at <= s.clock
      && (s.calls[c].answer.Accepted? <==> expiry.None? || r.stamp < expiry.value)
  {
    r := BoundedStaleness(clock, repo, steps, ttl, c);
    ReadingsHold(clock, repo, steps, ttl, digest, from, ActiveUntil(expiry));
    VerdictIff(r.record, r.stamp);
    hide LegalRun;
    hide Run;
    hide AlwaysHolds;
  }

  /** So every call that starts one TTL or more after `from` and completes before the expiry is
      accepted. */
  lemma AcceptedBeforeExpiry(clock: int, repo: Repo, steps: seq<Step>, ttl: int, digest: string, from: int,
      expiry: Option<int>, c: nat)
    requires ttl > 0 && LegalRun(Start(clock, repo), steps, ttl)
    requires AlwaysHolds(clock, repo, steps, ttl, digest, from, ActiveUntil(expiry))
    requires var s := Run(Start(clock, repo), steps, ttl);
      && c in s.calls && s.calls[c].Done? && s.calls[c].digest == digest && s.calls[c].start >= from + ttl
      && (expiry.Some? ==> s.clock < expiry.value)
    ensures Run(Start(clock, repo), steps, ttl).calls[c].answer.Accepted?
  {
    var r := AcceptedIffReadInTime(clock, repo, steps, ttl, digest, from, expiry, c);
    hide LegalRun;
    hide Run;
    hide AlwaysHolds;
  }

  // ---- A run up to the bound ----

  lemma OneMore(s: State, steps: seq<Step>, step: Step, ttl: int)
    requires LegalRun(s, steps, ttl) && Legal(Run(s, steps, ttl), step)
    ensures LegalRun(s, steps + [step], ttl) && Run(s, steps + [step], ttl) == Next(Run(s, steps, ttl), step, ttl)
  {
    hide Legal;
    hide Next;
    assert (steps + [step])[..|steps|] == steps;
  }

  lemma StartOfRun(s: State, ttl: int)
    ensures LegalRun(s, [], ttl) && Run(s, [], ttl) == s
  {
  }

  /** A first call fills the cache. */
  function FirstCall(digest: string): seq<Step> { [Begin(0, digest), Get(0), Look(0), Set(0)] }

  /** The key is disabled, time passes, and a second call asks. */
  function SecondCall(digest: string, disabled: Repo, ttl: int): seq<Step> {
    [ChangeRepo(disabled), Tick(ttl - 1), Begin(1, digest), Get(1)]
  }

  lemma FirstCallCaches(digest: string, r: Record, ttl: int)
    requires ttl > 0 && r.active && r.expiresAt.None?
    ensures var s := Start(0, map[digest := r]);
      && LegalRun(s, FirstCall(digest), ttl)
      && var after := Run(s, FirstCall(digest), ttl);
      && after.clock == 0 && digest in after.cache && 1 !in after.calls
      && after.cache[digest] == Entry(Accepted(PrincipalOf(r)), ttl)
  {
    hide LegalRun;
    hide Run;
    var s := Start(0, map[digest := r]);
    StartOfRun(s, ttl);
    OneMore(s, [], Begin(0, digest), ttl);
    assert [] + [Begin(0, digest)] == [Begin(0, digest)];
    OneMore(s, [Begin(0, digest)], Get(0), ttl);
    OneMore(s, [Begin(0, digest)] + [Get(0)], Look(0), ttl);
    OneMore(s, [Begin(0, digest)] + [Get(0)] + [Look(0)], Set(0), ttl);
    assert FirstCall(digest) == [Begin(0, digest)] + [Get(0)] + [Look(0)] + [Set(0)];
  }

  /** The bound is tight. In this run a first call finds the key active, the key is disabled at once,
      and a second call, starting one tick before the TTL is over, still accepts it. */
  lemma RevokedKeyStillAccepted(digest: string, r: Record, disabled: Repo, ttl: int)
    requires ttl > 1 && r.active && r.expiresAt.None?
    requires disabled == map[digest := r.(active := false)]
    ensures var s, steps := Start(0, map[digest := r]), FirstCall(digest) + SecondCall(digest, disabled, ttl);
      && LegalRun(s, steps, ttl)
      && Run(s, steps, ttl).repo == disabled
      && 1 in Run(s, steps, ttl).calls
      && Run(s, steps, ttl).calls[1] == Done(digest, ttl - 1, Accepted(PrincipalOf(r)))
  {
    var s, first := Start(0, map[digest := r]), FirstCall(digest);
    FirstCallCaches(digest, r, ttl);
    hide LegalRun;
    hide Run;
    hide Start;
    hide FirstCall;
    OneMore(s, first, ChangeRepo(disabled), ttl);
    OneMore(s, first + [ChangeRepo(disabled)], Tick(ttl - 1), ttl);
    OneMore(s, first + [ChangeRepo(disabled)] + [Tick(ttl - 1)], Begin(1, digest), ttl);
    OneMore(s, first + [ChangeRepo(disabled)] + [Tick(ttl - 1)] + [Begin(1, digest)], Get(1), ttl);
    assert first + SecondCall(digest, disabled, ttl)
        == first + [ChangeRepo(disabled)] + [Tick(ttl - 1)] + [Begin(1, digest)] + [Get(1)];
  }

  // ---- A call that reads too late ----

  /** A call begins before the expiry, and a second one at it. */
  function BothBegin(digest: string): seq<Step> { [Begin(0, digest), Tick(1), Begin(1, digest)] }

  lemma BothHaveBegun(digest: string, r: Record, ttl: int)
    ensures var s := Start(0, map[digest := r]);
      && LegalRun(s, BothBegin(digest), ttl)
      && Run(s, BothBegin(digest), ttl)
        == State(1, map[digest := r], map[], map[0 := Begun(digest, 0), 1 := Begun(digest, 1)], [])
  {
    hide LegalRun;
    hide Run;
    var s := Start(0, map[digest := r]);
    StartOfRun(s, ttl);
    OneMore(s, [], Begin(0, digest), ttl);
    assert [] + [Begin(0, digest)] == [Begin(0, digest)];
    OneMore(s, [Begin(0, digest)], Tick(1), ttl);
    OneMore(s, [Begin(0, digest)] + [Tick(1)], Begin(1, digest), ttl);
    assert BothBegin(digest) == [Begin(0, digest)] + [Tick(1)] + [Begin(1, digest)];
  }

  /** Starting before the expiry is not enough. In this run a call starts one tick before the key runs
      out, but the cache answers it only after a second call, started at the expiry, has cached a
      refusal: the key is refused, though the repository held it active and unexpired when the call
      started. */
  lemma LateReadIsRefused(digest: string, r: Record, ttl: int)
    requires ttl > 0 && r.active && r.expiresAt == Some(1)
    ensures var s := Start(0, map[digest := r]);
      var steps := BothBegin(digest) + [Get(1)] + [Look(1)] + [Set(1)] + [Get(0)];
      && LegalRun(s, steps, ttl)
      && Run(s, steps, ttl).repo == map[digest := r]
      && 0 in Run(s, steps, ttl).calls
      && Run(s, steps, ttl).calls[0] == Done(digest, 0, Refused)
  {
    var s, begun := Start(0, map[digest := r]), BothBegin(digest);
    BothHaveBegun(digest, r, ttl);
    hide LegalRun;
    hide Run;
    hide Start;
    hide BothBegin;
    OneMore(s, begun, Get(1), ttl);
    OneMore(s, begun + [Get(1)], Look(1), ttl);
    OneMore(s, begun + [Get(1)] + [Look(1)], Set(1), ttl);
    OneMore(s, begun + [Get(1)] + [Look(1)] + [Set(1)], Get(0), ttl);
  }
}
