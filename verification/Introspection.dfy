/**
 * `OAuth2IntrospectionService`: the cache of active answers in front of a
 * token-introspection endpoint (RFC 7662), under any interleaving of calls.
 *
 * Times are wall-clock milliseconds and need not grow from step to step.
 */
module Introspection {
  import opened Options

  /** `exp` is the claim when it is a number, in seconds; section 4 of RFC 7662 bounds caching by it. */
  datatype Claims = Claims(active: bool, exp: Option<real>, body: string)

  datatype CacheEntry = CacheEntry(claims: Claims, expiresAt: real)

  /** A JavaScript `Map`: its contents, and its keys in insertion order. */
  datatype Cache = Cache(entries: map<string, CacheEntry>, order: seq<string>)

  datatype Settings = Settings(enabled: bool, ttlMs: real, maxEntries: int)

  /** What the endpoint did; the body may be `null`. */
  datatype Answer = Unreachable | ErrorStatus(status: int) | Body(claims: Option<Claims>)

  datatype Outcome = Granted(claims: Claims) | Unauthorized | Unavailable

  function Without(order: seq<string>, key: string): (r: seq<string>)
    ensures forall k :: k in r <==> k in order && k != key
    ensures |r| <= |order|
    ensures key in order ==> |r| < |order|
  {
    if order == [] then []
    else
      var front, last := Without(order[..|order| - 1], key), order[|order| - 1];
      if last == key then front else front + [last]
  }

  function Delete(c: Cache, key: string): Cache {
    Cache(c.entries - {key}, Without(c.order, key))
  }

  /** `Map.set`: a key that is there keeps its place. */
  function Put(c: Cache, key: string, e: CacheEntry): Cache {
    Cache(c.entries[key := e], if key in c.entries then c.order else c.order + [key])
  }

  function Lookup(c: Cache, key: string, now: real): (Cache, Option<Claims>) {
    if key !in c.entries then (c, None)
    else if c.entries[key].expiresAt > now then (c, Some(c.entries[key].claims))
    else (Delete(c, key), None)
  }

  function ExpiresAt(claims: Claims, ttlMs: real, now: real): real {
    if claims.exp.Some? && claims.exp.value * 1000.0 < now + ttlMs then claims.exp.value * 1000.0 else now + ttlMs
  }

  function Trimmed(c: Cache, maxEntries: int): Cache {
    if |c.order| > maxEntries && c.order != [] then Delete(c, c.order[0]) else c
  }

  function Store(c: Cache, settings: Settings, key: string, claims: Claims, now: real): Cache {
    var expiresAt := ExpiresAt(claims, settings.ttlMs, now);
    if expiresAt <= now then c else Trimmed(Put(c, key, CacheEntry(claims, expiresAt)), settings.maxEntries)
  }

  // ----- calls -----

  /** `hit` says that the answer came from the cache. */
  datatype Call = Waiting(token: string) | Done(token: string, outcome: Outcome, hit: bool)

  datatype World = World(cache: Cache, calls: map<nat, Call>)

  datatype Step = Ask(id: nat, token: string, now: real) | Reply(id: nat, answer: Answer, now: real)

  const EMPTY := World(Cache(map[], []), map[])

  predicate Enabled(w: World, step: Step) {
    if step.Ask? then step.id !in w.calls else step.id in w.calls && w.calls[step.id].Waiting?
  }

  function OutcomeOf(answer: Answer): Outcome {
    match answer
    case Unreachable => Unavailable
    case ErrorStatus(_) => Unavailable
    case Body(claims) => if claims.Some? && claims.value.active then Granted(claims.value) else Unauthorized
  }

  /** `digest` is the hash under which a token is cached. */
  function Apply(w: World, settings: Settings, digest: string -> string, step: Step): World
    requires Enabled(w, step)
  {
    match step
    case Ask(id, token, now) =>
      if token == "" then w.(calls := w.calls[id := Done(token, Unauthorized, false)])
      else if !settings.enabled then w.(calls := w.calls[id := Waiting(token)])
      else
        var (cache, hit) := Lookup(w.cache, digest(token), now);
        World(cache, w.calls[id := if hit.Some? then Done(token, Granted(hit.value), true) else Waiting(token)])
    case Reply(id, answer, now) =>
      var token, outcome := w.calls[id].token, OutcomeOf(answer);
      World(
        if settings.enabled && outcome.Granted? then Store(w.cache, settings, digest(token), outcome.claims, now) else w.cache,
        w.calls[id := Done(token, outcome, false)])
  }

  ghost predicate Execution(settings: Settings, digest: string -> string, steps: seq<Step>, run: seq<World>) {
    && |run| == |steps| + 1
    && run[0] == EMPTY
    && forall i | 0 <= i < |steps| :: Enabled(run[i], steps[i]) && run[i + 1] == Apply(run[i], settings, digest, steps[i])
  }

  // ----- the invariant -----

  predicate Distinct(order: seq<string>) {
    forall i, j | 0 <= i < j < |order| :: order[i] != order[j]
  }

  /** In order, and not too many. */
  ghost predicate CacheOk(c: Cache, settings: Settings) {
    && Ordered(c)
    && |c.order| <= Capacity(settings.maxEntries)
  }

  lemma {:induction false} WithoutKeepsDistinct(order: seq<string>, key: string)
    requires Distinct(order)
    ensures Distinct(Without(order, key))
  {
    if order != [] {
      var front, last := order[..|order| - 1], order[|order| - 1];
      WithoutKeepsDistinct(front, key);
      LastIsNew(front, last, order);
      assert forall i | 0 <= i < |Without(front, key)| :: Without(front, key)[i] in front;
    }
  }

  lemma LastIsNew(front: seq<string>, last: string, order: seq<string>)
    requires order == front + [last] && Distinct(order)
    ensures last !in front
  {
    forall i | 0 <= i < |front| ensures front[i] != last { assert order[i] != order[|front|]; }
  }

  /** The order lists exactly the keys, once each. */
  ghost predicate Ordered(c: Cache) {
    (forall key :: key in c.order <==> key in c.entries) && Distinct(c.order)
  }

  lemma PutIsOk(c: Cache, key: string, e: CacheEntry)
    requires Ordered(c)
    ensures var put := Put(c, key, e);
            Ordered(put) && put.order != [] && |put.order| <= |c.order| + 1
  {
  }

  lemma DeleteIsOk(c: Cache, key: string)
    requires Ordered(c)
    ensures Ordered(Delete(c, key)) && |Delete(c, key).order| <= |c.order|
    ensures key in c.order ==> |Delete(c, key).order| < |c.order|
  {
    WithoutKeepsDistinct(c.order, key);
  }

  function Capacity(maxEntries: int): nat {
    if maxEntries < 0 then 0 else maxEntries
  }

  lemma TrimmedIsOk(c: Cache, maxEntries: int)
    requires Ordered(c) && |c.order| <= Capacity(maxEntries) + 1
    ensures Ordered(Trimmed(c, maxEntries)) && |Trimmed(c, maxEntries).order| <= Capacity(maxEntries)
  {
    if c.order != [] {
      DeleteIsOk(c, c.order[0]);
      assert c.order[0] in c.order;
    }
  }

  lemma StoreIsOk(c: Cache, settings: Settings, key: string, claims: Claims, now: real)
    requires CacheOk(c, settings)
    ensures CacheOk(Store(c, settings, key, claims, now), settings)
  {
    var e := CacheEntry(claims, ExpiresAt(claims, settings.ttlMs, now));
    PutIsOk(c, key, e);
    TrimmedIsOk(Put(c, key, e), settings.maxEntries);
  }

  /** The answer that put `e` under `key`, and when. */
  ghost predicate CameFrom(settings: Settings, digest: string -> string, steps: seq<Step>, run: seq<World>, j: nat,
      key: string, e: CacheEntry)
    requires j < |steps| < |run|
  {
    && steps[j].Reply? && steps[j].id in run[j].calls && run[j].calls[steps[j].id].Waiting?
    && digest(run[j].calls[steps[j].id].token) == key
    && OutcomeOf(steps[j].answer) == Granted(e.claims)
    && e.expiresAt == ExpiresAt(e.claims, settings.ttlMs, steps[j].now)
  }

  ghost predicate Inv(settings: Settings, digest: string -> string, steps: seq<Step>, run: seq<World>, i: nat)
    requires i <= |steps| < |run|
  {
    && CacheOk(run[i].cache, settings)
    && forall key | key in run[i].cache.entries ::
         exists j: nat | j < i :: CameFrom(settings, digest, steps, run, j, key, run[i].cache.entries[key])
  }

  lemma CacheStaysOk(w: World, settings: Settings, digest: string -> string, step: Step)
    requires CacheOk(w.cache, settings) && Enabled(w, step)
    ensures CacheOk(Apply(w, settings, digest, step).cache, settings)
  {
    if step.Ask? {
      DeleteIsOk(w.cache, digest(step.token));
    } else if OutcomeOf(step.answer).Granted? {
      StoreIsOk(w.cache, settings, digest(w.calls[step.id].token), OutcomeOf(step.answer).claims, step.now);
    }
  }

  /** A step changes an entry only by storing the answer it brings. */
  lemma EntriesComeFrom(settings: Settings, digest: string -> string, steps: seq<Step>, run: seq<World>, i: nat, key: string)
    requires Execution(settings, digest, steps, run) && i < |steps| && key in run[i + 1].cache.entries
    ensures var e := run[i + 1].cache.entries[key];
            || (key in run[i].cache.entries && run[i].cache.entries[key] == e)
            || CameFrom(settings, digest, steps, run, i, key, e)
  {
  }

  lemma {:induction false} ReachableOk(settings: Settings, digest: string -> string, steps: seq<Step>, run: seq<World>, i: nat)
    requires Execution(settings, digest, steps, run) && i < |run|
    ensures Inv(settings, digest, steps, run, i)
  {
    if i > 0 {
      ReachableOk(settings, digest, steps, run, i - 1);
      CacheStaysOk(run[i - 1], settings, digest, steps[i - 1]);
      forall key | key in run[i].cache.entries
        ensures exists j: nat | j < i :: CameFrom(settings, digest, steps, run, j, key, run[i].cache.entries[key])
      {
        EntriesComeFrom(settings, digest, steps, run, i - 1, key);
      }
    }
  }

  // ----- what the cache promises -----

  ghost predicate CollisionFree(digest: string -> string) {
    forall s, t :: digest(s) == digest(t) ==> s == t
  }

  /**
   * A hit repeats an active answer the endpoint gave for that very token less
   * than the time to live earlier, and never at or past the token's own expiry.
   */
  lemma HitsAreFreshAnswers(settings: Settings, digest: string -> string, steps: seq<Step>, run: seq<World>, i: nat)
    returns (j: nat)
    requires Execution(settings, digest, steps, run) && CollisionFree(digest) && i < |steps| && steps[i].Ask?
    requires run[i + 1].calls[steps[i].id].Done? && run[i + 1].calls[steps[i].id].hit
    ensures j < i && steps[j].Reply? && steps[j].id in run[j].calls && run[j].calls[steps[j].id] == Waiting(steps[i].token)
    ensures OutcomeOf(steps[j].answer).Granted? && OutcomeOf(steps[j].answer) == run[i + 1].calls[steps[i].id].outcome
    ensures steps[i].now < steps[j].now + settings.ttlMs
    ensures var claims := OutcomeOf(steps[j].answer).claims;
            claims.active && (claims.exp.Some? ==> steps[i].now < claims.exp.value * 1000.0)
  {
    ReachableOk(settings, digest, steps, run, i);
    var key := digest(steps[i].token);
    j :| j < i && CameFrom(settings, digest, steps, run, j, key, run[i].cache.entries[key]);
  }

  /** The cache never holds more than the configured number of entries. */
  lemma NeverTooMany(settings: Settings, digest: string -> string, steps: seq<Step>, run: seq<World>, i: nat)
    requires Execution(settings, digest, steps, run) && i < |run|
    ensures |run[i].cache.entries| == |run[i].cache.order| <= Capacity(settings.maxEntries)
  {
    ReachableOk(settings, digest, steps, run, i);
    KeysAreOrder(run[i].cache.order);
    assert run[i].cache.entries.Keys == set k | k in run[i].cache.order;
    assert |run[i].cache.entries| == |run[i].cache.entries.Keys|;
  }

  lemma {:induction false} KeysAreOrder(order: seq<string>)
    requires Distinct(order)
    ensures |set k | k in order| == |order|
  {
    if order != [] {
      var front, last := order[..|order| - 1], order[|order| - 1];
      KeysAreOrder(front);
      LastIsNew(front, last, order);
      assert (set k | k in order) == (set k | k in front) + {last};
    }
  }

  /** Worth keeping and still good: within the time to live, and before the token's own expiry if it has one. */
  predicate Fresh(claims: Claims, ttlMs: real, stored: real, now: real) {
    now < stored + ttlMs && (claims.exp.Some? ==> now < claims.exp.value * 1000.0)
  }

  /** An answer that is worth keeping is found again until it expires, if anything may be kept at all. */
  lemma StoredIsFoundIff(c: Cache, settings: Settings, key: string, claims: Claims, stored: real, now: real)
    requires CacheOk(c, settings) && Fresh(claims, settings.ttlMs, stored, stored)
    ensures Lookup(Store(c, settings, key, claims, stored), key, now).1
            == if settings.maxEntries >= 1 && Fresh(claims, settings.ttlMs, stored, now) then Some(claims) else None
  {
    var put := Put(c, key, CacheEntry(claims, ExpiresAt(claims, settings.ttlMs, stored)));
    assert put.order != [];
    if settings.maxEntries < 1 {
      assert c.order == [];
    } else if key in c.entries {
      assert |put.order| <= settings.maxEntries;
    }
  }

  /** An answer that has expired when it arrives is not kept. */
  lemma StaleIsNotStored(c: Cache, settings: Settings, key: string, claims: Claims, stored: real)
    requires !Fresh(claims, settings.ttlMs, stored, stored)
    ensures Store(c, settings, key, claims, stored) == c
  {
  }

  /**
   * Without a hit a caller is told what the endpoint said: the claims of an
   * active token, 401 for an inactive one or no answer in the body, 503 when
   * the endpoint could not be reached or answered with an error.
   */
  lemma RepliesAreTheEndpoints(w: World, settings: Settings, digest: string -> string, id: nat, answer: Answer, now: real)
    requires Enabled(w, Reply(id, answer, now))
    ensures var token := w.calls[id].token;
            var call := Apply(w, settings, digest, Reply(id, answer, now)).calls[id];
            && (answer == Unreachable || answer.ErrorStatus? ==> call == Done(token, Unavailable, false))
            && (answer == Body(None) ==> call == Done(token, Unauthorized, false))
            && (forall claims :: answer == Body(Some(claims)) ==>
                  call == Done(token, if claims.active then Granted(claims) else Unauthorized, false))
  {
  }

  /** An empty token is refused at once, and without a cache every token is asked for. */
  lemma AskWithoutCache(w: World, settings: Settings, digest: string -> string, id: nat, token: string, now: real)
    requires Enabled(w, Ask(id, token, now)) && (token == "" || !settings.enabled)
    ensures Apply(w, settings, digest, Ask(id, token, now))
            == World(w.cache, w.calls[id := if token == "" then Done(token, Unauthorized, false) else Waiting(token)])
  {
  }

  /**
   * A granted answer is given again, without asking the endpoint, to the next
   * caller with that token exactly while it is fresh, if anything may be kept;
   * after that the endpoint is asked again.
   */
  lemma NextCallerHitsIff(w: World, settings: Settings, digest: string -> string, id: nat, claims: Claims, stored: real,
                          next: nat, now: real)
    requires CacheOk(w.cache, settings) && settings.enabled
    requires Enabled(w, Reply(id, Body(Some(claims)), stored)) && w.calls[id].token != "" && next !in w.calls
    requires claims.active && Fresh(claims, settings.ttlMs, stored, stored)
    ensures var token := w.calls[id].token;
            var answered := Apply(w, settings, digest, Reply(id, Body(Some(claims)), stored));
            && Enabled(answered, Ask(next, token, now))
            && Apply(answered, settings, digest, Ask(next, token, now)).calls[next]
               == if settings.maxEntries >= 1 && Fresh(claims, settings.ttlMs, stored, now)
                  then Done(token, Granted(claims), true) else Waiting(token)
  {
    StoredIsFoundIff(w.cache, settings, digest(w.calls[id].token), claims, stored, now);
  }

  /** Storing one key drops another only when the cache is full, and then only the oldest. */
  lemma DropsOnlyTheOldest(c: Cache, settings: Settings, key: string, claims: Claims, now: real, other: string)
    requires CacheOk(c, settings) && other in c.entries && other != key
    requires other !in Store(c, settings, key, claims, now).entries
    ensures key !in c.entries && |c.order| == settings.maxEntries && other == c.order[0]
  {
    assert c.order != [];
  }

  // ----- the fields of the service -----

  class OAuth2IntrospectionService {
    const settings: Settings
    var entries: map<string, CacheEntry>
    var order: seq<string>

    constructor (settings: Settings)
      ensures this.settings == settings && Contents() == Cache(map[], []) && CacheOk(Contents(), settings)
    {
      this.settings := settings;
      entries, order := map[], [];
    }

    function Contents(): Cache
      reads this
    {
      Cache(entries, order)
    }

    method Remove(key: string)
      modifies this
      ensures Contents() == Delete(old(Contents()), key)
    {
      entries := entries - {key};
      order := Without(order, key);
    }

    /** The part of `introspect` before the request: a cached answer, or nothing. */
    method Cached(key: string, now: real) returns (hit: Option<Claims>)
      modifies this
      ensures (Contents(), hit) == Lookup(old(Contents()), key, now)
    {
      hit := None;
      if key in entries {
        if entries[key].expiresAt > now { return Some(entries[key].claims); }
        Remove(key);
      }
    }

    /** `Map.set`. */
    method Set(key: string, e: CacheEntry)
      modifies this
      ensures Contents() == Put(old(Contents()), key, e)
    {
      if key !in entries { order := order + [key]; }
      entries := entries[key := e];
    }

    /** Evict the oldest entry, in insertion order, once over capacity. */
    method EvictOldest()
      modifies this
      ensures Contents() == Trimmed(old(Contents()), settings.maxEntries)
    {
      if |order| > settings.maxEntries && order != [] {
        Remove(order[0]);
      }
    }

    method StoreActive(key: string, claims: Claims, now: real)
      modifies this
      ensures Contents() == Store(old(Contents()), settings, key, claims, now)
    {
      var expiresAt := now + settings.ttlMs;
      if claims.exp.Some? && claims.exp.value * 1000.0 < expiresAt { expiresAt := claims.exp.value * 1000.0; }
      if expiresAt <= now { return; }
      Set(key, CacheEntry(claims, expiresAt));
      EvictOldest();
    }
  }
}
