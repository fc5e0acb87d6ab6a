/** The JSON Web Key Set cache of the identity verifier (a JWK Set is section 5 of RFC 7517): the
    cached set, the double-checked refresh behind a mutex, and the refresh cooldown. Times are
    in milliseconds. */
module JwksCache {
  import opened Common

  const COOLDOWN: nat := 30_000

  type Key = string

  type KeySet = map<string, Key>

  datatype Cached = Cached(keys: KeySet, expiresAt: nat)

  datatype Cache = Cache(keys: Option<Cached>, lastAttempt: Option<nat>)

  datatype Lookup = Found(key: Key) | MissInCooldown | Refreshable

  datatype Outcome = Got(key: Key) | KeyUnavailable | FetchFailed

  function CachedLookup(c: Cache, id: string, now: nat): Lookup {
    if c.keys.Some? && c.keys.value.expiresAt > now && id in c.keys.value.keys then Found(c.keys.value.keys[id])
    else if c.lastAttempt.Some? && now < c.lastAttempt.value + COOLDOWN then MissInCooldown
    else Refreshable
  }

  /** The cache after a fetch that completed at `now`. Every attempt arms the cooldown; a failed one
      changes nothing else. */
  function Stored(c: Cache, fetched: Option<KeySet>, now: nat, ttl: nat): Cache {
    Cache(if fetched.Some? then Some(Cached(fetched.value, now + ttl)) else c.keys, Some(now))
  }

  function FetchOutcome(fetched: Option<KeySet>, id: string): Outcome {
    if fetched.None? then FetchFailed
    else if id in fetched.value then Got(fetched.value[id])
    else KeyUnavailable
  }

  function MissOutcome(l: Lookup): Outcome
    requires !l.Refreshable?
  {
    if l.Found? then Got(l.key) else KeyUnavailable
  }

  /** The cache and the outcome of one lookup: `before` is the cache at the first look, `seen` the cache once
      the mutex is held, and the fetch completes at `fetchedAt`. */
  function AfterFind(ttl: nat, id: string, before: Cache, now: nat, seen: Cache, locked: nat, fetched: Option<KeySet>, fetchedAt: nat)
    : (Cache, Outcome)
  {
    var first, second := CachedLookup(before, id, now), CachedLookup(seen, id, locked);
    if !first.Refreshable? then (before, MissOutcome(first))
    else if !second.Refreshable? then (seen, MissOutcome(second))
    else (Stored(seen, fetched, fetchedAt, ttl), FetchOutcome(fetched, id))
  }

  /*** The verifier object ***/

  class IdentityVerifier {
    const ttl: nat
    var keys: Option<Cached>
    var lastAttempt: Option<nat>

    function View(): Cache
      reads this
    {
      Cache(keys, lastAttempt)
    }

    constructor (ttl: nat)
      ensures this.ttl == ttl && View() == Cache(None, None)
    {
      this.ttl := ttl;
      keys, lastAttempt := None, None;
    }

    /** Looks a key up: in the cache, again once the refresh mutex is held, and at last remotely. `now`,
        `locked` and `fetchedAt` are the times of the two lookups and of the fetch's completion;
        `other` is what another caller may have stored while this one waited. */
    method FindKey(id: string, now: nat, other: Option<Cache>, locked: nat, fetched: Option<KeySet>, fetchedAt: nat)
      returns (outcome: Outcome)
      modifies this
      ensures var seen := if other.Some? then other.value else old(View());
              (View(), outcome) == AfterFind(ttl, id, old(View()), now, seen, locked, fetched, fetchedAt)
    {
      var lookup := CachedLookup(View(), id, now);
      if lookup.Found? { return Got(lookup.key); }
      if lookup.MissInCooldown? { return KeyUnavailable; }
      if other.Some? { keys, lastAttempt := other.value.keys, other.value.lastAttempt; }
      lookup := CachedLookup(View(), id, locked);
      if lookup.Found? { return Got(lookup.key); }
      if lookup.MissInCooldown? { return KeyUnavailable; }
      lastAttempt := Some(fetchedAt);
      if fetched.None? { return FetchFailed; }
      keys := Some(Cached(fetched.value, fetchedAt + ttl));
      return if id in fetched.value then Got(fetched.value[id]) else KeyUnavailable;
    }
  }

  /*** Concurrent lookups ***/

  datatype Pc =
    | Looking(id: string)
    | Waiting(id: string)
    | Fetching(id: string)
    | Done(id: string, outcome: Outcome, at: nat)

  datatype Fetch = Began(at: nat) | Completed(began: nat, at: nat)

  datatype Served = Served(at: nat, keys: KeySet)

  datatype State = State(
    clock: nat, cache: Cache, holder: Option<nat>, callers: map<nat, Pc>, began: nat,
    log: seq<Fetch>, served: seq<Served>)

  const Init := State(0, Cache(None, None), None, map[], 0, [], [])

  datatype Step =
    | Tick(by_: nat)
    | Spawn(caller: nat, id: string)
    | Look(caller: nat)
    | Acquire(caller: nat)
    | Complete(caller: nat, fetched: Option<KeySet>)
    | Cancel(caller: nat)

  predicate Enabled(s: State, step: Step) {
    match step
    case Tick(_) => true
    case Spawn(c, _) => c !in s.callers
    case Look(c) => c in s.callers && s.callers[c].Looking?
    case Acquire(c) => c in s.callers && s.callers[c].Waiting? && s.holder.None?
    case Complete(c, _) => c in s.callers && s.callers[c].Fetching?
    case Cancel(c) => c in s.callers && !s.callers[c].Done?
  }

  function At(s: State, c: nat, pc: Pc): State {
    s.(callers := s.callers[c := pc])
  }

  function DoComplete(ttl: nat, s: State, c: nat, fetched: Option<KeySet>): State
    requires Enabled(s, Complete(c, fetched))
  {
    var id := s.callers[c].id;
    At(s, c, Done(id, FetchOutcome(fetched, id), s.clock)).(
      cache := Stored(s.cache, fetched, s.clock, ttl), holder := None,
      log := s.log + [Completed(s.began, s.clock)],
      served := if fetched.Some? then s.served + [Served(s.clock, fetched.value)] else s.served)
  }

  function Do(ttl: nat, s: State, step: Step): State
    requires Enabled(s, step)
  {
    match step
    case Tick(d) => s.(clock := s.clock + d)
    case Spawn(c, id) => At(s, c, Looking(id))
    case Look(c) =>
      var id := s.callers[c].id;
      var lookup := CachedLookup(s.cache, id, s.clock);
      At(s, c, if lookup.Refreshable? then Waiting(id) else Done(id, MissOutcome(lookup), s.clock))
    case Acquire(c) =>
      var id := s.callers[c].id;
      var lookup := CachedLookup(s.cache, id, s.clock);
      if lookup.Refreshable? then
        At(s, c, Fetching(id)).(holder := Some(c), began := s.clock, log := s.log + [Began(s.clock)])
      else At(s, c, Done(id, MissOutcome(lookup), s.clock))
    case Complete(c, fetched) => DoComplete(ttl, s, c, fetched)
    case Cancel(c) =>
      s.(callers := s.callers - {c}, holder := if s.holder == Some(c) then None else s.holder)
  }

  ghost predicate Runs(ttl: nat, s: State, steps: seq<Step>, to: State)
    decreases |steps|
  {
    if steps == [] then s == to else Enabled(s, steps[0]) && Runs(ttl, Do(ttl, s, steps[0]), steps[1..], to)
  }

  /*** Invariants ***/

  ghost predicate HolderOk(s: State) {
    && (forall c :: c in s.callers ==> (s.callers[c].Fetching? <==> s.holder == Some(c)))
    && (s.holder.Some? ==> s.holder.value in s.callers && s.began <= s.clock)
  }

  lemma StepHolder(ttl: nat, s: State, step: Step)
    requires HolderOk(s) && Enabled(s, step)
    ensures HolderOk(Do(ttl, s, step))
  {
  }

  /** The step is the end of a fetch of caller `c`, or drops its call. */
  predicate EndsCall(step: Step, c: nat) {
    (step.Complete? || step.Cancel?) && step.caller == c
  }

  /** While a caller holds the mutex, no other step changes the cache, and it keeps fetching. */
  lemma HolderKeepsCache(ttl: nat, s: State, c: nat, step: Step)
    requires HolderOk(s) && s.holder == Some(c) && Enabled(s, step) && !EndsCall(step, c)
    ensures var s' := Do(ttl, s, step);
            s'.cache == s.cache && s'.holder == Some(c) && c in s'.callers && s'.callers[c] == s.callers[c]
  {
  }

  lemma {:induction false} FetchKeepsCache(ttl: nat, s: State, c: nat, steps: seq<Step>, to: State)
    requires HolderOk(s) && s.holder == Some(c) && Runs(ttl, s, steps, to)
    requires forall step :: step in steps ==> !EndsCall(step, c)
    ensures to.cache == s.cache && c in to.callers && to.callers[c] == s.callers[c]
    decreases |steps|
  {
    if steps != [] {
      HolderKeepsCache(ttl, s, c, steps[0]);
      StepHolder(ttl, s, steps[0]);
      FetchKeepsCache(ttl, Do(ttl, s, steps[0]), c, steps[1..], to);
    }
  }

  lemma {:induction false} RunHolder(ttl: nat, s: State, steps: seq<Step>, to: State)
    requires HolderOk(s) && Runs(ttl, s, steps, to)
    ensures HolderOk(to)
    decreases |steps|
  {
    if steps != [] {
      StepHolder(ttl, s, steps[0]);
      RunHolder(ttl, Do(ttl, s, steps[0]), steps[1..], to);
    }
  }

  /** The object's lookup is these steps: a look in state `s`; the mutex taken in a reachable state `s2`, whatever
      happened in between; and the fetch completed in state `s4`, after whatever steps other callers
      take meanwhile, which leave the cache alone. */
  lemma FindKeyIsSteps(ttl: nat, s: State, before: seq<Step>, s2: State, during: seq<Step>, s4: State, c: nat, id: string, fetched: Option<KeySet>)
    requires c in s.callers && s.callers[c] == Looking(id)
    requires Runs(ttl, Init, before, s2) && c in s2.callers && s2.callers[c] == Waiting(id) && s2.holder.None?
    requires Runs(ttl, Do(ttl, s2, Acquire(c)), during, s4) && forall step :: step in during ==> !EndsCall(step, c)
    ensures var (cache, outcome) := AfterFind(ttl, id, s.cache, s.clock, s2.cache, s2.clock, fetched, s4.clock);
            var s1, s3 := Do(ttl, s, Look(c)), Do(ttl, s2, Acquire(c));
            && (s1.callers[c] == Waiting(id) || (s1.callers[c] == Done(id, outcome, s.clock) && s1.cache == cache))
            && (s1.callers[c].Waiting? ==>
                  s3.callers[c] == Fetching(id) || (s3.callers[c] == Done(id, outcome, s2.clock) && s3.cache == cache))
            && (s1.callers[c].Waiting? && s3.callers[c].Fetching? ==>
                  && Enabled(s4, Complete(c, fetched))
                  && Do(ttl, s4, Complete(c, fetched)).callers[c] == Done(id, outcome, s4.clock)
                  && Do(ttl, s4, Complete(c, fetched)).cache == cache)
  {
    RunHolder(ttl, Init, before, s2);
    StepHolder(ttl, s2, Acquire(c));
    if Do(ttl, s2, Acquire(c)).callers[c].Fetching? {
      FetchKeepsCache(ttl, Do(ttl, s2, Acquire(c)), c, during, s4);
    }
  }

  /** No fetch begins within the cooldown of one that completed before it. */
  ghost predicate Spaced(log: seq<Fetch>) {
    forall i, j :: 0 <= i < j < |log| && log[i].Completed? ==>
      (log[j].Began? ==> log[j].at >= log[i].at + COOLDOWN) && (log[j].Completed? ==> log[j].began >= log[i].at + COOLDOWN)
  }

  ghost predicate LogOk(s: State) {
    && Spaced(s.log)
    && (forall i :: 0 <= i < |s.log| && s.log[i].Completed? ==>
          s.cache.lastAttempt.Some? && s.log[i].at <= s.cache.lastAttempt.value)
    && (s.holder.Some? ==> forall i :: 0 <= i < |s.log| && s.log[i].Completed? ==> s.log[i].at + COOLDOWN <= s.began)
    && (s.cache.lastAttempt.Some? ==> s.cache.lastAttempt.value <= s.clock)
  }

  /** A key that was served, at most `ttl` before `now`. */
  ghost predicate FreshlyServed(ttl: nat, served: seq<Served>, id: string, key: Key, now: nat) {
    exists i :: 0 <= i < |served| && served[i].at <= now < served[i].at + ttl
             && id in served[i].keys && served[i].keys[id] == key
  }

  ghost predicate ServedOk(ttl: nat, s: State) {
    && (s.cache.keys.Some? ==>
          && s.served != []
          && var last := s.served[|s.served| - 1];
             s.cache.keys.value == Cached(last.keys, last.at + ttl) && last.at <= s.clock)
    && (forall c :: c in s.callers && s.callers[c].Done? && s.callers[c].outcome.Got? ==>
          FreshlyServed(ttl, s.served, s.callers[c].id, s.callers[c].outcome.key, s.callers[c].at))
  }

  ghost predicate Safe(ttl: nat, s: State) {
    HolderOk(s) && LogOk(s) && ServedOk(ttl, s)
  }

  lemma ServedGrows(ttl: nat, served: seq<Served>, more: Served, id: string, key: Key, now: nat)
    requires FreshlyServed(ttl, served, id, key, now)
    ensures FreshlyServed(ttl, served + [more], id, key, now)
  {
    var i :| 0 <= i < |served| && served[i].at <= now < served[i].at + ttl
             && id in served[i].keys && served[i].keys[id] == key;
    assert (served + [more])[i] == served[i];
  }

  lemma LookSafe(ttl: nat, s: State, c: nat, id: string)
    requires Safe(ttl, s) && CachedLookup(s.cache, id, s.clock).Found?
    ensures FreshlyServed(ttl, s.served, id, CachedLookup(s.cache, id, s.clock).key, s.clock)
  {
    var last := |s.served| - 1;
    assert s.served[last].at <= s.clock < s.served[last].at + ttl;
  }

  lemma CompleteSafe(ttl: nat, s: State, c: nat, fetched: Option<KeySet>)
    requires ttl > 0 && Safe(ttl, s) && Enabled(s, Complete(c, fetched))
    ensures Safe(ttl, DoComplete(ttl, s, c, fetched))
  {
    var s' := DoComplete(ttl, s, c, fetched);
    if fetched.Some? {
      var id := s.callers[c].id;
      if id in fetched.value {
        assert s'.served[|s.served|] == Served(s.clock, fetched.value);
        assert FreshlyServed(ttl, s'.served, id, fetched.value[id], s.clock);
      }
      forall k | k in s.callers && k != c && s.callers[k].Done? && s.callers[k].outcome.Got?
        ensures FreshlyServed(ttl, s'.served, s.callers[k].id, s.callers[k].outcome.key, s.callers[k].at)
      {
        ServedGrows(ttl, s.served, Served(s.clock, fetched.value), s.callers[k].id, s.callers[k].outcome.key, s.callers[k].at);
      }
    }
  }

  lemma StepSafe(ttl: nat, s: State, step: Step)
    requires ttl > 0 && Safe(ttl, s) && Enabled(s, step)
    ensures Safe(ttl, Do(ttl, s, step))
  {
    if step.Complete? {
      CompleteSafe(ttl, s, step.caller, step.fetched);
    } else if step.Look? || step.Acquire? {
      var id := s.callers[step.caller].id;
      if CachedLookup(s.cache, id, s.clock).Found? { LookSafe(ttl, s, step.caller, id); }
    }
  }

  lemma {:induction false} RunSafe(ttl: nat, s: State, steps: seq<Step>, to: State)
    requires ttl > 0 && Safe(ttl, s) && Runs(ttl, s, steps, to)
    ensures Safe(ttl, to)
    decreases |steps|
  {
    if steps != [] {
      StepSafe(ttl, s, steps[0]);
      RunSafe(ttl, Do(ttl, s, steps[0]), steps[1..], to);
    }
  }

  /*** Results ***/

  /** A fetch begins at least thirty seconds after every fetch that completed before it, successful
      or not, however many lookups run concurrently. */
  lemma FetchSpacing(ttl: nat, steps: seq<Step>, s: State, i: nat, j: nat)
    requires ttl > 0 && Runs(ttl, Init, steps, s)
    requires i < j < |s.log| && s.log[i].Completed? && s.log[j].Began?
    ensures s.log[j].at >= s.log[i].at + COOLDOWN
  {
    RunSafe(ttl, Init, steps, s);
  }

  /** Every key that a lookup returned was in a set served less than `ttl` before. */
  lemma ReturnedKeysFresh(ttl: nat, steps: seq<Step>, s: State, c: nat)
    requires ttl > 0 && Runs(ttl, Init, steps, s)
    requires c in s.callers && s.callers[c].Done? && s.callers[c].outcome.Got?
    ensures FreshlyServed(ttl, s.served, s.callers[c].id, s.callers[c].outcome.key, s.callers[c].at)
  {
    RunSafe(ttl, Init, steps, s);
  }

  /** Failed fetches never drop keys: until one succeeds, a cached key stays found until it expires. */
  lemma {:induction false} FailuresKeepKeys(ttl: nat, s: State, steps: seq<Step>, to: State, id: string)
    requires Runs(ttl, s, steps, to)
    requires forall k :: 0 <= k < |steps| ==> !(steps[k].Complete? && steps[k].fetched.Some?)
    requires CachedLookup(s.cache, id, s.clock).Found? && to.clock < s.cache.keys.value.expiresAt
    ensures CachedLookup(to.cache, id, to.clock) == CachedLookup(s.cache, id, s.clock)
    decreases |steps|
  {
    if steps != [] {
      var s1 := Do(ttl, s, steps[0]);
      assert s1.cache.keys == s.cache.keys;
      RunClock(ttl, s1, steps[1..], to);
      FailuresKeepKeys(ttl, s1, steps[1..], to, id);
    }
  }

  lemma {:induction false} RunClock(ttl: nat, s: State, steps: seq<Step>, to: State)
    requires Runs(ttl, s, steps, to)
    ensures s.clock <= to.clock
    decreases |steps|
  {
    if steps != [] { RunClock(ttl, Do(ttl, s, steps[0]), steps[1..], to); }
  }

  /*** What a lookup decides ***/

  /** The cache is what the log and the served sets say: the last set served, and the last fetch that completed. */
  ghost predicate CacheExact(s: State) {
    && (s.served != [] ==> s.cache.keys.Some?)
    && (s.cache.lastAttempt.Some? ==> exists i :: 0 <= i < |s.log| && s.log[i].Completed? && s.log[i].at == s.cache.lastAttempt.value)
  }

  lemma StepExact(ttl: nat, s: State, step: Step)
    requires CacheExact(s) && Enabled(s, step)
    ensures CacheExact(Do(ttl, s, step))
  {
    var s' := Do(ttl, s, step);
    if step.Complete? {
      assert s'.log[|s.log|] == Completed(s.began, s.clock);
    } else if s.cache.lastAttempt.Some? {
      var i :| 0 <= i < |s.log| && s.log[i].Completed? && s.log[i].at == s.cache.lastAttempt.value;
      assert s'.log[i] == s.log[i];
    }
  }

  lemma {:induction false} RunExact(ttl: nat, s: State, steps: seq<Step>, to: State)
    requires CacheExact(s) && Runs(ttl, s, steps, to)
    ensures CacheExact(to)
    decreases |steps|
  {
    if steps != [] {
      StepExact(ttl, s, steps[0]);
      RunExact(ttl, Do(ttl, s, steps[0]), steps[1..], to);
    }
  }

  /** The set that was served last holds the key and is younger than `ttl`. */
  predicate FreshKey(ttl: nat, s: State, id: string) {
    && s.served != []
    && var last := s.served[|s.served| - 1];
       s.clock < last.at + ttl && id in last.keys
  }

  /** A fetch completed, successfully or not, less than thirty seconds ago. */
  predicate RecentFetch(s: State) {
    exists i :: 0 <= i < |s.log| && s.log[i].Completed? && s.clock < s.log[i].at + 30_000
  }

  /** The decision of a lookup, in every run and from what was served and fetched alone: the key of the set served last if
      that is fresh; else unavailable exactly if a fetch completed less than thirty seconds ago; else a fetch. */
  lemma LookupIff(ttl: nat, steps: seq<Step>, s: State, id: string)
    requires ttl > 0 && Runs(ttl, Init, steps, s)
    ensures CachedLookup(s.cache, id, s.clock) ==
            if FreshKey(ttl, s, id) then Found(s.served[|s.served| - 1].keys[id])
            else if RecentFetch(s) then MissInCooldown
            else Refreshable
  {
    RunSafe(ttl, Init, steps, s);
    RunExact(ttl, Init, steps, s);
    if s.cache.lastAttempt.Some? {
      var k :| 0 <= k < |s.log| && s.log[k].Completed? && s.log[k].at == s.cache.lastAttempt.value;
      assert s.clock < s.cache.lastAttempt.value + 30_000 ==> RecentFetch(s);
    }
  }

  /** So, once it holds the mutex, a lookup without a fresh key begins a fetch exactly if no fetch completed in the last
      thirty seconds: a key that was rotated in is fetched then, whatever the cache still holds. */
  lemma AcquireIff(ttl: nat, steps: seq<Step>, s: State, c: nat)
    requires ttl > 0 && Runs(ttl, Init, steps, s) && Enabled(s, Acquire(c))
    ensures var s', id := Do(ttl, s, Acquire(c)), s.callers[c].id;
            if FreshKey(ttl, s, id) then s'.callers[c] == Done(id, Got(s.served[|s.served| - 1].keys[id]), s.clock) && s'.log == s.log
            else if RecentFetch(s) then s'.callers[c] == Done(id, KeyUnavailable, s.clock) && s'.log == s.log
            else s'.callers[c] == Fetching(id) && s'.log == s.log + [Began(s.clock)]
  {
    LookupIff(ttl, steps, s, s.callers[c].id);
  }

  /** And the first look, which does not take the mutex. */
  lemma LookIff(ttl: nat, steps: seq<Step>, s: State, c: nat)
    requires ttl > 0 && Runs(ttl, Init, steps, s) && Enabled(s, Look(c))
    ensures var pc, id := Do(ttl, s, Look(c)).callers[c], s.callers[c].id;
            if FreshKey(ttl, s, id) then pc == Done(id, Got(s.served[|s.served| - 1].keys[id]), s.clock)
            else if RecentFetch(s) then pc == Done(id, KeyUnavailable, s.clock)
            else pc == Waiting(id)
  {
    LookupIff(ttl, steps, s, s.callers[c].id);
  }

  /** A fetch answers its caller from the set it brought, and that set is the one served last from then on. */
  lemma CompleteIff(ttl: nat, s: State, c: nat, fetched: Option<KeySet>)
    requires Enabled(s, Complete(c, fetched))
    ensures var s', id := Do(ttl, s, Complete(c, fetched)), s.callers[c].id;
            && s'.log == s.log + [Completed(s.began, s.clock)]
            && s'.served == s.served + (if fetched.Some? then [Served(s.clock, fetched.value)] else [])
            && s'.callers[c] == Done(id, if fetched.None? then FetchFailed
                                         else if id in fetched.value then Got(fetched.value[id]) else KeyUnavailable, s.clock)
  {
  }

  /*** Availability ***/

  /** Every fetch of the run succeeds and brings the key. */
  predicate AlwaysServes(steps: seq<Step>, id: string) {
    forall k :: 0 <= k < |steps| && steps[k].Complete? ==> steps[k].fetched.Some? && id in steps[k].fetched.value
  }

  ghost predicate Available(ttl: nat, s: State, id: string) {
    && (s.cache.lastAttempt.Some? ==>
          && s.cache.keys.Some? && id in s.cache.keys.value.keys
          && s.cache.keys.value.expiresAt == s.cache.lastAttempt.value + ttl)
    && (forall c :: c in s.callers && s.callers[c].Done? && s.callers[c].id == id ==> s.callers[c].outcome.Got?)
  }

  lemma {:induction false} StaysAvailable(ttl: nat, s: State, steps: seq<Step>, to: State, id: string)
    requires ttl >= COOLDOWN && Available(ttl, s, id) && Runs(ttl, s, steps, to) && AlwaysServes(steps, id)
    ensures Available(ttl, to, id)
    decreases |steps|
  {
    if steps != [] {
      assert steps[0].Complete? ==> steps[0].fetched.Some? && id in steps[0].fetched.value;
      assert Available(ttl, Do(ttl, s, steps[0]), id);
      assert forall k :: 0 <= k < |steps[1..]| ==> steps[1..][k] == steps[k + 1];
      StaysAvailable(ttl, Do(ttl, s, steps[0]), steps[1..], to, id);
    }
  }

  /** A run in which every fetch brings the key and yet a lookup reports it unavailable. */
  ghost predicate Outage(ttl: nat, steps: seq<Step>, s: State, id: string) {
    && Runs(ttl, Init, steps, s) && AlwaysServes(steps, id)
    && exists c :: c in s.callers && s.callers[c].Done? && s.callers[c].id == id && !s.callers[c].outcome.Got?
  }

  /** The lookups of a run with a short lifetime: one fetches, the other comes when the set has expired
      but the cooldown has not. */
  function ShortLifetimeRun(ttl: nat, id: string): seq<Step> {
    [Spawn(0, id)] + ([Look(0)] + ([Acquire(0)] + ([Complete(0, Some(map[id := "key"]))]
    + ([Tick(ttl)] + ([Spawn(1, id)] + ([Look(1)] + []))))))
  }

  lemma RunsCons(ttl: nat, s: State, step: Step, rest: seq<Step>, to: State)
    requires Enabled(s, step) && Runs(ttl, Do(ttl, s, step), rest, to)
    ensures Runs(ttl, s, [step] + rest, to)
  {
    assert ([step] + rest)[1..] == rest;
  }

  /** The first lookup fetches the key. */
  lemma FirstFetch(ttl: nat, id: string, rest: seq<Step>, s4: State, to: State)
    requires s4 == State(0, Cache(Some(Cached(map[id := "key"], ttl)), Some(0)), None, map[0 := Done(id, Got("key"), 0)], 0,
                         [Began(0), Completed(0, 0)], [Served(0, map[id := "key"])])
    requires Runs(ttl, s4, rest, to)
    ensures Runs(ttl, Init, [Spawn(0, id)] + ([Look(0)] + ([Acquire(0)] + ([Complete(0, Some(map[id := "key"]))] + rest))), to)
  {
    var s1 := Do(ttl, Init, Spawn(0, id));
    var s2 := Do(ttl, s1, Look(0));
    var s3 := Do(ttl, s2, Acquire(0));
    assert Do(ttl, s3, Complete(0, Some(map[id := "key"]))) == s4;
    RunsCons(ttl, s3, Complete(0, Some(map[id := "key"])), rest, to);
    RunsCons(ttl, s2, Acquire(0), [Complete(0, Some(map[id := "key"]))] + rest, to);
    RunsCons(ttl, s1, Look(0), [Acquire(0)] + ([Complete(0, Some(map[id := "key"]))] + rest), to);
    RunsCons(ttl, Init, Spawn(0, id), [Look(0)] + ([Acquire(0)] + ([Complete(0, Some(map[id := "key"]))] + rest)), to);
  }

  /** The second lookup comes after the set expired and within the cooldown. */
  lemma SecondLookFails(ttl: nat, id: string, s4: State) returns (s: State)
    requires 0 < ttl < COOLDOWN && 1 !in s4.callers && s4.clock == 0
    requires s4.cache == Cache(Some(Cached(map[id := "key"], ttl)), Some(0))
    ensures Runs(ttl, s4, [Tick(ttl)] + ([Spawn(1, id)] + ([Look(1)] + [])), s)
    ensures 1 in s.callers && s.callers[1] == Done(id, KeyUnavailable, ttl)
  {
    var s5 := Do(ttl, s4, Tick(ttl));
    var s6 := Do(ttl, s5, Spawn(1, id));
    s := Do(ttl, s6, Look(1));
    RunsCons(ttl, s6, Look(1), [], s);
    RunsCons(ttl, s5, Spawn(1, id), [Look(1)] + [], s);
    RunsCons(ttl, s4, Tick(ttl), [Spawn(1, id)] + ([Look(1)] + []), s);
  }

  lemma RunServes(ttl: nat, id: string)
    ensures AlwaysServes(ShortLifetimeRun(ttl, id), id)
  {
  }

  lemma ShortLifetimeOutage(ttl: nat, id: string) returns (s: State)
    requires 0 < ttl < COOLDOWN
    ensures Outage(ttl, ShortLifetimeRun(ttl, id), s, id)
  {
    var s4 := State(0, Cache(Some(Cached(map[id := "key"], ttl)), Some(0)), None, map[0 := Done(id, Got("key"), 0)], 0,
                    [Began(0), Completed(0, 0)], [Served(0, map[id := "key"])]);
    s := SecondLookFails(ttl, id, s4);
    FirstFetch(ttl, id, [Tick(ttl)] + ([Spawn(1, id)] + ([Look(1)] + [])), s4, s);
    RunServes(ttl, id);
    assert 1 in s.callers && s.callers[1].Done? && !s.callers[1].outcome.Got?;
  }

  /** Availability, exactly: when every fetch brings a key, its lookup never reports it unavailable if
      and only if the cache lifetime is at least the cooldown. */
  lemma AvailableIffLifetimeCoversCooldown(ttl: nat, id: string)
    requires ttl > 0
    ensures ttl >= COOLDOWN <==> forall steps, s :: !Outage(ttl, steps, s, id)
  {
    if ttl >= COOLDOWN {
      forall steps, s ensures !Outage(ttl, steps, s, id) {
        if Runs(ttl, Init, steps, s) && AlwaysServes(steps, id) {
          StaysAvailable(ttl, Init, steps, s, id);
        }
      }
    } else {
      var s := ShortLifetimeOutage(ttl, id);
      assert Outage(ttl, ShortLifetimeRun(ttl, id), s, id);
    }
  }
}
