/** Any number of interleaved key lookups, over a monotonic clock. */
module KeySystem {
  import opened Wrappers
  import opened SigningKeys

  /** What an answer rests on: a clock reading, or the fetch this very call made. */
  datatype Basis = ClockReading(at: real) | OwnFetch(at: real) | NoBasis

  /** `seen` counts the successful fetches made before the answer. */
  datatype Phase = Waiting(force: bool) | Fetching | Done(answer: Answer, basis: Basis, seen: nat)

  datatype Caller = Caller(kid: string, phase: Phase)

  /** A successful refresh: what the provider answered, and when. */
  datatype Arrival = Arrival(discovery: Discovery, items: seq<Jwk>, at: real)

  datatype State = State(
    issuer: string,
    cache: Cache,
    ttl: real,
    holder: Option<nat>,
    clock: real,
    callers: map<nat, Caller>,
    arrivals: seq<Arrival>,
    started: nat)

  datatype Action =
    | Ask(t: nat, kid: string)
    | TakeLock(t: nat)
    | Arrive(t: nat, discovery: Discovery, keySet: KeySet)
    | Cancel(t: nat)
    | Tick(seconds: real)

  function Finish(s: State, t: nat, answer: Answer, basis: Basis): State
    requires t in s.callers
  {
    s.(callers := s.callers[t := s.callers[t].(phase := Done(answer, basis, |s.arrivals|))])
  }

  function Exec(s: State, a: Action): State {
    match a
    case Ask(t, kid) =>
      if t in s.callers then s
      else
        var asked := s.(callers := s.callers[t := Caller(kid, Waiting(Current(s.cache, s.clock)))]);
        if Hit(s.cache, kid, s.clock) then Finish(asked, t, Key(s.cache.keys[kid]), ClockReading(s.clock)) else asked
    case TakeLock(t) =>
      if t !in s.callers || !s.callers[t].phase.Waiting? || s.holder.Some? then s
      else if Reusable(s.cache, s.callers[t].phase.force, s.clock) then
        Finish(s, t, LookUp(s.cache.keys, s.callers[t].kid), ClockReading(s.clock))
      else
        s.(callers := s.callers[t := s.callers[t].(phase := Fetching)], holder := Some(t), started := s.started + 1)
    case Arrive(t, d, k) =>
      if t !in s.callers || !s.callers[t].phase.Fetching? then s
      else
        var fetch := Refresh(s.issuer, d, k);
        if fetch.Fetched? then
          var stored := s.(cache := Cache(fetch.keys, s.clock + s.ttl), holder := None,
            arrivals := s.arrivals + [Arrival(d, k.items, s.clock)]);
          Finish(stored, t, LookUp(fetch.keys, s.callers[t].kid), OwnFetch(s.clock))
        else Finish(s.(holder := None), t, Failure(fetch), NoBasis)
    case Cancel(t) =>
      if t !in s.callers || s.callers[t].phase.Done? then s
      else
        Finish(s.(holder := if s.callers[t].phase.Fetching? then None else s.holder), t, Cancelled, NoBasis)
    case Tick(seconds) => if seconds < 0.0 then s else s.(clock := s.clock + seconds)
  }

  function Run(s: State, actions: seq<Action>): State {
    if actions == [] then s else Exec(Run(s, actions[..|actions| - 1]), actions[|actions| - 1])
  }

  predicate IsStart(s: State) {
    && s.cache == Cache(map[], 0.0) && s.ttl > 0.0 && s.holder.None? && s.clock >= 0.0
    && s.callers == map[] && s.arrivals == [] && s.started == 0
  }

  /**
    A returned key is the last signing key listed under its ID in the latest set, which was fetched after a
    trusted discovery and had not expired when it was relied on.
  */
  predicate WellFounded(s: State, c: Caller) {
    c.phase.Done? && c.phase.answer.Key? ==>
      && 0 < c.phase.seen <= |s.arrivals|
      && var latest := s.arrivals[c.phase.seen - 1];
      && Trusted(s.issuer, latest.discovery) && LastListed(latest.items, c.kid, c.phase.answer.key)
      && (c.phase.basis.ClockReading? ==> latest.at <= c.phase.basis.at < latest.at + s.ttl)
      && (c.phase.basis.OwnFetch? ==> latest.at == c.phase.basis.at)
      && !c.phase.basis.NoBasis?
  }

  predicate CacheIsLatest(s: State) {
    if s.arrivals == [] then s.cache == Cache(map[], 0.0)
    else
      var latest := s.arrivals[|s.arrivals| - 1];
      && s.cache == Cache(Select(latest.items), latest.at + s.ttl) && latest.at <= s.clock
      && Trusted(s.issuer, latest.discovery) && Select(latest.items) != map[]
  }

  predicate Inv(s: State) {
    && s.ttl > 0.0 && s.clock >= 0.0
    && CacheIsLatest(s)
    && (forall t :: t in s.callers ==> WellFounded(s, s.callers[t]))
    && (forall t :: t in s.callers && s.callers[t].phase.Fetching? ==> s.holder == Some(t))
  }

  /** What an earlier answer rests on is not touched by later fetches. */
  lemma StaysWellFounded(s: State, s': State, c: Caller)
    requires WellFounded(s, c) && s.arrivals <= s'.arrivals && s'.ttl == s.ttl && s'.issuer == s.issuer
    ensures WellFounded(s', c)
  {
  }

  /** A cached key is one the latest arrival lists last. */
  lemma CachedIsLastListed(s: State, kid: string)
    requires CacheIsLatest(s) && kid in s.cache.keys
    ensures s.arrivals != [] && LastListed(s.arrivals[|s.arrivals| - 1].items, kid, s.cache.keys[kid])
  {
    SelectIsLastListed(s.arrivals[|s.arrivals| - 1].items, kid);
  }

  lemma ArrivalAnswers(s: State, t: nat, d: Discovery, k: KeySet)
    requires Inv(s) && t in s.callers && s.callers[t].phase.Fetching?
    ensures WellFounded(Exec(s, Arrive(t, d, k)), Exec(s, Arrive(t, d, k)).callers[t])
  {
    if Refresh(s.issuer, d, k).Fetched? {
      RefreshIsTrusted(s.issuer, d, k, s.callers[t].kid);
    }
  }

  lemma AskAnswers(s: State, t: nat, kid: string)
    requires Inv(s) && t !in s.callers
    ensures WellFounded(Exec(s, Ask(t, kid)), Exec(s, Ask(t, kid)).callers[t])
  {
    if Hit(s.cache, kid, s.clock) {
      CachedIsLastListed(s, kid);
    }
  }

  lemma TakeLockAnswers(s: State, t: nat)
    requires Inv(s) && t in s.callers && s.callers[t].phase.Waiting?
    ensures WellFounded(Exec(s, TakeLock(t)), Exec(s, TakeLock(t)).callers[t])
  {
    if s.callers[t].kid in s.cache.keys {
      CachedIsLastListed(s, s.callers[t].kid);
    }
  }

  lemma StepAnswersWellFounded(s: State, a: Action, t: nat)
    requires Inv(s) && t in Exec(s, a).callers && !(t in s.callers && s.callers[t] == Exec(s, a).callers[t])
    ensures WellFounded(Exec(s, a), Exec(s, a).callers[t])
  {
    match a {
      case Ask(u, kid) => AskAnswers(s, t, kid);
      case TakeLock(u) => TakeLockAnswers(s, t);
      case Arrive(u, d, k) => ArrivalAnswers(s, t, d, k);
      case Cancel(_) =>
      case Tick(_) =>
    }
  }

  predicate CacheKept(s: State, s': State) {
    && s'.ttl == s.ttl && s'.issuer == s.issuer && s'.clock >= 0.0 && s.arrivals <= s'.arrivals && CacheIsLatest(s')
  }

  lemma ArrivalKeepsCache(s: State, t: nat, d: Discovery, k: KeySet)
    requires Inv(s) && t in s.callers && s.callers[t].phase.Fetching?
    ensures CacheKept(s, Exec(s, Arrive(t, d, k)))
  {
    if Refresh(s.issuer, d, k).Fetched? {
      assert Exec(s, Arrive(t, d, k)).arrivals == s.arrivals + [Arrival(d, k.items, s.clock)];
    }
  }

  lemma StepKeepsCache(s: State, a: Action)
    requires Inv(s)
    ensures CacheKept(s, Exec(s, a))
  {
    var s' := Exec(s, a);
    if a.Arrive? && a.t in s.callers && s.callers[a.t].phase.Fetching? {
      ArrivalKeepsCache(s, a.t, a.discovery, a.keySet);
    } else {
      assert s' == s.(clock := s'.clock, callers := s'.callers, holder := s'.holder, started := s'.started);
    }
  }

  lemma StepKeepsLock(s: State, a: Action)
    requires Inv(s)
    ensures var s' := Exec(s, a);
      forall t :: t in s'.callers && s'.callers[t].phase.Fetching? ==> s'.holder == Some(t)
  {
  }

  lemma StepKeepsInv(s: State, a: Action)
    requires Inv(s)
    ensures Inv(Exec(s, a))
  {
    var s' := Exec(s, a);
    StepKeepsCache(s, a);
    StepKeepsLock(s, a);
    forall t | t in s'.callers
      ensures WellFounded(s', s'.callers[t])
    {
      if t in s.callers && s'.callers[t] == s.callers[t] {
        StaysWellFounded(s, s', s.callers[t]);
      } else {
        StepAnswersWellFounded(s, a, t);
      }
    }
  }

  lemma {:induction false} RunKeepsInv(s: State, actions: seq<Action>)
    requires Inv(s)
    ensures Inv(Run(s, actions))
  {
    if actions != [] {
      RunKeepsInv(s, actions[..|actions| - 1]);
      StepKeepsInv(Run(s, actions[..|actions| - 1]), actions[|actions| - 1]);
    }
  }

  /** In every interleaving every returned key is well founded, and at most one fetch is under way. */
  lemma ReturnedKeysAreCurrent(start: State, actions: seq<Action>, t: nat, u: nat)
    requires IsStart(start)
    requires t in Run(start, actions).callers && u in Run(start, actions).callers
    ensures
      var s := Run(start, actions);
      && WellFounded(s, s.callers[t])
      && (s.callers[t].phase.Fetching? && s.callers[u].phase.Fetching? ==> t == u)
  {
    RunKeepsInv(start, actions);
  }

  /** Keys and expiry change only by a successful fetch: a failed one leaves both and gives its caller an error. */
  lemma OnlySuccessfulFetchChanges(s: State, a: Action)
    requires Inv(s)
    ensures Exec(s, a).cache != s.cache ==>
      && a.Arrive? && Refresh(s.issuer, a.discovery, a.keySet).Fetched?
      && Exec(s, a).arrivals == s.arrivals + [Arrival(a.discovery, a.keySet.items, s.clock)]
    ensures (a.Arrive? && !Refresh(s.issuer, a.discovery, a.keySet).Fetched? && a.t in s.callers
             && s.callers[a.t].phase.Fetching?) ==>
      Exec(s, a).cache == s.cache && Exec(s, a).callers[a.t].phase.answer in {ProviderUnavailable, Crash}
  {
  }

  predicate OnlyExpiryWaiters(s: State) {
    forall t :: t in s.callers && s.callers[t].phase.Waiting? ==> !s.callers[t].phase.force
  }

  /** From `s` on, no fetch was started, and everybody answered since got what the cache of `s` holds. */
  predicate OnlyShared(s: State, s': State) {
    && s'.cache == s.cache && s'.started == s.started && s'.holder.None? && OnlyExpiryWaiters(s')
    && (forall t :: t in s.callers ==> t in s'.callers)
    && (forall t :: t in s.callers && s.callers[t].phase.Done? ==> s'.callers[t] == s.callers[t])
    && (forall t :: t in s'.callers ==> !s'.callers[t].phase.Fetching?)
    && (forall t :: t in s'.callers && s'.callers[t].phase.Done? && !(t in s.callers && s.callers[t].phase.Done?) ==>
      s'.callers[t].phase.answer.Cancelled?
      || s'.callers[t].phase.answer == LookUp(s.cache.keys, s'.callers[t].kid))
  }

  lemma StepOnlyShares(s: State, mid: State, a: Action)
    requires OnlyShared(s, mid) && s.cache.keys != map[] && Current(s.cache, mid.clock)
    requires a.Ask? ==> a.kid in s.cache.keys
    ensures OnlyShared(s, Exec(mid, a))
  {
  }

  /**
    Callers waiting only because the keys had expired share one successful fetch: until it expires no
    further fetch starts, unless somebody asks for an unknown key.
  */
  lemma {:induction false} OneFetchServesAll(s: State, actions: seq<Action>)
    requires Inv(s) && s.holder.None? && s.arrivals != [] && OnlyExpiryWaiters(s)
    requires forall t :: t in s.callers ==> !s.callers[t].phase.Fetching?
    requires forall a :: a in actions && a.Ask? ==> a.kid in s.cache.keys
    requires Current(s.cache, Run(s, actions).clock)
    ensures OnlyShared(s, Run(s, actions))
  {
    if actions != [] {
      var before := actions[..|actions| - 1];
      var a := actions[|actions| - 1];
      assert a in actions && forall b :: b in before ==> b in actions;
      var mid := Run(s, before);
      assert mid.clock <= Exec(mid, a).clock;
      OneFetchServesAll(s, before);
      StepOnlyShares(s, mid, a);
    }
  }

  /** The segments of an interleaved lookup amount to Call. */
  lemma CallIsRun(s1: State, s2: State, s3: State, t: nat, kid: string, d: Discovery, k: KeySet)
    requires t !in s1.callers && s1.issuer == s3.issuer
    requires t in s2.callers && s2.callers[t] == Exec(s1, Ask(t, kid)).callers[t] && s2.holder.None?
    requires t in s3.callers && s3.callers[t] == Exec(s2, TakeLock(t)).callers[t]
    requires s3.callers[t].phase.Fetching? ==> s3.cache == s2.cache
    ensures
      var r := Call(s1.issuer, s1.cache, kid, s3.ttl, Waits(s1.clock, s2.clock, s2.cache, d, k, s3.clock));
      var end := Exec(s3, Arrive(t, d, k));
      && end.callers[t].phase.Done? && end.callers[t].phase.answer == r.0
      && (s3.callers[t].phase.Fetching? ==> end.cache == r.1)
  {
  }
}
