/**
  Any number of interleaved calls of one token service, over a clock that never goes back. An
  acquisition runs in a thread: cancelling its caller frees the lock but does not stop the thread.
*/
module TokenSystem {
  import opened Wrappers
  import opened Tokens

  /** Where an answer came from; `grant` is the index of the token in the list of grants. */
  datatype How = FromCache(at: real, grant: nat) | FromIssuer(grant: nat) | Nothing

  /** Acquisitions are numbered in the order in which they start. */
  datatype Phase = Waiting | Acquiring(since: real, number: nat) | Done(outcome: Outcome, how: How)

  /**
    `entered` and `known`: how many acquisitions had started, and how many grants were stored, at the call.
    `found` and `waits` record what the call has met so far.
  */
  datatype Caller = Caller(
    force: bool, entered: nat, known: nat, found: Option<AccessToken>, waits: Waits, phase: Phase)

  /** A stored token: the provider's answer, when its acquisition started, and which acquisition it was. */
  datatype Grant = Grant(value: string, at: real, lifetime: Lifetime, number: nat)

  /** `running` holds the callers whose acquisition thread runs. */
  datatype State = State(
    token: Option<AccessToken>,
    holder: Option<nat>,
    clock: real,
    callers: map<nat, Caller>,
    grants: seq<Grant>,
    started: nat,
    running: set<nat>)

  datatype Action =
    | Enter(t: nat, force: bool)
    | TakeLock(t: nat)
    | Answer(t: nat, reply: Acquisition)
    | Cancel(t: nat)
    | ThreadEnds(t: nat)
    | Invalidate
    | Tick(seconds: real)

  function SetPhase(s: State, t: nat, p: Phase): State
    requires t in s.callers
  {
    s.(callers := s.callers[t := s.callers[t].(phase := p)])
  }

  /** The caller gets the lock, with the clock and the cache as they are. */
  function Locked(s: State, t: nat): State
    requires t in s.callers
  {
    s.(callers := s.callers[t := s.callers[t].(
      waits := s.callers[t].waits.(locked := s.clock, tokenLocked := s.token))])
  }

  /** An answer with the cached token, which is that of the latest grant. */
  function FromTheCache(s: State, value: string): Phase {
    Done(Served(value), FromCache(s.clock, if s.grants == [] then 0 else |s.grants| - 1))
  }

  /** The holder of the lock starts an acquisition. */
  function Acquire(s: State, t: nat): State
    requires t in s.callers
  {
    SetPhase(Locked(s, t), t, Acquiring(s.clock, s.started)).(
      holder := Some(t), started := s.started + 1, running := s.running + {t})
  }

  /** What the end of an awaited acquisition does. */
  function Conclude(s: State, t: nat, reply: Acquisition): State
    requires t in s.callers && s.callers[t].phase.Acquiring?
  {
    var p := s.callers[t].phase;
    var waits := s.callers[t].waits.(reply := reply, tokenAfter := s.token);
    var free := s.(
      callers := s.callers[t := s.callers[t].(waits := waits)],
      holder := None, running := s.running - {t}, token := Stored(reply, p.since, s.token));
    if Answered(reply).Served? then
      SetPhase(free, t, Done(Answered(reply), FromIssuer(|s.grants|))).(
        grants := s.grants + [Grant(reply.token, p.since, reply.lifetime, p.number)])
    else SetPhase(free, t, Done(Answered(reply), Nothing))
  }

  /** One atomic segment of a call, or the clock; an action that is not enabled changes nothing. */
  function Exec(s: State, a: Action): State {
    match a
    case Enter(t, force) =>
      if t in s.callers then s
      else
        var p := if !force && Cached(s.token, s.clock).Some? then FromTheCache(s, Cached(s.token, s.clock).value) else Waiting;
        s.(callers := s.callers[t := Caller(
          force, s.started, |s.grants|, s.token, Waits(s.clock, s.clock, None, Rejected, None), p)])
    case TakeLock(t) =>
      if t !in s.callers || !s.callers[t].phase.Waiting? || s.holder.Some? then s
      else if !s.callers[t].force && Cached(s.token, s.clock).Some? then
        SetPhase(Locked(s, t), t, FromTheCache(s, Cached(s.token, s.clock).value))
      else Acquire(s, t)
    case Answer(t, reply) =>
      if t !in s.callers || !s.callers[t].phase.Acquiring? then s else Conclude(s, t, reply)
    case Cancel(t) =>
      if t !in s.callers || s.callers[t].phase.Done? then s
      else
        SetPhase(s, t, Done(Cancelled, Nothing)).(holder := if s.callers[t].phase.Acquiring? then None else s.holder)
    case ThreadEnds(t) => if t in Orphans(s) then s.(running := s.running - {t}) else s
    case Invalidate => s.(token := None)
    case Tick(seconds) => if seconds < 0.0 then s else s.(clock := s.clock + seconds)
  }

  /** Acquisitions that still run although nobody waits for them. */
  function Orphans(s: State): set<nat> {
    set t | t in s.running && t in s.callers && s.callers[t].phase.Done?
  }

  function Run(s: State, actions: seq<Action>): State {
    if actions == [] then s else Exec(Run(s, actions[..|actions| - 1]), actions[|actions| - 1])
  }

  predicate IsStart(s: State) {
    && s.token.None? && s.holder.None? && s.callers == map[] && s.grants == [] && s.started == 0
    && s.running == {}
  }

  /** The lifetime the provider gave a token: what its answer says, and an hour when it says nothing. */
  function Life(l: Lifetime): real {
    match l
    case Seconds(n) => n as real
    case Default => 3600.0
    case Malformed => 0.0
  }

  /** The grant has this value, and by the provider's answer had more than five minutes left at time `now`. */
  predicate BeyondSkew(g: Grant, value: string, now: real) {
    g.value == value && g.at <= now && g.at + Life(g.lifetime) - 300.0 > now
  }

  /** When the cache takes the token for expired: no token lives less than a minute. */
  function Expiry(g: Grant): real {
    g.at + if Life(g.lifetime) < 60.0 then 60.0 else Life(g.lifetime)
  }

  /** The cache holds the token of the latest grant. */
  predicate HoldsLatest(s: State) {
    && s.grants != []
    && var g := s.grants[|s.grants| - 1];
    !g.lifetime.Malformed? && s.token == Some(AccessToken(g.value, Expiry(g)))
  }

  /** What a caller that holds a token can say about its grant. */
  predicate AnswerOk(s: State, c: Caller) {
    && c.entered <= s.started && c.known <= |s.grants|
    && (c.phase.Done? && c.phase.outcome.Served? ==>
      match c.phase.how
      case FromCache(at, i) =>
        !c.force && i < |s.grants| && i + 1 >= c.known && at <= s.clock && BeyondSkew(s.grants[i], c.phase.outcome.value, at)
      case FromIssuer(i) =>
        i < |s.grants| && s.grants[i].value == c.phase.outcome.value && s.grants[i].number >= c.entered
      case Nothing => false)
    && (c.phase.Done? && !c.phase.outcome.Served? ==> c.phase.how.Nothing?)
  }

  /** Grants are stored in the order in which their acquisitions started. */
  predicate InOrder(grants: seq<Grant>, started: nat, clock: real) {
    && (forall i, j :: 0 <= i < j < |grants| ==> grants[i].number < grants[j].number)
    && (forall i :: 0 <= i < |grants| ==> grants[i].number < started && grants[i].at <= clock)
  }

  /** The holder of the lock is the one awaited acquisition, and it is the last that was started. */
  predicate LockOk(s: State) {
    && (forall t :: t in s.callers && s.callers[t].phase.Acquiring? ==> s.holder == Some(t))
    && (s.holder.Some? ==>
      && s.holder.value in s.callers && s.holder.value in s.running
      && var c := s.callers[s.holder.value];
      && c.phase.Acquiring? && c.phase.since <= s.clock && c.phase.number + 1 == s.started
      && c.entered <= c.phase.number
      && forall i :: 0 <= i < |s.grants| ==> s.grants[i].number < c.phase.number)
  }

  predicate ThreadsOk(s: State) {
    forall t :: t in s.running ==> t in s.callers && !s.callers[t].phase.Waiting?
  }

  predicate Inv(s: State) {
    && (s.token.Some? ==> HoldsLatest(s))
    && InOrder(s.grants, s.started, s.clock)
    && LockOk(s)
    && ThreadsOk(s)
    && (forall t :: t in s.callers ==> AnswerOk(s, s.callers[t]))
  }

  /** The clamp never makes a token servable: 60 seconds are less than the skew. */
  lemma CachedIsBeyondSkew(s: State)
    requires Inv(s) && Cached(s.token, s.clock).Some?
    ensures s.grants != [] && BeyondSkew(s.grants[|s.grants| - 1], Cached(s.token, s.clock).value, s.clock)
  {
    assert Life(s.grants[|s.grants| - 1].lifetime) > 300.0;
  }

  /** Later grants and a later clock do not touch an earlier answer. */
  lemma AnswerStays(s: State, s': State, c: Caller)
    requires AnswerOk(s, c) && s.grants <= s'.grants && s.clock <= s'.clock && s.started <= s'.started
    ensures AnswerOk(s', c)
  {
  }

  predicate Grows(s: State, s': State) {
    s.grants <= s'.grants && s.clock <= s'.clock && s.started <= s'.started
  }

  lemma StepGrows(s: State, a: Action)
    ensures Grows(s, Exec(s, a))
  {
  }

  /** What was true when a caller came stays recorded. */
  predicate SameEntry(c: Caller, c': Caller) {
    c'.force == c.force && c'.entered == c.entered && c'.known == c.known
  }

  lemma CallersStay(s: State, a: Action, t: nat)
    requires t in s.callers
    ensures t in Exec(s, a).callers && SameEntry(s.callers[t], Exec(s, a).callers[t])
  {
  }

  /** The invariant after a step, with only the callers checked that the step touched. */
  predicate PartsOk(s: State, s': State) {
    && (s'.token.Some? ==> HoldsLatest(s')) && InOrder(s'.grants, s'.started, s'.clock)
    && LockOk(s') && ThreadsOk(s')
    && forall t :: t in s'.callers && !(t in s.callers && s'.callers[t] == s.callers[t]) ==> AnswerOk(s', s'.callers[t])
  }

  lemma ServedKeepsParts(s: State, t: nat, reply: Acquisition)
    requires Inv(s) && t in s.callers && s.callers[t].phase.Acquiring? && Answered(reply).Served?
    ensures PartsOk(s, Conclude(s, t, reply))
  {
    assert AnswerOk(s, s.callers[t]);
  }

  lemma AnswerKeepsParts(s: State, t: nat, reply: Acquisition)
    requires Inv(s) && t in s.callers && s.callers[t].phase.Acquiring?
    ensures PartsOk(s, Conclude(s, t, reply))
  {
    if Answered(reply).Served? {
      ServedKeepsParts(s, t, reply);
    } else {
      assert AnswerOk(s, s.callers[t]);
    }
  }

  lemma EnterKeepsParts(s: State, t: nat, force: bool)
    requires Inv(s) && t !in s.callers
    ensures PartsOk(s, Exec(s, Enter(t, force)))
  {
    if Cached(s.token, s.clock).Some? { CachedIsBeyondSkew(s); }
  }

  lemma ServeKeepsParts(s: State, t: nat, value: string)
    requires Inv(s) && t in s.callers && s.callers[t].phase.Waiting? && !s.callers[t].force
    requires Cached(s.token, s.clock) == Some(value)
    ensures PartsOk(s, SetPhase(Locked(s, t), t, FromTheCache(s, value)))
  {
    assert AnswerOk(s, s.callers[t]);
    CachedIsBeyondSkew(s);
  }

  lemma AcquireKeepsParts(s: State, t: nat)
    requires Inv(s) && t in s.callers && s.callers[t].phase.Waiting? && s.holder.None?
    ensures PartsOk(s, Acquire(s, t))
  {
    assert AnswerOk(s, s.callers[t]);
  }

  lemma TakeLockKeepsParts(s: State, t: nat)
    requires Inv(s) && t in s.callers && s.callers[t].phase.Waiting? && s.holder.None?
    ensures PartsOk(s, Exec(s, TakeLock(t)))
  {
    if !s.callers[t].force && Cached(s.token, s.clock).Some? {
      ServeKeepsParts(s, t, Cached(s.token, s.clock).value);
      assert Exec(s, TakeLock(t)) == SetPhase(Locked(s, t), t, FromTheCache(s, Cached(s.token, s.clock).value));
    } else {
      AcquireKeepsParts(s, t);
      assert Exec(s, TakeLock(t)) == Acquire(s, t);
    }
  }

  lemma CancelKeepsParts(s: State, t: nat)
    requires Inv(s) && t in s.callers && !s.callers[t].phase.Done?
    ensures PartsOk(s, Exec(s, Cancel(t)))
  {
    assert AnswerOk(s, s.callers[t]);
  }

  lemma ThreadEndKeepsParts(s: State, t: nat)
    requires Inv(s)
    ensures PartsOk(s, Exec(s, ThreadEnds(t)))
  {
  }

  lemma StepKeepsParts(s: State, a: Action)
    requires Inv(s)
    ensures PartsOk(s, Exec(s, a))
  {
    match a {
      case Enter(t, force) => if t !in s.callers { EnterKeepsParts(s, t, force); }
      case TakeLock(t) =>
        if t in s.callers && s.callers[t].phase.Waiting? && s.holder.None? { TakeLockKeepsParts(s, t); }
      case Answer(t, reply) =>
        if t in s.callers && s.callers[t].phase.Acquiring? { AnswerKeepsParts(s, t, reply); }
      case Cancel(t) => if t in s.callers && !s.callers[t].phase.Done? { CancelKeepsParts(s, t); }
      case ThreadEnds(t) => ThreadEndKeepsParts(s, t);
      case Invalidate =>
      case Tick(_) =>
    }
  }

  lemma StepKeepsInv(s: State, a: Action)
    requires Inv(s)
    ensures Inv(Exec(s, a))
  {
    StepKeepsParts(s, a);
    StepGrows(s, a);
    var s' := Exec(s, a);
    forall t | t in s'.callers
      ensures AnswerOk(s', s'.callers[t])
    {
      if t in s.callers && s'.callers[t] == s.callers[t] {
        AnswerStays(s, s', s.callers[t]);
      }
    }
  }

  lemma {:induction false} RunKeepsInv(s: State, actions: seq<Action>)
    requires Inv(s)
    ensures Inv(Run(s, actions)) && Grows(s, Run(s, actions))
  {
    if actions != [] {
      RunKeepsInv(s, actions[..|actions| - 1]);
      StepKeepsInv(Run(s, actions[..|actions| - 1]), actions[|actions| - 1]);
      StepGrows(Run(s, actions[..|actions| - 1]), actions[|actions| - 1]);
    }
  }

  /**
    In every interleaving, a value served from the cache at time `at` is that of a grant whose own reported
    lifetime still had more than the skew left; a forced caller is never served from the cache, and gets a
    token whose acquisition started after its call; and one acquisition at most is awaited.
  */
  lemma ServedTokensAreFresh(start: State, actions: seq<Action>, t: nat, u: nat)
    requires IsStart(start)
    requires t in Run(start, actions).callers && u in Run(start, actions).callers
    ensures
      var s := Run(start, actions);
      var c := s.callers[t];
      && (c.phase.Done? && c.phase.how.FromCache? ==>
        !c.force && c.phase.outcome.Served? && c.phase.how.grant < |s.grants|
        && BeyondSkew(s.grants[c.phase.how.grant], c.phase.outcome.value, c.phase.how.at))
      && (c.phase.Done? && c.phase.outcome.Served? && c.force ==>
        && c.phase.how.FromIssuer? && c.phase.how.grant < |s.grants|
        && s.grants[c.phase.how.grant].value == c.phase.outcome.value && s.grants[c.phase.how.grant].number >= c.entered)
      && (c.phase.Acquiring? && s.callers[u].phase.Acquiring? ==> t == u)
  {
    RunKeepsInv(start, actions);
    assert AnswerOk(Run(start, actions), Run(start, actions).callers[t]);
  }

  // How many acquisitions run at once.

  predicate OneRuns(s: State) {
    forall t, u :: t in s.running && u in s.running ==> t == u
  }

  /** The action starts an acquisition while one that nobody waits for still runs. */
  predicate Overtakes(s: State, a: Action) {
    a.TakeLock? && Exec(s, a).started > s.started && Orphans(s) != {}
  }

  function After(s: State, actions: seq<Action>, k: nat): State
    requires k <= |actions|
  {
    Run(s, actions[..k])
  }

  lemma StepOneRunsIff(s: State, a: Action)
    requires Inv(s) && OneRuns(s)
    ensures OneRuns(Exec(s, a)) <==> !Overtakes(s, a)
  {
    if a.TakeLock? && Exec(s, a).started > s.started {
      forall u | u in s.running
        ensures u in Orphans(s) && u != a.t
      {
        assert u in s.callers && s.callers[u].phase.Done?;
      }
      if Overtakes(s, a) {
        var u :| u in Orphans(s);
        assert u in Exec(s, a).running && a.t in Exec(s, a).running;
      }
    }
  }

  lemma AfterNext(s: State, actions: seq<Action>, k: nat)
    requires k < |actions|
    ensures After(s, actions, k + 1) == Exec(After(s, actions, k), actions[k])
  {
    assert actions[..k + 1][..k] == actions[..k];
  }

  predicate OneRunsUntil(start: State, actions: seq<Action>, n: nat)
    requires n <= |actions|
  {
    forall k :: 0 <= k <= n ==> OneRuns(After(start, actions, k))
  }

  predicate NoneOvertakesUntil(start: State, actions: seq<Action>, n: nat)
    requires n <= |actions|
  {
    forall k :: 0 <= k < n ==> !Overtakes(After(start, actions, k), actions[k])
  }

  /**
    Cancellation can let two acquisitions run at once. One at most runs up to action n if and only if
    until then no acquisition starts while a cancelled one still runs.
  */
  lemma {:induction false} OneRunsIffNoneOvertakes(start: State, actions: seq<Action>, n: nat)
    requires IsStart(start) && n <= |actions|
    ensures OneRunsUntil(start, actions, n) <==> NoneOvertakesUntil(start, actions, n)
  {
    if n > 0 {
      OneRunsIffNoneOvertakes(start, actions, n - 1);
      RunKeepsInv(start, actions[..n - 1]);
      var before, a := After(start, actions, n - 1), actions[n - 1];
      AfterNext(start, actions, n - 1);
      if OneRuns(before) {
        StepOneRunsIff(before, a);
      }
    }
  }

  /** Cancelling the caller of a running acquisition lets the next caller start a second one beside it. */
  lemma CancelledAcquisitionIsOvertaken(start: State)
    requires IsStart(start)
    ensures
      var s := Run(start, [Enter(0, false), TakeLock(0), Cancel(0), Enter(1, false), TakeLock(1)]);
      s.running == {0, 1} && !OneRuns(s)
  {
    var actions := [Enter(0, false), TakeLock(0), Cancel(0), Enter(1, false), TakeLock(1)];
    assert actions[..4][..3] == actions[..3] && actions[..3][..2] == actions[..2] && actions[..2][..1] == actions[..1];
    assert |actions| == 5;
    assert actions[..1][..0] == [];
    assert Run(start, actions[..1]) == Exec(start, actions[0]);
    assert Run(start, actions[..2]) == Exec(Run(start, actions[..1]), actions[1]);
    assert Run(start, actions[..3]) == Exec(Run(start, actions[..2]), actions[2]);
    assert Run(start, actions[..4]) == Exec(Run(start, actions[..3]), actions[3]);
    var s := Run(start, actions);
    assert 0 in s.running && 1 in s.running;
  }

  // Sharing one acquisition.

  /** No caller asks for a forced refresh. */
  predicate Unforced(s: State) {
    forall t :: t in s.callers && !s.callers[t].phase.Done? ==> !s.callers[t].force
  }

  predicate Harmless(a: Action) {
    !a.Invalidate? && (a.Enter? ==> !a.force)
  }

  /** `t` got `value` from the cache, or has not been answered, or gave up. */
  predicate SharedBy(c: Caller, value: string) {
    c.phase.Waiting? || (c.phase.Done? && (c.phase.outcome == Served(value) || c.phase.outcome.Cancelled?))
  }

  /** From `s` on, nobody acquired anything, and everybody answered since got `k`. */
  predicate OnlyServed(s: State, s': State, k: AccessToken) {
    && s'.token == Some(k) && s'.holder.None? && s'.started == s.started && s'.grants == s.grants
    && Unforced(s')
    && (forall t :: t in s.callers ==> t in s'.callers)
    && (forall t :: t in s.callers && s.callers[t].phase.Done? ==> s'.callers[t] == s.callers[t])
    && (forall t :: t in s'.callers && !(t in s.callers && s.callers[t].phase.Done?) ==>
      SharedBy(s'.callers[t], k.value))
  }

  lemma StepOnlyServes(s: State, mid: State, k: AccessToken, a: Action)
    requires OnlyServed(s, mid, k) && Inv(mid) && Harmless(a) && mid.clock < k.expiresAt - 300.0
    ensures OnlyServed(s, Exec(mid, a), k)
  {
    assert Cached(mid.token, mid.clock) == Some(k.value);
  }

  /**
    One acquisition serves everybody: once a token is stored and the lock is free, no non-forced
    caller acquires anything before the skew of that token is reached, unless Invalidate runs.
  */
  lemma {:induction false} OneAcquisitionServesAll(s: State, k: AccessToken, actions: seq<Action>)
    requires s.token == Some(k) && s.holder.None? && Unforced(s) && Inv(s)
    requires forall a :: a in actions ==> Harmless(a)
    requires Run(s, actions).clock < k.expiresAt - 300.0
    ensures OnlyServed(s, Run(s, actions), k)
  {
    if actions == [] {
      assert forall t :: t in s.callers && !s.callers[t].phase.Done? ==> s.callers[t].phase.Waiting?;
    } else {
      var before := actions[..|actions| - 1];
      var a := actions[|actions| - 1];
      assert a in actions && forall b :: b in before ==> b in actions;
      var mid := Run(s, before);
      StepGrows(mid, a);
      OneAcquisitionServesAll(s, k, before);
      RunKeepsInv(s, before);
      StepOnlyServes(s, mid, k, a);
    }
  }

  lemma {:induction false} RunHoldsLatest(s: State, actions: seq<Action>)
    requires HoldsLatest(s) && forall a :: a in actions ==> !a.Invalidate?
    ensures HoldsLatest(Run(s, actions))
  {
    if actions != [] {
      var before := actions[..|actions| - 1];
      assert actions[|actions| - 1] in actions && forall a :: a in before ==> a in actions;
      RunHoldsLatest(s, before);
    }
  }

  /**
    After a grant and until Invalidate runs, whatever else happens, forced refreshes included: a
    non-forced caller that gets the lock acquires a token exactly when the latest grant is within the skew.
  */
  lemma WaiterAcquiresIffStale(s: State, actions: seq<Action>, t: nat)
    requires HoldsLatest(s) && forall a :: a in actions ==> !a.Invalidate?
    requires t in Run(s, actions).callers && Run(s, actions).callers[t].phase.Waiting?
    requires !Run(s, actions).callers[t].force && Run(s, actions).holder.None?
    ensures
      var mid := Run(s, actions);
      && mid.grants != []
      && var g := mid.grants[|mid.grants| - 1];
      var p := Exec(mid, TakeLock(t)).callers[t].phase;
      && (p == Acquiring(mid.clock, mid.started) <==> Expiry(g) <= mid.clock + 300.0)
      && (p == Done(Served(g.value), FromCache(mid.clock, |mid.grants| - 1)) <==>
        Expiry(g) > mid.clock + 300.0)
  {
    RunHoldsLatest(s, actions);
  }

  // Single steps, from the provider's answers.

  /** A call that comes while the lock is free or held: a non-forced one is served at once exactly when the latest grant is beyond the skew. */
  lemma EntersServedIff(s: State, t: nat, force: bool)
    requires Inv(s) && t !in s.callers && HoldsLatest(s)
    ensures
      var g := s.grants[|s.grants| - 1];
      var p := Exec(s, Enter(t, force)).callers[t].phase;
      && (p == Done(Served(g.value), FromCache(s.clock, |s.grants| - 1)) <==> !force && Expiry(g) > s.clock + 300.0)
      && (p == Waiting <==> force || Expiry(g) <= s.clock + 300.0)
  {
  }

  /** The provider's answer ends the acquisition: a token with a readable lifetime is stored and served, and nothing else is. */
  lemma AnswerExactly(s: State, t: nat, reply: Acquisition)
    requires t in s.callers && s.callers[t].phase.Acquiring?
    ensures
      var s' := Exec(s, Answer(t, reply));
      var c, since := s'.callers[t], s.callers[t].phase.since;
      && s'.holder == None && s'.started == s.started
      && match reply
         case Rejected =>
           c.phase == Done(AuthenticationError, Nothing) && s'.token == s.token && s'.grants == s.grants
         case Issued(value, Malformed) =>
           c.phase == Done(BadLifetime, Nothing) && s'.token == s.token && s'.grants == s.grants
         case Issued(value, lifetime) =>
           var g := Grant(value, since, lifetime, s.callers[t].phase.number);
           && c.phase == Done(Served(value), FromIssuer(|s.grants|)) && s'.grants == s.grants + [g]
           && s'.token == Some(AccessToken(value, Expiry(g)))
  {
  }

  // Interleaved calls are calls.

  /** A caller is where Call takes it, for what it has met so far, unless it was cancelled. */
  predicate FollowsCall(c: Caller) {
    match c.phase
    case Waiting => c.force || Cached(c.found, c.waits.entered).None?
    case Acquiring(since, _) =>
      && (c.force || (Cached(c.found, c.waits.entered).None? && Cached(c.waits.tokenLocked, c.waits.locked).None?))
      && since == c.waits.locked
    case Done(outcome, how) =>
      outcome.Cancelled? ||
      var r := Call(c.force, c.found, c.waits);
      outcome == r.outcome && (r.acquired <==> !how.FromCache?)
  }

  predicate AllFollow(s: State) {
    forall t :: t in s.callers ==> FollowsCall(s.callers[t])
  }

  lemma StepKeepsFollowing(s: State, a: Action)
    requires AllFollow(s)
    ensures AllFollow(Exec(s, a))
  {
    var s' := Exec(s, a);
    forall t | t in s'.callers && !(t in s.callers && s'.callers[t] == s.callers[t])
      ensures FollowsCall(s'.callers[t])
    {
      if t in s.callers {
        assert FollowsCall(s.callers[t]);
      }
    }
  }

  /** In every interleaving, each call that was not cancelled ends as Call says, for what it met at its suspensions. */
  lemma {:induction false} EveryCallFollows(start: State, actions: seq<Action>)
    requires IsStart(start)
    ensures AllFollow(Run(start, actions))
  {
    if actions != [] {
      EveryCallFollows(start, actions[..|actions| - 1]);
      StepKeepsFollowing(Run(start, actions[..|actions| - 1]), actions[|actions| - 1]);
    }
  }

  /** The three segments of an interleaved call amount to Call; a forced one acquires whatever the cache holds. */
  lemma CallIsRun(s1: State, s2: State, s3: State, t: nat, force: bool, reply: Acquisition)
    requires t !in s1.callers
    requires t in s2.callers && s2.callers[t] == Exec(s1, Enter(t, force)).callers[t] && s2.holder.None?
    requires t in s3.callers && s3.callers[t] == Exec(s2, TakeLock(t)).callers[t]
    ensures
      var r := Call(force, s1.token, Waits(s1.clock, s2.clock, s2.token, reply, s3.token));
      var end := Exec(s3, Answer(t, reply));
      && end.callers[t].phase.Done? && end.callers[t].phase.outcome == r.outcome
      && (r.acquired <==> Exec(s2, TakeLock(t)).callers[t].phase.Acquiring?)
      && (r.acquired ==> end.token == r.token)
      && (force ==> r.acquired)
  {
  }
}
