/** The bounded-retry GET of `client.py`, over any upstream behaviour and any use of the token cache by other tasks. */
module Client {
  import opened Wrappers
  import opened Tokens

  /** The Retry-After header (section 10.2.3 of RFC 9110), as far as Python can read it. */
  datatype RetryAfter =
    | Missing
    | Number(seconds: real)
    | Infinite(positive: bool)
    | NotANumber
    | Date(secondsAhead: real)
    | Unreadable

  datatype Response = Response(status: int, retryAfter: RetryAfter, body: string)

  /** Timeout stands for httpx timeouts and network errors; Broken for every other exception of the request. */
  datatype Exchange = Timeout | Broken | Received(response: Response)

  /** What attempt i meets: the cache other tasks left, the course of the token call, and the exchange. */
  datatype Attempt = Attempt(found: Option<AccessToken>, waits: Waits, exchange: Exchange)

  type World = nat -> Attempt

  datatype Delay = Pause(s: real) | NaN

  datatype GetError =
    | TokenFailure(outcome: Outcome)
    | AuthenticationRejected
    | AuthorizationDenied
    | RateLimited
    | ServiceUnavailable
    | RequestFailed(status: int)
    | AfterBoundedRetries
    | TransportFailure
    | DelayOverflow

  type Result = Wrappers.Result<Response, GetError>

  /** One attempt: how the token was obtained, whether a request was sent, and what was done before the next one. */
  datatype Step = Step(forced: bool, acquired: bool, sent: bool, invalidated: bool, slept: Option<Delay>)

  function Pow2(n: nat): nat {
    if n == 0 then 1 else 2 * Pow2(n - 1)
  }

  function Min(a: real, b: real): real {
    if b < a then b else a
  }

  function Clamp(x: real): real {
    if x < 0.0 then 0.0 else Min(x, 30.0)
  }

  /** 2**attempt no longer converts to a Python float. */
  const FLOAT_LIMIT: nat := 1024

  /** `min(base * 2**attempt, 4.0)`, or None for OverflowError. */
  function Backoff(base: real, attempt: nat): Option<Delay> {
    if attempt >= FLOAT_LIMIT then None else Some(Pause(Min(base * Pow2(attempt) as real, 4.0)))
  }

  function RetryDelay(h: RetryAfter, attempt: nat): Option<Delay> {
    match h
    case Number(x) => Some(Pause(Clamp(x)))
    case Infinite(positive) => Some(Pause(if positive then 30.0 else 0.0))
    case NotANumber => Some(NaN)
    case Date(x) => Some(Pause(Clamp(x)))
    case Missing => Backoff(0.5, attempt)
    case Unreadable => Backoff(0.5, attempt)
  }

  datatype Reaction = Stop(result: Result) | Again(slept: Option<Delay>, invalidate: bool)

  function AfterDelay(d: Option<Delay>): Reaction {
    if d.None? then Stop(Err(DelayOverflow)) else Again(d, false)
  }

  /** What the loop does with an exchange; `refreshed` tells whether an earlier attempt met a 401. */
  function React(maxRetries: int, attempt: nat, refreshed: bool, e: Exchange): Reaction {
    match e
    case Broken => Stop(Err(TransportFailure))
    case Timeout =>
      if attempt >= maxRetries then Stop(Err(AfterBoundedRetries)) else AfterDelay(Backoff(0.25, attempt))
    case Received(r) =>
      if r.status == 401 then (if refreshed then Stop(Err(AuthenticationRejected)) else Again(None, true))
      else if r.status == 403 then Stop(Err(AuthorizationDenied))
      else if r.status == 429 then
        (if attempt >= maxRetries then Stop(Err(RateLimited)) else AfterDelay(RetryDelay(r.retryAfter, attempt)))
      else if r.status >= 500 then
        (if attempt >= maxRetries then Stop(Err(ServiceUnavailable)) else AfterDelay(Backoff(0.25, attempt)))
      else if 200 <= r.status < 300 then Stop(Ok(r))
      else Stop(Err(RequestFailed(r.status)))
  }

  datatype Trip = Trip(result: Result, log: seq<Step>, token: Option<AccessToken>)

  /** The cache a token call starts from: directly after Invalidate no other task has run. */
  function Entering(world: World, attempt: nat, force: bool, token: Option<AccessToken>): Option<AccessToken> {
    if force then token else world(attempt).found
  }

  /** One turn of the loop: its step, the cache it leaves, and the result if the loop ends here. */
  datatype Turn = Turn(step: Step, token: Option<AccessToken>, result: Option<Result>)

  function Once(world: World, maxRetries: int, attempt: nat, refreshed: bool, force: bool,
                token: Option<AccessToken>): Turn {
    var a := world(attempt);
    var call := Call(force, Entering(world, attempt, force, token), a.waits);
    if !call.outcome.Served? then
      Turn(Step(force, call.acquired, false, false, None), call.token, Some(Err(TokenFailure(call.outcome))))
    else
      match React(maxRetries, attempt, refreshed, a.exchange)
      case Stop(result) => Turn(Step(force, call.acquired, true, false, None), call.token, Some(result))
      case Again(slept, invalidate) =>
        Turn(Step(force, call.acquired, true, invalidate, slept), if invalidate then None else call.token, None)
  }

  /** The attempts from `attempt` on. */
  function From(world: World, maxRetries: int, attempt: nat, refreshed: bool, force: bool,
                token: Option<AccessToken>): Trip
    decreases maxRetries + 1 - attempt
  {
    if attempt > maxRetries then Trip(Err(AfterBoundedRetries), [], token)
    else
      var turn := Once(world, maxRetries, attempt, refreshed, force, token);
      if turn.result.Some? then Trip(turn.result.value, [turn.step], turn.token)
      else
        var invalidated := turn.step.invalidated;
        var rest := From(world, maxRetries, attempt + 1, refreshed || invalidated, invalidated, turn.token);
        Trip(rest.result, [turn.step] + rest.log, rest.token)
  }

  function Get(world: World, maxRetries: int, token: Option<AccessToken>): Trip {
    From(world, maxRetries, 0, false, false, token)
  }

  /** A trip after the steps already logged. */
  function Prefixed(log: seq<Step>, t: Trip): (r: Trip)
    ensures t.log == [] ==> r == Trip(t.result, log, t.token)
  {
    Trip(t.result, log + t.log, t.token)
  }

  lemma PrefixedTurn(world: World, maxRetries: int, attempt: nat, refreshed: bool, force: bool,
                     token: Option<AccessToken>, log: seq<Step>)
    requires attempt <= maxRetries
    ensures
      var turn := Once(world, maxRetries, attempt, refreshed, force, token);
      var whole := Prefixed(log, From(world, maxRetries, attempt, refreshed, force, token));
      if turn.result.Some? then whole == Trip(turn.result.value, log + [turn.step], turn.token)
      else
        var invalidated := turn.step.invalidated;
        whole == Prefixed(log + [turn.step],
          From(world, maxRetries, attempt + 1, refreshed || invalidated, invalidated, turn.token))
  {
    var turn := Once(world, maxRetries, attempt, refreshed, force, token);
    if turn.result.None? {
      var invalidated := turn.step.invalidated;
      var rest := From(world, maxRetries, attempt + 1, refreshed || invalidated, invalidated, turn.token);
      assert log + ([turn.step] + rest.log) == (log + [turn.step]) + rest.log;
    }
  }

  class D365Client {
    const maxRetries: int
    const tokens: D365TokenService

    constructor (maxRetries: int, tokens: D365TokenService)
      ensures this.maxRetries == maxRetries && this.tokens == tokens
    {
      this.maxRetries := maxRetries;
      this.tokens := tokens;
    }

    /** One turn of the loop; None means that the loop goes on. */
    method TryOnce(world: World, attempt: nat, refreshed: bool, force: bool)
      returns (step: Step, result: Option<Result>)
      modifies tokens
      ensures Turn(step, tokens.token, result) ==
              Once(world, maxRetries, attempt, refreshed, force, old(tokens.token))
    {
      var a := world(attempt);
      if !force {
        // Suspended here: other requests may have used the token service.
        tokens.token := a.found;
      }
      var token, acquired := tokens.GetAccessToken(force, a.waits);
      if !token.Served? {
        return Step(force, acquired, false, false, None), Some(Err(TokenFailure(token)));
      }
      match React(maxRetries, attempt, refreshed, a.exchange) {
        case Stop(r) =>
          return Step(force, acquired, true, false, None), Some(r);
        case Again(slept, invalidate) =>
          if invalidate {
            tokens.Invalidate();
          }
          return Step(force, acquired, true, invalidate, slept), None;
      }
    }

    method GetResponse(world: World) returns (result: Result, log: seq<Step>)
      modifies tokens
      ensures Trip(result, log, tokens.token) == Get(world, maxRetries, old(tokens.token))
    {
      var authenticationRefreshed, forceRefreshNext := false, false;
      log := [];
      ghost var whole := Get(world, maxRetries, tokens.token);
      var attempt: nat := 0;
      while attempt <= maxRetries
        invariant whole == Prefixed(log,
          From(world, maxRetries, attempt, authenticationRefreshed, forceRefreshNext, tokens.token))
        decreases maxRetries + 1 - attempt
      {
        PrefixedTurn(world, maxRetries, attempt, authenticationRefreshed, forceRefreshNext, tokens.token, log);
        var step, stop := TryOnce(world, attempt, authenticationRefreshed, forceRefreshNext);
        log := log + [step];
        if stop.Some? {
          return stop.value, log;
        }
        authenticationRefreshed := authenticationRefreshed || step.invalidated;
        forceRefreshNext := step.invalidated;
        attempt := attempt + 1;
      }
      result := Err(AfterBoundedRetries);
    }
  }

  // A description of the whole call without recursion: attempt by attempt, from the world alone.

  predicate Met401(world: World, i: nat) {
    world(i).exchange.Received? && world(i).exchange.response.status == 401
  }

  predicate Earlier401(world: World, i: nat) {
    exists j: nat :: j < i && Met401(world, j)
  }

  predicate First401(world: World, i: nat) {
    Met401(world, i) && !Earlier401(world, i)
  }

  /** Attempt i forces a new token: exactly the one after the first 401. */
  predicate Forced(world: World, i: nat) {
    i > 0 && First401(world, i - 1)
  }

  function TokenCall(world: World, i: nat): CallResult {
    Call(Forced(world, i), if Forced(world, i) then None else world(i).found, world(i).waits)
  }

  function ReactionAt(world: World, maxRetries: int, i: nat): Reaction {
    React(maxRetries, i, Earlier401(world, i), world(i).exchange)
  }

  predicate Continues(world: World, maxRetries: int, i: nat) {
    TokenCall(world, i).outcome.Served? && ReactionAt(world, maxRetries, i).Again?
  }

  function StepAt(world: World, maxRetries: int, i: nat): Step {
    var call := TokenCall(world, i);
    var again := Continues(world, maxRetries, i);
    Step(Forced(world, i), call.acquired, call.outcome.Served?, again && First401(world, i),
      if again then ReactionAt(world, maxRetries, i).slept else None)
  }

  /** The result after exactly n attempts. */
  function Verdict(world: World, maxRetries: int, n: nat): Result {
    if n == 0 || Continues(world, maxRetries, n - 1) then Err(AfterBoundedRetries)
    else if !TokenCall(world, n - 1).outcome.Served? then Err(TokenFailure(TokenCall(world, n - 1).outcome))
    else ReactionAt(world, maxRetries, n - 1).result
  }

  /** n is the number of attempts: every earlier one continues, and the last one does not or was the last allowed. */
  predicate Stops(world: World, maxRetries: int, n: nat) {
    && (n as int <= if maxRetries < 0 then 0 else maxRetries + 1)
    && (forall i: nat :: i + 1 < n ==> Continues(world, maxRetries, i))
    && (n as int > maxRetries || (n > 0 && !Continues(world, maxRetries, n - 1)))
  }

  lemma Earlier401Next(world: World, i: nat)
    ensures Earlier401(world, i + 1) <==> Earlier401(world, i) || Met401(world, i)
  {
    if Earlier401(world, i) {
      var j: nat :| j < i && Met401(world, j);
      assert j < i + 1 && Met401(world, j);
    }
  }

  lemma OnceMatches(world: World, maxRetries: int, i: nat, token: Option<AccessToken>)
    requires Forced(world, i) ==> token == None
    ensures
      var turn := Once(world, maxRetries, i, Earlier401(world, i), Forced(world, i), token);
      && turn.step == StepAt(world, maxRetries, i)
      && (turn.result.None? <==> Continues(world, maxRetries, i))
      && (turn.result.Some? ==> turn.result.value == Verdict(world, maxRetries, i + 1))
      && (turn.result.None? ==>
        && turn.step.invalidated == Forced(world, i + 1)
        && (Earlier401(world, i) || turn.step.invalidated) == Earlier401(world, i + 1)
        && (turn.step.invalidated ==> turn.token == None))
  {
    Earlier401Next(world, i);
  }

  /** The log of the attempts from `first` on. */
  predicate Covers(world: World, maxRetries: int, first: nat, log: seq<Step>) {
    forall k: nat :: k < |log| ==> log[k] == StepAt(world, maxRetries, first + k)
  }

  predicate AllContinue(world: World, maxRetries: int, n: nat) {
    forall i: nat :: i < n ==> Continues(world, maxRetries, i)
  }

  lemma CoversCons(world: World, maxRetries: int, first: nat, step: Step, rest: seq<Step>)
    requires step == StepAt(world, maxRetries, first) && Covers(world, maxRetries, first + 1, rest)
    ensures Covers(world, maxRetries, first, [step] + rest)
  {
    var log := [step] + rest;
    forall k: nat | k < |log|
      ensures log[k] == StepAt(world, maxRetries, first + k)
    {
      if k > 0 {
        assert log[k] == rest[k - 1] && first + k == first + 1 + (k - 1);
      }
    }
  }

  /** The loop from `attempt` on, in the state the earlier attempts leave, ends after n attempts in all. */
  predicate Described(world: World, maxRetries: int, attempt: nat, t: Trip) {
    var n := attempt + |t.log|;
    && Covers(world, maxRetries, attempt, t.log)
    && (if attempt <= maxRetries then attempt < n <= maxRetries + 1 else t.log == [])
    && (n > 0 ==> AllContinue(world, maxRetries, n - 1))
    && (n as int > maxRetries || (n > 0 && !Continues(world, maxRetries, n - 1)))
    && t.result == Verdict(world, maxRetries, n)
  }

  lemma LastTurn(world: World, maxRetries: int, attempt: nat, token: Option<AccessToken>)
    requires AllContinue(world, maxRetries, attempt) && attempt <= maxRetries
    requires Forced(world, attempt) ==> token == None
    requires Once(world, maxRetries, attempt, Earlier401(world, attempt), Forced(world, attempt), token).result.Some?
    ensures Described(world, maxRetries, attempt,
      From(world, maxRetries, attempt, Earlier401(world, attempt), Forced(world, attempt), token))
  {
    OnceMatches(world, maxRetries, attempt, token);
    CoversCons(world, maxRetries, attempt, StepAt(world, maxRetries, attempt), []);
  }

  lemma FurtherTurn(world: World, maxRetries: int, attempt: nat, turn: Turn, rest: Trip)
    requires attempt <= maxRetries && AllContinue(world, maxRetries, attempt + 1)
    requires turn.step == StepAt(world, maxRetries, attempt) && Described(world, maxRetries, attempt + 1, rest)
    ensures Described(world, maxRetries, attempt, Trip(rest.result, [turn.step] + rest.log, rest.token))
  {
    CoversCons(world, maxRetries, attempt, turn.step, rest.log);
  }

  lemma {:induction false} FromMatches(world: World, maxRetries: int, attempt: nat, token: Option<AccessToken>)
    requires AllContinue(world, maxRetries, attempt)
    requires Forced(world, attempt) ==> token == None
    ensures Described(world, maxRetries, attempt,
      From(world, maxRetries, attempt, Earlier401(world, attempt), Forced(world, attempt), token))
    decreases maxRetries + 1 - attempt
  {
    if attempt <= maxRetries {
      var turn := Once(world, maxRetries, attempt, Earlier401(world, attempt), Forced(world, attempt), token);
      if turn.result.Some? {
        LastTurn(world, maxRetries, attempt, token);
      } else {
        OnceMatches(world, maxRetries, attempt, token);
        FromMatches(world, maxRetries, attempt + 1, turn.token);
        FurtherTurn(world, maxRetries, attempt, turn,
          From(world, maxRetries, attempt + 1, Earlier401(world, attempt + 1), Forced(world, attempt + 1), turn.token));
      }
    }
  }

  /** For every upstream behaviour: how many attempts are made, what each one does, and the result. */
  lemma GetMatches(world: World, maxRetries: int, token: Option<AccessToken>)
    ensures
      var t := Get(world, maxRetries, token);
      && Stops(world, maxRetries, |t.log|)
      && (forall i: nat :: i < |t.log| ==> t.log[i] == StepAt(world, maxRetries, i))
      && t.result == Verdict(world, maxRetries, |t.log|)
  {
    assert !Earlier401(world, 0);
    FromMatches(world, maxRetries, 0, token);
  }

  /** Only a first 401 invalidates, the attempt after it acquires a token, and there is at most one of each. */
  lemma OneRefresh(world: World, maxRetries: int, token: Option<AccessToken>, i: nat, j: nat)
    requires i < |Get(world, maxRetries, token).log| && j < |Get(world, maxRetries, token).log|
    ensures
      var log := Get(world, maxRetries, token).log;
      && (log[i].invalidated && log[j].invalidated ==> i == j)
      && (log[i].forced && log[j].forced ==> i == j)
      && (log[i].forced <==> i > 0 && log[i - 1].invalidated)
      && (log[i].forced ==> log[i].acquired)
      && (log[i].invalidated ==> log[i].slept.None?)
  {
    GetMatches(world, maxRetries, token);
    if i > 0 {
      assert Continues(world, maxRetries, i - 1);
      assert Get(world, maxRetries, token).log[i - 1] == StepAt(world, maxRetries, i - 1);
    }
    if First401(world, i) && First401(world, j) {
      assert !(i < j) && !(j < i);
    }
    if Forced(world, i) && Forced(world, j) {
      assert !(i - 1 < j - 1) && !(j - 1 < i - 1);
    }
  }

  /** A response is returned only with a 2xx status, and it is the first such response. */
  lemma OnlyFirstSuccessReturned(world: World, maxRetries: int, token: Option<AccessToken>)
    requires Get(world, maxRetries, token).result.Ok?
    ensures
      var t := Get(world, maxRetries, token);
      && |t.log| > 0 && world(|t.log| - 1).exchange == Received(t.result.value)
      && 200 <= t.result.value.status < 300
      && forall i: nat :: i + 1 < |t.log| && world(i).exchange.Received? ==>
        !(200 <= world(i).exchange.response.status < 300)
  {
    GetMatches(world, maxRetries, token);
    forall i: nat | i + 1 < |Get(world, maxRetries, token).log| && world(i).exchange.Received?
      ensures !(200 <= world(i).exchange.response.status < 300)
    {
      assert Continues(world, maxRetries, i);
    }
  }

  /** The number of attempts is the first one at which the loop does not continue, if there is one. */
  lemma LastAttempt(world: World, maxRetries: int, n: nat, i: nat)
    requires Stops(world, maxRetries, n) && i <= maxRetries && AllContinue(world, maxRetries, i)
    ensures n >= i + 1
    ensures !Continues(world, maxRetries, i) ==> n == i + 1
  {
    assert n > 0 && Continues(world, maxRetries, n - 1) ==> n - 1 >= i;
  }

  /** Attempt i uses a token and meets a timeout, or the first 401 of the call. */
  predicate FallsThrough(world: World, i: nat) {
    TokenCall(world, i).outcome.Served? && (world(i).exchange.Timeout? || First401(world, i))
  }

  /** The "after bounded retries" error: no attempt was allowed, or all were used and the last met a timeout or a first 401. */
  lemma ExhaustedExactlyWhen(world: World, maxRetries: int, token: Option<AccessToken>)
    ensures Get(world, maxRetries, token).result == Err(AfterBoundedRetries) <==>
      maxRetries < 0 || (AllContinue(world, maxRetries, maxRetries) && FallsThrough(world, maxRetries))
  {
    GetMatches(world, maxRetries, token);
    var n := |Get(world, maxRetries, token).log|;
    if maxRetries >= 0 {
      LastAttempt(world, maxRetries, n, 0);
      if AllContinue(world, maxRetries, maxRetries) {
        LastAttempt(world, maxRetries, n, maxRetries);
      }
    }
  }

  /** The exchange makes the loop compute a backoff. */
  predicate BacksOff(e: Exchange) {
    || e.Timeout?
    || (e.Received? && e.response.status == 429 && (e.response.retryAfter.Missing? || e.response.retryAfter.Unreadable?))
    || (e.Received? && e.response.status >= 500)
  }

  /** Attempt i is made, is not the last allowed, and its backoff is no longer computable. */
  predicate Overflows(world: World, maxRetries: int, i: nat) {
    && FLOAT_LIMIT <= i < maxRetries && AllContinue(world, maxRetries, i)
    && TokenCall(world, i).outcome.Served? && BacksOff(world(i).exchange)
  }

  lemma OverflowStops(world: World, maxRetries: int, i: nat)
    ensures FLOAT_LIMIT <= i < maxRetries && TokenCall(world, i).outcome.Served? && BacksOff(world(i).exchange) <==>
      TokenCall(world, i).outcome.Served? && ReactionAt(world, maxRetries, i) == Stop(Err(DelayOverflow))
  {
  }

  /** A delay overflows exactly when some attempt from 1024 on is made, is not the last, and backs off. */
  lemma OverflowExactlyWhen(world: World, maxRetries: int, token: Option<AccessToken>)
    ensures Get(world, maxRetries, token).result == Err(DelayOverflow) <==> exists i: nat :: Overflows(world, maxRetries, i)
  {
    GetMatches(world, maxRetries, token);
    var n := |Get(world, maxRetries, token).log|;
    if i: nat :| Overflows(world, maxRetries, i) {
      OverflowStops(world, maxRetries, i);
      LastAttempt(world, maxRetries, n, i);
    }
    if Get(world, maxRetries, token).result == Err(DelayOverflow) {
      OverflowStops(world, maxRetries, n - 1);
      assert Overflows(world, maxRetries, n - 1);
    }
  }

  /** Every attempt gets a token and meets the same exchange. */
  function Always(e: Exchange): World {
    (i: nat) => Attempt(None, Waits(0.0, 0.0, None, Issued("token", Default), None), e)
  }

  /** A 401 on the only allowed attempt is not reported as an authentication error. */
  lemma Only401IsExhausted()
    ensures Get(Always(Received(Response(401, Missing, ""))), 0, None).result == Err(AfterBoundedRetries)
  {
    var world := Always(Received(Response(401, Missing, "")));
    assert FallsThrough(world, 0);
    ExhaustedExactlyWhen(world, 0, None);
  }

  /** With a limit above 1024, 1025 timeouts overflow. */
  lemma TimeoutsOverflow()
    ensures Get(Always(Timeout), 1025, None).result == Err(DelayOverflow)
  {
    var world := Always(Timeout);
    forall i: nat | i < FLOAT_LIMIT
      ensures Continues(world, 1025, i)
    {
      assert TokenCall(world, i).outcome.Served?;
    }
    assert Overflows(world, 1025, FLOAT_LIMIT);
    OverflowExactlyWhen(world, 1025, None);
  }

  // The loop by exchange and status.

  predicate HasStatus(e: Exchange, status: int) {
    e.Received? && e.response.status == status
  }

  /** Attempt i meets a 401, and no earlier attempt did. */
  predicate FirstRefusal(world: World, i: nat) {
    HasStatus(world(i).exchange, 401) && forall j: nat :: j < i ==> !HasStatus(world(j).exchange, 401)
  }

  predicate ServerError(e: Exchange) {
    e.Received? && e.response.status >= 500
  }

  predicate NamesDelay(h: RetryAfter) {
    h.Number? || h.Infinite? || h.NotANumber? || h.Date?
  }

  /** The delay needs 2 to the power 1024 or more, which is no float. */
  predicate Uncomputable(i: nat, e: Exchange) {
    i >= 1024 && (e.Timeout? || ServerError(e) || (HasStatus(e, 429) && !NamesDelay(e.response.retryAfter)))
  }

  /** After attempt i, which got a token, the loop goes on. */
  predicate GoesOn(world: World, maxRetries: int, i: nat) {
    var e := world(i).exchange;
    || FirstRefusal(world, i)
    || (i < maxRetries && !Uncomputable(i, e) && (e.Timeout? || HasStatus(e, 429) || ServerError(e)))
  }

  predicate IsCapped(s: Option<Delay>, x: real) {
    s == Some(Pause(if x < 4.0 then x else 4.0))
  }

  predicate IsClamped(s: Option<Delay>, x: real) {
    s == Some(Pause(if x < 0.0 then 0.0 else if x < 30.0 then x else 30.0))
  }

  /** How long the loop sleeps when it goes on after attempt i. */
  predicate SleepsAsAsked(i: nat, e: Exchange, s: Option<Delay>) {
    var power := Pow2(i) as real;
    match e
    case Broken => false
    case Timeout => IsCapped(s, 0.25 * power)
    case Received(r) =>
      if r.status == 401 then s == None
      else if r.status != 429 then IsCapped(s, 0.25 * power)
      else
        match r.retryAfter
        case Number(x) => IsClamped(s, x)
        case Date(x) => IsClamped(s, x)
        case Infinite(positive) => s == Some(Pause(if positive then 30.0 else 0.0))
        case NotANumber => s == Some(NaN)
        case Missing => IsCapped(s, 0.5 * power)
        case Unreadable => IsCapped(s, 0.5 * power)
  }

  /** The result when attempt i got a token and was the last. */
  function LastResult(world: World, maxRetries: int, i: nat): Result {
    var e := world(i).exchange;
    if Uncomputable(i, e) && i < maxRetries then Err(DelayOverflow)
    else
      match e
      case Broken => Err(TransportFailure)
      case Timeout => Err(AfterBoundedRetries)
      case Received(r) =>
        if 200 <= r.status < 300 then Ok(r)
        else if r.status == 401 then Err(if FirstRefusal(world, i) then AfterBoundedRetries else AuthenticationRejected)
        else if r.status == 403 then Err(AuthorizationDenied)
        else if r.status == 429 then Err(RateLimited)
        else if r.status >= 500 then Err(ServiceUnavailable)
        else Err(RequestFailed(r.status))
  }

  lemma SameRefusal(world: World, i: nat)
    ensures First401(world, i) <==> FirstRefusal(world, i)
  {
    assert forall j: nat :: j < i ==> (Met401(world, j) <==> HasStatus(world(j).exchange, 401));
    if First401(world, i) {
      forall j: nat | j < i
        ensures !HasStatus(world(j).exchange, 401)
      {
        assert !Met401(world, j);
      }
    }
  }

  lemma ContinuesByStatus(world: World, maxRetries: int, i: nat)
    requires i <= maxRetries
    ensures Continues(world, maxRetries, i) <==> TokenCall(world, i).outcome.Served? && GoesOn(world, maxRetries, i)
    ensures Continues(world, maxRetries, i) ==> SleepsAsAsked(i, world(i).exchange, StepAt(world, maxRetries, i).slept)
    ensures StepAt(world, maxRetries, i).invalidated <==> TokenCall(world, i).outcome.Served? && FirstRefusal(world, i)
    ensures StepAt(world, maxRetries, i).sent <==> TokenCall(world, i).outcome.Served?
    ensures !Continues(world, maxRetries, i) ==> StepAt(world, maxRetries, i).slept == None
  {
    SameRefusal(world, i);
  }

  lemma ResultByStatus(world: World, maxRetries: int, i: nat)
    requires i <= maxRetries && TokenCall(world, i).outcome.Served?
    requires i == maxRetries || !Continues(world, maxRetries, i)
    ensures Verdict(world, maxRetries, i + 1) == LastResult(world, maxRetries, i)
  {
    SameRefusal(world, i);
  }

  /**
    `_get` by exchange and status alone: after which attempts it goes on and how long it sleeps before the next,
    when it invalidates the token, and what it returns or raises in the end.
  */
  lemma GetByStatus(world: World, maxRetries: int, token: Option<AccessToken>, i: nat)
    ensures var t := Get(world, maxRetries, token);
      && (maxRetries < 0 ==> t.log == [] && t.result == Err(AfterBoundedRetries))
      && (maxRetries >= 0 ==> 1 <= |t.log| <= maxRetries + 1)
      && (i < |t.log| ==>
        && (t.log[i].sent <==> TokenCall(world, i).outcome.Served?)
        && (t.log[i].invalidated <==> t.log[i].sent && FirstRefusal(world, i))
        && (t.log[i].slept.Some? ==> t.log[i].sent && GoesOn(world, maxRetries, i))
        && (t.log[i].sent && GoesOn(world, maxRetries, i) ==> SleepsAsAsked(i, world(i).exchange, t.log[i].slept)))
      && (i + 1 < |t.log| ==> t.log[i].sent && GoesOn(world, maxRetries, i))
      && (i + 1 == |t.log| ==>
        && (i == maxRetries || !(t.log[i].sent && GoesOn(world, maxRetries, i)))
        && t.result == if t.log[i].sent then LastResult(world, maxRetries, i)
                       else Err(TokenFailure(TokenCall(world, i).outcome)))
  {
    GetMatches(world, maxRetries, token);
    var log := Get(world, maxRetries, token).log;
    if i < |log| {
      ContinuesByStatus(world, maxRetries, i);
      assert log[i] == StepAt(world, maxRetries, i);
      if i + 1 == |log| && TokenCall(world, i).outcome.Served? {
        ResultByStatus(world, maxRetries, i);
      }
    }
  }

  // Sleeping.

  /** Delays that are not a number are not counted. */
  function Sleep(s: Step): real {
    if s.slept.Some? && s.slept.value.Pause? then s.slept.value.s else 0.0
  }

  function TotalSleep(log: seq<Step>): real {
    if log == [] then 0.0 else TotalSleep(log[..|log| - 1]) + Sleep(log[|log| - 1])
  }

  /** The sum of the first m backoff delays of a timeout or server error. */
  function BackoffSum(m: nat): real {
    if m == 0 then 0.0 else BackoffSum(m - 1) + Min(0.25 * Pow2(m - 1) as real, 4.0)
  }

  lemma {:induction false} Pow2Grows(n: nat)
    requires n >= 4
    ensures Pow2(n) >= 16
  {
    if n > 4 {
      Pow2Grows(n - 1);
    } else {
      assert Pow2(4) == 2 * Pow2(3) == 4 * Pow2(2) == 8 * Pow2(1);
    }
  }

  lemma {:induction false} BackoffSumClosed(m: nat)
    ensures m <= 4 ==> BackoffSum(m) == 0.25 * (Pow2(m) - 1) as real
    ensures m >= 4 ==> BackoffSum(m) == 4.0 * m as real - 12.25
  {
    if m > 0 {
      BackoffSumClosed(m - 1);
      if m > 4 {
        Pow2Grows(m - 1);
      } else {
        assert Pow2(0) == 1 && Pow2(1) == 2 && Pow2(2) == 2 * Pow2(1) && Pow2(3) == 2 * Pow2(2) && Pow2(4) == 2 * Pow2(3);
        assert Pow2(m) == 2 * Pow2(m - 1);
      }
    }
  }

  predicate No429(world: World, n: nat) {
    forall i: nat :: i < n && world(i).exchange.Received? ==> world(i).exchange.response.status != 429
  }

  /** A sleep lies between 0 and 30 seconds, and without a 429 it is at most the backoff of its attempt. */
  lemma StepSleep(world: World, maxRetries: int, i: nat)
    ensures
      var s := StepAt(world, maxRetries, i);
      && 0.0 <= Sleep(s) <= 30.0
      && (i >= maxRetries ==> s.slept.None?)
      && (No429(world, i + 1) ==> Sleep(s) <= Min(0.25 * Pow2(i) as real, 4.0))
  {
    assert Pow2(i) as real >= 0.0;
    if No429(world, i + 1) && world(i).exchange.Received? {
      assert world(i).exchange.response.status != 429;
    }
  }

  lemma {:induction false} PrefixSleep(world: World, maxRetries: nat, log: seq<Step>)
    requires |log| <= maxRetries + 1
    requires forall i: nat :: i < |log| ==> log[i] == StepAt(world, maxRetries, i)
    ensures var m := if |log| <= maxRetries then |log| else maxRetries;
            && 0.0 <= TotalSleep(log) <= 30.0 * m as real
            && (No429(world, |log|) ==> TotalSleep(log) <= BackoffSum(m))
  {
    if log != [] {
      var n := |log| - 1;
      PrefixSleep(world, maxRetries, log[..n]);
      StepSleep(world, maxRetries, n);
      assert log[n] == StepAt(world, maxRetries, n);
    }
  }

  /**
    Total sleep of one call: at most 30 seconds for each retry, and without a 429 the closed form of
    the backoff. No sleep follows the final attempt, and each delay that is a number lies in [0, 30].
  */
  lemma SleepBounds(world: World, maxRetries: nat, token: Option<AccessToken>)
    ensures
      var log := Get(world, maxRetries, token).log;
      && 0.0 <= TotalSleep(log) <= 30.0 * maxRetries as real
      && (No429(world, |log|) && maxRetries <= 4 ==> TotalSleep(log) <= 0.25 * (Pow2(maxRetries) - 1) as real)
      && (No429(world, |log|) && maxRetries >= 4 ==> TotalSleep(log) <= 4.0 * maxRetries as real - 12.25)
      && (log != [] ==> log[|log| - 1].slept.None?)
      && (forall i: nat :: i < |log| ==> 0.0 <= Sleep(log[i]) <= 30.0)
  {
    GetMatches(world, maxRetries, token);
    var log := Get(world, maxRetries, token).log;
    PrefixSleep(world, maxRetries, log);
    BackoffSumGrows(|log|, maxRetries);
    BackoffSumClosed(maxRetries);
    forall i: nat | i < |log|
      ensures 0.0 <= Sleep(log[i]) <= 30.0
    {
      StepSleep(world, maxRetries, i);
    }
    if log != [] {
      StepSleep(world, maxRetries, |log| - 1);
    }
  }

  lemma {:induction false} BackoffSumGrows(m: nat, n: nat)
    ensures m <= n ==> BackoffSum(m) <= BackoffSum(n)
  {
    if m < n {
      BackoffSumGrows(m, n - 1);
      assert Pow2(n - 1) as real >= 0.0;
    }
  }
}
