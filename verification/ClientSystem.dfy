/** Any number of interleaved `_get` calls that share one token service. */
module ClientSystem {
  import opened Wrappers
  import opened Tokens
  import T = TokenSystem
  import C = Client

  /**
    Between attempts, waiting for token caller t, waiting for D365 with what the token call has met, over, or
    given up: cancelled, or ended by any other exception.
  */
  datatype Stage =
    Pausing | Asking(t: nat) | Sending(found: Option<AccessToken>, waits: Waits) | Ended(result: C.Result) | GivenUp

  /**
    `first401` holds how many acquisitions had started when the call met its first 401, and `attempts` what
    its finished attempts have met.
  */
  datatype Call = Call(
    maxRetries: int, attempt: nat, refreshed: bool, force: bool, first401: Option<nat>, attempts: seq<C.Attempt>,
    at: Stage)

  /** A request that was sent: its bearer token, the grant of that token, and the first 401 before it. */
  datatype Request = Request(call: nat, token: string, grant: nat, first401: Option<nat>)

  datatype State = State(tokens: T.State, calls: map<nat, Call>, requests: seq<Request>)

  /** Other is anything else that happens to the token service, other users of it included. */
  datatype Action =
    | Begin(c: nat, maxRetries: int)
    | Ask(c: nat, t: nat)
    | Send(c: nat)
    | Receive(c: nat, e: C.Exchange)
    | Abort(c: nat)
    | Other(a: T.Action)

  function Put(s: State, c: nat, call: Call): State {
    s.(calls := s.calls[c := call])
  }

  /** The next attempt, or the end of the loop. */
  function Onward(call: Call): Call {
    if call.attempt + 1 > call.maxRetries
    then call.(attempt := call.attempt + 1, at := Ended(Err(C.AfterBoundedRetries)))
    else call.(attempt := call.attempt + 1, at := Pausing)
  }

  function Sent(s: State, c: nat, caller: T.Caller): State
    requires c in s.calls && caller.phase.Done?
  {
    var call, p := s.calls[c], caller.phase;
    if p.outcome.Cancelled? then Put(s, c, call.(at := GivenUp))
    else if !p.outcome.Served? then
      Put(s, c, call.(
        attempts := call.attempts + [C.Attempt(caller.found, caller.waits, C.Broken)],
        at := Ended(Err(C.TokenFailure(p.outcome)))))
    else
      Put(s, c, call.(force := false, at := Sending(caller.found, caller.waits))).(
        requests := s.requests + [Request(c, p.outcome.value, GrantOf(p.how), call.first401)])
  }

  function GrantOf(how: T.How): nat {
    match how
    case FromCache(_, i) => i
    case FromIssuer(i) => i
    case Nothing => 0
  }

  /** What `_get` does with the answer of D365. */
  function Answered(call: Call, e: C.Exchange, started: nat): Call
    requires call.at.Sending?
  {
    var next := call.(attempts := call.attempts + [C.Attempt(call.at.found, call.at.waits, e)]);
    match C.React(call.maxRetries, call.attempt, call.refreshed, e)
    case Stop(result) => next.(at := Ended(result))
    case Again(_, invalidate) =>
      Onward(if invalidate then next.(refreshed := true, force := true, first401 := Some(started)) else next)
  }

  /** Whether the answer makes the call invalidate the cached token. */
  predicate Invalidates(call: Call, e: C.Exchange) {
    var r := C.React(call.maxRetries, call.attempt, call.refreshed, e);
    r.Again? && r.invalidate
  }

  function Received(s: State, c: nat, e: C.Exchange): State
    requires c in s.calls && s.calls[c].at.Sending?
  {
    Put(if Invalidates(s.calls[c], e) then s.(tokens := T.Exec(s.tokens, T.Invalidate)) else s, c,
      Answered(s.calls[c], e, s.tokens.started))
  }

  function Exec(s: State, a: Action): State {
    match a
    case Begin(c, maxRetries) =>
      if c in s.calls then s
      else
        Put(s, c, Call(maxRetries, 0, false, false, None, [],
          if maxRetries < 0 then Ended(Err(C.AfterBoundedRetries)) else Pausing))
    case Ask(c, t) =>
      if c !in s.calls || !s.calls[c].at.Pausing? || t in s.tokens.callers then s
      else
        Put(s.(tokens := T.Exec(s.tokens, T.Enter(t, s.calls[c].force))), c, s.calls[c].(at := Asking(t)))
    case Send(c) =>
      if c !in s.calls || !s.calls[c].at.Asking? || s.calls[c].at.t !in s.tokens.callers
        || !s.tokens.callers[s.calls[c].at.t].phase.Done? then s
      else Sent(s, c, s.tokens.callers[s.calls[c].at.t])
    case Receive(c, e) =>
      if c !in s.calls || !s.calls[c].at.Sending? then s else Received(s, c, e)
    case Abort(c) =>
      if c !in s.calls || s.calls[c].at.Ended? then s else Put(s, c, s.calls[c].(at := GivenUp))
    case Other(a) => s.(tokens := T.Exec(s.tokens, a))
  }

  function Run(s: State, actions: seq<Action>): State {
    if actions == [] then s else Exec(Run(s, actions[..|actions| - 1]), actions[|actions| - 1])
  }

  /** What each action does to its call: it asks for a token, sends a request with it, and takes the answer. */
  lemma CallMoves(s: State, c: nat, t: nat, e: C.Exchange)
    requires c in s.calls
    ensures s.calls[c].at.Pausing? && t !in s.tokens.callers ==>
      var s' := Exec(s, Ask(c, t));
      s'.calls[c].at == Asking(t) && t in s'.tokens.callers && s'.tokens.callers[t].force == s.calls[c].force
    ensures s.calls[c].at == Asking(t) && t in s.tokens.callers && s.tokens.callers[t].phase.Done? ==>
      var s', caller := Exec(s, Send(c)), s.tokens.callers[t];
      if caller.phase.outcome.Served? then
        && s'.calls[c].at == Sending(caller.found, caller.waits) && |s'.requests| == |s.requests| + 1
        && s'.requests[|s.requests|].call == c && s'.requests[|s.requests|].token == caller.phase.outcome.value
      else s'.calls[c].at.Ended? || s'.calls[c].at.GivenUp?
    ensures s.calls[c].at.Sending? ==>
      var call, call' := s.calls[c], Exec(s, Receive(c, e)).calls[c];
      (call'.at.Pausing? || call'.at.Ended?) && |call'.attempts| == |call.attempts| + 1
      && call'.attempts[|call.attempts|].exchange == e
  {
  }

  predicate IsStart(s: State) {
    T.IsStart(s.tokens) && s.calls == map[] && s.requests == []
  }

  /** Grant i exists, and its acquisition started when at least m had started before it. */
  predicate StartedAfter(tokens: T.State, i: int, m: nat) {
    0 <= i < |tokens.grants| && tokens.grants[i].number >= m
  }

  /** Since its first 401 a call either is about to force a token, or a token acquired since then is the latest. */
  predicate CallOk(tokens: T.State, call: Call) {
    && (call.refreshed <==> call.first401.Some?)
    && (call.force ==> call.refreshed)
    && (call.first401.Some? ==> call.first401.value <= tokens.started)
    && (call.first401.Some? && !call.force ==> StartedAfter(tokens, |tokens.grants| - 1, call.first401.value))
    && (call.at.Asking? ==>
      && call.at.t in tokens.callers
      && var caller := tokens.callers[call.at.t];
      && caller.force == call.force
      && (call.first401.Some? && call.force ==> caller.entered >= call.first401.value)
      && (call.first401.Some? && !call.force ==> StartedAfter(tokens, caller.known - 1, call.first401.value))
      && (call.first401.Some? && !call.force ==> caller.entered >= call.first401.value))
  }

  /** The request carries the token of its grant, acquired after the first 401 of its call, if there was one. */
  predicate RequestOk(tokens: T.State, r: Request) {
    && r.grant < |tokens.grants| && tokens.grants[r.grant].value == r.token
    && (r.first401.Some? ==> StartedAfter(tokens, r.grant, r.first401.value))
  }

  predicate Inv(s: State) {
    && T.Inv(s.tokens)
    && (forall c :: c in s.calls ==> CallOk(s.tokens, s.calls[c]))
    && (forall r :: r in s.requests ==> RequestOk(s.tokens, r))
  }

  /** What later events leave of the token service. */
  predicate Later(tokens: T.State, tokens': T.State) {
    && T.Inv(tokens') && T.Grows(tokens, tokens')
    && (forall t :: t in tokens.callers ==>
      t in tokens'.callers && T.SameEntry(tokens.callers[t], tokens'.callers[t]))
  }

  lemma TokenStepIsLater(tokens: T.State, a: T.Action)
    requires T.Inv(tokens)
    ensures Later(tokens, T.Exec(tokens, a))
  {
    T.StepKeepsInv(tokens, a);
    T.StepGrows(tokens, a);
    forall t | t in tokens.callers
      ensures t in T.Exec(tokens, a).callers && T.SameEntry(tokens.callers[t], T.Exec(tokens, a).callers[t])
    {
      T.CallersStay(tokens, a, t);
    }
  }

  lemma CallStaysOk(tokens: T.State, tokens': T.State, call: Call)
    requires CallOk(tokens, call) && Later(tokens, tokens')
    ensures CallOk(tokens', call)
  {
    if call.first401.Some? && !call.force {
      var last := |tokens.grants| - 1;
      assert tokens'.grants[last] == tokens.grants[last];
      assert last < |tokens'.grants| - 1 ==> tokens'.grants[last].number < tokens'.grants[|tokens'.grants| - 1].number;
    }
  }

  lemma OthersStayOk(s: State, tokens': T.State)
    requires Inv(s) && Later(s.tokens, tokens')
    ensures Inv(s.(tokens := tokens'))
  {
    forall c | c in s.calls
      ensures CallOk(tokens', s.calls[c])
    {
      CallStaysOk(s.tokens, tokens', s.calls[c]);
    }
    forall r | r in s.requests
      ensures RequestOk(tokens', r)
    {
    }
  }

  lemma PutKeepsInv(s: State, c: nat, call: Call)
    requires Inv(s) && CallOk(s.tokens, call)
    ensures Inv(Put(s, c, call))
  {
  }

  /** The token a call is answered with was acquired after its first 401. */
  lemma AnswerIsRecent(tokens: T.State, call: Call)
    requires T.Inv(tokens) && CallOk(tokens, call) && call.at.Asking?
    requires tokens.callers[call.at.t].phase.Done? && tokens.callers[call.at.t].phase.outcome.Served?
    ensures
      var p := tokens.callers[call.at.t].phase;
      && GrantOf(p.how) < |tokens.grants| && tokens.grants[GrantOf(p.how)].value == p.outcome.value
      && (call.first401.Some? ==> StartedAfter(tokens, GrantOf(p.how), call.first401.value))
  {
    var caller := tokens.callers[call.at.t];
    assert T.AnswerOk(tokens, caller);
    if caller.phase.how.FromCache? && call.first401.Some? {
      var i, k := caller.phase.how.grant, caller.known - 1;
      assert k < i ==> tokens.grants[k].number < tokens.grants[i].number;
    }
  }

  lemma SendKeepsInv(s: State, c: nat)
    requires Inv(s) && c in s.calls && s.calls[c].at.Asking? && s.tokens.callers[s.calls[c].at.t].phase.Done?
    ensures Inv(Sent(s, c, s.tokens.callers[s.calls[c].at.t]))
  {
    var call := s.calls[c];
    var caller := s.tokens.callers[call.at.t];
    var p := caller.phase;
    if p.outcome.Served? {
      AnswerIsRecent(s.tokens, call);
      var i, last := GrantOf(p.how), |s.tokens.grants| - 1;
      assert i < last ==> s.tokens.grants[i].number < s.tokens.grants[last].number;
      PutKeepsInv(s, c, call.(force := false, at := Sending(caller.found, caller.waits)));
    } else if p.outcome.Cancelled? {
      PutKeepsInv(s, c, call.(at := GivenUp));
    } else {
      PutKeepsInv(s, c, call.(
        attempts := call.attempts + [C.Attempt(caller.found, caller.waits, C.Broken)],
        at := Ended(Err(C.TokenFailure(p.outcome)))));
    }
  }

  lemma AskKeepsInv(s: State, c: nat, t: nat)
    requires Inv(s) && c in s.calls && s.calls[c].at.Pausing? && t !in s.tokens.callers
    ensures Inv(Exec(s, Ask(c, t)))
  {
    var call := s.calls[c];
    var tokens' := T.Exec(s.tokens, T.Enter(t, call.force));
    TokenStepIsLater(s.tokens, T.Enter(t, call.force));
    OthersStayOk(s, tokens');
    PutKeepsInv(s.(tokens := tokens'), c, call.(at := Asking(t)));
  }

  lemma ReceiveKeepsInv(s: State, c: nat, e: C.Exchange)
    requires Inv(s) && c in s.calls && s.calls[c].at.Sending?
    ensures Inv(Received(s, c, e))
  {
    var call := s.calls[c];
    if Invalidates(call, e) {
      var tokens' := T.Exec(s.tokens, T.Invalidate);
      TokenStepIsLater(s.tokens, T.Invalidate);
      OthersStayOk(s, tokens');
      PutKeepsInv(s.(tokens := tokens'), c, Answered(call, e, s.tokens.started));
    } else {
      PutKeepsInv(s, c, Answered(call, e, s.tokens.started));
    }
  }

  lemma StepKeepsInv(s: State, a: Action)
    requires Inv(s)
    ensures Inv(Exec(s, a))
  {
    match a {
      case Ask(c, t) =>
        if c in s.calls && s.calls[c].at.Pausing? && t !in s.tokens.callers { AskKeepsInv(s, c, t); }
      case Send(c) =>
        if c in s.calls && s.calls[c].at.Asking? && s.tokens.callers[s.calls[c].at.t].phase.Done? { SendKeepsInv(s, c); }
      case Receive(c, e) =>
        if c in s.calls && s.calls[c].at.Sending? { ReceiveKeepsInv(s, c, e); }
      case Other(b) =>
        TokenStepIsLater(s.tokens, b);
        OthersStayOk(s, T.Exec(s.tokens, b));
      case Abort(c) =>
      case Begin(c, maxRetries) =>
    }
  }

  lemma {:induction false} EveryStateInv(start: State, actions: seq<Action>)
    requires IsStart(start)
    ensures Inv(Run(start, actions))
  {
    if actions != [] {
      EveryStateInv(start, actions[..|actions| - 1]);
      StepKeepsInv(Run(start, actions[..|actions| - 1]), actions[|actions| - 1]);
    }
  }

  /**
    In every interleaving of any number of calls, with invalidations, cancellations and other users of the
    token service: every request carries the token of a grant, and a request that follows the first 401 of
    its call carries one whose acquisition started after that 401, whether it was forced or came from the cache.
  */
  lemma RequestsUseTokensSinceTheir401(start: State, actions: seq<Action>, i: nat)
    requires IsStart(start) && i < |Run(start, actions).requests|
    ensures
      var s := Run(start, actions);
      var r := s.requests[i];
      && r.grant < |s.tokens.grants| && s.tokens.grants[r.grant].value == r.token
      && (r.first401.Some? ==> s.tokens.grants[r.grant].number >= r.first401.value)
  {
    EveryStateInv(start, actions);
    assert Run(start, actions).requests[i] in Run(start, actions).requests;
  }

  // Interleaved calls are Get.

  /** What a call meets, as far as it has met anything. */
  function WorldOf(attempts: seq<C.Attempt>): C.World {
    (i: nat) =>
      if i < |attempts| then attempts[i] else C.Attempt(None, Waits(0.0, 0.0, None, Rejected, None), C.Broken)
  }

  /** How many of the first n attempts get a token and so send a request. */
  function Sends(world: C.World, n: nat): nat {
    if n == 0 then 0 else Sends(world, n - 1) + if C.TokenCall(world, n - 1).outcome.Served? then 1 else 0
  }

  function RequestsOf(requests: seq<Request>, c: nat): nat {
    if requests == [] then 0
    else RequestsOf(requests[..|requests| - 1], c) + if requests[|requests| - 1].call == c then 1 else 0
  }

  /** Both worlds meet the same in the first n attempts. */
  predicate SameUntil(v: C.World, w: C.World, n: nat) {
    forall i: nat :: i < n ==> v(i) == w(i)
  }

  lemma SameHistory(v: C.World, w: C.World, n: nat, i: nat)
    requires SameUntil(v, w, n) && i <= n
    ensures C.Earlier401(v, i) == C.Earlier401(w, i) && C.Forced(v, i) == C.Forced(w, i)
  {
    forall k: nat | k < i
      ensures C.Earlier401(v, k) == C.Earlier401(w, k)
    {
      assert forall j: nat :: j < k ==> C.Met401(v, j) == C.Met401(w, j);
    }
    assert forall j: nat :: j < i ==> C.Met401(v, j) == C.Met401(w, j);
  }

  lemma SameCourse(v: C.World, w: C.World, maxRetries: int, n: nat)
    requires SameUntil(v, w, n)
    ensures C.AllContinue(v, maxRetries, n) == C.AllContinue(w, maxRetries, n)
    ensures forall i: nat :: i < n ==> C.TokenCall(v, i) == C.TokenCall(w, i)
  {
    forall i: nat | i < n
      ensures C.TokenCall(v, i) == C.TokenCall(w, i) && C.Continues(v, maxRetries, i) == C.Continues(w, maxRetries, i)
    {
      SameHistory(v, w, n, i);
    }
  }

  lemma {:induction false} AllSend(world: C.World, maxRetries: int, n: nat)
    requires C.AllContinue(world, maxRetries, n)
    ensures Sends(world, n) == n
  {
    if n > 0 {
      AllSend(world, maxRetries, n - 1);
      assert C.Continues(world, maxRetries, n - 1);
    }
  }

  /** The state of the loop after the recorded attempts. */
  predicate AtAttempt(call: Call, refreshed: bool) {
    var w, n := WorldOf(call.attempts), |call.attempts|;
    && n == call.attempt && n <= call.maxRetries && C.AllContinue(w, call.maxRetries, n)
    && (refreshed <==> C.Earlier401(w, n))
  }

  /** A call is where the loop takes it for what it has met, and has sent as many requests. */
  predicate FollowsLoop(call: Call, requests: nat) {
    var w, n := WorldOf(call.attempts), |call.attempts|;
    match call.at
    case Pausing => AtAttempt(call, call.refreshed) && (call.force <==> C.Forced(w, n)) && requests == n
    case Asking(_) => AtAttempt(call, call.refreshed) && (call.force <==> C.Forced(w, n)) && requests == n
    case Sending(found, waits) =>
      && AtAttempt(call, call.refreshed) && !call.force && requests == n + 1
      && Tokens.Call(C.Forced(w, n), found, waits).outcome.Served?
    case Ended(result) =>
      C.Stops(w, call.maxRetries, n) && result == C.Verdict(w, call.maxRetries, n) && requests == Sends(w, n)
    case GivenUp => true
  }

  lemma NextAttempt(attempts: seq<C.Attempt>, a: C.Attempt, maxRetries: int)
    ensures
      var w, w', n := WorldOf(attempts), WorldOf(attempts + [a]), |attempts|;
      && SameUntil(w, w', n) && w'(n) == a
      && C.AllContinue(w', maxRetries, n) == C.AllContinue(w, maxRetries, n)
      && C.Earlier401(w', n) == C.Earlier401(w, n) && C.Forced(w', n) == C.Forced(w, n)
      && C.TokenCall(w', n).outcome == Tokens.Call(C.Forced(w, n), a.found, a.waits).outcome
      && (C.Earlier401(w', n + 1) <==> C.Earlier401(w', n) || C.Met401(w', n))
      && (C.AllContinue(w, maxRetries, n) ==> Sends(w', n) == n)
  {
    var w, w', n := WorldOf(attempts), WorldOf(attempts + [a]), |attempts|;
    SameHistory(w, w', n, n);
    SameCourse(w, w', maxRetries, n);
    C.Earlier401Next(w', n);
    if C.AllContinue(w, maxRetries, n) { AllSend(w', maxRetries, n); }
  }

  /** A token call that fails ends the loop. */
  lemma FailureFollows(call: Call, requests: nat, caller: T.Caller)
    requires FollowsLoop(call, requests) && call.at.Asking?
    requires T.FollowsCall(caller) && caller.force == call.force && caller.phase.Done?
    requires !caller.phase.outcome.Served? && !caller.phase.outcome.Cancelled?
    ensures FollowsLoop(call.(
      attempts := call.attempts + [C.Attempt(caller.found, caller.waits, C.Broken)],
      at := Ended(Err(C.TokenFailure(caller.phase.outcome)))), requests)
  {
    var a := C.Attempt(caller.found, caller.waits, C.Broken);
    NextAttempt(call.attempts, a, call.maxRetries);
    var w', n := WorldOf(call.attempts + [a]), |call.attempts|;
    assert !C.Continues(w', call.maxRetries, n);
  }

  lemma SendFollows(call: Call, requests: nat, caller: T.Caller)
    requires FollowsLoop(call, requests) && call.at.Asking?
    requires T.FollowsCall(caller) && caller.force == call.force && caller.phase.Done? && caller.phase.outcome.Served?
    ensures FollowsLoop(call.(force := false, at := Sending(caller.found, caller.waits)), requests + 1)
  {
  }

  /** What the recorded world says about the attempt that has just met e. */
  lemma AnswerSeen(call: Call, requests: nat, e: C.Exchange)
    requires FollowsLoop(call, requests) && call.at.Sending?
    ensures
      var w := WorldOf(call.attempts + [C.Attempt(call.at.found, call.at.waits, e)]);
      var n, m := call.attempt, call.maxRetries;
      && n == |call.attempts| && n <= m && requests == n + 1 && Sends(w, n + 1) == n + 1
      && C.AllContinue(w, m, n) && C.TokenCall(w, n).outcome.Served?
      && C.ReactionAt(w, m, n) == C.React(m, n, call.refreshed, e)
      && (C.Continues(w, m, n) <==> C.React(m, n, call.refreshed, e).Again?)
      && (call.refreshed <==> C.Earlier401(w, n)) && w(n).exchange == e
      && (C.Earlier401(w, n + 1) <==> C.Earlier401(w, n) || C.Met401(w, n))
  {
    NextAttempt(call.attempts, C.Attempt(call.at.found, call.at.waits, e), call.maxRetries);
  }

  lemma AnswerEnds(call: Call, requests: nat, e: C.Exchange, started: nat)
    requires FollowsLoop(call, requests) && call.at.Sending?
    requires call.attempt == call.maxRetries || C.React(call.maxRetries, call.attempt, call.refreshed, e).Stop?
    ensures FollowsLoop(Answered(call, e, started), requests)
  {
    AnswerSeen(call, requests, e);
  }

  lemma AnswerGoesOn(call: Call, requests: nat, e: C.Exchange, started: nat)
    requires FollowsLoop(call, requests) && call.at.Sending?
    requires call.attempt < call.maxRetries && C.React(call.maxRetries, call.attempt, call.refreshed, e).Again?
    ensures FollowsLoop(Answered(call, e, started), requests)
  {
    AnswerSeen(call, requests, e);
    var w := WorldOf(call.attempts + [C.Attempt(call.at.found, call.at.waits, e)]);
    assert C.AllContinue(w, call.maxRetries, call.attempt + 1);
  }

  lemma AnswerFollows(call: Call, requests: nat, e: C.Exchange, started: nat)
    requires FollowsLoop(call, requests) && call.at.Sending?
    ensures FollowsLoop(Answered(call, e, started), requests)
  {
    AnswerSeen(call, requests, e);
    if call.attempt == call.maxRetries || C.React(call.maxRetries, call.attempt, call.refreshed, e).Stop? {
      AnswerEnds(call, requests, e, started);
    } else {
      AnswerGoesOn(call, requests, e, started);
    }
  }

  predicate AllFollow(s: State) {
    && T.AllFollow(s.tokens)
    && forall c :: c in s.calls ==> FollowsLoop(s.calls[c], RequestsOf(s.requests, c))
  }

  /** Only the call that acts changes, and only Send adds a request. */
  lemma OthersFollow(s: State, s': State, c: nat)
    requires AllFollow(s) && T.AllFollow(s'.tokens) && c in s'.calls && s'.calls == s.calls[c := s'.calls[c]]
    requires s'.requests == s.requests || (s'.requests != [] && s'.requests[..|s'.requests| - 1] == s.requests
                                           && s'.requests[|s'.requests| - 1].call == c)
    requires FollowsLoop(s'.calls[c], RequestsOf(s'.requests, c))
    ensures AllFollow(s')
  {
  }

  lemma SendKeepsFollowing(s: State, c: nat)
    requires Inv(s) && AllFollow(s) && c in s.calls && s.calls[c].at.Asking?
    requires s.tokens.callers[s.calls[c].at.t].phase.Done?
    ensures AllFollow(Exec(s, Send(c)))
  {
    var s' := Exec(s, Send(c));
    var call := s.calls[c];
    var caller := s.tokens.callers[call.at.t];
    var requests := RequestsOf(s.requests, c);
    if caller.phase.outcome.Served? {
      SendFollows(call, requests, caller);
    } else if !caller.phase.outcome.Cancelled? {
      FailureFollows(call, requests, caller);
    }
    OthersFollow(s, s', c);
  }

  lemma ReceiveKeepsFollowing(s: State, c: nat, e: C.Exchange)
    requires AllFollow(s) && c in s.calls && s.calls[c].at.Sending?
    ensures AllFollow(Exec(s, Receive(c, e)))
  {
    AnswerFollows(s.calls[c], RequestsOf(s.requests, c), e, s.tokens.started);
    T.StepKeepsFollowing(s.tokens, T.Invalidate);
    OthersFollow(s, Exec(s, Receive(c, e)), c);
  }

  lemma {:induction false} NoRequestsYet(requests: seq<Request>, c: nat)
    requires forall r :: r in requests ==> r.call != c
    ensures RequestsOf(requests, c) == 0
  {
    if requests != [] {
      assert requests[|requests| - 1] in requests;
      NoRequestsYet(requests[..|requests| - 1], c);
    }
  }

  /** Requests belong to calls. */
  predicate Attributed(s: State) {
    forall r :: r in s.requests ==> r.call in s.calls
  }

  lemma BeginKeepsFollowing(s: State, c: nat, maxRetries: int)
    requires AllFollow(s) && Attributed(s) && c !in s.calls
    ensures AllFollow(Exec(s, Begin(c, maxRetries)))
  {
    NoRequestsYet(s.requests, c);
    OthersFollow(s, Exec(s, Begin(c, maxRetries)), c);
  }

  lemma AskKeepsFollowing(s: State, c: nat, t: nat)
    requires AllFollow(s) && c in s.calls && s.calls[c].at.Pausing? && t !in s.tokens.callers
    ensures AllFollow(Exec(s, Ask(c, t)))
  {
    T.StepKeepsFollowing(s.tokens, T.Enter(t, s.calls[c].force));
    OthersFollow(s, Exec(s, Ask(c, t)), c);
  }

  lemma StepKeepsAttributed(s: State, a: Action)
    requires Attributed(s)
    ensures Attributed(Exec(s, a))
  {
  }

  lemma StepKeepsFollowing(s: State, a: Action)
    requires Inv(s) && AllFollow(s) && Attributed(s)
    ensures AllFollow(Exec(s, a))
  {
    match a {
      case Begin(c, maxRetries) => if c !in s.calls { BeginKeepsFollowing(s, c, maxRetries); }
      case Ask(c, t) =>
        if c in s.calls && s.calls[c].at.Pausing? && t !in s.tokens.callers { AskKeepsFollowing(s, c, t); }
      case Send(c) =>
        if c in s.calls && s.calls[c].at.Asking? && s.tokens.callers[s.calls[c].at.t].phase.Done? {
          SendKeepsFollowing(s, c);
        }
      case Receive(c, e) => if c in s.calls && s.calls[c].at.Sending? { ReceiveKeepsFollowing(s, c, e); }
      case Abort(c) => if c in s.calls && !s.calls[c].at.Ended? { OthersFollow(s, Exec(s, a), c); }
      case Other(b) => T.StepKeepsFollowing(s.tokens, b);
    }
  }

  lemma {:induction false} EveryStateFollows(start: State, actions: seq<Action>)
    requires IsStart(start)
    ensures AllFollow(Run(start, actions)) && Attributed(Run(start, actions))
  {
    if actions != [] {
      var before := Run(start, actions[..|actions| - 1]);
      EveryStateFollows(start, actions[..|actions| - 1]);
      EveryStateInv(start, actions[..|actions| - 1]);
      StepKeepsFollowing(before, actions[|actions| - 1]);
      StepKeepsAttributed(before, actions[|actions| - 1]);
    }
  }

  lemma StopsOnce(world: C.World, maxRetries: int, n: nat, m: nat)
    requires C.Stops(world, maxRetries, n) && C.Stops(world, maxRetries, m)
    ensures n == m
  {
  }

  function SentSteps(log: seq<C.Step>): nat {
    if log == [] then 0 else SentSteps(log[..|log| - 1]) + if log[|log| - 1].sent then 1 else 0
  }

  lemma {:induction false} SentStepsAreSends(world: C.World, maxRetries: int, log: seq<C.Step>)
    requires forall i: nat :: i < |log| ==> log[i] == C.StepAt(world, maxRetries, i)
    ensures SentSteps(log) == Sends(world, |log|)
  {
    if log != [] {
      SentStepsAreSends(world, maxRetries, log[..|log| - 1]);
    }
  }

  /**
    In every interleaving, a call that ends without being given up is Get, over the very token calls and
    exchanges that it met: the same result, as many attempts, and as many requests. So everything proved
    about Get, its result, its retries and its sleeps, holds of interleaved calls.
  */
  lemma EndedCallsAreGet(start: State, actions: seq<Action>, c: nat, token: Option<AccessToken>)
    requires IsStart(start) && c in Run(start, actions).calls && Run(start, actions).calls[c].at.Ended?
    ensures
      var s := Run(start, actions);
      var call := s.calls[c];
      var t := C.Get(WorldOf(call.attempts), call.maxRetries, token);
      && call.at.result == t.result && |call.attempts| == |t.log|
      && RequestsOf(s.requests, c) == SentSteps(t.log)
  {
    EveryStateFollows(start, actions);
    var call := Run(start, actions).calls[c];
    var w := WorldOf(call.attempts);
    var log := C.Get(w, call.maxRetries, token).log;
    C.GetMatches(w, call.maxRetries, token);
    StopsOnce(w, call.maxRetries, |call.attempts|, |log|);
    SentStepsAreSends(w, call.maxRetries, log);
  }
}
