/** The application token cache (`token_service.py`): a locked refresh with an early-expiry skew. */
module Tokens {
  import opened Wrappers

  datatype AccessToken = AccessToken(value: string, expiresAt: real)

  datatype Lifetime = Default | Seconds(n: int) | Malformed

  /** What one acquisition gives: a token with its reported lifetime, or an error answer. */
  datatype Acquisition = Issued(token: string, lifetime: Lifetime) | Rejected

  datatype Outcome = Served(value: string) | AuthenticationError | BadLifetime | Cancelled

  const REFRESH_SKEW: real := 300.0
  const DEFAULT_LIFETIME: int := 3600
  const SHORTEST_LIFETIME: int := 60

  function Reported(l: Lifetime): int
    requires !l.Malformed?
  {
    if l.Default? then DEFAULT_LIFETIME else l.n
  }

  function Clamped(seconds: int): int {
    if seconds < SHORTEST_LIFETIME then SHORTEST_LIFETIME else seconds
  }

  /** The cached value, unless it is within the skew of its expiry. */
  function Cached(token: Option<AccessToken>, now: real): Option<string> {
    if token.Some? && token.value.expiresAt - REFRESH_SKEW > now then Some(token.value.value) else None
  }

  function Answered(a: Acquisition): Outcome {
    if a.Rejected? then AuthenticationError
    else if a.lifetime.Malformed? then BadLifetime
    else Served(a.token)
  }

  /** The cache after an acquisition that started at `since`. */
  function Stored(a: Acquisition, since: real, token: Option<AccessToken>): Option<AccessToken> {
    if Answered(a).Served? then Some(AccessToken(a.token, since + Clamped(Reported(a.lifetime)) as real)) else token
  }

  // One call, with what the rest of the program did while it was suspended.

  /** `locked` and `tokenLocked`: clock and cache once the lock is held; `tokenAfter`: cache when the acquisition ends. */
  datatype Waits = Waits(
    entered: real, locked: real, tokenLocked: Option<AccessToken>, reply: Acquisition, tokenAfter: Option<AccessToken>)

  datatype CallResult = CallResult(outcome: Outcome, acquired: bool, token: Option<AccessToken>)

  function Call(force: bool, token: Option<AccessToken>, w: Waits): CallResult {
    if !force && Cached(token, w.entered).Some? then
      CallResult(Served(Cached(token, w.entered).value), false, token)
    else if !force && Cached(w.tokenLocked, w.locked).Some? then
      CallResult(Served(Cached(w.tokenLocked, w.locked).value), false, w.tokenLocked)
    else
      CallResult(Answered(w.reply), true, Stored(w.reply, w.locked, w.tokenAfter))
  }

  /** The token is there and has more than five minutes left. */
  predicate Usable(token: Option<AccessToken>, now: real) {
    token.Some? && token.value.expiresAt - 300.0 > now
  }

  /** One call, case by case: two looks at the cache, unless it is forced, and then the provider's answer. */
  lemma CallExactly(force: bool, token: Option<AccessToken>, w: Waits)
    ensures
      var r := Call(force, token, w);
      if !force && Usable(token, w.entered) then r == CallResult(Served(token.value.value), false, token)
      else if !force && Usable(w.tokenLocked, w.locked) then
        r == CallResult(Served(w.tokenLocked.value.value), false, w.tokenLocked)
      else
        r.acquired &&
        match w.reply
        case Rejected => r.outcome == AuthenticationError && r.token == w.tokenAfter
        case Issued(value, Malformed) => r.outcome == BadLifetime && r.token == w.tokenAfter
        case Issued(value, Default) => r.outcome == Served(value) && r.token == Some(AccessToken(value, w.locked + 3600.0))
        case Issued(value, Seconds(n)) =>
          r.outcome == Served(value)
          && r.token == Some(AccessToken(value, w.locked + (if n < 60 then 60 else n) as real))
  {
  }

  class D365TokenService {
    var token: Option<AccessToken>

    constructor ()
      ensures token == None
    {
      token := None;
    }

    /** `acquired` tells whether the identity provider was asked. */
    method GetAccessToken(force: bool, w: Waits) returns (r: Outcome, acquired: bool)
      modifies this
      ensures CallResult(r, acquired, token) == Call(force, old(token), w)
    {
      if !force && token.Some? && token.value.expiresAt - REFRESH_SKEW > w.entered {
        return Served(token.value.value), false;
      }
      // Waiting for the lock: other tasks may have replaced the token.
      token := w.tokenLocked;
      if !force && token.Some? && token.value.expiresAt - REFRESH_SKEW > w.locked {
        return Served(token.value.value), false;
      }
      // The acquisition runs in a thread, and other tasks may call Invalidate meanwhile.
      token := w.tokenAfter;
      if w.reply.Rejected? {
        return AuthenticationError, true;
      }
      if w.reply.lifetime.Malformed? {
        return BadLifetime, true;
      }
      var expiresIn := if w.reply.lifetime.Default? then DEFAULT_LIFETIME else w.reply.lifetime.n;
      if expiresIn < SHORTEST_LIFETIME {
        expiresIn := SHORTEST_LIFETIME;
      }
      token := Some(AccessToken(w.reply.token, w.locked + expiresIn as real));
      return Served(w.reply.token), true;
    }

    method Invalidate()
      modifies this
      ensures token == None
    {
      token := None;
    }
  }
}
