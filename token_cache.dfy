/** The process-wide access-token cache in front of the OAuth 2.0 client-credentials grant
    (section 4.4 of RFC 6749). The cache is two variables, the token and its expiry instant in
    milliseconds. A token is reused while it is truthy and the clock is still before its
    expiry. Otherwise the exchange is attempted. On success the token is stored with an expiry
    ten seconds short of the lifetime the identity endpoint declared. On failure nothing is
    stored and one generic error is thrown.

    The clock reading and the outcome of the exchange are inputs. `exchange` stands for what
    the exchange would settle to if it were performed; a cache hit never performs it. */
module TokenCache {
  import opened JsValues

  /** Subtracted from the declared lifetime so that a token is never used right up to the
      instant the upstream may consider it expired. */
  const SafetyMarginMs: int := 10000

  /** The only error callers ever see from a failed exchange; the upstream reason is logged. */
  const TokenErrorMessage: string := "Failed to generate Reddit access token"

  const TokenError: JsError := JsError(TokenErrorMessage, None, None)

  /** The settled client-credentials exchange: the `access_token` and `expires_in` (seconds)
      of a successful response, or the error the request was rejected with. */
  datatype Exchange = Granted(accessToken: string, expiresInSeconds: int) | Rejected(error: JsError)

  /** The two cache variables: `cachedToken` (`null` at start-up) and `tokenExpiry` (ms). */
  datatype CacheState = CacheState(token: Option<string>, expiryMs: int)

  /** The state at process start: `cachedToken = null`, `tokenExpiry = 0`. */
  const Initial: CacheState := CacheState(None, 0)

  /** One call: the new cache, what the call settled to, and whether it sent an exchange. */
  datatype Step = Step(state: CacheState, result: Result<string>, exchanged: bool)

  /** The cached token may be handed out at `nowMs`. */
  predicate Usable(s: CacheState, nowMs: int) {
    StringTruthy(s.token) && nowMs < s.expiryMs
  }

  /** The expiry stored for a token issued at `nowMs` with the declared lifetime. */
  function ExpiryFor(nowMs: int, expiresInSeconds: int): int
  {
    nowMs + expiresInSeconds * MsPerSecond - SafetyMarginMs
  }

  /** One call of `getRedditAccessToken` at clock reading `nowMs`. */
  function Fetch(s: CacheState, nowMs: int, exchange: Exchange): (step: Step)
    ensures Usable(s, nowMs) ==> step == Step(s, Ok(s.token.value), false)
    ensures !Usable(s, nowMs) ==> step.exchanged
    ensures !Usable(s, nowMs) && exchange.Granted? ==>
      step.state == CacheState(Some(exchange.accessToken), ExpiryFor(nowMs, exchange.expiresInSeconds)) &&
      step.result == Ok(exchange.accessToken)
    ensures exchange.Rejected? ==> step.state == s
    ensures step.result.Thrown? <==> !Usable(s, nowMs) && exchange.Rejected?
    ensures step.result.Thrown? ==> step.result.error == TokenError
  {
    if Usable(s, nowMs) then
      Step(s, Ok(s.token.value), false)
    else
      match exchange
      case Granted(token, lifetime) =>
        Step(CacheState(Some(token), ExpiryFor(nowMs, lifetime)), Ok(token), true)
      case Rejected(_) =>
        Step(s, Thrown(TokenError), true)
  }

  /** Whatever a call returns is the token then held in the cache. */
  lemma ReturnedTokenIsCached(s: CacheState, nowMs: int, exchange: Exchange)
    ensures var step := Fetch(s, nowMs, exchange);
      step.result.Ok? ==> step.state.token == Some(step.result.value)
  {
  }

  /** A fresh token is never handed out at or past the lifetime the endpoint declared: every
      instant at which it is usable lies before the issue instant plus that lifetime, and at
      least ten seconds before it. */
  lemma {:induction false} NeverUsedPastLifetime(s: CacheState, nowMs: int, token: string, lifetime: int, laterMs: int)
    requires !Usable(s, nowMs)
    requires Usable(Fetch(s, nowMs, Granted(token, lifetime)).state, laterMs)
    ensures laterMs + SafetyMarginMs < nowMs + lifetime * MsPerSecond
    ensures token != ""
  {
  }

  /** Token reuse: after a refresh at `t0` that granted a non-empty token, a second call at any
      `t1` in `[t0, expiry)` sends no exchange and returns the same token, whatever the
      exchange would have answered. Over both calls exactly one exchange is sent. */
  lemma {:induction false} ReuseWithinWindow(s: CacheState, t0: int, token: string, lifetime: int, t1: int, second: Exchange)
    requires !Usable(s, t0)
    requires token != ""
    requires t0 <= t1 < ExpiryFor(t0, lifetime)
    ensures var first := Fetch(s, t0, Granted(token, lifetime));
      var next := Fetch(first.state, t1, second);
      first.exchanged && !next.exchanged &&
      next.result == Ok(token) && next.state == first.state
  {
  }

  /** Refresh: once the clock reaches the stored expiry, the next call sends exactly one
      exchange, and its outcome alone decides the result. */
  lemma {:induction false} RefreshAtExpiry(s: CacheState, nowMs: int, exchange: Exchange)
    requires nowMs >= s.expiryMs
    ensures Fetch(s, nowMs, exchange).exchanged
    ensures exchange.Granted? ==> Fetch(s, nowMs, exchange).result == Ok(exchange.accessToken)
    ensures exchange.Rejected? ==> Fetch(s, nowMs, exchange) == Step(s, Thrown(TokenError), true)
  {
  }

  /** A failed refresh changes nothing and reports the same generic error whatever the
      upstream reason was. */
  lemma {:induction false} FailureIsGeneric(s: CacheState, nowMs: int, e1: JsError, e2: JsError)
    requires !Usable(s, nowMs)
    ensures Fetch(s, nowMs, Rejected(e1)) == Fetch(s, nowMs, Rejected(e2))
    ensures Fetch(s, nowMs, Rejected(e1)).state == s
  {
  }

  // Runs of several calls

  /** One call of `getRedditAccessToken`: its clock reading and how the exchange would settle. */
  datatype Call = Call(nowMs: int, exchange: Exchange)

  /** The cache after the calls, made one after the other from `s0`. */
  function StateAfter(s0: CacheState, calls: seq<Call>): CacheState
    decreases |calls|
  {
    if calls == [] then s0
    else
      var last := calls[|calls| - 1];
      Fetch(StateAfter(s0, calls[..|calls| - 1]), last.nowMs, last.exchange).state
  }

  /** Call `j` of a run from `s0`. */
  function StepAt(s0: CacheState, calls: seq<Call>, j: nat): Step
    requires j < |calls|
  {
    Fetch(StateAfter(s0, calls[..j]), calls[j].nowMs, calls[j].exchange)
  }

  /** Call `j` sent an exchange that granted the token and expiry held in `s`. */
  predicate IsGrantFor(s: CacheState, s0: CacheState, calls: seq<Call>, j: nat)
    requires j < |calls|
  {
    StepAt(s0, calls, j).exchanged && calls[j].exchange.Granted? &&
    s.token == Some(calls[j].exchange.accessToken) &&
    s.expiryMs == ExpiryFor(calls[j].nowMs, calls[j].exchange.expiresInSeconds)
  }

  /** Starting without a token, the cache after the first `n` calls holds no token, or holds
      exactly what an exchange sent by one of those calls granted. */
  lemma {:induction false} CacheHoldsAGrant(s0: CacheState, calls: seq<Call>, n: nat)
    requires !StringTruthy(s0.token)
    requires n <= |calls|
    ensures var s := StateAfter(s0, calls[..n]);
      !StringTruthy(s.token) || exists j: nat :: j < n && IsGrantFor(s, s0, calls, j)
    decreases n
  {
    if n > 0 {
      CacheHoldsAGrant(s0, calls, n - 1);
      assert calls[..n][..n - 1] == calls[..n - 1];
      var prev := StateAfter(s0, calls[..n - 1]);
      var step := StepAt(s0, calls, n - 1);
      assert StateAfter(s0, calls[..n]) == step.state;
      if step.state != prev {
        assert IsGrantFor(step.state, s0, calls, n - 1);
      }
    } else {
      assert calls[..0] == [];
    }
  }

  /** Every token handed out, over any run from a cache without a token, was granted by an
      exchange sent at or before that call. Unless that call is the one that obtained it, it is
      handed out strictly before the stored expiry, so at least ten seconds before the lifetime
      the endpoint declared runs out. */
  lemma {:induction false} HandedOutTokensAreGranted(s0: CacheState, calls: seq<Call>, k: nat)
    requires !StringTruthy(s0.token)
    requires k < |calls|
    ensures var step := StepAt(s0, calls, k);
      step.result.Ok? ==>
        exists j: nat :: j <= k && IsGrantFor(step.state, s0, calls, j) &&
          step.result.value == calls[j].exchange.accessToken &&
          (j == k || calls[k].nowMs + SafetyMarginMs < calls[j].nowMs + calls[j].exchange.expiresInSeconds * MsPerSecond)
  {
    var prev := StateAfter(s0, calls[..k]);
    var step := StepAt(s0, calls, k);
    if Usable(prev, calls[k].nowMs) {
      CacheHoldsAGrant(s0, calls, k);
      var j: nat :| j < k && IsGrantFor(prev, s0, calls, j);
      assert IsGrantFor(step.state, s0, calls, j);
    } else if step.result.Ok? {
      assert IsGrantFor(step.state, s0, calls, k);
    }
  }

  /** The module-level `cachedToken` / `tokenExpiry` pair and `getRedditAccessToken`. */
  class TokenProvider {
    var cachedToken: Option<string>
    var tokenExpiry: int
    /** How many exchanges have been sent so far (not in the program; kept for proofs). */
    ghost var exchanges: nat

    function State(): CacheState
      reads this
    {
      CacheState(cachedToken, tokenExpiry)
    }

    constructor ()
      ensures State() == Initial && exchanges == 0
    {
      cachedToken := None;
      tokenExpiry := 0;
      exchanges := 0;
    }

    method GetAccessToken(nowMs: int, exchange: Exchange) returns (r: Result<string>)
      modifies this
      ensures var step := Fetch(old(State()), nowMs, exchange);
        State() == step.state && r == step.result &&
        exchanges == old(exchanges) + (if step.exchanged then 1 else 0)
      ensures old(Usable(State(), nowMs)) ==> unchanged(this) && r == Ok(old(cachedToken).value)
      ensures r.Thrown? ==> unchanged(this`cachedToken, this`tokenExpiry) && r.error == TokenError
    {
      if cachedToken.Some? && cachedToken.value != "" && nowMs < tokenExpiry {
        return Ok(cachedToken.value);
      }
      exchanges := exchanges + 1;
      match exchange {
        case Granted(token, lifetime) =>
          cachedToken := Some(token);
          tokenExpiry := nowMs + lifetime * MsPerSecond - SafetyMarginMs;
          r := Ok(cachedToken.value);
        case Rejected(_) =>
          r := Thrown(TokenError);
      }
    }
  }
}
