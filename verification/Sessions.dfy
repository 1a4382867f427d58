/**
 What a parked sign-in and a session hold (session/session.go), and how tokens enter and leave a session
 (routes/session.go).
 */
module Sessions {
  import opened Common

  datatype Seal = Seal(id: string, displayLabel: string, certificate: string)

  datatype Capabilities = Capabilities(
    signIdentityID: string, signingCertificate: string, authCertificate: string, seals: seq<Seal>, sealsKnown: bool)

  datatype Flow = Flow(key: string, verifier: string, nonce: string, acrValues: string, started: int)

  datatype Session = Session(
    key: string, accessToken: string, accessExpiry: int, refreshToken: string, subject: string, csrf: string,
    capabilities: Option<Capabilities>)

  /** A token response of the Auth Service; `expiresIn` is in seconds. */
  datatype Tokens = Tokens(
    accessToken: string, refreshToken: string, expiresIn: int, capabilities: Option<Capabilities>)

  // Instants and durations are in nanoseconds.

  const SECOND := 1_000_000_000

  const REFRESH_LEEWAY := 30 * SECOND

  /** Unix seconds, rounded down. */
  function Unix(t: int): int {
    t / SECOND
  }

  /** Two's-complement wrap-around of 64 bits. */
  function Int64(n: int): int {
    var r := n % 0x1_0000_0000_0000_0000;
    if r < 0x8000_0000_0000_0000 then r else r - 0x1_0000_0000_0000_0000
  }

  /** A token's lifetime in nanoseconds: a 64-bit product. */
  function Lifetime(expiresIn: int): int {
    Int64(expiresIn * SECOND)
  }

  /** The expiry recorded for a token applied at `now`. */
  function Expiry(now: int, expiresIn: int): int {
    Unix(now + Lifetime(expiresIn))
  }

  function ApplyTokens(s: Session, tokens: Tokens, now: int): Session {
    s.(accessToken := tokens.accessToken,
       accessExpiry := Expiry(now, tokens.expiresIn),
       refreshToken := if tokens.refreshToken != "" then tokens.refreshToken else s.refreshToken)
  }

  /** Whether the access token is handed out as it is. */
  predicate Reusable(s: Session, now: int) {
    s.accessToken != "" && Unix(now + REFRESH_LEEWAY) < s.accessExpiry
  }

  /** The part of a session that no token response may change. */
  datatype Identity = Identity(key: string, subject: string, csrf: string, capabilities: Option<Capabilities>)

  function IdentityOf(s: Session): Identity {
    Identity(s.key, s.subject, s.csrf, s.capabilities)
  }

  /** Reuse at `t` of a token applied at `t0` comes before `expiresIn` seconds less the leeway are over. */
  predicate WithinLeeway(t0: int, t: int, expiresIn: int) {
    t - t0 < (expiresIn - 30) * SECOND
  }

  /**
   Both instants are rounded down to whole seconds, and the bound still holds to the nanosecond, for every lifetime.
   */
  lemma ReuseIsEarly(s: Session, t0: int, t: int, expiresIn: int)
    requires s.accessExpiry == Expiry(t0, expiresIn) && Reusable(s, t)
    ensures t - t0 < Lifetime(expiresIn) - REFRESH_LEEWAY
  {
    var end := t0 + Lifetime(expiresIn);
    assert Unix(t + REFRESH_LEEWAY) + 1 <= Unix(end);
    assert Unix(end) * SECOND <= end && t + REFRESH_LEEWAY < (Unix(t + REFRESH_LEEWAY) + 1) * SECOND;
  }

  /**
   A token is reused until its lifetime less the leeway is over, but for the second rounding may cost; an empty one
   never is.
   */
  lemma ReuseIsNotLate(s: Session, t0: int, t: int, expiresIn: int)
    requires s.accessExpiry == Expiry(t0, expiresIn)
    ensures s.accessToken != "" && t - t0 <= Lifetime(expiresIn) - REFRESH_LEEWAY - SECOND ==> Reusable(s, t)
    ensures s.accessToken == "" ==> !Reusable(s, t)
  {
    var end := t0 + Lifetime(expiresIn);
    assert Unix(end) * SECOND <= end < (Unix(end) + 1) * SECOND;
    assert Unix(t + REFRESH_LEEWAY) * SECOND <= t + REFRESH_LEEWAY;
  }

  /** Within the range of the 64-bit product the lifetime is the seconds named. */
  lemma LifetimeExactly(expiresIn: int)
    ensures -9223372036 <= expiresIn <= 9223372036 <==> Lifetime(expiresIn) == expiresIn * SECOND
  {
    WrapDirection(expiresIn);
    var n, m := expiresIn * SECOND, 0x1_0000_0000_0000_0000;
    if 0 <= expiresIn <= 9223372036 {
      assert n % m == n;
    } else if -9223372036 <= expiresIn < 0 {
      assert n % m == n + m;
    } else if expiresIn > 9223372036 {
      assert Lifetime(expiresIn) < 0x8000_0000_0000_0000 <= n;
    }
  }

  /** A token once too old to hand out stays so. */
  lemma ReuseStaysOver(s: Session, now: int, later: int)
    requires !Reusable(s, now) && now <= later
    ensures !Reusable(s, later)
  {
    assert Unix(now + REFRESH_LEEWAY) <= Unix(later + REFRESH_LEEWAY);
  }

  /** However long a token lives, it is not handed out for ever. */
  lemma ReuseEnds(s: Session, now: int) returns (wait: nat)
    ensures !Reusable(s, now + wait)
  {
    if Reusable(s, now) {
      assert Unix(now + REFRESH_LEEWAY) * SECOND <= now + REFRESH_LEEWAY < (Unix(now + REFRESH_LEEWAY) + 1) * SECOND;
      wait := s.accessExpiry * SECOND - now;
      assert Unix(now + wait + REFRESH_LEEWAY) == s.accessExpiry + 30;
    } else {
      wait := 0;
    }
  }

  lemma WrapDirection(expiresIn: int)
    ensures Lifetime(expiresIn) <= expiresIn * SECOND <==> expiresIn >= -9223372036
    ensures expiresIn < -9223372036 ==> Lifetime(expiresIn) >= expiresIn * SECOND + 0x1_0000_0000_0000_0000
  {
    var n := expiresIn * SECOND;
    var m := 0x1_0000_0000_0000_0000;
    assert n == n / m * m + n % m;
    if n < -0x8000_0000_0000_0000 {
      assert n / m <= -1;
      if n / m == -1 {
        assert n % m < 0x8000_0000_0000_0000;
      } else {
        assert n / m * m <= -2 * m;
      }
    } else if n < 0x8000_0000_0000_0000 {
      assert n / m == if n < 0 then -1 else 0;
    } else {
      assert n / m >= 0;
    }
  }

  /**
   A token just reused: applied at the last nanosecond of a second, it is handed out at once if its lifetime is
   longer than the leeway.
   */
  lemma LongerTokenIsReused(expiresIn: int) returns (s: Session, t: int)
    requires Lifetime(expiresIn) > REFRESH_LEEWAY
    ensures s.accessExpiry == Expiry(SECOND - 1, expiresIn) && Reusable(s, t) && t >= SECOND - 1
    ensures t + REFRESH_LEEWAY + 2 * SECOND > SECOND - 1 + Lifetime(expiresIn)
  {
    s := Session("", "token", Expiry(SECOND - 1, expiresIn), "", "", "", None);
    var last := Unix(SECOND - 1 + Lifetime(expiresIn));
    t := last * SECOND - 1 - REFRESH_LEEWAY;
    assert Unix(t + REFRESH_LEEWAY) == last - 1;
  }

  /**
   The exact lifetimes for which a token is only ever reused in time. Below the limit the 64-bit product wraps
   round, and a token that was never valid can be reused.
   */
  lemma ReuseIsEarlyExactly(expiresIn: int)
    ensures expiresIn >= -9223372036 <==>
            forall s: Session, t0: int, t: int | s.accessExpiry == Expiry(t0, expiresIn) && Reusable(s, t) ::
              WithinLeeway(t0, t, expiresIn)
  {
    WrapDirection(expiresIn);
    if expiresIn >= -9223372036 {
      forall s: Session, t0: int, t: int | s.accessExpiry == Expiry(t0, expiresIn) && Reusable(s, t)
        ensures WithinLeeway(t0, t, expiresIn)
      {
        ReuseIsEarly(s, t0, t, expiresIn);
      }
    } else {
      var last := Unix(Lifetime(expiresIn));
      var t := last * SECOND - 1 - REFRESH_LEEWAY;
      var s := Session("", "token", Expiry(0, expiresIn), "", "", "", None);
      assert Unix(t + REFRESH_LEEWAY) == last - 1;
      assert s.accessExpiry == Expiry(0, expiresIn) && Reusable(s, t) && !WithinLeeway(0, t, expiresIn);
    }
  }

  /**
   Exactly which tokens are never handed out again once applied: those whose lifetime, as computed, is no more than
   the leeway, which short ones are down to the limit.
   */
  lemma ShortTokensAreNotReused(expiresIn: int)
    ensures Lifetime(expiresIn) <= REFRESH_LEEWAY <==>
            forall s: Session, t0: int, t: int | s.accessExpiry == Expiry(t0, expiresIn) && t0 <= t :: !Reusable(s, t)
    ensures -9223372036 <= expiresIn <= 30 ==> Lifetime(expiresIn) <= REFRESH_LEEWAY
  {
    WrapDirection(expiresIn);
    if Lifetime(expiresIn) <= REFRESH_LEEWAY {
      forall s: Session, t0: int, t: int | s.accessExpiry == Expiry(t0, expiresIn) && t0 <= t
        ensures !Reusable(s, t)
      {
        if Reusable(s, t) { ReuseIsEarly(s, t0, t, expiresIn); }
      }
    } else {
      var s, t := LongerTokenIsReused(expiresIn);
      assert s.accessExpiry == Expiry(SECOND - 1, expiresIn) && SECOND - 1 <= t && Reusable(s, t);
    }
  }
}
