/**
 * handlers/tokens/tokens.go: the in-memory store of password-reset tokens. A token is 32 lower
 * case hex characters encoding 16 random bytes; it maps to a user id and an expiry fifteen
 * minutes after it was stored. Times are whole seconds; the random bytes are a parameter.
 */
module Tokens {
  import opened Wrappers
  import opened GoText

  /** resetTokenValidity: fifteen minutes, in seconds. */
  const ResetTokenValidity: int := 15 * 60

  datatype TokenInfo = TokenInfo(userId: int, expiry: int)

  /** The validity test: the token is stored and `now` is not after its expiry. */
  predicate Live(tokens: map<string, TokenInfo>, token: string, now: int)
  {
    token in tokens && !(now > tokens[token].expiry)
  }

  /**
   * GenerateResetToken: `random` is what rand.Read produced for the 16-byte buffer, or its
   * error. The token is the hex encoding, so it decodes back to exactly those bytes.
   */
  function GenerateResetToken(random: Result<seq<byte>>): (r: Result<string>)
    requires random.Ok? ==> |random.value| == 16
    ensures r.Err? <==> random.Err?
    ensures r.Err? ==> r.message == random.message
    ensures r.Ok? ==> |r.value| == 32 && forall i :: 0 <= i < |r.value| ==> IsLowerHex(r.value[i])
    ensures r.Ok? ==> HexDecode(r.value) == random.value
  {
    match random
    case Err(m) => Err(m)
    case Ok(bytes) =>
      HexRoundTrip(bytes);
      Ok(HexEncode(bytes))
  }

  /**
   * GenerateVerificationCode: three random bytes printed as six lower case hex digits (the
   * `%06x` padding and the `[:6]` cut do not change a 3-byte value's six digits).
   */
  function GenerateVerificationCode(random: seq<byte>): (code: string)
    requires |random| == 3
    ensures |code| == 6 && forall i :: 0 <= i < 6 ==> IsLowerHex(code[i])
    ensures HexDecode(code) == random
  {
    HexRoundTrip(random);
    HexEncode(random)
  }

  /**
   * The write-locked re-check of ValidateResetToken on the store `m` as found after taking the
   * lock, at time `now`: the token is deleted only if it is still there and still expired.
   */
  function Recheck(m: map<string, TokenInfo>, token: string, now: int): (r: map<string, TokenInfo>)
    ensures token in m && now > m[token].expiry ==> r.Keys == m.Keys - {token}
    ensures !(token in m && now > m[token].expiry) ==> r.Keys == m.Keys
    ensures forall k :: k in r ==> r[k] == m[k]
  {
    if token in m && now > m[token].expiry then m - {token} else m
  }

  class ResetTokenStore {
    var tokens: map<string, TokenInfo>

    constructor ()
      ensures tokens == map[]
    {
      tokens := map[];
    }

    /**
     * StoreResetToken: on a generator error nothing is stored; otherwise the new token maps
     * to the user and `now + 15 min`, and every other entry is kept.
     */
    method Store(userId: int, random: Result<seq<byte>>, now: int) returns (r: Result<string>)
      requires random.Ok? ==> |random.value| == 16
      modifies this
      ensures r.Err? <==> random.Err?
      ensures r.Err? ==> r.message == "failed to generate reset token: " + random.message && tokens == old(tokens)
      ensures r.Ok? ==> r == GenerateResetToken(random)
      ensures r.Ok? ==> tokens == old(tokens)[r.value := TokenInfo(userId, now + ResetTokenValidity)]
    {
      var generated := GenerateResetToken(random);
      if generated.Err? {
        return Err("failed to generate reset token: " + generated.message);
      }
      tokens := tokens[generated.value := TokenInfo(userId, now + ResetTokenValidity)];
      r := generated;
    }

    /**
     * ValidateResetToken. The read-locked lookup happens at `now`; `atRecheck` is the store as
     * found once the write lock is taken (other requests may have changed it in between) and
     * `recheckNow` the time then. The user id of a stored token is returned even when it is
     * expired, and 0 for an unknown token.
     */
    method Validate(token: string, now: int, atRecheck: map<string, TokenInfo>, recheckNow: int)
      returns (userId: int, ok: bool)
      modifies this
      ensures ok <==> Live(old(tokens), token, now)
      ensures userId == if token in old(tokens) then old(tokens)[token].userId else 0
      ensures token !in old(tokens) || ok ==> tokens == old(tokens)
      ensures token in old(tokens) && !ok ==> tokens == Recheck(atRecheck, token, recheckNow)
    {
      var found := token in tokens;
      var info := if found then tokens[token] else TokenInfo(0, 0);
      ok := found && !(now > info.expiry);
      if found && !ok {
        tokens := atRecheck;
        if token in tokens && !(recheckNow > tokens[token].expiry) {
          ok := false;
        } else if token in tokens {
          tokens := tokens - {token};
        }
      }
      userId := info.userId;
    }

    /** InvalidateResetToken: the token is gone, every other entry is kept. */
    method Invalidate(token: string)
      modifies this
      ensures tokens == old(tokens) - {token}
    {
      tokens := tokens - {token};
    }
  }

  /** A stored token is live exactly up to and including its expiry, fifteen minutes on. */
  lemma StoredTokenLiveUntilExpiry(tokens: map<string, TokenInfo>, token: string, userId: int, stored: int, now: int)
    ensures Live(tokens[token := TokenInfo(userId, stored + ResetTokenValidity)], token, now)
            <==> now <= stored + 15 * 60
  {
  }

  /** Storing or invalidating one token does not change whether another is live. */
  lemma OtherTokensUnaffected(tokens: map<string, TokenInfo>, token: string, other: string, info: TokenInfo, now: int)
    requires other != token
    ensures Live(tokens[token := info], other, now) <==> Live(tokens, other, now)
    ensures Live(tokens - {token}, other, now) <==> Live(tokens, other, now)
  {
  }

  /** Invalidation is idempotent, and an invalidated token is never live. */
  lemma InvalidateIdempotent(tokens: map<string, TokenInfo>, token: string, now: int)
    ensures (tokens - {token}) - {token} == tokens - {token}
    ensures !Live(tokens - {token}, token, now)
  {
  }

  /**
   * Without interference (the store unchanged and the clock not behind at the re-check),
   * validating an expired token deletes it and nothing else.
   */
  lemma UndisturbedRecheckDeletes(tokens: map<string, TokenInfo>, token: string, now: int, recheckNow: int)
    requires token in tokens && !Live(tokens, token, now) && recheckNow >= now
    ensures Recheck(tokens, token, recheckNow) == tokens - {token}
  {
  }

  /** A token refreshed by another request before the re-check survives it. */
  lemma RefreshedTokenSurvivesRecheck(atRecheck: map<string, TokenInfo>, token: string, recheckNow: int)
    requires Live(atRecheck, token, recheckNow)
    ensures Recheck(atRecheck, token, recheckNow) == atRecheck
  {
  }
}
