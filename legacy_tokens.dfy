/**
 * The older reset-token store of handlers.go (package main). It stores tokens exactly as
 * Tokens.ResetTokenStore does, but deletes an expired token on validation with no re-check.
 */
module LegacyTokens {
  import opened Wrappers
  import opened GoText
  import opened Tokens

  class LegacyTokenStore {
    var tokens: map<string, TokenInfo>

    constructor ()
      ensures tokens == map[]
    {
      tokens := map[];
    }

    /** storeResetToken: the new token maps to the user and `now + 15 min`; the rest is kept. */
    method Store(userId: int, random: Result<seq<byte>>, now: int) returns (r: Result<string>)
      requires random.Ok? ==> |random.value| == 16
      modifies this
      ensures r.Err? <==> random.Err?
      ensures r.Err? ==> r.message == "failed to generate reset token: " + random.message && tokens == old(tokens)
      ensures r.Ok? ==> r == GenerateResetToken(random)
      ensures r.Ok? ==> tokens == old(tokens)[r.value := TokenInfo(userId, now + ResetTokenValidity)]
    {
      var generated := GenerateResetToken(random);
      if generated.Err? {
        return Err("failed to generate reset token: " + generated.message);
      }
      tokens := tokens[generated.value := TokenInfo(userId, now + ResetTokenValidity)];
      r := generated;
    }

    /**
     * validateResetToken: ok iff the token is stored and `now` is not after its expiry; a
     * stored token that is not live is deleted on the spot.
     */
    method Validate(token: string, now: int) returns (userId: int, ok: bool)
      modifies this
      ensures ok <==> Live(old(tokens), token, now)
      ensures userId == if token in old(tokens) then old(tokens)[token].userId else 0
      ensures ok || token !in old(tokens) ==> tokens == old(tokens)
      ensures token in old(tokens) && !ok ==> tokens == old(tokens) - {token}
    {
      var found := token in tokens;
      var info := if found then tokens[token] else TokenInfo(0, 0);
      ok := found && !(now > info.expiry);
      if found && !ok {
        tokens := tokens - {token};
      }
      userId := info.userId;
    }

    /** invalidateResetToken: the key is deleted whether or not it was stored. */
    method Invalidate(token: string)
      modifies this
      ensures tokens == old(tokens) - {token}
    {
      tokens := tokens - {token};
    }
  }

  /**
   * The deletion of validateResetToken is what the re-check of ValidateResetToken does when
   * no other request has touched the store and the clock has not gone back.
   */
  lemma LegacyDeletionIsUndisturbedRecheck(tokens: map<string, TokenInfo>, token: string, now: int)
    requires token in tokens && !Live(tokens, token, now)
    ensures Recheck(tokens, token, now) == tokens - {token}
  {
    UndisturbedRecheckDeletes(tokens, token, now, now);
  }

  /** After validation reports a token as not live, it is never live again at a later time. */
  lemma ExpiredStaysExpired(tokens: map<string, TokenInfo>, token: string, now: int, later: int)
    requires !Live(tokens, token, now) && later >= now
    ensures !Live(tokens - {token}, token, later)
    ensures token in tokens ==> !Live(tokens, token, later)
  {
  }
}
