/**
 * handlers/auth/password_reset.go: the three ways to reset a password (a link token, an
 * emailed code, a security question) as sequences of checks against the token store and the
 * database. The order is what matters: nothing is written until every check has passed, and
 * the token or code is spent only after the new password is stored.
 */
module PasswordReset {
  import opened Wrappers
  import opened GoText
  import opened Db
  import opened Tokens

  /** What a handler answers: a redirect, a page with an error or success text, or an HTTP error. */
  datatype Response =
    | Redirect(location: string)
    | Page(template: string, error: string, success: string)
    | HttpError(status: int, message: string)

  const InvalidLink: string := "/forgot?error=Invalid or expired reset link."
  const ResetPage: string := "reset_password.html"
  const ForgotPage: string := "forgot.html"
  const SecurityPage: string := "security_reset.html"
  const LinkResetDone: string := "/login?success=Password successfully reset. Please log in."
  const ResetDone: string := "/login?success=Password reset successful. Please log in with your new password."
  const TryAgain: string := "An error occurred. Please try again."
  const CodeNotStored: string := "An error occurred generating reset code. Please try again."
  const InvalidRequest: string := "Invalid request. Please try again."
  const Mismatch: string := "Passwords do not match"
  const TooShort: string := "Password must be at least 8 characters long"
  const WrongAnswer: string := "Incorrect answer to security question"
  const UpdateFailed: string := "An error occurred updating password. Please try again."

  /** The password rule shared by the three flows: present, confirmed, at least 8 bytes. */
  predicate PasswordAcceptable(password: string, confirm: string)
  {
    password != "" && password == confirm && Utf8Len(password) >= 8
  }

  // ===========================================================================
  // Reset by link token
  // ===========================================================================

  /**
   * ShowResetFormHandler: an invalid token sends the browser back to /forgot; a live token
   * shows the form and stays stored.
   */
  method ShowResetForm(store: ResetTokenStore, token: string, now: int,
                       atRecheck: map<string, TokenInfo>, recheckNow: int) returns (resp: Response)
    modifies store
    ensures !Live(old(store.tokens), token, now) ==> resp == Redirect(InvalidLink)
    ensures !Live(old(store.tokens), token, now) ==>
              store.tokens == if token in old(store.tokens) then Recheck(atRecheck, token, recheckNow) else old(store.tokens)
    ensures Live(old(store.tokens), token, now) ==> resp == Page(ResetPage, "", "") && store.tokens == old(store.tokens)
  {
    var userId, valid := store.Validate(token, now, atRecheck, recheckNow);
    if !valid {
      return Redirect(InvalidLink);
    }
    resp := Page(ResetPage, "", "");
  }

  /**
   * HandleResetPasswordHandler: validate the token, check the passwords, store the hash for
   * the token's user, and only then invalidate the token. `fault` stands for a failing
   * UPDATE; `hash` for bcrypt.
   */
  method HandleResetPassword(db: Database, store: ResetTokenStore, token: string, password: string, confirm: string,
                             now: int, atRecheck: map<string, TokenInfo>, recheckNow: int,
                             hash: string -> string, fault: bool) returns (resp: Response)
    requires db.Valid()
    modifies db, store
    ensures db.Valid()
    ensures !Live(old(store.tokens), token, now) ==> resp == Redirect(InvalidLink)
    ensures !Live(old(store.tokens), token, now) ==>
              store.tokens == if token in old(store.tokens) then Recheck(atRecheck, token, recheckNow) else old(store.tokens)
    ensures Live(old(store.tokens), token, now) && (password == "" || password != confirm) ==>
              resp == Page(ResetPage, "Passwords do not match or are empty.", "")
    ensures Live(old(store.tokens), token, now) && password != "" && password == confirm && Utf8Len(password) < 8 ==>
              resp == Page(ResetPage, "Password must be at least 8 characters long.", "")
    ensures Live(old(store.tokens), token, now) && PasswordAcceptable(password, confirm) && fault ==>
              resp == HttpError(500, "Failed to update password.")
    ensures resp == Redirect(LinkResetDone) <==> Live(old(store.tokens), token, now) && PasswordAcceptable(password, confirm) && !fault
    ensures resp != Redirect(LinkResetDone) ==> db.State() == old(db.State())
    ensures resp != Redirect(LinkResetDone) && Live(old(store.tokens), token, now) ==> store.tokens == old(store.tokens)
    ensures resp == Redirect(LinkResetDone) ==>
              && db.State() == old(db.State()).(users := SetUserRows(old(db.users), old(store.tokens)[token].userId, None, Some(hash(password))))
              && store.tokens == old(store.tokens) - {token}
  {
    var userId, valid := store.Validate(token, now, atRecheck, recheckNow);
    if !valid {
      return Redirect(InvalidLink);
    }
    if password == "" || password != confirm {
      return Page(ResetPage, "Passwords do not match or are empty.", "");
    }
    if Utf8Len(password) < 8 {
      return Page(ResetPage, "Password must be at least 8 characters long.", "");
    }
    var o := db.UpdateUserPassword(userId, hash(password), fault);
    if o.Fail? {
      return HttpError(500, "Failed to update password.");
    }
    store.Invalidate(token);
    resp := Redirect(LinkResetDone);
  }

  // ===========================================================================
  // Reset by emailed code
  // ===========================================================================

  /**
   * ForgotHandler, POST. `email` is the trimmed form value; `random` the three bytes of the
   * new code; `storeFault` stands for a failing INSERT of the code, `updateFault` and
   * `markFault` for failing UPDATEs. Without a code, a new
   * one is stored for the user found by email. With a code, the code's owner gets the new
   * password, and the code is marked used afterwards; a failure to mark it is ignored.
   */
  method Forgot(db: Database, email: string, resetCode: string, newPassword: string, confirm: string, now: int,
                random: seq<byte>, hash: string -> string, storeFault: bool, updateFault: bool, markFault: bool)
    returns (resp: Response)
    requires db.Valid() && |random| == 3
    modifies db
    ensures db.Valid()
    ensures email == "" ==> resp == Page(ForgotPage, "Email is required", "") && db.State() == old(db.State())
    ensures email != "" && !EmailExists(old(db.users), email) ==>
              resp == Page(ForgotPage, "No account found with this email address", "") && db.State() == old(db.State())
    // requesting a code
    ensures email != "" && EmailExists(old(db.users), email) && resetCode == "" && storeFault ==>
              resp == Page(ForgotPage, CodeNotStored, "") && db.State() == old(db.State())
    ensures email != "" && EmailExists(old(db.users), email) && resetCode == "" && !storeFault ==>
              var code := GenerateVerificationCode(random);
              && resp == Page(ForgotPage, "", "Reset code sent to your email: " + email + " (Code: " + code + ")")
              && db.State() == old(db.State()).(resetCodes := old(db.resetCodes) +
                   [ResetCode(FindUserByEmail(old(db.users), email).value.id, code, now + 15 * 60, false)])
    // redeeming a code
    ensures email != "" && EmailExists(old(db.users), email) && resetCode != ""
            && ValidateResetCode(old(db.resetCodes), resetCode, now).Err? ==>
              resp == Page(ForgotPage, "Invalid or expired reset code", "true") && db.State() == old(db.State())
    ensures email != "" && EmailExists(old(db.users), email) && resetCode != ""
            && ValidateResetCode(old(db.resetCodes), resetCode, now).Ok? && !PasswordAcceptable(newPassword, confirm) ==>
              db.State() == old(db.State())
              && resp == Page(ForgotPage, if newPassword == "" || newPassword != confirm then Mismatch else TooShort, "true")
    ensures resp == Redirect(ResetDone) <==>
              email != "" && EmailExists(old(db.users), email) && resetCode != ""
              && ValidateResetCode(old(db.resetCodes), resetCode, now).Ok? && PasswordAcceptable(newPassword, confirm) && !updateFault
    ensures resp == Redirect(ResetDone) ==>
              var owner := ValidateResetCode(old(db.resetCodes), resetCode, now).value;
              && db.users == SetUserRows(old(db.users), owner, None, Some(hash(newPassword)))
              && db.resetCodes == (if markFault then old(db.resetCodes) else MarkCodeUsed(old(db.resetCodes), resetCode))
              && db.State() == old(db.State()).(users := db.users, resetCodes := db.resetCodes)
    ensures resetCode != "" && resp != Redirect(ResetDone) ==> db.State() == old(db.State())
  {
    if email == "" {
      return Page(ForgotPage, "Email is required", "");
    }
    var user := FindUserByEmail(db.users, email);
    if user.None? {
      return Page(ForgotPage, "No account found with this email address", "");
    }
    if resetCode == "" {
      resp := RequestCode(db, user.value, email, now, random, storeFault);
      return;
    }
    resp := RedeemCode(db, resetCode, newPassword, confirm, now, hash, updateFault, markFault);
  }

  /**
   * The request half of ForgotHandler: a new code for the user found by email; when storing
   * it fails, an error page and nothing stored.
   */
  method RequestCode(db: Database, user: User, email: string, now: int, random: seq<byte>, storeFault: bool)
    returns (resp: Response)
    requires db.Valid() && user in db.users && |random| == 3
    modifies db
    ensures db.Valid()
    ensures storeFault ==> resp == Page(ForgotPage, CodeNotStored, "") && db.State() == old(db.State())
    ensures !storeFault ==>
            var code := GenerateVerificationCode(random);
            && resp == Page(ForgotPage, "", "Reset code sent to your email: " + email + " (Code: " + code + ")")
            && db.State() == old(db.State()).(resetCodes := old(db.resetCodes) + [ResetCode(user.id, code, now + 15 * 60, false)])
  {
    var code := GenerateVerificationCode(random);
    var expiresAt := now + 15 * 60;
    FoundUserExists(db.users, user);
    var stored := db.StoreResetCode(user.id, code, expiresAt, storeFault);
    if stored.Fail? {
      return Page(ForgotPage, CodeNotStored, "");
    }
    resp := Page(ForgotPage, "", "Reset code sent to your email: " + email + " (Code: " + code + ")");
  }

  /**
   * The redeem half of ForgotHandler: the code is validated before the passwords are looked
   * at; its owner's password is updated, and only then is the code marked used.
   */
  method RedeemCode(db: Database, resetCode: string, newPassword: string, confirm: string, now: int,
                    hash: string -> string, updateFault: bool, markFault: bool) returns (resp: Response)
    requires db.Valid()
    modifies db
    ensures db.Valid()
    ensures ValidateResetCode(old(db.resetCodes), resetCode, now).Err? ==>
              resp == Page(ForgotPage, "Invalid or expired reset code", "true") && db.State() == old(db.State())
    ensures ValidateResetCode(old(db.resetCodes), resetCode, now).Ok? && !PasswordAcceptable(newPassword, confirm) ==>
              resp == Page(ForgotPage, if newPassword == "" || newPassword != confirm then Mismatch else TooShort, "true")
    ensures ValidateResetCode(old(db.resetCodes), resetCode, now).Ok? && PasswordAcceptable(newPassword, confirm) && updateFault ==>
              resp == Page(ForgotPage, UpdateFailed, "true")
    ensures resp == Redirect(ResetDone) <==>
              ValidateResetCode(old(db.resetCodes), resetCode, now).Ok? && PasswordAcceptable(newPassword, confirm) && !updateFault
    ensures resp == Redirect(ResetDone) ==>
              var owner := ValidateResetCode(old(db.resetCodes), resetCode, now).value;
              && db.users == SetUserRows(old(db.users), owner, None, Some(hash(newPassword)))
              && db.resetCodes == (if markFault then old(db.resetCodes) else MarkCodeUsed(old(db.resetCodes), resetCode))
              && db.State() == old(db.State()).(users := db.users, resetCodes := db.resetCodes)
    ensures resp != Redirect(ResetDone) ==> db.State() == old(db.State())
  {
    var owner := ValidateResetCode(db.resetCodes, resetCode, now);
    if owner.Err? {
      return Page(ForgotPage, "Invalid or expired reset code", "true");
    }
    if newPassword == "" || newPassword != confirm {
      return Page(ForgotPage, Mismatch, "true");
    }
    if Utf8Len(newPassword) < 8 {
      return Page(ForgotPage, TooShort, "true");
    }
    var updated := db.UpdateUserPassword(owner.value, hash(newPassword), updateFault);
    if updated.Fail? {
      return Page(ForgotPage, UpdateFailed, "true");
    }
    var marked := db.MarkResetCodeUsed(resetCode, markFault);
    resp := Redirect(ResetDone);
  }

  /** A row returned by a lookup names an existing user. */
  lemma FoundUserExists(users: seq<User>, u: User)
    requires u in users
    ensures HasUser(users, u.id)
  {
    var j :| 0 <= j < |users| && users[j] == u;
  }

  /**
   * The code flow spends a code at most once: after a successful reset whose marking did not
   * fail, the same code is refused at any later time.
   */
  lemma SpentCodeIsRefused(codes: seq<ResetCode>, code: string, later: int)
    ensures ValidateResetCode(MarkCodeUsed(codes, code), code, later).Err?
  {
    MarkedCodeIsRejected(codes, code, later);
  }

  /** A code requested through the flow is accepted for the user who asked for it until it expires. */
  lemma RequestedCodeRedeemable(codes: seq<ResetCode>, userId: int, random: seq<byte>, requested: int, now: int)
    requires |random| == 3
    requires forall i :: 0 <= i < |codes| ==> !CodeLive(codes[i], GenerateVerificationCode(random), now)
    requires now < requested + 15 * 60
    ensures ValidateResetCode(codes + [ResetCode(userId, GenerateVerificationCode(random), requested + 15 * 60, false)],
                              GenerateVerificationCode(random), now) == Ok(userId)
  {
    StoredCodeValidates(codes, userId, GenerateVerificationCode(random), requested + 15 * 60, now);
  }

  // ===========================================================================
  // Reset by security question
  // ===========================================================================

  /** The answer as it was hashed at registration: trimmed and lower-cased. */
  function NormalizeAnswer(answer: string): (r: string)
    ensures forall i :: 0 <= i < |r| ==> !IsAsciiUpper(r[i])
  {
    ToLower(TrimSpace(answer))
  }

  /**
   * SecurityQuestionResetHandler, POST. `username` is the trimmed form value; `parseInt`
   * stands for strconv.ParseInt; `hash` for bcrypt, so that an answer matches when its hash
   * equals the stored one. With only a username, the user's question is looked up and shown;
   * with all five reset fields, the password of the user named by the form's user id is reset.
   */
  method SecurityQuestionReset(db: Database, username: string, questionId: string, userId: string, answer: string,
                               newPassword: string, confirm: string, parseInt: string -> Option<int>,
                               hash: string -> string, fault: bool) returns (resp: Response)
    requires db.Valid()
    modifies db
    ensures db.Valid()
    // step one: show the question
    ensures username != "" && questionId == "" && userId == "" ==> db.State() == old(db.State())
    ensures username != "" && questionId == "" && userId == "" && !UsernameExists(old(db.users), username) ==>
              resp == Page(SecurityPage, "No account found with this username", "")
    ensures username != "" && questionId == "" && userId == "" && UsernameExists(old(db.users), username) ==>
              var u := FindUserByUsername(old(db.users), username).value;
              resp == if FindSecurityQuestion(old(db.questions), u.id).None?
                      then Page(SecurityPage, "This account doesn't have a security question set up. Please use email reset instead.", "")
                      else Page(SecurityPage, "", "")
    // step two: the reset
    ensures !(username != "" && questionId == "" && userId == "")
            && (answer == "" || userId == "" || questionId == "" || newPassword == "" || confirm == "") ==>
              resp == Page(SecurityPage, InvalidRequest, "") && db.State() == old(db.State())
    ensures StepTwo(username, questionId, userId, answer, newPassword, confirm)
            && (parseInt(userId).None? || parseInt(questionId).None?) ==>
              resp == Page(SecurityPage, InvalidRequest, "")
    ensures StepTwo(username, questionId, userId, answer, newPassword, confirm)
            && parseInt(userId).Some? && parseInt(questionId).Some? ==>
              var q := FindSecurityQuestion(old(db.questions), parseInt(userId).value);
              && (q.None? ==> resp == Page(SecurityPage, TryAgain, ""))
              && (q.Some? && newPassword != confirm ==> resp == Page(SecurityPage, Mismatch, ""))
              && (q.Some? && newPassword == confirm && Utf8Len(newPassword) < 8 ==> resp == Page(SecurityPage, TooShort, ""))
              && (q.Some? && newPassword == confirm && Utf8Len(newPassword) >= 8 && hash(NormalizeAnswer(answer)) != q.value.answerHash ==>
                    resp == Page(SecurityPage, WrongAnswer, ""))
              && (q.Some? && newPassword == confirm && Utf8Len(newPassword) >= 8 && hash(NormalizeAnswer(answer)) == q.value.answerHash && fault ==>
                    resp == Page(SecurityPage, UpdateFailed, ""))
    ensures resp == Redirect(ResetDone) <==>
              && !(username != "" && questionId == "" && userId == "")
              && answer != "" && userId != "" && questionId != "" && newPassword != "" && confirm != ""
              && parseInt(userId).Some? && parseInt(questionId).Some?
              && FindSecurityQuestion(old(db.questions), parseInt(userId).value).Some?
              && newPassword == confirm && Utf8Len(newPassword) >= 8
              && hash(NormalizeAnswer(answer)) == FindSecurityQuestion(old(db.questions), parseInt(userId).value).value.answerHash
              && !fault
    ensures resp == Redirect(ResetDone) ==>
              db.State() == old(db.State()).(users := SetUserRows(old(db.users), parseInt(userId).value, None, Some(hash(newPassword))))
    ensures resp != Redirect(ResetDone) ==> db.State() == old(db.State())
  {
    if username != "" && questionId == "" && userId == "" {
      return ShowQuestion(db.State(), username);
    }
    if answer != "" && userId != "" && questionId != "" && newPassword != "" && confirm != "" {
      resp := ResetByAnswer(db, questionId, userId, answer, newPassword, confirm, parseInt, hash, fault);
      return;
    }
    resp := Page(SecurityPage, InvalidRequest, "");
  }

  /** The form of the reset step: not the question lookup, and all five reset fields present. */
  predicate StepTwo(username: string, questionId: string, userId: string, answer: string, newPassword: string, confirm: string)
  {
    !(username != "" && questionId == "" && userId == "")
    && answer != "" && userId != "" && questionId != "" && newPassword != "" && confirm != ""
  }

  /** The first step of SecurityQuestionResetHandler: look the user's question up by username. */
  function ShowQuestion(t: Tables, username: string): (resp: Response)
    ensures !UsernameExists(t.users, username) ==> resp == Page(SecurityPage, "No account found with this username", "")
    ensures UsernameExists(t.users, username) ==>
              var u := FindUserByUsername(t.users, username).value;
              resp == if FindSecurityQuestion(t.questions, u.id).None?
                      then Page(SecurityPage, "This account doesn't have a security question set up. Please use email reset instead.", "")
                      else Page(SecurityPage, "", "")
  {
    var user := FindUserByUsername(t.users, username);
    if user.None? then Page(SecurityPage, "No account found with this username", "")
    else if FindSecurityQuestion(t.questions, user.value.id).None? then
      Page(SecurityPage, "This account doesn't have a security question set up. Please use email reset instead.", "")
    else Page(SecurityPage, "", "")
  }

  /**
   * The second step of SecurityQuestionResetHandler, with every field present: the ids must
   * parse, the user must have a question, the passwords must match and be long enough, and
   * the normalised answer must hash to the stored one; only then is the password written.
   */
  method ResetByAnswer(db: Database, questionId: string, userId: string, answer: string,
                       newPassword: string, confirm: string, parseInt: string -> Option<int>,
                       hash: string -> string, fault: bool) returns (resp: Response)
    requires db.Valid()
    modifies db
    ensures db.Valid()
    ensures parseInt(userId).None? || parseInt(questionId).None? ==>
              resp == Page(SecurityPage, InvalidRequest, "")
    ensures parseInt(userId).Some? && parseInt(questionId).Some? ==>
              var q := FindSecurityQuestion(old(db.questions), parseInt(userId).value);
              && (q.None? ==> resp == Page(SecurityPage, TryAgain, ""))
              && (q.Some? && newPassword != confirm ==> resp == Page(SecurityPage, Mismatch, ""))
              && (q.Some? && newPassword == confirm && Utf8Len(newPassword) < 8 ==> resp == Page(SecurityPage, TooShort, ""))
              && (q.Some? && newPassword == confirm && Utf8Len(newPassword) >= 8 && hash(NormalizeAnswer(answer)) != q.value.answerHash ==>
                    resp == Page(SecurityPage, WrongAnswer, ""))
              && (q.Some? && newPassword == confirm && Utf8Len(newPassword) >= 8 && hash(NormalizeAnswer(answer)) == q.value.answerHash && fault ==>
                    resp == Page(SecurityPage, UpdateFailed, ""))
    ensures resp == Redirect(ResetDone) <==>
              && parseInt(userId).Some? && parseInt(questionId).Some?
              && FindSecurityQuestion(old(db.questions), parseInt(userId).value).Some?
              && newPassword == confirm && Utf8Len(newPassword) >= 8
              && hash(NormalizeAnswer(answer)) == FindSecurityQuestion(old(db.questions), parseInt(userId).value).value.answerHash
              && !fault
    ensures resp == Redirect(ResetDone) ==>
              db.State() == old(db.State()).(users := SetUserRows(old(db.users), parseInt(userId).value, None, Some(hash(newPassword))))
    ensures resp != Redirect(ResetDone) ==> db.State() == old(db.State())
  {
    var uid := parseInt(userId);
    if uid.None? {
      return Page(SecurityPage, InvalidRequest, "");
    }
    var qid := parseInt(questionId);
    if qid.None? {
      return Page(SecurityPage, InvalidRequest, "");
    }
    var question := FindSecurityQuestion(db.questions, uid.value);
    if question.None? {
      return Page(SecurityPage, TryAgain, "");
    }
    if newPassword != confirm {
      return Page(SecurityPage, Mismatch, "");
    }
    if Utf8Len(newPassword) < 8 {
      return Page(SecurityPage, TooShort, "");
    }
    if hash(NormalizeAnswer(answer)) != question.value.answerHash {
      return Page(SecurityPage, WrongAnswer, "");
    }
    var updated := db.UpdateUserPassword(uid.value, hash(newPassword), fault);
    if updated.Fail? {
      return Page(SecurityPage, UpdateFailed, "");
    }
    resp := Redirect(ResetDone);
  }

  /** Answers that differ only in ASCII letter case, once trimmed, are the same normalised answer. */
  lemma AnswerIgnoresCase(a: string, b: string)
    requires EqualFold(TrimSpace(a), TrimSpace(b))
    ensures NormalizeAnswer(a) == NormalizeAnswer(b)
  {
    var x, y := NormalizeAnswer(a), NormalizeAnswer(b);
    assert |x| == |y|;
    forall i | 0 <= i < |x| ensures x[i] == y[i] {
      assert x[i] == LowerRune(TrimSpace(a)[i]);
    }
  }
}
