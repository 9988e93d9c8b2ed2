/**
 * BasicRegisterHandler of handlers/auth/register.go, POST: the form is trimmed, every empty
 * field is listed, then the email format, the duplicate email and the password confirmation
 * are checked, in that order, before the user is inserted as an Operator. The security
 * question is saved afterwards and its failure does not undo the registration.
 */
module Register {
  import opened Wrappers
  import opened GoText
  import opened Db
  import HandlerValidation
  import PasswordReset

  /** The form values as posted. */
  datatype RegisterForm = RegisterForm(username: string, email: string, password: string, confirmPassword: string,
                                       dob: string, ssn: string, securityQuestion: string, securityAnswer: string)

  /** Every field but the two passwords is trimmed before it is checked. */
  function Trimmed(f: RegisterForm): (t: RegisterForm)
    ensures t.password == f.password && t.confirmPassword == f.confirmPassword
    ensures t.username == TrimSpace(f.username) && t.email == TrimSpace(f.email)
    ensures t.dob == TrimSpace(f.dob) && t.ssn == TrimSpace(f.ssn)
    ensures t.securityQuestion == TrimSpace(f.securityQuestion) && t.securityAnswer == TrimSpace(f.securityAnswer)
  {
    f.(username := TrimSpace(f.username), email := TrimSpace(f.email), dob := TrimSpace(f.dob), ssn := TrimSpace(f.ssn),
       securityQuestion := TrimSpace(f.securityQuestion), securityAnswer := TrimSpace(f.securityAnswer))
  }

  /** The names reported for missing fields, in the order they are checked. */
  const FieldNames: seq<string> :=
    ["username", "email", "password", "confirmPassword", "dob", "ssn", "security_question", "security_answer"]

  function FieldValue(f: RegisterForm, k: nat): string
    requires k < 8
  {
    match k
    case 0 => f.username
    case 1 => f.email
    case 2 => f.password
    case 3 => f.confirmPassword
    case 4 => f.dob
    case 5 => f.ssn
    case 6 => f.securityQuestion
    case _ => f.securityAnswer
  }

  /** The names of the empty fields among the first `n`, in field order. */
  function EmptyFields(f: RegisterForm, n: nat): seq<string>
    requires n <= 8
  {
    if n == 0 then []
    else EmptyFields(f, n - 1) + (if FieldValue(f, n - 1) == "" then [FieldNames[n - 1]] else [])
  }

  /** The `missingFields` slice, built by one append per empty field. */
  method MissingFields(f: RegisterForm) returns (missing: seq<string>)
    ensures missing == EmptyFields(f, 8)
  {
    missing := [];
    if f.username == "" {
      missing := missing + ["username"];
    }
    assert missing == EmptyFields(f, 1);
    if f.email == "" {
      missing := missing + ["email"];
    }
    assert missing == EmptyFields(f, 2);
    if f.password == "" {
      missing := missing + ["password"];
    }
    assert missing == EmptyFields(f, 3);
    if f.confirmPassword == "" {
      missing := missing + ["confirmPassword"];
    }
    assert missing == EmptyFields(f, 4);
    if f.dob == "" {
      missing := missing + ["dob"];
    }
    assert missing == EmptyFields(f, 5);
    if f.ssn == "" {
      missing := missing + ["ssn"];
    }
    assert missing == EmptyFields(f, 6);
    if f.securityQuestion == "" {
      missing := missing + ["security_question"];
    }
    assert missing == EmptyFields(f, 7);
    if f.securityAnswer == "" {
      missing := missing + ["security_answer"];
    }
  }

  /**
   * The list names exactly the empty fields: each entry is a field name whose value is empty,
   * each empty field appears, and entries keep the field order without repeats.
   */
  lemma EmptyFieldsExact(f: RegisterForm, n: nat)
    requires n <= 8
    ensures |EmptyFields(f, n)| <= n
    ensures forall k :: 0 <= k < n ==> (FieldValue(f, k) == "" <==> FieldNames[k] in EmptyFields(f, n))
    ensures forall s :: s in EmptyFields(f, n) ==> exists k :: 0 <= k < n && FieldNames[k] == s && FieldValue(f, k) == ""
    ensures forall i, j :: 0 <= i < j < |EmptyFields(f, n)| ==> IndexOfField(EmptyFields(f, n)[i]) < IndexOfField(EmptyFields(f, n)[j])
  {
    EmptyFieldsLength(f, n);
    EmptyFieldsSound(f, n);
    EmptyFieldsComplete(f, n);
    EmptyFieldsOrdered(f, n);
    forall k | 0 <= k < n && FieldNames[k] in EmptyFields(f, n) ensures FieldValue(f, k) == "" {
      FieldNamesDistinct(k);
    }
    forall s | s in EmptyFields(f, n) ensures exists k :: 0 <= k < n && FieldNames[k] == s && FieldValue(f, k) == "" {
      var k := IndexOfField(s);
      assert 0 <= k < n && FieldNames[k] == s && FieldValue(f, k) == "";
    }
  }

  lemma {:induction false} EmptyFieldsLength(f: RegisterForm, n: nat)
    requires n <= 8
    ensures |EmptyFields(f, n)| <= n
  {
    if n > 0 {
      EmptyFieldsLength(f, n - 1);
    }
  }

  /** Every entry is the name of an empty field among the first `n`. */
  lemma {:induction false} EmptyFieldsSound(f: RegisterForm, n: nat)
    requires n <= 8
    ensures forall s :: s in EmptyFields(f, n) ==> IndexOfField(s) < n && FieldValue(f, IndexOfField(s)) == ""
  {
    if n > 0 {
      EmptyFieldsSound(f, n - 1);
      FieldNamesDistinct(n - 1);
    }
  }

  /** Every empty field among the first `n` is listed. */
  lemma {:induction false} EmptyFieldsComplete(f: RegisterForm, n: nat)
    requires n <= 8
    ensures forall k :: 0 <= k < n && FieldValue(f, k) == "" ==> FieldNames[k] in EmptyFields(f, n)
  {
    if n > 0 {
      EmptyFieldsComplete(f, n - 1);
    }
  }

  /** Entries appear in field order. */
  lemma {:induction false} EmptyFieldsOrdered(f: RegisterForm, n: nat)
    requires n <= 8
    ensures forall i, j :: 0 <= i < j < |EmptyFields(f, n)| ==> IndexOfField(EmptyFields(f, n)[i]) < IndexOfField(EmptyFields(f, n)[j])
  {
    if n > 0 {
      EmptyFieldsOrdered(f, n - 1);
      EmptyFieldsSound(f, n - 1);
      FieldNamesDistinct(n - 1);
      var prev := EmptyFields(f, n - 1);
      assert forall i :: 0 <= i < |prev| ==> prev[i] in prev;
    }
  }

  /** Position of a name in FieldNames (8 when absent). */
  function IndexOfField(s: string): (k: nat)
    ensures k <= 8
    ensures k < 8 ==> FieldNames[k] == s
  {
    if s == "username" then 0 else if s == "email" then 1 else if s == "password" then 2
    else if s == "confirmPassword" then 3 else if s == "dob" then 4 else if s == "ssn" then 5
    else if s == "security_question" then 6 else if s == "security_answer" then 7 else 8
  }

  lemma FieldNamesDistinct(k: nat)
    requires k < 8
    ensures IndexOfField(FieldNames[k]) == k
  {
  }

  /** No missing fields exactly when all eight values are non-empty. */
  lemma NothingMissingIff(f: RegisterForm)
    ensures EmptyFields(f, 8) == [] <==> forall k :: 0 <= k < 8 ==> FieldValue(f, k) != ""
  {
    EmptyFieldsExact(f, 8);
    if EmptyFields(f, 8) != [] {
      assert EmptyFields(f, 8)[0] in EmptyFields(f, 8);
    }
  }

  // ===========================================================================
  // BasicRegisterHandler
  // ===========================================================================

  /** The handler's answer: the success redirect, or the form again with an error and the kept values. */
  datatype RegisterResponse =
    | Redirect(location: string)
    | Rerender(error: string, username: string, email: string, dob: string, ssn: string)

  const Registered: string := "/login?success=Registration successful! Please log in."

  /** The four reasons the form is shown again before any insert, in the order they are checked. */
  datatype RegisterError = MissingField | InvalidEmail | EmailTaken | PasswordMismatch

  /** The error text each reason shows. */
  function Message(e: RegisterError): string
  {
    match e
    case MissingField => "All fields are required"
    case InvalidEmail => "Please enter a valid email address"
    case EmailTaken => "Email address is already registered. Please use a different email or try to reset your password."
    case PasswordMismatch => "Passwords do not match"
  }

  /** The checks before the insert, in order; `None` when they all pass. */
  function RegisterCheck(users: seq<User>, t: RegisterForm): (err: Option<RegisterError>)
    ensures err.None? <==>
              (forall k :: 0 <= k < 8 ==> FieldValue(t, k) != "") && HandlerValidation.IsValidEmail(t.email)
              && !EmailExists(users, t.email) && t.password == t.confirmPassword
    ensures err == Some(MissingField) <==> exists k :: 0 <= k < 8 && FieldValue(t, k) == ""
    ensures err == Some(EmailTaken) ==> HandlerValidation.IsValidEmail(t.email) && EmailExists(users, t.email)
  {
    NothingMissingIff(t);
    if EmptyFields(t, 8) != [] then Some(MissingField)
    else if !HandlerValidation.IsValidEmail(t.email) then Some(InvalidEmail)
    else if EmailExists(users, t.email) then Some(EmailTaken)
    else if t.password != t.confirmPassword then Some(PasswordMismatch)
    else None
  }

  /**
   * BasicRegisterHandler, POST. `hash` stands for bcrypt; `questionFault` for a failing
   * security question insert. The password is only compared with its confirmation: no
   * complexity rule applies here. A refused form keeps the username, dob and ssn, and the
   * email unless it is the one already registered.
   */
  method BasicRegister(db: Database, form: RegisterForm, hash: string -> string, questionFault: bool)
    returns (resp: RegisterResponse)
    requires db.Valid()
    modifies db
    ensures db.Valid()
    ensures var t := Trimmed(form);
            RegisterCheck(old(db.users), t).Some? ==>
              var e := RegisterCheck(old(db.users), t).value;
              && resp == Rerender(Message(e), t.username, if e == EmailTaken then "" else t.email, t.dob, t.ssn)
              && db.State() == old(db.State())
    ensures var t := Trimmed(form);
            RegisterCheck(old(db.users), t).None? ==> Inserted(old(db.State()), db.State(), resp, t, hash, questionFault)
  {
    var t := Trimmed(form);
    var check := CheckForm(db.users, t);
    if check.Some? {
      return Rerender(Message(check.value), t.username, if check.value == EmailTaken then "" else t.email, t.dob, t.ssn);
    }
    NothingMissingIff(t);
    assert FieldValue(t, 0) != "" && FieldValue(t, 1) != "";
    resp := CreateAccount(db, t, hash, questionFault);
  }

  /** The four checks of BasicRegisterHandler in their order, stopping at the first that fails. */
  method CheckForm(users: seq<User>, t: RegisterForm) returns (check: Option<RegisterError>)
    ensures check == RegisterCheck(users, t)
  {
    var missing := MissingFields(t);
    if |missing| > 0 {
      return Some(MissingField);
    }
    if !HandlerValidation.IsValidEmail(t.email) {
      return Some(InvalidEmail);
    }
    if EmailExists(users, t.email) {
      return Some(EmailTaken);
    }
    if t.password != t.confirmPassword {
      return Some(PasswordMismatch);
    }
    return None;
  }

  /**
   * What happens once the checks pass: the account is created as an Operator unless the
   * insert fails (an empty hash or a taken username); then the security question is saved,
   * and a failure there still leads to the success redirect.
   */
  ghost predicate Inserted(before: Tables, after: Tables, resp: RegisterResponse, t: RegisterForm,
                           hash: string -> string, questionFault: bool)
  {
    var accepted := hash(t.password) != "" && !UsernameExists(before.users, t.username);
    var u := User(before.lastUserId + 1, t.username, hash(t.password), t.dob, t.ssn, t.email, DefaultRole);
    var q := SecurityQuestion(before.lastQuestionId + 1, u.id, t.securityQuestion, hash(ToLower(t.securityAnswer)));
    if !accepted then
      && resp == Rerender("Failed to create user account. Please try again.", t.username, t.email, t.dob, t.ssn)
      && after == before
    else
      && resp == Redirect(Registered)
      && after == before.(users := before.users + [u], lastUserId := u.id,
                          questions := if questionFault then before.questions else before.questions + [q],
                          lastQuestionId := if questionFault then before.lastQuestionId else q.id)
  }

  /** The insert part of BasicRegister, on a trimmed form whose checks have passed. */
  method CreateAccount(db: Database, t: RegisterForm, hash: string -> string, questionFault: bool)
    returns (resp: RegisterResponse)
    requires db.Valid() && t.email != "" && t.username != ""
    modifies db
    ensures db.Valid()
    ensures Inserted(old(db.State()), db.State(), resp, t, hash, questionFault)
  {
    var answerHash := hash(ToLower(t.securityAnswer));
    var added := db.AddUser(t.username, hash(t.password), t.dob, t.ssn, t.email, "Operator");
    if added.Err? {
      return Rerender("Failed to create user account. Please try again.", t.username, t.email, t.dob, t.ssn);
    }
    NewUserExists(db.users, added.value);
    var saved := db.AddSecurityQuestion(added.value, t.securityQuestion, answerHash, questionFault);
    resp := Redirect(Registered);
  }

  lemma NewUserExists(users: seq<User>, id: int)
    requires |users| > 0 && users[|users| - 1].id == id
    ensures HasUser(users, id)
  {
  }

  /**
   * The answer stored at registration is checked by the security-question reset: any answer
   * equal to the registered one up to surrounding spaces and ASCII letter case is accepted.
   */
  lemma RegisteredAnswerAccepted(registered: string, given: string, hash: string -> string)
    requires EqualFold(TrimSpace(registered), TrimSpace(given))
    ensures hash(PasswordReset.NormalizeAnswer(given)) == hash(ToLower(Trimmed(RegisterForm("", "", "", "", "", "", "", registered)).securityAnswer))
  {
    PasswordReset.AnswerIgnoresCase(registered, given);
  }
}
