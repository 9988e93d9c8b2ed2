/**
 * The smaller rules of handlers/utils/validation.go: the same email pattern as
 * utils/validation.go, and a username rule that only asks for three bytes after trimming.
 */
module HandlerValidation {
  import opened GoText
  import Validation

  /** IsValidEmail: the same pattern as Validation.IsValidEmail. */
  function IsValidEmail(email: string): (r: bool)
    ensures r <==> exists at, dot :: Validation.EmailShape(email, at, dot)
    ensures r ==> Validation.CountChar(email, '@') == 1
  {
    var ok := Validation.IsValidEmail(email);
    if ok then Validation.ValidEmailParts(email); ok else ok
  }

  /** IsValidUsername: at least three bytes remain once surrounding white space is trimmed. */
  function IsValidUsername(username: string): (r: bool)
    ensures r ==> exists i :: 0 <= i < |username| && !IsSpace(username[i])
    ensures IsAscii(username) && (forall i :: 0 <= i < |username| ==> !IsSpace(username[i])) ==>
              (r <==> |username| >= 3)
  {
    AsciiWithoutSpaces(username);
    Utf8Len(TrimSpace(username)) >= 3
  }

  /**
   * Surrounding white space is ignored: a name padded on both sides with white space is valid
   * exactly when the padded core, whose ends are not white space, has at least three bytes.
   */
  lemma PaddedUsername(pre: string, u: string, post: string)
    requires forall i :: 0 <= i < |pre| ==> IsSpace(pre[i])
    requires forall i :: 0 <= i < |post| ==> IsSpace(post[i])
    requires u == [] || (!IsSpace(u[0]) && !IsSpace(u[|u| - 1]))
    ensures IsValidUsername(pre + u + post) <==> Utf8Len(u) >= 3
  {
    TrimSurrounded(pre, u, post);
  }

  /** " ab " is refused, though it has four characters. */
  lemma PaddedShortName()
    ensures !IsValidUsername(" ab ")
  {
    var pad, u := " ", "ab";
    assert pad + u + pad == " ab ";
    assert !IsValidUsername(pad + u + pad) by {
      AsciiUtf8Len(u);
      PaddedUsername(pad, u, pad);
    }
  }

  /** "\tabc\n" is accepted: the tab and the newline are trimmed. */
  lemma PaddedLongName()
    ensures IsValidUsername("\tabc\n")
  {
    var pre, u, post := "\t", "abc", "\n";
    assert pre + u + post == "\tabc\n";
    assert IsValidUsername(pre + u + post) by {
      AsciiUtf8Len(u);
      PaddedUsername(pre, u, post);
    }
  }

  /** With no white space and only ASCII, the trimmed byte length is the character count. */
  lemma AsciiWithoutSpaces(s: string)
    ensures IsAscii(s) && (forall i :: 0 <= i < |s| ==> !IsSpace(s[i])) ==> Utf8Len(TrimSpace(s)) == |s|
  {
    if IsAscii(s) && forall i :: 0 <= i < |s| ==> !IsSpace(s[i]) {
      NoSpaceTrimsToItself(s);
      AsciiUtf8Len(s);
    }
  }

  /** A string with nothing to trim at either end is its own TrimSpace. */
  lemma NoSpaceTrimsToItself(s: string)
    requires |s| == 0 || (!IsSpace(s[0]) && !IsSpace(s[|s| - 1]))
    ensures TrimSpace(s) == s
  {
    assert LeadingSpaces(s) == 0;
    assert s[0..] == s;
  }

  /** Every username the strict rules of utils/validation.go accept passes this rule too. */
  lemma StrictUsernameIsLoose(u: string)
    requires Validation.IsValidUsername(u).Pass?
    ensures IsValidUsername(u)
  {
    Validation.ValidUsernameLength(u);
    NoSpaceTrimsToItself(u);
  }

  /** The converse fails: a name with inner spaces passes here and is refused by the strict rules. */
  lemma LooseAcceptsInnerSpaces()
    ensures IsValidUsername("a b") && Validation.IsValidUsername("a b").Fail?
  {
    NoSpaceTrimsToItself("a b");
    assert !Validation.UsernameChar("a b"[1]);
  }
}
