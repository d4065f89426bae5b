/** The one spelling of an actor, approver, revoker or reconciler (core/ledger.py).

    The Unicode tables are not modelled: NFKC, case folding and the white-space test are
    arbitrary functions, of which only their behaviour on the allowed ASCII set is assumed. */
module Principals {
  import opened Wrappers

  datatype Unicode = Unicode(nfkc: string -> string, casefold: string -> string, isSpace: char -> bool)

  /** What a caller may pass: a Python string, or any other object. */
  datatype Argument = Text(text: string) | NotText

  datatype PrincipalError = NotAString | Empty | ForbiddenCharacter

  predicate PrincipalChar(c: char) {
    'a' <= c <= 'z' || '0' <= c <= '9' || c in "._-:@+"
  }

  /** The allowed characters, one by one. */
  lemma {:induction false} AllowedAreThese(c: char)
    ensures PrincipalChar(c) <==> c in "abcdefghijklmnopqrstuvwxyz" || c in "0123456789" || c in "._-:@+"
  {
    var letters, digits := "abcdefghijklmnopqrstuvwxyz", "0123456789";
    if 'a' <= c <= 'z' { assert letters[c as int - 'a' as int] == c; }
    if '0' <= c <= '9' { assert digits[c as int - '0' as int] == c; }
  }

  predicate IsPrincipal(s: string) {
    s != "" && forall i | 0 <= i < |s| :: PrincipalChar(s[i])
  }

  /** The assumption on the Unicode tables: they leave the allowed ASCII set alone. */
  ghost predicate StableOnAscii(u: Unicode) {
    && (forall s | IsPrincipal(s) :: u.nfkc(s) == s && u.casefold(s) == s)
    && (forall c | PrincipalChar(c) :: !u.isSpace(c))
  }

  function StripLeft(u: Unicode, s: string): string {
    if s != "" && u.isSpace(s[0]) then StripLeft(u, s[1..]) else s
  }

  function StripRight(u: Unicode, s: string): string {
    if s != "" && u.isSpace(s[|s| - 1]) then StripRight(u, s[..|s| - 1]) else s
  }

  function Strip(u: Unicode, s: string): string {
    StripRight(u, StripLeft(u, s))
  }

  function NormalizePrincipal(u: Unicode, value: Argument): Result<string, PrincipalError> {
    if value.NotText? then Err(NotAString)
    else
      var folded := u.casefold(Strip(u, u.nfkc(value.text)));
      if folded == "" then Err(Empty)
      else if forall i | 0 <= i < |folded| :: PrincipalChar(folded[i]) then Ok(folded)
      else Err(ForbiddenCharacter)
  }

  /** Why a principal is refused: it is no text, nothing is left of it, or what is left has a character that is not
      allowed. */
  lemma {:induction false} RefusedBecause(u: Unicode, value: Argument)
    ensures NormalizePrincipal(u, value)
         == if value == NotText then Err(NotAString)
            else
              var folded := u.casefold(Strip(u, u.nfkc(value.text)));
              if |folded| == 0 then Err(Empty)
              else if exists i | 0 <= i < |folded| :: !PrincipalChar(folded[i]) then Err(ForbiddenCharacter)
              else Ok(folded)
  {
  }

  /** Normalisation accepts only canonical spellings, and a canonical spelling is its own. */
  lemma {:induction false} NormalizeIsIdempotent(u: Unicode, value: Argument)
    requires StableOnAscii(u)
    requires NormalizePrincipal(u, value).Ok?
    ensures IsPrincipal(NormalizePrincipal(u, value).value)
    ensures NormalizePrincipal(u, Text(NormalizePrincipal(u, value).value)) == NormalizePrincipal(u, value)
  {
    var p := NormalizePrincipal(u, value).value;
    assert IsPrincipal(p);
    CanonicalSpellingIsKept(u, p);
  }

  lemma {:induction false} CanonicalSpellingIsKept(u: Unicode, p: string)
    requires StableOnAscii(u) && IsPrincipal(p)
    ensures NormalizePrincipal(u, Text(p)) == Ok(p)
  {
    assert PrincipalChar(p[0]) && PrincipalChar(p[|p| - 1]);
    assert Strip(u, p) == p;
  }

  /** The image of normalisation: exactly the non-empty strings over the allowed characters. */
  lemma {:induction false} ImageIsExactlyThePrincipals(u: Unicode, p: string)
    requires StableOnAscii(u)
    ensures IsPrincipal(p) <==> exists v :: NormalizePrincipal(u, v) == Ok(p)
  {
    if IsPrincipal(p) {
      CanonicalSpellingIsKept(u, p);
    } else if v :| NormalizePrincipal(u, v) == Ok(p) {
      NormalizeIsIdempotent(u, v);
      assert false;
    }
  }

  ghost predicate AllSpace(u: Unicode, s: string) {
    forall i | 0 <= i < |s| :: u.isSpace(s[i])
  }

  lemma {:induction false} StripLeftStops(u: Unicode, left: string, s: string)
    requires AllSpace(u, left) && s != "" && !u.isSpace(s[0])
    ensures StripLeft(u, left + s) == s
  {
    if left == "" {
      assert left + s == s;
    } else {
      assert (left + s)[1..] == left[1..] + s;
      StripLeftStops(u, left[1..], s);
    }
  }

  lemma {:induction false} StripRightStops(u: Unicode, s: string, right: string)
    requires AllSpace(u, right) && s != "" && !u.isSpace(s[|s| - 1])
    ensures StripRight(u, s + right) == s
  {
    if right == "" {
      assert s + right == s;
    } else {
      var n := |right| - 1;
      assert (s + right)[..|s + right| - 1] == s + right[..n] && (s + right)[|s + right| - 1] == right[n];
      StripRightStops(u, s, right[..n]);
    }
  }

  /** The look-alikes of a principal: any text whose compatibility form is the principal in some letter
      case, with white space around it, is that principal. */
  lemma {:induction false} LookAlikesAreThePrincipal(u: Unicode, text: string, left: string, s: string, right: string,
                                                     p: string)
    requires StableOnAscii(u) && IsPrincipal(p)
    requires u.nfkc(text) == left + s + right && AllSpace(u, left) && AllSpace(u, right)
    requires s != "" && !u.isSpace(s[0]) && !u.isSpace(s[|s| - 1]) && u.casefold(s) == p
    ensures NormalizePrincipal(u, Text(text)) == Ok(p)
  {
    assert left + s + right == left + (s + right);
    StripLeftStops(u, left, s + right);
    StripRightStops(u, s, right);
  }
}
