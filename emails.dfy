/**
 * The e-mail and character helpers of Django's user manager: `normalize_email`, which
 * `create_user` applies before the INSERT, with the `rsplit("@", 1)` and `str.lower()` it uses.
 */
module Emails {
  import opened Wrappers
  import opened Text

  /** The position of the last `c` in `s`: where Python `s.rsplit(c, 1)` cuts. */
  function LastIndex(s: string, c: char): (r: Option<nat>)
    ensures r.None? ==> forall k :: 0 <= k < |s| ==> s[k] != c
    ensures r.Some? ==> r.value < |s| && s[r.value] == c && forall k :: r.value < k < |s| ==> s[k] != c
  {
    if s == [] then None
    else if s[|s| - 1] == c then Some(|s| - 1)
    else LastIndex(s[..|s| - 1], c)
  }

  /** The last `c` of `name + [c] + rest` is the one after `name` when `rest` holds none. */
  lemma {:induction false} LastIndexAfter(name: string, c: char, rest: string)
    requires c !in rest
    ensures LastIndex(name + [c] + rest, c) == Some(|name|)
    decreases |rest|
  {
    var s := name + [c] + rest;
    if rest == [] {
      assert s[|s| - 1] == c;
    } else {
      assert s[|s| - 1] == rest[|rest| - 1] != c;
      assert s[..|s| - 1] == name + [c] + rest[..|rest| - 1];
      LastIndexAfter(name, c, rest[..|rest| - 1]);
    }
  }

  /** Python `str.lower()` on one character, for the ASCII letters. */
  function LowerChar(c: char): (l: char)
    ensures !('A' <= l <= 'Z')
    ensures 'A' <= c <= 'Z' ==> l as int == c as int + 32
    ensures !('A' <= c <= 'Z') ==> l == c
  {
    if 'A' <= c <= 'Z' then (c as int + 32) as char else c
  }

  /** Python `str.lower()`, for the ASCII letters: every character lowered in place. */
  function AsciiLower(s: string): (r: string)
    ensures |r| == |s| && forall i :: 0 <= i < |s| ==> r[i] == LowerChar(s[i])
  {
    seq(|s|, i requires 0 <= i < |s| => LowerChar(s[i]))
  }

  /** Lowering twice lowers once. */
  lemma AsciiLowerIdempotent(s: string)
    ensures AsciiLower(AsciiLower(s)) == AsciiLower(s)
  {
  }

  /** Lowering neither adds nor removes a character that is not a letter, white space and '@' among them. */
  lemma AsciiLowerKeeps(s: string, c: char)
    requires !('A' <= c <= 'Z') && !('a' <= c <= 'z')
    ensures c in AsciiLower(s) <==> c in s
  {
    var r := AsciiLower(s);
    if c in s {
      var i :| 0 <= i < |s| && s[i] == c;
      assert r[i] == c;
    }
    if c in r {
      var i :| 0 <= i < |r| && r[i] == c;
      assert LowerChar(s[i]) == c;
    }
  }

  /**
   * `BaseUserManager.normalize_email`, which `create_user` applies before the INSERT: the stripped
   * email cut at its last '@', with the domain part lowercased. An email without '@' is kept as
   * given, unstripped.
   */
  function NormalizeEmail(email: string): (r: string)
    ensures '@' !in email ==> r == email
    ensures '@' in email ==> '@' in r
  {
    var t := Trim(email, PyBlanks);
    match LastIndex(t, '@')
    case None => email
    case Some(i) => t[..i] + "@" + AsciiLower(t[i + 1..])
  }

  /** No white space at either end: the text `strip()` leaves as it is. */
  predicate Unpadded(s: string) {
    s != [] && !IsSpace(s[0], PyBlanks) && !IsSpace(s[|s| - 1], PyBlanks)
  }

  /**
   * An email with no white space at either end keeps its local part, up to the last '@', and has
   * its domain lowered.
   */
  lemma NormalizeEmailOf(name: string, domain: string)
    requires '@' !in domain && Unpadded(name + "@" + domain)
    ensures NormalizeEmail(name + "@" + domain) == name + "@" + AsciiLower(domain)
  {
    var w := name + "@" + domain;
    TrimUnpadded(w, PyBlanks);
    LastIndexAfter(name, '@', domain);
    assert w[..|name|] == name && w[|name| + 1..] == domain;
  }

  /** Normalizing a normalized email changes nothing. */
  lemma NormalizeEmailIdempotent(email: string)
    ensures NormalizeEmail(NormalizeEmail(email)) == NormalizeEmail(email)
  {
    var t := Trim(email, PyBlanks);
    var at := LastIndex(t, '@');
    if at.Some? {
      var i := at.value;
      var name, domain := t[..i], t[i + 1..];
      assert '@' !in domain by {
        forall k | 0 <= k < |domain| ensures domain[k] != '@' {
          assert domain[k] == t[i + 1 + k];
        }
      }
      AsciiLowerKeeps(domain, '@');
      CutUnpadded(t, i);
      NormalizeEmailOf(name, AsciiLower(domain));
      AsciiLowerIdempotent(domain);
    }
  }

  /** Cutting a stripped text at an '@' and lowering the domain leaves no white space at either end. */
  lemma CutUnpadded(t: string, i: nat)
    requires i < |t| && t[i] == '@' && !IsSpace(t[0], PyBlanks) && !IsSpace(t[|t| - 1], PyBlanks)
    ensures Unpadded(t[..i] + "@" + AsciiLower(t[i + 1..]))
  {
    var w := t[..i] + "@" + AsciiLower(t[i + 1..]);
    assert w[0] == (if i > 0 then t[0] else '@');
    assert w[|w| - 1] == (if i + 1 == |t| then '@' else LowerChar(t[|t| - 1]));
  }

  /**
   * Two spellings of one address whose domains differ only in the case of their letters, such as
   * "ana@X.com" and "ana@x.com", normalize alike.
   */
  lemma DomainCaseNormalizesAlike(name: string, d1: string, d2: string)
    requires '@' !in d1 && '@' !in d2 && AsciiLower(d1) == AsciiLower(d2)
    requires Unpadded(name + "@" + d1) && Unpadded(name + "@" + d2)
    ensures NormalizeEmail(name + "@" + d1) == NormalizeEmail(name + "@" + d2) == name + "@" + AsciiLower(d1)
  {
    NormalizeEmailOf(name, d1);
    NormalizeEmailOf(name, d2);
  }

  /** "X.com" and "x.com" are such domains. */
  lemma LowerDomainExample()
    ensures AsciiLower("X.com") == AsciiLower("x.com") == "x.com"
  {
    var l, m := AsciiLower("X.com"), AsciiLower("x.com");
    assert l[0] == m[0] == 'x';
    assert forall i :: 0 <= i < 5 ==> l[i] == m[i] == "x.com"[i];
  }
}
