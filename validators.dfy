/** The client-side checks shared by RegisterForm.jsx and LoginForm.jsx:
    the email pattern `/^[^\s@]+@[^\s@]+\.[^\s@]+$/` and the six-character
    password rule. */
module Validators {
  import opened Text
  import Accounts

  /** The class `[^\s@]`. */
  predicate EmailChar(c: char) {
    !IsJsSpace(c) && c != '@'
  }

  predicate EmailChars(s: string) {
    forall i :: 0 <= i < |s| ==> EmailChar(s[i])
  }

  /** The email pattern read literally: a non-empty run of `[^\s@]`, an
      `@`, a non-empty run, a dot, and a last non-empty run. */
  ghost predicate EmailPattern(s: string) {
    exists a: string, b: string, c: string ::
      && s == a + "@" + b + "." + c
      && |a| > 0 && |b| > 0 && |c| > 0
      && EmailChars(a) && EmailChars(b) && EmailChars(c)
  }

  /** The position of the first `@`, or `|s|` when there is none. */
  function FirstAt(s: string): (i: nat)
    ensures i <= |s|
    ensures i < |s| ==> s[i] == '@'
    ensures forall k :: 0 <= k < i ==> s[k] != '@'
  {
    if s == [] then 0
    else if s[0] == '@' then 0
    else 1 + FirstAt(s[1..])
  }

  /** A dot with something on both sides of it. */
  predicate HasInnerDot(r: string) {
    exists k :: 0 < k < |r| - 1 && r[k] == '.'
  }

  /** `validateEmail`, as one scan: the text before the first `@` is a
      non-empty run of `[^\s@]`; what follows it is one too, and holds a
      dot neither first nor last. */
  predicate ValidEmail(s: string) {
    var i := FirstAt(s);
    && 0 < i < |s|
    && EmailChars(s[..i])
    && EmailChars(s[i + 1..])
    && HasInnerDot(s[i + 1..])
  }

  /** The scan accepts exactly the strings the regular expression matches. */
  lemma ValidEmailMatchesPattern(s: string)
    ensures ValidEmail(s) <==> EmailPattern(s)
  {
    if ValidEmail(s) {
      ScanMatches(s);
    }
    if EmailPattern(s) {
      var a: string, b: string, c: string :|
        && s == a + "@" + b + "." + c
        && |a| > 0 && |b| > 0 && |c| > 0
        && EmailChars(a) && EmailChars(b) && EmailChars(c);
      PatternScans(a, b, c);
    }
  }

  lemma ScanMatches(s: string)
    requires ValidEmail(s)
    ensures EmailPattern(s)
  {
    var i := FirstAt(s);
    var r := s[i + 1..];
    var k :| 0 < k < |r| - 1 && r[k] == '.';
    var a, b, c := s[..i], r[..k], r[k + 1..];
    assert r == b + "." + c;
    assert s == a + "@" + r;
    SliceKeepsEmailChars(r, 0, k);
    SliceKeepsEmailChars(r, k + 1, |r|);
    assert s == a + "@" + b + "." + c && |a| > 0 && |b| > 0 && |c| > 0
      && EmailChars(a) && EmailChars(b) && EmailChars(c);
  }

  lemma SliceKeepsEmailChars(r: string, lo: nat, hi: nat)
    requires lo <= hi <= |r| && EmailChars(r)
    ensures EmailChars(r[lo..hi])
  {
    assert forall j :: 0 <= j < hi - lo ==> r[lo..hi][j] == r[lo + j];
  }

  lemma PatternScans(a: string, b: string, c: string)
    requires |a| > 0 && |b| > 0 && |c| > 0
    requires EmailChars(a) && EmailChars(b) && EmailChars(c)
    ensures ValidEmail(a + "@" + b + "." + c)
  {
    var s := a + "@" + b + "." + c;
    var r := b + "." + c;
    assert s == a + "@" + r;
    FirstAtAfter(a, r);
    assert s[..|a|] == a && s[|a| + 1..] == r;
    assert r[|b|] == '.';
    forall j | 0 <= j < |r| ensures EmailChar(r[j]) {
      if j < |b| {
        assert r[j] == b[j];
      } else if j > |b| {
        assert r[j] == c[j - |b| - 1];
      }
    }
  }

  /** The first `@` after an `@`-free prefix is the one that follows it. */
  lemma FirstAtAfter(a: string, r: string)
    requires EmailChars(a)
    ensures FirstAt(a + "@" + r) == |a|
  {
    var s := a + "@" + r;
    assert s[|a|] == '@';
    assert forall k :: 0 <= k < |a| ==> s[k] == a[k];
  }

  /** `validatePassword` of the registration form: `length` counts UTF-16
      code units. */
  predicate ClientPasswordOk(p: string) {
    Utf16Length(p) >= 6
  }

  /** Every password the server accepts passes the client's check, and the
      client lets through some the server will refuse: six lower-case
      letters, or five characters one of which lies outside the Basic
      Multilingual Plane. */
  lemma ServerRuleIsStricter(p: string)
    ensures Accounts.ValidPassword(p) ==> ClientPasswordOk(p)
    ensures ClientPasswordOk("abcdef") && !Accounts.ValidPassword("abcdef")
    ensures ClientPasswordOk("abcd\U{1F600}") && !Accounts.ValidPassword("abcd\U{1F600}")
  {
    assert Utf16Length("abcd\U{1F600}") == 6 by {
      assert "abcd\U{1F600}"[1..] == "bcd\U{1F600}";
      assert "bcd\U{1F600}"[1..] == "cd\U{1F600}";
      assert "cd\U{1F600}"[1..] == "d\U{1F600}";
      assert "d\U{1F600}"[1..] == "\U{1F600}";
    }
  }
}
