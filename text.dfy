/** JavaScript's notion of white space, as used by the `\s` class of a
    regular expression and by `String.prototype.trim`, and the decimal
    rendering of a non-negative number in a template literal. */
module Text {
  import opened Seqs

  /** `\s`: the WhiteSpace and LineTerminator code points of ECMAScript. */
  predicate IsJsSpace(c: char) {
    || c == '\t' || c == '\n' || c == '\U{B}' || c == '\U{C}' || c == '\r' || c == ' '
    || c == '\U{A0}' || c == '\U{1680}' || ('\U{2000}' <= c <= '\U{200A}')
    || c == '\U{2028}' || c == '\U{2029}' || c == '\U{202F}' || c == '\U{205F}'
    || c == '\U{3000}' || c == '\U{FEFF}'
  }

  /** Nothing but white space (the empty string included). */
  predicate Blank(s: string) {
    forall i :: 0 <= i < |s| ==> IsJsSpace(s[i])
  }

  /** The string without its leading white space. */
  function TrimStart(s: string): (r: string)
    ensures |r| <= |s| && r == s[|s| - |r|..]
    ensures r == [] || !IsJsSpace(r[0])
    ensures forall i :: 0 <= i < |s| - |r| ==> IsJsSpace(s[i])
    ensures r == [] <==> Blank(s)
  {
    if s == [] || !IsJsSpace(s[0]) then s else TrimStart(s[1..])
  }

  /** The string without its trailing white space. */
  function TrimEnd(s: string): (r: string)
    ensures |r| <= |s| && r == s[..|r|]
    ensures r == [] || !IsJsSpace(r[|r| - 1])
    ensures forall i :: |r| <= i < |s| ==> IsJsSpace(s[i])
    ensures r == [] <==> Blank(s)
  {
    if s == [] || !IsJsSpace(s[|s| - 1]) then s else TrimEnd(s[..|s| - 1])
  }

  /** `s.trim()`: no white space at either end, and empty exactly for
      the blank strings. */
  function Trim(s: string): (r: string)
    ensures r == [] || (!IsJsSpace(r[0]) && !IsJsSpace(r[|r| - 1]))
    ensures r == [] <==> Blank(s)
  {
    TrimEnd(TrimStart(s))
  }

  /** What `trim` keeps is the slice of `s` that starts at `Lead(s)`, and
      all it drops is white space. */
  lemma TrimIsSlice(s: string)
    ensures Lead(s) + |Trim(s)| <= |s|
    ensures Trim(s) == s[Lead(s)..Lead(s) + |Trim(s)|]
    ensures forall i :: 0 <= i < Lead(s) ==> IsJsSpace(s[i])
    ensures forall i :: Lead(s) + |Trim(s)| <= i < |s| ==> IsJsSpace(s[i])
  {
    var t := TrimStart(s);
    var r := TrimEnd(t);
    var lo := |s| - |t|;
    assert Lead(s) == lo && Trim(s) == r;
    assert r == t[..|r|] && t == s[lo..];
    SliceOfSlice(s, lo, |r|);
    forall i | lo + |r| <= i < |s| ensures IsJsSpace(s[i]) {
      assert s[i] == t[i - lo];
    }
  }

  lemma SliceOfSlice<T>(s: seq<T>, lo: nat, n: nat)
    requires lo + n <= |s|
    ensures s[lo..][..n] == s[lo..lo + n]
  {
  }

  /** How much leading white space `trim` drops. */
  function Lead(s: string): nat {
    |s| - |TrimStart(s)|
  }

  /** A character outside the Basic Multilingual Plane, which UTF-16
      writes as a surrogate pair. */
  predicate Astral(c: char) {
    c as int >= 0x1_0000
  }

  /** JavaScript's `length`: the number of UTF-16 code units, one per
      character plus one more per character outside the Basic
      Multilingual Plane. */
  function Utf16Length(s: string): (n: nat)
    ensures n == |s| + |Filter(s, Astral)|
    ensures |s| <= n <= 2 * |s|
    ensures (forall i :: 0 <= i < |s| ==> !Astral(s[i])) ==> n == |s|
    decreases |s|
  {
    if s == [] then 0
    else
      assert forall i :: 0 <= i < |s[1..]| ==> s[1..][i] == s[i + 1];
      (if Astral(s[0]) then 2 else 1) + Utf16Length(s[1..])
  }

  /** The length of a concatenation is the sum of the lengths. */
  lemma {:induction false} Utf16LengthConcat(a: string, b: string)
    ensures Utf16Length(a + b) == Utf16Length(a) + Utf16Length(b)
    decreases |a|
  {
    if a == [] {
      assert a + b == b;
    } else {
      var ab := a + b;
      assert ab[0] == a[0] && ab[1..] == a[1..] + b;
      Utf16LengthConcat(a[1..], b);
      assert Utf16Length(ab) == (if Astral(a[0]) then 2 else 1) + Utf16Length(a[1..] + b);
    }
  }

  function DigitChar(d: nat): char
    requires d < 10
  {
    "0123456789"[d]
  }

  predicate IsDigit(c: char) { '0' <= c <= '9' }

  function DigitValue(c: char): nat
    requires IsDigit(c)
  {
    (c as int - '0' as int) as nat
  }

  /** The decimal rendering of `n`, as `${n}` writes it. */
  function Decimal(n: nat): (r: string)
    ensures |r| >= 1
    ensures forall i :: 0 <= i < |r| ==> IsDigit(r[i])
    ensures r[0] == '0' ==> n == 0 && r == "0"
  {
    if n < 10 then [DigitChar(n)] else Decimal(n / 10) + [DigitChar(n % 10)]
  }

  /** The value of a string of decimal digits. */
  function DecimalValue(s: string): nat
    requires forall i :: 0 <= i < |s| ==> IsDigit(s[i])
  {
    if s == [] then 0 else DecimalValue(s[..|s| - 1]) * 10 + DigitValue(s[|s| - 1])
  }

  /** Reading back the rendering of a number gives the number. */
  lemma {:induction false} DecimalRoundTrip(n: nat)
    ensures DecimalValue(Decimal(n)) == n
  {
    var r := Decimal(n);
    if n < 10 {
      assert r[..0] == [];
    } else {
      DecimalRoundTrip(n / 10);
      assert r[..|r| - 1] == Decimal(n / 10);
    }
  }

  /** Two numbers render the same only when they are equal. */
  lemma DecimalInjective(m: nat, n: nat)
    requires Decimal(m) == Decimal(n)
    ensures m == n
  {
    DecimalRoundTrip(m);
    DecimalRoundTrip(n);
  }
}
