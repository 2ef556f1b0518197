/** The string primitives the gallery's filter relies on: lower-casing,
    the substring test of Python's `in` on strings, and the decimal
    rendering of a count inside an f-string. */
module Text {

  /** An upper-case letter that Python's `str.lower` maps to a single
      lower-case letter 32 code points further on: `A`..`Z` and the
      Latin-1 capitals U+00C0..U+00DE, except the multiplication sign U+00D7. */
  predicate IsUpper(c: char) {
    ('A' <= c <= 'Z') || ('\U{C0}' <= c <= '\U{DE}' && c != '\U{D7}')
  }

  /** Lower-case one character (exact for code points up to U+00FF). */
  function LowerChar(c: char): (r: char)
    ensures !IsUpper(r)
    ensures IsUpper(c) ==> r as int == c as int + 32
    ensures !IsUpper(c) ==> r == c
  {
    if IsUpper(c) then (c as int + 32) as char else c
  }

  /** `s.lower()`: every character lower-cased, in place. */
  function Lower(s: string): (r: string)
    ensures |r| == |s|
    ensures forall i :: 0 <= i < |s| ==> r[i] == LowerChar(s[i])
  {
    if s == [] then [] else [LowerChar(s[0])] + Lower(s[1..])
  }

  /** A string with no upper-case letter left. */
  predicate IsLower(s: string) {
    forall i :: 0 <= i < |s| ==> !IsUpper(s[i])
  }

  /** Lower-casing leaves nothing upper-case, and does nothing to a string
      that is already lower-case; hence lower-casing twice is lower-casing once. */
  lemma LowerIsLower(s: string)
    ensures IsLower(Lower(s))
    ensures IsLower(s) ==> Lower(s) == s
    ensures Lower(Lower(s)) == Lower(s)
  {
  }

  /** `q` occurs in `s` starting at position `i`. */
  ghost predicate OccursAt(q: string, s: string, i: int) {
    0 <= i <= |s| - |q| && s[i..i + |q|] == q
  }

  /** Python's `q in s` for strings: `q` is a contiguous substring of `s`. */
  function Contains(s: string, q: string): (r: bool)
    ensures r <==> exists i :: OccursAt(q, s, i)
    decreases |s|
  {
    if q <= s then
      assert OccursAt(q, s, 0);
      true
    else if s == [] then
      false
    else
      var r := Contains(s[1..], q);
      assert forall i :: OccursAt(q, s[1..], i) ==> OccursAt(q, s, i + 1);
      assert forall i :: OccursAt(q, s, i) && i > 0 ==> OccursAt(q, s[1..], i - 1);
      assert !OccursAt(q, s, 0);
      r
  }

  /** The empty string is in every string, and every string is in itself. */
  lemma ContainsTrivial(s: string)
    ensures Contains(s, "")
    ensures Contains(s, s)
  {
  }

  /** A string found in `s` is no longer than `s`, and its first character is a
      character of `s`. */
  lemma ContainsFirstChar(s: string, q: string)
    ensures Contains(s, q) && q != [] ==> |q| <= |s| && q[0] in s
  {
    if Contains(s, q) && q != [] {
      var i :| OccursAt(q, s, i);
      assert s[i] == q[0];
    }
  }

  /** The decimal digit character for `d`. */
  function DigitChar(d: nat): char
    requires d < 10
  {
    (d + '0' as int) as char
  }

  predicate IsDigits(s: string) {
    forall i :: 0 <= i < |s| ==> '0' <= s[i] <= '9'
  }

  /** How Python formats a non-negative `int` inside an f-string: decimal
      digits, no sign, no leading zero. */
  function NatToString(n: nat): (s: string)
    ensures |s| >= 1 && IsDigits(s)
    ensures |s| > 1 ==> s[0] != '0'
    ensures n < 10 <==> |s| == 1
    decreases n
  {
    if n < 10 then [DigitChar(n)] else NatToString(n / 10) + [DigitChar(n % 10)]
  }

  /** Reads a string of decimal digits back as a number. */
  function ParseNat(s: string): (n: nat)
    requires IsDigits(s)
    decreases |s|
  {
    if s == [] then 0
    else ParseNat(s[..|s| - 1]) * 10 + (s[|s| - 1] as int - '0' as int)
  }

  /** Formatting a count and reading it back gives the count. */
  lemma {:induction false} ParseNatToString(n: nat)
    ensures ParseNat(NatToString(n)) == n
    decreases n
  {
    var s := NatToString(n);
    if n >= 10 {
      ParseNatToString(n / 10);
      assert s[..|s| - 1] == NatToString(n / 10);
    }
  }

  /** Two counts that format to the same text are the same count. */
  lemma NatToStringInjective(m: nat, n: nat)
    requires NatToString(m) == NatToString(n)
    ensures m == n
  {
    ParseNatToString(m);
    ParseNatToString(n);
  }
}
