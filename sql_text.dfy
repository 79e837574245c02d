/**
 * Text building blocks of the generated SQL: the decimal numbers written after
 * `$` in positional placeholders, and joining fragments with a separator.
 */
module SqlText {

  predicate IsDigit(c: char) {
    '0' <= c <= '9'
  }

  predicate AllDigits(s: string) {
    forall i :: 0 <= i < |s| ==> IsDigit(s[i])
  }

  /** A decimal digit string without a superfluous leading zero. */
  predicate Canonical(s: string) {
    |s| >= 1 && AllDigits(s) && (s[0] == '0' ==> |s| == 1)
  }

  function DigitChar(d: nat): (c: char)
    requires d < 10
    ensures IsDigit(c)
    ensures c as int - '0' as int == d
  {
    (d + '0' as int) as char
  }

  /**
   * The decimal rendering of `n`, as JavaScript converts a non-negative
   * integer to a string (`"$" + 3` is `"$3"`).
   */
  function NatToString(n: nat): (s: string)
    ensures Canonical(s)
    ensures s[0] == '0' ==> n == 0
  {
    if n < 10 then [DigitChar(n)] else NatToString(n / 10) + [DigitChar(n % 10)]
  }

  /** The number a string of decimal digits denotes. */
  function DigitsValue(s: string): (n: nat)
    requires AllDigits(s)
  {
    if s == [] then 0
    else DigitsValue(s[..|s| - 1]) * 10 + (s[|s| - 1] as int - '0' as int)
  }

  /** Reading back a rendered number gives the number. */
  lemma {:induction false} DecimalRoundTrip(n: nat)
    ensures DigitsValue(NatToString(n)) == n
  {
    if n >= 10 {
      var s := NatToString(n);
      assert s[..|s| - 1] == NatToString(n / 10);
      DecimalRoundTrip(n / 10);
    }
  }

  /** A digit string not starting with `0` denotes a positive number. */
  lemma {:induction false} LeadingDigitPositive(s: string)
    requires |s| >= 1 && AllDigits(s) && s[0] != '0'
    ensures DigitsValue(s) >= 1
  {
    if |s| > 1 {
      assert s[..|s| - 1][0] == s[0];
      LeadingDigitPositive(s[..|s| - 1]);
    }
  }

  /** Rendering the number a canonical digit string denotes gives the string back. */
  lemma {:induction false} CanonicalRoundTrip(s: string)
    requires Canonical(s)
    ensures NatToString(DigitsValue(s)) == s
  {
    if |s| > 1 {
      var init := s[..|s| - 1];
      var d := s[|s| - 1] as int - '0' as int;
      assert init[0] == s[0];
      LeadingDigitPositive(init);
      CanonicalRoundTrip(init);
      var n := DigitsValue(s);
      assert n == DigitsValue(init) * 10 + d;
      assert n / 10 == DigitsValue(init) && n % 10 == d;
      assert NatToString(n) == init + [DigitChar(d)];
      assert init + [s[|s| - 1]] == s;
    }
  }

  /** `s` is `prefix` followed by the canonical decimal digits that denote `k`. */
  predicate NumberedAfter(s: string, prefix: string, k: nat) {
    |s| > |prefix| && s[..|prefix|] == prefix
    && Canonical(s[|prefix|..]) && DigitsValue(s[|prefix|..]) == k
  }

  /** A number rendered after a prefix reads back as that number. */
  lemma PrefixedNumber(prefix: string, k: nat)
    ensures NumberedAfter(prefix + NatToString(k), prefix, k)
  {
    var s := prefix + NatToString(k);
    assert s[..|prefix|] == prefix;
    assert s[|prefix|..] == NatToString(k);
    DecimalRoundTrip(k);
  }

  /** The decimal rendering tells numbers apart: distinct placeholders never coincide. */
  lemma NatToStringInjective(m: nat, n: nat)
    requires NatToString(m) == NatToString(n)
    ensures m == n
  {
    DecimalRoundTrip(m);
    DecimalRoundTrip(n);
  }

  /**
   * The parts joined with `sep` between neighbours (JavaScript's
   * `Array.prototype.join`): no separator before the first part or after the last.
   */
  function Join(sep: string, parts: seq<string>): (r: string) {
    if |parts| == 0 then ""
    else if |parts| == 1 then parts[0]
    else parts[0] + sep + Join(sep, parts[1..])
  }

  /** A joined text starts with the first part and ends with the last one. */
  lemma {:induction false} JoinEnds(sep: string, parts: seq<string>)
    requires |parts| > 0
    ensures var s := Join(sep, parts);
            && |s| >= |parts[0]| && s[..|parts[0]|] == parts[0]
            && |s| >= |parts[|parts| - 1]| && s[|s| - |parts[|parts| - 1]|..] == parts[|parts| - 1]
  {
    if |parts| > 1 {
      JoinEnds(sep, parts[1..]);
      var rest := Join(sep, parts[1..]);
      var last := parts[|parts| - 1];
      assert parts[1..][|parts| - 2] == last;
      assert Join(sep, parts) == parts[0] + sep + rest;
      assert (parts[0] + sep + rest)[|parts[0] + sep + rest| - |last|..] == rest[|rest| - |last|..];
    }
  }
}
