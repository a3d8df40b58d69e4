/** Number.prototype.toString(radix) on non-negative integers (ECMA-262, section
    21.1.3.6): the digits 0-9 then the lower-case letters a-z, most significant first,
    no leading zeros. Its inverse, used to read a timestamp back out of a pet code and to
    read a row id out of a request value. */
module Radix {

  import opened Wrappers

  predicate IsRadix(r: nat) {
    2 <= r <= 36
  }

  function DigitChar(d: nat): (c: char)
    requires d < 36
  {
    if d < 10 then ('0' as int + d) as char else ('a' as int + d - 10) as char
  }

  function DigitValue(c: char): Option<nat> {
    if '0' <= c <= '9' then Some(c as int - '0' as int)
    else if 'a' <= c <= 'z' then Some(c as int - 'a' as int + 10)
    else None
  }

  /** The characters `toString(36)` can produce. */
  predicate IsBase36Char(c: char) {
    '0' <= c <= '9' || 'a' <= c <= 'z'
  }

  lemma DigitRoundTrip(d: nat)
    requires d < 36
    ensures DigitValue(DigitChar(d)) == Some(d)
    ensures IsBase36Char(DigitChar(d))
  {
  }

  /** Euclidean division by a radix: the quotient is smaller than the number once
      the number has two digits. */
  lemma DivideByRadix(n: nat, r: nat)
    requires IsRadix(r) && n >= r
    ensures n / r < n && n % r < r
    ensures (n / r) * r + n % r == n
  {
    var q := n / r;
    assert q * r + n % r == n;
    assert q * r >= q * 2;
  }

  function ToRadix(n: nat, r: nat): (s: string)
    requires IsRadix(r)
    ensures |s| >= 1
    ensures forall i :: 0 <= i < |s| ==> IsBase36Char(s[i])
    decreases n
  {
    if n < r then [DigitChar(n)]
    else DivideByRadix(n, r); ToRadix(n / r, r) + [DigitChar(n % r)]
  }

  /** Reads the digits of `s` in radix `r`; None when `s` is empty or holds a
      character that is not a digit of that radix. */
  function ParseRadix(s: string, r: nat): Option<nat>
    requires IsRadix(r)
    decreases |s|
  {
    if s == [] then None
    else
      var d := DigitValue(s[|s| - 1]);
      if d.None? || d.value >= r then None
      else if |s| == 1 then Some(d.value)
      else
        match ParseRadix(s[..|s| - 1], r)
        case None => None
        case Some(h) => Some(h * r + d.value)
  }

  /** Reading back what `toString(r)` wrote gives the number again. */
  lemma {:induction false} ParseToRadix(n: nat, r: nat)
    requires IsRadix(r)
    ensures ParseRadix(ToRadix(n, r), r) == Some(n)
    decreases n
  {
    if n < r {
      DigitRoundTrip(n);
    } else {
      var s := ToRadix(n, r);
      var h := ToRadix(n / r, r);
      assert s == h + [DigitChar(n % r)];
      assert s[..|s| - 1] == h;
      DivideByRadix(n, r);
      DigitRoundTrip(n % r);
      ParseToRadix(n / r, r);
      assert ParseRadix(s, r) == Some((n / r) * r + n % r);
    }
  }

  /** So distinct numbers have distinct renderings. */
  lemma ToRadixInjective(a: nat, b: nat, r: nat)
    requires IsRadix(r)
    requires ToRadix(a, r) == ToRadix(b, r)
    ensures a == b
  {
    ParseToRadix(a, r);
    ParseToRadix(b, r);
  }

  /** The integer a request value denotes when it is compared with an INTEGER id
      column: a Number or a string whose text is the canonical decimal rendering. */
  function DecimalId(text: string): (r: Option<nat>)
    ensures r.Some? ==> ToRadix(r.value, 10) == text
  {
    match ParseRadix(text, 10)
    case None => None
    case Some(n) => if ToRadix(n, 10) == text then Some(n) else None
  }

  lemma DecimalIdOfRendering(n: nat)
    ensures DecimalId(ToRadix(n, 10)) == Some(n)
  {
    ParseToRadix(n, 10);
  }
}
