/**
 * Decimal text for integers and money, as the system's runtimes produce and read it:
 * `Number.prototype.toString`, `parseInt(s, 10)`, `toFixed(2)` of an amount in cents,
 * and Python's zero-padded `%05d` formatting.
 */
module Decimal {
  import opened Common

  predicate IsDigit(c: char) { '0' <= c <= '9' }

  predicate AllDigits(s: string) { forall i :: 0 <= i < |s| ==> IsDigit(s[i]) }

  function DigitValue(c: char): nat
    requires IsDigit(c)
  {
    c as int - '0' as int
  }

  function DigitChar(d: nat): (c: char)
    requires d < 10
    ensures IsDigit(c) && DigitValue(c) == d
  {
    (d + '0' as int) as char
  }

  /** Value of a run of decimal digits; leading zeros are allowed. */
  function DigitsValue(s: string): nat
    requires AllDigits(s)
  {
    if s == [] then 0 else DigitsValue(s[..|s| - 1]) * 10 + DigitValue(s[|s| - 1])
  }

  /** Decimal text of a natural number, without leading zeros (`n.toString()`, `str(n)`). */
  function NatToString(n: nat): (s: string)
    ensures |s| > 0 && AllDigits(s)
    ensures n > 0 ==> s[0] != '0'
    decreases n
  {
    if n < 10 then [DigitChar(n)] else NatToString(n / 10) + [DigitChar(n % 10)]
  }

  /** Reading back the text of a number gives the number. */
  lemma {:induction false} NatToStringRoundTrip(n: nat)
    ensures DigitsValue(NatToString(n)) == n
  {
    if n >= 10 {
      var s := NatToString(n);
      assert s[..|s| - 1] == NatToString(n / 10);
      NatToStringRoundTrip(n / 10);
    }
  }

  /** Distinct numbers have distinct texts, so comparing ids as strings is comparing ids. */
  lemma NatToStringInjective(a: nat, b: nat)
    ensures NatToString(a) == NatToString(b) <==> a == b
  {
    NatToStringRoundTrip(a);
    NatToStringRoundTrip(b);
  }

  /** Decimal text of any integer, with a leading '-' when negative (`n.toString()`). */
  function IntToString(n: int): (s: string)
    ensures |s| > 0 && (IsDigit(s[0]) || s[0] == '-')
  {
    if n < 0 then "-" + NatToString(-n) else NatToString(n)
  }

  function Zeros(k: nat): (s: string)
    ensures |s| == k && AllDigits(s)
    ensures forall i :: 0 <= i < k ==> s[i] == '0'
  {
    seq(k, _ => '0')
  }

  lemma {:induction false} ZerosValue(k: nat)
    ensures DigitsValue(Zeros(k)) == 0
  {
    if k > 0 {
      assert Zeros(k)[..k - 1] == Zeros(k - 1);
      ZerosValue(k - 1);
    }
  }

  /** Leading zeros do not change the value of a digit run. */
  lemma {:induction false} LeadingZerosValue(k: nat, t: string)
    requires AllDigits(t)
    ensures AllDigits(Zeros(k) + t) && DigitsValue(Zeros(k) + t) == DigitsValue(t)
  {
    var u := Zeros(k) + t;
    assert AllDigits(u) by {
      forall i | 0 <= i < |u| ensures IsDigit(u[i]) {
        if i < k { assert u[i] == Zeros(k)[i]; } else { assert u[i] == t[i - k]; }
      }
    }
    if t == [] {
      assert u == Zeros(k);
      ZerosValue(k);
    } else {
      assert u[..|u| - 1] == Zeros(k) + t[..|t| - 1];
      LeadingZerosValue(k, t[..|t| - 1]);
    }
  }

  /**
   * Python's `f"{n:0{width}d}"` for a natural number: the digits of n, padded on the
   * left with zeros to at least `width` characters; never truncated.
   */
  function ZeroPadded(n: nat, width: nat): string {
    var d := NatToString(n);
    if |d| >= width then d else Zeros(width - |d|) + d
  }

  /** The padded text is all digits, reads back as n, and is as long as n's text or `width`. */
  lemma ZeroPaddedDigits(n: nat, width: nat)
    ensures AllDigits(ZeroPadded(n, width)) && DigitsValue(ZeroPadded(n, width)) == n
    ensures |ZeroPadded(n, width)| == if |NatToString(n)| >= width then |NatToString(n)| else width
  {
    var d := NatToString(n);
    NatToStringRoundTrip(n);
    if |d| < width {
      LeadingZerosValue(width - |d|, d);
    }
  }

  /** The whitespace JavaScript's `parseInt` skips before the number. */
  predicate IsJsSpace(c: char) {
    c == ' ' || c == '\t' || c == '\n' || c == '\r' || c as int == 0x0B || c as int == 0x0C
    || c as int == 0xA0 || c as int == 0xFEFF || c as int == 0x2028 || c as int == 0x2029
  }

  function TrimStart(s: string): (t: string)
    ensures |t| <= |s| && t == s[|s| - |t|..]
    ensures t != [] ==> !IsJsSpace(t[0])
    ensures forall i :: 0 <= i < |s| - |t| ==> IsJsSpace(s[i])
  {
    if s != [] && IsJsSpace(s[0]) then TrimStart(s[1..]) else s
  }

  /** The longest prefix of s made of decimal digits. */
  function DigitRun(s: string): (d: string)
    ensures |d| <= |s| && d == s[..|d|] && AllDigits(d)
    ensures |d| < |s| ==> !IsDigit(s[|d|])
  {
    if s != [] && IsDigit(s[0]) then [s[0]] + DigitRun(s[1..]) else []
  }

  /**
   * JavaScript's `parseInt(s, 10)`: skip leading whitespace, read an optional sign, then the
   * longest run of digits; `None` is NaN (no digit at all). Trailing text is ignored.
   */
  function ParseInt(s: string): Option<int>
  {
    var t := TrimStart(s);
    var negative := t != [] && t[0] == '-';
    var body := if t != [] && (t[0] == '-' || t[0] == '+') then t[1..] else t;
    var d := DigitRun(body);
    var v: int := if d == [] then 0 else DigitsValue(d);
    if d == [] then None
    else if negative then Some(-v)
    else Some(v)
  }

  lemma DigitRunOfDigits(s: string)
    requires AllDigits(s)
    ensures DigitRun(s) == s
  {
  }

  /** `parseInt(n.toString(), 10)` gives n back, for every integer n. */
  lemma ParseIntOfIntToString(n: int)
    ensures ParseInt(IntToString(n)) == Some(n)
  {
    var s := IntToString(n);
    assert TrimStart(s) == s;
    var m: nat := if n < 0 then -n else n;
    var digits := NatToString(m);
    if n < 0 {
      assert s[1..] == digits;
    }
    DigitRunOfDigits(digits);
    NatToStringRoundTrip(m);
  }

  /** Text with no digit at all parses to NaN. */
  lemma ParseIntWithoutDigits(s: string)
    requires forall i :: 0 <= i < |s| ==> !IsDigit(s[i])
    ensures ParseInt(s) == None
  {
    var t := TrimStart(s);
    var body := if t != [] && (t[0] == '-' || t[0] == '+') then t[1..] else t;
    assert body == s[|s| - |body|..];
    assert forall i :: 0 <= i < |body| ==> !IsDigit(body[i]);
  }

  /**
   * `(c / 100).toFixed(2)` for an amount of c cents: an optional '-', the whole units,
   * a '.', then exactly two digits.
   */
  function FormatCents(c: int): (s: string)
    ensures |s| >= 4 && s[|s| - 3] == '.'
  {
    var m: nat := if c < 0 then -c else c;
    (if c < 0 then "-" else "") + NatToString(m / 100) + "." + [DigitChar(m % 100 / 10), DigitChar(m % 10)]
  }

  /**
   * `parseFloat` of a string in the form `toFixed(2)` writes, in cents; `None` for any other
   * form.
   */
  function ParseCents(s: string): Option<int>
  {
    var negative := s != [] && s[0] == '-';
    var body := if negative then s[1..] else s;
    if |body| < 4 || body[|body| - 3] != '.' then None
    else
      var whole := body[..|body| - 3];
      var fraction := body[|body| - 2..];
      if !AllDigits(whole) || !AllDigits(fraction) then None
      else
        var m: int := DigitsValue(whole) * 100 + DigitsValue(fraction);
        Some(if negative then -m else m)
  }

  /** Formatting an amount with two decimals loses nothing: parsing it back gives the cents. */
  lemma FormatCentsRoundTrip(c: int)
    ensures ParseCents(FormatCents(c)) == Some(c)
  {
    var m: nat := if c < 0 then -c else c;
    var units := NatToString(m / 100);
    var cents := [DigitChar(m % 100 / 10), DigitChar(m % 10)];
    var body := units + "." + cents;
    var s := FormatCents(c);
    assert s == (if c < 0 then "-" else "") + body;
    if c < 0 {
      assert s[1..] == body;
    } else {
      assert units[0] != '-';
      assert s[0] != '-';
    }
    assert body[..|body| - 3] == units;
    assert body[|body| - 2..] == cents;
    assert cents[..1][..0] == [];
    assert DigitsValue(cents[..1]) == m % 100 / 10;
    assert DigitsValue(cents) == m % 100 / 10 * 10 + m % 10;
    assert m % 100 / 10 * 10 + m % 10 == m % 100;
    NatToStringRoundTrip(m / 100);
    assert DigitsValue(units) * 100 + DigitsValue(cents) == m;
    var parsedBody := if c < 0 then s[1..] else s;
    assert parsedBody == body;
    assert |body| >= 4 && body[|body| - 3] == '.';
    assert AllDigits(units) && AllDigits(cents);
    assert (s != [] && s[0] == '-') == (c < 0);
  }
}
