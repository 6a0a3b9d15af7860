/** Integer helpers: `Math.max`, decimal rendering of integers and the decimal
    subset of JavaScript's `parseInt`. */
module Numeric {
  import opened Wrappers

  /** `Number.MAX_SAFE_INTEGER`, 2^53 - 1. */
  const MaxSafeInteger: int := 9007199254740991

  function Max(a: int, b: int): int {
    if a >= b then a else b
  }

  function Min(a: int, b: int): int {
    if a <= b then a else b
  }

  predicate IsDigit(c: char) {
    '0' <= c <= '9'
  }

  predicate AllDigits(s: string) {
    forall i :: 0 <= i < |s| ==> IsDigit(s[i])
  }

  function DigitValue(c: char): nat
    requires IsDigit(c)
  {
    (c as int) - ('0' as int)
  }

  function DigitChar(d: nat): (c: char)
    requires d < 10
    ensures IsDigit(c) && DigitValue(c) == d
  {
    (('0' as int) + d) as char
  }

  /** Decimal rendering of a natural number: most significant digit first, no
      leading zero (this is what a template literal does with an integer). */
  function Decimal(n: nat): (s: string)
    ensures 1 <= |s| && AllDigits(s)
    ensures |s| > 1 ==> s[0] != '0'
  {
    if n < 10 then [DigitChar(n)] else Decimal(n / 10) + [DigitChar(n % 10)]
  }

  /** Decimal rendering of any integer, with a leading '-' for negatives. */
  function Render(n: int): string {
    if n < 0 then "-" + Decimal(-n) else Decimal(n)
  }

  /** Value of a run of decimal digits, read left to right as `v * 10 + d`. */
  function DigitsValue(s: string): nat
    requires AllDigits(s)
  {
    if s == [] then 0 else DigitsValue(s[..|s| - 1]) * 10 + DigitValue(s[|s| - 1])
  }

  function Pow10(k: nat): nat {
    if k == 0 then 1 else 10 * Pow10(k - 1)
  }

  /** Reading back a rendered number gives the number. */
  lemma {:induction false} DigitsValueDecimal(n: nat)
    ensures DigitsValue(Decimal(n)) == n
  {
    if n >= 10 {
      var s := Decimal(n / 10) + [DigitChar(n % 10)];
      assert s[..|s| - 1] == Decimal(n / 10);
      DigitsValueDecimal(n / 10);
    }
  }

  /** A number has exactly k decimal digits when it lies in [10^(k-1), 10^k)
      (or below 10 for k = 1). */
  lemma {:induction false} DecimalLength(n: nat, k: nat)
    requires 1 <= k
    requires (if k == 1 then 0 else Pow10(k - 1)) <= n < Pow10(k)
    ensures |Decimal(n)| == k
  {
    if k > 1 {
      assert Pow10(k - 1) == 10 * Pow10(k - 2);
      assert n >= 10;
      assert (if k - 1 == 1 then 0 else Pow10(k - 2)) <= n / 10 < Pow10(k - 1);
      DecimalLength(n / 10, k - 1);
    }
  }

  // ---------------------------------------------------------------------------
  // parseInt (radix 10)

  /** The white space that `parseInt` skips before the number: tab, line
      tabulation, form feed, the byte order mark, the line terminators (line
      feed, carriage return, U+2028, U+2029) and every space separator of
      Unicode (U+0020, U+00A0, U+1680, U+2000 to U+200A, U+202F, U+205F,
      U+3000). */
  predicate IsJsSpace(c: char) {
    || c == '\t' || c == '\U{000B}' || c == '\U{000C}' || c == '\U{FEFF}'
    || c == '\n' || c == '\r' || c == '\U{2028}' || c == '\U{2029}'
    || c == ' ' || c == '\U{00A0}' || c == '\U{1680}' || ('\U{2000}' <= c <= '\U{200A}')
    || c == '\U{202F}' || c == '\U{205F}' || c == '\U{3000}'
  }

  function TrimStart(s: string): (r: string)
    ensures |r| <= |s| && r == s[|s| - |r|..]
    ensures r == [] || !IsJsSpace(r[0])
  {
    if s != [] && IsJsSpace(s[0]) then TrimStart(s[1..]) else s
  }

  /** The longest prefix of `s` made of decimal digits. */
  function DigitPrefix(s: string): (r: string)
    ensures |r| <= |s| && r == s[..|r|] && AllDigits(r)
    ensures |r| < |s| ==> !IsDigit(s[|r|])
  {
    if s != [] && IsDigit(s[0]) then [s[0]] + DigitPrefix(s[1..]) else []
  }

  /** `parseInt(s)` for decimal input: skip leading white space, take an
      optional sign, then the longest run of digits; `None` is `NaN` (no
      digit where the number should start). Trailing text is ignored. */
  function ParseInt(s: string): Option<int> {
    ParseSigned(TrimStart(s))
  }

  function ParseSigned(t: string): Option<int> {
    if t != [] && t[0] == '-' then
      match ParseDigits(t[1..])
      case None => None
      case Some(v) => Some(-v)
    else if t != [] && t[0] == '+' then ParseDigits(t[1..])
    else ParseDigits(t)
  }

  function ParseDigits(body: string): Option<int> {
    var digits := DigitPrefix(body);
    if digits == [] then None else Some(DigitsValue(digits))
  }

  /** `parseInt(s) || 0`, and equally `isNaN(parseInt(s)) ? 0 : parseInt(s)`:
      NaN (and -0) become 0. */
  function ParseIntOrZero(s: string): int {
    ParseInt(s).GetOr(0)
  }

  lemma {:induction false} DigitPrefixOfDigits(s: string, tail: string)
    requires AllDigits(s)
    requires tail == [] || !IsDigit(tail[0])
    ensures DigitPrefix(s + tail) == s
  {
    if s != [] {
      assert (s + tail)[1..] == s[1..] + tail;
      DigitPrefixOfDigits(s[1..], tail);
    } else {
      assert s + tail == tail;
    }
  }

  lemma ParseDigitsOf(d: string, tail: string)
    requires d != [] && AllDigits(d)
    requires tail == [] || !IsDigit(tail[0])
    ensures ParseDigits(d + tail) == Some(DigitsValue(d) as int)
  {
    DigitPrefixOfDigits(d, tail);
  }

  lemma ParseIntNoSpace(t: string)
    requires t != [] && !IsJsSpace(t[0])
    ensures ParseInt(t) == ParseSigned(t)
  {
  }

  /** Leading white space is skipped: it does not change what `parseInt`
      reads. */
  lemma {:induction false} ParseIntSkipsSpace(w: string, t: string)
    requires forall i :: 0 <= i < |w| ==> IsJsSpace(w[i])
    ensures ParseInt(w + t) == ParseInt(t)
  {
    if w != [] {
      assert (w + t)[0] == w[0];
      assert (w + t)[1..] == w[1..] + t;
      ParseIntSkipsSpace(w[1..], t);
    } else {
      assert w + t == t;
    }
  }

  /** An ideographic space before the digits is skipped like any other. */
  lemma IdeographicSpaceSkipped()
    ensures ParseInt("\U{3000}7") == Some(7)
  {
    var w, d := ['\U{3000}'], ['7'];
    assert w + d == "\U{3000}7";
    assert IsJsSpace(w[0]);
    ParseIntSkipsSpace(w, d);
    SingleDigit(d);
  }

  lemma SingleDigit(d: string)
    requires d == ['7']
    ensures ParseInt(d) == Some(7)
  {
    assert d == d + [];
    assert DigitsValue(d) == 7 by {
      assert d[..0] == [];
    }
    ParseIntDigits(d, []);
  }

  lemma ParseIntDigits(d: string, tail: string)
    requires d != [] && AllDigits(d)
    requires tail == [] || !IsDigit(tail[0])
    ensures ParseInt(d + tail) == Some(DigitsValue(d) as int)
  {
    var t := d + tail;
    assert t[0] == d[0];
    ParseIntNoSpace(t);
    ParseDigitsOf(d, tail);
  }

  /** A leading minus sign negates what the digits after it read as. */
  lemma ParseSignedMinus(body: string)
    ensures ParseSigned("-" + body) == match ParseDigits(body)
      case None => None
      case Some(v) => Some(-v)
  {
    assert ("-" + body)[1..] == body;
  }

  lemma ParseIntMinusDigits(d: string, tail: string)
    requires d != [] && AllDigits(d)
    requires tail == [] || !IsDigit(tail[0])
    ensures ParseInt("-" + (d + tail)) == Some(-(DigitsValue(d) as int))
  {
    var body := d + tail;
    assert ("-" + body)[0] == '-';
    ParseIntNoSpace("-" + body);
    ParseSignedMinus(body);
    ParseDigitsOf(d, tail);
  }

  /** A leading plus sign is dropped: the digits after it read as they are. */
  lemma ParseIntPlusDigits(d: string, tail: string)
    requires d != [] && AllDigits(d)
    requires tail == [] || !IsDigit(tail[0])
    ensures ParseInt("+" + (d + tail)) == Some(DigitsValue(d) as int)
  {
    var body := d + tail;
    assert ("+" + body)[0] == '+';
    assert ("+" + body)[1..] == body;
    ParseIntNoSpace("+" + body);
    ParseDigitsOf(d, tail);
  }

  /** The text `parseInt` reads its digits from: leading white space skipped
      and at most one sign dropped. */
  function NumberBody(s: string): string {
    var t := TrimStart(s);
    if t != [] && (t[0] == '-' || t[0] == '+') then t[1..] else t
  }

  /** `parseInt` is NaN exactly when no digit stands where the number must
      start, after the white space and the sign: "", "+", ".5", "-.5" and
      "--1" are all NaN. */
  lemma ParseIntNone(s: string)
    ensures ParseInt(s).None? <==> NumberBody(s) == [] || !IsDigit(NumberBody(s)[0])
  {
  }

  /** A fraction without its leading zero is NaN, so a number field holding
      ".5" or "-.5" counts as 0. */
  lemma FractionIsNaN()
    ensures ParseInt(".5") == None && ParseInt("-.5") == None
    ensures ParseIntOrZero(".5") == 0 && ParseIntOrZero("-.5") == 0
  {
    var f, g := ['.', '5'], ['-', '.', '5'];
    assert f == ".5" && g == "-.5";
    assert !IsJsSpace(f[0]) && !IsJsSpace(g[0]);
    assert TrimStart(f) == f && TrimStart(g) == g;
    assert NumberBody(f) == f && NumberBody(g) == g[1..] && g[1..] == f;
    ParseIntNone(f);
    ParseIntNone(g);
  }

  /** `parseInt` reads back every rendered integer, whatever non-digit text
      follows it ("12abc" is 12). */
  lemma ParseIntRender(n: int, tail: string)
    requires tail == [] || !IsDigit(tail[0])
    ensures ParseInt(Render(n) + tail) == Some(n)
    ensures ParseIntOrZero(Render(n) + tail) == n
  {
    ParseIntRenderSome(n, tail);
  }

  lemma ParseIntRenderSome(n: int, tail: string)
    requires tail == [] || !IsDigit(tail[0])
    ensures ParseInt(Render(n) + tail) == Some(n)
  {
    if n < 0 {
      ParseIntRenderNegative(-n, tail);
    } else {
      DigitsValueDecimal(n);
      ParseIntDigits(Decimal(n), tail);
    }
  }

  lemma ParseIntRenderNegative(m: nat, tail: string)
    requires m > 0
    requires tail == [] || !IsDigit(tail[0])
    ensures ParseInt(Render(-(m as int)) + tail) == Some(-(m as int))
  {
    var d := Decimal(m);
    var t := Render(-(m as int)) + tail;
    assert t == "-" + (d + tail) by {
      assert Render(-(m as int)) == "-" + d;
    }
    DigitsValueDecimal(m);
    ParseIntMinusDigits(d, tail);
  }

  /** Text with no decimal digit at all is NaN for `parseInt`, so it counts as 0. */
  lemma NoDigitsIsZero(s: string)
    requires forall i :: 0 <= i < |s| ==> !IsDigit(s[i])
    ensures ParseInt(s) == None
    ensures ParseIntOrZero(s) == 0
  {
    var t := TrimStart(s);
    var body := if t != [] && (t[0] == '-' || t[0] == '+') then t[1..] else t;
    assert body != [] ==> body[0] in s;
  }
}
