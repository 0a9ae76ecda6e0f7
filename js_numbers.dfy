/**
 * The number handling the page objects and tests rely on: JavaScript's
 * `parseInt` (used to read the cart count), `Number.prototype.toString` on
 * non-negative integers (used to build expected badge texts), and
 * currency-formatted prices read as integer cents (used to order prices).
 */
module JsNumbers {
  import opened Wrappers

  /** The outcome of `parseInt`: an integer or `NaN`. */
  datatype ParsedInt = Num(value: int) | NaN

  predicate IsDecimalDigit(c: char) {
    '0' <= c <= '9'
  }

  /** The digit `c` stands for in base `radix` (2..36), as `parseInt` reads it. */
  function DigitValue(c: char, radix: nat): (r: Option<nat>)
    ensures r.Some? ==> r.value < radix
    ensures radix == 10 ==> (r.Some? <==> IsDecimalDigit(c))
  {
    var v: int :=
      if '0' <= c <= '9' then c as int - '0' as int
      else if 'a' <= c <= 'z' then c as int - 'a' as int + 10
      else if 'A' <= c <= 'Z' then c as int - 'A' as int + 10
      else radix;
    if 0 <= v < radix then Some(v) else None
  }

  /** The decimal digit character for `d`. */
  function DigitChar(d: nat): (c: char)
    requires d < 10
    ensures IsDecimalDigit(c) && DigitValue(c, 10) == Some(d)
  {
    (('0' as int) + d) as char
  }

  /** Every character of `s` is a digit in base `radix`. */
  predicate AllDigits(s: string, radix: nat) {
    forall i :: 0 <= i < |s| ==> DigitValue(s[i], radix).Some?
  }

  /** The value of a digit string, most significant digit first. */
  function DigitsValue(s: string, radix: nat): nat
    requires AllDigits(s, radix)
  {
    if |s| == 0 then 0
    else DigitsValue(s[..|s| - 1], radix) * radix + DigitValue(s[|s| - 1], radix).value
  }

  /** `n.toString()`: the shortest decimal numeral for `n`. */
  function DecimalString(n: nat): (s: string)
    ensures |s| > 0 && AllDigits(s, 10)
    ensures |s| > 1 ==> s[0] != '0'
  {
    if n < 10 then [DigitChar(n)]
    else DecimalString(n / 10) + [DigitChar(n % 10)]
  }

  /** The longest prefix of `s` made of digits in base `radix`. */
  function DigitPrefix(s: string, radix: nat): (r: string)
    ensures r <= s && AllDigits(r, radix)
    ensures |r| < |s| ==> DigitValue(s[|r|], radix).None?
  {
    if |s| == 0 || DigitValue(s[0], radix).None? then []
    else [s[0]] + DigitPrefix(s[1..], radix)
  }

  /** The characters `parseInt` skips before the numeral: ECMAScript's WhiteSpace and LineTerminator. */
  predicate IsJsWhitespace(c: char) {
    c == '\t' || c == '\n' || c == '\U{B}' || c == '\U{C}' || c == '\r' || c == ' ' ||
    c == '\U{A0}' || c == '\U{1680}' || ('\U{2000}' <= c <= '\U{200A}') ||
    c == '\U{2028}' || c == '\U{2029}' || c == '\U{202F}' || c == '\U{205F}' ||
    c == '\U{3000}' || c == '\U{FEFF}'
  }

  /** `s` without its leading whitespace. */
  function TrimStart(s: string): (r: string)
    ensures |r| <= |s| && r == s[|s| - |r|..]
    ensures forall i :: 0 <= i < |s| - |r| ==> IsJsWhitespace(s[i])
    ensures |r| > 0 ==> !IsJsWhitespace(r[0])
  {
    if |s| > 0 && IsJsWhitespace(s[0]) then TrimStart(s[1..]) else s
  }

  /**
   * `parseInt(s)` with no radix argument: skip leading whitespace, read an
   * optional sign, switch to base 16 after a `0x`/`0X` prefix, then read the
   * longest run of digits; no digits at all gives `NaN`.
   */
  function ParseInt(s: string): ParsedInt {
    ParseSigned(TrimStart(s))
  }

  /**
   * The outcomes of `parseInt` by its first character: text of whitespace
   * only is `NaN`; a decimal digit gives a non-negative number, or `NaN` only
   * after an empty `0x` prefix; any other character except a sign is `NaN`.
   */
  lemma ParseIntCases(s: string)
    ensures (forall i :: 0 <= i < |s| ==> IsJsWhitespace(s[i])) ==> ParseInt(s) == NaN
    ensures |s| > 0 && IsDecimalDigit(s[0]) && ParseInt(s).Num? ==> ParseInt(s).value >= 0
    ensures |s| > 0 && IsDecimalDigit(s[0]) && ParseInt(s).NaN? ==> |s| >= 2 && s[0] == '0' && (s[1] == 'x' || s[1] == 'X')
    ensures |s| > 0 && !IsJsWhitespace(s[0]) && !IsDecimalDigit(s[0]) && s[0] != '-' && s[0] != '+' ==> ParseInt(s) == NaN
  {
    if forall i :: 0 <= i < |s| ==> IsJsWhitespace(s[i]) {
      var t := TrimStart(s);
      assert ParseSigned(t) == ParseDigits(t, 10);
    } else if |s| > 0 && !IsJsWhitespace(s[0]) {
      NoLeadingWhitespace(s);
      if IsDecimalDigit(s[0]) {
        assert ParseSigned(s) == ParseUnsigned(s);
        if !(|s| >= 2 && s[0] == '0' && (s[1] == 'x' || s[1] == 'X')) {
          assert DigitPrefix(s, 10) != [];
        }
      } else if s[0] != '-' && s[0] != '+' {
        assert ParseSigned(s) == ParseDigits(s, 10);
        assert DigitPrefix(s, 10) == [];
      }
    }
  }

  /** The sign step of `parseInt`, on text that starts after the whitespace. */
  function ParseSigned(t: string): ParsedInt {
    if |t| > 0 && t[0] == '-' then Negate(ParseUnsigned(t[1..]))
    else if |t| > 0 && t[0] == '+' then ParseUnsigned(t[1..])
    else ParseUnsigned(t)
  }

  function Negate(r: ParsedInt): ParsedInt {
    if r.Num? then Num(-r.value) else NaN
  }

  /** The radix step of `parseInt`: a `0x`/`0X` prefix selects base 16, anything else base 10. */
  function ParseUnsigned(u: string): ParsedInt {
    if |u| >= 2 && u[0] == '0' && (u[1] == 'x' || u[1] == 'X') then ParseDigits(u[2..], 16)
    else ParseDigits(u, 10)
  }

  /** The digit step of `parseInt`: the value of the longest digit prefix, `NaN` if it is empty. */
  function ParseDigits(w: string, radix: nat): ParsedInt {
    var digits := DigitPrefix(w, radix);
    if |digits| == 0 then NaN else Num(DigitsValue(digits, radix))
  }

  lemma {:induction false} DecimalStringValue(n: nat)
    ensures DigitsValue(DecimalString(n), 10) == n
  {
    var s := DecimalString(n);
    if n < 10 {
      assert s[..0] == [];
    } else {
      assert s[..|s| - 1] == DecimalString(n / 10);
      DecimalStringValue(n / 10);
    }
  }

  lemma {:induction false} DigitPrefixOfDigits(s: string, rest: string, radix: nat)
    requires AllDigits(s, radix)
    requires |rest| == 0 || DigitValue(rest[0], radix).None?
    ensures DigitPrefix(s + rest, radix) == s
  {
    if |s| == 0 {
      assert s + rest == rest;
    } else {
      assert (s + rest)[0] == s[0];
      assert (s + rest)[1..] == s[1..] + rest;
      DigitPrefixOfDigits(s[1..], rest, radix);
    }
  }

  /** Reading back a count written with `toString()` gives the count. */
  lemma ParseIntDecimalString(n: nat)
    ensures ParseInt(DecimalString(n)) == Num(n)
  {
    ParseIntDecimalPrefix(n, "");
    assert DecimalString(n) + "" == DecimalString(n);
  }

  /**
   * `parseInt` stops at the first character that is not a digit, except that
   * a lone `0` followed by `x` or `X` switches to hexadecimal.
   */
  lemma ParseIntDecimalPrefix(n: nat, rest: string)
    requires |rest| == 0 || !IsDecimalDigit(rest[0])
    requires n == 0 ==> |rest| == 0 || (rest[0] != 'x' && rest[0] != 'X')
    ensures ParseInt(DecimalString(n) + rest) == Num(n)
  {
    var d := DecimalString(n);
    var s := d + rest;
    assert s[0] == d[0];
    NoHexPrefix(n, rest);
    ParseIntFromDigit(s);
    DigitPrefixOfDigits(d, rest, 10);
    DecimalStringValue(n);
  }

  /** Text that starts with a decimal digit and no `0x` prefix is read as base-10 digits. */
  lemma ParseIntFromDigit(s: string)
    requires |s| > 0 && IsDecimalDigit(s[0])
    requires !(|s| >= 2 && s[0] == '0' && (s[1] == 'x' || s[1] == 'X'))
    ensures ParseInt(s) == ParseDigits(s, 10)
  {
    DigitIsNotWhitespace(s[0]);
    assert TrimStart(s) == s;
    assert ParseSigned(s) == ParseUnsigned(s);
  }

  lemma DigitIsNotWhitespace(c: char)
    requires IsDecimalDigit(c)
    ensures !IsJsWhitespace(c)
  {
  }

  /** A decimal numeral followed by `rest` never begins with `0x` unless the numeral is a lone `0`. */
  lemma NoHexPrefix(n: nat, rest: string)
    requires |rest| == 0 || !IsDecimalDigit(rest[0])
    requires n == 0 ==> |rest| == 0 || (rest[0] != 'x' && rest[0] != 'X')
    ensures var s := DecimalString(n) + rest; !(|s| >= 2 && s[0] == '0' && (s[1] == 'x' || s[1] == 'X'))
  {
    var d := DecimalString(n);
    var s := d + rest;
    if |d| >= 2 {
      assert s[1] == d[1] && IsDecimalDigit(d[1]);
    } else if |s| >= 2 && s[0] == '0' {
      assert s[1] == rest[0];
      DecimalStringValue(n);
      assert d[..0] == [];
      assert n == 0;
    }
  }

  /** A leading minus sign negates the value read. */
  lemma ParseIntNegative(n: nat)
    ensures ParseInt("-" + DecimalString(n)) == Num(-(n as int))
  {
    var d := DecimalString(n);
    var s := "-" + d;
    assert s[0] == '-' && s[1..] == d;
    NoLeadingWhitespace(s);
    DigitIsNotWhitespace(d[0]);
    NoLeadingWhitespace(d);
    ParseIntDecimalString(n);
  }

  /** Text that does not start with whitespace is left as it is by the trimming step. */
  lemma NoLeadingWhitespace(s: string)
    requires |s| > 0 && !IsJsWhitespace(s[0])
    ensures TrimStart(s) == s
  {
  }

  /** Leading whitespace does not change what `parseInt` reads. */
  lemma {:induction false} ParseIntSkipsWhitespace(ws: string, s: string)
    requires forall i :: 0 <= i < |ws| ==> IsJsWhitespace(ws[i])
    ensures ParseInt(ws + s) == ParseInt(s)
  {
    TrimStartSkips(ws, s);
  }

  lemma {:induction false} TrimStartSkips(ws: string, s: string)
    requires forall i :: 0 <= i < |ws| ==> IsJsWhitespace(ws[i])
    ensures TrimStart(ws + s) == TrimStart(s)
  {
    if |ws| > 0 {
      assert (ws + s)[0] == ws[0];
      assert (ws + s)[1..] == ws[1..] + s;
      TrimStartSkips(ws[1..], s);
    } else {
      assert ws + s == s;
    }
  }

  /** `s.replace('$', '')`: the first dollar sign removed, the rest kept. */
  function StripDollar(s: string): (r: string)
    ensures '$' !in s ==> r == s
    ensures '$' in s ==> |r| == |s| - 1
  {
    if |s| == 0 then s
    else if s[0] == '$' then s[1..]
    else [s[0]] + StripDollar(s[1..])
  }

  /** `k` is the position of the first dollar sign in `s`. */
  ghost predicate FirstDollarAt(s: string, k: int) {
    0 <= k < |s| && s[k] == '$' && forall j :: 0 <= j < k ==> s[j] != '$'
  }

  /** `replace` with a string pattern removes the FIRST occurrence only: everything before and after it is kept in order. */
  lemma {:induction false} StripDollarRemovesFirst(s: string)
    ensures '$' in s ==> exists k :: FirstDollarAt(s, k) && StripDollar(s) == s[..k] + s[k + 1..]
  {
    if |s| > 0 && '$' in s {
      if s[0] == '$' {
        assert FirstDollarAt(s, 0);
        assert s[..0] + s[1..] == s[1..];
      } else {
        var t := s[1..];
        assert '$' in t by {
          var i :| 0 <= i < |s| && s[i] == '$';
          assert t[i - 1] == '$';
        }
        StripDollarRemovesFirst(t);
        var k :| FirstDollarAt(t, k) && StripDollar(t) == t[..k] + t[k + 1..];
        FirstDollarShifts(s, k);
      }
    }
  }

  /** One step of the induction: a leading non-dollar character moves the first dollar sign one place right. */
  lemma FirstDollarShifts(s: string, k: int)
    requires |s| > 0 && s[0] != '$'
    requires FirstDollarAt(s[1..], k) && StripDollar(s[1..]) == s[1..][..k] + s[1..][k + 1..]
    ensures FirstDollarAt(s, k + 1) && StripDollar(s) == s[..k + 1] + s[k + 2..]
  {
    FirstDollarMoves(s, k);
    ShiftedRemoval(s, k);
  }

  lemma FirstDollarMoves(s: string, k: int)
    requires |s| > 0 && s[0] != '$' && FirstDollarAt(s[1..], k)
    ensures FirstDollarAt(s, k + 1)
  {
    forall j | 0 <= j < k + 1 ensures s[j] != '$' {
      if j > 0 { assert s[j] == s[1..][j - 1]; }
    }
  }

  lemma ShiftedRemoval(s: string, k: nat)
    requires 0 <= k < |s| - 1
    ensures [s[0]] + (s[1..][..k] + s[1..][k + 1..]) == s[..k + 1] + s[k + 2..]
  {
    assert s[..k + 1] == [s[0]] + s[1..][..k];
    assert s[k + 2..] == s[1..][k + 1..];
  }

  /** The amount in cents of a `d+.dd` numeral; `None` for any other text. */
  function ParseCents(t: string): (r: Option<nat>)
    ensures r.Some? ==> |t| >= 4 && t[|t| - 3] == '.'
  {
    if |t| >= 4 && t[|t| - 3] == '.' && AllDigits(t[..|t| - 3], 10) && AllDigits(t[|t| - 2..], 10)
    then Some(DigitsValue(t[..|t| - 3], 10) * 100 + DigitsValue(t[|t| - 2..], 10))
    else None
  }

  /** The price a displayed `$d.dd` text stands for, in cents. */
  function PriceCents(p: string): Option<nat> {
    ParseCents(StripDollar(p))
  }

  /** The storefront's display form of an amount in cents: `$`, whole units, `.`, two digits. */
  function FormatPrice(c: nat): string {
    "$" + DecimalString(c / 100) + "." + [DigitChar(c % 100 / 10), DigitChar(c % 100 % 10)]
  }

  /** A displayed price is canonical when it is exactly the display form of its own amount. */
  predicate CanonicalPrice(p: string) {
    PriceCents(p).Some? && FormatPrice(PriceCents(p).value) == p
  }

  /** Reading a displayed price back gives the amount it was formatted from. */
  lemma PriceRoundTrip(c: nat)
    ensures PriceCents(FormatPrice(c)) == Some(c)
    ensures CanonicalPrice(FormatPrice(c))
  {
    var d := DecimalString(c / 100);
    var cents := [DigitChar(c % 100 / 10), DigitChar(c % 100 % 10)];
    assert FormatPrice(c) == "$" + (d + "." + cents);
    StripLeadingDollar(d + "." + cents);
    ParseCentsOf(d, cents);
    TwoDigitsValue(c % 100 / 10, c % 100 % 10);
    DecimalStringValue(c / 100);
    CentsSplit(c);
  }

  /** A leading dollar sign is the one removed. */
  lemma StripLeadingDollar(t: string)
    ensures StripDollar("$" + t) == t
  {
    assert ("$" + t)[1..] == t;
  }

  /** A numeral, a point and two digits read as that many cents. */
  lemma ParseCentsOf(d: string, cents: string)
    requires |d| > 0 && AllDigits(d, 10) && |cents| == 2 && AllDigits(cents, 10)
    ensures ParseCents(d + "." + cents) == Some(DigitsValue(d, 10) * 100 + DigitsValue(cents, 10))
  {
    PointSplits(d, cents);
  }

  /** Where the point sits in `d.cents`, and what lies on either side of it. */
  lemma PointSplits(d: string, cents: string)
    requires |cents| == 2
    ensures var t := d + "." + cents;
      |t| == |d| + 3 && t[|t| - 3] == '.' && t[..|t| - 3] == d && t[|t| - 2..] == cents
  {
    var dot := d + ".";
    var t := dot + cents;
    assert t[..|dot|] == dot && t[|dot|..] == cents;
    assert dot[..|d|] == d;
  }

  /** The value of a two-digit numeral. */
  lemma TwoDigitsValue(hi: nat, lo: nat)
    requires hi < 10 && lo < 10
    ensures DigitsValue([DigitChar(hi), DigitChar(lo)], 10) == hi * 10 + lo
  {
    var s, first := [DigitChar(hi), DigitChar(lo)], [DigitChar(hi)];
    assert DigitsValue(first, 10) == hi by {
      assert first[..0] == [];
      assert DigitsValue(first, 10) == DigitsValue([], 10) * 10 + hi;
    }
    assert s[..1] == first;
    assert DigitsValue(s, 10) == DigitsValue(first, 10) * 10 + lo;
  }

  /** An amount is its whole units, tens of cents and cents put back together. */
  lemma CentsSplit(c: nat)
    ensures (c / 100) * 100 + (c % 100 / 10) * 10 + c % 100 % 10 == c
  {
    var r := c % 100;
    assert c == (c / 100) * 100 + r;
    assert r == (r / 10) * 10 + r % 10;
  }
}
