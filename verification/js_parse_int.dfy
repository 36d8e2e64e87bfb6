/**
  JavaScript's global `parseInt(string)` called without a radix, following the
  algorithm of section 19.2.5 of ECMA-262: skip leading white space, read an
  optional sign, strip a `0x`/`0X` prefix (switching to radix 16), then read the
  longest run of digits; no digits gives NaN, modelled as `None`. Values are
  unbounded integers; the IEEE-754 rounding of very long digit runs is not
  modelled, and neither is the distinction between `-0` and `0`.
 */
module JsParseInt {
  import opened Wrappers

  /** White space and line terminators, as stripped by the TrimString step. */
  predicate IsJsWhiteSpace(c: char) {
    || c == '\t' || c == '\n' || c == '\U{000B}' || c == '\U{000C}' || c == '\r'
    || c == ' ' || c == '\U{00A0}' || c == '\U{1680}'
    || ('\U{2000}' <= c <= '\U{200A}')
    || c == '\U{2028}' || c == '\U{2029}' || c == '\U{202F}' || c == '\U{205F}'
    || c == '\U{3000}' || c == '\U{FEFF}'
  }

  datatype Radix = Decimal | Hex

  function Base(radix: Radix): nat {
    match radix
    case Decimal => 10
    case Hex => 16
  }

  predicate IsDigit(c: char, radix: Radix) {
    match radix
    case Decimal => '0' <= c <= '9'
    case Hex => '0' <= c <= '9' || 'a' <= c <= 'f' || 'A' <= c <= 'F'
  }

  predicate AllDigits(s: string, radix: Radix) {
    forall i :: 0 <= i < |s| ==> IsDigit(s[i], radix)
  }

  predicate AllWhiteSpace(s: string) {
    forall i :: 0 <= i < |s| ==> IsJsWhiteSpace(s[i])
  }

  function DigitValue(c: char, radix: Radix): (d: nat)
    requires IsDigit(c, radix)
    ensures d < Base(radix)
  {
    if '0' <= c <= '9' then c as int - '0' as int
    else if 'a' <= c <= 'f' then c as int - 'a' as int + 10
    else c as int - 'A' as int + 10
  }

  /** The number a digit string denotes, most significant digit first. */
  function DigitsValue(ds: string, radix: Radix): nat
    requires AllDigits(ds, radix)
    decreases |ds|
  {
    if |ds| == 0 then 0
    else DigitsValue(ds[..|ds| - 1], radix) * Base(radix) + DigitValue(ds[|ds| - 1], radix)
  }

  /** Length of the longest white-space prefix of `s`. */
  function SpaceRun(s: string): (n: nat)
    ensures n <= |s|
    ensures AllWhiteSpace(s[..n])
    ensures n < |s| ==> !IsJsWhiteSpace(s[n])
    decreases |s|
  {
    if |s| == 0 || !IsJsWhiteSpace(s[0]) then 0
    else
      var n := 1 + SpaceRun(s[1..]);
      assert forall i :: 1 <= i < n ==> s[..n][i] == s[1..][..n - 1][i - 1];
      n
  }

  /** Length of the longest prefix of `s` made of digits of `radix`. */
  function DigitRun(s: string, radix: Radix): (n: nat)
    ensures n <= |s|
    ensures AllDigits(s[..n], radix)
    ensures n < |s| ==> !IsDigit(s[n], radix)
    decreases |s|
  {
    if |s| == 0 || !IsDigit(s[0], radix) then 0
    else
      var n := 1 + DigitRun(s[1..], radix);
      assert forall i :: 1 <= i < n ==> s[..n][i] == s[1..][..n - 1][i - 1];
      n
  }

  predicate IsHexPrefix(s: string) {
    |s| >= 2 && s[0] == '0' && (s[1] == 'x' || s[1] == 'X')
  }

  /** The sign step: the text after an optional leading `+` or `-`. */
  function AfterSign(t: string): string {
    if |t| > 0 && (t[0] == '+' || t[0] == '-') then t[1..] else t
  }

  /** The radix and digit steps on unsigned text: an optional `0x`/`0X`, then the longest digit run. */
  function ParseUnsigned(u: string): (r: Option<nat>)
    ensures r.None? <==> DigitRun(if IsHexPrefix(u) then u[2..] else u, if IsHexPrefix(u) then Hex else Decimal) == 0
  {
    var radix := if IsHexPrefix(u) then Hex else Decimal;
    var v := if IsHexPrefix(u) then u[2..] else u;
    var n := DigitRun(v, radix);
    if n == 0 then None else Some(DigitsValue(v[..n], radix))
  }

  /** `parseInt(s)`; `None` is NaN. */
  function ParseInt(s: string): (r: Option<int>)
    ensures '-' !in s ==> r.None? || r.value >= 0
  {
    var t := s[SpaceRun(s)..];
    match ParseUnsigned(AfterSign(t))
    case None => None
    case Some(m) =>
      if |t| > 0 && t[0] == '-' then
        assert s[SpaceRun(s)] == '-';
        Some(-(m as int))
      else Some(m)
  }

  predicate IsSign(sign: string) {
    sign == "" || sign == "+" || sign == "-"
  }

  function Signed(sign: string, m: nat): int {
    if sign == "-" then -(m as int) else m
  }

  /** The white-space run is exactly `ws` when what follows does not start with white space. */
  lemma {:induction false} SpaceRunOf(ws: string, t: string)
    requires AllWhiteSpace(ws)
    requires |t| == 0 || !IsJsWhiteSpace(t[0])
    ensures SpaceRun(ws + t) == |ws|
    decreases |ws|
  {
    if |ws| == 0 {
      assert ws + t == t;
    } else {
      assert (ws + t)[0] == ws[0];
      assert (ws + t)[1..] == ws[1..] + t;
      assert AllWhiteSpace(ws[1..]) by {
        forall i | 0 <= i < |ws[1..]| ensures IsJsWhiteSpace(ws[1..][i]) {
          assert ws[1..][i] == ws[i + 1];
        }
      }
      SpaceRunOf(ws[1..], t);
    }
  }

  /** The digit run is exactly `ds` when what follows is not a digit. */
  lemma {:induction false} DigitRunOf(ds: string, rest: string, radix: Radix)
    requires AllDigits(ds, radix)
    requires |rest| == 0 || !IsDigit(rest[0], radix)
    ensures DigitRun(ds + rest, radix) == |ds|
    ensures (ds + rest)[..|ds|] == ds
    decreases |ds|
  {
    if |ds| == 0 {
      assert ds + rest == rest;
    } else {
      assert (ds + rest)[0] == ds[0];
      assert (ds + rest)[1..] == ds[1..] + rest;
      assert AllDigits(ds[1..], radix) by {
        forall i | 0 <= i < |ds[1..]| ensures IsDigit(ds[1..][i], radix) {
          assert ds[1..][i] == ds[i + 1];
        }
      }
      DigitRunOf(ds[1..], rest, radix);
    }
  }

  /** White space and an explicit sign are peeled off before the unsigned steps. */
  lemma {:induction false} ParseIntSigned(ws: string, sign: string, u: string)
    requires AllWhiteSpace(ws) && IsSign(sign)
    requires sign == "" && |u| > 0 ==> !IsJsWhiteSpace(u[0]) && u[0] != '+' && u[0] != '-'
    ensures ParseInt(ws + sign + u) ==
      match ParseUnsigned(u)
      case None => None
      case Some(m) => Some(Signed(sign, m))
  {
    var s := ws + sign + u;
    assert s == ws + (sign + u);
    SpaceRunOf(ws, sign + u);
    assert s[|ws|..] == sign + u;
    assert AfterSign(sign + u) == u;
  }

  /** Decimal digits not preceded by `0x` read as their decimal value. */
  lemma {:induction false} ParseUnsignedDecimal(ds: string, rest: string)
    requires |ds| > 0 && AllDigits(ds, Decimal)
    requires |rest| == 0 || !IsDigit(rest[0], Decimal)
    requires !(ds == "0" && |rest| > 0 && (rest[0] == 'x' || rest[0] == 'X'))
    ensures ParseUnsigned(ds + rest) == Some(DigitsValue(ds, Decimal))
  {
    var u := ds + rest;
    if |ds| > 1 {
      assert u[1] == ds[1];
    } else if |rest| > 0 {
      assert u[1] == rest[0];
    }
    assert !IsHexPrefix(u);
    DigitRunOf(ds, rest, Decimal);
  }

  /** Hex digits after `0x` or `0X` read as their hexadecimal value. */
  lemma {:induction false} ParseUnsignedHex(prefix: string, ds: string, rest: string)
    requires prefix == "0x" || prefix == "0X"
    requires |ds| > 0 && AllDigits(ds, Hex)
    requires |rest| == 0 || !IsDigit(rest[0], Hex)
    ensures ParseUnsigned(prefix + ds + rest) == Some(DigitsValue(ds, Hex))
  {
    var u := prefix + ds + rest;
    assert IsHexPrefix(u);
    assert u[2..] == ds + rest;
    DigitRunOf(ds, rest, Hex);
  }

  /**
    A decimal reading: white space, an optional sign, then a maximal run of
    decimal digits that is not the `0` of a `0x` prefix.
   */
  lemma {:induction false} ParseIntDecimal(ws: string, sign: string, ds: string, rest: string)
    requires AllWhiteSpace(ws) && IsSign(sign)
    requires |ds| > 0 && AllDigits(ds, Decimal)
    requires |rest| == 0 || !IsDigit(rest[0], Decimal)
    requires !(ds == "0" && |rest| > 0 && (rest[0] == 'x' || rest[0] == 'X'))
    ensures ParseInt(ws + sign + ds + rest) == Some(Signed(sign, DigitsValue(ds, Decimal)))
  {
    assert ws + sign + ds + rest == ws + sign + (ds + rest);
    ParseUnsignedDecimal(ds, rest);
    ParseIntSigned(ws, sign, ds + rest);
  }

  /** A hexadecimal reading: white space, an optional sign, `0x` or `0X`, then a maximal run of hex digits. */
  lemma {:induction false} ParseIntHex(ws: string, sign: string, prefix: string, ds: string, rest: string)
    requires AllWhiteSpace(ws) && IsSign(sign)
    requires prefix == "0x" || prefix == "0X"
    requires |ds| > 0 && AllDigits(ds, Hex)
    requires |rest| == 0 || !IsDigit(rest[0], Hex)
    ensures ParseInt(ws + sign + prefix + ds + rest) == Some(Signed(sign, DigitsValue(ds, Hex)))
  {
    assert ws + sign + prefix + ds + rest == ws + sign + (prefix + ds + rest);
    ParseUnsignedHex(prefix, ds, rest);
    ParseIntSigned(ws, sign, prefix + ds + rest);
  }

  /**
    NaN: after the white space and the optional sign no decimal digit follows.
    Without a sign, what follows must not itself be white space or a sign.
   */
  lemma {:induction false} ParseIntNoDigits(ws: string, sign: string, rest: string)
    requires AllWhiteSpace(ws) && IsSign(sign)
    requires |rest| == 0 || !IsDigit(rest[0], Decimal)
    requires sign == "" && |rest| > 0 ==> !IsJsWhiteSpace(rest[0]) && rest[0] != '+' && rest[0] != '-'
    ensures ParseInt(ws + sign + rest) == None
  {
    assert !IsHexPrefix(rest);
    ParseIntSigned(ws, sign, rest);
  }

  /** NaN: a `0x` prefix with no hex digit after it reads nothing, not `0`. */
  lemma {:induction false} ParseIntEmptyHex(ws: string, sign: string, prefix: string, rest: string)
    requires AllWhiteSpace(ws) && IsSign(sign)
    requires prefix == "0x" || prefix == "0X"
    requires |rest| == 0 || !IsDigit(rest[0], Hex)
    ensures ParseInt(ws + sign + prefix + rest) == None
  {
    var u := prefix + rest;
    assert ws + sign + prefix + rest == ws + sign + u;
    assert IsHexPrefix(u) && u[2..] == rest;
    ParseIntSigned(ws, sign, u);
  }

  function DigitChar(d: nat): (c: char)
    requires d < 10
    ensures IsDigit(c, Decimal) && DigitValue(c, Decimal) == d
  {
    (('0' as int) + d) as char
  }

  /** `String(n)` for a non-negative integer: its shortest decimal numeral. */
  function DecimalString(n: nat): (s: string)
    ensures |s| > 0 && AllDigits(s, Decimal)
    ensures DigitsValue(s, Decimal) == n
    ensures n > 0 ==> s[0] != '0'
    ensures |s| > 1 ==> s[0] != '0'
    decreases n
  {
    if n < 10 then [DigitChar(n)]
    else
      var p := DecimalString(n / 10);
      var s := p + [DigitChar(n % 10)];
      assert s[..|s| - 1] == p;
      s
  }

  /** `parseInt(String(n))` is `n` for every non-negative integer `n`. */
  lemma {:induction false} ParseIntDecimalString(n: nat, rest: string)
    requires |rest| == 0 || (!IsDigit(rest[0], Decimal) && rest[0] != 'x' && rest[0] != 'X')
    ensures ParseInt(DecimalString(n) + rest) == Some(n)
  {
    var ds := DecimalString(n);
    assert "" + "" + ds + rest == ds + rest;
    ParseIntDecimal("", "", ds, rest);
  }
}
