/** `getZendeskIdFromIssue`: the ticket id is `parseInt` of the title's text before its first `-`, or 0. */
module ZendeskId {
  import opened Wrappers
  import opened JsString
  import opened JsParseInt
  import opened Context

  /** `parseInt(p)`, with NaN read as 0 as the script does. */
  function OrZero(r: Option<int>): int {
    if r.Some? then r.value else 0
  }

  function GetZendeskId(issue: Issue): (id: int)
    ensures id >= 0
    ensures issue.title.None? || issue.title == Some("") ==> id == 0
  {
    match issue.title
    case None => 0
    case Some(title) =>
      if title == "" then 0
      else OrZero(ParseInt(FirstSegment(title, '-')))
  }

  /** For a title `p + rest` with `p` the text before the first `-`, the id is what `p` parses to. */
  lemma {:induction false} ZendeskIdOfPrefix(p: string, rest: string)
    requires '-' !in p
    requires |rest| == 0 || rest[0] == '-'
    ensures GetZendeskId(Issue(Some(p + rest))) == OrZero(ParseInt(p))
  {
    FirstSegmentOf(p, rest, '-');
    if p + rest == "" {
      assert p == "";
      ParseIntNoDigits("", "", "");
    }
  }

  lemma WhiteSpaceHasNoDash(ws: string)
    requires AllWhiteSpace(ws)
    ensures '-' !in ws
  {
  }

  lemma DigitsHaveNoDash(ds: string, radix: Radix)
    requires AllDigits(ds, radix)
    ensures '-' !in ds
  {
  }

  /** A `-`-free head of the title is kept whole; the cut happens in what follows it. */
  lemma {:induction false} ZendeskIdOfHead(head: string, tail: string)
    requires '-' !in head
    ensures GetZendeskId(Issue(Some(head + tail))) == OrZero(ParseInt(head + FirstSegment(tail, '-')))
    ensures var f := FirstSegment(tail, '-'); |f| > 0 ==> f[0] == tail[0]
  {
    FirstSegmentAppend(head, tail, '-');
    if head + tail == "" {
      ParseIntNoDigits("", "", "");
      assert head + FirstSegment(tail, '-') == "" + "" + "";
    }
  }

  /** A title led by white space, an optional `+` and decimal digits yields those digits' value. */
  lemma {:induction false} ZendeskIdDecimal(ws: string, sign: string, ds: string, tail: string)
    requires AllWhiteSpace(ws) && (sign == "" || sign == "+")
    requires |ds| > 0 && AllDigits(ds, Decimal)
    requires |tail| == 0 || !IsDigit(tail[0], Decimal)
    requires !(ds == "0" && |tail| > 0 && (tail[0] == 'x' || tail[0] == 'X'))
    ensures GetZendeskId(Issue(Some(ws + sign + ds + tail))) == DigitsValue(ds, Decimal)
  {
    var head := ws + sign + ds;
    WhiteSpaceHasNoDash(ws);
    DigitsHaveNoDash(ds, Decimal);
    ZendeskIdOfHead(head, tail);
    var f := FirstSegment(tail, '-');
    assert head + f == ws + sign + ds + f;
    ParseIntDecimal(ws, sign, ds, f);
  }

  /** A title whose text before the first `-` holds no digits after white space and an optional `+` yields 0. */
  lemma {:induction false} ZendeskIdNoDigits(ws: string, sign: string, tail: string)
    requires AllWhiteSpace(ws) && (sign == "" || sign == "+")
    requires |tail| == 0 || !IsDigit(tail[0], Decimal)
    requires sign == "" && |tail| > 0 ==> !IsJsWhiteSpace(tail[0]) && tail[0] != '+'
    ensures GetZendeskId(Issue(Some(ws + sign + tail))) == 0
  {
    var head := ws + sign;
    WhiteSpaceHasNoDash(ws);
    ZendeskIdOfHead(head, tail);
    var f := FirstSegment(tail, '-');
    assert head + f == ws + sign + f;
    ParseIntNoDigits(ws, sign, f);
  }

  /** A `0x`/`0X` lead switches the reading to hexadecimal. */
  lemma {:induction false} ZendeskIdHex(ws: string, prefix: string, ds: string, tail: string)
    requires AllWhiteSpace(ws)
    requires prefix == "0x" || prefix == "0X"
    requires |ds| > 0 && AllDigits(ds, Hex)
    requires |tail| == 0 || !IsDigit(tail[0], Hex)
    ensures GetZendeskId(Issue(Some(ws + prefix + ds + tail))) == DigitsValue(ds, Hex)
  {
    var head := ws + prefix + ds;
    WhiteSpaceHasNoDash(ws);
    DigitsHaveNoDash(ds, Hex);
    ZendeskIdOfHead(head, tail);
    var f := FirstSegment(tail, '-');
    var t := ws + "" + prefix + ds + f;
    assert ws + "" == ws;
    assert head + f == t;
    ParseIntHex(ws, "", prefix, ds, f);
    assert ParseInt(t) == Some(DigitsValue(ds, Hex));
  }

  /** A title written as `<n>-<anything>` yields `n`. */
  lemma {:induction false} ZendeskIdRoundTrip(n: nat, rest: string)
    ensures GetZendeskId(Issue(Some(DecimalString(n) + "-" + rest))) == n
  {
    var ds := DecimalString(n);
    assert '-' !in ds by {
      forall i | 0 <= i < |ds| ensures ds[i] != '-' {
        assert IsDigit(ds[i], Decimal);
      }
    }
    assert DecimalString(n) + "-" + rest == ds + ("-" + rest);
    ZendeskIdOfPrefix(ds, "-" + rest);
    assert ds + "" == ds;
    ParseIntDecimalString(n, "");
  }
}
