/**
  The parts of JavaScript's string API the script relies on, for a one-character
  separator: `String.prototype.split`, `Array.prototype.join` (as its inverse),
  `parts[0]` and `parts.pop()`.
 */
module JsString {

  /** `s.split(sep)`: the pieces between separators, empty pieces included. */
  function Split(s: string, sep: char): (parts: seq<string>)
    ensures |parts| >= 1
    ensures forall i :: 0 <= i < |parts| ==> sep !in parts[i]
    decreases |s|
  {
    if |s| == 0 then [""]
    else
      var rest := Split(s[1..], sep);
      if s[0] == sep then [""] + rest
      else [[s[0]] + rest[0]] + rest[1..]
  }

  /** `parts.join(sep)`: the reference that `Split` inverts. */
  function Join(parts: seq<string>, sep: char): string
    decreases |parts|
  {
    if |parts| == 0 then ""
    else if |parts| == 1 then parts[0]
    else parts[0] + [sep] + Join(parts[1..], sep)
  }

  predicate IsPrefix(p: string, s: string) {
    |p| <= |s| && s[..|p|] == p
  }

  predicate IsSuffix(p: string, s: string) {
    |p| <= |s| && s[|s| - |p|..] == p
  }

  lemma {:induction false} JoinSnoc(parts: seq<string>, p: string, sep: char)
    requires |parts| >= 1
    ensures Join(parts + [p], sep) == Join(parts, sep) + [sep] + p
    decreases |parts|
  {
    if |parts| == 1 {
      assert parts + [p] == [parts[0], p];
      assert ([parts[0], p])[1..] == [p];
    } else {
      assert (parts + [p])[1..] == parts[1..] + [p];
      JoinSnoc(parts[1..], p, sep);
    }
  }

  /** Joining the pieces back with the separator gives the original string. */
  lemma {:induction false} JoinSplit(s: string, sep: char)
    ensures Join(Split(s, sep), sep) == s
    decreases |s|
  {
    if |s| > 0 {
      var rest := Split(s[1..], sep);
      JoinSplit(s[1..], sep);
      if s[0] == sep {
        assert ([""] + rest)[1..] == rest;
        assert s == [s[0]] + s[1..];
      } else {
        var parts := [[s[0]] + rest[0]] + rest[1..];
        if |rest| == 1 {
          assert s == [s[0]] + rest[0];
        } else {
          assert parts[1..] == rest[1..];
          assert Join(rest, sep) == rest[0] + [sep] + Join(rest[1..], sep);
          assert s == [s[0]] + s[1..];
        }
      }
    }
  }

  /** A string without the separator is a single piece. */
  lemma {:induction false} SplitNoSep(s: string, sep: char)
    requires sep !in s
    ensures Split(s, sep) == [s]
    decreases |s|
  {
    if |s| > 0 {
      assert sep !in s[1..] by {
        forall i | 0 <= i < |s[1..]| ensures s[1..][i] != sep {
          assert s[1..][i] == s[i + 1];
        }
      }
      SplitNoSep(s[1..], sep);
      assert s == [s[0]] + s[1..];
    }
  }

  /** A separator cuts the piece lists of its two sides apart. */
  lemma {:induction false} SplitAppend(a: string, b: string, sep: char)
    ensures Split(a + [sep] + b, sep) == Split(a, sep) + Split(b, sep)
    decreases |a|
  {
    var s := a + [sep] + b;
    if |a| == 0 {
      assert s[0] == sep;
      assert s[1..] == b;
    } else {
      assert s[0] == a[0];
      assert s[1..] == a[1..] + [sep] + b;
      SplitAppend(a[1..], b, sep);
      var ra := Split(a[1..], sep);
      var rb := Split(b, sep);
      if a[0] != sep {
        assert (ra + rb)[0] == ra[0];
        assert (ra + rb)[1..] == ra[1..] + rb;
      }
    }
  }

  /** Splitting a join of separator-free pieces gives the pieces back. */
  lemma {:induction false} SplitJoin(parts: seq<string>, sep: char)
    requires |parts| >= 1
    requires forall i :: 0 <= i < |parts| ==> sep !in parts[i]
    ensures Split(Join(parts, sep), sep) == parts
    decreases |parts|
  {
    SplitNoSep(parts[0], sep);
    if |parts| > 1 {
      SplitJoin(parts[1..], sep);
      SplitAppend(parts[0], Join(parts[1..], sep), sep);
      assert parts == [parts[0]] + parts[1..];
    }
  }

  /** `s.split(sep)[0]`: the text before the first separator. */
  function FirstSegment(s: string, sep: char): (first: string)
    ensures sep !in first
    ensures IsPrefix(first, s)
    ensures |first| < |s| ==> s[|first|] == sep
  {
    var parts := Split(s, sep);
    JoinSplit(s, sep);
    assert |parts| > 1 ==> s == parts[0] + ([sep] + Join(parts[1..], sep));
    parts[0]
  }

  /** `s.split(sep).pop()`: the text after the last separator. */
  function LastSegment(s: string, sep: char): (last: string)
    ensures sep !in last
    ensures IsSuffix(last, s)
    ensures |last| < |s| ==> s[|s| - |last| - 1] == sep
  {
    var parts := Split(s, sep);
    var n := |parts|;
    JoinSplit(s, sep);
    if n > 1 then
      assert parts == parts[..n - 1] + [parts[n - 1]];
      JoinSnoc(parts[..n - 1], parts[n - 1], sep);
      assert s == (Join(parts[..n - 1], sep) + [sep]) + parts[n - 1];
      parts[n - 1]
    else
      parts[n - 1]
  }

  /** The first piece is exactly the separator-free text up to the first separator. */
  lemma {:induction false} FirstSegmentOf(p: string, rest: string, sep: char)
    requires sep !in p
    requires |rest| == 0 || rest[0] == sep
    ensures FirstSegment(p + rest, sep) == p
  {
    SplitNoSep(p, sep);
    if |rest| == 0 {
      assert p + rest == p;
    } else {
      assert p + rest == p + [sep] + rest[1..];
      SplitAppend(p, rest[1..], sep);
    }
  }

  /** The last piece is exactly the separator-free text after the last separator. */
  lemma {:induction false} LastSegmentOf(prefix: string, last: string, sep: char)
    requires sep !in last
    requires |prefix| == 0 || prefix[|prefix| - 1] == sep
    ensures LastSegment(prefix + last, sep) == last
  {
    SplitNoSep(last, sep);
    if |prefix| == 0 {
      assert prefix + last == last;
    } else {
      var a := prefix[..|prefix| - 1];
      assert prefix + last == a + [sep] + last;
      SplitAppend(a, last, sep);
    }
  }

  /** A separator-free head does not move the first cut. */
  lemma FirstSegmentAppend(a: string, b: string, sep: char)
    requires sep !in a
    ensures FirstSegment(a + b, sep) == a + FirstSegment(b, sep)
  {
    var f := FirstSegment(b, sep);
    var tail := b[|f|..];
    assert b == f + tail;
    assert a + b == (a + f) + tail;
    assert sep !in a + f;
    FirstSegmentOf(a + f, tail, sep);
  }
}
