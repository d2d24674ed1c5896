/**
 * The JavaScript string primitives the table renderer is built from:
 * `repeat`, `padEnd`, `substring(0, n)`, `Array.prototype.join` and the
 * decimal rendering of a count in a template literal.  Lengths count
 * characters.
 */
module Text {

  function Max(a: int, b: int): int { if a >= b then a else b }

  function Min(a: int, b: int): int { if a <= b then a else b }

  /** Every character of `s` is `c`. */
  predicate AllAre(s: string, c: char)
  {
    forall i :: 0 <= i < |s| ==> s[i] == c
  }

  /** Every character of `s` is a decimal digit. */
  predicate AllDigits(s: string)
  {
    forall i :: 0 <= i < |s| ==> '0' <= s[i] <= '9'
  }

  /** `c.repeat(n)` for a one-character string `c`. */
  function Repeat(c: char, n: nat): (r: string)
    ensures |r| == n
    ensures AllAre(r, c)
  {
    seq(n, _ => c)
  }

  /** `s.padEnd(n)`: pads with spaces on the right up to `n`, never truncates. */
  function PadEnd(s: string, n: nat): (r: string)
    ensures |r| == Max(|s|, n)
  {
    if |s| >= n then s else s + Repeat(' ', n - |s|)
  }

  /** A padded string starts with the original and continues with spaces only. */
  lemma PadEndContent(s: string, n: nat)
    ensures PadEnd(s, n)[..|s|] == s
    ensures AllAre(PadEnd(s, n)[|s|..], ' ')
  {
  }

  /** `s.substring(0, n)`: the first `n` characters, or all of `s` if it is shorter. */
  function Prefix(s: string, n: nat): (r: string)
    ensures |r| == Min(|s|, n)
    ensures r == s[..|r|]
  {
    if |s| <= n then s else s[..n]
  }

  /** The lengths of the parts, in order. */
  function Lengths(parts: seq<string>): (ls: seq<nat>)
    ensures |ls| == |parts|
    ensures forall i :: 0 <= i < |parts| ==> ls[i] == |parts[i]|
  {
    seq(|parts|, i requires 0 <= i < |parts| => |parts[i]|)
  }

  function Sum(ls: seq<nat>): nat
  {
    if ls == [] then 0 else ls[0] + Sum(ls[1..])
  }

  /**
   * Where the `j`-th of a list of segments with lengths `ls` starts once they
   * are joined with a separator of length `gap`.
   */
  function Offset(ls: seq<nat>, gap: nat, j: nat): nat
    requires j <= |ls|
  {
    if j == 0 then 0 else ls[0] + gap + Offset(ls[1..], gap, j - 1)
  }

  /** The length of segments with lengths `ls` joined by a separator of length `gap`. */
  function JoinedLength(ls: seq<nat>, gap: nat): nat
  {
    if |ls| == 0 then 0
    else if |ls| == 1 then ls[0]
    else ls[0] + gap + JoinedLength(ls[1..], gap)
  }

  /** A join is as long as its segments together plus one separator between each two. */
  lemma {:induction false} JoinedLengthIsSum(ls: seq<nat>, gap: nat)
    requires ls != []
    ensures JoinedLength(ls, gap) == Sum(ls) + (|ls| - 1) * gap
  {
    if |ls| > 1 {
      JoinedLengthIsSum(ls[1..], gap);
      assert (|ls| - 1) * gap == gap + (|ls| - 2) * gap;
    }
  }

  /** `parts.join(sep)`. */
  function Join(parts: seq<string>, sep: string): string
  {
    if |parts| == 0 then ""
    else if |parts| == 1 then parts[0]
    else parts[0] + sep + Join(parts[1..], sep)
  }

  /** The length of a join, from the lengths of its parts. */
  lemma {:induction false} JoinLength(parts: seq<string>, sep: string)
    ensures |Join(parts, sep)| == JoinedLength(Lengths(parts), |sep|)
  {
    if |parts| > 1 {
      JoinLength(parts[1..], sep);
      assert Lengths(parts[1..]) == Lengths(parts)[1..];
    }
  }

  lemma {:induction false} OffsetStep(ls: seq<nat>, gap: nat, j: nat)
    requires j < |ls|
    ensures Offset(ls, gap, j + 1) == Offset(ls, gap, j) + ls[j] + gap
  {
    if j > 0 {
      OffsetStep(ls[1..], gap, j - 1);
    }
  }

  /** Slicing past a prefix is slicing the rest. */
  lemma SliceAfter(head: string, tail: string, a: nat, b: nat)
    requires a <= b <= |tail|
    ensures (head + tail)[|head| + a..|head| + b] == tail[a..b]
  {
  }

  /** Where the `j`-th part starts in `Join(parts, sep)`. */
  function Start(parts: seq<string>, sep: string, j: nat): nat
    requires j <= |parts|
  {
    if j == 0 then 0 else |parts[0]| + |sep| + Start(parts[1..], sep, j - 1)
  }

  lemma {:induction false} StartIsOffset(parts: seq<string>, sep: string, j: nat)
    requires j <= |parts|
    ensures Start(parts, sep, j) == Offset(Lengths(parts), |sep|, j)
  {
    if j > 0 {
      StartIsOffset(parts[1..], sep, j - 1);
      assert Lengths(parts[1..]) == Lengths(parts)[1..];
    }
  }

  /** Every part, and the separator after it, ends within the join. */
  lemma {:induction false} JoinBounds(parts: seq<string>, sep: string, j: nat)
    requires j < |parts|
    ensures Start(parts, sep, j) + |parts[j]| <= |Join(parts, sep)|
    ensures j + 1 < |parts| ==> Start(parts, sep, j) + |parts[j]| + |sep| <= |Join(parts, sep)|
  {
    if j > 0 && |parts| > 1 {
      JoinBounds(parts[1..], sep, j - 1);
    }
  }

  /** Each part of a join sits at its start. */
  lemma {:induction false} JoinSegment(parts: seq<string>, sep: string, j: nat)
    requires j < |parts|
    ensures Start(parts, sep, j) + |parts[j]| <= |Join(parts, sep)|
    ensures Join(parts, sep)[Start(parts, sep, j)..Start(parts, sep, j) + |parts[j]|] == parts[j]
  {
    JoinBounds(parts, sep, j);
    if |parts| > 1 {
      var rest, head := parts[1..], parts[0] + sep;
      var tail := Join(rest, sep);
      assert Join(parts, sep) == head + tail;
      if j > 0 {
        JoinSegment(rest, sep, j - 1);
        var o := Start(rest, sep, j - 1);
        assert parts[j] == rest[j - 1];
        SliceAfter(head, tail, o, o + |parts[j]|);
      }
    }
  }

  /** Every part of a join but the last is followed by the separator. */
  lemma {:induction false} JoinSeparator(parts: seq<string>, sep: string, j: nat)
    requires j + 1 < |parts|
    ensures Start(parts, sep, j) + |parts[j]| + |sep| <= |Join(parts, sep)|
    ensures Join(parts, sep)[Start(parts, sep, j) + |parts[j]|..Start(parts, sep, j) + |parts[j]| + |sep|] == sep
  {
    JoinBounds(parts, sep, j);
    var rest, head := parts[1..], parts[0] + sep;
    var tail := Join(rest, sep);
    assert Join(parts, sep) == head + tail;
    if j > 0 {
      JoinSeparator(rest, sep, j - 1);
      var o := Start(rest, sep, j - 1);
      assert parts[j] == rest[j - 1];
      SliceAfter(head, tail, o + |parts[j]|, o + |parts[j]| + |sep|);
    }
  }

  /**
   * Part `j` of a join whose parts have lengths `ls` starts after the parts
   * before it and a separator after each.
   */
  lemma JoinPartAt(parts: seq<string>, ls: seq<nat>, sep: string, j: nat)
    requires Lengths(parts) == ls && j < |parts|
    ensures var s := Offset(ls, |sep|, j);
            s + ls[j] <= |Join(parts, sep)| && Join(parts, sep)[s..s + ls[j]] == parts[j]
  {
    StartIsOffset(parts, sep, j);
    JoinSegment(parts, sep, j);
  }

  /** The separator after part `j` of a join, where every part but the last has one. */
  lemma JoinSeparatorAt(parts: seq<string>, ls: seq<nat>, sep: string, j: nat)
    requires Lengths(parts) == ls && j + 1 < |parts|
    ensures var e := Offset(ls, |sep|, j) + ls[j];
            e + |sep| <= |Join(parts, sep)| && Join(parts, sep)[e..e + |sep|] == sep
  {
    StartIsOffset(parts, sep, j);
    JoinSeparator(parts, sep, j);
  }

  /** Joining segments that are each at least as long, and one strictly longer, gives a longer line. */
  lemma {:induction false} LongerSegmentsLongerJoin(ls: seq<nat>, ms: seq<nat>, gap: nat)
    requires |ls| == |ms|
    requires forall i :: 0 <= i < |ls| ==> ls[i] >= ms[i]
    ensures JoinedLength(ls, gap) >= JoinedLength(ms, gap)
    ensures (exists i :: 0 <= i < |ls| && ls[i] > ms[i]) ==> JoinedLength(ls, gap) > JoinedLength(ms, gap)
  {
    if |ls| > 1 {
      LongerSegmentsLongerJoin(ls[1..], ms[1..], gap);
      if exists i :: 0 <= i < |ls| && ls[i] > ms[i] {
        var i :| 0 <= i < |ls| && ls[i] > ms[i];
        if i > 0 {
          assert ls[1..][i - 1] > ms[1..][i - 1];
        }
      }
    }
  }

  /** The character for a decimal digit. */
  function Digit(d: nat): (c: char)
    requires d < 10
    ensures '0' <= c <= '9'
    ensures c as int - '0' as int == d
  {
    ('0' as int + d) as char
  }

  /** The decimal numeral of `n`, as a template literal renders a count. */
  function Decimal(n: nat): string
  {
    if n < 10 then [Digit(n)] else Decimal(n / 10) + [Digit(n % 10)]
  }

  /** Numerals are non-empty strings of digits with no leading zero. */
  lemma {:induction false} DecimalDigits(n: nat)
    ensures |Decimal(n)| >= 1
    ensures AllDigits(Decimal(n))
    ensures Decimal(n)[0] == '0' ==> n == 0
  {
    if n >= 10 {
      DecimalDigits(n / 10);
      assert Decimal(n)[0] == Decimal(n / 10)[0];
    }
  }

  /** The value of a string of decimal digits: the inverse of Decimal. */
  function ParseDecimal(s: string): nat
    requires AllDigits(s)
  {
    if s == [] then 0
    else ParseDecimal(s[..|s| - 1]) * 10 + (s[|s| - 1] as int - '0' as int)
  }

  lemma {:induction false} DecimalRoundTrip(n: nat)
    ensures AllDigits(Decimal(n)) && ParseDecimal(Decimal(n)) == n
  {
    DecimalDigits(n);
    if n >= 10 {
      DecimalRoundTrip(n / 10);
      var r := Decimal(n);
      assert r[..|r| - 1] == Decimal(n / 10);
    }
  }
}
