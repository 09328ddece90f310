/** The string operations of ECMAScript that the claim code relies on:
    `trim`, the `\s` and `\d` classes, `split`/`join`, `includes`,
    `toLowerCase` (on ASCII letters), `padStart` and number rendering. */
module Text {

  /** ECMAScript WhiteSpace and LineTerminator code points (the `\s` class,
      and what `trim` removes). */
  predicate IsSpace(c: char)
  {
    || c == ' ' || c == '\t' || c == '\n' || c == '\r'
    || c == '\U{000B}' || c == '\U{000C}' || c == '\U{00A0}' || c == '\U{1680}'
    || ('\U{2000}' <= c <= '\U{200A}')
    || c == '\U{2028}' || c == '\U{2029}' || c == '\U{202F}' || c == '\U{205F}'
    || c == '\U{3000}' || c == '\U{FEFF}'
  }

  /** The code points `.` does not match in a regular expression. */
  predicate IsLineTerminator(c: char)
  {
    c == '\n' || c == '\r' || c == '\U{2028}' || c == '\U{2029}'
  }

  /** The `\d` class: ASCII digits only. */
  predicate IsDigit(c: char)
  {
    '0' <= c <= '9'
  }

  predicate AllSpace(s: string)
  {
    forall i :: 0 <= i < |s| ==> IsSpace(s[i])
  }

  function TrimStart(s: string): (r: string)
    ensures |r| <= |s| && r == s[|s| - |r|..]
    ensures r == [] || !IsSpace(r[0])
    ensures AllSpace(s[..|s| - |r|])
  {
    if s != [] && IsSpace(s[0]) then TrimStart(s[1..]) else s
  }

  function TrimEnd(s: string): (r: string)
    ensures |r| <= |s| && r == s[..|r|]
    ensures r == [] || !IsSpace(r[|r| - 1])
    ensures AllSpace(s[|r|..])
  {
    if s != [] && IsSpace(s[|s| - 1]) then TrimEnd(s[..|s| - 1]) else s
  }

  lemma AllSpaceSplit(s: string, k: nat)
    requires k <= |s|
    ensures AllSpace(s) <==> AllSpace(s[..k]) && AllSpace(s[k..])
  {
    if AllSpace(s[..k]) && AllSpace(s[k..]) {
      forall i | 0 <= i < |s| ensures IsSpace(s[i]) {
        if i < k { assert s[i] == s[..k][i]; } else { assert s[i] == s[k..][i - k]; }
      }
    }
  }

  /** `s.trim()`: the longest infix of `s` with no white space at either end. */
  function Trim(s: string): (r: string)
    ensures |r| <= |s|
    ensures r == [] || (!IsSpace(r[0]) && !IsSpace(r[|r| - 1]))
    ensures r == [] <==> AllSpace(s)
    ensures (s == [] || (!IsSpace(s[0]) && !IsSpace(s[|s| - 1]))) ==> r == s
  {
    var t := TrimStart(s);
    AllSpaceSplit(s, |s| - |t|);
    var r := TrimEnd(t);
    AllSpaceSplit(t, |r|);
    assert r != [] ==> r[0] == t[0];
    r
  }

  /** Index of the first `c` in `s`, or -1 (`s.indexOf(c)`). */
  function IndexOf(s: string, c: char): (r: int)
    ensures -1 <= r < |s|
    ensures r >= 0 ==> s[r] == c && c !in s[..r]
    ensures r < 0 ==> c !in s
  {
    if s == [] then -1
    else if s[0] == c then 0
    else
      var k := IndexOf(s[1..], c);
      assert s == [s[0]] + s[1..];
      if k < 0 then -1 else k + 1
  }

  /** Index of the last `c` in `s`, or -1 (`s.lastIndexOf(c)`). */
  function LastIndexOf(s: string, c: char): (r: int)
    ensures -1 <= r < |s|
    ensures r >= 0 ==> s[r] == c && c !in s[r + 1..]
    ensures r < 0 ==> c !in s
  {
    if s == [] then -1
    else if s[|s| - 1] == c then |s| - 1
    else
      var k := LastIndexOf(s[..|s| - 1], c);
      assert s == s[..|s| - 1] + [s[|s| - 1]];
      k
  }

  /** `s.split(c)` for a one-character separator. */
  function Split(s: string, c: char): (parts: seq<string>)
    ensures |parts| >= 1
    ensures forall i :: 0 <= i < |parts| ==> c !in parts[i]
    decreases |s|
  {
    var i := IndexOf(s, c);
    if i < 0 then [s]
    else
      var rest := Split(s[i + 1..], c);
      PiecesFree(s[..i], rest, c);
      [s[..i]] + rest
  }

  /** Putting a piece without `c` in front of pieces without `c`. */
  lemma PiecesFree(a: string, rest: seq<string>, c: char)
    requires c !in a && forall i :: 0 <= i < |rest| ==> c !in rest[i]
    ensures forall i :: 0 <= i < |[a] + rest| ==> c !in ([a] + rest)[i]
  {
    forall i | 0 <= i < |[a] + rest| ensures c !in ([a] + rest)[i] {
      if i > 0 {
        assert ([a] + rest)[i] == rest[i - 1];
      }
    }
  }

  /** With `c` present, the first piece is the text before its first
      occurrence and the second starts right after it. */
  lemma SplitHead(s: string, c: char)
    requires c in s
    ensures var parts := Split(s, c);
      |parts| >= 2 && parts[0] == s[..IndexOf(s, c)] && parts[1] == Split(s[IndexOf(s, c) + 1..], c)[0]
  {
  }

  /** Splitting a string that starts with a separator-free piece and a
      separator yields that piece, then the pieces of the rest. */
  lemma SplitCons(a: string, c: char, b: string)
    requires c !in a
    ensures Split(a + [c] + b, c) == [a] + Split(b, c)
  {
    var s := a + [c] + b;
    assert s[|a|] == c && s[..|a|] == a && s[|a| + 1..] == b;
    assert forall j :: 0 <= j < |a| ==> s[j] == a[j];
  }

  /** `parts.join(sep)`. */
  function Join(parts: seq<string>, sep: string): string
  {
    if |parts| == 0 then ""
    else if |parts| == 1 then parts[0]
    else parts[0] + sep + Join(parts[1..], sep)
  }

  /** Splitting on a character and joining with it gives the string back. */
  lemma {:induction false} JoinSplit(s: string, c: char)
    ensures Join(Split(s, c), [c]) == s
    decreases |s|
  {
    var i := IndexOf(s, c);
    if i >= 0 {
      var tail := Split(s[i + 1..], c);
      JoinSplit(s[i + 1..], c);
      assert Split(s, c) == [s[..i]] + tail;
      assert s == s[..i] + [c] + s[i + 1..];
    }
  }

  /** Removes one trailing carriage return. */
  function DropCR(t: string): string
  {
    if t != [] && t[|t| - 1] == '\r' then t[..|t| - 1] else t
  }

  /** `s.split(/\r?\n/)`: split at every newline, dropping a carriage return
      that immediately precedes it. */
  function SplitLines(s: string): (lines: seq<string>)
    ensures |lines| == |Split(s, '\n')| >= 1
    ensures forall i :: 0 <= i < |lines| ==> '\n' !in lines[i]
  {
    var p := Split(s, '\n');
    seq(|p|, i requires 0 <= i < |p| => if i < |p| - 1 then DropCR(p[i]) else p[i])
  }

  /** A text without a newline is one line. */
  lemma SplitLinesSingle(s: string)
    requires '\n' !in s
    ensures SplitLines(s) == [s]
  {
    assert Split(s, '\n') == [s];
  }

  /** Without carriage returns, the lines are exactly the newline-separated pieces. */
  lemma SplitLinesNoCR(s: string)
    requires '\r' !in s
    ensures Join(SplitLines(s), "\n") == s
  {
    var p := Split(s, '\n');
    JoinSplit(s, '\n');
    SplitNoNewChar(s, '\n', '\r');
    assert SplitLines(s) == p;
  }

  /** Pieces of a split contain no character the string lacks. */
  lemma {:induction false} SplitNoNewChar(s: string, c: char, d: char)
    requires d !in s
    ensures forall i :: 0 <= i < |Split(s, c)| ==> d !in Split(s, c)[i]
    decreases |s|
  {
    var i := IndexOf(s, c);
    if i >= 0 {
      SplitNoNewChar(s[i + 1..], c, d);
      assert forall x :: x in s[..i] ==> x in s;
    }
  }

  /** `s.includes(w)`. */
  predicate Contains(s: string, w: string)
    decreases |s|
  {
    |w| <= |s| && (s[..|w|] == w || Contains(s[1..], w))
  }

  /** `w` occurs in `s` starting at index `i`. */
  predicate OccursAt(s: string, w: string, i: int)
  {
    0 <= i <= |s| - |w| && s[i..i + |w|] == w
  }

  /** `Contains` holds exactly when `w` occurs at some position of `s`. */
  lemma {:induction false} ContainsAt(s: string, w: string)
    ensures Contains(s, w) <==> exists i :: OccursAt(s, w, i)
    decreases |s|
  {
    if |w| <= |s| && s != [] {
      ContainsAt(s[1..], w);
      if s[..|w|] == w {
        assert OccursAt(s, w, 0);
      }
      if exists i :: OccursAt(s, w, i) {
        var i :| OccursAt(s, w, i);
        if i > 0 {
          assert s[1..][i - 1..i - 1 + |w|] == s[i..i + |w|];
          assert OccursAt(s[1..], w, i - 1);
        }
      }
      if Contains(s[1..], w) {
        var i :| OccursAt(s[1..], w, i);
        assert s[i + 1..i + 1 + |w|] == s[1..][i..i + |w|];
        assert OccursAt(s, w, i + 1);
      }
    } else if |w| <= |s| {
      assert OccursAt(s, w, 0);
    }
  }

  function LowerChar(c: char): char
  {
    if 'A' <= c <= 'Z' then (c as int + 32) as char else c
  }

  /** `s.toLowerCase()` on the ASCII letters. */
  function AsciiLower(s: string): (r: string)
    ensures |r| == |s|
    ensures forall i :: 0 <= i < |s| ==> r[i] == LowerChar(s[i])
  {
    seq(|s|, i requires 0 <= i < |s| => LowerChar(s[i]))
  }

  function DigitChar(d: nat): char
    requires d < 10
  {
    ('0' as int + d) as char
  }

  /** Decimal rendering of a natural number (`${n}`). */
  function NatToString(n: nat): (r: string)
    ensures |r| >= 1 && (n >= 10 ==> |r| >= 2)
    ensures forall i :: 0 <= i < |r| ==> IsDigit(r[i])
  {
    if n < 10 then [DigitChar(n)] else NatToString(n / 10) + [DigitChar(n % 10)]
  }

  /** Different numbers render differently. */
  lemma {:induction false} NatToStringInjective(a: nat, b: nat)
    requires NatToString(a) == NatToString(b)
    ensures a == b
  {
    var sa, sb := NatToString(a), NatToString(b);
    if a >= 10 && b >= 10 {
      assert sa[|sa| - 1] == sb[|sb| - 1];
      assert a % 10 == b % 10;
      assert sa[..|sa| - 1] == NatToString(a / 10);
      assert sb[..|sb| - 1] == NatToString(b / 10);
      NatToStringInjective(a / 10, b / 10);
    } else if a < 10 && b < 10 {
      assert sa[0] == sb[0];
    }
  }

  /** `s.padStart(2, '0')`. */
  function PadStart2(s: string): (r: string)
    ensures |r| == if |s| >= 2 then |s| else 2
    ensures |s| >= 2 ==> r == s
    ensures |s| < 2 ==> r == seq(2 - |s|, _ => '0') + s
  {
    if |s| >= 2 then s else if |s| == 1 then "0" + s else "00"
  }
}
