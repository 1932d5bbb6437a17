/**
 * The three Python `bytes` operations the front-matter splitter relies on:
 * `splitlines()` (line breaks are LF, CR and CR LF), `rstrip()` (ASCII
 * whitespace) and `b"\n".join(...)`.
 */
module PyBytes {

  newtype Byte = b: int | 0 <= b < 256

  type Bytes = seq<Byte>

  const LF: Byte := 0x0A
  const CR: Byte := 0x0D

  predicate IsLineBreak(b: Byte) { b == LF || b == CR }

  predicate NoLineBreak(s: Bytes)
  {
    LF !in s && CR !in s
  }

  predicate NoCR(s: Bytes)
  {
    CR !in s
  }

  /** `bytes.isspace` on one byte: space, tab, LF, vertical tab, form feed, CR. */
  predicate IsAsciiWhitespace(b: Byte)
  {
    b == 0x20 || (0x09 <= b && b <= 0x0D)
  }

  /** `bytes.rstrip()`: the longest prefix that does not end in ASCII whitespace. */
  function RStrip(s: Bytes): (r: Bytes)
    ensures |r| <= |s| && r == s[..|r|]
    ensures forall i :: |r| <= i < |s| ==> IsAsciiWhitespace(s[i])
    ensures |r| == 0 || !IsAsciiWhitespace(r[|r| - 1])
    decreases |s|
  {
    if |s| > 0 && IsAsciiWhitespace(s[|s| - 1]) then RStrip(s[..|s| - 1]) else s
  }

  /** Trailing whitespace of any length is stripped off entirely. */
  lemma {:induction false} RStripTrailingWhitespace(s: Bytes, ws: Bytes)
    requires |s| == 0 || !IsAsciiWhitespace(s[|s| - 1])
    requires forall i :: 0 <= i < |ws| ==> IsAsciiWhitespace(ws[i])
    ensures RStrip(s + ws) == s
    decreases |ws|
  {
    if |ws| == 0 {
      assert s + ws == s;
    } else {
      assert (s + ws)[..|s + ws| - 1] == s + ws[..|ws| - 1];
      RStripTrailingWhitespace(s, ws[..|ws| - 1]);
    }
  }

  /** Length of the first line: the index of the first CR or LF, or `|s|`. */
  function LineEnd(s: Bytes): (i: nat)
    ensures i <= |s|
    ensures NoLineBreak(s[..i])
    ensures i < |s| ==> IsLineBreak(s[i])
    decreases |s|
  {
    if |s| == 0 || IsLineBreak(s[0]) then 0
    else
      var j := LineEnd(s[1..]);
      assert s[..j + 1] == [s[0]] + s[1..][..j];
      j + 1
  }

  /** Bytes taken by the line break at `i`: two for CR LF, one otherwise. */
  function BreakLength(s: Bytes, i: nat): (k: nat)
    requires i < |s|
    ensures 1 <= k && i + k <= |s|
  {
    if s[i] == CR && i + 1 < |s| && s[i + 1] == LF then 2 else 1
  }

  /** `bytes.splitlines()`: the lines without their terminators; no empty last line. */
  function SplitLines(s: Bytes): (lines: seq<Bytes>)
    ensures forall k :: 0 <= k < |lines| ==> NoLineBreak(lines[k])
    ensures |lines| == 0 <==> |s| == 0
    decreases |s|
  {
    if |s| == 0 then []
    else
      var i := LineEnd(s);
      if i == |s| then [s]
      else [s[..i]] + SplitLines(s[i + BreakLength(s, i)..])
  }

  /** `b"\n".join(lines)`. */
  function JoinLines(lines: seq<Bytes>): (r: Bytes)
    decreases |lines|
  {
    if |lines| == 0 then []
    else if |lines| == 1 then lines[0]
    else lines[0] + [LF] + JoinLines(lines[1..])
  }

  /** Every line followed by LF: how a YAML dump of several lines looks. */
  function Unlines(lines: seq<Bytes>): (r: Bytes)
    decreases |lines|
  {
    if |lines| == 0 then [] else lines[0] + [LF] + Unlines(lines[1..])
  }

  /** CR LF and a lone CR both become LF; everything else is kept. */
  function NormalizeNewlines(s: Bytes): (r: Bytes)
    ensures |s| > 0 ==> |r| > 0
    decreases |s|
  {
    if |s| == 0 then []
    else if s[0] == CR && |s| >= 2 && s[1] == LF then [LF] + NormalizeNewlines(s[2..])
    else if s[0] == CR then [LF] + NormalizeNewlines(s[1..])
    else [s[0]] + NormalizeNewlines(s[1..])
  }

  function DropFinalNewline(s: Bytes): (r: Bytes)
  {
    if |s| > 0 && s[|s| - 1] == LF then s[..|s| - 1] else s
  }

  /** Text without CR passes through normalisation unchanged. */
  lemma {:induction false} NormalizeWithoutCR(s: Bytes)
    requires NoCR(s)
    ensures NormalizeNewlines(s) == s
    decreases |s|
  {
    if |s| > 0 {
      NormalizeWithoutCR(s[1..]);
    }
  }

  /** A prefix without line breaks is copied as it is. */
  lemma {:induction false} NormalizeAfterPlain(a: Bytes, t: Bytes)
    requires NoLineBreak(a)
    ensures NormalizeNewlines(a + t) == a + NormalizeNewlines(t)
    decreases |a|
  {
    if |a| > 0 {
      assert (a + t)[1..] == a[1..] + t;
      NormalizeAfterPlain(a[1..], t);
    } else {
      assert a + t == t;
    }
  }

  /** A line break of either kind at the front becomes one LF. */
  lemma NormalizeBreak(t: Bytes)
    requires |t| > 0 && IsLineBreak(t[0])
    ensures NormalizeNewlines(t) == [LF] + NormalizeNewlines(t[BreakLength(t, 0)..])
  {
  }

  /** Normalisation of a text whose first line ends at a break. */
  lemma {:induction false} NormalizeAtBreak(s: Bytes, i: nat)
    requires i < |s| && NoLineBreak(s[..i]) && IsLineBreak(s[i])
    ensures NormalizeNewlines(s) == s[..i] + ([LF] + NormalizeNewlines(s[i + BreakLength(s, i)..]))
    decreases i
  {
    if i == 0 {
      NormalizeBreak(s);
    } else {
      var s' := s[1..];
      var k := BreakLength(s, i);
      var n := NormalizeNewlines(s[i + k..]);
      assert NormalizeNewlines(s') == s[1..i] + ([LF] + n) by {
        assert s'[..i - 1] == s[1..i];
        assert BreakLength(s', i - 1) == k;
        assert s'[i - 1 + k..] == s[i + k..];
        NormalizeAtBreak(s', i - 1);
      }
      assert NormalizeNewlines(s) == [s[0]] + NormalizeNewlines(s') by {
        assert s[0] in s[..i];
      }
      assert s[..i] + ([LF] + n) == [s[0]] + (s[1..i] + ([LF] + n)) by {
        ConsAppend(s[..i], [LF] + n);
        assert s[..i][1..] == s[1..i];
      }
    }
  }

  lemma DropFinalNewlineAppend(a: Bytes, b: Bytes)
    requires |b| > 0
    ensures DropFinalNewline(a + b) == a + DropFinalNewline(b)
  {
    if b[|b| - 1] == LF {
      assert (a + b)[..|a + b| - 1] == a + b[..|b| - 1];
    }
  }

  /**
   * Joining the lines back with LF gives the input with every line break
   * turned into LF and one final line break dropped.
   */
  lemma {:induction false} JoinSplitLines(s: Bytes)
    ensures JoinLines(SplitLines(s)) == DropFinalNewline(NormalizeNewlines(s))
    decreases |s|
  {
    if |s| == 0 {
      return;
    }
    var i := LineEnd(s);
    if i == |s| {
      assert s[..i] == s;
      NormalizeAfterPlain(s, []);
      assert s + [] == s;
      return;
    }
    var line := s[..i];
    var rest := s[i + BreakLength(s, i)..];
    var n := NormalizeNewlines(rest);
    assert NormalizeNewlines(s) == (line + [LF]) + n by {
      NormalizeAtBreak(s, i);
      AppendAssoc(line, [LF], n);
    }
    if |rest| == 0 {
      assert SplitLines(s) == [line];
    } else {
      calc {
        JoinLines(SplitLines(s));
        { assert SplitLines(s) == [line] + SplitLines(rest);
          assert ([line] + SplitLines(rest))[1..] == SplitLines(rest); }
        (line + [LF]) + JoinLines(SplitLines(rest));
        { JoinSplitLines(rest); }
        (line + [LF]) + DropFinalNewline(n);
        { DropFinalNewlineAppend(line + [LF], n); }
        DropFinalNewline((line + [LF]) + n);
      }
    }
  }

  /** A line without breaks followed by LF is split off as one line. */
  lemma SplitLinesFirst(line: Bytes, rest: Bytes)
    requires NoLineBreak(line)
    ensures SplitLines(line + [LF] + rest) == [line] + SplitLines(rest)
  {
    var s := line + [LF] + rest;
    assert s[..|line|] == line;
    assert s[|line|] == LF;
    var i := LineEnd(s);
    assert i == |line|;
    assert BreakLength(s, i) == 1;
    assert s[i + 1..] == rest;
  }

  lemma AppendAssoc<T>(a: seq<T>, b: seq<T>, c: seq<T>)
    ensures a + (b + c) == (a + b) + c
  {
  }

  lemma ConsAppend<T>(xs: seq<T>, ys: seq<T>)
    requires |xs| > 0
    ensures xs + ys == [xs[0]] + (xs[1..] + ys)
  {
    assert xs == [xs[0]] + xs[1..];
  }

  /** Splitting lines that were each written with a trailing LF gives them back. */
  lemma {:induction false} SplitUnlines(lines: seq<Bytes>, rest: Bytes)
    requires forall k :: 0 <= k < |lines| ==> NoLineBreak(lines[k])
    ensures SplitLines(Unlines(lines) + rest) == lines + SplitLines(rest)
    decreases |lines|
  {
    if |lines| == 0 {
      assert Unlines(lines) + rest == rest;
    } else {
      var tail := Unlines(lines[1..]) + rest;
      assert SplitLines(Unlines(lines) + rest) == [lines[0]] + SplitLines(tail) by {
        assert Unlines(lines) + rest == lines[0] + [LF] + tail;
        SplitLinesFirst(lines[0], tail);
      }
      assert SplitLines(tail) == lines[1..] + SplitLines(rest) by {
        SplitUnlines(lines[1..], rest);
      }
      ConsAppend(lines, SplitLines(rest));
    }
  }

  /**
   * Content with no CR and no final LF is a fixed point of
   * split-then-join.
   */
  lemma JoinSplitLinesNormalised(s: Bytes)
    requires NoCR(s) && (|s| == 0 || s[|s| - 1] != LF)
    ensures JoinLines(SplitLines(s)) == s
  {
    JoinSplitLines(s);
    NormalizeWithoutCR(s);
  }
}
