/**
 What the simple-repeat expander of PreProcessing/Cleaner.py produces: in
 a tune whose repeats are marked only by `|:`, or only by `:|`, every
 repeated segment is played twice.

 `|:` opens a repeat and `:|` closes one (ABC notation standard v2.1,
 section 4.8). For `|:A|:B|:C|:D||` lines 184-194 of `remove_simple_repeat`
 write `|A|A|B|B|C|C|D|||D|||`; lines 218-227 of `remove_repeats` fold the
 runs of bar lines, drop the leading `|` and close the tune, giving
 `A|A|B|B|C|C|D|D|]`. For `A:|B:|C:|D:|` lines 172-181 write
 `A|A|B|B|C|C|D|D||`, which closes to the same text.

 The segments here are runs of plain bars (`EndingReplay.Bars`).
 */
module SimpleReplay {
  import opened PyStr
  import opened Cleaner
  import opened EndingReplay

  /** Every segment is a run of plain bars. */
  predicate AllBars(xs: seq<string>)
  {
    forall k :: 0 <= k < |xs| ==> Bars(xs[k])
  }

  /** `|:x1|:x2...|:xn`: each segment opened by a repeat mark. */
  function Opened(xs: seq<string>): string
    decreases |xs|
  {
    if |xs| == 0 then "" else "|:" + xs[0] + Opened(xs[1..])
  }

  /** `x1:|x2:|...xn:|`: each segment closed by a repeat mark. */
  function Closed(xs: seq<string>): string
    decreases |xs|
  {
    if |xs| == 0 then "" else xs[0] + ":|" + Closed(xs[1..])
  }

  /** The pieces a split at the repeat marks leaves: the segments, the last one carrying the trailing bar lines. */
  function Pieces(xs: seq<string>, tail: string): seq<string>
    requires |xs| > 0
  {
    xs[..|xs| - 1] + [xs[|xs| - 1] + tail]
  }

  /** `up|:x1|:x2...|:xn tail`: plain bars, opened segments of plain bars, and trailing bar lines. */
  predicate OpenedTune(up: string, xs: seq<string>, tail: string)
  {
    (up == "" || Bars(up)) && |xs| > 0 && AllBars(xs) && Tail(tail)
  }

  // ---------------------------------------------------------------------
  // Playing segments twice
  // ---------------------------------------------------------------------

  /** One more segment adds its two plays at the end. */
  lemma {:induction false} TwiceSnoc(ys: seq<string>, z: string)
    ensures Twice(ys + [z]) == Twice(ys) + z + "|" + z + "|"
    decreases |ys|
  {
    if |ys| == 0 {
      assert ys + [z] == [z];
    } else {
      var y, t := ys[0], Twice(ys[1..]);
      assert (ys + [z])[0] == y && (ys + [z])[1..] == ys[1..] + [z];
      assert Twice(ys[1..] + [z]) == t + z + "|" + z + "|" by {
        TwiceSnoc(ys[1..], z);
      }
      assert Twice(ys) == y + "|" + y + "|" + t;
      SnocRegroup(y + "|" + y + "|", t, z);
    }
  }

  /** Regrouping the plays of the last segment after a prefix. */
  lemma SnocRegroup(p: string, t: string, z: string)
    ensures p + (t + z + "|" + z + "|") == p + t + z + "|" + z + "|"
  {
  }

  /** Segments played twice, then one more run of bars, are a run of bars. */
  lemma {:induction false} TwiceBars(ys: seq<string>, x: string)
    requires AllBars(ys) && Bars(x)
    ensures Bars(Twice(ys) + x)
    decreases |ys|
  {
    if |ys| > 0 {
      var y := ys[0];
      var rest := Twice(ys[1..]) + x;
      assert Bars(y);
      assert AllBars(ys[1..]) by {
        forall k | 0 <= k < |ys| - 1 ensures Bars(ys[1..][k]) {
          assert ys[1..][k] == ys[k + 1];
        }
      }
      TwiceBars(ys[1..], x);
      BarsJoin(y, rest);
      BarsJoin(y, y + "|" + rest);
      assert Twice(ys) + x == y + "|" + (y + "|" + rest);
    } else {
      assert Twice(ys) + x == x;
    }
  }

  /** The segments played twice are one run of bars closed by a bar line. */
  lemma TwiceClosed(xs: seq<string>) returns (s: string)
    requires |xs| > 0 && AllBars(xs)
    ensures Bars(s) && Twice(xs) == s + "|"
  {
    var ys, x := xs[..|xs| - 1], xs[|xs| - 1];
    assert xs == ys + [x];
    assert AllBars(ys) by {
      forall k | 0 <= k < |ys| ensures Bars(ys[k]) {
        assert ys[k] == xs[k];
      }
    }
    TwiceSnoc(ys, x);
    TwiceBars(ys, x);
    BarsJoin(Twice(ys) + x, x);
    s := Twice(ys) + x + "|" + x;
  }

  // ---------------------------------------------------------------------
  // Folding runs of bar lines (lines 218-220)
  // ---------------------------------------------------------------------

  /** A pattern holding `a` directly before `b` cannot occur in a text with no such pair. */
  lemma PairFreeLacksAt(s: string, p: string, j: nat)
    requires j + 1 < |p| && PairFree(s, p[j], p[j + 1])
    ensures !Contains(s, p)
  {
    ContainsIff(s, p);
  }

  /** One pass of `replace('||', '|')` over `a||y`, when `a` holds no `||` and does not end with `|`. */
  lemma ReplaceAfter(a: string, y: string)
    requires PairFree(a + "|", '|', '|')
    ensures Replace(a + "||" + y, "||", "|") == a + "|" + Replace(y, "||", "|")
    ensures Contains(a + "||" + y, "||")
  {
    SplitFirstAt(a, "||", y);
    var t := Split(y, "||");
    assert ([a] + t)[0] == a && ([a] + t)[1..] == t;
  }

  /** `replace('||', '|')` changes nothing in a text of at most one bar line. */
  lemma ReplaceShort(y: string)
    requires y == "" || y == "|"
    ensures Replace(y, "||", "|") == y
  {
    ContainsIff(y, "||");
    ReplaceAbsent(y, "||", "|");
  }

  /** The `while '||' in cleaned` loop takes one more pass. */
  lemma CollapseStep(s: string)
    requires Contains(s, "||")
    ensures Collapse(s, "||", "|") == Collapse(Replace(s, "||", "|"), "||", "|")
  {
  }

  /** A text without `||` is left as it is. */
  lemma CollapseDone(s: string)
    requires PairFree(s, '|', '|')
    ensures Collapse(s, "||", "|") == s
  {
    PairFreeLacks(s, "||");
    CollapseAbsent(s, "||", "|");
  }

  /** `L|x|` holds no `||` when `L|` does not and `x` is a run of bars. */
  lemma BarredPair(l: string, x: string)
    requires PairFree(l + "|", '|', '|') && Bars(x)
    ensures PairFree(l + "|" + x + "|", '|', '|')
  {
    BarsShape(x, '|');
    PairFreeConcat(l + "|", x + "|", '|', '|');
    assert l + "|" + x + "|" == (l + "|") + (x + "|");
  }

  /** Doubled bar lines after `L` and after `x` fold in one pass. */
  lemma CollapseDouble(l: string, x: string)
    requires PairFree(l + "|", '|', '|') && Bars(x)
    ensures Collapse(l + "||" + x + "||", "||", "|") == l + "|" + x + "|"
  {
    var m := l + "||" + (x + "||" + "");
    assert m == l + "||" + x + "||";
    BarsShape(x, '|');
    ReplaceAfter(l, x + "||" + "");
    ReplaceAfter(x, "");
    ReplaceShort("");
    assert Replace(m, "||", "|") == l + "|" + x + "|";
    CollapseStep(m);
    BarredPair(l, x);
    CollapseDone(l + "|" + x + "|");
  }

  /** One pass over tripled bar lines after `L` and after `x` leaves them doubled. */
  lemma ReplaceTriple(l: string, x: string)
    requires PairFree(l + "|", '|', '|') && Bars(x)
    ensures Replace(l + "|||" + x + "|||", "||", "|") == l + "||" + x + "||"
    ensures Contains(l + "|||" + x + "|||", "||")
  {
    var y := "|" + x;
    assert l + "|||" + x + "|||" == l + "||" + (y + "||" + "|");
    assert PairFree(y + "|", '|', '|') by {
      BarsShape(x, '|');
      PairFreeConcat("|", x + "|", '|', '|');
      assert y + "|" == "|" + (x + "|");
    }
    assert Replace(y + "||" + "|", "||", "|") == y + "|" + "|" by {
      ReplaceAfter(y, "|");
      ReplaceShort("|");
    }
    assert l + "|" + (y + "|" + "|") == l + "||" + x + "||";
    ReplaceAfter(l, y + "||" + "|");
  }

  /** Tripled bar lines after `L` and after `x` fold in two passes. */
  lemma CollapseTriple(l: string, x: string)
    requires PairFree(l + "|", '|', '|') && Bars(x)
    ensures Collapse(l + "|||" + x + "|||", "||", "|") == l + "|" + x + "|"
  {
    ReplaceTriple(l, x);
    CollapseStep(l + "|||" + x + "|||");
    CollapseDouble(l, x);
  }

  /**
   The text lines 184-194 leave for the last segment `x`, after `L`:
   whatever the trailing bar lines, one bar line is left after each.
   */
  lemma CollapseSegment(l: string, x: string, tail: string)
    requires PairFree(l + "|", '|', '|') && Bars(x) && Tail(tail)
    ensures Collapse(l + tail + "|" + x + tail + "|", "||", "|") == l + "|" + x + "|"
  {
    if tail == "" {
      assert l + tail + "|" + x + tail + "|" == l + "|" + x + "|";
      BarredPair(l, x);
      CollapseDone(l + "|" + x + "|");
    } else if tail == "|" {
      assert l + tail + "|" + x + tail + "|" == l + "||" + x + "||";
      CollapseDouble(l, x);
    } else {
      assert l + tail + "|" + x + tail + "|" == l + "|||" + x + "|||";
      CollapseTriple(l, x);
    }
  }

  /** `s||` folds to `s|`. */
  lemma CollapseTwo(s: string)
    requires Bars(s)
    ensures Collapse(s + "||", "||", "|") == s + "|"
  {
    var t := s + "||";
    assert t == s + "||" + "";
    BarsShape(s, '|');
    ReplaceAfter(s, "");
    ReplaceShort("");
    assert s + "|" + "" == s + "|";
    CollapseStep(t);
    CollapseDone(s + "|");
  }

  /** `s||y` folds as `s||` does, when one pass leaves `y` as `|`. */
  lemma CollapseMore(s: string, y: string)
    requires Bars(s) && Replace(y, "||", "|") == "|"
    ensures Collapse(s + "||" + y, "||", "|") == s + "|"
  {
    var t := s + "||" + y;
    BarsShape(s, '|');
    ReplaceAfter(s, y);
    assert s + "|" + "|" == s + "||";
    CollapseStep(t);
    CollapseTwo(s);
  }

  /** The text lines 172-181 leave: a run of bars and up to four closing bar lines fold to one. */
  lemma CollapseEnd(s: string, end: string)
    requires Bars(s) && Tail(end)
    ensures Collapse(s + "|" + end + "|", "||", "|") == s + "|"
  {
    if end == "" {
      assert s + "|" + end + "|" == s + "||";
      CollapseTwo(s);
    } else if end == "|" {
      assert s + "|" + end + "|" == s + "||" + "|";
      ReplaceShort("|");
      CollapseMore(s, "|");
    } else {
      assert s + "|" + end + "|" == s + "||" + "||";
      ReplaceAfter("", "");
      ReplaceShort("");
      assert "" + "||" + "" == "||";
      CollapseMore(s, "||");
    }
  }

  /** Lines 218-220 reduce to the `||` loop when the text holds no `[` or `]`. */
  lemma CollapseBarsOnly(m: string, c: string)
    requires Collapse(m, "||", "|") == c && '[' !in c && ']' !in c
    ensures CollapseBars(m) == c
  {
    AbsentCharLacks(c, "|]", 1);
    CollapseAbsent(c, "|]", "|");
    AbsentCharLacks(c, "[|", 0);
    CollapseAbsent(c, "[|", "|");
  }

  /** Lines 218-227: the folded text, its leading `|` dropped, closed with `]`. */
  lemma FinishWith(m: string, c: string, d: string)
    requires CollapseBars(m) == c && |c| > 0 && DropLeadingBar(c) == d && '!' !in d
    ensures Finish(m) == Ok(d + "]")
  {
    AbsentCharLacks(d, BadMark, 0);
  }

  /** A run of bars, behind at most one bar line and followed by one, holds no mark character. */
  lemma BarredLacks(lead: string, b: string, ch: char)
    requires (lead == "" || lead == "|") && Bars(b) && ch != '|' && !NoteChar(ch)
    ensures ch !in lead + b + "|"
  {
    BarsShape(b, ch);
  }

  // ---------------------------------------------------------------------
  // Tunes with opening marks only
  // ---------------------------------------------------------------------

  /** Two texts every `:` of which opens a bar join into one, if the first does not end with `:`. */
  lemma ColonsOpenJoin(a: string, b: string)
    requires ColonsOpen(a) && ColonsOpen(b) && (|a| > 0 ==> a[|a| - 1] != ':')
    ensures ColonsOpen(a + b)
  {
    var s := a + b;
    forall i | 0 <= i < |s| && s[i] == ':' ensures i + 1 < |s| && Opening(s[i + 1]) {
      if i < |a| {
        assert a[i] == ':';
        assert s[i + 1] == a[i + 1];
      } else {
        assert b[i - |a|] == ':';
        assert s[i + 1] == b[i - |a| + 1];
      }
    }
  }

  /** `|:x` for a run of bars `x`: its one `:` opens the bar `x` starts with. */
  lemma OpenedSegment(x: string)
    requires Bars(x)
    ensures Marked("|:" + x) && ColonsOpen("|:" + x) && PairFree("|:" + x, '|', '1')
  {
    var h := "|:" + x;
    BarsMarked(x);
    MarkedJoin("|:", x);
    forall i | 0 <= i < |h| && h[i] == ':' ensures i + 1 < |h| && Opening(h[i + 1]) {
      if i < 2 {
        assert h[2] == x[0];
      }
    }
    BarsShape(x, '1');
    PairFreeConcat("|:", x, '|', '1');
  }

  /** Every `:` of an opened text opens a bar, no bar opens with `1`, and it ends in a note. */
  lemma {:induction false} OpenedFacts(xs: seq<string>)
    requires AllBars(xs)
    ensures var o := Opened(xs);
            Marked(o) && ColonsOpen(o) && PairFree(o, '|', '1')
            && (|xs| > 0 ==> |o| > 2 && o[0] == '|' && o[1] == ':' && NoteChar(o[|o| - 1]))
    decreases |xs|
  {
    if |xs| > 0 {
      var x, rest := xs[0], xs[1..];
      assert Bars(x);
      assert AllBars(rest) by {
        forall k | 0 <= k < |rest| ensures Bars(rest[k]) {
          assert rest[k] == xs[k + 1];
        }
      }
      OpenedFacts(rest);
      OpenedSegment(x);
      var h, o := "|:" + x, Opened(rest);
      assert Opened(xs) == h + o;
      MarkedJoin(h, o);
      ColonsOpenJoin(h, o);
      PairFreeConcat(h, o, '|', '1');
      if |rest| > 0 {
        assert (h + o)[|h + o| - 1] == o[|o| - 1];
      } else {
        assert h + o == h;
      }
    }
  }

  /** The bars before the first `|:`, the opened segments and the trailing bar lines. */
  lemma OpenedTuneFacts(up: string, xs: seq<string>, tail: string)
    requires up == "" || Bars(up)
    requires |xs| > 0 && AllBars(xs) && Tail(tail)
    ensures var n := up + Opened(xs) + tail;
            Marked(n) && ColonsOpen(n) && PairFree(n, '|', '1') && |n| >= 2
            && ((n[0] == '|' && n[1] == ':') || (Opening(n[0]) && n[1] != ':'))
  {
    var o := Opened(xs);
    OpenedFacts(xs);
    assert Marked(tail) && ColonsOpen(tail);
    CharFreePair(tail, '|', '1');
    MarkedJoin(o, tail);
    ColonsOpenJoin(o, tail);
    PairFreeConcat(o, tail, '|', '1');
    if up == "" {
      assert up + o + tail == o + tail;
    } else {
      BarsMarked(up);
      BarsShape(up, '1');
      MarkedJoin(up, o + tail);
      ColonsOpenJoin(up, o + tail);
      PairFreeConcat(up, o + tail, '|', '1');
      assert up + o + tail == up + (o + tail);
      var n := up + (o + tail);
      if |up| == 1 {
        assert n[1] == o[0];
      } else {
        assert n[1] == up[1];
      }
    }
  }

  /** A pattern `:c` with `c` unable to open a bar does not occur where every `:` opens one. */
  lemma ColonsOpenLacks(s: string, p: string)
    requires ColonsOpen(s) && |p| >= 2 && p[0] == ':' && !Opening(p[1])
    ensures !Contains(s, p)
  {
    forall j | 0 <= j < |s| - 1 ensures !(s[j] == p[0] && s[j + 1] == p[1]) {
    }
    PairFreeLacks(s, p);
  }

  /** Lines 8-17 leave a tune opening with `|:` as it is. */
  lemma TrimEdgesOpened(n: string)
    requires |n| >= 2 && n[0] == '|' && n[1] == ':' && n[|n| - 1] != ':'
    ensures TrimEdges(n) == Ok(n)
  {
    StartsWithIsPrefix(n, "[|:");
    StartsWithIsPrefix(n, "||:");
    StartsWithIsPrefix(n, "[|");
    StartsWithIsPrefix(n, "|");
    StartsWithIsPrefix(n, "|:");
  }


  /** Lines 3-25 change nothing in a marked tune that lines 6-24 leave as it is. */
  lemma WhitespaceStages(n: string)
    requires Marked(n) && !StartsWith(n, "C:") && TrimEdges(n) == Ok(n) && NormaliseBars(n) == n
    ensures RemoveWhitespace(n) == Ok(n)
  {
    RemoveSpacesSpec(n);
  }

  /** Lines 19-24 change nothing in a marked text whose every `:` opens a bar. */
  lemma NormaliseOpened(n: string)
    requires Marked(n) && ColonsOpen(n)
    ensures NormaliseBars(n) == n
  {
    MarkedLacks(n, Backslash);
    MarkedLacks(n, Ctrl14);
    MarkedLacks(n, ']');
    ColonsOpenLacks(n, "::");
    ColonsOpenLacks(n, ":|:");
    ColonsOpenLacks(n, ":|||:");
    NormaliseBarsFixed(n);
  }

  /** Lines 3-25 leave a tune of plain bars with opening marks only as it is. */
  lemma WhitespaceOpened(up: string, xs: seq<string>, tail: string)
    requires up == "" || Bars(up)
    requires |xs| > 0 && AllBars(xs) && Tail(tail)
    ensures RemoveWhitespace(up + Opened(xs) + tail) == Ok(up + Opened(xs) + tail)
  {
    var n := up + Opened(xs) + tail;
    OpenedTuneFacts(up, xs, tail);
    assert n[|n| - 1] != ':';
    StartsWithIsPrefix(n, "C:");
    if up == "" {
      TrimEdgesOpened(n);
    } else {
      TrimEdgesFixed(n);
    }
    NormaliseOpened(n);
    WhitespaceStages(n);
  }

  /** Lines 211-216 send a text with `|:`, no `:|` and no ending to `remove_simple_repeat`. */
  lemma DispatchOpened(n: string, fuel: nat)
    requires Marked(n) && ColonsOpen(n) && PairFree(n, '|', '1') && Contains(n, "|:")
    ensures !Contains(n, ":|") && Expand(n, fuel) == Ok(RemoveSimpleRepeat(n))
  {
    PairFreeLacks(n, "|1");
    MarkedLacks(n, '[');
    AbsentCharLacks(n, "|[1", 1);
    ColonsOpenLacks(n, ":|2");
    ColonsOpenLacks(n, ":|[2");
    ColonsOpenLacks(n, ":|");
  }

  /** The pieces of a text of several segments are its first segment and the pieces of the rest. */
  lemma PiecesCons(xs: seq<string>, tail: string)
    requires |xs| >= 2
    ensures Pieces(xs, tail) == [xs[0]] + Pieces(xs[1..], tail)
  {
    assert xs[1..][..|xs| - 2] == xs[1..|xs| - 1];
    assert xs[..|xs| - 1] == [xs[0]] + xs[1..|xs| - 1];
  }

  /** A last segment with its trailing bar lines holds no `|:`. */
  lemma SplitLast(x: string, tail: string)
    requires Bars(x) && Tail(tail)
    ensures Split(x + tail, "|:") == Pieces([x], tail)
  {
    BarsMarked(x);
    assert ':' !in x + tail;
    AbsentCharLacks(x + tail, "|:", 1);
    SplitAbsent(x + tail, "|:");
  }

  /** The segments after the first are runs of bars too. */
  lemma AllBarsRest(xs: seq<string>)
    requires |xs| > 0 && AllBars(xs)
    ensures Bars(xs[0]) && AllBars(xs[1..])
  {
    forall k | 0 <= k < |xs| - 1 ensures Bars(xs[1..][k]) {
      assert xs[1..][k] == xs[k + 1];
    }
  }

  /** The segments before the last are runs of bars too. */
  lemma AllBarsFront(xs: seq<string>)
    requires |xs| > 0 && AllBars(xs)
    ensures xs == xs[..|xs| - 1] + [xs[|xs| - 1]]
    ensures AllBars(xs[..|xs| - 1]) && Bars(xs[|xs| - 1])
  {
    var ys := xs[..|xs| - 1];
    forall k | 0 <= k < |ys| ensures Bars(ys[k]) {
      assert ys[k] == xs[k];
    }
  }

  /** The first `|:` of an opened text, with whatever stands before it. */
  lemma OpenedUnfold(up: string, xs: seq<string>, tail: string)
    requires |xs| > 0
    ensures up + Opened(xs) + tail == up + "|:" + (xs[0] + Opened(xs[1..]) + tail)
  {
    Regroup(up, "|:", xs[0], Opened(xs[1..]), tail);
  }

  /** Regrouping five texts. */
  lemma Regroup(a: string, b: string, c: string, d: string, e: string)
    ensures a + (b + c + d) + e == a + b + (c + d + e)
  {
  }

  /** One more segment in front adds one piece in front, the segment holding no `|:`. */
  lemma SplitStep(xs: seq<string>, tail: string)
    requires |xs| >= 2 && Bars(xs[0])
    requires Split(xs[1] + Opened(xs[2..]) + tail, "|:") == Pieces(xs[1..], tail)
    ensures Split(xs[0] + Opened(xs[1..]) + tail, "|:") == Pieces(xs, tail)
  {
    var rest := xs[1..];
    assert rest[0] == xs[1] && rest[1..] == xs[2..];
    OpenedUnfold(xs[0], rest, tail);
    BarsShape(xs[0], ':');
    SplitFirstAt(xs[0], "|:", xs[1] + Opened(xs[2..]) + tail);
    PiecesCons(xs, tail);
  }

  /** Line 184 splits `x1|:x2...|:xn` into its segments, the last carrying the trailing bar lines. */
  lemma {:induction false} SplitSegments(xs: seq<string>, tail: string)
    requires |xs| > 0 && AllBars(xs) && Tail(tail)
    ensures Split(xs[0] + Opened(xs[1..]) + tail, "|:") == Pieces(xs, tail)
    decreases |xs|
  {
    AllBarsRest(xs);
    if |xs| == 1 {
      assert xs[0] + Opened(xs[1..]) + tail == xs[0] + tail;
      SplitLast(xs[0], tail);
      assert [xs[0]] == xs;
    } else {
      SplitSegments(xs[1..], tail);
      assert xs[1..][0] == xs[1] && xs[1..][1..] == xs[2..];
      SplitStep(xs, tail);
    }
  }

  /** The split of a whole opened tune: the bars before the first `|:`, then the segments. */
  lemma SplitOpened(up: string, xs: seq<string>, tail: string)
    requires up == "" || Bars(up)
    requires |xs| > 0 && AllBars(xs) && Tail(tail)
    ensures Split(up + Opened(xs) + tail, "|:") == [up] + Pieces(xs, tail)
    ensures Contains(up + Opened(xs) + tail, "|:")
  {
    OpenedUnfold(up, xs, tail);
    if up != "" {
      BarsShape(up, ':');
    }
    SplitFirstAt(up, "|:", xs[0] + Opened(xs[1..]) + tail);
    SplitSegments(xs, tail);
  }

  /** Lines 184-194 on an opened tune: the bars before the first mark once, then every segment twice. */
  lemma ExpandOpened(up: string, xs: seq<string>, tail: string, fuel: nat)
    requires OpenedTune(up, xs, tail)
    ensures Expand(up + Opened(xs) + tail, fuel) == Ok(up + "|" + Twice(Pieces(xs, tail)))
  {
    var n := up + Opened(xs) + tail;
    SplitOpened(up, xs, tail);
    OpenedTuneFacts(up, xs, tail);
    DispatchOpened(n, fuel);
    SimpleRepeatOpenOnly(n);
    var temp := [up] + Pieces(xs, tail);
    assert temp[0] == up && temp[1..] == Pieces(xs, tail);
  }

  /** The expanded text, regrouped: the bars up to the last segment, then the last segment's two plays. */
  lemma OpenedExpansion(up: string, ys: seq<string>, x: string, tail: string)
    ensures up + "|" + Twice(Pieces(ys + [x], tail)) == (up + "|" + Twice(ys) + x) + tail + "|" + x + tail + "|"
  {
    var xs := ys + [x];
    assert xs[..|xs| - 1] == ys && xs[|xs| - 1] == x;
    TwiceSnoc(ys, x + tail);
  }

  /** With nothing before the first `|:`, the bars up to the last segment are a `|` and a run of bars. */
  lemma LeadBare(ys: seq<string>, x: string)
    requires AllBars(ys) && Bars(x)
    ensures Bars(Twice(ys) + x) && "" + "|" + Twice(ys) + x == "|" + (Twice(ys) + x)
  {
    TwiceBars(ys, x);
  }

  /** With bars before the first `|:`, the bars up to the last segment are one run of bars. */
  lemma LeadUp(up: string, ys: seq<string>, x: string)
    requires Bars(up) && AllBars(ys) && Bars(x)
    ensures Bars(up + "|" + Twice(ys) + x)
  {
    TwiceBars(ys, x);
    BarsJoin(up, Twice(ys) + x);
    assert up + "|" + Twice(ys) + x == up + "|" + (Twice(ys) + x);
  }

  /** A `|` in front of a run of bars and its bar line holds no `||`. */
  lemma LeadPair(lead: string, b: string)
    requires (lead == "" || lead == "|") && Bars(b)
    ensures PairFree(lead + b + "|", '|', '|')
  {
    BarsShape(b, '|');
    PairFreeConcat(lead, b + "|", '|', '|');
    assert lead + b + "|" == lead + (b + "|");
  }

  /** Lines 218-220 on the expanded opened tune: one bar line is left between the bars. */
  lemma CollapseLed(lead: string, b: string, x: string, tail: string)
    requires (lead == "" || lead == "|") && Bars(b) && Bars(x) && Tail(tail)
    ensures CollapseBars(lead + b + tail + "|" + x + tail + "|") == lead + (b + "|" + x) + "|"
  {
    var l := lead + b;
    LeadPair(lead, b);
    CollapseSegment(l, x, tail);
    BarsJoin(b, x);
    var c := lead + (b + "|" + x) + "|";
    assert l + "|" + x + "|" == c;
    BarredLacks(lead, b + "|" + x, '[');
    BarredLacks(lead, b + "|" + x, ']');
    CollapseBarsOnly(lead + b + tail + "|" + x + tail + "|", c);
  }

  /** Lines 221-227 on the folded text: the leading `|` goes and `]` closes the tune. */
  lemma FinishLed(lead: string, b: string, x: string, tail: string)
    requires (lead == "" || lead == "|") && Bars(b) && Bars(x) && Tail(tail)
    ensures Finish(lead + b + tail + "|" + x + tail + "|") == Ok(b + "|" + x + "|" + "]")
  {
    var s := b + "|" + x;
    CollapseLed(lead, b, x, tail);
    BarsJoin(b, x);
    var c := lead + s + "|";
    if lead == "|" {
      assert c[0] == '|' && c[1..] == s + "|";
    } else {
      assert c == s + "|" && c[0] == s[0];
    }
    BarredLacks("", s, '!');
    assert "" + s + "|" == s + "|";
    FinishWith(lead + b + tail + "|" + x + tail + "|", c, s + "|");
  }

  /** Lines 218-227 on the expanded tune with nothing before the first `|:`. */
  lemma FinishBare(ys: seq<string>, x: string, tail: string)
    requires AllBars(ys) && Bars(x) && Tail(tail)
    ensures Finish(("" + "|" + Twice(ys) + x) + tail + "|" + x + tail + "|") == Ok("" + Twice(ys + [x]) + "]")
  {
    LeadBare(ys, x);
    var b := Twice(ys) + x;
    assert ("" + "|" + Twice(ys) + x) + tail + "|" + x + tail + "|" == "|" + b + tail + "|" + x + tail + "|";
    FinishLed("|", b, x, tail);
    TwiceSnoc(ys, x);
    PlaysTwice("", Twice(ys), x);
  }

  /** Lines 218-227 on the expanded tune with bars `up` before the first `|:`. */
  lemma FinishUp(up: string, ys: seq<string>, x: string, tail: string)
    requires Bars(up) && AllBars(ys) && Bars(x) && Tail(tail)
    ensures Finish((up + "|" + Twice(ys) + x) + tail + "|" + x + tail + "|") == Ok(up + "|" + Twice(ys + [x]) + "]")
  {
    LeadUp(up, ys, x);
    var b := up + "|" + Twice(ys) + x;
    assert b + tail + "|" + x + tail + "|" == "" + b + tail + "|" + x + tail + "|";
    FinishLed("", b, x, tail);
    TwiceSnoc(ys, x);
    PlaysTwice(up + "|", Twice(ys), x);
  }

  /** The last segment's two plays, regrouped. */
  lemma PlaysTwice(p: string, t: string, x: string)
    ensures p + (t + x + "|" + x + "|") + "]" == p + t + x + "|" + x + "|" + "]"
  {
  }

  /** Lines 210-227: an expansion to `m` that lines 218-227 finish as `r` makes `remove_repeats` return `r`. */
  lemma RepeatsThrough(n: string, m: string, r: string, fuel: nat)
    requires Expand(n, fuel) == Ok(m) && Finish(m) == Ok(r)
    ensures RemoveRepeats(n, fuel + 1) == Ok(r)
  {
    RemoveRepeatsFinish(n, m, fuel + 1);
  }

  /** Lines 218-227 on the text lines 184-194 leave for an opened tune. */
  lemma FinishOpened(up: string, xs: seq<string>, tail: string)
    requires OpenedTune(up, xs, tail)
    ensures Finish(up + "|" + Twice(Pieces(xs, tail)))
            == Ok((if up == "" then "" else up + "|") + Twice(xs) + "]")
  {
    var ys, x := xs[..|xs| - 1], xs[|xs| - 1];
    AllBarsFront(xs);
    OpenedExpansion(up, ys, x, tail);
    assert Pieces(xs, tail) == Pieces(ys + [x], tail) && Twice(xs) == Twice(ys + [x]);
    if up == "" {
      FinishBare(ys, x, tail);
    } else {
      FinishUp(up, ys, x, tail);
    }
  }

  /** Lines 210-227 on a tune of plain bars with opening marks only: every repeated segment is played twice and the tune closed with `]`. */
  lemma RemoveRepeatsOpened(up: string, xs: seq<string>, tail: string, fuel: nat)
    requires OpenedTune(up, xs, tail)
    ensures RemoveRepeats(up + Opened(xs) + tail, fuel + 1)
            == Ok((if up == "" then "" else up + "|") + Twice(xs) + "]")
  {
    ExpandOpened(up, xs, tail, fuel);
    FinishOpened(up, xs, tail);
    RepeatsThrough(up + Opened(xs) + tail, up + "|" + Twice(Pieces(xs, tail)),
                   (if up == "" then "" else up + "|") + Twice(xs) + "]", fuel);
  }

  /**
   Lines 230-233 on a tune of plain bars with opening marks only, `|:A|:B||`
   say: `clean` plays every repeated segment twice, `A|A|B|B|]`.
   */
  lemma CleanOpened(up: string, xs: seq<string>, tail: string, fuel: nat)
    requires up == "" || Bars(up)
    requires |xs| > 0 && AllBars(xs) && Tail(tail)
    ensures Clean(up + Opened(xs) + tail, fuel + 1)
            == Ok((if up == "" then "" else up + "|") + Twice(xs) + "]")
  {
    WhitespaceOpened(up, xs, tail);
    CleanStep(up + Opened(xs) + tail, fuel + 1);
    RemoveRepeatsOpened(up, xs, tail, fuel);
  }

  // ---------------------------------------------------------------------
  // Tunes with closing marks only
  // ---------------------------------------------------------------------

  /** No segment after the first opens with `2`, which after `:|` would read as a second ending. */
  predicate NoSecondOpening(xs: seq<string>)
  {
    forall k :: 1 <= k < |xs| && |xs[k]| > 0 ==> xs[k][0] != '2'
  }

  /** `x1:|x2:|...xn:| end`: closed segments of plain bars, none read as a second ending, and trailing bar lines. */
  predicate ClosedTune(xs: seq<string>, end: string)
  {
    |xs| > 0 && AllBars(xs) && NoSecondOpening(xs) && Tail(end)
  }

  /** No `:|` in `s` stands before a `2`. */
  predicate SecondFree(s: string)
  {
    forall i :: 0 <= i < |s| - 2 && s[i] == ':' ==> !(s[i + 1] == '|' && s[i + 2] == '2')
  }

  /** `:|2` does not occur in a text where no `:|` stands before a `2`. */
  lemma SecondFreeLacks(s: string)
    requires SecondFree(s)
    ensures !Contains(s, ":|2")
  {
    ContainsIff(s, ":|2");
    forall i | OccursAt(s, ":|2", i) ensures false {
      SecondAt(s, i);
    }
  }

  /** The characters of an occurrence of `:|2`. */
  lemma SecondAt(s: string, i: int)
    requires OccursAt(s, ":|2", i)
    ensures 0 <= i < |s| - 2 && s[i] == ':' && s[i + 1] == '|' && s[i + 2] == '2'
  {
    assert s[i..i + 3][0] == s[i] && s[i..i + 3][1] == s[i + 1] && s[i..i + 3][2] == s[i + 2];
  }

  /** Two texts free of `:|2` join into one, when the join does not spell it. */
  lemma SecondFreeJoin(a: string, b: string)
    requires SecondFree(a) && SecondFree(b) && |a| >= 2 && a[|a| - 1] != ':'
    requires a[|a| - 2] == ':' && a[|a| - 1] == '|' && |b| > 0 ==> b[0] != '2'
    ensures SecondFree(a + b)
  {
    var s := a + b;
    forall i | 0 <= i < |s| - 2 && s[i] == ':' ensures !(s[i + 1] == '|' && s[i + 2] == '2') {
      if i + 2 < |a| {
        assert s[i] == a[i] && s[i + 1] == a[i + 1] && s[i + 2] == a[i + 2];
      } else if i == |a| - 2 {
        assert s[i + 2] == b[0];
      } else if i >= |a| {
        assert s[i] == b[i - |a|] && s[i + 1] == b[i - |a| + 1] && s[i + 2] == b[i - |a| + 2];
      }
    }
  }

  /** `x:|` for a run of bars `x`: its only `:` closes the repeat, and no bar opens with `1`. */
  lemma ClosedSegment(x: string)
    requires Bars(x)
    ensures var h := x + ":|";
            Marked(h) && PairFree(h, '|', ':') && PairFree(h, ':', ':') && PairFree(h, '|', '1')
            && SecondFree(h) && |h| >= 3 && h[0] == x[0] && h[|h| - 2] == ':' && h[|h| - 1] == '|'
  {
    var h := x + ":|";
    BarsMarked(x);
    MarkedJoin(x, ":|");
    BarsShape(x, ':');
    BarsShape(x, '1');
    CharFreePair(x, ':', ':');
    PairFreeConcat(x, ":|", '|', ':');
    PairFreeConcat(x, ":|", ':', ':');
    PairFreeConcat(x, ":|", '|', '1');
  }

  /** The facts a closed text keeps when a segment is put in front of it. */
  predicate ClosedShape(c: string)
  {
    Marked(c) && PairFree(c, '|', ':') && PairFree(c, ':', ':') && PairFree(c, '|', '1') && SecondFree(c)
  }

  /** A closed segment in front of a closed text that opens with neither `:`, `1` nor `2`. */
  lemma ClosedJoin(h: string, o: string)
    requires ClosedShape(h) && ClosedShape(o) && |h| >= 2 && h[|h| - 2] == ':' && h[|h| - 1] == '|'
    requires |o| > 0 ==> o[0] != ':' && o[0] != '1' && o[0] != '2'
    ensures ClosedShape(h + o)
  {
    MarkedJoin(h, o);
    PairFreeConcat(h, o, '|', ':');
    PairFreeConcat(h, o, ':', ':');
    PairFreeConcat(h, o, '|', '1');
    SecondFreeJoin(h, o);
  }

  /** Every segment of a closed text ends at `:|`, and no `:|` stands before `2`. */
  lemma {:induction false} ClosedFacts(xs: seq<string>)
    requires AllBars(xs) && NoSecondOpening(xs)
    ensures var c := Closed(xs);
            ClosedShape(c)
            && (|xs| > 0 ==> |c| >= 3 && c[0] == xs[0][0] && c[|c| - 2] == ':' && c[|c| - 1] == '|')
    decreases |xs|
  {
    if |xs| > 0 {
      AllBarsRest(xs);
      var x, rest := xs[0], xs[1..];
      assert NoSecondOpening(rest) by {
        forall k | 1 <= k < |rest| && |rest[k]| > 0 ensures rest[k][0] != '2' {
          assert rest[k] == xs[k + 1];
        }
      }
      ClosedFacts(rest);
      ClosedSegment(x);
      var h, o := x + ":|", Closed(rest);
      assert Closed(xs) == h + o;
      if |rest| > 0 {
        assert o[0] == rest[0][0] && rest[0] == xs[1];
      }
      ClosedJoin(h, o);
      if |rest| > 0 {
        assert (h + o)[|h + o| - 2] == o[|o| - 2] && (h + o)[|h + o| - 1] == o[|o| - 1];
      } else {
        assert h + o == h;
      }
    }
  }

  /** The bar lines after the last `:|` keep the closed shape. */
  lemma ClosedTuneFacts(xs: seq<string>, end: string)
    requires |xs| > 0 && AllBars(xs) && NoSecondOpening(xs) && Tail(end)
    ensures var n := Closed(xs) + end;
            ClosedShape(n) && |n| >= 3 && n[0] == xs[0][0] && n[|n| - 1] == '|'
  {
    var c := Closed(xs);
    ClosedFacts(xs);
    assert ClosedShape(end) by {
      CharFreePair(end, '|', ':');
      CharFreePair(end, ':', ':');
      CharFreePair(end, '|', '1');
    }
    ClosedJoin(c, end);
    if end == "" {
      assert c + end == c;
    }
  }

  /** A closed tune whose first bar is not the lone note `C` does not open with a composer field. */
  lemma ClosedNoComposer(xs: seq<string>, end: string)
    requires |xs| > 0 && Bars(xs[0]) && xs[0] != "C"
    ensures !StartsWith(Closed(xs) + end, "C:")
  {
    var x, n := xs[0], Closed(xs) + end;
    assert n == x + (":|" + Closed(xs[1..]) + end);
    StartsWithIsPrefix(n, "C:");
    if |x| == 1 {
      assert x == [n[0]];
    } else {
      assert n[1] == x[1];
    }
  }

  /** Lines 19-24 change nothing in a closed text. */
  lemma NormaliseClosed(n: string)
    requires ClosedShape(n)
    ensures NormaliseBars(n) == n
  {
    MarkedLacks(n, Backslash);
    MarkedLacks(n, Ctrl14);
    MarkedLacks(n, ']');
    PairFreeLacks(n, "::");
    PairFreeLacksAt(n, ":|:", 1);
    PairFreeLacksAt(n, ":|||:", 3);
    NormaliseBarsFixed(n);
  }

  /** Lines 3-25 leave a tune of plain bars with closing marks only as it is. */
  lemma WhitespaceClosed(xs: seq<string>, end: string)
    requires |xs| > 0 && AllBars(xs) && NoSecondOpening(xs) && Tail(end) && xs[0] != "C"
    ensures RemoveWhitespace(Closed(xs) + end) == Ok(Closed(xs) + end)
  {
    var n := Closed(xs) + end;
    ClosedTuneFacts(xs, end);
    assert Bars(xs[0]);
    ClosedNoComposer(xs, end);
    TrimEdgesFixed(n);
    NormaliseClosed(n);
    WhitespaceStages(n);
  }

  /** Lines 211-216 send a text with `:|`, no `|:` and no ending to `remove_simple_repeat`. */
  lemma DispatchClosed(n: string, fuel: nat)
    requires ClosedShape(n) && Contains(n, ":|")
    ensures !Contains(n, "|:") && Expand(n, fuel) == Ok(RemoveSimpleRepeat(n))
  {
    PairFreeLacks(n, "|1");
    MarkedLacks(n, '[');
    AbsentCharLacks(n, "|[1", 1);
    AbsentCharLacks(n, ":|[2", 2);
    SecondFreeLacks(n);
    PairFreeLacks(n, "|:");
  }

  /** The first `:|` of a closed text follows its first segment, which holds no `:|`. */
  lemma SplitClosedStep(xs: seq<string>, end: string)
    requires |xs| > 0 && Bars(xs[0])
    requires Split(Closed(xs[1..]) + end, ":|") == xs[1..] + [end]
    ensures Split(Closed(xs) + end, ":|") == xs + [end]
    ensures Contains(Closed(xs) + end, ":|")
  {
    ClosedCons(xs, end);
    SplitSegmentFirst(xs[0], Closed(xs[1..]) + end, xs[1..] + [end]);
    ConsSnoc(xs, end);
  }

  /** Putting back the first segment. */
  lemma ConsSnoc(xs: seq<string>, end: string)
    requires |xs| > 0
    ensures [xs[0]] + (xs[1..] + [end]) == xs + [end]
  {
  }

  /** A closed text is its first segment, `:|`, and the rest. */
  lemma ClosedCons(xs: seq<string>, end: string)
    requires |xs| > 0
    ensures Closed(xs) + end == xs[0] + ":|" + (Closed(xs[1..]) + end)
  {
    Regroup4(xs[0], ":|", Closed(xs[1..]), end);
  }

  /** Regrouping four texts. */
  lemma Regroup4(a: string, b: string, c: string, d: string)
    ensures a + b + c + d == a + b + (c + d)
  {
  }

  /** Splitting at `:|` a run of bars, `:|` and a rest yields the run, then the pieces of the rest. */
  lemma SplitSegmentFirst(x: string, rest: string, pieces: seq<string>)
    requires Bars(x) && Split(rest, ":|") == pieces
    ensures Split(x + ":|" + rest, ":|") == [x] + pieces
    ensures Contains(x + ":|" + rest, ":|")
  {
    ColonLast(x);
    SplitFirstAt(x, ":|", rest);
  }

  /** In a run of bars followed by `:`, that `:` is the only one, so it stands before no bar line. */
  lemma ColonLast(x: string)
    requires Bars(x)
    ensures PairFree(x + ":", ':', '|')
  {
    BarsMarked(x);
    CharFreePair(x, ':', '|');
    PairFreeConcat(x, ":", ':', '|');
  }

  /** The trailing bar lines hold no `:|`. */
  lemma SplitEnd(end: string)
    requires Tail(end)
    ensures Split(end, ":|") == [end]
  {
    AbsentCharLacks(end, ":|", 0);
    SplitAbsent(end, ":|");
  }

  /** Line 172 splits `x1:|x2:|...xn:|end` into the segments and the trailing bar lines. */
  lemma {:induction false} SplitClosed(xs: seq<string>, end: string)
    requires AllBars(xs) && Tail(end)
    ensures Split(Closed(xs) + end, ":|") == xs + [end]
    ensures |xs| > 0 ==> Contains(Closed(xs) + end, ":|")
    decreases |xs|
  {
    if |xs| == 0 {
      assert Closed(xs) + end == end && xs + [end] == [end];
      SplitEnd(end);
    } else {
      AllBarsRest(xs);
      SplitClosed(xs[1..], end);
      SplitClosedStep(xs, end);
    }
  }

  /** Lines 172-181 on a closed tune: every segment twice, then the trailing bar lines. */
  lemma ExpandClosed(xs: seq<string>, end: string, fuel: nat)
    requires ClosedTune(xs, end)
    ensures Expand(Closed(xs) + end, fuel) == Ok(Twice(xs) + end + "|")
  {
    var n := Closed(xs) + end;
    SplitClosed(xs, end);
    ClosedTuneFacts(xs, end);
    DispatchClosed(n, fuel);
    SimpleRepeatCloseOnly(n);
    var temp := xs + [end];
    assert temp[..|temp| - 1] == xs && temp[|temp| - 1] == end;
  }

  /** Lines 218-220 on the text lines 172-181 leave: the runs of bar lines fold to one. */
  lemma CollapseClosed(s: string, end: string)
    requires Bars(s) && Tail(end)
    ensures CollapseBars(s + "|" + end + "|") == s + "|"
  {
    CollapseEnd(s, end);
    assert "" + s + "|" == s + "|";
    BarredLacks("", s, '[');
    BarredLacks("", s, ']');
    CollapseBarsOnly(s + "|" + end + "|", s + "|");
  }

  /** Lines 221-227 on the folded text: a run of bars and its bar line, closed with `]`. */
  lemma FinishBarsEnd(s: string, end: string)
    requires Bars(s) && Tail(end)
    ensures Finish(s + "|" + end + "|") == Ok(s + "|" + "]")
  {
    CollapseClosed(s, end);
    assert "" + s + "|" == s + "|";
    BarredLacks("", s, '!');
    assert (s + "|")[0] == s[0];
    FinishWith(s + "|" + end + "|", s + "|", s + "|");
  }

  /** Lines 218-227 on the text lines 172-181 leave: the bar lines fold and `]` closes the tune. */
  lemma FinishClosed(xs: seq<string>, end: string)
    requires |xs| > 0 && AllBars(xs) && Tail(end)
    ensures Finish(Twice(xs) + end + "|") == Ok(Twice(xs) + "]")
  {
    var s := TwiceClosed(xs);
    assert Twice(xs) + end + "|" == s + "|" + end + "|";
    FinishBarsEnd(s, end);
  }

  /** Lines 210-227 on a tune of plain bars with closing marks only: every segment is played twice and the tune closed with `]`. */
  lemma RemoveRepeatsClosed(xs: seq<string>, end: string, fuel: nat)
    requires ClosedTune(xs, end)
    ensures RemoveRepeats(Closed(xs) + end, fuel + 1) == Ok(Twice(xs) + "]")
  {
    ExpandClosed(xs, end, fuel);
    FinishClosed(xs, end);
    RepeatsThrough(Closed(xs) + end, Twice(xs) + end + "|", Twice(xs) + "]", fuel);
  }

  /**
   Lines 230-233 on a tune of plain bars with closing marks only,
   `A:|B:|` say: `clean` plays every segment twice, `A|A|B|B|]`. A first
   bar `C` would read as a composer field, and a later bar opening with
   `2` as a second ending.
   */
  lemma CleanClosed(xs: seq<string>, end: string, fuel: nat)
    requires |xs| > 0 && AllBars(xs) && NoSecondOpening(xs) && Tail(end) && xs[0] != "C"
    ensures Clean(Closed(xs) + end, fuel + 1) == Ok(Twice(xs) + "]")
  {
    WhitespaceClosed(xs, end);
    CleanStep(Closed(xs) + end, fuel + 1);
    RemoveRepeatsClosed(xs, end, fuel);
  }

  // ---------------------------------------------------------------------
  // Examples from test_simple_repeats
  // ---------------------------------------------------------------------

  /** Four segments played twice. */
  lemma TwiceFour(a: string, b: string, c: string, d: string)
    ensures Twice([a, b, c, d]) == a + "|" + a + "|" + b + "|" + b + "|" + c + "|" + c + "|" + d + "|" + d + "|"
  {
    assert [a, b, c, d][1..] == [b, c, d] && [b, c, d][1..] == [c, d] && [c, d][1..] == [d] && [d][1..] == [];
    assert Twice([d]) == d + "|" + d + "|";
    assert Twice([c, d]) == c + "|" + c + "|" + Twice([d]);
    assert Twice([b, c, d]) == b + "|" + b + "|" + Twice([c, d]);
    assert Twice([a, b, c, d]) == a + "|" + a + "|" + Twice([b, c, d]);
  }

  /** The one-note segments `A`, `B`, `C`, `D` of both examples are plain bars. */
  lemma FourNotes()
    ensures AllBars(["A", "B", "C", "D"]) && NoSecondOpening(["A", "B", "C", "D"])
  {
  }

  /** `A`, `B`, `C`, `D` played twice and closed. */
  lemma FourTwice()
    ensures Twice(["A", "B", "C", "D"]) + "]" == "A|A|B|B|C|C|D|D|]"
  {
    TwiceFour("A", "B", "C", "D");
  }

  /** Tails of the four segments, for unfolding them one at a time. */
  lemma FourTails()
    ensures var xs := ["A", "B", "C", "D"];
            xs[1..] == ["B", "C", "D"] && xs[1..][1..] == ["C", "D"] && xs[1..][1..][1..] == ["D"] && xs[1..][1..][1..][1..] == []
  {
  }

  /** `A`, `B`, `C`, `D`, each opened by a repeat mark. */
  lemma FourOpened()
    ensures Opened(["A", "B", "C", "D"]) == "|:A|:B|:C|:D"
  {
    FourTails();
  }

  /** `A`, `B`, `C`, `D`, each closed by a repeat mark. */
  lemma FourClosed()
    ensures Closed(["A", "B", "C", "D"]) == "A:|B:|C:|D:|"
  {
    FourTails();
  }

  /** `|:A|:B|:C|:D||`, read off character by character. */
  lemma Basic1Letters(abc: string)
    requires Spells(abc, "|:A|:B|:C|:D||")
    ensures abc[2..3] == "A" && abc[5..6] == "B" && abc[8..9] == "C" && abc[11..12] == "D"
    ensures abc == "|:A|:B|:C|:D" + "||"
  {
    assert abc[2] == 'A' && abc[5] == 'B' && abc[8] == 'C' && abc[11] == 'D';
  }

  /** `|:A|:B|:C|:D||` is the opened tune with segments `A`, `B`, `C`, `D` and two closing bars. */
  lemma Basic1Pieces(abc: string)
    requires Spells(abc, "|:A|:B|:C|:D||")
    ensures var xs := [abc[2..3], abc[5..6], abc[8..9], abc[11..12]];
            AllBars(xs) && Tail(abc[12..]) && abc == "" + Opened(xs) + abc[12..]
  {
    Basic1Letters(abc);
    FourNotes();
    FourOpened();
    assert abc[12..] == "||";
    assert [abc[2..3], abc[5..6], abc[8..9], abc[11..12]] == ["A", "B", "C", "D"];
  }

  /** The cleaner plays each segment of the tune above twice. */
  lemma Basic1Replays(abc: string, fuel: nat)
    requires Spells(abc, "|:A|:B|:C|:D||")
    ensures Clean(abc, fuel + 1) == Ok("" + Twice([abc[2..3], abc[5..6], abc[8..9], abc[11..12]]) + "]")
  {
    Basic1Pieces(abc);
    CleanOpened("", [abc[2..3], abc[5..6], abc[8..9], abc[11..12]], abc[12..], fuel);
  }

  lemma Basic1Output(abc: string)
    requires Spells(abc, "|:A|:B|:C|:D||")
    ensures Spells("" + Twice([abc[2..3], abc[5..6], abc[8..9], abc[11..12]]) + "]", "A|A|B|B|C|C|D|D|]")
  {
    Basic1Letters(abc);
    FourTwice();
    assert [abc[2..3], abc[5..6], abc[8..9], abc[11..12]] == ["A", "B", "C", "D"];
  }

  /** Line 39 of the tests: `|:A|:B|:C|:D||` is cleaned to `A|A|B|B|C|C|D|D|]`. */
  lemma CleanSimpleRepeatOpened(abc: string, fuel: nat)
    requires Spells(abc, "|:A|:B|:C|:D||")
    ensures Clean(abc, fuel + 1).Ok? && Spells(Clean(abc, fuel + 1).abc, "A|A|B|B|C|C|D|D|]")
  {
    Basic1Replays(abc, fuel);
    Basic1Output(abc);
  }

  /** `A:|B:|C:|D:|`, read off character by character. */
  lemma Basic2Letters(abc: string)
    requires Spells(abc, "A:|B:|C:|D:|")
    ensures abc[0..1] == "A" && abc[3..4] == "B" && abc[6..7] == "C" && abc[9..10] == "D"
    ensures abc == "A:|B:|C:|D:|"
  {
    assert abc[0] == 'A' && abc[3] == 'B' && abc[6] == 'C' && abc[9] == 'D';
  }

  /** `A:|B:|C:|D:|` is the closed tune with segments `A`, `B`, `C`, `D` and no closing bars. */
  lemma Basic2Pieces(abc: string)
    requires Spells(abc, "A:|B:|C:|D:|")
    ensures var xs := [abc[0..1], abc[3..4], abc[6..7], abc[9..10]];
            AllBars(xs) && NoSecondOpening(xs) && xs[0] != "C" && abc == Closed(xs) + ""
  {
    Basic2Letters(abc);
    FourNotes();
    FourClosed();
    assert [abc[0..1], abc[3..4], abc[6..7], abc[9..10]] == ["A", "B", "C", "D"];
  }

  /** The cleaner plays each segment of the tune above twice. */
  lemma Basic2Replays(abc: string, fuel: nat)
    requires Spells(abc, "A:|B:|C:|D:|")
    ensures Clean(abc, fuel + 1) == Ok(Twice([abc[0..1], abc[3..4], abc[6..7], abc[9..10]]) + "]")
  {
    Basic2Pieces(abc);
    CleanClosed([abc[0..1], abc[3..4], abc[6..7], abc[9..10]], "", fuel);
  }

  lemma Basic2Output(abc: string)
    requires Spells(abc, "A:|B:|C:|D:|")
    ensures Spells(Twice([abc[0..1], abc[3..4], abc[6..7], abc[9..10]]) + "]", "A|A|B|B|C|C|D|D|]")
  {
    Basic2Letters(abc);
    FourTwice();
    assert [abc[0..1], abc[3..4], abc[6..7], abc[9..10]] == ["A", "B", "C", "D"];
  }

  /** Line 40 of the tests: `A:|B:|C:|D:|` is cleaned to `A|A|B|B|C|C|D|D|]`. */
  lemma CleanSimpleRepeatClosed(abc: string, fuel: nat)
    requires Spells(abc, "A:|B:|C:|D:|")
    ensures Clean(abc, fuel + 1).Ok? && Spells(Clean(abc, fuel + 1).abc, "A|A|B|B|C|C|D|D|]")
  {
    Basic2Replays(abc, fuel);
    Basic2Output(abc);
  }
}
