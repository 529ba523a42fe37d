/**
 The ABC repeat expander of PreProcessing/Cleaner.py.

 `Clean` strips whitespace and normalises the opening and closing bar
 lines. It then unrolls every repeat `|: ... :|` and every pair of first and
 second endings `|1 ... :|2 ...` (ABC notation standard v2.1, sections 4.8
 and 4.9). The result is a flat list of bars separated by `|` and closed
 by `]`.

 Failures come back as strings that start with `!!BAD ABC`, as in the
 Python code. An exception that the Python code does not catch is a
 `Crash`. The recursion through `RemoveRepeats` builds new strings and has
 no evident measure, so it carries a fuel argument. `OutOfFuel` stands in
 for Python's recursion limit.
 */
module Cleaner {
  import opened PyStr
  import opened BarWalk

  /**
   What a call comes to. `Ok` holds the returned string, sentinels
   included. `Crash` is an exception that escapes. `OutOfFuel` means the
   fuel ran out.
   */
  datatype Outcome = Ok(abc: string) | Crash(exc: Exception) | OutOfFuel

  const Bad := "!!BAD ABC!!"
  const BlankEnd2 := "!!BAD ABC - BLANK END2!!"
  const ValueErrorSimple := "!!BAD ABC - VALUE ERROR - SIMPLE!!"
  const Malform := "!!BAD ABC - MALFORM STRING!!"
  const MismatchEnds := "!!BAD ABC - MISMATCH ENDS!!"
  const End1 := "!!BAD ABC - END1!!"
  const End2 := "!!BAD ABC - END2!!"

  /** The prefix every sentinel shares. */
  const BadMark := "!!BAD ABC"

  /** The control character `\x14`, which line 20 deletes. */
  const Ctrl14: char := 20 as char

  /** The marks that make a tune unsafe (line 32), in the order they are tried. */
  const UnsafeMarks: seq<string> := [[Quote], "V", "T", "K:", "M", "{", "}", "~"]

  // ---------------------------------------------------------------------
  // safe_abc
  // ---------------------------------------------------------------------

  /** The loop at lines 33-36: no mark of `marks` occurs in `abc`. */
  function SafeFrom(abc: string, marks: seq<string>): (safe: bool)
    ensures safe <==> forall k :: 0 <= k < |marks| ==> !Contains(abc, marks[k])
    decreases |marks|
  {
    if |marks| == 0 then true
    else if Contains(abc, marks[0]) then false
    else SafeFrom(abc, marks[1..])
  }

  /** Lines 28-36: a tune is unsafe when it holds a quotation, a voice, title or meter field, a key field, a grace note or an ornament. */
  function SafeAbc(abc: string): (safe: bool)
    ensures safe <==> Quote !in abc && 'V' !in abc && 'T' !in abc && !Contains(abc, "K:")
                      && 'M' !in abc && '{' !in abc && '}' !in abc && '~' !in abc
  {
    ContainsChar(abc, Quote);
    ContainsChar(abc, 'V');
    ContainsChar(abc, 'T');
    ContainsChar(abc, 'M');
    ContainsChar(abc, '{');
    ContainsChar(abc, '}');
    ContainsChar(abc, '~');
    assert UnsafeMarks[0] == [Quote] && UnsafeMarks[1] == "V" && UnsafeMarks[2] == "T" && UnsafeMarks[3] == "K:"
      && UnsafeMarks[4] == "M" && UnsafeMarks[5] == "{" && UnsafeMarks[6] == "}" && UnsafeMarks[7] == "~";
    SafeFrom(abc, UnsafeMarks)
  }

  // ---------------------------------------------------------------------
  // remove_whitespace
  // ---------------------------------------------------------------------

  /** Lines 6-7: a tune opening with a composer field `C:` loses everything before its first `|`. */
  function DropComposer(c: string): (r: Outcome)
    ensures !StartsWith(c, "C:") ==> r == Ok(c)
    ensures StartsWith(c, "C:") && '|' !in c ==> r == Crash(ValueError)
    ensures StartsWith(c, "C:") && '|' in c ==>
      r.Ok? && 0 < |r.abc| <= |c| && r.abc[0] == '|'
      && c == c[..|c| - |r.abc|] + r.abc && '|' !in c[..|c| - |r.abc|]
    ensures r.Ok? ==> forall ch :: ch in r.abc ==> ch in c
  {
    if StartsWith(c, "C:") then
      ContainsChar(c, '|');
      match Find(c, "|")
      case None => Crash(ValueError)
      case Some(k) =>
        FindSpec(c, "|");
        assert '|' !in c[..k] by {
          forall j | 0 <= j < k ensures c[j] != '|' {
            assert !OccursAt(c, "|", j);
            assert c[j..j + 1] == [c[j]];
          }
        }
        assert c[k..k + 1] == "|";
        assert c == c[..k] + c[k..];
        Ok(c[k..])
    else Ok(c)
  }

  /**
   Lines 8-13: a leading `[|:` or `||:` becomes `|:`; then a leading `[|`
   goes; then a lone leading `|` goes. Only four texts are emptied.
   */
  function TrimOpening(c: string): (r: string)
    ensures |r| == 0 <==> c == "" || c == "|" || c == "[|" || c == "[||"
    ensures forall ch :: ch in r ==> ch in c
  {
    StartsWithIsPrefix(c, "[|:");
    StartsWithIsPrefix(c, "||:");
    var c1 := if StartsWith(c, "[|:") || StartsWith(c, "||:") then "|:" + c[3..] else c;
    assert |c1| == 0 <==> c == "";
    assert forall ch :: ch in c1 ==> ch in c;
    StartsWithIsPrefix(c1, "[|");
    var c2 := if StartsWith(c1, "[|") then c1[2..] else c1;
    assert |c2| == 0 <==> c == "" || c == "[|";
    assert |c2| == 1 && c2[0] == '|' <==> c == "|" || c == "[||";
    StartsWithIsPrefix(c2, "|");
    StartsWithIsPrefix(c2, "|:");
    if StartsWith(c2, "|") && !StartsWith(c2, "|:") then c2[1..] else c2
  }

  /**
   Lines 8-17: `TrimOpening`, then a leading or trailing `:` gets a `|`
   beside it. Reading the first character of an empty text raises an
   IndexError.
   */
  function TrimEdges(c: string): (r: Outcome)
    ensures r.Crash? <==> c == "" || c == "|" || c == "[|" || c == "[||"
    ensures r.Crash? ==> r.exc == IndexError
    ensures !r.OutOfFuel?
    ensures r.Ok? ==> |r.abc| > 0 && r.abc[0] != ':' && r.abc[|r.abc| - 1] != ':'
    ensures r.Ok? ==> forall ch :: ch in r.abc ==> ch in c || ch == '|'
  {
    var c3 := TrimOpening(c);
    if |c3| == 0 then Crash(IndexError)
    else
      var c4 := if c3[0] == ':' then "|" + c3 else c3;
      Ok(if c4[|c4| - 1] == ':' then c4 + "|" else c4)
  }

  /** Lines 19-24: deletes the backslash and `\x14`, and spells every repeat junction `:||:`. */
  function NormaliseBars(c: string): (r: string)
    ensures Backslash !in r && Ctrl14 !in r
    ensures forall ch :: ch in r ==> ch in c || ch == '|' || ch == ':'
  {
    var c1 := Replace(c, [Backslash], "");
    DeleteChar(c, Backslash);
    ReplaceCharsFrom(c, [Backslash], "");
    var c2 := Replace(c1, [Ctrl14], "");
    DeleteChar(c1, Ctrl14);
    ReplaceCharsFrom(c1, [Ctrl14], "");
    var c3 := Replace(c2, "|]", "||");
    ReplaceCharsFrom(c2, "|]", "||");
    var c4 := Replace(c3, "::", ":||:");
    ReplaceCharsFrom(c3, "::", ":||:");
    var c5 := Replace(c4, ":|:", ":||:");
    ReplaceCharsFrom(c4, ":|:", ":||:");
    var c6 := Replace(c5, ":|||:", ":||:");
    ReplaceCharsFrom(c5, ":|||:", ":||:");
    c6
  }

  /**
   Lines 3-25. The result holds no whitespace, no backslash and no `\x14`. The
   only ValueError is a composer field with no bar line after it.
   */
  function RemoveWhitespace(abc: string): (r: Outcome)
    ensures r.Ok? ==> forall k :: 0 <= k < |r.abc| ==> !IsSpace(r.abc[k])
    ensures r.Ok? ==> Backslash !in r.abc && Ctrl14 !in r.abc
    ensures r == Crash(ValueError) <==> StartsWith(RemoveSpaces(abc), "C:") && '|' !in abc
    ensures r.Crash? ==> r.exc == ValueError || r.exc == IndexError
    ensures !r.OutOfFuel?
  {
    var c := RemoveSpaces(abc);
    RemoveSpacesSpec(abc);
    assert '|' in c <==> '|' in abc;
    match DropComposer(c)
    case Ok(d) =>
      (match TrimEdges(d)
       case Ok(e) =>
         var r := NormaliseBars(e);
         SpacesStayOut(c, d, e, r);
         Ok(r)
       case other => other)
    case other => other
  }

  /** Each stage takes its characters from the one before, adding only `|` and `:`, so no whitespace comes back. */
  lemma SpacesStayOut(c: string, d: string, e: string, r: string)
    requires forall ch :: ch in c ==> !IsSpace(ch)
    requires forall ch :: ch in d ==> ch in c
    requires forall ch :: ch in e ==> ch in d || ch == '|'
    requires forall ch :: ch in r ==> ch in e || ch == '|' || ch == ':'
    ensures forall k :: 0 <= k < |r| ==> !IsSpace(r[k])
  {
    forall k | 0 <= k < |r| ensures !IsSpace(r[k]) {
      assert r[k] in r;
    }
  }

  // ---------------------------------------------------------------------
  // remove_simple_repeat
  // ---------------------------------------------------------------------

  /** Each piece of a split on a pattern that occurs is shorter than the text. */
  lemma PiecesShorter(s: string, p: string)
    requires |p| > 0 && Contains(s, p)
    ensures forall k :: 0 <= k < |Split(s, p)| ==> |Split(s, p)[k]| < |s|
  {
    var xs := Split(s, p);
    SplitLengths(s, p);
    forall k | 0 <= k < |xs| ensures |xs[k]| < |s| {
      PieceAtMostSum(xs, k);
    }
  }

  lemma {:induction false} PieceAtMostSum(xs: seq<string>, k: nat)
    requires k < |xs|
    ensures |xs[k]| <= SumLengths(xs)
    decreases |xs|
  {
    if k > 0 {
      PieceAtMostSum(xs[1..], k - 1);
    }
  }

  /**
   Lines 168-195. When `:|` is strictly more frequent than `|:`, the text
   is split on `:|`: each piece but the last is a repeated segment. Otherwise
   it is split on `|:`: each piece but the first is one. A segment holding
   the other marker is expanded recursively. Any other segment x is written
   `x|x|`.
   */
  function RemoveSimpleRepeat(abc: string): (r: string)
    ensures !Contains(abc, ":|") && !Contains(abc, "|:") ==> r == abc + "|"
    decreases |abc|, 2, 0
  {
    if Count(abc, ":|") > Count(abc, "|:") then SplitOnClose(abc) else SplitOnOpen(abc)
  }

  /** Lines 172-181: the text is split on `:|`; the last piece is the unrepeated tail. */
  function SplitOnClose(abc: string): (r: string)
    requires Contains(abc, ":|")
    decreases |abc|, 1, 0
  {
    var temp := Split(abc, ":|");
    PiecesShorter(abc, ":|");
    var last := temp[|temp| - 1];
    var end := if Contains(last, "|:") then RemoveSimpleRepeat(last) else last;
    ExpandSegments(temp[..|temp| - 1], "|:", "|", |abc|) + end + "|"
  }

  /**
   Lines 184-194: the text is split on `|:`; the first piece is the
   unrepeated head. Without any `|:` the head is the whole text, which then
   holds no `:|` either, and the loop has nothing to do.
   */
  function SplitOnOpen(abc: string): (r: string)
    requires Contains(abc, ":|") ==> Contains(abc, "|:")
    ensures !Contains(abc, "|:") ==> r == abc + "|"
    decreases |abc|, 1, 0
  {
    var temp := Split(abc, "|:");
    var beg := temp[0];
    if Contains(abc, "|:") then
      PiecesShorter(abc, "|:");
      var head := if Contains(beg, ":|") then RemoveSimpleRepeat(beg) else beg + "|";
      head + ExpandSegments(temp[1..], ":|", "", |abc|)
    else
      assert temp == [abc];
      beg + "|"
  }

  /**
   The loops at lines 176-180 and 190-194. A segment holding `inner` is
   expanded recursively and followed by `after`. Any other segment x
   becomes `x|x|`.
   */
  function ExpandSegments(xs: seq<string>, inner: string, after: string, bound: nat): (r: string)
    requires forall k :: 0 <= k < |xs| ==> |xs[k]| < bound
    decreases bound, 0, |xs|
  {
    if |xs| == 0 then ""
    else
      var x := xs[0];
      (if Contains(x, inner) then RemoveSimpleRepeat(x) + after else x + "|" + x + "|")
      + ExpandSegments(xs[1..], inner, after, bound)
  }

  /** The reference meaning of a list of plain repeated segments: each x is played twice, as `x|x|`. */
  function Twice(xs: seq<string>): string
    decreases |xs|
  {
    if |xs| == 0 then "" else xs[0] + "|" + xs[0] + "|" + Twice(xs[1..])
  }

  lemma {:induction false} ExpandPlainSegments(xs: seq<string>, inner: string, after: string, bound: nat)
    requires forall k :: 0 <= k < |xs| ==> |xs[k]| < bound
    requires forall k :: 0 <= k < |xs| ==> !Contains(xs[k], inner)
    ensures ExpandSegments(xs, inner, after, bound) == Twice(xs)
    decreases |xs|
  {
    if |xs| > 0 {
      ExpandPlainSegments(xs[1..], inner, after, bound);
    }
  }

  /** A piece of a split cannot contain a pattern the whole text lacks. */
  lemma PieceLacks(s: string, p: string, t: string, k: nat)
    requires |p| > 0 && k < |Split(s, p)| && !Contains(s, t)
    ensures !Contains(Split(s, p)[k], t)
  {
    var xs := Split(s, p);
    SplitSpec(s, p);
    if Contains(xs[k], t) {
      JoinPieceContains(xs, p, k, t);
    }
  }

  lemma {:induction false} JoinPieceContains(xs: seq<string>, sep: string, k: nat, t: string)
    requires k < |xs| && Contains(xs[k], t)
    ensures Contains(Join(xs, sep), t)
    decreases |xs|
  {
    if |xs| > 1 {
      var rest := Join(xs[1..], sep);
      if k == 0 {
        ContainsInPrefix(xs[0], sep + rest, t);
        assert xs[0] + (sep + rest) == Join(xs, sep);
      } else {
        JoinPieceContains(xs[1..], sep, k - 1, t);
        ContainsInSuffix(xs[0] + sep, rest, t);
      }
    }
  }

  lemma ContainsInPrefix(x: string, y: string, t: string)
    requires Contains(x, t)
    ensures Contains(x + y, t)
  {
    var i := Find(x, t).value;
    FindSpec(x, t);
    assert (x + y)[i..i + |t|] == x[i..i + |t|];
    assert OccursAt(x + y, t, i);
    ContainsIff(x + y, t);
  }

  lemma ContainsInSuffix(x: string, y: string, t: string)
    requires Contains(y, t)
    ensures Contains(x + y, t)
  {
    var i := Find(y, t).value;
    FindSpec(y, t);
    assert (x + y)[|x| + i..|x| + i + |t|] == y[i..i + |t|];
    assert OccursAt(x + y, t, |x| + i);
    ContainsIff(x + y, t);
  }

  /** A text with closing markers only: every segment before a `:|` is played twice, and the tail once. */
  lemma SimpleRepeatCloseOnly(abc: string)
    requires Contains(abc, ":|") && !Contains(abc, "|:")
    ensures var temp := Split(abc, ":|");
      RemoveSimpleRepeat(abc) == Twice(temp[..|temp| - 1]) + temp[|temp| - 1] + "|"
  {
    var temp := Split(abc, ":|");
    PiecesShorter(abc, ":|");
    forall k | 0 <= k < |temp| ensures !Contains(temp[k], "|:") {
      PieceLacks(abc, ":|", "|:", k);
    }
    assert Count(abc, ":|") > Count(abc, "|:") == 0;
    assert RemoveSimpleRepeat(abc) == SplitOnClose(abc);
    ExpandPlainSegments(temp[..|temp| - 1], "|:", "|", |abc|);
  }

  /** A text with opening markers only: the head is kept once, and every segment after a `|:` is played twice. */
  lemma SimpleRepeatOpenOnly(abc: string)
    requires Contains(abc, "|:") && !Contains(abc, ":|")
    ensures var temp := Split(abc, "|:");
      RemoveSimpleRepeat(abc) == temp[0] + "|" + Twice(temp[1..])
  {
    var temp := Split(abc, "|:");
    PiecesShorter(abc, "|:");
    forall k | 0 <= k < |temp| ensures !Contains(temp[k], ":|") {
      PieceLacks(abc, "|:", ":|", k);
    }
    assert RemoveSimpleRepeat(abc) == SplitOnOpen(abc);
    ExpandPlainSegments(temp[1..], ":|", "", |abc|);
  }

  // ---------------------------------------------------------------------
  // remove_repeats, remove_dual_repeat and remove_single_dual_repeat
  // ---------------------------------------------------------------------

  /** Line 211: the text has a first or a second ending. */
  predicate HasEnding(abc: string)
  {
    Contains(abc, "|1") || Contains(abc, ":|2") || Contains(abc, "|[1") || Contains(abc, ":|[2")
  }

  /** Lines 98-103: the alternative spellings of the endings become `|1` and `:|2`. */
  function NormaliseEndings(abc: string): string
  {
    var a := Replace(Replace(abc, "]|", "||"), "|!|", "|||");
    var a := Replace(Replace(Replace(a, "|[1", "|1"), "[1", "|1"), "1.", "|1");
    var a := Replace(Replace(Replace(a, ":|2.", ":|2"), ":|[2", ":|2"), ":||2", ":|2");
    Replace(Replace(Replace(a, ":|||2", ":|2"), "|[2", ":|2"), ":|1", ":|2")
  }

  /** Lines 154-155: every `|2` becomes `:|2`. */
  function RetryEndings(abc: string): string
  {
    Replace(Replace(abc, "|2", ":|2"), "::|2", ":|2")
  }

  /** Line 111: every segment before a `:|2` holds a `|1`. */
  predicate AllHaveFirstEnding(heads: seq<string>)
  {
    forall k :: 0 <= k < |heads| ==> Contains(heads[k], "|1")
  }

  /** Line 44: a leading `|:` is dropped. */
  function Unopened(x: string): (r: string)
    ensures StartsWith(x, "|:") ==> x == "|:" + r
    ensures !StartsWith(x, "|:") ==> r == x
  {
    StartsWithIsPrefix(x, "|:");
    if StartsWith(x, "|:") then x[2..] else x
  }

  /** Lines 218-220: collapses `||`, `|]` and `[|` to `|` until none is left. */
  function CollapseBars(c: string): (r: string)
    ensures |r| == 0 <==> |c| == 0
    ensures !Contains(r, "[|")
    ensures Contains(r, BadMark) <==> Contains(c, BadMark)
  {
    var c1 := Collapse(c, "||", "|");
    var c2 := Collapse(c1, "|]", "|");
    CollapseNonEmpty(c, "||", "|");
    CollapseNonEmpty(c1, "|]", "|");
    CollapseNonEmpty(c2, "[|", "|");
    CollapseKeepsPattern(c, "||", "|", BadMark);
    CollapseKeepsPattern(c1, "|]", "|", BadMark);
    CollapseKeepsPattern(c2, "[|", "|", BadMark);
    Collapse(c2, "[|", "|")
  }

  /**
   Lines 218-227: `CollapseBars`, then a leading `|` goes and the tune is
   closed with `]`. A text holding a sentinel becomes exactly
   `!!BAD ABC!!`. An empty text raises an IndexError at line 221.
   */
  function Finish(c: string): (r: Outcome)
    ensures r.Crash? <==> c == ""
    ensures r.Crash? ==> r.exc == IndexError
    ensures !r.OutOfFuel?
    ensures c != "" && Contains(c, BadMark) ==> r == Ok(Bad)
    ensures c != "" && !Contains(c, BadMark) ==>
      r.Ok? && r.abc != Bad && |r.abc| > 0 && r.abc[|r.abc| - 1] == ']' && !Contains(r.abc, "[|") && !Contains(r.abc, BadMark)
  {
    var c3 := CollapseBars(c);
    if |c3| == 0 then Crash(IndexError)
    else
      var c4 := DropLeadingBar(c3);
      if Contains(c4, BadMark) then Ok(Bad)
      else
        AppendKeepsAbsent(c4, ']', "[|");
        AppendKeepsAbsent(c4, ']', BadMark);
        var r := c4 + "]";
        assert r[|r| - 1] == ']' != Bad[|Bad| - 1];
        Ok(r)
  }

  /** Line 221: a leading `|` goes. Neither `[|` nor a sentinel can appear or vanish. */
  function DropLeadingBar(c: string): (r: string)
    requires |c| > 0
    ensures Contains(r, BadMark) <==> Contains(c, BadMark)
    ensures !Contains(c, "[|") ==> !Contains(r, "[|")
  {
    if c[0] == '|' then
      SuffixKeepsAbsent(c, 1, "[|");
      assert c == "" + "|" + c[1..];
      ContainsAcross("", "|", c[1..], BadMark);
      c[1..]
    else c
  }

  /**
   Lines 210-227. The result is either exactly `!!BAD ABC!!` or a bar
   list ending in `]` without `[|`. A ValueError never escapes.
   */
  function RemoveRepeats(abc: string, fuel: nat): (r: Outcome)
    ensures r.Ok? ==> r.abc == Bad || (|r.abc| > 0 && r.abc[|r.abc| - 1] == ']' && !Contains(r.abc, "[|"))
    ensures r.Crash? ==> r.exc == IndexError
    decreases fuel, 0, 0
  {
    if fuel == 0 then OutOfFuel
    else
      match Expand(abc, fuel - 1)
      case Ok(c) => Finish(c)
      case other => other
  }

  /** Lines 211-216: the dispatch on the kind of repeat the text holds. */
  function Expand(abc: string, fuel: nat): (r: Outcome)
    ensures r.Crash? ==> r.exc == IndexError
    ensures !HasEnding(abc) && !Contains(abc, "|:") && !Contains(abc, ":|") ==> r == Ok(abc)
    decreases fuel, 1, 0
  {
    if HasEnding(abc) then RemoveDualRepeat(abc, fuel)
    else if Contains(abc, "|:") || Contains(abc, ":|") then Ok(RemoveSimpleRepeat(abc))
    else Ok(abc)
  }

  /**
   Lines 90-95: an empty text is returned as it is, and a text opening
   with `1` or `:` is malformed. Otherwise the endings are normalised and
   checked by `ExpandEndings`.
   */
  function RemoveDualRepeat(abc: string, fuel: nat): (r: Outcome)
    ensures r.Crash? ==> r.exc == IndexError
    ensures fuel > 0 && abc == "" ==> r == Ok("")
    ensures fuel > 0 && |abc| > 0 && (abc[0] == '1' || abc[0] == ':') ==> r == Ok(Malform)
    ensures fuel > 0 && |abc| > 0 && abc[0] != '1' && abc[0] != ':' ==> r == ExpandEndings(NormaliseEndings(abc), fuel - 1)
    decreases fuel, 0, 0
  {
    if fuel == 0 then OutOfFuel
    else if |abc| == 0 then Ok("")
    else if abc[0] == '1' || abc[0] == ':' then Ok(Malform)
    else ExpandEndings(NormaliseEndings(abc), fuel - 1)
  }

  /**
   Lines 104-165, on the normalised text `n`. More `:|2` than `|1` gives
   END2. Equal counts with a segment before a `:|2` that lacks `|1` give
   MISMATCH. More `|1` than `:|2`, with no stray `|2` left to repair, gives
   END1.
   */
  function ExpandEndings(n: string, fuel: nat): (r: Outcome)
    ensures r.Crash? ==> r.exc == IndexError
    ensures Count(n, ":|2") > Count(n, "|1") ==> r == Ok(End2)
    ensures Count(n, ":|2") == Count(n, "|1") && !AllHaveFirstEnding(Split(n, ":|2")[..Count(n, ":|2")])
            ==> r == Ok(MismatchEnds)
    ensures Count(n, "|1") > Count(n, ":|2") && Count(n, "|2") == Count(n, ":|2") ==> r == Ok(End1)
    decreases fuel, 2, 0
  {
    var count1 := Count(n, "|1");
    var count2 := Count(n, ":|2");
    if count1 == count2 then
      var temp := Split(n, ":|2");
      var heads := temp[..|temp| - 1];
      assert heads == Split(n, ":|2")[..count2];
      if !AllHaveFirstEnding(heads) then Ok(MismatchEnds)
      else if |heads| >= 2 then
        match ExpandPairs(n, count1, fuel, "")
        case Crash(ValueError) => Ok(Bad)
        case other => other
      else if |heads| == 1 then RemoveSingleDualRepeat(n, fuel)
      else Ok("")
    else if count1 > count2 then
      if Count(n, "|2") != count2 then RemoveDualRepeat(RetryEndings(n), fuel)
      else Ok(End1)
    else Ok(End2)
  }

  /**
   Lines 116-143: expands `k` ending pairs one after another. Each cut ends
   where the second ending has spanned as many bars as the first (see
   `BarWalk.SecondEndingMirrorsFirst`). Text after the last cut is dropped.
   */
  function ExpandPairs(abc: string, k: nat, fuel: nat, acc: string): (r: Outcome)
    ensures k == 0 ==> r == Ok(acc)
    ensures k > 0 && (!Contains(abc, "|1") || !Contains(abc, ":|2")) ==> r == Crash(ValueError)
    ensures r.Ok? ==> |acc| <= |r.abc| && r.abc[..|acc|] == acc
    ensures r.Crash? ==> r.exc == IndexError || r.exc == ValueError
    decreases fuel, 1, k
  {
    if k == 0 then Ok(acc)
    else
      match Find(abc, "|1")
      case None => Crash(ValueError)
      case Some(i1) =>
        match Find(abc, ":|2")
        case None => Crash(ValueError)
        case Some(i2) =>
          match CountFirstEnding(abc, i1 + 1, i2 + 2, 0)
          case None => Crash(IndexError)
          case Some(bars) =>
            var fin := FindSecondEnding(abc, i2 + 2, bars) - 1;
            match RemoveSingleDualRepeat(Take(abc, fin), fuel)
            case Ok(s) =>
              var r := ExpandPairs(Drop(abc, fin), k - 1, fuel, acc + s);
              assert r.Ok? ==> r.abc[..|acc|] == (acc + s)[..|acc|];
              r
            case other => other
  }

  /**
   Lines 39-87: expands the first pair of endings. The text before the first
   `:|2` holds the shared part and the first ending; the text after the
   last `:|2` is the second ending. A result that still holds a repeat
   marker, and any ValueError on the way, gives the VALUE ERROR sentinel.
   */
  function RemoveSingleDualRepeat(abc: string, fuel: nat): (r: Outcome)
    ensures r.Ok? ==> r.abc == BlankEnd2 || r.abc == ValueErrorSimple
                      || (!Contains(r.abc, ":|") && !Contains(r.abc, "|:"))
    ensures r.Crash? ==> r.exc == IndexError
    ensures fuel > 0 && !Contains(abc, ":|2") ==> r == Ok(BlankEnd2)
    ensures fuel > 0 && Contains(abc, ":|2") ==>
      var x := Unopened(Split(abc, ":|2")[0]);
      !Contains(x, ":|") && Count(x, "|:") == 0 && Count(x, "|1") != 1 ==> r == Ok(ValueErrorSimple)
    ensures fuel > 0 && Contains(abc, ":|2") ==>
      var x := Unopened(Split(abc, ":|2")[0]);
      !Contains(x, ":|") && Count(x, "|:") == 1 && Count(Split(x, "|:")[1], "|1") != 1 ==> r == Ok(ValueErrorSimple)
    decreases fuel, 0, 0
  {
    if fuel == 0 then OutOfFuel
    else
      var temp := Split(abc, ":|2");
      if |temp| == 1 then Ok(BlankEnd2)
      else
        var x := Unopened(temp[0]);
        match ExpandSingle(x, temp[|temp| - 1], fuel - 1)
        case Crash(ValueError) => Ok(ValueErrorSimple)
        case Ok(cleaned) =>
          if Contains(cleaned, ":|") || Contains(cleaned, "|:") then Ok(ValueErrorSimple) else Ok(cleaned)
        case other => other
  }

  /**
   Lines 50-81, the three cases of `remove_single_dual_repeat`. `x` is the
   text before the first `:|2` and `end` the text after the last one.
   */
  function ExpandSingle(x: string, end: string, fuel: nat): (r: Outcome)
    ensures !Contains(x, ":|") && Count(x, "|:") == 0 && Count(x, "|1") != 1 ==> r == Crash(ValueError)
    ensures !Contains(x, ":|") && Count(x, "|:") == 1 && Count(Split(x, "|:")[1], "|1") != 1 ==> r == Crash(ValueError)
    decreases fuel, 1, 0
  {
    var lrpt := Count(x, "|:");
    var rrpt := Count(x, ":|");
    if lrpt == 0 && rrpt == 0 then
      var parts := Split(x, "|1");
      if |parts| != 2 then Crash(ValueError)
      else RemoveRepeats(parts[0] + "|" + parts[1] + "|" + parts[0] + "|" + end + "|", fuel)
    else if lrpt == 1 && rrpt == 0 then
      var outer := Split(x, "|:");
      var parts := Split(outer[1], "|1");
      if |parts| != 2 then Crash(ValueError)
      else RemoveRepeats(outer[0] + "|" + parts[0] + "|" + parts[1] + "|" + parts[0] + "|" + end + "|", fuel)
    else
      var subs := Split(x, ":|");
      var last := subs[|subs| - 1];
      if !Contains(last, "|1") then Crash(ValueError)
      else if |subs| > 1 then
        var e := Collapse(last, "||", "|");
        if |e| == 0 then Crash(IndexError)
        else
          var e := if e[0] == ':' then "|" + e else e;
          var front := CloseEach(subs[..|subs| - 1]);
          match RemoveRepeats(e + ":|2" + end, fuel)
          case Ok(tail) => Ok(front + tail)
          case other => other
      else
        var pieces := Split(subs[0], "|:");
        var beg := RemoveSimpleRepeat(JoinAll(pieces[..|pieces| - 1], "|:"));
        match RemoveRepeats(pieces[|pieces| - 1] + ":|2" + end, fuel)
        case Ok(tail) => Ok(beg + tail)
        case other => other
  }

  /** Line 70: each segment y before the first ending is expanded as the repeat `y:|`. */
  function CloseEach(ys: seq<string>): string
    decreases |ys|
  {
    if |ys| == 0 then "" else RemoveSimpleRepeat(ys[0] + ":|") + CloseEach(ys[1..])
  }

  // ---------------------------------------------------------------------
  // clean
  // ---------------------------------------------------------------------

  /**
   Lines 230-233: `remove_whitespace` followed by `remove_repeats`. The only
   ValueError comes from a composer field with no bar line; every other
   failure is a sentinel or an IndexError.
   */
  function Clean(abc: string, fuel: nat): (r: Outcome)
    ensures r.Ok? ==> r.abc == Bad || (|r.abc| > 0 && r.abc[|r.abc| - 1] == ']' && !Contains(r.abc, "[|"))
    ensures r == Crash(ValueError) <==> StartsWith(RemoveSpaces(abc), "C:") && '|' !in abc
    ensures r.Crash? ==> r.exc == ValueError || r.exc == IndexError
  {
    match RemoveWhitespace(abc)
    case Ok(c) => RemoveRepeats(c, fuel)
    case other => other
  }

  /**
   Lines 210-227, the base case: a non-empty text with no repeat or ending
   marker, no `||`, `|]` or `[|`, no leading `|` and no sentinel comes back
   with `]` appended.
   */
  lemma RemoveRepeatsPlain(abc: string, fuel: nat)
    requires fuel > 0 && abc != "" && abc[0] != '|'
    requires !HasEnding(abc) && !Contains(abc, "|:") && !Contains(abc, ":|")
    requires !Contains(abc, "||") && !Contains(abc, "|]") && !Contains(abc, "[|")
    requires !Contains(abc, BadMark)
    ensures RemoveRepeats(abc, fuel) == Ok(abc + "]")
  {
    assert Expand(abc, fuel - 1) == Ok(abc);
    assert Collapse(abc, "||", "|") == abc;
    assert Collapse(abc, "|]", "|") == abc;
    assert Collapse(abc, "[|", "|") == abc;
  }
}
