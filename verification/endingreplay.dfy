/**
 What the ending expander of PreProcessing/Cleaner.py produces: the shared
 part of a tune is played before each of its two endings.

 `|1` opens the first ending and `:|2` the second (ABC notation standard
 v2.1, section 4.9). For a tune `A|B|C|1E:|2F|`, lines 50-53 of
 `remove_single_dual_repeat` write `A|B|C|E|A|B|C|F|`, and
 `remove_repeats` closes it with `]`. When the shared part opens a repeat,
 `A|:CB|1DD:|2EE|`, lines 55-59 keep the bars before `|:` once and
 replay the rest: `A|CB|DD|CB|EE|`.

 The lemmas here state that law for tunes whose bars hold notes only: a
 run of such bars is a `Bars` text. No bar line, repeat mark, ending mark
 or sentinel character stands inside a bar.
 */
module EndingReplay {
  import opened PyStr
  import opened Cleaner

  /** A character that may stand inside a bar: no bar, repeat or ending mark, no sentinel `!`, no whitespace. */
  predicate NoteChar(c: char)
  {
    c != '|' && c != ':' && c != '[' && c != ']' && c != '!' && c != '.'
    && c != Backslash && c != Ctrl14 && !IsSpace(c)
  }

  /** A character that may open a bar: a note character other than `1`, which after `|` reads as a first ending. */
  predicate Opening(c: char)
  {
    NoteChar(c) && c != '1'
  }

  /**
   A run of plain bars separated by single bar lines: note characters and
   `|` only, opening with a character that may open a bar, closing with a
   note character, and every `|` followed by a character that may open a bar.
   */
  predicate Bars(s: string)
  {
    |s| > 0 && Opening(s[0]) && NoteChar(s[|s| - 1])
    && (forall k :: 0 <= k < |s| ==> s[k] == '|' || NoteChar(s[k]))
    && (forall k :: 0 <= k < |s| - 1 && s[k] == '|' ==> Opening(s[k + 1]))
  }

  /** The trailing bar lines the tests write after the last bar. */
  predicate Tail(tail: string)
  {
    tail == "" || tail == "|" || tail == "||"
  }

  /**
   A run of bars holds no mark character, and no `|` in it, nor the one
   that follows it, stands before a character that cannot open a bar.
   */
  lemma BarsShape(s: string, c: char)
    requires Bars(s) && !Opening(c)
    ensures PairFree(s, '|', c) && PairFree(s + "|", '|', c)
    ensures c != '|' && !NoteChar(c) ==> c !in s
  {
    var t := s + "|";
    forall j | 0 <= j < |t| - 1 ensures !(t[j] == '|' && t[j + 1] == c) {
      if j < |s| - 1 {
        assert t[j] == s[j] && t[j + 1] == s[j + 1];
      } else {
        assert t[j] == s[|s| - 1];
      }
    }
    PairFreeConcat(s, "|", '|', c);
    if c != '|' && !NoteChar(c) {
      forall k | 0 <= k < |s| ensures s[k] != c {
      }
    }
  }

  /** Two runs of bars joined by one bar line are a run of bars. */
  lemma BarsJoin(a: string, b: string)
    requires Bars(a) && Bars(b)
    ensures Bars(a + "|" + b)
  {
    var s := a + "|" + b;
    assert s[0] == a[0] && s[|s| - 1] == b[|b| - 1];
    forall k | 0 <= k < |s| ensures s[k] == '|' || NoteChar(s[k]) {
      if k < |a| {
        assert s[k] == a[k];
      } else if k > |a| {
        assert s[k] == b[k - |a| - 1];
      }
    }
    forall k | 0 <= k < |s| - 1 ensures s[k] == '|' ==> Opening(s[k + 1]) {
      if k < |a| - 1 {
        assert s[k] == a[k] && s[k + 1] == a[k + 1];
      } else if k == |a| - 1 {
        assert s[k] == a[|a| - 1];
      } else if k == |a| {
        assert s[k + 1] == b[0];
      } else {
        assert s[k] == b[k - |a| - 1] && s[k + 1] == b[k - |a|];
      }
    }
  }

  /** The dispatch of `remove_repeats` (lines 211-216) passes a run of bars through untouched. */
  lemma ExpandPlain(s: string, tail: string, fuel: nat)
    requires Bars(s)
    requires Tail(tail) || tail == "]"
    ensures Expand(s + "|" + tail, fuel) == Ok(s + "|" + tail)
  {
    var t := s + "|";
    var c := t + tail;
    BarsShape(s, ':');
    BarsShape(s, '[');
    BarsShape(s, '1');
    assert ':' !in c && '[' !in c;
    CharFreePair(tail, '|', '1');
    PairFreeConcat(t, tail, '|', '1');
    PairFreeLacks(c, "|1");
    AbsentCharLacks(c, ":|2", 0);
    AbsentCharLacks(c, "|[1", 1);
    AbsentCharLacks(c, ":|[2", 0);
    AbsentCharLacks(c, "|:", 1);
    AbsentCharLacks(c, ":|", 0);
  }

  /** `||` after a run of bars collapses to one bar line. */
  lemma CollapseTrailing(s: string)
    requires Bars(s)
    ensures Collapse(s + "||", "||", "|") == s + "|"
  {
    BarsShape(s, '|');
    SplitFirstAt(s, "||", "");
    assert s + "||" + "" == s + "||";
    SplitAbsent("", "||");
    assert Replace(s + "||", "||", "|") == Join([s, ""], "|") == s + "|";
    PairFreeLacks(s + "|", "||");
    CollapseAbsent(s + "|", "||", "|");
  }

  /** Lines 218-220 on a run of bars and its trailing marks: one bar line is left. */
  lemma CollapsePlain(s: string, tail: string)
    requires Bars(s)
    requires Tail(tail) || tail == "]"
    ensures CollapseBars(s + "|" + tail) == s + "|"
  {
    var t := s + "|";
    var c := t + tail;
    BarsShape(s, '|');
    BarsShape(s, ']');
    BarsShape(s, '[');
    PairFreeLacks(t, "||");
    PairFreeLacks(t, "|]");
    assert '[' !in t;
    AbsentCharLacks(t, "[|", 0);
    CollapseAbsent(t, "|]", "|");
    CollapseAbsent(t, "[|", "|");
    var c1 := Collapse(c, "||", "|");
    if tail == "" {
      assert c == t;
      CollapseAbsent(t, "||", "|");
    } else if tail == "|" {
      assert c == s + "||";
      CollapseTrailing(s);
    } else if tail == "||" {
      SplitFirstAt(s, "||", "|");
      assert s + "||" + "|" == c;
      SplitAbsent("|", "||");
      assert Replace(c, "||", "|") == Join([s, "|"], "|") == s + "||";
      CollapseTrailing(s);
    } else {
      CharFreePair(tail, '|', '|');
      PairFreeConcat(t, tail, '|', '|');
      PairFreeLacks(c, "||");
      CollapseAbsent(c, "||", "|");
      SplitFirstAt(s, "|]", "");
      assert s + "|]" + "" == c;
      SplitAbsent("", "|]");
      assert Replace(c, "|]", "|") == Join([s, ""], "|") == t;
    }
    assert c1 == t || c1 == c;
  }

  /** Lines 218-227 on a run of bars and its trailing marks: the tune is closed with `]`. */
  lemma FinishPlain(s: string, tail: string)
    requires Bars(s)
    requires Tail(tail) || tail == "]"
    ensures Finish(s + "|" + tail) == Ok(s + "|]")
  {
    CollapsePlain(s, tail);
    BarsShape(s, '!');
    assert '!' !in s + "|";
    AbsentCharLacks(s + "|", BadMark, 0);
    assert DropLeadingBar(s + "|") == s + "|";
  }

  /** Lines 210-227: `remove_repeats` is `Finish` applied to the expansion. */
  lemma RemoveRepeatsFinish(n: string, c: string, fuel: nat)
    requires fuel >= 1
    ensures Expand(n, fuel - 1) == Ok(c) ==> RemoveRepeats(n, fuel) == Finish(c)
  {
  }

  /** `remove_repeats` (lines 210-227) closes a run of bars with `]`. */
  lemma RemoveRepeatsBars(s: string, tail: string, fuel: nat)
    requires Bars(s) && fuel > 0
    requires Tail(tail) || tail == "]"
    ensures RemoveRepeats(s + "|" + tail, fuel) == Ok(s + "|]")
  {
    var n := s + "|" + tail;
    var expandFuel := fuel - 1;
    ExpandPlain(s, tail, expandFuel);
    assert Expand(n, expandFuel) == Ok(n);
    FinishPlain(s, tail);
    assert Finish(n) == Ok(s + "|]");
    RemoveRepeatsFinish(n, n, fuel);
  }

  /** Bar lines, repeat colons and note characters only: no whitespace, no `[`, `]`, `!`, `.`, backslash or `\x14`. */
  predicate Marked(s: string)
  {
    forall k :: 0 <= k < |s| ==> s[k] == '|' || s[k] == ':' || NoteChar(s[k])
  }

  /** Every `:` in `x` closes `|:`: it is followed by a character that may open a bar. */
  predicate ColonsOpen(x: string)
  {
    forall i :: 0 <= i < |x| && x[i] == ':' ==> i + 1 < |x| && Opening(x[i + 1])
  }

  /** A run of bars is marked and holds no `:`. */
  lemma BarsMarked(s: string)
    requires Bars(s)
    ensures Marked(s) && ':' !in s && ColonsOpen(s)
  {
    BarsShape(s, ':');
  }

  /** A marked text holds none of the characters a note character excludes, besides `|` and `:`. */
  lemma MarkedLacks(s: string, c: char)
    requires Marked(s) && c != '|' && c != ':' && !NoteChar(c)
    ensures c !in s
  {
    forall k | 0 <= k < |s| ensures s[k] != c {
    }
  }

  /** No `:` of `x` stands before a bar line, and `x` does not end with `:`. */
  lemma ColonsOpenPair(x: string)
    requires ColonsOpen(x)
    ensures PairFree(x + ":", ':', '|') && PairFree(x, ':', '|')
  {
    var u := x + ":";
    forall j | 0 <= j < |u| - 1 ensures !(u[j] == ':' && u[j + 1] == '|') {
      assert u[j] == x[j];
      if j + 1 < |x| {
        assert u[j + 1] == x[j + 1];
      }
    }
    PairFreeConcat(x, ":", ':', '|');
  }

  /**
   In `x:|2end`, where every `:` of `x` opens a bar and `end` has none,
   each `:` is followed by a bar-opening character or by `|2`: no other
   pattern that starts with `:` occurs.
   */
  lemma MarkColons(x: string, end: string, p: string)
    requires ColonsOpen(x) && ':' !in end
    requires |p| >= 2 && p[0] == ':' && !Opening(p[1]) && (p[1] != '|' || (|p| >= 3 && p[2] != '2'))
    ensures !Contains(x + ":|2" + end, p)
  {
    var n := x + ":|2" + end;
    assert forall k :: 0 <= k < |x| ==> n[k] == x[k];
    assert n[|x|] == ':' && n[|x| + 1] == '|' && n[|x| + 2] == '2';
    assert forall k :: |x| + 3 <= k < |n| ==> n[k] == end[k - |x| - 3];
    forall i ensures !OccursAt(n, p, i) {
      if 0 <= i && i + |p| <= |n| {
        var w := n[i..i + |p|];
        assert w[0] == n[i] && w[1] == n[i + 1];
        if |p| >= 3 {
          assert w[2] == n[i + 2];
        }
      }
    }
    ContainsIff(n, p);
  }

  /** The tune splits at its one `:|2`. */
  lemma SplitAtSecond(x: string, end: string)
    requires ColonsOpen(x) && ':' !in end
    ensures Split(x + ":|2" + end, ":|2") == [x, end]
    ensures Contains(x + ":|2" + end, ":|2")
  {
    ColonsOpenPair(x);
    SplitFirstAt(x, ":|2", end);
    AbsentCharLacks(end, ":|2", 0);
    SplitAbsent(end, ":|2");
  }

  /** The shared bars and the first ending split at their one `|1`. */
  lemma SplitAtFirst(b: string, f: string)
    requires Bars(b) && Bars(f)
    ensures Split(b + "|1" + f, "|1") == [b, f]
    ensures Contains(b + "|1" + f, "|1")
    ensures ':' !in b + "|1" + f
  {
    BarsShape(b, '1');
    BarsShape(f, '1');
    BarsShape(b, ':');
    BarsShape(f, ':');
    SplitFirstAt(b, "|1", f);
    PairFreeLacks(f, "|1");
    SplitAbsent(f, "|1");
  }

  /** The text line 52 or 58 writes, regrouped: the trailing bar lines move behind the last bar's closing `|`. */
  lemma Regroup(s: string, g: string, tail: string)
    requires Tail(tail)
    ensures s + "|" + (g + tail) + "|" == (s + "|" + g) + "|" + tail
  {
  }

  /** Lines 50-53: no repeat marks and one `|1`: the shared bars, the first ending, the shared bars again, the second ending. */
  lemma ExpandSingleReplay(b: string, f: string, g: string, tail: string, fuel: nat)
    requires Bars(b) && Bars(f) && Bars(g) && Tail(tail) && fuel >= 1
    ensures ExpandSingle(b + "|1" + f, g + tail, fuel) == Ok(b + "|" + f + "|" + b + "|" + g + "|]")
  {
    var x := b + "|1" + f;
    SplitAtFirst(b, f);
    AbsentCharLacks(x, "|:", 1);
    AbsentCharLacks(x, ":|", 0);
    BarsJoin(b, f);
    BarsJoin(b + "|" + f, b);
    BarsJoin(b + "|" + f + "|" + b, g);
    Regroup(b + "|" + f + "|" + b, g, tail);
    RemoveRepeatsBars(b + "|" + f + "|" + b + "|" + g, tail, fuel);
  }

  /** The only `:` of `up|:y` is the one that opens the repeat. */
  lemma OpenedColons(up: string, y: string)
    requires Bars(up) && ':' !in y && |y| > 0 && Opening(y[0])
    ensures ColonsOpen(up + "|:" + y)
  {
    var x := up + "|:" + y;
    BarsShape(up, ':');
    assert forall k :: 0 <= k < |up| ==> x[k] == up[k];
    assert x[|up|] == '|' && x[|up| + 1] == ':' && x[|up| + 2] == y[0];
    assert forall k :: |up| + 2 <= k < |x| ==> x[k] == y[k - |up| - 2];
  }

  /**
   Lines 55-59 with the split pieces named: one `|:` and no `:|` before
   the endings, so the bars before `|:` are kept once and the bars between
   `|:` and `|1` are replayed before the second ending.
   */
  lemma OpenedStep(x: string, up: string, y: string, b: string, f: string, end: string, fuel: nat)
    requires Count(x, "|:") == 1 && !Contains(x, ":|")
    requires Split(x, "|:") == [up, y] && Split(y, "|1") == [b, f]
    ensures ExpandSingle(x, end, fuel) == RemoveRepeats(up + "|" + b + "|" + f + "|" + b + "|" + end + "|", fuel)
  {
  }

  /** The facts `OpenedStep` needs, for a tune `up|:b|1f`. */
  lemma OpenedShape(up: string, b: string, f: string)
    requires Bars(up) && Bars(b) && Bars(f)
    ensures var x := up + "|:" + (b + "|1" + f);
            Count(x, "|:") == 1 && !Contains(x, ":|") && ColonsOpen(x)
            && Split(x, "|:") == [up, b + "|1" + f] && Split(b + "|1" + f, "|1") == [b, f]
  {
    var y := b + "|1" + f;
    var x := up + "|:" + y;
    SplitAtFirst(b, f);
    BarsShape(up, ':');
    SplitFirstAt(up, "|:", y);
    AbsentCharLacks(y, "|:", 1);
    SplitAbsent(y, "|:");
    OpenedColons(up, y);
    ColonsOpenPair(x);
    PairFreeLacks(x, ":|");
  }

  /** The bars of the expanded opened tune again form plain bars. */
  lemma OpenedResult(up: string, b: string, f: string, g: string)
    requires Bars(up) && Bars(b) && Bars(f) && Bars(g)
    ensures Bars(up + "|" + b + "|" + f + "|" + b + "|" + g)
  {
    BarsJoin(up, b);
    BarsJoin(up + "|" + b, f);
    BarsJoin(up + "|" + b + "|" + f, b);
    BarsJoin(up + "|" + b + "|" + f + "|" + b, g);
  }

  /** Lines 55-59: one `|:` before the first ending: the bars before it once, then the repeated part with each ending. */
  lemma ExpandSingleOpened(up: string, b: string, f: string, g: string, tail: string, fuel: nat)
    requires Bars(up) && Bars(b) && Bars(f) && Bars(g) && Tail(tail) && fuel >= 1
    ensures ExpandSingle(up + "|:" + (b + "|1" + f), g + tail, fuel)
            == Ok(up + "|" + b + "|" + f + "|" + b + "|" + g + "|]")
  {
    var s := up + "|" + b + "|" + f + "|" + b;
    OpenedShape(up, b, f);
    OpenedStep(up + "|:" + (b + "|1" + f), up, b + "|1" + f, b, f, g + tail, fuel);
    OpenedResult(up, b, f, g);
    Regroup(s, g, tail);
    RemoveRepeatsBars(s + "|" + g, tail, fuel);
  }

  /**
   Lines 39-44 and 83-85 for a tune with one `:|2` whose other colons open
   repeats: the part before it is expanded with the second ending, and a
   result without repeat marks is returned as it is.
   */
  lemma SingleDualStep(abc: string, x: string, end: string, r: string, fuel: nat)
    requires abc == x + ":|2" + end
    requires |x| > 0 && x[0] != '|' && ColonsOpen(x) && ':' !in end && ':' !in r && fuel >= 1
    ensures ExpandSingle(x, end, fuel - 1) == Ok(r) ==> RemoveSingleDualRepeat(abc, fuel) == Ok(r)
  {
    SplitAtSecond(x, end);
    assert Unopened(x) == x by {
      StartsWithIsPrefix(x, "|:");
    }
    AbsentCharLacks(r, ":|", 0);
    AbsentCharLacks(r, "|:", 1);
  }

  /** What `SingleDualStep` asks of a tune `b|1f:|2g` and its replay. */
  lemma PlainShape(b: string, f: string, g: string, tail: string)
    requires Bars(b) && Bars(f) && Bars(g) && Tail(tail)
    ensures var x := b + "|1" + f;
            |x| > 0 && x[0] != '|' && ColonsOpen(x) && ':' !in g + tail
            && ':' !in b + "|" + f + "|" + b + "|" + g + "|]"
            && b + "|1" + f + ":|2" + g + tail == x + ":|2" + (g + tail)
  {
    SplitAtFirst(b, f);
    BarsMarked(b);
    BarsMarked(f);
    BarsMarked(g);
  }

  /**
   Lines 39-53: a tune `b|1f:|2g` of plain bars is expanded to
   `b|f|b|g|` and closed with `]`: the shared bars are played before
   each ending.
   */
  lemma ReplayEnding(b: string, f: string, g: string, tail: string, fuel: nat)
    requires Bars(b) && Bars(f) && Bars(g) && Tail(tail) && fuel >= 2
    ensures RemoveSingleDualRepeat(b + "|1" + f + ":|2" + g + tail, fuel)
            == Ok(b + "|" + f + "|" + b + "|" + g + "|]")
  {
    var x := b + "|1" + f;
    var e := g + tail;
    var r := b + "|" + f + "|" + b + "|" + g + "|]";
    var singleFuel := fuel - 1;
    PlainShape(b, f, g, tail);
    ExpandSingleReplay(b, f, g, tail, singleFuel);
    assert ExpandSingle(x, e, singleFuel) == Ok(r);
    SingleDualStep(b + "|1" + f + ":|2" + g + tail, x, e, r, fuel);
  }


  /** Plain bars closed with `|]` hold no `:`. */
  lemma ClosedColonFree(s: string)
    requires Bars(s)
    ensures ':' !in s + "|]"
  {
    BarsMarked(s);
  }

  /** What `SingleDualStep` asks of a tune `up|:b|1f:|2g` and its replay. */
  lemma OpenedTuneShape(up: string, b: string, f: string, g: string, tail: string)
    requires Bars(up) && Bars(b) && Bars(f) && Bars(g) && Tail(tail)
    ensures var x := up + "|:" + (b + "|1" + f);
            |x| > 0 && x[0] != '|' && ColonsOpen(x) && ':' !in g + tail
            && ':' !in up + "|" + b + "|" + f + "|" + b + "|" + g + "|]"
            && up + "|:" + b + "|1" + f + ":|2" + g + tail == x + ":|2" + (g + tail)
  {
    var x := up + "|:" + (b + "|1" + f);
    SplitAtFirst(b, f);
    OpenedColons(up, b + "|1" + f);
    assert x[0] == up[0];
    BarsMarked(g);
    OpenedResult(up, b, f, g);
    ClosedColonFree(up + "|" + b + "|" + f + "|" + b + "|" + g);
  }


  /**
   Lines 39-44 and 55-59: in a tune `up|:b|1f:|2g` the bars before `|:` are
   played once and the repeated bars `b` before each ending.
   */
  lemma ReplayEndingOpened(up: string, b: string, f: string, g: string, tail: string, fuel: nat)
    requires Bars(up) && Bars(b) && Bars(f) && Bars(g) && Tail(tail) && fuel >= 2
    ensures RemoveSingleDualRepeat(up + "|:" + b + "|1" + f + ":|2" + g + tail, fuel)
            == Ok(up + "|" + b + "|" + f + "|" + b + "|" + g + "|]")
  {
    var x := up + "|:" + (b + "|1" + f);
    var e := g + tail;
    var r := up + "|" + b + "|" + f + "|" + b + "|" + g + "|]";
    var singleFuel := fuel - 1;
    OpenedTuneShape(up, b, f, g, tail);
    ExpandSingleOpened(up, b, f, g, tail, singleFuel);
    assert ExpandSingle(x, e, singleFuel) == Ok(r);
    SingleDualStep(up + "|:" + b + "|1" + f + ":|2" + g + tail, x, e, r, fuel);
  }


  // ---------------------------------------------------------------------
  // remove_repeats and clean on a tune with one pair of endings
  // ---------------------------------------------------------------------

  lemma MarkedJoin(a: string, b: string)
    requires Marked(a) && Marked(b)
    ensures Marked(a + b)
  {
    var s := a + b;
    forall k | 0 <= k < |s| ensures s[k] == '|' || s[k] == ':' || NoteChar(s[k]) {
      if k < |a| {
        assert s[k] == a[k];
      } else {
        assert s[k] == b[k - |a|];
      }
    }
  }

  /** None of the colon spellings that lines 20-24 and 98-103 rewrite can occur in `x:|2end`. */
  lemma TuneColons(x: string, end: string)
    requires ColonsOpen(x) && ':' !in end
    ensures var n := x + ":|2" + end;
            !Contains(n, ":||2") && !Contains(n, ":|||2") && !Contains(n, ":|1")
            && !Contains(n, "::") && !Contains(n, ":|:") && !Contains(n, ":|||:")
  {
    MarkColons(x, end, ":||2");
    MarkColons(x, end, ":|||2");
    MarkColons(x, end, ":|1");
    MarkColons(x, end, "::");
    MarkColons(x, end, ":|:");
    MarkColons(x, end, ":|||:");
  }

  /** Lines 98-103 leave a tune spelled only with `|1` and `:|2` as it is. */
  lemma NormalFixed(x: string, end: string)
    requires Marked(x) && Marked(end) && ColonsOpen(x) && ':' !in end
    ensures NormaliseEndings(x + ":|2" + end) == x + ":|2" + end
  {
    var n := x + ":|2" + end;
    MarkedJoin(x, ":|2");
    MarkedJoin(x + ":|2", end);
    TuneColons(x, end);
    MarkedLacks(n, ']');
    MarkedLacks(n, '!');
    MarkedLacks(n, '[');
    MarkedLacks(n, '.');
    AbsentCharLacks(n, "]|", 0);
    AbsentCharLacks(n, "|!|", 1);
    AbsentCharLacks(n, "|[1", 1);
    AbsentCharLacks(n, "[1", 0);
    AbsentCharLacks(n, "1.", 1);
    AbsentCharLacks(n, ":|2.", 3);
    AbsentCharLacks(n, ":|[2", 2);
    AbsentCharLacks(n, "|[2", 1);
    ReplaceAbsent(n, "]|", "||");
    ReplaceAbsent(n, "|!|", "|||");
    ReplaceAbsent(n, "|[1", "|1");
    ReplaceAbsent(n, "[1", "|1");
    ReplaceAbsent(n, "1.", "|1");
    ReplaceAbsent(n, ":|2.", ":|2");
    ReplaceAbsent(n, ":|[2", ":|2");
    ReplaceAbsent(n, ":||2", ":|2");
    ReplaceAbsent(n, ":|||2", ":|2");
    ReplaceAbsent(n, "|[2", ":|2");
    ReplaceAbsent(n, ":|1", ":|2");
  }

  /**
   Lines 90-113 and 211-212: a tune with one `|1` before one `:|2` goes
   straight to `remove_single_dual_repeat`.
   */
  lemma DualStep(x: string, end: string, fuel: nat)
    requires Marked(x) && Marked(end) && ColonsOpen(x) && ':' !in end
    requires |x| > 0 && Opening(x[0]) && Contains(x, "|1")
    requires Count(x + ":|2" + end, "|1") == 1 && fuel >= 1
    ensures Expand(x + ":|2" + end, fuel) == RemoveSingleDualRepeat(x + ":|2" + end, fuel - 1)
  {
    var n := x + ":|2" + end;
    SplitAtSecond(x, end);
    NormalFixed(x, end);
    assert n[0] == x[0];
    assert Split(n, ":|2")[..1] == [x];
  }

  /** Lines 19-24 change nothing in a text without a backslash, `\x14`, `]` or a doubled repeat junction. */
  lemma NormaliseBarsFixed(n: string)
    requires Backslash !in n && Ctrl14 !in n && ']' !in n
    requires !Contains(n, "::") && !Contains(n, ":|:") && !Contains(n, ":|||:")
    ensures NormaliseBars(n) == n
  {
    AbsentCharLacks(n, [Backslash], 0);
    AbsentCharLacks(n, [Ctrl14], 0);
    AbsentCharLacks(n, "|]", 1);
    ReplaceAbsent(n, [Backslash], "");
    ReplaceAbsent(n, [Ctrl14], "");
    ReplaceAbsent(n, "|]", "||");
    ReplaceAbsent(n, "::", ":||:");
    ReplaceAbsent(n, ":|:", ":||:");
    ReplaceAbsent(n, ":|||:", ":||:");
  }

  /** Lines 8-17 change nothing in a text that opens with a note and does not end in `:`. */
  lemma TrimEdgesFixed(n: string)
    requires |n| > 0 && n[0] != '[' && n[0] != '|' && n[0] != ':' && n[|n| - 1] != ':'
    ensures TrimEdges(n) == Ok(n)
  {
    StartsWithIsPrefix(n, "[|:");
    StartsWithIsPrefix(n, "||:");
    StartsWithIsPrefix(n, "[|");
    StartsWithIsPrefix(n, "|");
  }

  /** Lines 3-25 leave a tune with no spaces, no stray colons and a plain first bar as it is. */
  lemma WhitespaceFixed(x: string, end: string)
    requires Marked(x) && Marked(end) && ColonsOpen(x) && ':' !in end
    requires |x| >= 2 && Opening(x[0]) && x[1] != ':'
    ensures RemoveWhitespace(x + ":|2" + end) == Ok(x + ":|2" + end)
  {
    var n := x + ":|2" + end;
    MarkedJoin(x, ":|2");
    MarkedJoin(x + ":|2", end);
    RemoveSpacesSpec(n);
    assert n[0] == x[0] && n[1] == x[1];
    StartsWithIsPrefix(n, "C:");
    assert n[|n| - 1] != ':';
    TrimEdgesFixed(n);
    TuneColons(x, end);
    MarkedLacks(n, Backslash);
    MarkedLacks(n, Ctrl14);
    MarkedLacks(n, ']');
    NormaliseBarsFixed(n);
  }

  /** `|1` occurs once in `h|1rest` when neither side holds it. */
  lemma FirstEndingOnce(h: string, rest: string)
    requires PairFree(h + "|", '|', '1') && PairFree(rest, '|', '1')
    ensures Count(h + "|1" + rest, "|1") == 1 && Contains(h + "|1" + rest, "|1")
  {
    SplitFirstAt(h, "|1", rest);
    PairFreeLacks(rest, "|1");
    SplitAbsent(rest, "|1");
  }

  /** After the first ending no bar opens with `1`. */
  lemma RestFree(f: string, g: string, tail: string)
    requires Bars(f) && Bars(g) && Tail(tail)
    ensures PairFree(f + ":|2" + g + tail, '|', '1')
  {
    BarsShape(f, '1');
    BarsShape(g, '1');
    CharFreePair(tail, '|', '1');
    PairFreeConcat(g, tail, '|', '1');
    PairFreeConcat(":|2", g + tail, '|', '1');
    PairFreeConcat(f, ":|2" + (g + tail), '|', '1');
    assert f + ":|2" + g + tail == f + (":|2" + (g + tail));
  }

  /** What `DualStep` and `WhitespaceFixed` ask of a tune `b|1f:|2g`. */
  lemma PlainTuneFacts(b: string, f: string, g: string, tail: string)
    requires Bars(b) && Bars(f) && Bars(g) && Tail(tail)
    ensures var x := b + "|1" + f;
            Marked(x) && Marked(g + tail) && |x| >= 2 && Opening(x[0]) && x[1] != ':'
            && Contains(x, "|1") && Count(x + ":|2" + (g + tail), "|1") == 1
  {
    var x := b + "|1" + f;
    SplitAtFirst(b, f);
    BarsMarked(b);
    BarsMarked(f);
    BarsMarked(g);
    MarkedJoin(b, "|1");
    MarkedJoin(b + "|1", f);
    MarkedJoin(g, tail);
    assert x[0] == b[0];
    assert x[1] == if |b| > 1 then b[1] else '|';
    BarsShape(b, '1');
    RestFree(f, g, tail);
    FirstEndingOnce(b, f + ":|2" + g + tail);
    assert x + ":|2" + (g + tail) == b + "|1" + (f + ":|2" + g + tail);
  }

  /** The head `up|:b|1f` of an opened tune is marked and opens with a note. */
  lemma OpenedHead(up: string, b: string, f: string)
    requires Bars(up) && Bars(b) && Bars(f)
    ensures var x := up + "|:" + (b + "|1" + f);
            Marked(x) && |x| >= 2 && Opening(x[0]) && x[1] != ':'
  {
    var x := up + "|:" + (b + "|1" + f);
    BarsMarked(up);
    BarsMarked(b);
    BarsMarked(f);
    MarkedJoin(b, "|1");
    MarkedJoin(b + "|1", f);
    MarkedJoin("|:", b + "|1" + f);
    MarkedJoin(up, "|:" + (b + "|1" + f));
    assert x == up + ("|:" + (b + "|1" + f));
    assert x[0] == up[0];
    assert x[1] == if |up| > 1 then up[1] else '|';
  }

  /** No bar before the first ending of an opened tune opens with `1`. */
  lemma OpenedHeadFree(up: string, b: string)
    requires Bars(up) && Bars(b)
    ensures PairFree(up + "|:" + b + "|", '|', '1')
  {
    BarsShape(up, '1');
    BarsShape(b, '1');
    PairFreeConcat("|:", b + "|", '|', '1');
    PairFreeConcat(up, "|:" + (b + "|"), '|', '1');
    assert up + "|:" + b + "|" == up + ("|:" + (b + "|"));
  }

  /** `|1` occurs in `h|1f`, and once in `h|1rest`. */
  lemma FirstEndingIn(h: string, f: string, rest: string)
    requires PairFree(h + "|", '|', '1') && PairFree(rest, '|', '1')
    ensures Contains(h + "|1" + f, "|1") && Count(h + "|1" + rest, "|1") == 1
  {
    SplitFirstAt(h, "|1", f);
    FirstEndingOnce(h, rest);
  }

  /** `|1` occurs once in an opened tune, after the repeated bars. */
  lemma OpenedFirstOnce(up: string, b: string, f: string, g: string, tail: string)
    requires Bars(up) && Bars(b) && Bars(f) && Bars(g) && Tail(tail)
    ensures var x := up + "|:" + (b + "|1" + f);
            Contains(x, "|1") && Count(x + ":|2" + (g + tail), "|1") == 1
  {
    var h := up + "|:" + b;
    var rest := f + ":|2" + g + tail;
    var x := up + "|:" + (b + "|1" + f);
    OpenedHeadFree(up, b);
    RestFree(f, g, tail);
    FirstEndingIn(h, f, rest);
    assert x == h + "|1" + f;
    assert x + ":|2" + (g + tail) == h + "|1" + rest;
  }

  /** What `DualStep` and `WhitespaceFixed` ask of a tune `up|:b|1f:|2g`. */
  lemma OpenedTuneFacts(up: string, b: string, f: string, g: string, tail: string)
    requires Bars(up) && Bars(b) && Bars(f) && Bars(g) && Tail(tail)
    ensures var x := up + "|:" + (b + "|1" + f);
            Marked(x) && Marked(g + tail) && |x| >= 2 && Opening(x[0]) && x[1] != ':'
            && Contains(x, "|1") && Count(x + ":|2" + (g + tail), "|1") == 1
  {
    OpenedHead(up, b, f);
    OpenedFirstOnce(up, b, f, g, tail);
    BarsMarked(g);
    MarkedJoin(g, tail);
  }

  /** The expansion of a tune `b|1f:|2g` is again plain bars. */
  lemma PlainResult(b: string, f: string, g: string)
    requires Bars(b) && Bars(f) && Bars(g)
    ensures Bars(b + "|" + f + "|" + b + "|" + g)
  {
    BarsJoin(b, f);
    BarsJoin(b + "|" + f, b);
    BarsJoin(b + "|" + f + "|" + b, g);
  }

  /** Lines 218-227 leave plain bars closed with `|]` as they are. */
  lemma FinishFixed(s: string)
    requires Bars(s)
    ensures Finish(s + "|]") == Ok(s + "|]")
  {
    FinishPlain(s, "]");
    assert s + "|" + "]" == s + "|]";
  }

  /**
   Lines 210-227 on a tune `x:|2e` that goes straight to
   `remove_single_dual_repeat`: an expansion that `Finish` leaves as it is
   is the result of `remove_repeats`.
   */
  lemma RepeatsChain(x: string, e: string, r: string, fuel: nat)
    requires Marked(x) && Marked(e) && ColonsOpen(x) && ':' !in e
    requires |x| > 0 && Opening(x[0]) && Contains(x, "|1")
    requires Count(x + ":|2" + e, "|1") == 1 && fuel >= 2
    requires Finish(r) == Ok(r)
    ensures RemoveSingleDualRepeat(x + ":|2" + e, fuel - 2) == Ok(r) ==> RemoveRepeats(x + ":|2" + e, fuel) == Ok(r)
  {
    var expandFuel := fuel - 1;
    DualStep(x, e, expandFuel);
    RemoveRepeatsFinish(x + ":|2" + e, r, fuel);
  }

  /**
   Lines 210-227 on a tune `b|1f:|2g` of plain bars: `remove_repeats`
   plays the shared bars before each ending and closes the tune with `]`.
   */
  lemma ReplayRemoveRepeats(b: string, f: string, g: string, tail: string, fuel: nat)
    requires Bars(b) && Bars(f) && Bars(g) && Tail(tail) && fuel >= 4
    ensures RemoveRepeats(b + "|1" + f + ":|2" + g + tail, fuel)
            == Ok(b + "|" + f + "|" + b + "|" + g + "|]")
  {
    var x := b + "|1" + f;
    var e := g + tail;
    var r := b + "|" + f + "|" + b + "|" + g + "|]";
    var dualFuel := fuel - 2;
    PlainShape(b, f, g, tail);
    PlainTuneFacts(b, f, g, tail);
    PlainResult(b, f, g);
    FinishFixed(b + "|" + f + "|" + b + "|" + g);
    assert Finish(r) == Ok(r);
    ReplayEnding(b, f, g, tail, dualFuel);
    assert RemoveSingleDualRepeat(x + ":|2" + e, dualFuel) == Ok(r);
    RepeatsChain(x, e, r, fuel);
  }

  /** Lines 210-227 on a tune `up|:b|1f:|2g`: the bars before `|:` once, the repeated bars before each ending. */
  lemma ReplayRemoveRepeatsOpened(up: string, b: string, f: string, g: string, tail: string, fuel: nat)
    requires Bars(up) && Bars(b) && Bars(f) && Bars(g) && Tail(tail) && fuel >= 4
    ensures RemoveRepeats(up + "|:" + b + "|1" + f + ":|2" + g + tail, fuel)
            == Ok(up + "|" + b + "|" + f + "|" + b + "|" + g + "|]")
  {
    var x := up + "|:" + (b + "|1" + f);
    var e := g + tail;
    var r := up + "|" + b + "|" + f + "|" + b + "|" + g + "|]";
    var dualFuel := fuel - 2;
    OpenedTuneShape(up, b, f, g, tail);
    OpenedTuneFacts(up, b, f, g, tail);
    OpenedResult(up, b, f, g);
    FinishFixed(up + "|" + b + "|" + f + "|" + b + "|" + g);
    assert Finish(r) == Ok(r);
    ReplayEndingOpened(up, b, f, g, tail, dualFuel);
    assert RemoveSingleDualRepeat(x + ":|2" + e, dualFuel) == Ok(r);
    RepeatsChain(x, e, r, fuel);
  }


  /** Lines 230-233: a tune that `remove_whitespace` leaves as it is goes to `remove_repeats` as it is. */
  lemma CleanStep(n: string, fuel: nat)
    ensures RemoveWhitespace(n) == Ok(n) ==> Clean(n, fuel) == RemoveRepeats(n, fuel)
  {
  }

  /**
   Lines 230-233 on a tune `b|1f:|2g` of plain bars: `clean` plays the
   shared bars before each ending and closes the tune with `]`.
   */
  lemma CleanReplay(b: string, f: string, g: string, tail: string, fuel: nat)
    requires Bars(b) && Bars(f) && Bars(g) && Tail(tail) && fuel >= 4
    ensures Clean(b + "|1" + f + ":|2" + g + tail, fuel) == Ok(b + "|" + f + "|" + b + "|" + g + "|]")
  {
    var x := b + "|1" + f;
    var e := g + tail;
    var n := b + "|1" + f + ":|2" + g + tail;
    PlainShape(b, f, g, tail);
    PlainTuneFacts(b, f, g, tail);
    WhitespaceFixed(x, e);
    assert RemoveWhitespace(n) == Ok(n);
    ReplayRemoveRepeats(b, f, g, tail, fuel);
    CleanStep(n, fuel);
  }

  /** Lines 230-233 on a tune `up|:b|1f:|2g`: the bars before `|:` once, the repeated bars before each ending. */
  lemma CleanReplayOpened(up: string, b: string, f: string, g: string, tail: string, fuel: nat)
    requires Bars(up) && Bars(b) && Bars(f) && Bars(g) && Tail(tail) && fuel >= 4
    ensures Clean(up + "|:" + b + "|1" + f + ":|2" + g + tail, fuel)
            == Ok(up + "|" + b + "|" + f + "|" + b + "|" + g + "|]")
  {
    var x := up + "|:" + (b + "|1" + f);
    var e := g + tail;
    var n := up + "|:" + b + "|1" + f + ":|2" + g + tail;
    OpenedTuneShape(up, b, f, g, tail);
    OpenedTuneFacts(up, b, f, g, tail);
    WhitespaceFixed(x, e);
    assert RemoveWhitespace(n) == Ok(n);
    ReplayRemoveRepeatsOpened(up, b, f, g, tail, fuel);
    CleanStep(n, fuel);
  }

  // ---------------------------------------------------------------------
  // Examples from test_simple_dual_repeats
  // ---------------------------------------------------------------------

  /**
   `s` is the text `t`, compared character by character. The examples
   below name their tunes this way: an equation with a string literal
   would let the solver evaluate the whole cleaner on that literal.
   */
  predicate Spells(s: string, t: string)
  {
    |s| == |t| && forall k :: 0 <= k < |s| ==> s[k] == t[k]
  }

  /** `A|B|C|1E:|2F||` is the tune `b|1f:|2g` with `b = A|B|C`, `f = E`, `g = F` and two closing bars. */
  lemma DoubleBarPieces(abc: string)
    requires Spells(abc, "A|B|C|1E:|2F||")
    ensures var b, f, g, tail := abc[..5], abc[7..8], abc[11..12], abc[12..];
            Bars(b) && Bars(f) && Bars(g) && Tail(tail)
            && abc == b + "|1" + f + ":|2" + g + tail
  {
  }

  /** The cleaner replays the pieces of the tune above. */
  lemma DoubleBarReplays(abc: string, fuel: nat)
    requires Spells(abc, "A|B|C|1E:|2F||") && fuel >= 4
    ensures Clean(abc, fuel) == Ok(abc[..5] + "|" + abc[7..8] + "|" + abc[..5] + "|" + abc[11..12] + "|]")
  {
    DoubleBarPieces(abc);
    CleanReplay(abc[..5], abc[7..8], abc[11..12], abc[12..], fuel);
  }

  lemma DoubleBarOutput(abc: string)
    requires Spells(abc, "A|B|C|1E:|2F||")
    ensures Spells(abc[..5] + "|" + abc[7..8] + "|" + abc[..5] + "|" + abc[11..12] + "|]", "A|B|C|E|A|B|C|F|]")
  {
    assert abc[..5] == "A|B|C" && abc[7..8] == "E" && abc[11..12] == "F";
  }

  /** Line 59 of the tests: `A|B|C|1E:|2F||` is cleaned to `A|B|C|E|A|B|C|F|]`. */
  lemma CleanDualRepeatDoubleBar(abc: string, fuel: nat)
    requires Spells(abc, "A|B|C|1E:|2F||") && fuel >= 4
    ensures Clean(abc, fuel).Ok? && Spells(Clean(abc, fuel).abc, "A|B|C|E|A|B|C|F|]")
  {
    DoubleBarReplays(abc, fuel);
    DoubleBarOutput(abc);
  }

  /** `A|B|C|1E:|2F|` is the same tune with one closing bar. */
  lemma SingleBarPieces(abc: string)
    requires Spells(abc, "A|B|C|1E:|2F|")
    ensures var b, f, g, tail := abc[..5], abc[7..8], abc[11..12], abc[12..];
            Bars(b) && Bars(f) && Bars(g) && Tail(tail)
            && abc == b + "|1" + f + ":|2" + g + tail
  {
  }

  /** The cleaner replays the pieces of the tune above. */
  lemma SingleBarReplays(abc: string, fuel: nat)
    requires Spells(abc, "A|B|C|1E:|2F|") && fuel >= 4
    ensures Clean(abc, fuel) == Ok(abc[..5] + "|" + abc[7..8] + "|" + abc[..5] + "|" + abc[11..12] + "|]")
  {
    SingleBarPieces(abc);
    CleanReplay(abc[..5], abc[7..8], abc[11..12], abc[12..], fuel);
  }

  lemma SingleBarOutput(abc: string)
    requires Spells(abc, "A|B|C|1E:|2F|")
    ensures Spells(abc[..5] + "|" + abc[7..8] + "|" + abc[..5] + "|" + abc[11..12] + "|]", "A|B|C|E|A|B|C|F|]")
  {
    assert abc[..5] == "A|B|C" && abc[7..8] == "E" && abc[11..12] == "F";
  }

  /** Line 63 of the tests: `A|B|C|1E:|2F|` is cleaned to `A|B|C|E|A|B|C|F|]`. */
  lemma CleanDualRepeatSingleBar(abc: string, fuel: nat)
    requires Spells(abc, "A|B|C|1E:|2F|") && fuel >= 4
    ensures Clean(abc, fuel).Ok? && Spells(Clean(abc, fuel).abc, "A|B|C|E|A|B|C|F|]")
  {
    SingleBarReplays(abc, fuel);
    SingleBarOutput(abc);
  }

  /** `A|:CB|1DD:|2EE|` is the opened tune with `up = A`, `b = CB`, `f = DD`, `g = EE`. */
  lemma OpenedPieces(abc: string)
    requires Spells(abc, "A|:CB|1DD:|2EE|")
    ensures var up, b, f, g, tail := abc[..1], abc[3..5], abc[7..9], abc[12..14], abc[14..];
            Bars(up) && Bars(b) && Bars(f) && Bars(g) && Tail(tail)
            && abc == up + "|:" + b + "|1" + f + ":|2" + g + tail
  {
  }

  /** The cleaner replays the pieces of the tune above. */
  lemma OpenedReplays(abc: string, fuel: nat)
    requires Spells(abc, "A|:CB|1DD:|2EE|") && fuel >= 4
    ensures Clean(abc, fuel) == Ok(abc[..1] + "|" + abc[3..5] + "|" + abc[7..9] + "|" + abc[3..5] + "|" + abc[12..14] + "|]")
  {
    OpenedPieces(abc);
    CleanReplayOpened(abc[..1], abc[3..5], abc[7..9], abc[12..14], abc[14..], fuel);
  }

  lemma OpenedOutput(abc: string)
    requires Spells(abc, "A|:CB|1DD:|2EE|")
    ensures Spells(abc[..1] + "|" + abc[3..5] + "|" + abc[7..9] + "|" + abc[3..5] + "|" + abc[12..14] + "|]", "A|CB|DD|CB|EE|]")
  {
    assert abc[..1] == "A" && abc[3..5] == "CB" && abc[7..9] == "DD" && abc[12..14] == "EE";
  }

  /** An opened repeat with two endings: `A|:CB|1DD:|2EE|` is cleaned to `A|CB|DD|CB|EE|]`. */
  lemma CleanDualRepeatOpened(abc: string, fuel: nat)
    requires Spells(abc, "A|:CB|1DD:|2EE|") && fuel >= 4
    ensures Clean(abc, fuel).Ok? && Spells(Clean(abc, fuel).abc, "A|CB|DD|CB|EE|]")
  {
    OpenedReplays(abc, fuel);
    OpenedOutput(abc);
  }
}
