/**
 Music/Data/Tune_Cleaning.py: row filters over the tune table and
 regex rewrites of the `abc` column. With pandas before 2.0,
 `Series.str.replace` treats its pattern as a regular expression, and
 `re.sub` replaces the leftmost matches from left to right; `.` matches
 anything but a newline. The rewrites follow `re` from Python 3.7 on,
 where after an empty match the scan retries the same position for a
 non-empty one.

 The table is a sequence of rows. It is built from a dictionary, so row
 labels are unique and `frame.drop(frame[cond].index)` drops exactly the
 rows meeting `cond`, keeping the order of the others.
 */
module TuneCleaning {
  import opened PyStr

  /** A row of the tune table: its index key and the columns the filters read. */
  datatype Row = Row(key: string, meter: string, abc: string)

  // ---------------------------------------------------------------------
  // Filtering (lines 28-67)
  // ---------------------------------------------------------------------

  /** `\(\d`: an opening parenthesis followed by a digit, the mark of a tuplet. */
  predicate HasTuplet(abc: string)
  {
    exists i :: 0 <= i < |abc| - 1 && abc[i] == '(' && '0' <= abc[i + 1] <= '9'
  }

  /** `\^|_|=`: an explicit accidental. */
  predicate HasAccidental(abc: string)
  {
    '^' in abc || '_' in abc || '=' in abc
  }

  /** The rows a filter drops. */
  datatype Filter = CommonTime | Tuplets | NonDiatonic | SmallStrings(limit: int)

  predicate Drops(f: Filter, row: Row)
  {
    match f
    case CommonTime => row.meter != "4/4"
    case Tuplets => HasTuplet(row.abc)
    case NonDiatonic => HasAccidental(row.abc)
    case SmallStrings(limit) => |row.abc| < limit
  }

  /**
   `filter_common_time`, `filter_tuplets`, `filter_non_diatonic` and
   `filter_small_strings`: drop the rows the filter names, keeping the
   order of the rest.
   */
  function Apply(f: Filter, rows: seq<Row>): (r: seq<Row>)
    ensures |r| <= |rows|
    ensures forall k :: 0 <= k < |r| ==> r[k] in rows && !Drops(f, r[k])
    decreases |rows|
  {
    if |rows| == 0 then []
    else if Drops(f, rows[0]) then Apply(f, rows[1..])
    else [rows[0]] + Apply(f, rows[1..])
  }

  /** A row survives a filter exactly when it was there and the filter does not drop it. */
  lemma {:induction false} ApplyKeeps(f: Filter, rows: seq<Row>, row: Row)
    ensures row in Apply(f, rows) <==> row in rows && !Drops(f, row)
    decreases |rows|
  {
    if |rows| > 0 {
      ApplyKeeps(f, rows[1..], row);
      assert rows == [rows[0]] + rows[1..];
    }
  }

  /** Filtering distributes over concatenation, so the survivors keep their order. */
  lemma {:induction false} ApplyAppend(f: Filter, xs: seq<Row>, ys: seq<Row>)
    ensures Apply(f, xs + ys) == Apply(f, xs) + Apply(f, ys)
    decreases |xs|
  {
    if |xs| == 0 {
      assert xs + ys == ys;
    } else {
      assert (xs + ys)[1..] == xs[1..] + ys;
      ApplyAppend(f, xs[1..], ys);
    }
  }

  /** Which filters `filter_tunes` applies, and the length limit. */
  datatype FilterFlags = FilterFlags(commonTime: bool, tuplets: bool, nonDiatonic: bool, smallStrings: bool, minStrLen: int)

  /** The defaults of line 28-29. */
  const DefaultFilters := FilterFlags(true, true, true, true, 32)

  function Enabled(flags: FilterFlags): seq<Filter>
  {
    (if flags.commonTime then [CommonTime] else [])
    + (if flags.tuplets then [Tuplets] else [])
    + (if flags.nonDiatonic then [NonDiatonic] else [])
    + (if flags.smallStrings then [SmallStrings(flags.minStrLen)] else [])
  }

  function ApplyAll(fs: seq<Filter>, rows: seq<Row>): (r: seq<Row>)
    ensures |r| <= |rows|
    decreases |fs|
  {
    if |fs| == 0 then rows else ApplyAll(fs[1..], Apply(fs[0], rows))
  }

  /** `filter_tunes`: the enabled filters one after the other, in the order of lines 35-38. */
  function FilterTunes(rows: seq<Row>, flags: FilterFlags): (r: seq<Row>)
    ensures |r| <= |rows|
  {
    ApplyAll(Enabled(flags), rows)
  }

  /** Running several filters keeps exactly the rows none of them drops. */
  lemma {:induction false} ApplyAllKeeps(fs: seq<Filter>, rows: seq<Row>, row: Row)
    ensures row in ApplyAll(fs, rows) <==> row in rows && forall k :: 0 <= k < |fs| ==> !Drops(fs[k], row)
    decreases |fs|
  {
    if |fs| > 0 {
      ApplyKeeps(fs[0], rows, row);
      ApplyAllKeeps(fs[1..], Apply(fs[0], rows), row);
      assert forall k :: 1 <= k < |fs| ==> fs[k] == fs[1..][k - 1];
    }
  }

  /**
   `filter_tunes` keeps exactly the rows of the input that meet every
   enabled test: meter `4/4`, no tuplet, no accidental, at least
   `min_str_len` characters.
   */
  lemma FilterTunesKeeps(rows: seq<Row>, flags: FilterFlags, row: Row)
    ensures row in FilterTunes(rows, flags) <==>
      row in rows
      && (flags.commonTime ==> row.meter == "4/4")
      && (flags.tuplets ==> !HasTuplet(row.abc))
      && (flags.nonDiatonic ==> !HasAccidental(row.abc))
      && (flags.smallStrings ==> |row.abc| >= flags.minStrLen)
  {
    var fs := Enabled(flags);
    ApplyAllKeeps(fs, rows, row);
    var all := forall k :: 0 <= k < |fs| ==> !Drops(fs[k], row);
    assert all <==> ((flags.commonTime ==> !Drops(CommonTime, row))
      && (flags.tuplets ==> !Drops(Tuplets, row))
      && (flags.nonDiatonic ==> !Drops(NonDiatonic, row))
      && (flags.smallStrings ==> !Drops(SmallStrings(flags.minStrLen), row))) by {
      if all {
        if flags.commonTime { assert fs[0] == CommonTime; }
        if flags.tuplets { assert fs[if flags.commonTime then 1 else 0] == Tuplets; }
        if flags.nonDiatonic {
          var i := (if flags.commonTime then 1 else 0) + (if flags.tuplets then 1 else 0);
          assert fs[i] == NonDiatonic;
        }
        if flags.smallStrings {
          var i := (if flags.commonTime then 1 else 0) + (if flags.tuplets then 1 else 0) + (if flags.nonDiatonic then 1 else 0);
          assert fs[i] == SmallStrings(flags.minStrLen);
        }
      }
    }
  }

  // ---------------------------------------------------------------------
  // Span deletion: `\[.*?\]`, `".*?"`, `{.*?}` (lines 84-89, 112-117, 129-135)
  // ---------------------------------------------------------------------

  /** The first index holding `close` or a newline, or `|s|` when there is none. */
  function NextStop(s: string, close: char): (j: nat)
    ensures j <= |s|
    ensures forall k :: 0 <= k < j ==> s[k] != close && s[k] != '\n'
    ensures j < |s| ==> s[j] == close || s[j] == '\n'
    decreases |s|
  {
    if |s| == 0 || s[0] == close || s[0] == '\n' then 0 else 1 + NextStop(s[1..], close)
  }

  /**
   `re.sub(open + '.*?' + close, '', s)`: at each `open`, the shortest
   span up to the next `close` on the same line is deleted; an `open`
   with no `close` after it on its line stays, and the scan moves on.
   */
  function DeleteSpans(s: string, open: char, close: char): (r: string)
    ensures |r| <= |s|
    decreases |s|
  {
    if |s| == 0 then ""
    else
      var j := NextStop(s[1..], close);
      if s[0] == open && j < |s| - 1 && s[1 + j] == close then DeleteSpans(s[2 + j..], open, close)
      else [s[0]] + DeleteSpans(s[1..], open, close)
  }

  /** No `close` on the first line. */
  predicate NoCloseOnFirstLine(s: string, close: char)
  {
    forall k :: 0 <= k < |s| && s[k] == close ==> '\n' in s[..k]
  }

  lemma {:induction false} NoCloseOnFirstLineKept(s: string, open: char, close: char)
    requires open != '\n' && close != '\n' && NoCloseOnFirstLine(s, close)
    ensures NoCloseOnFirstLine(DeleteSpans(s, open, close), close)
    decreases |s|
  {
    if |s| > 0 {
      var j := NextStop(s[1..], close);
      if s[0] == open && j < |s| - 1 && s[1 + j] == close {
        assert false;
      } else {
        var r := DeleteSpans(s, open, close);
        if s[0] != '\n' {
          assert s[0] != close;
          assert NoCloseOnFirstLine(s[1..], close) by {
            forall k | 0 <= k < |s[1..]| && s[1..][k] == close ensures '\n' in s[1..][..k] {
              assert s[k + 1] == close;
              assert '\n' in s[..k + 1];
              var m :| 0 <= m < k + 1 && s[..k + 1][m] == '\n';
              assert m > 0 && s[1..][..k][m - 1] == '\n';
            }
          }
          NoCloseOnFirstLineKept(s[1..], open, close);
          var t := DeleteSpans(s[1..], open, close);
          assert r == [s[0]] + t;
          forall k | 0 <= k < |r| && r[k] == close ensures '\n' in r[..k] {
            assert t[k - 1] == close;
            assert r[..k] == [s[0]] + t[..k - 1];
          }
        } else {
          forall k | 0 <= k < |r| && r[k] == close ensures '\n' in r[..k] {
            assert r[0] == '\n';
          }
        }
      }
    }
  }

  /** No `open` is followed by a `close` on the same line. */
  predicate NoSpan(r: string, open: char, close: char)
  {
    forall i, j :: 0 <= i < j < |r| && r[i] == open && r[j] == close ==> '\n' in r[i + 1..j]
  }

  /** After the deletion, no `open ... close` span is left within a line. */
  lemma {:induction false} DeleteSpansLeavesNone(s: string, open: char, close: char)
    requires open != '\n' && close != '\n'
    ensures NoSpan(DeleteSpans(s, open, close), open, close)
    decreases |s|
  {
    if |s| > 0 {
      var j := NextStop(s[1..], close);
      if s[0] == open && j < |s| - 1 && s[1 + j] == close {
        DeleteSpansLeavesNone(s[2 + j..], open, close);
      } else {
        var t := DeleteSpans(s[1..], open, close);
        DeleteSpansLeavesNone(s[1..], open, close);
        if s[0] == open {
          UnclosedOpen(s, close, j);
          NoCloseOnFirstLineKept(s[1..], open, close);
        }
        ConsNoSpan(s[0], t, open, close);
      }
    }
  }

  /** An `open` whose line holds no `close` after it leaves the rest's first line without `close`. */
  lemma UnclosedOpen(s: string, close: char, j: nat)
    requires |s| > 0 && j == NextStop(s[1..], close) && !(j < |s| - 1 && s[1 + j] == close)
    ensures NoCloseOnFirstLine(s[1..], close)
  {
    forall k | 0 <= k < |s[1..]| && s[1..][k] == close ensures '\n' in s[1..][..k] {
      assert k >= j;
      if k > j {
        assert s[1..][..k][j] == '\n';
      }
    }
  }

  /** A character put in front opens no span, unless it is `open` and the first line holds a `close`. */
  lemma ConsNoSpan(c: char, t: string, open: char, close: char)
    requires NoSpan(t, open, close)
    requires c == open ==> NoCloseOnFirstLine(t, close)
    ensures NoSpan([c] + t, open, close)
  {
    var r := [c] + t;
    forall i, k | 0 <= i < k < |r| && r[i] == open && r[k] == close ensures '\n' in r[i + 1..k] {
      if i == 0 {
        assert t[k - 1] == close;
        assert r[1..k] == t[..k - 1];
      } else {
        assert r[i + 1..k] == t[i..k - 1];
      }
    }
  }

  /** Spans never cross a line, so every newline survives. */
  lemma {:induction false} DeleteSpansKeepsLines(s: string, open: char, close: char)
    requires open != '\n' && close != '\n'
    ensures multiset(DeleteSpans(s, open, close))['\n'] == multiset(s)['\n']
    decreases |s|
  {
    if |s| > 0 {
      var j := NextStop(s[1..], close);
      if s[0] == open && j < |s| - 1 && s[1 + j] == close {
        DeleteSpansKeepsLines(s[2 + j..], open, close);
        SpanHasNoLine(s, j, close);
        CountSplit(s, 2 + j, '\n');
      } else {
        DeleteSpansKeepsLines(s[1..], open, close);
        KeptCharLines(s, DeleteSpans(s, open, close), DeleteSpans(s[1..], open, close));
      }
    }
  }

  /** Keeping the first character and rewriting the rest keeps the newlines the rest keeps. */
  lemma KeptCharLines(s: string, r: string, t: string)
    requires |s| > 0 && r == [s[0]] + t && multiset(t)['\n'] == multiset(s[1..])['\n']
    ensures multiset(r)['\n'] == multiset(s)['\n']
  {
    assert s == [s[0]] + s[1..];
  }

  /** Occurrences add up across a cut. */
  lemma CountSplit(s: string, n: nat, c: char)
    requires n <= |s|
    ensures multiset(s)[c] == multiset(s[..n])[c] + multiset(s[n..])[c]
  {
    assert s == s[..n] + s[n..];
  }

  /** A deleted span holds no newline. */
  lemma SpanHasNoLine(s: string, j: nat, close: char)
    requires 0 < |s| && s[0] != '\n' && close != '\n'
    requires j == NextStop(s[1..], close) && j < |s| - 1 && s[1 + j] == close
    ensures multiset(s[..2 + j])['\n'] == 0
  {
    forall k | 0 <= k < 2 + j ensures s[k] != '\n' {
      if 0 < k < 1 + j { assert s[k] == s[1..][k - 1]; }
    }
    assert '\n' !in s[..2 + j];
  }

  /** A text without `open` is left as it is. */
  lemma {:induction false} DeleteSpansAbsent(s: string, open: char, close: char)
    requires open !in s
    ensures DeleteSpans(s, open, close) == s
    decreases |s|
  {
    if |s| > 0 {
      DeleteSpansAbsent(s[1..], open, close);
    }
  }

  // ---------------------------------------------------------------------
  // Ornaments (lines 92-109)
  // ---------------------------------------------------------------------

  /**
   `[\.~HLMOPSTuv]`: staccato, roll, fermata, accent, lower mordent, coda,
   upper mordent, segno, trill, up-bow and down-bow, the one-character
   decorations of section 4.14 of the ABC standard 2.1.
   */
  predicate Ornament(c: char)
  {
    c == '.' || c == '~' || c == 'H' || c == 'L' || c == 'M' || c == 'O'
    || c == 'P' || c == 'S' || c == 'T' || c == 'u' || c == 'v'
  }

  /** `clean_ornamentation` on one tune: every decoration character deleted. */
  function StripOrnaments(s: string): (r: string)
    ensures |r| <= |s|
    decreases |s|
  {
    if |s| == 0 then ""
    else if Ornament(s[0]) then StripOrnaments(s[1..])
    else [s[0]] + StripOrnaments(s[1..])
  }

  /**
   The decorations are gone, every other character keeps its number of
   occurrences, and stripping commutes with concatenation, so the kept
   characters stay in order.
   */
  lemma {:induction false} StripOrnamentsSpec(s: string)
    ensures forall i :: 0 <= i < |StripOrnaments(s)| ==> !Ornament(StripOrnaments(s)[i])
    ensures forall c :: !Ornament(c) ==> multiset(StripOrnaments(s))[c] == multiset(s)[c]
    decreases |s|
  {
    if |s| > 0 {
      StripOrnamentsSpec(s[1..]);
      assert s == [s[0]] + s[1..];
    }
  }

  lemma {:induction false} StripOrnamentsAppend(x: string, y: string)
    ensures StripOrnaments(x + y) == StripOrnaments(x) + StripOrnaments(y)
    decreases |x|
  {
    if |x| == 0 {
      assert x + y == y;
    } else {
      assert (x + y)[1..] == x[1..] + y;
      StripOrnamentsAppend(x[1..], y);
    }
  }

  // ---------------------------------------------------------------------
  // Bar lines (lines 120-127)
  // ---------------------------------------------------------------------

  /** The repeat and thick bar symbols of the first pattern, tried in its order. */
  predicate BarSymbolAt(s: string)
  {
    |s| >= 2 && (s[..2] == "|:" || s[..2] == ":|" || s[..2] == "|]" || s[..2] == "[|" || s[..2] == "::")
  }

  /** Line 125: each of `|:`, `:|`, `|]`, `[|`, `::` becomes `|`, scanning from the left. */
  function BarSymbols(s: string): (r: string)
    ensures |r| <= |s|
    decreases |s|
  {
    if |s| == 0 then ""
    else if BarSymbolAt(s) then "|" + BarSymbols(s[2..])
    else [s[0]] + BarSymbols(s[1..])
  }

  /** Each symbol holds a `:`, `[` or `]`; a text with none of them is unchanged. */
  lemma {:induction false} BarSymbolsPlain(s: string)
    requires ':' !in s && '[' !in s && ']' !in s
    ensures BarSymbols(s) == s
    decreases |s|
  {
    if |s| > 0 {
      BarSymbolsPlain(s[1..]);
    }
  }

  function LeadingBars(s: string): (n: nat)
    ensures n <= |s| && forall i :: 0 <= i < n ==> s[i] == '|'
    ensures n < |s| ==> s[n] != '|'
    decreases |s|
  {
    if |s| == 0 || s[0] != '|' then 0 else 1 + LeadingBars(s[1..])
  }

  /** Line 126, `\|+` to `|`: every run of bar lines becomes one. */
  function SquashBars(s: string): (r: string)
    ensures |r| <= |s| && (|r| == 0 <==> |s| == 0)
    ensures |r| > 0 ==> (r[0] == '|' <==> s[0] == '|')
    decreases |s|
  {
    if |s| == 0 then ""
    else if s[0] == '|' then "|" + SquashBars(s[LeadingBars(s)..])
    else [s[0]] + SquashBars(s[1..])
  }

  /** No two bar lines are adjacent after squashing. */
  lemma {:induction false} SquashBarsSingle(s: string)
    ensures forall i :: 0 <= i < |SquashBars(s)| - 1 ==> !(SquashBars(s)[i] == '|' && SquashBars(s)[i + 1] == '|')
    decreases |s|
  {
    if |s| > 0 {
      var r := SquashBars(s);
      if s[0] == '|' {
        var t := s[LeadingBars(s)..];
        SquashBarsSingle(t);
        assert forall i :: 1 <= i < |r| ==> r[i] == SquashBars(t)[i - 1];
      } else {
        SquashBarsSingle(s[1..]);
        assert forall i :: 1 <= i < |r| ==> r[i] == SquashBars(s[1..])[i - 1];
      }
    }
  }

  /** Squashing only removes bar lines: everything else is kept, in order. */
  lemma {:induction false} SquashBarsKeepsNotes(s: string)
    ensures Without(SquashBars(s), '|') == Without(s, '|')
    ensures '|' in SquashBars(s) <==> '|' in s
    decreases |s|
  {
    if |s| > 0 {
      if s[0] == '|' {
        var n := LeadingBars(s);
        var t := s[n..];
        SquashBarsKeepsNotes(t);
        assert s == s[..n] + t;
        WithoutConcat(s[..n], t, '|');
        assert '|' !in Without(s[..n], '|');
        WithoutConcat("|", SquashBars(t), '|');
        assert Without("|", '|') == "";
        assert Without(s[..n], '|') == "" by {
          WithoutOnly(s[..n], '|');
        }
      } else {
        SquashBarsKeepsNotes(s[1..]);
        assert s == [s[0]] + s[1..];
        WithoutConcat([s[0]], s[1..], '|');
        WithoutConcat([s[0]], SquashBars(s[1..]), '|');
      }
    }
  }

  /** A text made only of `c` has nothing left once `c` is removed. */
  lemma {:induction false} WithoutOnly(s: string, c: char)
    requires forall i :: 0 <= i < |s| ==> s[i] == c
    ensures Without(s, c) == ""
    decreases |s|
  {
    if |s| > 0 {
      WithoutOnly(s[1..], c);
    }
  }

  /** `clean_barlines` on one tune. */
  function CleanBarlines(s: string): (r: string)
    ensures forall i :: 0 <= i < |r| - 1 ==> !(r[i] == '|' && r[i + 1] == '|')
  {
    SquashBarsSingle(BarSymbols(s));
    SquashBars(BarSymbols(s))
  }

  // ---------------------------------------------------------------------
  // Slurs (lines 137-143)
  // ---------------------------------------------------------------------

  /**
   `re.sub('(.*?)', '', s)`: the parentheses are a group, not literal.
   At each position the lazy pattern first matches the empty string;
   the scan then retries the same position for a non-empty match, which
   takes the one character `.` matches, and both are replaced by
   nothing. A newline is not matched by `.`, so it is copied and the scan
   moves past it.
   */
  function CleanSlurs(s: string): (r: string)
    ensures |r| <= |s|
    decreases |s|
  {
    if |s| == 0 then ""
    else if s[0] == '\n' then "\n" + CleanSlurs(s[1..])
    else CleanSlurs(s[1..])
  }

  /** So `clean_slurs` keeps the line breaks and nothing else, slurs or not. */
  lemma {:induction false} CleanSlursKeepsLines(s: string)
    ensures forall i :: 0 <= i < |CleanSlurs(s)| ==> CleanSlurs(s)[i] == '\n'
    ensures |CleanSlurs(s)| == multiset(s)['\n']
    decreases |s|
  {
    if |s| > 0 {
      CleanSlursKeepsLines(s[1..]);
      assert s == [s[0]] + s[1..];
    }
  }

  /** What the docstring describes: notes in parentheses, `\(.*?\)`, deleted line by line. */
  function CleanSlursIntended(s: string): (r: string)
    ensures |r| <= |s|
  {
    DeleteSpans(s, '(', ')')
  }

  /** The intended pass leaves no slur within a line, keeps every line break, and leaves slur-free text alone. */
  lemma CleanSlursIntendedSpec(s: string)
    ensures NoSpan(CleanSlursIntended(s), '(', ')')
    ensures multiset(CleanSlursIntended(s))['\n'] == multiset(s)['\n']
    ensures '(' !in s ==> CleanSlursIntended(s) == s
  {
    DeleteSpansLeavesNone(s, '(', ')');
    DeleteSpansKeepsLines(s, '(', ')');
    if '(' !in s {
      DeleteSpansAbsent(s, '(', ')');
    }
  }

  /** A slurred bar `a(b)c` is emptied as written, where the intended pass keeps `ac`. */
  lemma SlurredBarEmptied()
    ensures CleanSlurs("a(b)c") == ""
    ensures CleanSlursIntended("a(b)c") == "ac"
  {
    assert NextStop("b)c", ')') == 1;
    assert DeleteSpans("(b)c", '(', ')') == DeleteSpans("c", '(', ')');
  }

  // ---------------------------------------------------------------------
  // clean_tunes (lines 74-81)
  // ---------------------------------------------------------------------

  datatype CleanFlags = CleanFlags(remarks: bool, ornamentation: bool, quotations: bool, barlines: bool, gracenotes: bool, slurs: bool)

  const AllCleaners := CleanFlags(true, true, true, true, true, true)

  /** The enabled rewrites of one `abc` string, in the order of lines 75-80. */
  function CleanAbc(abc: string, f: CleanFlags): string
  {
    var s1 := if f.remarks then DeleteSpans(abc, '[', ']') else abc;
    var s2 := if f.ornamentation then StripOrnaments(s1) else s1;
    var s3 := if f.quotations then DeleteSpans(s2, Quote, Quote) else s2;
    var s4 := if f.barlines then CleanBarlines(s3) else s3;
    var s5 := if f.gracenotes then DeleteSpans(s4, '{', '}') else s4;
    if f.slurs then CleanSlurs(s5) else s5
  }

  /** `clean_tunes`: every row's `abc` rewritten, the other columns and the order kept. */
  function CleanTunes(rows: seq<Row>, f: CleanFlags): (r: seq<Row>)
    ensures |r| == |rows|
    ensures forall k :: 0 <= k < |rows| ==> r[k].key == rows[k].key && r[k].meter == rows[k].meter
  {
    seq(|rows|, k requires 0 <= k < |rows| => rows[k].(abc := CleanAbc(rows[k].abc, f)))
  }

  predicate NoOrnament(s: string)
  {
    forall i :: 0 <= i < |s| ==> !Ornament(s[i])
  }

  /** The deletions, the bar rewrite and the slur pass bring no decoration back. */
  lemma {:induction false} DeleteSpansNoOrnament(s: string, open: char, close: char)
    requires NoOrnament(s)
    ensures NoOrnament(DeleteSpans(s, open, close))
    decreases |s|
  {
    if |s| > 0 {
      var j := NextStop(s[1..], close);
      if s[0] == open && j < |s| - 1 && s[1 + j] == close {
        DeleteSpansNoOrnament(s[2 + j..], open, close);
      } else {
        DeleteSpansNoOrnament(s[1..], open, close);
      }
    }
  }

  lemma {:induction false} BarSymbolsNoOrnament(s: string)
    requires NoOrnament(s)
    ensures NoOrnament(BarSymbols(s))
    decreases |s|
  {
    if |s| > 0 {
      if BarSymbolAt(s) {
        BarSymbolsNoOrnament(s[2..]);
      } else {
        BarSymbolsNoOrnament(s[1..]);
      }
    }
  }

  lemma {:induction false} SquashBarsNoOrnament(s: string)
    requires NoOrnament(s)
    ensures NoOrnament(SquashBars(s))
    decreases |s|
  {
    if |s| > 0 {
      if s[0] == '|' {
        SquashBarsNoOrnament(s[LeadingBars(s)..]);
      } else {
        SquashBarsNoOrnament(s[1..]);
      }
    }
  }

  /** With `ornamentation` on, no decoration character is left in the cleaned tune. */
  lemma CleanAbcNoOrnaments(abc: string, f: CleanFlags)
    requires f.ornamentation
    ensures NoOrnament(CleanAbc(abc, f))
  {
    var s1 := if f.remarks then DeleteSpans(abc, '[', ']') else abc;
    var s2 := StripOrnaments(s1);
    StripOrnamentsSpec(s1);
    var s3 := if f.quotations then DeleteSpans(s2, Quote, Quote) else s2;
    DeleteSpansNoOrnament(s2, Quote, Quote);
    var s4 := if f.barlines then CleanBarlines(s3) else s3;
    BarSymbolsNoOrnament(s3);
    SquashBarsNoOrnament(BarSymbols(s3));
    var s5 := if f.gracenotes then DeleteSpans(s4, '{', '}') else s4;
    DeleteSpansNoOrnament(s4, '{', '}');
    CleanSlursKeepsLines(s5);
  }

  /** With `slurs` on, the cleaned tune holds only line breaks. */
  lemma CleanAbcSlurred(abc: string, f: CleanFlags)
    requires f.slurs
    ensures forall i :: 0 <= i < |CleanAbc(abc, f)| ==> CleanAbc(abc, f)[i] == '\n'
  {
    var s1 := if f.remarks then DeleteSpans(abc, '[', ']') else abc;
    var s2 := if f.ornamentation then StripOrnaments(s1) else s1;
    var s3 := if f.quotations then DeleteSpans(s2, Quote, Quote) else s2;
    var s4 := if f.barlines then CleanBarlines(s3) else s3;
    var s5 := if f.gracenotes then DeleteSpans(s4, '{', '}') else s4;
    CleanSlursKeepsLines(s5);
  }

  /**
   `clean_gracenotes` runs after `clean_barlines`, so deleting a grace note
   between two bar lines leaves two adjacent bar lines in the result.
   */
  lemma GraceNoteBetweenBars()
    ensures CleanAbc("|{g}|", AllCleaners.(slurs := false)) == "||"
  {
    var t := "|{g}|";
    DeleteSpansAbsent(t, '[', ']');
    NoOrnamentHere();
    DeleteSpansAbsent(t, Quote, Quote);
    BarlinesHere();
    GraceHere();
  }

  /** With every pass on, the slur pass then empties the tune. */
  lemma GraceNoteAllPasses()
    ensures CleanAbc("|{g}|", AllCleaners) == ""
  {
    GraceNoteBetweenBars();
    assert CleanSlurs("||") == "";
  }

  lemma NoOrnamentHere()
    ensures StripOrnaments("|{g}|") == "|{g}|"
  {
  }

  lemma BarlinesHere()
    ensures CleanBarlines("|{g}|") == "|{g}|"
  {
    BarSymbolsPlain("|{g}|");
    assert LeadingBars("|{g}|") == 1;
    assert LeadingBars("|") == 1;
    assert SquashBars("|") == "|";
    assert SquashBars("}|") == "}|";
    assert SquashBars("g}|") == "g}|";
    assert SquashBars("{g}|") == "{g}|";
  }

  lemma GraceHere()
    ensures DeleteSpans("|{g}|", '{', '}') == "||"
  {
    assert NextStop("g}|", '}') == 1;
    assert DeleteSpans("{g}|", '{', '}') == DeleteSpans("|", '{', '}');
  }
}
