/**
 The condensing pass over generated tunes in src/L/CSVCleaner.py:14-66.

 Each song is cut into bars at `|`. Each bar is cut into tokens: a `^`
 takes the character after it along, every other character stands alone.
 The tokens are then run-length encoded, with a run forced to restart at
 every token index divisible by 4. The bars are joined back with `|` and
 every quotation mark is dropped.

 The reference for the encoder is stated independently of the loop: the
 token list is cut into quarters of four tokens, each quarter is split
 into its maximal runs, and each run is written as its symbol followed by
 its length when the length is above one.
 */
module CsvCleaner {
  import opened PyStr
  import opened NoteLexer
  import opened RunLength

  // ---------------------------------------------------------------------
  // Tokens (lines 24-32)
  // ---------------------------------------------------------------------

  /** A token is one character, or `^` with the character after it. */
  predicate Bundled(t: string)
  {
    |t| == 1 || (|t| == 2 && t[0] == '^')
  }

  /** The tokens of a bar, left to right (lines 24-32). */
  function Tokens(bar: string): seq<string>
    decreases |bar|
  {
    if |bar| == 0 then []
    else
      var n := if bar[0] == '^' && |bar| >= 2 then 2 else 1;
      [bar[..n]] + Tokens(bar[n..])
  }

  /**
   The tokens concatenate back to the bar, each is one character or `^`
   with the character after it, and only the last token can be a `^`
   standing alone (a `^` at the end of the bar has nothing to take).
   */
  lemma {:induction false} TokensSpec(bar: string)
    ensures Concat(Tokens(bar)) == bar
    ensures forall k :: 0 <= k < |Tokens(bar)| ==> Bundled(Tokens(bar)[k])
    ensures forall k :: 0 <= k < |Tokens(bar)| - 1 ==> Tokens(bar)[k] != "^"
    decreases |bar|
  {
    if |bar| > 0 {
      var n := if bar[0] == '^' && |bar| >= 2 then 2 else 1;
      var rest := Tokens(bar[n..]);
      TokensSpec(bar[n..]);
      assert Tokens(bar) == [bar[..n]] + rest;
      assert ([bar[..n]] + rest)[1..] == rest;
      assert bar[..n] + bar[n..] == bar;
    }
  }

  // ---------------------------------------------------------------------
  // The reference encoder
  // ---------------------------------------------------------------------

  /** The token list cut into quarters: four tokens each, the last one possibly shorter. */
  function Quarters(ts: seq<string>): (qs: seq<seq<string>>)
    ensures |qs| == (|ts| + 3) / 4
    ensures forall k :: 0 <= k < |qs| ==> 0 < |qs[k]| <= 4
    ensures forall k :: 0 <= k < |qs| - 1 ==> |qs[k]| == 4
    decreases |ts|
  {
    if |ts| == 0 then []
    else
      var n := (|ts| - 1) / 4 * 4;
      Quarters(ts[..n]) + [ts[n..]]
  }

  /** One run written out: its symbol, then its length when that is above one. */
  function RunText(run: seq<string>): string
    requires |run| > 0
  {
    run[0] + (if |run| > 1 then ShowNat(|run|) else "")
  }

  function RunsText(rs: seq<seq<string>>): string
    requires forall k :: 0 <= k < |rs| ==> rs[k] != []
    decreases |rs|
  {
    if |rs| == 0 then "" else RunsText(AllButLast(rs)) + RunText(Last(rs))
  }

  /** The quarters, each written as its maximal runs. */
  function QuartersText(qs: seq<seq<string>>): string
    decreases |qs|
  {
    if |qs| == 0 then "" else QuartersText(AllButLast(qs)) + RunsText(RunsOf(Last(qs)))
  }

  /** What the encoder writes for a token list. */
  function Condensed(ts: seq<string>): string
  {
    QuartersText(Quarters(ts))
  }

  /** The quarters concatenate back to the token list. */
  lemma {:induction false} QuartersConcat(ts: seq<string>)
    ensures Concat(Quarters(ts)) == ts
    decreases |ts|
  {
    if |ts| > 0 {
      var n := (|ts| - 1) / 4 * 4;
      QuartersConcat(ts[..n]);
      ConcatSnoc(Quarters(ts[..n]), ts[n..]);
      assert ts[..n] + ts[n..] == ts;
    }
  }

  /** Where the last quarter of a list of `n + 1` tokens starts. */
  lemma QuarterStart(n: nat)
    ensures n % 4 == 0 ==> n / 4 * 4 == n
    ensures n % 4 != 0 ==> (n - 1) / 4 * 4 == n / 4 * 4
  {
  }

  /** One more token at a multiple of four opens a new quarter. */
  lemma QuartersOpen(ts: seq<string>, x: string)
    requires |ts| % 4 == 0
    ensures Quarters(ts + [x]) == Quarters(ts) + [[x]]
  {
    var s := ts + [x];
    QuarterStart(|ts|);
    assert (|s| - 1) / 4 * 4 == |ts|;
    assert s[..|ts|] == ts && s[|ts|..] == [x];
  }

  /** One more token elsewhere joins the last quarter. */
  lemma QuartersJoin(ts: seq<string>, x: string)
    requires |ts| % 4 != 0
    ensures |Quarters(ts)| > 0
    ensures Quarters(ts + [x]) == AllButLast(Quarters(ts)) + [Last(Quarters(ts)) + [x]]
  {
    var s := ts + [x];
    var m := |ts| / 4 * 4;
    QuarterStart(|ts|);
    assert (|s| - 1) / 4 * 4 == m;
    assert s[..m] == ts[..m];
    assert s[m..] == ts[m..] + [x];
  }

  // ---------------------------------------------------------------------
  // The encoder loop (lines 36-61)
  // ---------------------------------------------------------------------

  /**
   Encode one bar. The loop writes a symbol when it differs from the
   previous one, and again when it repeats at a token index divisible by
   4; it writes a run's length only when the length is above one. The
   result is the reference encoding of the bar's tokens, and it holds no
   character besides the bar's own and digits.
   */
  method CondenseBar(bar: string) returns (newbar: string)
    ensures newbar == Condensed(Tokens(bar))
    ensures forall c :: c in newbar ==> c in bar || InClass(c, Digits)
  {
    var ts := Tokens(bar);
    newbar := "";
    var i := 0;
    var count := 1;
    var note: Option<string> := None;
    ghost var prior: seq<seq<string>> := [];
    ghost var cur: seq<string> := [];
    ghost var rs: seq<seq<string>> := [];
    while i < |ts|
      invariant 0 <= i <= |ts|
      invariant i == 0 ==> newbar == "" && count == 1 && note == None
      invariant i > 0 ==> Scanned(ts, i, prior, cur, rs, note, count, newbar)
      invariant Drawn(newbar, bar)
    {
      DrawnTurn(ts, i, bar, newbar, count);
      note, count, newbar, prior, cur, rs := Turn(bar, ts, i, note, count, newbar, prior, cur, rs);
      i := i + 1;
    }
    ghost var before := newbar;
    if count > 1 {
      assert Drawn(newbar + ShowNat(count), bar) by {
        DrawnCount(count, bar);
        DrawnAppend(newbar, ShowNat(count), bar);
      }
      newbar := newbar + ShowNat(count);
    }
    if i > 0 {
      assert ts[..i] == ts;
      CloseText(prior, cur, rs, before, count);
    }
  }

  /** Every character of `s` is one of the bar's or a digit. */
  predicate Drawn(s: string, bar: string)
  {
    forall c :: c in s ==> c in bar || InClass(c, Digits)
  }

  lemma DrawnAppend(a: string, b: string, bar: string)
    requires Drawn(a, bar) && Drawn(b, bar)
    ensures Drawn(a + b, bar)
  {
  }

  lemma DrawnCount(n: nat, bar: string)
    ensures Drawn(ShowNat(n), bar)
  {
    var s := ShowNat(n);
    forall c | c in s ensures InClass(c, Digits) {
      var j :| 0 <= j < |s| && s[j] == c;
    }
  }

  /** Whatever a turn of the encoder appends keeps the text drawn from the bar. */
  lemma DrawnTurn(ts: seq<string>, i: nat, bar: string, newbar: string, count: nat)
    requires ts == Tokens(bar) && i < |ts| && Drawn(newbar, bar)
    ensures Drawn(newbar + ts[i], bar) && Drawn(newbar + ShowNat(count) + ts[i], bar)
  {
    DrawnToken(ts, i, bar);
    DrawnCount(count, bar);
    DrawnAppend(ShowNat(count), ts[i], bar);
    DrawnAppend(newbar, ts[i], bar);
    DrawnAppend(newbar, ShowNat(count) + ts[i], bar);
    assert newbar + ShowNat(count) + ts[i] == newbar + (ShowNat(count) + ts[i]);
  }

  lemma DrawnToken(ts: seq<string>, i: nat, bar: string)
    requires ts == Tokens(bar) && i < |ts|
    ensures Drawn(ts[i], bar)
  {
    TokensFromBar(bar);
    forall c | c in ts[i] ensures c in bar {
      var j :| 0 <= j < |ts[i]| && ts[i][j] == c;
    }
  }

  /** Every character of a token is a character of the bar. */
  lemma {:induction false} TokensFromBar(bar: string)
    ensures forall k, j :: 0 <= k < |Tokens(bar)| && 0 <= j < |Tokens(bar)[k]| ==> Tokens(bar)[k][j] in bar
    decreases |bar|
  {
    if |bar| > 0 {
      var n := if bar[0] == '^' && |bar| >= 2 then 2 else 1;
      TokensFromBar(bar[n..]);
      var ts := Tokens(bar);
      assert ts == [bar[..n]] + Tokens(bar[n..]);
      forall k, j | 0 <= k < |ts| && 0 <= j < |ts[k]| ensures ts[k][j] in bar {
        if k == 0 {
          assert ts[k][j] == bar[j];
        } else {
          assert ts[k][j] == Tokens(bar[n..])[k - 1][j];
          assert ts[k][j] in bar[n..];
        }
      }
    }
  }

  /**
   The state of the encoder after `i` tokens: the quarters so far are
   `prior` and the open one `cur`, whose runs are `rs`; the text of all
   but the last run is written, the last run's symbol is written, and its
   length is pending in `count`.
   */
  ghost predicate Scanned(ts: seq<string>, i: nat, prior: seq<seq<string>>, cur: seq<string>, rs: seq<seq<string>>,
                          note: Option<string>, count: nat, newbar: string)
  {
    0 < i <= |ts| && Quarters(ts[..i]) == prior + [cur] && rs == RunsOf(cur) && |rs| > 0
    && note == Some(Last(rs)[0]) && count == |Last(rs)|
    && newbar == QuartersText(prior) + RunsText(AllButLast(rs)) + Last(rs)[0]
  }

  /** One turn of the encoder loop (lines 45-59). */
  method Turn(bar: string, ts: seq<string>, i: nat, note: Option<string>, count: nat, newbar: string,
              ghost prior: seq<seq<string>>, ghost cur: seq<string>, ghost rs: seq<seq<string>>)
    returns (note': Option<string>, count': nat, newbar': string,
             ghost prior': seq<seq<string>>, ghost cur': seq<string>, ghost rs': seq<seq<string>>)
    requires ts == Tokens(bar) && i < |ts|
    requires i == 0 ==> newbar == "" && count == 1 && note == None
    requires i > 0 ==> Scanned(ts, i, prior, cur, rs, note, count, newbar)
    ensures Scanned(ts, i + 1, prior', cur', rs', note', count', newbar')
    ensures newbar' == newbar || newbar' == newbar + ts[i] || newbar' == newbar + ShowNat(count) + ts[i]
  {
    ghost var x := ts[i];
    note', count', newbar' := note, count, newbar;
    if note' != Some(ts[i]) {
      if count' > 1 {
        newbar' := newbar' + ShowNat(count');
        count' := 1;
      }
      note' := Some(ts[i]);
      newbar' := newbar' + ts[i];
      if i == 0 {
        prior', cur', rs' := [], [x], [[x]];
        FirstTurn(ts, x);
      } else if i % 4 == 0 {
        prior', cur', rs' := prior + [cur], [x], [[x]];
        QuarterTurn(ts, i, prior, cur, rs, note, count, newbar, newbar');
      } else {
        prior', cur', rs' := prior, cur + [x], RunsOf(cur + [x]);
        NewRunTurn(ts, i, prior, cur, rs, note, count, newbar, newbar');
      }
    } else {
      count' := count' + 1;
      if i % 4 == 0 {
        if count' > 2 {
          newbar' := newbar' + ShowNat(count' - 1);
        }
        count' := 1;
        note' := Some(ts[i]);
        newbar' := newbar' + ts[i];
        prior', cur', rs' := prior + [cur], [x], [[x]];
        QuarterTurn(ts, i, prior, cur, rs, note, count, newbar, newbar');
      } else {
        prior', cur', rs' := prior, cur + [x], RunsOf(cur + [x]);
        SameRunTurn(ts, i, prior, cur, rs, note, count, newbar);
      }
    }
  }

  lemma FirstTurn(ts: seq<string>, x: string)
    requires |ts| > 0 && ts[0] == x
    ensures Scanned(ts, 1, [], [x], [[x]], Some(x), 1, x)
  {
    assert ts[..1] == [] + [x];
    QuartersOpen([], x);
    assert AllButLast([[x]]) == [];
  }

  /** At a multiple of four the open run is closed, its length written when above one, and a new quarter opens. */
  lemma QuarterTurn(ts: seq<string>, i: nat, prior: seq<seq<string>>, cur: seq<string>, rs: seq<seq<string>>,
                    note: Option<string>, count: nat, newbar: string, out: string)
    requires Scanned(ts, i, prior, cur, rs, note, count, newbar) && i < |ts| && i % 4 == 0
    requires out == newbar + (if count > 1 then ShowNat(count) else "") + ts[i]
    ensures Scanned(ts, i + 1, prior + [cur], [ts[i]], [[ts[i]]], Some(ts[i]), 1, out)
  {
    var x := ts[i];
    assert ts[..i + 1] == ts[..i] + [x];
    QuartersOpen(ts[..i], x);
    CloseText(prior, cur, rs, newbar, count);
    assert AllButLast([[x]]) == [];
  }

  /** A repeat inside a quarter lengthens the open run and writes nothing. */
  lemma SameRunTurn(ts: seq<string>, i: nat, prior: seq<seq<string>>, cur: seq<string>, rs: seq<seq<string>>,
                    note: Option<string>, count: nat, newbar: string)
    requires Scanned(ts, i, prior, cur, rs, note, count, newbar) && i < |ts| && i % 4 != 0
    requires note == Some(ts[i])
    ensures Scanned(ts, i + 1, prior, cur + [ts[i]], RunsOf(cur + [ts[i]]), note, count + 1, newbar)
  {
    var x := ts[i];
    QuarterGrows(ts, i, prior, cur);
    RunsOfSnoc(cur, x);
    assert AllButLast(AllButLast(rs) + [Last(rs) + [x]]) == AllButLast(rs);
  }

  /** A new symbol inside a quarter closes the open run and opens its own. */
  lemma NewRunTurn(ts: seq<string>, i: nat, prior: seq<seq<string>>, cur: seq<string>, rs: seq<seq<string>>,
                   note: Option<string>, count: nat, newbar: string, out: string)
    requires Scanned(ts, i, prior, cur, rs, note, count, newbar) && i < |ts| && i % 4 != 0
    requires note != Some(ts[i])
    requires out == newbar + (if count > 1 then ShowNat(count) else "") + ts[i]
    ensures Scanned(ts, i + 1, prior, cur + [ts[i]], RunsOf(cur + [ts[i]]), Some(ts[i]), 1, out)
  {
    var x := ts[i];
    var rs' := rs + [[x]];
    QuarterGrows(ts, i, prior, cur);
    RunsOfSnoc(cur, x);
    assert RunsOf(cur + [x]) == rs';
    NewRun(prior, rs, newbar, count, x);
    assert Last(rs') == [x];
    ScannedOf(ts, i + 1, prior, cur + [x], rs', Some(x), 1, out);
  }

  lemma ScannedOf(ts: seq<string>, i: nat, prior: seq<seq<string>>, cur: seq<string>, rs: seq<seq<string>>,
                  note: Option<string>, count: nat, newbar: string)
    requires 0 < i <= |ts| && Quarters(ts[..i]) == prior + [cur] && rs == RunsOf(cur) && |rs| > 0
    requires note == Some(Last(rs)[0]) && count == |Last(rs)|
    requires newbar == QuartersText(prior) + RunsText(AllButLast(rs)) + Last(rs)[0]
    ensures Scanned(ts, i, prior, cur, rs, note, count, newbar)
  {
  }

  /** Inside a quarter the next token joins the open quarter. */
  lemma QuarterGrows(ts: seq<string>, i: nat, prior: seq<seq<string>>, cur: seq<string>)
    requires i < |ts| && i % 4 != 0 && Quarters(ts[..i]) == prior + [cur]
    ensures Quarters(ts[..i + 1]) == prior + [cur + [ts[i]]]
  {
    assert ts[..i + 1] == ts[..i] + [ts[i]];
    QuartersJoin(ts[..i], ts[i]);
    assert AllButLast(prior + [cur]) == prior && Last(prior + [cur]) == cur;
  }

  lemma Assoc(a: string, b: string, c: string)
    ensures (a + b) + c == a + (b + c)
  {
  }

  lemma QuartersTextSnoc(qs: seq<seq<string>>, q: seq<string>)
    ensures QuartersText(qs + [q]) == QuartersText(qs) + RunsText(RunsOf(q))
  {
    assert AllButLast(qs + [q]) == qs;
  }

  lemma RunsTextSnoc(rs: seq<seq<string>>, r: seq<string>)
    requires r != [] && forall k :: 0 <= k < |rs| ==> rs[k] != []
    ensures RunsText(rs + [r]) == RunsText(rs) + RunText(r)
  {
    assert AllButLast(rs + [r]) == rs;
  }

  /** Writing the pending length of the last run completes its text. */
  lemma PendingLength(rs: seq<seq<string>>, n0: nat)
    requires |rs| > 0 && n0 == |Last(rs)| && forall k :: 0 <= k < |rs| ==> rs[k] != []
    ensures RunsText(AllButLast(rs)) + Last(rs)[0] + (if n0 > 1 then ShowNat(n0) else "") == RunsText(rs)
  {
    var w := if n0 > 1 then ShowNat(n0) else "";
    assert RunsText(rs) == RunsText(AllButLast(rs)) + RunText(Last(rs));
    assert RunText(Last(rs)) == Last(rs)[0] + w;
    assert RunsText(AllButLast(rs)) + (Last(rs)[0] + w) == RunsText(AllButLast(rs)) + Last(rs)[0] + w;
  }

  /** A new run inside the quarter: the pending length is written, then the new symbol. */
  lemma NewRun(prior: seq<seq<string>>, rs: seq<seq<string>>, before: string, n0: nat, x: string)
    requires |rs| > 0 && n0 == |Last(rs)| && forall k :: 0 <= k < |rs| ==> rs[k] != []
    requires before == QuartersText(prior) + RunsText(AllButLast(rs)) + Last(rs)[0]
    ensures before + (if n0 > 1 then ShowNat(n0) else "") + x
      == QuartersText(prior) + RunsText(AllButLast(rs + [[x]])) + Last(rs + [[x]])[0]
  {
    var w := if n0 > 1 then ShowNat(n0) else "";
    var a := RunsText(AllButLast(rs)) + Last(rs)[0];
    PendingLength(rs, n0);
    assert AllButLast(rs + [[x]]) == rs && Last(rs + [[x]])[0] == x;
    Assoc(QuartersText(prior), RunsText(AllButLast(rs)), Last(rs)[0]);
    Assoc(QuartersText(prior), a, w);
  }

  /** After the last token the pending length is written and the text is the reference encoding. */
  lemma CloseText(prior: seq<seq<string>>, cur: seq<string>, rs: seq<seq<string>>, before: string, n0: nat)
    requires rs == RunsOf(cur) && |rs| > 0 && n0 == |Last(rs)|
    requires before == QuartersText(prior) + RunsText(AllButLast(rs)) + Last(rs)[0]
    ensures before + (if n0 > 1 then ShowNat(n0) else "") == QuartersText(prior + [cur])
  {
    var w := if n0 > 1 then ShowNat(n0) else "";
    var a := RunsText(AllButLast(rs)) + Last(rs)[0];
    PendingLength(rs, n0);
    QuartersTextSnoc(prior, cur);
    Assoc(QuartersText(prior), RunsText(AllButLast(rs)), Last(rs)[0]);
    Assoc(QuartersText(prior), a, w);
  }

  // ---------------------------------------------------------------------
  // Songs (lines 14-18 and 64-66)
  // ---------------------------------------------------------------------

  /** The encoded bars of a song. */
  function CondensedBars(bars: seq<string>): (r: seq<string>)
    ensures |r| == |bars|
  {
    seq(|bars|, k requires 0 <= k < |bars| => Condensed(Tokens(bars[k])))
  }

  /** What the pass writes for one song. */
  function Cleaned(song: string): string
  {
    Without(Join(CondensedBars(Split(song, "|")), "|"), Quote)
  }

  /**
   Clean one song: cut it at `|`, encode every bar, join the bars with `|`
   and drop every quotation mark. The result has none, and cutting it at `|` again
   gives back one piece per bar of the song, each the encoded bar without
   its quotation marks.
   */
  method CleanSong(song: string) returns (cleaned: string)
    ensures cleaned == Cleaned(song)
    ensures Quote !in cleaned
    ensures BarsKept(song, cleaned)
  {
    var bars := Split(song, "|");
    SplitSpec(song, "|");
    var newbars := CondenseBars(bars);
    var joined := Join(newbars, "|");
    cleaned := Replace(joined, [Quote], "");
    ReplaceDeletes(joined, Quote);
    RejoinedBars(newbars);
  }

  /** Cutting `cleaned` at `|` gives one piece per bar of `song`: that bar encoded, without its quotation marks. */
  ghost predicate BarsKept(song: string, cleaned: string)
  {
    var bars := Split(song, "|");
    Split(cleaned, "|") == seq(|bars|, k requires 0 <= k < |bars| => Without(CondensedBars(bars)[k], Quote))
  }

  /** Encode every bar of a song, in order (lines 20-64). Bars cut at `|` stay free of `|`. */
  method CondenseBars(bars: seq<string>) returns (newbars: seq<string>)
    requires forall k :: 0 <= k < |bars| ==> !Contains(bars[k], "|")
    ensures newbars == CondensedBars(bars)
    ensures forall k :: 0 <= k < |newbars| ==> '|' !in newbars[k]
  {
    newbars := [];
    for i := 0 to |bars|
      invariant |newbars| == i
      invariant forall k :: 0 <= k < i ==> BarDone(bars[k], newbars[k])
    {
      var newbar := CondenseBar(bars[i]);
      NoBarAdded(bars[i], newbar);
      newbars := newbars + [newbar];
    }
  }

  /** `newbar` is the encoding of `bar` and holds no `|`. */
  ghost predicate BarDone(bar: string, newbar: string)
  {
    newbar == Condensed(Tokens(bar)) && '|' !in newbar
  }

  /** Encoding adds only digits, so a bar without `|` gives an encoding without `|`. */
  lemma NoBarAdded(bar: string, newbar: string)
    requires !Contains(bar, "|")
    requires newbar == Condensed(Tokens(bar))
    requires forall c :: c in newbar ==> c in bar || InClass(c, Digits)
    ensures BarDone(bar, newbar)
  {
    ContainsChar(bar, '|');
    assert !InClass('|', Digits);
  }

  /** Dropping `"` from bars joined with `|` leaves one `|`-free piece per bar and no `"`. */
  lemma RejoinedBars(newbars: seq<string>)
    requires |newbars| > 0 && forall k :: 0 <= k < |newbars| ==> '|' !in newbars[k]
    ensures Quote !in Without(Join(newbars, "|"), Quote)
    ensures Split(Without(Join(newbars, "|"), Quote), "|")
      == seq(|newbars|, k requires 0 <= k < |newbars| => Without(newbars[k], Quote))
  {
    WithoutJoin(newbars, '|', Quote);
    var pieces := seq(|newbars|, k requires 0 <= k < |newbars| => Without(newbars[k], Quote));
    forall k | 0 <= k < |pieces| ensures '|' !in pieces[k] {
      WithoutSubset(newbars[k], Quote);
    }
    SplitJoin(pieces, '|');
  }

  /** Clean every song, in order (lines 14-66). */
  method CleanSongs(songs: seq<string>) returns (newsongs: seq<string>)
    ensures |newsongs| == |songs|
    ensures forall k :: 0 <= k < |songs| ==> newsongs[k] == Cleaned(songs[k]) && Quote !in newsongs[k]
  {
    newsongs := [];
    for i := 0 to |songs|
      invariant |newsongs| == i
      invariant AllDone(songs, newsongs)
    {
      var cleaned := CleanSong(songs[i]);
      assert SongDone(songs[i], cleaned);
      AllDoneStep(songs, newsongs, cleaned);
      newsongs := newsongs + [cleaned];
    }
  }

  /** Each song so far was cleaned into the entry at its index. */
  ghost predicate AllDone(songs: seq<string>, newsongs: seq<string>)
    requires |newsongs| <= |songs|
  {
    Pairwise((song, cleaned) => SongDone(song, cleaned), songs, newsongs)
  }

  /** `p` holds of each entry of `ys` and the entry of `xs` at its index. */
  ghost predicate Pairwise(p: (string, string) -> bool, xs: seq<string>, ys: seq<string>)
    requires |ys| <= |xs|
  {
    forall k :: 0 <= k < |ys| ==> p(xs[k], ys[k])
  }

  lemma PairwiseSnoc(p: (string, string) -> bool, xs: seq<string>, ys: seq<string>, y: string)
    requires |ys| < |xs| && Pairwise(p, xs, ys) && p(xs[|ys|], y)
    ensures Pairwise(p, xs, ys + [y])
  {
    var n := ys + [y];
    forall k | 0 <= k < |n| ensures p(xs[k], n[k]) {
      if k < |ys| {
        assert n[k] == ys[k];
      }
    }
  }

  lemma AllDoneStep(songs: seq<string>, newsongs: seq<string>, cleaned: string)
    requires |newsongs| < |songs| && AllDone(songs, newsongs)
    requires SongDone(songs[|newsongs|], cleaned)
    ensures AllDone(songs, newsongs + [cleaned])
  {
    PairwiseSnoc((song, cleaned) => SongDone(song, cleaned), songs, newsongs, cleaned);
  }

  /** `cleaned` is what the pass writes for `song`, and it holds no quotation mark. */
  ghost predicate SongDone(song: string, cleaned: string)
  {
    cleaned == Cleaned(song) && Quote !in cleaned
  }
}
