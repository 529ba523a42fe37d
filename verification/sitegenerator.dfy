/**
 The tune writer of the web page, Site/assets/js/generator.js: rounding
 a generated note to D major, spelling each MIDI number as an ABC note,
 and laying out the notes as a tune of bars.

 JavaScript values that the code lets through are modelled as they
 behave: a MIDI number missing from the table is `undefined`, which a
 string concatenation writes as `undefined`, and `undefined + 2` is
 `NaN`.
 */
module SiteGenerator {
  import opened PyStr
  import opened NoteLexer
  import opened RunLength
  import Analysis

  // ---------------------------------------------------------------------
  // note_to_d_major and argMin (lines 68-86)
  // ---------------------------------------------------------------------

  /** JavaScript's `%`: the remainder takes the sign of the dividend. */
  function JsRem(a: int, b: int): (r: int)
    requires b > 0
    ensures a >= 0 ==> r == a % b
    ensures a < 0 ==> -b < r <= 0
  {
    if a >= 0 then a % b else -((-a) % b)
  }

  /**
   Line 85: `reduce` keeps the later pair unless the earlier one is
   strictly smaller, so a tie goes to the last index. An empty array makes
   `reduce` throw, which is `None` here.
   */
  function ArgMin(xs: seq<int>): (r: Option<nat>)
    ensures r.None? <==> |xs| == 0
    ensures r.Some? ==> r.value < |xs|
    decreases |xs|
  {
    if |xs| == 0 then None
    else
      match ArgMin(xs[..|xs| - 1])
      case None => Some(0)
      case Some(k) => if xs[k] < xs[|xs| - 1] then Some(k) else Some(|xs| - 1)
  }

  /** The index `argMin` returns holds a smallest value, and every later index holds a larger one. */
  lemma {:induction false} ArgMinSpec(xs: seq<int>)
    requires |xs| > 0
    ensures var k := ArgMin(xs).value;
      (forall j :: 0 <= j < |xs| ==> xs[k] <= xs[j])
      && (forall j :: k < j < |xs| ==> xs[j] > xs[k])
    decreases |xs|
  {
    if |xs| > 1 {
      var p := xs[..|xs| - 1];
      ArgMinSpec(p);
      assert forall j :: 0 <= j < |p| ==> p[j] == xs[j];
    }
  }

  /** Line 69. */
  const DMajor: seq<int> := [2, 4, 6, 7, 9, 11, 13]

  function Distances(m: int): (ds: seq<int>)
    ensures |ds| == 7 && forall i :: 0 <= i < 7 ==> ds[i] == Analysis.Abs(DMajor[i] - m)
  {
    seq(7, i requires 0 <= i < 7 => Analysis.Abs(DMajor[i] - m))
  }

  /** Lines 68-77. */
  function NoteToDMajor(note: int): int
  {
    var k := ArgMin(Distances(JsRem(note, 12))).value;
    DMajor[k] + 12 * (note / 12)
  }

  /**
   For a note that is not negative: the result is the scale note nearest
   to it within its octave, the higher one on a tie, so it is never below
   the note and at most two above; its pitch class is one of D, E, F
   sharp, G, A and B.
   */
  lemma NoteToDMajorNearest(note: int)
    requires note >= 0
    ensures var r := NoteToDMajor(note);
      var base := 12 * (note / 12);
      && (forall i :: 0 <= i < 7 ==> Analysis.Abs(r - note) <= Analysis.Abs(DMajor[i] + base - note))
      && (forall i :: 0 <= i < 7 && Analysis.Abs(DMajor[i] + base - note) == Analysis.Abs(r - note) ==> r >= DMajor[i] + base)
      && 0 <= r - note <= 2
      && r / 12 == note / 12
      && (r % 12 == 2 || r % 12 == 4 || r % 12 == 6 || r % 12 == 7 || r % 12 == 9 || r % 12 == 11)
  {
    var m := note % 12;
    var base := 12 * (note / 12);
    var k := ArgMin(Distances(m)).value;
    assert note == base + m;
    ScaleChoice(m, k);
    assert forall i :: 0 <= i < 7 ==> Analysis.Abs(DMajor[i] + base - note) == Analysis.Abs(DMajor[i] - m);
    Analysis.PitchClassOf(note / 12, DMajor[k]);
  }

  /** The scale note `argMin` picks for a pitch class: no further than the others, the higher on a tie, never the C sharp above. */
  lemma ScaleChoice(m: int, k: nat)
    requires 0 <= m < 12 && ArgMin(Distances(m)) == Some(k)
    ensures k < 6 && 2 <= DMajor[k] <= 11 && 0 <= DMajor[k] - m <= 2
    ensures forall i :: 0 <= i < 7 ==> Analysis.Abs(DMajor[k] - m) <= Analysis.Abs(DMajor[i] - m)
    ensures forall i :: 0 <= i < 7 && Analysis.Abs(DMajor[i] - m) == Analysis.Abs(DMajor[k] - m) ==> DMajor[k] >= DMajor[i]
  {
    var ds := Distances(m);
    ArgMinSpec(ds);
    assert k != 6 by {
      assert ds[5] < ds[6];
    }
    assert forall i, j :: 0 <= i < j < 7 ==> DMajor[i] < DMajor[j];
    NearestAbove(m, k);
  }

  /** The last nearest scale note to a pitch class is at most two above it and never below. */
  lemma NearestAbove(m: int, k: nat)
    requires 0 <= m < 12 && k < 6
    requires forall j :: 0 <= j < 7 ==> Analysis.Abs(DMajor[k] - m) <= Analysis.Abs(DMajor[j] - m)
    requires forall j :: k < j < 7 ==> Analysis.Abs(DMajor[j] - m) > Analysis.Abs(DMajor[k] - m)
    ensures 0 <= DMajor[k] - m <= 2
  {
    if m <= 2 {
      assert Analysis.Abs(DMajor[0] - m) <= 2;
    } else if m <= 4 {
      assert Analysis.Abs(DMajor[1] - m) <= 1;
    } else if m <= 6 {
      assert Analysis.Abs(DMajor[2] - m) <= 1;
    } else if m == 7 {
      assert Analysis.Abs(DMajor[3] - m) == 0;
    } else if m <= 9 {
      assert Analysis.Abs(DMajor[4] - m) <= 1;
    } else {
      assert Analysis.Abs(DMajor[5] - m) <= 1;
    }
  }

  // ---------------------------------------------------------------------
  // convertNoteToABC (lines 93-119)
  // ---------------------------------------------------------------------

  /** A note as the code holds it: an ABC note, or `undefined` for a number the table lacks. */
  type Sym = Option<string>

  /** Lines 94-118: the 22 MIDI numbers from F sharp 54 to F sharp 90 that the table spells. */
  function ConvertNoteToAbc(note: int): Sym
  {
    match note
    case 54 => Some("F,")
    case 55 => Some("G,")
    case 57 => Some("A,")
    case 59 => Some("B,")
    case 61 => Some("C,")
    case 62 => Some("D")
    case 64 => Some("E")
    case 66 => Some("F")
    case 67 => Some("G")
    case 69 => Some("A")
    case 71 => Some("B")
    case 73 => Some("C")
    case 74 => Some("d")
    case 76 => Some("e")
    case 78 => Some("f")
    case 79 => Some("g")
    case 81 => Some("a")
    case 83 => Some("b")
    case 85 => Some("c")
    case 86 => Some("d'")
    case 88 => Some("e'")
    case 90 => Some("f'")
    case _ => None
  }

  /** The table's keys. */
  const TableNotes: set<int> := {54, 55, 57, 59, 61, 62, 64, 66, 67, 69, 71, 73, 74, 76, 78, 79, 81, 83, 85, 86, 88, 90}

  /** An ABC note with no accidental and no length: a letter and at most one octave mark. */
  predicate PlainNote(s: string)
  {
    1 <= |s| <= 2 && IsNoteLetter(s[0]) && (|s| == 2 ==> InClass(s[1], OctaveMarks))
  }

  /** The table spells exactly its 22 numbers, and each spelling is a plain ABC note. */
  lemma ConvertNoteToAbcDomain(note: int)
    ensures ConvertNoteToAbc(note).Some? <==> note in TableNotes
    ensures ConvertNoteToAbc(note).Some? ==> PlainNote(ConvertNoteToAbc(note).value)
  {
  }

  /** The note pattern reads a plain note back as one token. */
  lemma PlainNoteLexes(s: string)
    requires PlainNote(s)
    ensures Lex(s) == [Token("", s[0], s[1..], "", false, "")]
  {
    var t := Token("", s[0], s[1..], "", false, "");
    assert WellFormed(t);
    assert Text(t) == s;
    LexToken(t, "");
    assert s + "" == s;
    assert Lex("") == [];
  }

  /** Every D major rounding that lands from F sharp 54 to F sharp 90 has a spelling. */
  lemma DMajorSpelled(note: int)
    requires note >= 0 && 54 <= NoteToDMajor(note) <= 90
    ensures ConvertNoteToAbc(NoteToDMajor(note)).Some?
  {
    NoteToDMajorNearest(note);
    var r := NoteToDMajor(note);
    var pc := r % 12;
    assert r == 12 * (r / 12) + pc;
    assert 4 <= r / 12 <= 7;
  }

  // ---------------------------------------------------------------------
  // convertToABC (lines 126-191)
  // ---------------------------------------------------------------------

  /** How `+` writes a note into a string. */
  function SymText(x: Sym): string
  {
    match x
    case Some(s) => s
    case None => "undefined"
  }

  /** The result of a JavaScript `+`: a string, or `NaN` when both sides were numbers or `undefined`. */
  datatype JsVal = JStr(s: string) | JNaN

  function JsText(v: JsVal): string
  {
    match v
    case JStr(s) => s
    case JNaN => "NaN"
  }

  /** `temp + occurences`. */
  function PlusCount(temp: Sym, occ: nat): JsVal
  {
    match temp
    case Some(s) => JStr(s + ShowNat(occ))
    case None => JNaN
  }

  /** `v + x` for a value `v` and a note `x`. */
  function PlusSym(v: JsVal, x: Sym): JsVal
  {
    match (v, x)
    case (JStr(s), _) => JStr(s + SymText(x))
    case (JNaN, Some(t)) => JStr("NaN" + t)
    case (JNaN, None) => JNaN
  }

  /** `a + b` for two notes. */
  function PlusSyms(a: Sym, b: Sym): JsVal
  {
    match a
    case Some(s) => JStr(s + SymText(b))
    case None => if b.Some? then JStr("undefined" + b.value) else JNaN
  }

  /**
   A run of one note written as the code writes it: the note, then the
   run's length when it is above one. A longer run of `undefined` is
   `undefined` plus a number, which is `NaN`.
   */
  function RunText(run: seq<Sym>): string
    requires |run| > 0
  {
    if |run| > 1 && run[0].None? then "NaN"
    else SymText(run[0]) + (if |run| > 1 then ShowNat(|run|) else "")
  }

  function RunsText(runs: seq<seq<Sym>>): string
    requires forall k :: 0 <= k < |runs| ==> runs[k] != []
    decreases |runs|
  {
    if |runs| == 0 then "" else RunsText(runs[..|runs| - 1]) + RunText(runs[|runs| - 1])
  }

  lemma RunsTextSnoc(runs: seq<seq<Sym>>, run: seq<Sym>)
    requires forall k :: 0 <= k < |runs| ==> runs[k] != []
    requires run != []
    ensures RunsText(runs + [run]) == RunsText(runs) + RunText(run)
  {
    assert (runs + [run])[..|runs|] == runs;
  }

  /** A run of two unspelled notes is written `NaN`; the notes around it are written as they are. */
  lemma UnspelledRunBar()
    ensures RunsText(RunsOf([Some("d"), None, None, Some("d")])) == "dNaNd"
  {
    var d, u: Sym := Some("d"), None;
    var s1: seq<Sym> := [d];
    assert s1[..0] == [];
    assert RunsOf(s1) == [[d]];
    RunsOfSnoc(s1, u);
    var r2 := [[d], [u]];
    assert RunsOf(s1 + [u]) == r2;
    RunsOfSnoc(s1 + [u], u);
    assert Last(r2) + [u] == [u, u];
    var r3 := [[d], [u, u]];
    assert RunsOf(s1 + [u] + [u]) == r3;
    RunsOfSnoc(s1 + [u] + [u], d);
    var r := r3 + [[d]];
    assert RunsOf(s1 + [u] + [u] + [d]) == r;
    assert s1 + [u] + [u] + [d] == [Some("d"), None, None, Some("d")];
    RunsTextSnoc([], [d]);
    RunsTextSnoc([[d]], [u, u]);
    RunsTextSnoc(r3, [d]);
  }

  /** A single unspelled note is written `undefined`. */
  lemma UnspelledNoteBar()
    ensures RunsText(RunsOf([Some("d"), None, Some("e"), Some("e")])) == "dundefinede2"
  {
    UnspelledNoteRuns();
    UnspelledNoteText();
  }

  lemma UnspelledNoteRuns()
    ensures RunsOf([Some("d"), None, Some("e"), Some("e")]) == [[Some("d")], [None], [Some("e"), Some("e")]]
  {
    var d, u, e: Sym := Some("d"), None, Some("e");
    var s1: seq<Sym> := [d];
    assert s1[..0] == [];
    assert RunsOf(s1) == [[d]];
    RunsOfSnoc(s1, u);
    var r2 := [[d], [u]];
    assert RunsOf(s1 + [u]) == r2;
    RunsOfSnoc(s1 + [u], e);
    var r3 := r2 + [[e]];
    assert RunsOf(s1 + [u] + [e]) == r3;
    RunsOfSnoc(s1 + [u] + [e], e);
    assert Last(r3) + [e] == [e, e];
    assert RunsOf(s1 + [u] + [e] + [e]) == r2 + [[e, e]];
    assert s1 + [u] + [e] + [e] == [Some("d"), None, Some("e"), Some("e")];
  }

  lemma UnspelledNoteText()
    ensures RunsText([[Some("d")], [None], [Some("e"), Some("e")]]) == "dundefinede2"
  {
    var d, u, e: Sym := Some("d"), None, Some("e");
    var r2 := [[d], [u]];
    RunsTextSnoc([], [d]);
    RunsTextSnoc([[d]], [u]);
    assert RunsText(r2) == "dundefined";
    assert ShowNat(2) == "2";
    assert RunText([e, e]) == "e2";
    RunsTextSnoc(r2, [e, e]);
    assert r2 + [[e, e]] == [[Some("d")], [None], [Some("e"), Some("e")]];
  }

  /** The runs of `p + [y]`, given the runs `r` of `p`: `y` extends the open run or opens a new one. */
  function Extend(r: seq<seq<Sym>>, y: Sym): seq<seq<Sym>>
    requires |r| > 0 ==> |Last(r)| > 0
  {
    if |r| > 0 && Last(r)[0] == y then AllButLast(r) + [Last(r) + [y]] else r + [[y]]
  }

  predicate NonEmptyRuns(r: seq<seq<Sym>>)
  {
    forall k :: 0 <= k < |r| ==> r[k] != []
  }

  /** The open run of the inner loop: its note and its length. */
  predicate Tracked(r: seq<seq<Sym>>, temp: Sym, occ: nat)
  {
    |r| > 0 && |Last(r)| > 0 && temp == Last(r)[0] && occ == |Last(r)|
  }

  /** The text the inner loop has written: every run but the open one. */
  predicate Written(r: seq<seq<Sym>>, barString: string)
  {
    |r| > 0 && NonEmptyRuns(r) && barString == RunsText(AllButLast(r))
  }

  /** What the inner loop writes for a bar: nothing for a single note, otherwise its runs. */
  predicate BarWritten(bar: seq<Sym>, text: string)
  {
    (|bar| == 1 ==> text == "") && (|bar| >= 2 ==> text == RunsText(RunsOf(bar)))
  }

  lemma RunsOfExtend(bar: seq<Sym>, x: nat)
    requires x < |bar|
    ensures RunsOf(bar[..x + 1]) == Extend(RunsOf(bar[..x]), bar[x])
  {
    assert bar[..x + 1] == bar[..x] + [bar[x]];
    RunsOfSnoc(bar[..x], bar[x]);
  }

  /**
   Lines 137-171 for one bar. A bar of at least two notes is written run
   by run: each run's note, then its length when above one, with
   `undefined` for a note the table lacks and `NaN` for a longer run of
   them. A bar of a single note gives the empty string.
   */
  method BarString(bar: seq<Sym>) returns (barString: string)
    requires |bar| > 0
    ensures |bar| == 1 ==> barString == ""
    ensures |bar| >= 2 ==> barString == RunsText(RunsOf(bar))
    ensures BarWritten(bar, barString)
  {
    var temp := bar[0];
    var occurences := 1;
    barString := "";
    RunsOfExtend(bar, 0);
    assert bar[..0] == [];
    var x := 1;
    while x < |bar|
      invariant 1 <= x <= |bar|
      invariant x < |bar| ==> Tracked(RunsOf(bar[..x]), temp, occurences)
      invariant x < |bar| ==> Written(RunsOf(bar[..x]), barString)
      invariant x == |bar| && |bar| >= 2 ==> barString == RunsText(RunsOf(bar))
      invariant |bar| == 1 ==> barString == ""
    {
      if x == |bar| - 1 {
        barString := LastTurn(bar, temp, occurences, barString);
      } else {
        temp, occurences, barString := MiddleTurn(bar, x, temp, occurences, barString);
      }
      x := x + 1;
    }
  }

  /** The turn at the last note of a bar (lines 143-156): the open run is written, and the last note with it. */
  method LastTurn(bar: seq<Sym>, temp: Sym, occurences: nat, barString: string) returns (out: string)
    requires |bar| >= 2 && Tracked(RunsOf(bar[..|bar| - 1]), temp, occurences)
    requires Written(RunsOf(bar[..|bar| - 1]), barString)
    ensures out == RunsText(RunsOf(bar))
  {
    var x := |bar| - 1;
    if temp == bar[x] {
      out := barString + JsText(PlusCount(temp, occurences + 1));
    } else if occurences > 1 {
      out := barString + JsText(PlusSym(PlusCount(temp, occurences), bar[x]));
    } else {
      out := barString + JsText(PlusSyms(temp, bar[x]));
    }
    var r0 := RunsOf(bar[..x]);
    RunsOfExtend(bar, x);
    assert bar[..x + 1] == bar;
    if temp == bar[x] {
      LastStepSame(r0, bar[x], barString, temp, occurences);
    } else {
      LastStepNew(r0, bar[x], barString, temp, occurences);
    }
  }

  /** A turn before the last note (lines 157-169): a new note writes the open run and opens its own. */
  method MiddleTurn(bar: seq<Sym>, x: nat, temp: Sym, occurences: nat, barString: string)
    returns (temp': Sym, occurences': nat, out: string)
    requires 1 <= x < |bar| - 1 && Tracked(RunsOf(bar[..x]), temp, occurences)
    requires Written(RunsOf(bar[..x]), barString)
    ensures Tracked(RunsOf(bar[..x + 1]), temp', occurences')
    ensures Written(RunsOf(bar[..x + 1]), out)
  {
    var r0 := RunsOf(bar[..x]);
    RunsOfExtend(bar, x);
    ScanStep(r0, bar[x], barString, temp, occurences);
    if temp != bar[x] {
      if occurences > 1 {
        out := barString + JsText(PlusCount(temp, occurences));
      } else {
        out := barString + SymText(temp);
      }
      temp' := bar[x];
      occurences' := 1;
    } else {
      out := barString;
      temp' := temp;
      occurences' := occurences + 1;
    }
  }

  /** A turn of the inner loop before the last note carries the scan one note further. */
  lemma ScanStep(r: seq<seq<Sym>>, y: Sym, barString: string, temp: Sym, occ: nat)
    requires Tracked(r, temp, occ)
    ensures temp == y ==> Tracked(Extend(r, y), temp, occ + 1)
    ensures temp == y && Written(r, barString) ==> Written(Extend(r, y), barString)
    ensures temp != y ==> Tracked(Extend(r, y), y, 1)
    ensures temp != y && Written(r, barString) ==>
      Written(Extend(r, y), barString + JsText(if occ > 1 then PlusCount(temp, occ) else JStr(SymText(temp))))
  {
    if temp == y {
      assert AllButLast(AllButLast(r) + [Last(r) + [y]]) == AllButLast(r);
    } else {
      assert AllButLast(r + [[y]]) == r;
      if Written(r, barString) {
        assert r == AllButLast(r) + [Last(r)];
        RunsTextSnoc(AllButLast(r), Last(r));
      }
    }
  }

  /** The turn at the last note, when it extends the open run: the run is written with its new length. */
  lemma LastStepSame(r: seq<seq<Sym>>, y: Sym, barString: string, temp: Sym, occ: nat)
    requires Tracked(r, temp, occ) && Written(r, barString)
    requires temp == y
    ensures barString + JsText(PlusCount(temp, occ + 1)) == RunsText(Extend(r, y))
  {
    var open := Last(r);
    RunsTextSnoc(AllButLast(r), open + [y]);
    assert (open + [y])[0] == temp && |open + [y]| == occ + 1;
  }

  /** The turn at the last note, when it starts a new run: the open run is written, then the note. */
  lemma LastStepNew(r: seq<seq<Sym>>, y: Sym, barString: string, temp: Sym, occ: nat)
    requires Tracked(r, temp, occ) && Written(r, barString)
    requires temp != y
    ensures occ > 1 ==> barString + JsText(PlusSym(PlusCount(temp, occ), y)) == RunsText(Extend(r, y))
    ensures occ <= 1 ==> barString + JsText(PlusSyms(temp, y)) == RunsText(Extend(r, y))
  {
    var w := RunText(Last(r));
    ClosedRun(r, y, barString);
    assert RunText([y]) == SymText(y);
    NewRunText(temp, occ, y, w, Last(r));
    assert barString + (w + SymText(y)) == (barString + w) + SymText(y);
  }

  /** A note unlike the open run's closes it: the text grows by the open run and then the new one. */
  lemma ClosedRun(r: seq<seq<Sym>>, y: Sym, barString: string)
    requires Written(r, barString) && |Last(r)| > 0 && Last(r)[0] != y
    ensures RunsText(Extend(r, y)) == (barString + RunText(Last(r))) + RunText([y])
  {
    assert r == AllButLast(r) + [Last(r)];
    RunsTextSnoc(AllButLast(r), Last(r));
    RunsTextSnoc(r, [y]);
  }

  /**
   The two ways line 150 and line 153 write a finished run and a new
   note. The only sums that would give a bare `NaN` add `undefined` to
   `undefined`, and the new note differs from the run's.
   */
  lemma NewRunText(temp: Sym, occ: nat, y: Sym, w: string, run: seq<Sym>)
    requires temp != y && |run| == occ > 0 && run[0] == temp
    requires w == RunText(run)
    ensures occ > 1 ==> JsText(PlusSym(PlusCount(temp, occ), y)) == w + SymText(y)
    ensures occ <= 1 ==> JsText(PlusSyms(temp, y)) == w + SymText(y)
  {
  }

  lemma SplitAtLast<T>(s: seq<T>)
    requires |s| > 0
    ensures s == s[..|s| - 1] + [s[|s| - 1]]
  {
  }

  /** Line 133: `splice(0, 4)` until nothing is left: consecutive pieces of four, the last possibly shorter. */
  function Chunks<T>(xs: seq<T>): (r: seq<seq<T>>)
    ensures forall k :: 0 <= k < |r| ==> 0 < |r[k]| <= 4
    ensures forall k :: 0 <= k < |r| - 1 ==> |r[k]| == 4
    ensures |r| == (|xs| + 3) / 4
    decreases |xs|
  {
    if |xs| == 0 then []
    else if |xs| <= 4 then [xs]
    else [xs[..4]] + Chunks(xs[4..])
  }

  /** The pieces concatenate back to the whole list. */
  lemma {:induction false} ChunksConcat<T>(xs: seq<T>)
    ensures Concat(Chunks(xs)) == xs
    decreases |xs|
  {
    if |xs| > 4 {
      ChunksConcat(xs[4..]);
      ConcatCons(xs[..4], Chunks(xs[4..]));
      assert xs == xs[..4] + xs[4..];
    } else if |xs| > 0 {
      ConcatCons(xs, []);
    }
  }

  lemma ConcatCons<T>(x: seq<T>, rest: seq<seq<T>>)
    ensures Concat([x] + rest) == x + Concat(rest)
  {
    assert ([x] + rest)[1..] == rest;
  }

  /** Line 129. */
  function FirstPass(song: seq<int>): (r: seq<Sym>)
    ensures |r| == |song| && forall i :: 0 <= i < |song| ==> r[i] == ConvertNoteToAbc(song[i])
  {
    seq(|song|, i requires 0 <= i < |song| => ConvertNoteToAbc(song[i]))
  }

  /** `newArray[j]` as `concat` writes it: `undefined` past the end. */
  function Entry(xs: seq<string>, j: nat): string
  {
    if j < |xs| then xs[j] else "undefined"
  }

  /** Lines 174-178: every fourth bar string starts a group of four, joined without a separator. */
  function Groups(newArray: seq<string>): (r: seq<string>)
    ensures |r| == (|newArray| + 3) / 4
    ensures forall k :: 0 <= k < |r| ==>
      r[k] == newArray[4 * k] + Entry(newArray, 4 * k + 1) + Entry(newArray, 4 * k + 2) + Entry(newArray, 4 * k + 3)
  {
    seq((|newArray| + 3) / 4, k requires 0 <= k < (|newArray| + 3) / 4 =>
      newArray[4 * k] + Entry(newArray, 4 * k + 1) + Entry(newArray, 4 * k + 2) + Entry(newArray, 4 * k + 3))
  }

  /** Lines 180-184. */
  const Header := "T: GAN Morrison Generated\nC: GANs n Reels\nM: 4/4\nL: 1/16\nK: Dmaj\n"

  /** Lines 185-188: sixteen slots, four to a line, the last line without an opening bar line. */
  function Layout(b: seq<string>): string
  {
    "|" + Entry(b, 0) + "|" + Entry(b, 1) + "|" + Entry(b, 2) + "|" + Entry(b, 3) + "|\n"
    + "|" + Entry(b, 4) + "|" + Entry(b, 5) + "|" + Entry(b, 6) + "|" + Entry(b, 7) + "|\n"
    + "|" + Entry(b, 8) + "|" + Entry(b, 9) + "|" + Entry(b, 10) + "|" + Entry(b, 11) + "|\n"
    + Entry(b, 12) + "|" + Entry(b, 13) + "|" + Entry(b, 14) + "|" + Entry(b, 15) + "|"
  }

  /** Lines 136-172: each bar written by the inner loop. */
  method WriteBars(splitBars: seq<seq<Sym>>) returns (newArray: seq<string>)
    requires forall j :: 0 <= j < |splitBars| ==> |splitBars[j]| > 0
    ensures |newArray| == |splitBars|
    ensures forall j :: 0 <= j < |splitBars| ==> BarWritten(splitBars[j], newArray[j])
  {
    newArray := [];
    var i := 0;
    while i < |splitBars|
      invariant i <= |splitBars| && |newArray| == i
      invariant forall j :: 0 <= j < i ==> BarWritten(splitBars[j], newArray[j])
    {
      var b := BarString(splitBars[i]);
      newArray := newArray + [b];
      i := i + 1;
    }
  }

  /**
   Lines 126-191. The notes are spelled, cut into bars of four, each bar
   written run by run, the bars grouped by four, and the first sixteen
   groups laid out under the fixed header.
   */
  method ConvertToAbc(song: seq<int>) returns (abc: string)
    ensures |abc| >= |Header| && abc[..|Header|] == Header
    ensures exists newArray: seq<string> :: LaidOut(song, newArray, abc)
  {
    var splitBars := Chunks(FirstPass(song));
    var newArray := WriteBars(splitBars);
    var body := Layout(Groups(newArray));
    abc := Header + body;
    HeaderFirst(body);
    assert LaidOut(song, newArray, abc);
  }

  /** `abc` lays out under the header the groups of `newArray`, which holds the text of each bar of `song`. */
  predicate LaidOut(song: seq<int>, newArray: seq<string>, abc: string)
  {
    var bars := Chunks(FirstPass(song));
    |newArray| == |bars|
    && (forall j :: 0 <= j < |bars| ==> BarWritten(bars[j], newArray[j]))
    && abc == Header + Layout(Groups(newArray))
  }

  lemma HeaderFirst(body: string)
    ensures |Header + body| >= |Header| && (Header + body)[..|Header|] == Header
  {
  }
}
