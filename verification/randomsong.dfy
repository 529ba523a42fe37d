/**
 The random tune generator of src/Generation/Random/RandomSongGen.py:
 `generateABC` (lines 27-84), the style, meter and mode draws (lines
 87-223) and `generateSongs` (lines 226-240).

 Every random draw is an input. A `random.choice` over a weighted list is
 an index into that list, so the weights decide which names an index can
 reach; a `random.randint` is a value in its range.
 */
module RandomSongGen {
  import opened PyStr
  import opened NoteLexer
  import Corpus

  // ---------------------------------------------------------------------
  // Notes (lines 15-22)
  // ---------------------------------------------------------------------

  const NotesHigh: seq<string> := ["C", "D", "E", "F", "G", "A", "B"]
  const NotesLow: seq<string> := ["c", "d", "e", "f", "g", "a", "b"]
  const NotesAll: seq<string> := NotesHigh + NotesLow
  const AccidentalsBefore: seq<string> := ["^", "=", "_"]
  const AccidentalsAfter: seq<string> := [",", "'"]

  type NoteIx = i: nat | i < 14
  type BeforeIx = i: nat | i < 3
  type AfterIx = i: nat | i < 2
  /** `random.randint(0, 100)`. */
  type Roll = i: int | 0 <= i <= 100

  /** The draws for one note: the note, both accidentals, and the two rolls options 1 and 2 make. */
  datatype NoteDraw = NoteDraw(note: NoteIx, before: BeforeIx, after: AfterIx, rollAfter: Roll, rollBefore: Roll)

  /**
   The text of one note. Option 0 always puts an accidental before and an
   octave mark after it (lines 38-41); options 1 and 2 keep each only when
   its roll is at most 2 (lines 45-56 and 66-77).
   */
  function DrawnNote(option: int, d: NoteDraw): string
  {
    if option == 0 then AccidentalsBefore[d.before] + NotesAll[d.note] + AccidentalsAfter[d.after]
    else
      (if d.rollBefore <= 2 then AccidentalsBefore[d.before] else "") + NotesAll[d.note]
      + (if d.rollAfter <= 2 then AccidentalsAfter[d.after] else "")
  }

  /** The notes of a phrase, in draw order. */
  function NotesText(option: int, ds: seq<NoteDraw>): string
    decreases |ds|
  {
    if |ds| == 0 then "" else NotesText(option, ds[..|ds| - 1]) + DrawnNote(option, ds[|ds| - 1])
  }

  /** A phrase: a bar line, then its notes (`abc[x]`). */
  function Phrase(option: int, ds: seq<NoteDraw>): string
  {
    "|" + NotesText(option, ds)
  }

  /** The note a draw writes, as the note pattern reads it. */
  function DrawToken(option: int, d: NoteDraw): Token
  {
    var acc := if option == 0 || d.rollBefore <= 2 then AccidentalsBefore[d.before] else "";
    var oct := if option == 0 || d.rollAfter <= 2 then AccidentalsAfter[d.after] else "";
    Token(acc, NotesAll[d.note][0], oct, "", false, "")
  }

  /** Each note is a well-formed token of the note pattern; under option 0 it has exactly one accidental and one octave mark. */
  lemma DrawTokenText(option: int, d: NoteDraw)
    ensures WellFormed(DrawToken(option, d)) && Text(DrawToken(option, d)) == DrawnNote(option, d)
    ensures option == 0 ==> |DrawToken(option, d).accidentals| == 1 && |DrawToken(option, d).octave| == 1
    ensures option != 0 ==> |DrawToken(option, d).accidentals| <= 1 && |DrawToken(option, d).octave| <= 1
  {
    var t := DrawToken(option, d);
    TablesShape();
    assert |NotesAll[d.note]| == 1 && IsNoteLetter(NotesAll[d.note][0]);
    assert [t.letter] == NotesAll[d.note];
    assert AllIn(t.accidentals, Accidentals) && AllIn(t.octave, OctaveMarks);
  }

  function DrawTokens(option: int, ds: seq<NoteDraw>): (ts: seq<Token>)
    ensures |ts| == |ds|
  {
    seq(|ds|, k requires 0 <= k < |ds| => DrawToken(option, ds[k]))
  }

  /** Reading a phrase's notes with the note pattern gives one token per draw, in order. */
  lemma {:induction false} NotesLex(option: int, ds: seq<NoteDraw>)
    ensures Lex(NotesText(option, ds)) == DrawTokens(option, ds)
    ensures |Lex(NotesText(option, ds))| == |ds|
  {
    NotesTextAll(option, ds);
    forall k | 0 <= k < |ds| ensures WellFormed(DrawTokens(option, ds)[k]) {
      DrawTokenText(option, ds[k]);
    }
    LexTextAll(DrawTokens(option, ds));
  }

  lemma {:induction false} NotesTextAll(option: int, ds: seq<NoteDraw>)
    ensures NotesText(option, ds) == TextAll(DrawTokens(option, ds))
    decreases |ds|
  {
    if |ds| > 0 {
      var init := ds[..|ds| - 1];
      var d := ds[|ds| - 1];
      assert ds == init + [d];
      NotesTextAll(option, init);
      NoteTokenText(option, d);
      DrawTokensSnoc(option, init, d);
    }
  }

  lemma NoteTokenText(option: int, d: NoteDraw)
    ensures Text(DrawToken(option, d)) == DrawnNote(option, d)
  {
    DrawTokenText(option, d);
  }

  /** One more draw adds its note's text at the end. */
  lemma DrawTokensSnoc(option: int, ds: seq<NoteDraw>, d: NoteDraw)
    ensures TextAll(DrawTokens(option, ds + [d])) == TextAll(DrawTokens(option, ds)) + Text(DrawToken(option, d))
  {
    assert DrawTokens(option, ds + [d]) == DrawTokens(option, ds) + [DrawToken(option, d)];
    TextAllSnoc(DrawTokens(option, ds), DrawToken(option, d));
  }

  /** Every entry of the note and accidental tables is one character of its class. */
  lemma TablesShape()
    ensures forall i :: 0 <= i < |NotesAll| ==> |NotesAll[i]| == 1 && IsNoteLetter(NotesAll[i][0])
    ensures forall i :: 0 <= i < |AccidentalsBefore| ==> |AccidentalsBefore[i]| == 1 && InClass(AccidentalsBefore[i][0], Accidentals)
    ensures forall i :: 0 <= i < |AccidentalsAfter| ==> |AccidentalsAfter[i]| == 1 && InClass(AccidentalsAfter[i][0], OctaveMarks)
  {
  }

  lemma NoteNoBar(option: int, d: NoteDraw)
    ensures '|' !in DrawnNote(option, d)
  {
    TablesShape();
    var n := NotesAll[d.note];
    var x := AccidentalsBefore[d.before];
    var y := AccidentalsAfter[d.after];
    assert n == [n[0]] && x == [x[0]] && y == [y[0]];
  }

  /** No note text holds a bar line. */
  lemma {:induction false} NotesNoBar(option: int, ds: seq<NoteDraw>)
    ensures '|' !in NotesText(option, ds)
    decreases |ds|
  {
    if |ds| > 0 {
      NotesNoBar(option, ds[..|ds| - 1]);
      NoteNoBar(option, ds[|ds| - 1]);
    }
  }

  // ---------------------------------------------------------------------
  // Notes per phrase (lines 33 and 57-63)
  // ---------------------------------------------------------------------

  /** Python's `a // b`, which rounds toward minus infinity. */
  function FloorDiv(a: int, b: int): (q: int)
    requires b != 0
    ensures b > 0 ==> q * b <= a < q * b + b
    ensures b < 0 ==> q * b + b < a <= q * b
  {
    if b > 0 then a / b else (-a) / (-b)
  }

  /**
   How many notes each phrase gets. Options 0 and 1 use 8. Option 2 reads
   the meter: the denominator must parse and not be 0, then the numerator;
   the count is numerator times `8 // denominator`, and a negative count
   is an empty loop. Any other option draws no notes.
   */
  function NotesPerPhrase(option: int, timeSignature: string): (r: Result<nat>)
    ensures r.Raised? ==> option == 2
    ensures option == 2 && |Split(timeSignature, "/")| < 2 ==> r == Raised(IndexError)
  {
    if option == 0 || option == 1 then Value(8)
    else if option == 2 then
      var time := Split(timeSignature, "/");
      if |time| < 2 then Raised(IndexError)
      else
        match Corpus.IntOf(time[1])
        case Raised(e) => Raised(e)
        case Value(beat) =>
          if beat == 0 then Raised(ZeroDivisionError)
          else
            var noteMult := FloorDiv(8, beat);
            match Corpus.IntOf(time[0])
            case Raised(e) => Raised(e)
            case Value(num) => Value(if num * noteMult < 0 then 0 else num * noteMult)
    else Value(0)
  }

  // ---------------------------------------------------------------------
  // generateABC (lines 27-84)
  // ---------------------------------------------------------------------

  /** The sixteen phrases, as the notes after each bar line: AABB or ABAB, four times. */
  function Pattern(choice: int, x: string, y: string): seq<string>
  {
    var p := if choice == 1 then [x, x, y, y] else [x, y, x, y];
    p + p + p + p
  }

  /**
   `generateABC`. The phrase draws `a` and `b` hold as many notes as the
   option asks for; `choice` is `random.randint(1, 2)`.
   */
  function GenerateAbc(option: int, timeSignature: string, choice: int, a: seq<NoteDraw>, b: seq<NoteDraw>): (r: Result<string>)
    requires NotesPerPhrase(option, timeSignature).Value? ==>
      |a| == NotesPerPhrase(option, timeSignature).value && |b| == NotesPerPhrase(option, timeSignature).value
    ensures r.Raised? <==> NotesPerPhrase(option, timeSignature).Raised?
    ensures r.Raised? ==> r.exc == NotesPerPhrase(option, timeSignature).exc
  {
    match NotesPerPhrase(option, timeSignature)
    case Raised(e) => Raised(e)
    case Value(_) =>
      var x := Phrase(option, a);
      var y := Phrase(option, b);
      var abcOut := if choice == 1 then x + x + y + y else x + y + x + y;
      Value(abcOut + abcOut + abcOut + abcOut + "|")
  }

  /** The pieces between bar lines, each written after its bar line. */
  function Barred(xs: seq<string>): (r: seq<string>)
    ensures |r| == |xs|
  {
    seq(|xs|, k requires 0 <= k < |xs| => "|" + xs[k])
  }

  /** Joining with a separator, the first piece and an empty last one around `xs`, writes each of `xs` after a separator. */
  lemma {:induction false} JoinFramed(y: string, xs: seq<string>)
    ensures Join([y] + xs + [""], "|") == y + Concat(Barred(xs)) + "|"
    decreases |xs|
  {
    if |xs| == 0 {
      assert [y] + xs + [""] == [y, ""];
      assert Join([y, ""], "|") == y + "|" + Join([""], "|");
    } else {
      var rest := xs[1..];
      JoinFramed(xs[0], rest);
      assert ([y] + xs + [""])[1..] == [xs[0]] + rest + [""];
      assert Barred(xs) == ["|" + xs[0]] + Barred(rest);
      assert Concat(Barred(xs)) == "|" + xs[0] + Concat(Barred(rest));
    }
  }

  lemma BarredConcat(xs: seq<string>, ys: seq<string>)
    ensures Concat(Barred(xs + ys)) == Concat(Barred(xs)) + Concat(Barred(ys))
  {
    assert Barred(xs + ys) == Barred(xs) + Barred(ys);
    ConcatAppend(Barred(xs), Barred(ys));
  }

  /** A four-phrase block written out. */
  lemma BlockText(x: string, y: string, choice: int)
    ensures var p := if choice == 1 then [x, x, y, y] else [x, y, x, y];
      Concat(Barred(p)) == if choice == 1 then ("|" + x) + ("|" + x) + ("|" + y) + ("|" + y)
                           else ("|" + x) + ("|" + y) + ("|" + x) + ("|" + y)
  {
    var p := if choice == 1 then [x, x, y, y] else [x, y, x, y];
    assert Barred(p) == ["|" + p[0]] + (["|" + p[1]] + (["|" + p[2]] + ["|" + p[3]]));
    ConcatOne("|" + p[3]);
    ConcatCons("|" + p[2], ["|" + p[3]]);
    ConcatCons("|" + p[1], ["|" + p[2]] + ["|" + p[3]]);
    ConcatCons("|" + p[0], ["|" + p[1]] + (["|" + p[2]] + ["|" + p[3]]));
  }

  lemma ConcatOne(x: string)
    ensures Concat([x]) == x
  {
    assert Concat([x]) == x + Concat([x][1..]);
  }

  lemma ConcatCons(x: string, rest: seq<string>)
    ensures Concat([x] + rest) == x + Concat(rest)
  {
    assert ([x] + rest)[1..] == rest;
  }

  /** No piece holds a bar line. */
  predicate NoBar(xs: seq<string>)
  {
    forall k :: 0 <= k < |xs| ==> '|' !in xs[k]
  }

  lemma NoBarAppend(xs: seq<string>, ys: seq<string>)
    requires NoBar(xs) && NoBar(ys)
    ensures NoBar(xs + ys)
  {
  }

  /**
   The tune is sixteen phrases and a closing bar line: cutting it at `|`
   gives an empty piece, the notes of the sixteen phrases in the order
   AABB or ABAB repeated four times, and a final empty piece. Under the
   three options each phrase reads back as exactly the notes drawn for it.
   */
  lemma {:induction false} AbcPhrases(option: int, timeSignature: string, choice: int, a: seq<NoteDraw>, b: seq<NoteDraw>)
    requires NotesPerPhrase(option, timeSignature).Value?
    requires |a| == NotesPerPhrase(option, timeSignature).value && |b| == NotesPerPhrase(option, timeSignature).value
    ensures var r := GenerateAbc(option, timeSignature, choice, a, b);
      r.Value? && Split(r.value, "|") == [""] + Pattern(choice, NotesText(option, a), NotesText(option, b)) + [""]
    ensures |Split(GenerateAbc(option, timeSignature, choice, a, b).value, "|")| == 18
    ensures |Lex(NotesText(option, a))| == |Lex(NotesText(option, b))| == NotesPerPhrase(option, timeSignature).value
  {
    var x := NotesText(option, a);
    var y := NotesText(option, b);
    var pieces := [""] + Pattern(choice, x, y) + [""];
    PatternText(choice, x, y);
    NotesNoBar(option, a);
    NotesNoBar(option, b);
    PatternNoBar(choice, x, y);
    SplitJoin(pieces, '|');
    NotesLex(option, a);
    NotesLex(option, b);
  }

  /** The sixteen phrases between bar lines, closed by one more, are the tune `generateABC` writes. */
  lemma PatternText(choice: int, x: string, y: string)
    ensures var abcOut := if choice == 1 then ("|" + x) + ("|" + x) + ("|" + y) + ("|" + y)
                          else ("|" + x) + ("|" + y) + ("|" + x) + ("|" + y);
      Join([""] + Pattern(choice, x, y) + [""], "|") == abcOut + abcOut + abcOut + abcOut + "|"
  {
    var p := if choice == 1 then [x, x, y, y] else [x, y, x, y];
    var block := Concat(Barred(p));
    BlockText(x, y, choice);
    BarredConcat(p, p);
    BarredConcat(p + p, p);
    BarredConcat(p + p + p, p);
    var all := Pattern(choice, x, y);
    assert Concat(Barred(all)) == block + block + block + block;
    JoinFramed("", all);
    assert "" + Concat(Barred(all)) == Concat(Barred(all));
  }

  /** Phrases free of bar lines give pieces free of them. */
  lemma PatternNoBar(choice: int, x: string, y: string)
    requires '|' !in x && '|' !in y
    ensures var pieces := [""] + Pattern(choice, x, y) + [""];
      forall k :: 0 <= k < |pieces| ==> '|' !in pieces[k]
  {
    var p := if choice == 1 then [x, x, y, y] else [x, y, x, y];
    var all := Pattern(choice, x, y);
    assert NoBar(p);
    NoBarAppend(p, p);
    NoBarAppend(p + p, p);
    NoBarAppend(p + p + p, p);
    assert NoBar(all);
    NoBarAppend([""], all);
    NoBarAppend([""] + all, [""]);
    assert NoBar([""] + all + [""]);
  }

  // ---------------------------------------------------------------------
  // Weighted draws (lines 87-141 and 169-223)
  // ---------------------------------------------------------------------

  /** Which list a draw chooses from: every name once, the corpus weights, or none (the name is left unbound). */
  datatype Weighting = Uniform | Weighted | Unbound

  /** Python truthiness of an integer. */
  predicate Truthy(n: int)
  {
    n != 0
  }

  /** The branch `randStyle` and `randMode` take. `option == 1 or 2` reads as `(option == 1) or 2`. */
  function StyleWeighting(option: int): Weighting
  {
    if option == 0 then Uniform else if option == 1 || Truthy(2) then Weighted else Unbound
  }

  /** The branch `randTime` takes: it has none for option 2 or above. */
  function TimeWeighting(option: int): Weighting
  {
    if option == 0 then Uniform else if option == 1 then Weighted else Unbound
  }

  /** `option == 1 or 2` is always true: every option but 0 draws styles and modes by the corpus weights. */
  lemma StyleAlwaysWeighted(option: int)
    ensures option != 0 ==> StyleWeighting(option) == Weighted
    ensures StyleWeighting(option) != Unbound
  {
  }

  const StyleNames: seq<string> := ["hornpipe", "slip jig", "mazurka", "three-two", "waltz", "polka",
                                    "strathspey", "barndance", "slide", "reel", "jig"]
  const StyleWeights: seq<nat> := [727, 378, 133, 92, 718, 733, 302, 502, 238, 3713, 2460]
  const TimeNames: seq<string> := ["2/4", "3/2", "12/8", "9/8", "4/4", "3/4", "6/8"]
  const TimeWeights: seq<nat> := [733, 92, 238, 378, 5245, 851, 2460]
  const ModeNames: seq<string> := ["Gdorian", "Edorian", "Dmajor", "Emixolydian", "Ddorian", "Amixolydian",
                                   "Cmajor", "Emajor", "Gmajor", "Dminor", "Gminor", "Cdorian", "Fdorian",
                                   "Bmixolydian", "Bminor", "Adorian", "Aminor", "Gmixolydian", "Amajor",
                                   "Fmajor", "Dmixolydian", "Bdorian", "Eminor"]
  const ModeWeights: seq<nat> := [78, 442, 2676, 16, 96, 331, 239, 51, 2797, 133, 134, 23, 19, 5, 347, 575,
                                  298, 40, 694, 157, 285, 29, 525]

  /** The weights of the list a draw chooses from. */
  function WeightsOf(w: Weighting, weighted: seq<nat>): (r: seq<nat>)
    ensures |r| == (if w == Unbound then 0 else |weighted|)
  {
    match w
    case Uniform => seq(|weighted|, _ => 1)
    case Weighted => weighted
    case Unbound => []
  }

  function Sum(ws: seq<nat>): nat
    decreases |ws|
  {
    if |ws| == 0 then 0 else ws[0] + Sum(ws[1..])
  }

  /** `[names[0]] * ws[0] + [names[1]] * ws[1] + ...`: the list `random.choice` draws from. */
  function Expand<T>(names: seq<T>, ws: seq<nat>): (r: seq<T>)
    requires |names| == |ws|
    ensures |r| == Sum(ws)
    decreases |ws|
  {
    if |ws| == 0 then [] else seq(ws[0], _ => names[0]) + Expand(names[1..], ws[1..])
  }

  /** Which name index `ix` of the expanded list holds: a name of positive weight. */
  function PickIndex(ws: seq<nat>, ix: nat): (k: nat)
    requires ix < Sum(ws)
    ensures k < |ws| && ws[k] > 0
    decreases |ws|
  {
    if ix < ws[0] then 0 else 1 + PickIndex(ws[1..], ix - ws[0])
  }

  /** Walking the weights finds the element of the expanded list. */
  lemma {:induction false} PickExpand<T>(names: seq<T>, ws: seq<nat>, ix: nat)
    requires |names| == |ws| && ix < Sum(ws)
    ensures names[PickIndex(ws, ix)] == Expand(names, ws)[ix]
    decreases |ws|
  {
    if ix >= ws[0] {
      PickExpand(names[1..], ws[1..], ix - ws[0]);
    }
  }

  /** Under uniform weights index `ix` picks the `ix`-th name. */
  lemma {:induction false} PickUniform(n: nat, ix: nat)
    requires ix < n
    ensures Sum(seq(n, _ => 1)) == n
    ensures PickIndex(seq(n, _ => 1), ix) == ix
    decreases n
  {
    var ws: seq<nat> := seq(n, _ => 1);
    assert ws[1..] == seq(n - 1, _ => 1);
    if n > 1 {
      if ix > 0 {
        PickUniform(n - 1, ix - 1);
      } else {
        PickUniform(n - 1, 0);
      }
    } else {
      assert ws[1..] == [];
    }
  }

  /** `random.choice` over a list that may be unbound: the index of the name drawn. */
  function Draw(w: Weighting, weighted: seq<nat>, ix: nat): (r: Result<nat>)
    requires w != Unbound ==> ix < Sum(WeightsOf(w, weighted))
    ensures r.Raised? <==> w == Unbound
    ensures r.Raised? ==> r.exc == UnboundLocalError
    ensures r.Value? ==> r.value < |weighted|
  {
    if w == Unbound then Raised(UnboundLocalError) else Value(PickIndex(WeightsOf(w, weighted), ix))
  }

  // ---------------------------------------------------------------------
  // styleTime (lines 143-167)
  // ---------------------------------------------------------------------

  /** The meter of each style; any other style leaves `time` unbound. */
  function StyleTime(style: string): (r: Result<string>)
    ensures r.Raised? ==> r.exc == UnboundLocalError
  {
    match style
    case "hornpipe" => Value("4/4")
    case "slip jig" => Value("9/8")
    case "mazurka" => Value("3/4")
    case "three-two" => Value("3/2")
    case "waltz" => Value("3/4")
    case "polka" => Value("2/4")
    case "strathspey" => Value("4/4")
    case "barndance" => Value("4/4")
    case "slide" => Value("12/8")
    case "reel" => Value("4/4")
    case "jig" => Value("6/8")
    case _ => Raised(UnboundLocalError)
  }

  /** `styleTime` knows exactly the styles `randStyle` can draw. */
  lemma StyleTimeDomain(style: string)
    ensures StyleTime(style).Value? <==> style in StyleNames
  {
  }

  /** Cutting `n/d` at `/` when neither part holds one. */
  lemma SplitMeter(n: string, d: string)
    requires '/' !in n && '/' !in d
    ensures Split(n + "/" + d, "/") == [n, d]
  {
    assert Join([n, d], "/") == n + "/" + d by {
      assert [n, d][1..] == [d];
    }
    SplitJoin([n, d], '/');
  }

  lemma IntOfDigit(s: string, v: nat)
    requires |s| == 1 && InClass(s[0], Digits) && v == DigitValue(s[0])
    ensures Corpus.IntOf(s) == Value(v)
  {
    assert !(s[0] == '-' || s[0] == '+');
    assert s[0..] == s;
    assert AllIn(s, Digits);
    assert ParseNat(s) == v by {
      assert s[..0] == [];
    }
  }

  lemma IntOfTwelve()
    ensures Corpus.IntOf("12") == Value(12)
  {
    var s := "12";
    assert AllIn(s, Digits);
    Corpus.IntOfDigits(s);
    assert ParseNat(s[..1]) == 1 by {
      assert s[..1][..0] == [];
    }
    assert ParseNat(s) == 12;
  }

  /** Option 2 reads a meter `n/d` of decimal naturals as `n * (8 // d)` notes. */
  lemma MeterNotes(n: string, d: string, num: nat, beat: nat, count: nat)
    requires '/' !in n && '/' !in d && beat > 0 && count == num * (8 / beat)
    requires Corpus.IntOf(n) == Value(num) && Corpus.IntOf(d) == Value(beat)
    ensures NotesPerPhrase(2, n + "/" + d) == Value(count)
  {
    SplitMeter(n, d);
    var time := Split(n + "/" + d, "/");
    assert time[0] == n && time[1] == d;
    assert FloorDiv(8, beat) == 8 / beat;
  }

  lemma Meter44() ensures NotesPerPhrase(2, "4/4") == Value(8) {
    var n := "4";
    IntOfDigit(n, 4);
    MeterNotes(n, n, 4, 4, 8);
    assert n + "/" + n == "4/4";
  }
  lemma Meter98() ensures NotesPerPhrase(2, "9/8") == Value(9) {
    var n, d := "9", "8";
    IntOfDigit(n, 9);
    IntOfDigit(d, 8);
    MeterNotes(n, d, 9, 8, 9);
    assert n + "/" + d == "9/8";
  }
  lemma Meter34() ensures NotesPerPhrase(2, "3/4") == Value(6) {
    var n, d := "3", "4";
    IntOfDigit(n, 3);
    IntOfDigit(d, 4);
    MeterNotes(n, d, 3, 4, 6);
    assert n + "/" + d == "3/4";
  }
  lemma Meter32() ensures NotesPerPhrase(2, "3/2") == Value(12) {
    var n, d := "3", "2";
    IntOfDigit(n, 3);
    IntOfDigit(d, 2);
    MeterNotes(n, d, 3, 2, 12);
    assert n + "/" + d == "3/2";
  }
  lemma Meter24() ensures NotesPerPhrase(2, "2/4") == Value(4) {
    var n, d := "2", "4";
    IntOfDigit(n, 2);
    IntOfDigit(d, 4);
    MeterNotes(n, d, 2, 4, 4);
    assert n + "/" + d == "2/4";
  }
  lemma Meter128() ensures NotesPerPhrase(2, "12/8") == Value(12) {
    var n, d := "12", "8";
    IntOfTwelve();
    IntOfDigit(d, 8);
    MeterNotes(n, d, 12, 8, 12);
    assert n + "/" + d == "12/8";
  }
  lemma Meter68() ensures NotesPerPhrase(2, "6/8") == Value(6) {
    var n, d := "6", "8";
    IntOfDigit(n, 6);
    IntOfDigit(d, 8);
    MeterNotes(n, d, 6, 8, 6);
    assert n + "/" + d == "6/8";
  }

  /**
   Under option 2 the meter of every style is read without error and
   gives numerator times `8 // denominator` notes per phrase: 8 for `4/4`,
   9 for `9/8`, 6 for `3/4` and `6/8`, 12 for `3/2` and `12/8`, 4 for `2/4`.
   */
  lemma StyleNotes(k: nat)
    requires k < |StyleNames|
    ensures NotesPerPhrase(2, StyleMeters[k]) == Value(StylePhrase[k])
  {
    if k == 0 || k == 6 || k == 7 || k == 9 {
      Meter44();
    } else if k == 1 {
      Meter98();
    } else if k == 2 || k == 4 {
      Meter34();
    } else if k == 3 {
      Meter32();
    } else if k == 5 {
      Meter24();
    } else if k == 8 {
      Meter128();
    } else {
      Meter68();
    }
  }

  /** The meter of each style in `StyleNames`, and how many notes a phrase takes in it. */
  const StyleMeters: seq<string> := ["4/4", "9/8", "3/4", "3/2", "3/4", "2/4", "4/4", "4/4", "12/8", "4/4", "6/8"]
  const StylePhrase: seq<nat> := [8, 9, 6, 12, 6, 4, 8, 8, 12, 8, 6]

  lemma StyleMeter(k: nat)
    requires k < |StyleNames|
    ensures StyleTime(StyleNames[k]) == Value(StyleMeters[k])
  {
    var style := StyleNames[k];
    if k == 0 { assert style == "hornpipe"; }
    else if k == 1 { assert style == "slip jig"; }
    else if k == 2 { assert style == "mazurka"; }
    else if k == 3 { assert style == "three-two"; }
    else if k == 4 { assert style == "waltz"; }
    else if k == 5 { assert style == "polka"; }
    else if k == 6 { assert style == "strathspey"; }
    else if k == 7 { assert style == "barndance"; }
    else if k == 8 { assert style == "slide"; }
    else if k == 9 { assert style == "reel"; }
    else { assert style == "jig"; }
  }

  // ---------------------------------------------------------------------
  // generateSongs (lines 226-240)
  // ---------------------------------------------------------------------

  /** One generated record; `noteLen` is the `L` field. */
  datatype Song = Song(tune: int, setting: int, name: string, style: string, meter: string,
                       noteLen: string, mode: string, abc: string)

  /** The draws for one song, in the order they are made. */
  datatype SongDraws = SongDraws(style: nat, time: nat, choice: int, a: seq<NoteDraw>, b: seq<NoteDraw>, mode: nat)

  /** How many notes each phrase of a song takes under an option, given the style drawn. */
  function SongPhraseLength(option: int, style: nat): nat
  {
    if option == 2 && style < |StyleNames| then StylePhrase[style]
    else if option == 0 || option == 1 then 8
    else 0
  }

  /** Draws that `random` could have made for one song: indices inside their lists, and as many notes as each phrase takes. */
  predicate Fits(option: int, d: SongDraws)
  {
    d.style < Sum(WeightsOf(StyleWeighting(option), StyleWeights))
    && d.mode < Sum(WeightsOf(StyleWeighting(option), ModeWeights))
    && (TimeWeighting(option) != Unbound ==> d.time < Sum(WeightsOf(TimeWeighting(option), TimeWeights)))
    && |d.a| == |d.b|
    && (option == 0 || option == 1 || option == 2 ==>
          |d.a| == SongPhraseLength(option, PickIndex(WeightsOf(StyleWeighting(option), StyleWeights), d.style)))
  }

  /**
   One turn of the loop in `generateSongs`: the record for song `x`. The
   style is drawn first; under option 2 the meter is the style's, under
   the others it is drawn and option 3 or above raises there.
   */
  function GenerateSong(option: int, x: nat, d: SongDraws): (r: Result<Song>)
    requires Fits(option, d)
    ensures r.Raised? <==> option != 0 && option != 1 && option != 2
    ensures r.Raised? ==> r.exc == UnboundLocalError
  {
    StyleAlwaysWeighted(option);
    var k := Draw(StyleWeighting(option), StyleWeights, d.style).value;
    var style := StyleNames[k];
    if option != 0 && option != 1 && option != 2 then Raised(UnboundLocalError)
    else
      StyleMeter(k);
      var timeSig := if option == 2 then StyleMeters[k] else TimeNames[Draw(TimeWeighting(option), TimeWeights, d.time).value];
      StyleNotes(k);
      var abc := GenerateAbc(option, timeSig, d.choice, d.a, d.b).value;
      var key := ModeNames[Draw(StyleWeighting(option), ModeWeights, d.mode).value];
      Value(Song(x, x, "Random Song #" + ShowNat(x), style, timeSig, "1/8", key, abc))
  }

  /**
   A generated song is numbered `x` as tune and setting, named after its
   number, has eighth-note length, a style and a mode from their lists and
   a meter that is the style's under option 2 and one of the drawn meters
   otherwise; its tune cuts into sixteen phrases between bar lines.
   */
  lemma SongShape(option: int, x: nat, d: SongDraws)
    requires Fits(option, d) && (option == 0 || option == 1 || option == 2)
    ensures var r := GenerateSong(option, x, d);
      r.Value? && r.value.tune == x && r.value.setting == x && r.value.noteLen == "1/8"
      && r.value.name == "Random Song #" + ShowNat(x)
      && r.value.style in StyleNames && r.value.mode in ModeNames
      && (option == 2 ==> StyleTime(r.value.style) == Value(r.value.meter))
      && (option != 2 ==> r.value.meter in TimeNames)
      && |Split(r.value.abc, "|")| == 18
  {
    SongFields(option, x, d);
    SongChoices(option, x, d);
    SongPhrases(option, x, d);
  }

  lemma SongFields(option: int, x: nat, d: SongDraws)
    requires Fits(option, d) && (option == 0 || option == 1 || option == 2)
    ensures var r := GenerateSong(option, x, d);
      r.Value? && r.value.tune == x && r.value.setting == x && r.value.noteLen == "1/8"
      && r.value.name == "Random Song #" + ShowNat(x)
  {
  }

  lemma SongChoices(option: int, x: nat, d: SongDraws)
    requires Fits(option, d) && (option == 0 || option == 1 || option == 2)
    ensures var r := GenerateSong(option, x, d);
      r.Value? && r.value.style in StyleNames && r.value.mode in ModeNames
      && (option == 2 ==> StyleTime(r.value.style) == Value(r.value.meter))
      && (option != 2 ==> r.value.meter in TimeNames)
  {
    SongNames(option, x, d);
    SongMeter(option, x, d);
  }

  lemma SongNames(option: int, x: nat, d: SongDraws)
    requires Fits(option, d) && (option == 0 || option == 1 || option == 2)
    ensures var r := GenerateSong(option, x, d);
      r.Value? && r.value.style in StyleNames && r.value.mode in ModeNames
  {
    StyleAlwaysWeighted(option);
    var k := Draw(StyleWeighting(option), StyleWeights, d.style).value;
    var m := Draw(StyleWeighting(option), ModeWeights, d.mode).value;
    var song := GenerateSong(option, x, d).value;
    assert song.style == StyleNames[k] && song.mode == ModeNames[m];
  }

  lemma SongMeter(option: int, x: nat, d: SongDraws)
    requires Fits(option, d) && (option == 0 || option == 1 || option == 2)
    ensures var r := GenerateSong(option, x, d);
      r.Value? && (option == 2 ==> StyleTime(r.value.style) == Value(r.value.meter))
      && (option != 2 ==> r.value.meter in TimeNames)
  {
    StyleAlwaysWeighted(option);
    var k := Draw(StyleWeighting(option), StyleWeights, d.style).value;
    var timeSig := if option == 2 then StyleMeters[k] else TimeNames[Draw(TimeWeighting(option), TimeWeights, d.time).value];
    var song := GenerateSong(option, x, d).value;
    assert song.style == StyleNames[k] && song.meter == timeSig;
    StyleMeter(k);
  }

  lemma SongPhrases(option: int, x: nat, d: SongDraws)
    requires Fits(option, d) && (option == 0 || option == 1 || option == 2)
    ensures var r := GenerateSong(option, x, d);
      r.Value? && |Split(r.value.abc, "|")| == 18
  {
    StyleAlwaysWeighted(option);
    var k := Draw(StyleWeighting(option), StyleWeights, d.style).value;
    StyleMeter(k);
    StyleNotes(k);
    var timeSig := if option == 2 then StyleMeters[k] else TimeNames[Draw(TimeWeighting(option), TimeWeights, d.time).value];
    AbcPhrases(option, timeSig, d.choice, d.a, d.b);
  }

  /**
   `generateSongs(num)` on a generator holding `songs`. Songs 0 to num-1
   are written over whatever those keys held, and every other key is kept.
   Options other than 0, 1 and 2 raise at the first song, since `randTime`
   leaves `time` unbound for them.
   */
  method GenerateSongs(option: int, songs: map<int, Song>, num: int, draws: seq<SongDraws>) returns (r: Result<map<int, Song>>)
    requires |draws| == (if num < 0 then 0 else num)
    requires forall x :: 0 <= x < |draws| ==> Fits(option, draws[x])
    ensures r.Raised? <==> num > 0 && option != 0 && option != 1 && option != 2
    ensures r.Raised? ==> r.exc == UnboundLocalError
    ensures r.Value? ==> forall k :: k in r.value <==> k in songs || 0 <= k < |draws|
    ensures r.Value? ==> Stored(option, draws, r.value, |draws|)
    ensures r.Value? ==> forall k :: k in songs && !(0 <= k < |draws|) ==> r.value[k] == songs[k]
  {
    var out := songs;
    var x := 0;
    while x < |draws|
      invariant 0 <= x <= |draws|
      invariant Overwritten(songs, out, x)
      invariant Stored(option, draws, out, x)
      invariant x > 0 ==> option == 0 || option == 1 || option == 2
    {
      var song := GenerateSong(option, x, draws[x]);
      if song.Raised? {
        return Raised(song.exc);
      }
      StoredStep(option, draws, out, x, song.value);
      OverwrittenStep(songs, out, x, song.value);
      out := out[x := song.value];
      x := x + 1;
    }
    r := Value(out);
  }

  /** `out` holds the keys of `songs` and 0 to x-1, and the keys of `songs` beyond those unchanged. */
  ghost predicate Overwritten(songs: map<int, Song>, out: map<int, Song>, x: nat)
  {
    (forall k :: k in out <==> k in songs || 0 <= k < x)
    && forall k :: k in songs && !(0 <= k < x) ==> out[k] == songs[k]
  }

  lemma OverwrittenStep(songs: map<int, Song>, out: map<int, Song>, x: nat, song: Song)
    requires Overwritten(songs, out, x)
    ensures Overwritten(songs, out[x := song], x + 1)
  {
  }

  /** Songs 0 to x-1 of `out` are present, and each is the one generated from its draws. */
  ghost predicate Stored(option: int, draws: seq<SongDraws>, out: map<int, Song>, x: nat)
    requires x <= |draws|
    requires forall j :: 0 <= j < |draws| ==> Fits(option, draws[j])
  {
    Holds(j => SongAt(option, draws, j), out, x)
  }

  /** What `generate_song` gives for the draws at `j`. */
  function SongAt(option: int, draws: seq<SongDraws>, j: int): (r: Result<Song>)
    requires forall j :: 0 <= j < |draws| ==> Fits(option, draws[j])
    ensures 0 <= j < |draws| ==> r == GenerateSong(option, j, draws[j])
  {
    if 0 <= j < |draws| then GenerateSong(option, j, draws[j]) else Raised(UnboundLocalError)
  }

  /** Entries 0 to x-1 of `out` are present and are the values of the results. */
  ghost predicate Holds(results: int -> Result<Song>, out: map<int, Song>, x: nat)
  {
    forall j :: 0 <= j < x ==> j in out && results(j) == Value(out[j])
  }

  lemma HoldsStep(results: int -> Result<Song>, out: map<int, Song>, x: nat, song: Song)
    requires Holds(results, out, x) && results(x) == Value(song)
    ensures Holds(results, out[x := song], x + 1)
  {
    var out' := out[x := song];
    forall j | 0 <= j < x + 1 ensures j in out' && results(j) == Value(out'[j]) {
      if j < x {
        assert out'[j] == out[j];
      }
    }
  }

  lemma StoredStep(option: int, draws: seq<SongDraws>, out: map<int, Song>, x: nat, song: Song)
    requires x < |draws|
    requires forall j :: 0 <= j < |draws| ==> Fits(option, draws[j])
    requires Stored(option, draws, out, x)
    requires GenerateSong(option, x, draws[x]) == Value(song)
    ensures Stored(option, draws, out[x := song], x + 1)
  {
    HoldsStep(j => SongAt(option, draws, j), out, x, song);
  }
}
