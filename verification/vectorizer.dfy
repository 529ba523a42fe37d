/**
 The bar vectoriser of src/Generation/Vectorizing/Vectorizer.py.

 A bar of ABC text is read into note tokens. Each token becomes as many
 ticks as its length asks for, at `noteMult` ticks per eighth note. The
 bar is then padded with zeros to `barSub` ticks. Pitches are MIDI-style
 numbers (middle C is 60, a rest is 0), adjusted by the accidentals of
 the key signature.

 `barSub` and `noteMult` are the module globals `BAR_SUBDIVISION` and
 `NOTE_MULT`, passed as parameters here.
 */
module Vectorizer {
  import opened PyStr
  import opened NoteLexer

  /** The default `BAR_SUBDIVISION`, and `NOTE_MULT` derived from it. */
  const DefaultBarSubdivision: nat := 48
  const DefaultNoteMult: nat := DefaultBarSubdivision / 8

  // ---------------------------------------------------------------------
  // Lookup tables (lines 17-55)
  // ---------------------------------------------------------------------

  /** `chars_as_num`: the pitch of each note letter, `z` (a rest) being 0. */
  function LetterValue(c: char): int
    requires IsNoteLetter(c)
  {
    match c
    case 'C' => 60 case 'D' => 62 case 'E' => 64 case 'F' => 65
    case 'G' => 67 case 'A' => 69 case 'B' => 71
    case 'c' => 72 case 'd' => 74 case 'e' => 76 case 'f' => 77
    case 'g' => 79 case 'a' => 81 case 'b' => 83
    case _ => 0
  }

  /** `str.upper` on ASCII letters. */
  function Upper(c: char): (u: char)
  {
    if 'a' <= c <= 'z' then (c as int - 32) as char else c
  }

  /** A lower-case letter sounds one octave above its upper-case letter, and the letters C to B climb the C major scale. */
  lemma LetterOctaves(c: char)
    requires 'A' <= c <= 'G'
    ensures IsNoteLetter((c as int + 32) as char) && Upper((c as int + 32) as char) == c
    ensures LetterValue((c as int + 32) as char) == LetterValue(c) + 12
    ensures 60 <= LetterValue(c) <= 71 && (LetterValue(c) - 60) in {0, 2, 4, 5, 7, 9, 11}
  {
  }

  /** `accidental_mods`. */
  function AccidentalMod(c: char): int
    requires InClass(c, Accidentals)
  {
    if c == '^' then 1 else if c == '_' then -1 else 0
  }

  /** `octave_mods`. */
  function OctaveMod(c: char): int
    requires InClass(c, OctaveMarks)
  {
    if c == '\'' then 12 else -12
  }

  function AccidentalSum(s: string): int
    requires AllIn(s, Accidentals)
    decreases |s|
  {
    if |s| == 0 then 0 else AccidentalMod(s[0]) + AccidentalSum(s[1..])
  }

  function OctaveSum(s: string): int
    requires AllIn(s, OctaveMarks)
    decreases |s|
  {
    if |s| == 0 then 0 else OctaveMod(s[0]) + OctaveSum(s[1..])
  }

  /** Each `^` raises a semitone and each `_` lowers one; `=` adds nothing. */
  lemma {:induction false} AccidentalSumCounts(s: string)
    requires AllIn(s, Accidentals)
    ensures AccidentalSum(s) == multiset(s)['^'] as int - multiset(s)['_'] as int
    decreases |s|
  {
    if |s| > 0 {
      assert s == [s[0]] + s[1..];
      AccidentalSumCounts(s[1..]);
    }
  }

  /** Each `'` raises an octave and each `,` lowers one. */
  lemma {:induction false} OctaveSumCounts(s: string)
    requires AllIn(s, OctaveMarks)
    ensures OctaveSum(s) == 12 * (multiset(s)['\''] as int - multiset(s)[','] as int)
    decreases |s|
  {
    if |s| > 0 {
      assert s == [s[0]] + s[1..];
      OctaveSumCounts(s[1..]);
    }
  }

  /** `key_to_offset`: the pitch class of each key name. */
  function KeyOffset(k: string): Option<int>
  {
    match k
    case "C" => Some(0) case "C#" => Some(1) case "Db" => Some(1)
    case "D" => Some(2) case "D#" => Some(3) case "Eb" => Some(3)
    case "E" => Some(4) case "Fb" => Some(4) case "E#" => Some(5)
    case "F" => Some(5) case "F#" => Some(6) case "Gb" => Some(6)
    case "G" => Some(7) case "G#" => Some(8) case "Ab" => Some(8)
    case "A" => Some(9) case "A#" => Some(10) case "Bb" => Some(10)
    case "B" => Some(11) case "Cb" => Some(11) case "B#" => Some(0)
    case _ => None
  }

  /** `key_to_offset[c]` for a one-character key: only the seven natural letters are found. */
  function TonicOffset(c: char): (r: Option<int>)
    ensures r == KeyOffset([c])
  {
    match c
    case 'C' => Some(0) case 'D' => Some(2) case 'E' => Some(4) case 'F' => Some(5)
    case 'G' => Some(7) case 'A' => Some(9) case 'B' => Some(11) case _ => None
  }

  /** `modes`: how far each mode's tonic lies above its relative major. */
  function ModeOffset(m: string): Option<int>
  {
    match m
    case "ionian" => Some(0) case "major" => Some(0) case "dorian" => Some(2)
    case "phrygian" => Some(4) case "lydian" => Some(5) case "mixolydian" => Some(7)
    case "aeolian" => Some(9) case "minor" => Some(9) case "locrian" => Some(11)
    case _ => None
  }

  /** `offset_to_key`: the major key named for each pitch class. */
  function OffsetToKey(n: int): string
    requires 0 <= n < 12
  {
    match n
    case 0 => "C" case 1 => "Db" case 2 => "D" case 3 => "Eb"
    case 4 => "E" case 5 => "F" case 6 => "F#" case 7 => "G"
    case 8 => "Ab" case 9 => "A" case 10 => "Bb" case _ => "B"
  }

  /** `ordered_key_list`: the major keys around the circle of fifths, five flats to six sharps. */
  const OrderedKeyList: seq<string> := ["Db", "Ab", "Eb", "Bb", "F", "C", "G", "D", "A", "E", "B", "F#"]

  const SharpOrder: string := "FCGDAEB"
  const FlatOrder: string := "BEADGCF"

  /** `xs.index(x)`: the first position of `x`, `None` for the ValueError. */
  function IndexOf(xs: seq<string>, x: string): (r: Option<nat>)
    ensures r.Some? ==> r.value < |xs| && xs[r.value] == x && forall j :: 0 <= j < r.value ==> xs[j] != x
    ensures r.None? ==> forall j :: 0 <= j < |xs| ==> xs[j] != x
    decreases |xs|
  {
    if |xs| == 0 then None
    else if xs[0] == x then Some(0)
    else match IndexOf(xs[1..], x)
      case None => None
      case Some(i) => Some(i + 1)
  }

  /** No key is listed twice. */
  lemma OrderedKeysDistinct()
    ensures forall j, k :: 0 <= j < k < |OrderedKeyList| ==> OrderedKeyList[j] != OrderedKeyList[k]
  {
  }

  /** The circle of fifths, read off the table: the key `i - 5` fifths above C. */
  function FifthsIndex(n: int): (i: nat)
    requires 0 <= n < 12
    ensures i < 12
  {
    match n
    case 0 => 5 case 1 => 0 case 2 => 7 case 3 => 2
    case 4 => 9 case 5 => 4 case 6 => 11 case 7 => 6
    case 8 => 1 case 9 => 8 case 10 => 3 case _ => 10
  }

  /** The table entry at `FifthsIndex(n)` is the key of pitch class `n`. */
  lemma FifthsKey(n: int)
    requires 0 <= n < 12
    ensures OrderedKeyList[FifthsIndex(n)] == OffsetToKey(n)
  {
  }

  /** Each step along the circle of fifths climbs seven semitones. */
  lemma FifthsClimb(n: int)
    requires 0 <= n < 12
    ensures (7 * (FifthsIndex(n) - 5) - n) % 12 == 0
  {
  }

  /** The position on the circle of fifths of the major key with pitch class `n`. */
  lemma CircleIndex(n: int)
    requires 0 <= n < 12
    ensures IndexOf(OrderedKeyList, OffsetToKey(n)) == Some(FifthsIndex(n))
  {
    OrderedKeysDistinct();
    FifthsKey(n);
    IndexOfDistinct(OrderedKeyList, FifthsIndex(n));
  }

  /** In a list without repeats, `index` finds each element where it is. */
  lemma IndexOfDistinct(xs: seq<string>, i: nat)
    requires i < |xs|
    requires forall j, k :: 0 <= j < k < |xs| ==> xs[j] != xs[k]
    ensures IndexOf(xs, xs[i]) == Some(i)
  {
    var r := IndexOf(xs, xs[i]);
    assert r.Some?;
    assert !(r.value < i);
  }

  // ---------------------------------------------------------------------
  // Key signatures (lines 144-174)
  // ---------------------------------------------------------------------

  /** The tonic and mode offsets read from a key such as `Gmajor` (lines 147-148). */
  function KeyParts(key: string): Result<(int, int)>
  {
    if |key| == 0 then Raised(IndexError)
    else
      var tonic := TonicOffset(key[0]);
      var mode := ModeOffset(key[1..]);
      if tonic.None? || mode.None? then Raised(KeyError) else Value((tonic.value, mode.value))
  }

  /**
   How many sharps (positive) or flats (negative) the relative major of
   `key` has (lines 147-151). The relative major has pitch class
   `(tonic - mode) % 12`, and `ordered_key_list.index(offset_to_key[n])`
   is `FifthsIndex(n)` (`CircleIndex`), so the lookup never raises.
   */
  function Diff(key: string): (r: Result<int>)
    ensures r.Raised? ==> r.exc == IndexError || r.exc == KeyError
    ensures r.Value? ==> -5 <= r.value <= 6
  {
    match KeyParts(key)
    case Raised(e) => Raised(e)
    case Value(parts) => Value(FifthsIndex((parts.0 - parts.1) % 12) - 5)
  }

  /**
   The circle of fifths: the relative major of `key` lies `diff` fifths
   above C, so seven semitones times `diff` is the tonic less the mode,
   modulo an octave.
   */
  lemma DiffIsFifths(key: string)
    requires Diff(key).Value?
    ensures KeyParts(key).Value?
    ensures (7 * Diff(key).value - (KeyParts(key).value.0 - KeyParts(key).value.1)) % 12 == 0
  {
    var kp := KeyParts(key).value;
    var v := kp.0 - kp.1;
    var d := Diff(key).value;
    assert d == FifthsIndex(v % 12) - 5;
    FifthsOf(v);
    assert (7 * d - v) % 12 == 0;
  }

  lemma FifthsOf(v: int)
    ensures (7 * (FifthsIndex(v % 12) - 5) - v) % 12 == 0
  {
    FifthsClimb(v % 12);
    ReduceOctave(v, FifthsIndex(v % 12) - 5);
  }

  /** What holds of `v % 12` holds of `v`, modulo an octave. */
  lemma ReduceOctave(v: int, d: int)
    requires (7 * d - v % 12) % 12 == 0
    ensures (7 * d - v) % 12 == 0
  {
    var n := v % 12;
    var q := v / 12;
    assert v == n + 12 * q;
    assert 7 * d - v == (7 * d - n) - 12 * q;
  }

  /** `get_sharps_or_flats` as written: the slice stops one short (lines 153-158). */
  function GetSharpsOrFlats(key: string): (r: Result<(string, int)>)
    ensures r.Raised? == Diff(key).Raised?
    ensures r.Value? ==> (r.value.1 == 1 <==> Diff(key).value > 0) && (r.value.1 == -1 <==> Diff(key).value < 0)
  {
    match Diff(key)
    case Raised(e) => Raised(e)
    case Value(diff) =>
      if diff > 0 then Value((Slice(SharpOrder, 0, diff - 1), 1))
      else if diff < 0 then Value((Slice(FlatOrder, 0, diff - 1), -1))
      else Value(("", 0))
  }

  /**
   The accidentals of the key signature: the first `diff` letters of
   `FCGDAEB` for sharp keys and of `BEADGCF` for flat keys, as section 3.1.14
   of the ABC standard 2.1 and the circle of fifths give them.
   */
  function KeySignature(key: string): (r: Result<(string, int)>)
    ensures r.Raised? == Diff(key).Raised?
    ensures r.Value? ==> var d := Diff(key).value;
      (r.value.1 == 1 <==> d > 0) && (r.value.1 == -1 <==> d < 0) && (r.value.1 == 0 <==> d == 0)
      && |r.value.0| == (if d < 0 then -d else d)
      && (d >= 0 ==> r.value.0 <= SharpOrder) && (d < 0 ==> r.value.0 <= FlatOrder)
  {
    match Diff(key)
    case Raised(e) => Raised(e)
    case Value(diff) =>
      DiffIsFifths(key);
      if diff > 0 then Value((SharpOrder[..diff], 1))
      else if diff < 0 then Value((FlatOrder[..-diff], -1))
      else Value(("", 0))
  }

  /**
   As written, a sharp key loses its last sharp and a flat key gets the
   wrong number of flats: one sharp (G major) gives no sharp at all,
   one flat (F major) gives five. Only three flats come out right.
   */
  lemma GetSharpsOrFlatsMiscounts(key: string)
    requires Diff(key).Value? && Diff(key).value != 0
    ensures var d := Diff(key).value;
      var accs := GetSharpsOrFlats(key).value.0;
      (d > 0 ==> |accs| == d - 1) && (d < 0 ==> |accs| == 6 + d)
      && (accs == KeySignature(key).value.0 <==> d == -3)
  {
  }

  lemma GMajorAsWritten()
    ensures Diff("Gmajor") == Value(1)
    ensures GetSharpsOrFlats("Gmajor") == Value(("", 1))
    ensures KeySignature("Gmajor") == Value(("F", 1))
  {
    assert "Gmajor"[1..] == "major";
    assert KeyParts("Gmajor") == Value((7, 0));
    assert Diff("Gmajor") == Value(1);
    assert Slice(SharpOrder, 0, 0) == "";
    assert SharpOrder[..1] == "F";
  }

  lemma FMajorAsWritten()
    ensures Diff("Fmajor") == Value(-1)
    ensures GetSharpsOrFlats("Fmajor") == Value(("BEADG", -1))
    ensures KeySignature("Fmajor") == Value(("B", -1))
  {
    assert "Fmajor"[1..] == "major";
    assert KeyParts("Fmajor") == Value((5, 0));
    assert Diff("Fmajor") == Value(-1);
    assert Slice(FlatOrder, 0, -2) == FlatOrder[0..5] == "BEADG";
    assert FlatOrder[..1] == "B";
  }

  /**
   `transpose_tune` (lines 161-174): the shift, up to a tritone either way,
   that is congruent to seven semitones per fifth of `diff`.
   */
  function TransposeTune(key: string): (r: Result<int>)
    ensures r.Raised? == Diff(key).Raised?
    ensures r.Value? ==> -6 <= r.value <= 5 && (r.value - 7 * Diff(key).value) % 12 == 0
  {
    match Diff(key)
    case Raised(e) => Raised(e)
    case Value(diff) => Value(ShortShift(diff))
  }

  /** Up `7 * diff` or down `5 * diff` semitones, modulo an octave, whichever is less. */
  function ShortShift(diff: int): (k: int)
    ensures -6 <= k <= 5 && (k - 7 * diff) % 12 == 0
  {
    var m := diff % 12;
    var q := diff / 12;
    WholeOctaves(7 * q, 7 * m);
    WholeOctaves(5 * q, 5 * m);
    assert 7 * diff == 12 * (7 * q) + 7 * m && 5 * diff == 12 * (5 * q) + 5 * m;
    var up := (7 * diff) % 12;
    var down := (5 * diff) % 12;
    ShiftTable(m);
    var k := if up < down then up else -down;
    WholeOctaves(-7 * q, k - 7 * m);
    assert k - 7 * diff == 12 * (-7 * q) + (k - 7 * m);
    k
  }

  /** Whole octaves do not change a pitch class. */
  lemma WholeOctaves(x: int, y: int)
    ensures (12 * x + y) % 12 == y % 12
  {
  }

  /** The shorter shift for each pitch class of `diff`. */
  lemma ShiftTable(m: int)
    requires 0 <= m < 12
    ensures var up := (7 * m) % 12; var down := (5 * m) % 12;
      var k := if up < down then up else -down;
      -6 <= k <= 5 && (k - 7 * m) % 12 == 0
  {
    if m == 0 {
    } else if m == 1 {
    } else if m == 2 {
    } else if m == 3 {
    } else if m == 4 {
    } else if m == 5 {
    } else if m == 6 {
    } else if m == 7 {
    } else if m == 8 {
    } else if m == 9 {
    } else if m == 10 {
    } else {
    }
  }

  /** No shift with the same pitch class is shorter. */
  lemma TransposeShortest(key: string, other: int)
    requires TransposeTune(key).Value?
    requires (other - 7 * Diff(key).value) % 12 == 0
    ensures var r := TransposeTune(key).value;
      (if r < 0 then -r else r) <= (if other < 0 then -other else other)
  {
    var r := TransposeTune(key).value;
    var d := Diff(key).value;
    var a, b := other - 7 * d, r - 7 * d;
    SameClass(a, b);
    assert other - r == a - b;
    ShortestInClass(r, other);
  }

  /** Two shifts congruent to the same thing are congruent to each other. */
  lemma SameClass(a: int, b: int)
    requires a % 12 == 0 && b % 12 == 0
    ensures (a - b) % 12 == 0
  {
    assert a == 12 * (a / 12) && b == 12 * (b / 12);
    WholeOctaves(a / 12 - b / 12, 0);
    assert a - b == 12 * (a / 12 - b / 12) + 0;
  }

  /** Within a pitch class, a shift in `-6..5` is a shortest one. */
  lemma ShortestInClass(r: int, other: int)
    requires -6 <= r <= 5 && (other - r) % 12 == 0
    ensures (if r < 0 then -r else r) <= (if other < 0 then -other else other)
  {
    var q := (other - r) / 12;
    assert other == r + 12 * q;
  }

  /** Line 77: the shift is added to every tick of every bar, rests included. */
  function ShiftNotes(bars: seq<seq<int>>, k: int): (r: seq<seq<int>>)
    ensures |r| == |bars|
    ensures forall b :: 0 <= b < |r| ==> |r[b]| == |bars[b]|
  {
    seq(|bars|, b requires 0 <= b < |bars| => seq(|bars[b]|, i requires 0 <= i < |bars[b]| => bars[b][i] + k))
  }

  /** Shifting back undoes a shift. */
  lemma ShiftNotesBack(bars: seq<seq<int>>, k: int)
    ensures ShiftNotes(ShiftNotes(bars, k), -k) == bars
  {
    var r := ShiftNotes(ShiftNotes(bars, k), -k);
    forall b | 0 <= b < |bars| ensures r[b] == bars[b] {
    }
  }

  /** A rest (0) becomes the shift itself. */
  lemma ShiftNotesRests(bars: seq<seq<int>>, k: int, b: nat, i: nat)
    requires b < |bars| && i < |bars[b]| && bars[b][i] == 0
    ensures ShiftNotes(bars, k)[b][i] == k
  {
  }

  // ---------------------------------------------------------------------
  // Pitches (lines 177-191)
  // ---------------------------------------------------------------------

  /**
   The pitch of a note: the letter's value, then the written accidentals,
   or the key signature's when there are none, then the octave marks.
   */
  function Pitch(t: Token, accs: string, mod: int): int
    requires WellFormed(t)
  {
    LetterValue(t.letter)
    + (if t.accidentals != "" then AccidentalSum(t.accidentals) else if Upper(t.letter) in accs then mod else 0)
    + OctaveSum(t.octave)
  }

  /** The first note in `s`, as `re.search` finds it; `None` when there is none. */
  function SearchNote(s: string): (r: Option<Token>)
    ensures r.Some? ==> WellFormed(r.value)
    decreases |s|
  {
    if |s| == 0 then None
    else if StartsNote(s) then Some(NextToken(s).0)
    else SearchNote(s[1..])
  }

  /**
   `note_to_number`: the pitch of the first note in `s`. Without a note,
   `re.search` gives `None` and reading its group raises AttributeError.
   */
  function NoteToNumber(s: string, accs: string, mod: int): (r: Result<int>)
    ensures r.Raised? ==> r.exc == AttributeError
  {
    match SearchNote(s)
    case None => Raised(AttributeError)
    case Some(t) => Value(Pitch(t, accs, mod))
  }

  /** The pitch part of a token reads back as the token's pitch. */
  lemma NoteToNumberOfToken(t: Token, accs: string, mod: int)
    requires WellFormed(t)
    ensures NoteToNumber(NoteText(t), accs, mod) == Value(Pitch(t, accs, mod))
  {
    var u := Token(t.accidentals, t.letter, t.octave, "", false, "");
    assert Text(u) + "" == NoteText(t);
    NextTokenOf(u, "");
  }

  /** `note_to_number` raises exactly when the text has no note letter. */
  lemma {:induction false} NoteToNumberRaises(s: string, accs: string, mod: int)
    ensures NoteToNumber(s, accs, mod).Raised? <==> forall i :: 0 <= i < |s| ==> !IsNoteLetter(s[i])
    decreases |s|
  {
    if |s| > 0 {
      NoteToNumberRaises(s[1..], accs, mod);
      if IsNoteLetter(s[0]) {
        assert Span(s, Accidentals) == 0;
      } else if StartsNote(s) {
        assert IsNoteLetter(s[Span(s, Accidentals)]);
      } else {
        assert forall i :: 1 <= i < |s| ==> s[i] == s[1..][i - 1];
      }
    }
  }

  // ---------------------------------------------------------------------
  // Ticks (lines 111-141)
  // ---------------------------------------------------------------------

  /** `int(num)`, 1 when empty. */
  function Numerator(t: Token): nat
    requires WellFormed(t)
  {
    if t.num == "" then 1 else ParseNat(t.num)
  }

  /** `int(denom)`, 1 when empty. */
  function Denominator(t: Token): nat
    requires WellFormed(t)
  {
    if t.denom == "" then 1 else ParseNat(t.denom)
  }

  /** The float test at line 124 holds exactly when `denom` divides `noteMult * num`. */
  predicate Exact(t: Token, noteMult: nat)
    requires WellFormed(t)
  {
    Denominator(t) > 0 && (noteMult * Numerator(t)) % Denominator(t) == 0
  }

  /** The number of ticks a token lasts (line 126). */
  function Reps(t: Token, noteMult: nat): nat
    requires WellFormed(t) && Denominator(t) > 0
  {
    Quotient(noteMult * Numerator(t), Denominator(t))
  }

  /** Floor division of naturals. */
  function Quotient(a: int, b: int): (q: nat)
    requires a >= 0 && b > 0
    ensures q * b <= a < q * b + b
  {
    a / b
  }

  /** The ticks of one token: its pitch throughout, an onset 1 and then 0s. */
  function Block(pitch: int, reps: nat): (r: (seq<int>, seq<int>))
    requires reps > 0
    ensures |r.0| == |r.1| == reps && r.1[0] == 1
    ensures forall k :: 0 <= k < reps ==> r.0[k] == pitch
    ensures forall k :: 0 < k < reps ==> r.1[k] == 0
  {
    (seq(reps, _ => pitch), [1] + seq(reps - 1, _ => 0))
  }

  /**
   The loop over tokens. `Finished` when every token was expanded,
   `Stopped` at the early return of line 125, `Failed` for a zero
   denominator or a token of zero ticks, where `time[0] = 1` raises.
   */
  datatype TickRun = Finished(notes: seq<int>, times: seq<int>) | Stopped(notes: seq<int>, times: seq<int>) | Failed(exc: Exception)

  /**
   Ticks come as runs: each tick is an onset (1) or a hold (0), the first
   is an onset, and a held tick repeats the pitch before it. The onsets
   count the expanded tokens.
   */
  ghost predicate Runs(notes: seq<int>, times: seq<int>)
  {
    |notes| == |times|
    && (forall k :: 0 <= k < |times| ==> times[k] == 0 || times[k] == 1)
    && (|times| > 0 ==> times[0] == 1)
    && (forall k :: 0 < k < |times| && times[k] == 0 ==> notes[k] == notes[k - 1])
  }

  function Ticks(ts: seq<Token>, accs: string, mod: int, noteMult: nat): (r: TickRun)
    requires forall k :: 0 <= k < |ts| ==> WellFormed(ts[k])
    ensures r.Failed? ==> r.exc == ZeroDivisionError || r.exc == IndexError
    ensures !r.Failed? ==> |r.notes| == |r.times|
    decreases |ts|
  {
    if |ts| == 0 then Finished([], [])
    else
      var t := ts[0];
      if Denominator(t) == 0 then Failed(ZeroDivisionError)
      else if !Exact(t, noteMult) then Stopped([], [])
      else if Reps(t, noteMult) == 0 then Failed(IndexError)
      else
        var b := Block(Pitch(t, accs, mod), Reps(t, noteMult));
        match Ticks(ts[1..], accs, mod, noteMult)
        case Finished(n, tm) => Finished(b.0 + n, b.1 + tm)
        case Stopped(n, tm) => Stopped(b.0 + n, b.1 + tm)
        case Failed(e) => Failed(e)
  }

  /** Two stretches of runs, one after the other, are runs. */
  lemma RunsAppend(n1: seq<int>, t1: seq<int>, n2: seq<int>, t2: seq<int>)
    requires Runs(n1, t1) && Runs(n2, t2) && |t1| > 0
    ensures Runs(n1 + n2, t1 + t2)
  {
    var n := n1 + n2;
    var t := t1 + t2;
    forall k | 0 < k < |t| && t[k] == 0 ensures n[k] == n[k - 1] {
      if k > |t1| {
        assert t2[k - |t1|] == 0 && n[k] == n2[k - |t1|] && n[k - 1] == n2[k - 1 - |t1|];
      }
    }
  }

  /**
   Each expanded token gives one onset and its held ticks, so the ticks
   form runs with one onset per token expanded: all of them when the
   loop finishes, fewer when it stops early.
   */
  lemma {:induction false} TicksRuns(ts: seq<Token>, accs: string, mod: int, noteMult: nat)
    requires forall k :: 0 <= k < |ts| ==> WellFormed(ts[k])
    ensures var r := Ticks(ts, accs, mod, noteMult);
      (!r.Failed? ==> Runs(r.notes, r.times))
      && (r.Finished? ==> multiset(r.times)[1] == |ts|)
      && (r.Stopped? ==> multiset(r.times)[1] < |ts|)
    decreases |ts|
  {
    if |ts| > 0 {
      var t := ts[0];
      if Denominator(t) > 0 && Exact(t, noteMult) && Reps(t, noteMult) > 0 {
        TicksRuns(ts[1..], accs, mod, noteMult);
        var b := Block(Pitch(t, accs, mod), Reps(t, noteMult));
        assert multiset(b.1)[1] == 1 by {
          assert b.1 == [1] + seq(Reps(t, noteMult) - 1, _ => 0);
        }
        assert Runs(b.0, b.1);
        var rest := Ticks(ts[1..], accs, mod, noteMult);
        if !rest.Failed? {
          RunsAppend(b.0, b.1, rest.notes, rest.times);
        }
      }
    }
  }

  /** The ticks a run of tokens adds up to, token by token. */
  function TotalReps(ts: seq<Token>, noteMult: nat): nat
    requires forall k :: 0 <= k < |ts| ==> WellFormed(ts[k]) && Denominator(ts[k]) > 0
    decreases |ts|
  {
    if |ts| == 0 then 0 else Reps(ts[0], noteMult) + TotalReps(ts[1..], noteMult)
  }

  /** When every token is exact and lasts at least a tick, the bar has the ticks of all its tokens. */
  lemma {:induction false} TicksLength(ts: seq<Token>, accs: string, mod: int, noteMult: nat)
    requires forall k :: 0 <= k < |ts| ==> WellFormed(ts[k]) && Denominator(ts[k]) > 0
    requires forall k :: 0 <= k < |ts| ==> Exact(ts[k], noteMult) && Reps(ts[k], noteMult) > 0
    ensures Ticks(ts, accs, mod, noteMult).Finished?
    ensures |Ticks(ts, accs, mod, noteMult).notes| == TotalReps(ts, noteMult)
    decreases |ts|
  {
    if |ts| > 0 {
      TicksLength(ts[1..], accs, mod, noteMult);
    }
  }

  /**
   A loop that finishes has expanded every token, and token `i` owns the
   ticks from the sum of the lengths of the tokens before it on: `Reps`
   copies of its pitch, timed by an onset and then holds.
   */
  lemma {:induction false} TicksFinished(ts: seq<Token>, accs: string, mod: int, noteMult: nat)
    requires forall k :: 0 <= k < |ts| ==> WellFormed(ts[k])
    requires Ticks(ts, accs, mod, noteMult).Finished?
    ensures forall k :: 0 <= k < |ts| ==> Denominator(ts[k]) > 0 && Exact(ts[k], noteMult) && Reps(ts[k], noteMult) > 0
    ensures |Ticks(ts, accs, mod, noteMult).notes| == TotalReps(ts, noteMult)
    ensures forall i :: 0 <= i < |ts| ==>
      TokenTicks(Ticks(ts, accs, mod, noteMult), TotalReps(ts[..i], noteMult), Reps(ts[i], noteMult), Pitch(ts[i], accs, mod))
    decreases |ts|
  {
    if |ts| > 0 {
      var rest := ts[1..];
      var b := TicksCons(ts, accs, mod, noteMult);
      TicksFinished(rest, accs, mod, noteMult);
      var r := Ticks(ts, accs, mod, noteMult);
      var q := Ticks(rest, accs, mod, noteMult);
      forall i | 0 <= i < |ts|
        ensures TokenTicks(r, TotalReps(ts[..i], noteMult), Reps(ts[i], noteMult), Pitch(ts[i], accs, mod))
      {
        if i == 0 {
          assert ts[..0] == [];
          TokenTicksHead(r, b, q);
        } else {
          TicksFinishedLater(ts, accs, mod, noteMult, i, b, r, q);
        }
      }
    }
  }

  /** Token `i > 0` owns in the whole bar `r` the ticks it owns in the rest `q`, shifted by the first token's. */
  lemma TicksFinishedLater(ts: seq<Token>, accs: string, mod: int, noteMult: nat, i: nat, b: (seq<int>, seq<int>), r: TickRun, q: TickRun)
    requires 0 < i < |ts| && forall k :: 0 <= k < |ts| ==> WellFormed(ts[k]) && Denominator(ts[k]) > 0
    requires !r.Failed? && !q.Failed? && |b.0| == |b.1| == Reps(ts[0], noteMult)
    requires r.notes == b.0 + q.notes && r.times == b.1 + q.times
    requires TokenTicks(q, TotalReps(ts[1..][..i - 1], noteMult), Reps(ts[1..][i - 1], noteMult), Pitch(ts[1..][i - 1], accs, mod))
    ensures TokenTicks(r, TotalReps(ts[..i], noteMult), Reps(ts[i], noteMult), Pitch(ts[i], accs, mod))
  {
    var rest := ts[1..];
    TotalRepsPrefix(ts, i, noteMult);
    assert ts[i] == rest[i - 1];
    TokenTicksShift(r, b, q, TotalReps(rest[..i - 1], noteMult), Reps(ts[i], noteMult), Pitch(ts[i], accs, mod));
  }

  /** A finished loop over tokens expanded its first token and then finished the rest. */
  lemma TicksCons(ts: seq<Token>, accs: string, mod: int, noteMult: nat) returns (b: (seq<int>, seq<int>))
    requires |ts| > 0 && forall k :: 0 <= k < |ts| ==> WellFormed(ts[k])
    requires Ticks(ts, accs, mod, noteMult).Finished?
    ensures Denominator(ts[0]) > 0 && Exact(ts[0], noteMult) && Reps(ts[0], noteMult) > 0
    ensures b == Block(Pitch(ts[0], accs, mod), Reps(ts[0], noteMult))
    ensures Ticks(ts[1..], accs, mod, noteMult).Finished?
    ensures Ticks(ts, accs, mod, noteMult).notes == b.0 + Ticks(ts[1..], accs, mod, noteMult).notes
    ensures Ticks(ts, accs, mod, noteMult).times == b.1 + Ticks(ts[1..], accs, mod, noteMult).times
  {
    b := Block(Pitch(ts[0], accs, mod), Reps(ts[0], noteMult));
  }

  /** The ticks before token `i` are those of the first token and of the `i - 1` after it. */
  lemma TotalRepsPrefix(ts: seq<Token>, i: nat, noteMult: nat)
    requires 0 < i <= |ts|
    requires forall k :: 0 <= k < |ts| ==> WellFormed(ts[k]) && Denominator(ts[k]) > 0
    ensures TotalReps(ts[..i], noteMult) == Reps(ts[0], noteMult) + TotalReps(ts[1..][..i - 1], noteMult)
  {
    assert ts[..i][1..] == ts[1..][..i - 1];
  }

  lemma TokenTicksHead(r: TickRun, b: (seq<int>, seq<int>), q: TickRun)
    requires !r.Failed? && !q.Failed? && |q.notes| == |q.times|
    requires |b.0| == |b.1| > 0 && b.1[0] == 1
    requires forall k :: 0 <= k < |b.0| ==> b.0[k] == b.0[0]
    requires forall k :: 0 < k < |b.1| ==> b.1[k] == 0
    requires r.notes == b.0 + q.notes && r.times == b.1 + q.times
    ensures TokenTicks(r, 0, |b.0|, b.0[0])
  {
    assert r.notes[0..|b.0|] == b.0;
    assert r.times[0..|b.0|] == b.1;
  }

  lemma TokenTicksShift(r: TickRun, b: (seq<int>, seq<int>), q: TickRun, o: nat, n: nat, p: int)
    requires !r.Failed? && !q.Failed? && |b.0| == |b.1|
    requires r.notes == b.0 + q.notes && r.times == b.1 + q.times
    requires TokenTicks(q, o, n, p)
    ensures TokenTicks(r, |b.0| + o, n, p)
  {
    var m := |b.0|;
    assert r.notes[m + o..m + o + n] == q.notes[o..o + n];
    assert r.times[m + o..m + o + n] == q.times[o..o + n];
  }

  /** The `n` ticks of `r` from `o` on are one token of pitch `p`. */
  predicate TokenTicks(r: TickRun, o: nat, n: nat, p: int)
    requires !r.Failed?
  {
    o + n <= |r.notes| == |r.times|
    && r.notes[o..o + n] == seq(n, _ => p)
    && n > 0 && r.times[o..o + n] == [1] + seq(n - 1, _ => 0)
  }

  /** The first token that fails the divisibility test, if any. */
  function FirstInexact(ts: seq<Token>, noteMult: nat): (j: nat)
    requires forall k :: 0 <= k < |ts| ==> WellFormed(ts[k])
    ensures j <= |ts|
    ensures forall k :: 0 <= k < j ==> Exact(ts[k], noteMult)
    ensures j < |ts| ==> !Exact(ts[j], noteMult)
    decreases |ts|
  {
    if |ts| == 0 || !Exact(ts[0], noteMult) then 0 else 1 + FirstInexact(ts[1..], noteMult)
  }

  /**
   Line 125: the early return hands back exactly the ticks of the tokens
   before the first inexact one, unpadded.
   */
  lemma {:induction false} TicksStopped(ts: seq<Token>, accs: string, mod: int, noteMult: nat)
    requires forall k :: 0 <= k < |ts| ==> WellFormed(ts[k])
    requires Ticks(ts, accs, mod, noteMult).Stopped?
    ensures var j := FirstInexact(ts, noteMult);
      j < |ts| && Ticks(ts[..j], accs, mod, noteMult)
        == Finished(Ticks(ts, accs, mod, noteMult).notes, Ticks(ts, accs, mod, noteMult).times)
    decreases |ts|
  {
    if Exact(ts[0], noteMult) {
      TicksStopped(ts[1..], accs, mod, noteMult);
      var j := FirstInexact(ts, noteMult);
      assert ts[..j][1..] == ts[1..][..j - 1];
    } else {
      assert ts[..0] == [];
    }
  }

  /** Zero padding (lines 133-140): appended for fewer than 4 tokens, prepended otherwise. */
  function Pad(notes: seq<int>, times: seq<int>, tokens: nat, barSub: int): (r: (seq<int>, seq<int>))
    requires |notes| == |times|
    ensures |r.0| == |r.1| == (if |notes| < barSub then barSub else |notes|)
    ensures tokens < 4 ==> (r.0[..|notes|] == notes && r.1[..|notes|] == times
      && forall k :: |notes| <= k < |r.0| ==> r.0[k] == 0 && r.1[k] == 0)
    ensures tokens >= 4 ==> (r.0[|r.0| - |notes|..] == notes && r.1[|r.1| - |notes|..] == times
      && forall k :: 0 <= k < |r.0| - |notes| ==> r.0[k] == 0 && r.1[k] == 0)
  {
    if |notes| == barSub || barSub < |notes| then (notes, times)
    else
      var zeros := seq(barSub - |notes|, _ => 0);
      if tokens < 4 then (notes + zeros, times + zeros) else (zeros + notes, zeros + times)
  }

  /**
   `vectorize_bar`: the note and timing vectors of one bar. Padding
   happens only when the loop ran to the end.
   */
  function VectorizeBar(bar: string, accs: string, mod: int, barSub: int, noteMult: nat, padBars: bool): (r: Result<(seq<int>, seq<int>)>)
    ensures r.Raised? ==> r.exc == ZeroDivisionError || r.exc == IndexError
    ensures r.Value? ==> |r.value.0| == |r.value.1|
  {
    var ts := Lex(bar);
    match Ticks(ts, accs, mod, noteMult)
    case Failed(e) => Raised(e)
    case Stopped(n, tm) => Value((n, tm))
    case Finished(n, tm) => if padBars then Value(Pad(n, tm, |ts|, barSub)) else Value((n, tm))
  }

  /** A bar that runs to the end and is padded has at least `barSub` ticks, and exactly that many unless it is too long. */
  lemma VectorizeBarLength(bar: string, accs: string, mod: int, barSub: int, noteMult: nat)
    requires Ticks(Lex(bar), accs, mod, noteMult).Finished?
    ensures var n := |Ticks(Lex(bar), accs, mod, noteMult).notes|;
      VectorizeBar(bar, accs, mod, barSub, noteMult, true).Value?
      && |VectorizeBar(bar, accs, mod, barSub, noteMult, true).value.0| == (if n < barSub then barSub else n)
  {
  }

  // ---------------------------------------------------------------------
  // Whole tunes (lines 82-103)
  // ---------------------------------------------------------------------

  function NonEmpty(xs: seq<string>): (r: seq<string>)
    ensures forall k :: 0 <= k < |r| ==> r[k] != ""
    ensures Concat(r) == Concat(xs)
    decreases |xs|
  {
    if |xs| == 0 then []
    else if xs[0] == "" then NonEmpty(xs[1..])
    else [xs[0]] + NonEmpty(xs[1..])
  }

  /** `split_by_bar`: the non-empty pieces between the `|`s. */
  function SplitByBar(s: string): (r: seq<string>)
    ensures forall k :: 0 <= k < |r| ==> r[k] != ""
  {
    NonEmpty(Split(s, "|"))
  }

  /** The bars hold no `|` and concatenate to the text with every `|` removed. */
  lemma {:induction false} SplitByBarSpec(s: string)
    ensures forall k :: 0 <= k < |SplitByBar(s)| ==> '|' !in SplitByBar(s)[k]
    ensures Concat(SplitByBar(s)) == Without(s, '|')
    decreases |s|
  {
    match Find(s, "|")
    case None =>
      FindSpec(s, "|");
      ContainsIff(s, "|");
      ContainsChar(s, '|');
      WithoutAbsent(s, '|');
      assert Split(s, "|") == [s];
      assert Concat([s]) == s;
    case Some(i) =>
      var rest := s[i + 1..];
      var head := SplitByBarStep(s, i);
      SplitByBarSpec(rest);
      ConcatAppend(head, SplitByBar(rest));
      forall k | 0 <= k < |SplitByBar(s)| ensures '|' !in SplitByBar(s)[k] {
        if k >= |head| {
          assert SplitByBar(s)[k] == SplitByBar(rest)[k - |head|];
        }
      }
  }

  /** Up to the first `|`, the text gives at most one bar, and removing `|` keeps just that bar. */
  lemma SplitByBarStep(s: string, i: nat) returns (head: seq<string>)
    requires Find(s, "|") == Some(i)
    ensures i < |s|
    ensures SplitByBar(s) == head + SplitByBar(s[i + 1..])
    ensures Concat(head) == s[..i] && '|' !in s[..i]
    ensures |head| <= 1 && (|head| == 1 ==> head[0] == s[..i])
    ensures Without(s, '|') == s[..i] + Without(s[i + 1..], '|')
  {
    var rest := s[i + 1..];
    SplitUnfold(s, "|", i);
    BeforeFirstLacks(s, "|", i);
    ContainsChar(s[..i], '|');
    head := if s[..i] == "" then [] else [s[..i]];
    assert Concat(head) == s[..i];
    WithoutBar(s, i);
  }

  /** Removing `|` from a text whose first `|` is at `i`. */
  lemma WithoutBar(s: string, i: nat)
    requires i < |s| && s[i] == '|' && '|' !in s[..i]
    ensures Without(s, '|') == s[..i] + Without(s[i + 1..], '|')
  {
    var a := s[..i];
    var b := s[i..];
    assert s == a + b;
    assert b[0] == '|' && b[1..] == s[i + 1..];
    WithoutConcat(a, b, '|');
    WithoutAbsent(a, '|');
  }

  /**
   `vectorize_abc` (lines 82-95): the vectors of each bar, in order, under
   the accidentals `get_sharps_or_flats` gives, miscounted as they are.
   */
  function VectorizeAbc(abc: string, key: string, barSub: int, noteMult: nat): (r: Result<(seq<seq<int>>, seq<seq<int>>)>)
    ensures r.Value? ==> |r.value.0| == |r.value.1| == |SplitByBar(abc)|
    ensures r.Value? ==> forall b :: 0 <= b < |r.value.0| ==> |r.value.0[b]| == |r.value.1[b]|
    ensures Diff(key).Raised? ==> r.Raised?
    ensures Diff(key).Value? ==>
      r == VectorizeBars(SplitByBar(abc), GetSharpsOrFlats(key).value.0, GetSharpsOrFlats(key).value.1, barSub, noteMult)
  {
    Vectorized(abc, GetSharpsOrFlats(key), barSub, noteMult)
  }

  /** `vectorize_abc` as evidently intended: the same, under the key signature of `KeySignature`. */
  function VectorizeAbcIntended(abc: string, key: string, barSub: int, noteMult: nat): (r: Result<(seq<seq<int>>, seq<seq<int>>)>)
    ensures r.Value? ==> |r.value.0| == |r.value.1| == |SplitByBar(abc)|
    ensures Diff(key).Raised? ==> r.Raised?
    ensures Diff(key).Value? ==>
      r == VectorizeBars(SplitByBar(abc), KeySignature(key).value.0, KeySignature(key).value.1, barSub, noteMult)
  {
    Vectorized(abc, KeySignature(key), barSub, noteMult)
  }

  /** The bars of `abc` vectorized under a key signature, once it is found. */
  function Vectorized(abc: string, sig: Result<(string, int)>, barSub: int, noteMult: nat): Result<(seq<seq<int>>, seq<seq<int>>)>
  {
    match sig
    case Raised(e) => Raised(e)
    case Value((accs, mod)) => VectorizeBars(SplitByBar(abc), accs, mod, barSub, noteMult)
  }

  /**
   The code as written and as intended differ only through the accidentals:
   both fail on a key that is not found, and they agree in C major and its
   modes and under three flats.
   */
  lemma VectorizeAbcAgrees(abc: string, key: string, barSub: int, noteMult: nat)
    requires Diff(key).Raised? || Diff(key).value == 0 || Diff(key).value == -3
    ensures VectorizeAbc(abc, key, barSub, noteMult) == VectorizeAbcIntended(abc, key, barSub, noteMult)
  {
    if Diff(key).Value? && Diff(key).value != 0 {
      GetSharpsOrFlatsMiscounts(key);
    }
  }

  /**
   A G major tune whose one bar is a plain `f`: as written the note reads
   as F natural (77), as intended as F sharp (78).
   */
  lemma GMajorLoneF()
    ensures FirstPitch(VectorizeAbc("f", "Gmajor", 48, 6), 77)
    ensures FirstPitch(VectorizeAbcIntended("f", "Gmajor", 48, 6), 78)
  {
    GMajorAsWritten();
    OneBar("f");
    LoneF("", 1);
    LoneF("F", 1);
  }

  /** The vectors came out, and the first tick of the first bar has pitch `p`. */
  predicate FirstPitch(r: Result<(seq<seq<int>>, seq<seq<int>>)>, p: int)
  {
    r.Value? && |r.value.0| > 0 && |r.value.0[0]| > 0 && r.value.0[0][0] == p
  }

  /** A text without `|` is one bar. */
  lemma OneBar(s: string)
    requires s != "" && '|' !in s
    ensures SplitByBar(s) == [s]
  {
    FindSpec(s, "|");
    ContainsIff(s, "|");
    ContainsChar(s, '|');
    assert Split(s, "|") == [s];
    assert NonEmpty([s]) == [s] + NonEmpty([]);
  }

  /** The bar `f` alone: its first tick has the pitch of F under the accidentals given. */
  lemma LoneF(accs: string, mod: int)
    ensures FirstPitch(VectorizeBars(["f"], accs, mod, 48, 6), 77 + (if 'F' in accs then mod else 0))
  {
    var t := Token("", 'f', "", "", false, "");
    assert WellFormed(t);
    assert Text(t) == "f";
    LexToken(t, "");
    assert "f" + "" == "f";
    assert Lex("") == [];
    assert Lex("f") == [t];
    assert Reps(t, 6) == 6;
    assert [t][1..] == [];
    var b := Block(Pitch(t, accs, mod), 6);
    assert Ticks([t], accs, mod, 6) == Finished(b.0 + [], b.1 + []);
    assert Upper('f') == 'F';
    assert Pitch(t, accs, mod) == 77 + (if 'F' in accs then mod else 0);
  }

  function VectorizeBars(bars: seq<string>, accs: string, mod: int, barSub: int, noteMult: nat): (r: Result<(seq<seq<int>>, seq<seq<int>>)>)
    ensures r.Value? ==> |r.value.0| == |r.value.1| == |bars|
    ensures r.Value? ==> forall b :: 0 <= b < |bars| ==> VectorizeBar(bars[b], accs, mod, barSub, noteMult, true) == Value((r.value.0[b], r.value.1[b]))
    ensures r.Value? <==> forall b :: 0 <= b < |bars| ==> VectorizeBar(bars[b], accs, mod, barSub, noteMult, true).Value?
    decreases |bars|
  {
    if |bars| == 0 then Value(([], []))
    else match VectorizeBar(bars[0], accs, mod, barSub, noteMult, true)
      case Raised(e) => Raised(e)
      case Value((n, tm)) =>
        match VectorizeBars(bars[1..], accs, mod, barSub, noteMult)
        case Raised(e) => Raised(e)
        case Value((ns, tms)) => Value(([n] + ns, [tm] + tms))
  }

  /** One row of `vectorize_frame` (lines 75-77): the tune's vectors, shifted by `transpose_tune`. */
  function VectorizeRow(abc: string, key: string, barSub: int, noteMult: nat): Result<(seq<seq<int>>, seq<seq<int>>)>
  {
    Shifted(VectorizeAbc(abc, key, barSub, noteMult), TransposeTune(key))
  }

  /** The vectors of `v` with their notes moved by `t`; the first failure is passed on. */
  function Shifted(v: Result<(seq<seq<int>>, seq<seq<int>>)>, t: Result<int>): Result<(seq<seq<int>>, seq<seq<int>>)>
  {
    match v
    case Raised(e) => Raised(e)
    case Value((notes, times)) =>
      match t
      case Raised(e) => Raised(e)
      case Value(k) => Value((ShiftNotes(notes, k), times))
  }

  /**
   A row fails exactly when its tune fails to vectorize; otherwise its
   timings are the tune's and its notes, shifted back by the transposition,
   are the tune's notes.
   */
  lemma VectorizeRowUnshifts(abc: string, key: string, barSub: int, noteMult: nat)
    ensures var tune := VectorizeAbc(abc, key, barSub, noteMult);
      var row := VectorizeRow(abc, key, barSub, noteMult);
      (row.Raised? <==> tune.Raised?)
      && (row.Value? ==>
            TransposeTune(key).Value? && row.value.1 == tune.value.1
            && ShiftNotes(row.value.0, -TransposeTune(key).value) == tune.value.0)
  {
    var v := VectorizeAbc(abc, key, barSub, noteMult);
    var t := TransposeTune(key);
    if v.Value? {
      VectorizedKey(abc, key, barSub, noteMult);
    }
    ShiftedUnshifts(v, t);
  }

  /** A tune vectorizes only under a key whose signature is found. */
  lemma VectorizedKey(abc: string, key: string, barSub: int, noteMult: nat)
    requires VectorizeAbc(abc, key, barSub, noteMult).Value?
    ensures TransposeTune(key).Value?
  {
  }

  lemma ShiftedUnshifts(v: Result<(seq<seq<int>>, seq<seq<int>>)>, t: Result<int>)
    requires v.Value? ==> t.Value?
    ensures Shifted(v, t).Raised? <==> v.Raised?
    ensures Shifted(v, t).Value? ==>
      t.Value? && Shifted(v, t).value.1 == v.value.1 && ShiftNotes(Shifted(v, t).value.0, -t.value) == v.value.0
  {
    if v.Value? {
      ShiftNotesBack(v.value.0, t.value);
    }
  }
}
