/**
 The two note helpers of src/Model/analysis.py: `clean`, which expands a
 tune written as letters and single-digit counts into one letter per
 unit, and the `note_to_d_major` of `samples_to_d_major`, which rounds a
 MIDI number to the nearest note of the D major scale.

 `isalpha` and `isdigit` are taken over ASCII only.
 */
module Analysis {
  import opened PyStr
  import opened NoteLexer

  predicate IsAlpha(c: char)
  {
    'a' <= c <= 'z' || 'A' <= c <= 'Z'
  }

  predicate IsDigit(c: char)
  {
    InClass(c, Digits)
  }

  /** Python's `x * n` on a string: `n` copies of `x`, none when `n <= 0`. */
  function Times(x: string, n: int): (r: string)
    ensures n <= 0 ==> r == ""
    decreases n
  {
    if n <= 0 then "" else x + Times(x, n - 1)
  }

  /** `temp` after a prefix of the tune: its last letter, or `""` before any letter. */
  function LastLetter(s: string): (r: string)
    ensures |r| <= 1 && (|r| == 1 ==> IsAlpha(r[0]) && r[0] in s)
    decreases |s|
  {
    if |s| == 0 then ""
    else if IsAlpha(s[|s| - 1]) then [s[|s| - 1]]
    else LastLetter(s[..|s| - 1])
  }

  /** What one character of the tune adds, given `temp`: a letter itself, a digit `d` the letter `d - 1` more times. */
  function Adds(c: char, temp: string): string
  {
    if IsAlpha(c) then [c]
    else if IsDigit(c) then Times(temp, DigitValue(c) - 1)
    else ""
  }

  /** The text `clean` builds from `s`, one character at a time. */
  function Expanded(s: string): string
    decreases |s|
  {
    if |s| == 0 then "" else Expanded(s[..|s| - 1]) + Adds(s[|s| - 1], LastLetter(s[..|s| - 1]))
  }

  lemma ExpandedSnoc(s: string, c: char)
    ensures Expanded(s + [c]) == Expanded(s) + Adds(c, LastLetter(s))
    ensures LastLetter(s + [c]) == if IsAlpha(c) then [c] else LastLetter(s)
  {
    assert (s + [c])[..|s|] == s;
  }

  /** Lines 11-20. */
  method Clean(tune: string) returns (newStr: string)
    ensures newStr == Expanded(tune)
    ensures forall k :: 0 <= k < |newStr| ==> IsAlpha(newStr[k])
  {
    newStr := "";
    var temp := "";
    var i := 0;
    while i < |tune|
      invariant i <= |tune|
      invariant newStr == Expanded(tune[..i]) && temp == LastLetter(tune[..i])
    {
      var note := tune[i];
      assert tune[..i + 1] == tune[..i] + [note];
      ExpandedSnoc(tune[..i], note);
      if IsAlpha(note) {
        newStr := newStr + [note];
        temp := [note];
      }
      if IsDigit(note) {
        newStr := newStr + Times(temp, DigitValue(note) - 1);
      }
      i := i + 1;
    }
    assert tune[..i] == tune;
    ExpandedLetters(tune);
  }

  lemma {:induction false} TimesLetters(x: string, n: int)
    requires forall k :: 0 <= k < |x| ==> IsAlpha(x[k])
    ensures forall k :: 0 <= k < |Times(x, n)| ==> IsAlpha(Times(x, n)[k])
    decreases n
  {
    if n > 0 {
      TimesLetters(x, n - 1);
      var r := Times(x, n);
      assert r == x + Times(x, n - 1);
      forall k | 0 <= k < |r|
        ensures IsAlpha(r[k])
      {
        if k >= |x| {
          assert r[k] == Times(x, n - 1)[k - |x|];
        }
      }
    }
  }

  /** The output holds only letters. */
  lemma {:induction false} ExpandedLetters(s: string)
    ensures forall k :: 0 <= k < |Expanded(s)| ==> IsAlpha(Expanded(s)[k])
    decreases |s|
  {
    if |s| > 0 {
      var p := s[..|s| - 1];
      ExpandedLetters(p);
      TimesLetters(LastLetter(p), if IsDigit(s[|s| - 1]) then DigitValue(s[|s| - 1]) - 1 else 0);
      var a := Expanded(p);
      var b := Adds(s[|s| - 1], LastLetter(p));
      forall k | 0 <= k < |a + b|
        ensures IsAlpha((a + b)[k])
      {
        if k < |a| {
          assert (a + b)[k] == a[k];
        } else {
          assert (a + b)[k] == b[k - |a|];
        }
      }
    }
  }

  /**
   A character that is neither a letter nor a digit (`,`, `'`, `|`, `/`
   and so on) changes nothing, wherever it stands.
   */
  lemma {:induction false} ExpandedSkips(s: string, c: char, t: string)
    requires !IsAlpha(c) && !IsDigit(c)
    ensures Expanded(s + [c] + t) == Expanded(s + t)
    ensures LastLetter(s + [c] + t) == LastLetter(s + t)
    decreases |t|
  {
    if |t| == 0 {
      assert s + [c] + t == s + [c];
      assert s + t == s;
      ExpandedSnoc(s, c);
    } else {
      var t' := t[..|t| - 1];
      var y := t[|t| - 1];
      ExpandedSkips(s, c, t');
      SplitLast(s + [c], t);
      SplitLast(s, t);
      ExpandedSnoc(s + [c] + t', y);
      ExpandedSnoc(s + t', y);
    }
  }

  lemma SplitLast(a: string, t: string)
    requires |t| > 0
    ensures a + t == (a + t[..|t| - 1]) + [t[|t| - 1]]
  {
  }

  /** A run of letters as a writer of counted notes puts it: the letter, then its count when above one. */
  function WriteRun(c: char, n: nat): string
    requires 1 <= n <= 9
  {
    if n == 1 then [c] else [c, ('0' as int + n) as char]
  }

  predicate WritableRuns(runs: seq<(char, nat)>)
  {
    forall k :: 0 <= k < |runs| ==> IsAlpha(runs[k].0) && 1 <= runs[k].1 <= 9
  }

  function WriteRuns(runs: seq<(char, nat)>): string
    requires WritableRuns(runs)
    decreases |runs|
  {
    if |runs| == 0 then "" else WriteRuns(runs[..|runs| - 1]) + WriteRun(runs[|runs| - 1].0, runs[|runs| - 1].1)
  }

  /** Each run expanded: `n` copies of its letter. */
  function Unrolled(runs: seq<(char, nat)>): string
    decreases |runs|
  {
    if |runs| == 0 then "" else Unrolled(runs[..|runs| - 1]) + Times([runs[|runs| - 1].0], runs[|runs| - 1].1)
  }

  /**
   `clean` undoes the run-length writing of notes with counts 1 to 9: a
   letter followed by its count comes back as that many copies.
   */
  lemma {:induction false} CleanUnrolls(runs: seq<(char, nat)>)
    requires WritableRuns(runs)
    ensures Expanded(WriteRuns(runs)) == Unrolled(runs)
    ensures |runs| > 0 ==> LastLetter(WriteRuns(runs)) == [runs[|runs| - 1].0]
    decreases |runs|
  {
    if |runs| > 0 {
      var p := runs[..|runs| - 1];
      var c := runs[|runs| - 1].0;
      var n := runs[|runs| - 1].1;
      assert WritableRuns(p);
      CleanUnrolls(p);
      UnrollStep(WriteRuns(p), c, n);
    }
  }

  /** Reading one written run after any text adds the run's copies and makes its letter the last one. */
  lemma UnrollStep(w: string, c: char, n: nat)
    requires IsAlpha(c) && 1 <= n <= 9
    ensures Expanded(w + WriteRun(c, n)) == Expanded(w) + Times([c], n)
    ensures LastLetter(w + WriteRun(c, n)) == [c]
  {
    ExpandedSnoc(w, c);
    if n == 1 {
      assert w + WriteRun(c, n) == w + [c];
      assert Times([c], n) == [c] + Times([c], 0);
    } else {
      UnrollDigit(w, c, n);
    }
  }

  /** A letter followed by a count digit `n` adds `n - 1` more copies of the letter. */
  lemma UnrollDigit(w: string, c: char, n: nat)
    requires IsAlpha(c) && 2 <= n <= 9
    requires Expanded(w + [c]) == Expanded(w) + [c] && LastLetter(w + [c]) == [c]
    ensures Expanded(w + WriteRun(c, n)) == Expanded(w) + Times([c], n)
    ensures LastLetter(w + WriteRun(c, n)) == [c]
  {
    var u := w + [c];
    var d := ('0' as int + n) as char;
    assert w + WriteRun(c, n) == u + [d];
    CountDigit(n);
    ExpandedSnoc(u, d);
    assert Adds(d, [c]) == Times([c], n - 1);
    TimesCons(c, n);
  }

  /** The digit written for a count `n` is a digit, not a letter, and reads back as `n`. */
  lemma CountDigit(n: nat)
    requires n <= 9
    ensures var d := ('0' as int + n) as char; IsDigit(d) && !IsAlpha(d) && DigitValue(d) == n
  {
  }

  lemma TimesCons(c: char, n: nat)
    requires n >= 1
    ensures forall e: string :: (e + [c]) + Times([c], n - 1) == e + Times([c], n)
  {
    assert Times([c], n) == [c] + Times([c], n - 1);
  }

  // ---------------------------------------------------------------------
  // note_to_d_major (lines 25-33)
  // ---------------------------------------------------------------------

  /** Line 26: the D major scale from D to the C sharp above, with C at 0. */
  const DMajor: seq<int> := [2, 4, 6, 7, 9, 11, 13]

  function Abs(x: int): nat
  {
    if x < 0 then -x else x
  }

  /** `np.argmin`: the first index of a smallest element. */
  function FirstMin(xs: seq<int>): (k: nat)
    requires |xs| > 0
    ensures k < |xs|
    ensures forall j :: 0 <= j < |xs| ==> xs[k] <= xs[j]
    ensures forall j :: 0 <= j < k ==> xs[j] > xs[k]
    decreases |xs|
  {
    if |xs| == 1 then 0
    else
      var k := FirstMin(xs[..|xs| - 1]);
      assert forall j :: 0 <= j < |xs| - 1 ==> xs[..|xs| - 1][j] == xs[j];
      if xs[|xs| - 1] < xs[k] then |xs| - 1 else k
  }

  /** Line 31: the distance from each scale note to the pitch class. */
  function Distances(m: int): (ds: seq<int>)
    ensures |ds| == 7 && forall i :: 0 <= i < 7 ==> ds[i] == Abs(DMajor[i] - m)
  {
    seq(7, i requires 0 <= i < 7 => Abs(DMajor[i] - m))
  }

  /** Lines 28-33, `//` and `%` being Python's floor division and modulo. */
  function NoteToDMajor(note: int): (r: int)
  {
    DMajor[FirstMin(Distances(note % 12))] + 12 * (note / 12)
  }

  /**
   The result is the scale note nearest to `note` within its octave, the
   lower one on a tie. It is at most one semitone below and two above
   `note`, and its pitch class is one of D, E, F sharp, G, A and B.
   */
  lemma NoteToDMajorNearest(note: int)
    ensures var r := NoteToDMajor(note);
      var base := 12 * (note / 12);
      && (forall i :: 0 <= i < 7 ==> Abs(r - note) <= Abs(DMajor[i] + base - note))
      && (forall i :: 0 <= i < 7 && Abs(DMajor[i] + base - note) == Abs(r - note) ==> r <= DMajor[i] + base)
      && -1 <= r - note <= 2
      && r / 12 == note / 12
      && (r % 12 == 2 || r % 12 == 4 || r % 12 == 6 || r % 12 == 7 || r % 12 == 9 || r % 12 == 11)
  {
    var m := note % 12;
    var base := 12 * (note / 12);
    var k := FirstMin(Distances(m));
    assert note == base + m;
    ScaleChoice(m, k);
    assert forall i :: 0 <= i < 7 ==> Abs(DMajor[i] + base - note) == Abs(DMajor[i] - m);
    PitchClassOf(note / 12, DMajor[k]);
  }

  /** A note `v` of the lowest octave shifted by `q` octaves has pitch class `v` and octave `q`. */
  lemma PitchClassOf(q: int, v: int)
    requires 0 <= v < 12
    ensures (v + 12 * q) % 12 == v && (v + 12 * q) / 12 == q
  {
  }

  /** The scale note `np.argmin` picks for a pitch class: no further than the others, the lower on a tie, never the C sharp above. */
  lemma ScaleChoice(m: int, k: nat)
    requires 0 <= m < 12 && k == FirstMin(Distances(m))
    ensures k < 6 && 2 <= DMajor[k] <= 11 && -1 <= DMajor[k] - m <= 2
    ensures forall i :: 0 <= i < 7 ==> Abs(DMajor[k] - m) <= Abs(DMajor[i] - m)
    ensures forall i :: 0 <= i < 7 && Abs(DMajor[i] - m) == Abs(DMajor[k] - m) ==> DMajor[k] <= DMajor[i]
  {
    var ds := Distances(m);
    assert k != 6 by {
      assert ds[5] < ds[6];
    }
    assert forall i, j :: 0 <= i < j < 7 ==> DMajor[i] < DMajor[j];
    NearestInRange(m, k);
  }

  /** The first nearest scale note to a pitch class is at most one below and two above it. */
  lemma NearestInRange(m: int, k: nat)
    requires 0 <= m < 12 && k < 6
    requires forall j :: 0 <= j < 7 ==> Abs(DMajor[k] - m) <= Abs(DMajor[j] - m)
    requires forall j :: 0 <= j < k ==> Abs(DMajor[j] - m) > Abs(DMajor[k] - m)
    ensures -1 <= DMajor[k] - m <= 2
  {
    if m <= 2 {
      assert Abs(DMajor[0] - m) <= 2;
    } else if m <= 4 {
      assert Abs(DMajor[1] - m) <= 1;
    } else if m <= 6 {
      assert Abs(DMajor[2] - m) <= 1;
    } else if m == 7 {
      assert Abs(DMajor[3] - m) == 0;
    } else if m <= 9 {
      assert Abs(DMajor[4] - m) <= 1;
    } else {
      assert Abs(DMajor[5] - m) <= 1;
    }
  }

  /** `samples_to_d_major`: the rounding applied to every sample, the shape kept. */
  function SamplesToDMajor(samples: seq<int>): (r: seq<int>)
    ensures |r| == |samples|
    ensures forall i :: 0 <= i < |r| ==> r[i] == NoteToDMajor(samples[i])
  {
    seq(|samples|, i requires 0 <= i < |samples| => NoteToDMajor(samples[i]))
  }
}
