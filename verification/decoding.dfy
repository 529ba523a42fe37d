/**
 The decoders of src/Generation/Decoding/Decoding.py: from vectors of
 pitches back to ABC notes (`decode_song`, `convert_note_list`), from raw
 ABC to run-length notes (`parse_raw_abc`), and the tune choice of
 `Decoder.from_raw_abc`.
 */
module Decoding {
  import opened PyStr
  import opened NoteLexer
  import opened Vectorizer
  import opened RunLength
  import opened Condenser
  import Cleaner

  // ---------------------------------------------------------------------
  // convert_note_list (lines 36-67)
  // ---------------------------------------------------------------------

  /**
   `convert_note_list`: each run written as the note of its first pitch,
   with an explicit accidental. A run with no element raises IndexError at
   `x[0]`, and nothing is returned.
   */
  method ConvertNoteList(runs: seq<seq<int>>) returns (r: Result<string>)
    ensures r.Raised? <==> exists k :: 0 <= k < |runs| && runs[k] == []
    ensures r.Raised? ==> r.exc == IndexError
    ensures r.Value? ==> r.value == TextAll(TokensOf(runs, true))
  {
    var out := "";
    var i := 0;
    while i < |runs|
      invariant 0 <= i <= |runs|
      invariant forall k :: 0 <= k < i ==> runs[k] != []
      invariant out == TextAll(TokensOf(runs[..i], true))
    {
      if runs[i] == [] {
        return Raised(IndexError);
      }
      TokensOfSnoc(runs, i, true);
      out := out + Text(GroupToken(runs[i], true));
      i := i + 1;
    }
    assert runs[..i] == runs;
    return Value(out);
  }

  /**
   Lines 46-66: because every note carries its accidental, reading each
   note back with `note_to_number` gives the run's first pitch under ANY
   key signature, and its digits give the run's length.
   */
  lemma ConvertNoteListReadsBack(runs: seq<seq<int>>, accs: string, mod: int)
    requires forall k :: 0 <= k < |runs| ==> runs[k] != []
    ensures var ts := TokensOf(runs, true);
      Lex(TextAll(ts)) == ts
      && forall k :: 0 <= k < |runs| ==>
        ts[k].accidentals in {"^", "="}
        && NoteToNumber(NoteText(ts[k]), accs, mod) == Value(runs[k][0])
        && (if |runs[k]| == 1 then ts[k].num == "" else ParseNat(ts[k].num) == |runs[k]|)
  {
    var ts := TokensOf(runs, true);
    ReadBack(runs, true, accs, mod);
    forall k | 0 <= k < |runs|
      ensures ts[k].accidentals in {"^", "="}
      ensures if |runs[k]| == 1 then ts[k].num == "" else ParseNat(ts[k].num) == |runs[k]|
    {
      GroupTokenPitch(runs[k], true, accs, mod);
    }
  }

  // ---------------------------------------------------------------------
  // decode_song (lines 77-87)
  // ---------------------------------------------------------------------

  /**
   The nested `decode_song`: a scan over every cell of every bar that
   extends the current run while the value repeats and emits it when the
   value changes. It starts with one copy of `vec[0][0]` already in the
   run, so the first cell is counted twice, and the run in hand at the end
   is never emitted. An empty tune or first bar raises IndexError.
   */
  method DecodeSong(vec: seq<seq<int>>) returns (r: Result<seq<seq<int>>>)
    ensures r.Raised? <==> |vec| == 0 || vec[0] == []
    ensures r.Raised? ==> r.exc == IndexError
    ensures r.Value? ==> |vec| > 0 && vec[0] != [] && r.value == AllButLast(RunsOf([vec[0][0]] + Concat(vec)))
  {
    if |vec| == 0 || vec[0] == [] {
      return Raised(IndexError);
    }
    var dur := [vec[0][0]];
    var master: seq<seq<int>> := [];
    var b := 0;
    assert Concat(vec[..0]) == [];
    assert [vec[0][0]] + Concat(vec[..0]) == [vec[0][0]];
    assert RunsOf([vec[0][0]]) == [[vec[0][0]]] by {
      assert [vec[0][0]][..0] == [];
    }
    while b < |vec|
      invariant 0 <= b <= |vec|
      invariant |dur| > 0 && master + [dur] == RunsOf([vec[0][0]] + Concat(vec[..b]))
    {
      var j := 0;
      assert [vec[0][0]] + Concat(vec[..b]) + vec[b][..0] == [vec[0][0]] + Concat(vec[..b]);
      while j < |vec[b]|
        invariant 0 <= j <= |vec[b]|
        invariant |dur| > 0 && master + [dur] == RunsOf([vec[0][0]] + Concat(vec[..b]) + vec[b][..j])
      {
        var y := vec[b][j];
        ScanStep([vec[0][0]] + Concat(vec[..b]), vec[b], j, master, dur);
        if y == dur[0] {
          dur := dur + [y];
        } else {
          master := master + [dur];
          dur := [y];
        }
        j := j + 1;
      }
      BarStep(vec, b, vec[0][0]);
      b := b + 1;
    }
    assert vec[..b] == vec;
    assert AllButLast(master + [dur]) == master;
    return Value(master);
  }

  /** One cell of the inner loop: it extends the run in hand or starts a new one. */
  lemma ScanStep(done: seq<int>, bar: seq<int>, j: nat, master: seq<seq<int>>, dur: seq<int>)
    requires j < |bar| && |dur| > 0 && master + [dur] == RunsOf(done + bar[..j])
    ensures bar[j] == dur[0] ==> master + [dur + [bar[j]]] == RunsOf(done + bar[..j + 1])
    ensures bar[j] != dur[0] ==> master + [dur] + [[bar[j]]] == RunsOf(done + bar[..j + 1])
  {
    RunsOfSnoc(done + bar[..j], bar[j]);
    assert AllButLast(master + [dur]) == master;
    assert (done + bar[..j]) + [bar[j]] == done + bar[..j + 1];
  }

  /** At the end of a bar, its cells have all joined the cells seen. */
  lemma BarStep(vec: seq<seq<int>>, b: nat, first: int)
    requires b < |vec|
    ensures [first] + Concat(vec[..b + 1]) == [first] + Concat(vec[..b]) + vec[b][..|vec[b]|]
  {
    assert vec[b][..|vec[b]|] == vec[b];
    assert vec[..b + 1] == vec[..b] + [vec[b]];
    ConcatSnoc(vec[..b], vec[b]);
  }

  /**
   What `decode_song` returns: runs of one repeated value each, every run
   different from the one before, which followed by the unemitted last run
   spell out all the cells with the first written twice. Runs cross bar
   lines freely.
   */
  lemma DecodeSongRuns(vec: seq<seq<int>>)
    requires |vec| > 0 && vec[0] != []
    ensures var s := [vec[0][0]] + Concat(vec);
      var e := AllButLast(RunsOf(s));
      (forall k :: 0 <= k < |e| ==> Constant(e[k]))
      && Alternate(e)
      && Concat(e) + Last(RunsOf(s)) == s
      && (|e| > 0 ==> Last(e)[0] != Last(RunsOf(s))[0])
  {
    EmittedRuns([vec[0][0]] + Concat(vec));
  }

  /**
   One tune of `decode_single_vector` (lines 99-102): `decode_song` then
   `convert_note_list`. The runs are never empty, so only an empty tune
   or first bar raises; the text reads back as one note per emitted run,
   at that run's value under any key.
   */
  method DecodeTune(vec: seq<seq<int>>) returns (r: Result<string>)
    ensures r.Raised? <==> |vec| == 0 || vec[0] == []
    ensures r.Value? ==> (|vec| > 0 && vec[0] != []
      && var runs := AllButLast(RunsOf([vec[0][0]] + Concat(vec)));
        r.value == TextAll(TokensOf(runs, true)))
  {
    var song := DecodeSong(vec);
    match song
    case Raised(e) => return Raised(e);
    case Value(runs) =>
      r := ConvertNoteList(runs);
  }

  // ---------------------------------------------------------------------
  // parse_raw_abc (lines 114-131)
  // ---------------------------------------------------------------------

  /** The matched texts, as the one-group `re.findall` returns them. */
  function Texts(ts: seq<Token>): (r: seq<string>)
    ensures |r| == |ts| && forall k :: 0 <= k < |ts| ==> r[k] == Text(ts[k])
  {
    seq(|ts|, k requires 0 <= k < |ts| => Text(ts[k]))
  }

  /** Lines 117-118: the note texts of the tune once every `|` is deleted. */
  function Words(abc: string): (r: seq<string>)
    ensures r == Texts(Lex(Without(abc, '|')))
  {
    ReplaceDeletes(abc, '|');
    Texts(Lex(Replace(abc, "|", "")))
  }

  /** A run written back: the note, then the run's length unless it is 1. */
  function EncodeRun(run: seq<string>): string
    requires |run| > 0
  {
    if |run| != 1 then run[0] + ShowNat(|run|) else run[0]
  }

  function EncodeRuns(runs: seq<seq<string>>): (r: seq<string>)
    requires forall k :: 0 <= k < |runs| ==> |runs[k]| > 0
    ensures |r| == |runs| && forall k :: 0 <= k < |runs| ==> r[k] == EncodeRun(runs[k])
  {
    seq(|runs|, k requires 0 <= k < |runs| => EncodeRun(runs[k]))
  }

  /**
   `parse_raw_abc`: the maximal runs of equal note texts, each written as
   the note and its count, except the last run, which the loop never
   emits. A tune with no note raises IndexError at `vec[0]`.
   */
  method ParseRawAbc(abc: string) returns (r: Result<string>)
    ensures r.Raised? <==> |Words(abc)| == 0
    ensures r.Raised? ==> r.exc == IndexError
    ensures r.Value? ==> r.value == Concat(EncodeRuns(AllButLast(RunsOf(Words(abc)))))
  {
    var vec := Words(abc);
    if |vec| == 0 {
      return Raised(IndexError);
    }
    var tune := CountRuns(vec);
    return Value(Concat(tune));
  }

  /** The counting loop of lines 120-128: every run but the last, written back. */
  method CountRuns(vec: seq<string>) returns (tune: seq<string>)
    requires |vec| > 0
    ensures tune == EncodeRuns(AllButLast(RunsOf(vec)))
  {
    var prev := vec[0];
    tune := [];
    var c := 0;
    var i := 0;
    while i < |vec|
      invariant 0 <= i <= |vec|
      invariant Counting(vec, i, tune, prev, c)
    {
      var x := vec[i];
      CountStep(vec, i, tune, prev, c);
      CountingStep(vec, i, tune, prev, c);
      if x == prev {
        c := c + 1;
      } else {
        tune := tune + [if c != 1 then prev + ShowNat(c) else prev];
        prev := x;
        c := 1;
      }
      i := i + 1;
    }
    assert vec[..i] == vec;
  }

  /**
   The state of the counting loop after `i` notes: `tune` holds the
   closed runs, and `prev` and `c` are the open run's note and length.
   */
  ghost predicate Counting(vec: seq<string>, i: nat, tune: seq<string>, prev: string, c: nat)
    requires 0 < |vec| && i <= |vec|
  {
    (i == 0 ==> tune == [] && c == 0 && prev == vec[0])
    && (i > 0 ==> (c > 0 && tune == EncodeRuns(AllButLast(RunsOf(vec[..i])))
      && |Last(RunsOf(vec[..i]))| == c && Last(RunsOf(vec[..i]))[0] == prev))
  }

  lemma CountingStep(vec: seq<string>, i: nat, tune: seq<string>, prev: string, c: nat)
    requires i < |vec| && Counting(vec, i, tune, prev, c)
    ensures vec[i] == prev ==> Counting(vec, i + 1, tune, prev, c + 1)
    ensures vec[i] != prev ==> Counting(vec, i + 1, tune + [if c != 1 then prev + ShowNat(c) else prev], vec[i], 1)
  {
    CountStep(vec, i, tune, prev, c);
  }

  /** One turn of the counting loop of lines 122-128. */
  lemma CountStep(vec: seq<string>, i: nat, tune: seq<string>, prev: string, c: nat)
    requires i < |vec|
    requires i == 0 ==> tune == [] && c == 0 && prev == vec[0]
    requires i > 0 ==> (c > 0 && tune == EncodeRuns(AllButLast(RunsOf(vec[..i])))
      && |Last(RunsOf(vec[..i]))| == c && Last(RunsOf(vec[..i]))[0] == prev)
    ensures var r := RunsOf(vec[..i + 1]);
      |r| > 0
      && (vec[i] == prev ==> tune == EncodeRuns(AllButLast(r)) && |Last(r)| == c + 1 && Last(r)[0] == prev)
      && (vec[i] != prev ==> (tune + [if c != 1 then prev + ShowNat(c) else prev] == EncodeRuns(AllButLast(r))
        && |Last(r)| == 1 && Last(r)[0] == vec[i]))
  {
    var x := vec[i];
    var p := vec[..i];
    RunsOfSnoc(p, x);
    assert vec[..i + 1] == p + [x];
    var r0 := RunsOf(p);
    if i == 0 {
      assert p == [] && r0 == [];
      assert RunsOf(vec[..i + 1]) == [[x]];
    } else if x == prev {
      ExtendOpenRun(r0, x);
    } else {
      CloseOpenRun(r0, x);
    }
  }

  /** A note equal to the open run's lengthens it and leaves the closed runs alone. */
  lemma ExtendOpenRun(r0: seq<seq<string>>, x: string)
    requires |r0| > 0 && (forall k :: 0 <= k < |r0| ==> |r0[k]| > 0) && Last(r0)[0] == x
    ensures var r := AllButLast(r0) + [Last(r0) + [x]];
      EncodeRuns(AllButLast(r)) == EncodeRuns(AllButLast(r0)) && |Last(r)| == |Last(r0)| + 1 && Last(r)[0] == x
  {
    assert AllButLast(AllButLast(r0) + [Last(r0) + [x]]) == AllButLast(r0);
  }

  /** A different note closes the open run, which is written, and opens its own. */
  lemma CloseOpenRun(r0: seq<seq<string>>, x: string)
    requires |r0| > 0 && (forall k :: 0 <= k < |r0| ==> |r0[k]| > 0) && Last(r0)[0] != x
    ensures var r := r0 + [[x]];
      EncodeRuns(AllButLast(r)) == EncodeRuns(AllButLast(r0)) + [EncodeRun(Last(r0))] && |Last(r)| == 1 && Last(r)[0] == x
  {
    assert AllButLast(r0 + [[x]]) == r0;
    assert r0 == AllButLast(r0) + [Last(r0)];
  }

  /**
   What `parse_raw_abc` writes: one piece per emitted run, each the run's
   note text followed by the run's length when it is longer than one; the
   runs are maximal, and with the unemitted last run they are all the
   notes of the tune, `|` removed.
   */
  lemma ParseRawAbcRuns(abc: string)
    requires |Words(abc)| > 0
    ensures var w := Words(abc);
      var e := AllButLast(RunsOf(w));
      (forall k :: 0 <= k < |e| ==> Constant(e[k]))
      && Alternate(e)
      && Concat(e) + Last(RunsOf(w)) == w
  {
    EmittedRuns(Words(abc));
  }

  // ---------------------------------------------------------------------
  // Decoder.from_raw_abc (lines 256-267)
  // ---------------------------------------------------------------------

  /** The fallback tune `tritone` (line 20). */
  const Tritone := "z[=G2=G,2][=G2=G,2][=G2=G,2][_E8_E,8] z[=F2=F,2][=F2=F,2][=F2=F,2][=D8=D,]"

  /**
   The tune table of `from_raw_abc`, given the cleaner's output (the
   cleaner, src/Generation/Cleaning/Cleaner.py, is not part of this
   model). The failure sentinel is replaced by `tritone` unless `override`
   asks to keep whatever the cleaner gave.
   */
  function FromRawAbc(cleaned: string, override: bool): (tunes: map<int, string>)
    ensures tunes.Keys == {0}
    ensures tunes[0] == cleaned <==> (override || cleaned != Cleaner.Bad)
    ensures tunes[0] != cleaned ==> tunes[0] == Tritone
    ensures tunes[0] == Cleaner.Bad ==> override
  {
    if override then map[0 := cleaned]
    else if cleaned == Cleaner.Bad then map[0 := Tritone]
    else map[0 := cleaned]
  }
}
