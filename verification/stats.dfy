/**
 The category counters of src/Generation/Cleaning/Stats.py
 (`StatsObject.parse_abc_tunes`) and PreProcessing/Generate_Stats.py
 (`read_list`, whose module globals are passed in and returned here).

 Both count the style, meter and mode of every tune, then group the mode
 keys by what follows their first character (`"Gmajor"` is tonic `G`,
 mode `major`): the fine table lists the tonics of each mode, the coarse
 table adds up their counts.
 */
module Stats {
  import opened PyStr
  import opened Corpus

  // ---------------------------------------------------------------------
  // Grouping the mode keys by suffix
  // ---------------------------------------------------------------------

  predicate NoEmpty(ms: seq<string>)
  {
    forall i :: 0 <= i < |ms| ==> |ms[i]| > 0
  }

  /** What follows the first character of each key, `x[1:]`. */
  function Suffixes(ms: seq<string>): (r: seq<string>)
    requires NoEmpty(ms)
    ensures |r| == |ms|
    decreases |ms|
  {
    if |ms| == 0 then [] else Suffixes(ms[..|ms| - 1]) + [ms[|ms| - 1][1..]]
  }

  function SuffixSet(ms: seq<string>): (r: set<string>)
    requires NoEmpty(ms)
    ensures forall s :: s in r <==> s in Suffixes(ms)
  {
    set s | s in Suffixes(ms)
  }

  /** The keys whose suffix is `s`, in order. */
  function Select(ms: seq<string>, s: string): (r: seq<string>)
    requires NoEmpty(ms)
    ensures NoEmpty(r)
    decreases |ms|
  {
    if |ms| == 0 then []
    else
      var x := ms[|ms| - 1];
      Select(ms[..|ms| - 1], s) + (if x[1..] == s then [x] else [])
  }

  lemma SelectSnoc(ms: seq<string>, x: string, s: string)
    requires NoEmpty(ms) && |x| > 0
    ensures NoEmpty(ms + [x])
    ensures Select(ms + [x], s) == Select(ms, s) + (if x[1..] == s then [x] else [])
  {
    assert (ms + [x])[..|ms|] == ms;
  }

  /** `Select` keeps exactly the keys with suffix `s`. */
  lemma {:induction false} SelectMembers(ms: seq<string>, s: string)
    requires NoEmpty(ms)
    ensures forall x :: x in Select(ms, s) <==> x in ms && |x| > 0 && x[1..] == s
    decreases |ms|
  {
    if |ms| > 0 {
      var p := ms[..|ms| - 1];
      assert ms == p + [ms[|ms| - 1]];
      SelectMembers(p, s);
    }
  }

  /** The first characters of the keys whose suffix is `s`: the tonics listed under mode `s`. */
  function FirstChars(ms: seq<string>, s: string): (r: string)
    requires NoEmpty(ms)
    decreases |ms|
  {
    if |ms| == 0 then ""
    else
      var x := ms[|ms| - 1];
      FirstChars(ms[..|ms| - 1], s) + (if x[1..] == s then [x[0]] else [])
  }

  lemma FirstCharsSnoc(ms: seq<string>, x: string, s: string)
    requires NoEmpty(ms) && |x| > 0
    ensures NoEmpty(ms + [x])
    ensures FirstChars(ms + [x], s) == FirstChars(ms, s) + (if x[1..] == s then [x[0]] else [])
  {
    assert (ms + [x])[..|ms|] == ms;
  }

  /** A suffix no key has selects nothing. */
  lemma {:induction false} SuffixAbsent(ms: seq<string>, s: string)
    requires NoEmpty(ms) && s !in Suffixes(ms)
    ensures Select(ms, s) == [] && FirstChars(ms, s) == ""
    decreases |ms|
  {
    if |ms| > 0 {
      var p := ms[..|ms| - 1];
      assert Suffixes(ms) == Suffixes(p) + [ms[|ms| - 1][1..]];
      SuffixAbsent(p, s);
    }
  }

  /** The fine table after the grouping loop has seen `ms`, starting from `fine0`. */
  function AddFine(fine0: map<string, string>, ms: seq<string>): map<string, string>
    requires NoEmpty(ms)
    decreases |ms|
  {
    if |ms| == 0 then fine0
    else
      var r := AddFine(fine0, ms[..|ms| - 1]);
      var x := ms[|ms| - 1];
      r[x[1..] := (if x[1..] in r then r[x[1..]] else "") + [x[0]]]
  }

  /** The coarse table after the grouping loop has seen `ms`, starting from `coarse0`. */
  function AddCoarse(coarse0: map<string, nat>, ms: seq<string>, counts: map<string, nat>): map<string, nat>
    requires NoEmpty(ms) && forall x :: x in ms ==> x in counts
    decreases |ms|
  {
    if |ms| == 0 then coarse0
    else
      var r := AddCoarse(coarse0, ms[..|ms| - 1], counts);
      var x := ms[|ms| - 1];
      assert x in ms;
      r[x[1..] := (if x[1..] in r then r[x[1..]] else 0) + counts[x]]
  }

  lemma SuffixesSnoc(ms: seq<string>, x: string)
    requires NoEmpty(ms) && |x| > 0
    ensures NoEmpty(ms + [x])
    ensures Suffixes(ms + [x]) == Suffixes(ms) + [x[1..]]
  {
    assert (ms + [x])[..|ms|] == ms;
  }

  lemma AddFineSnoc(fine0: map<string, string>, ms: seq<string>, x: string)
    requires NoEmpty(ms) && |x| > 0
    ensures NoEmpty(ms + [x])
    ensures var r := AddFine(fine0, ms);
      AddFine(fine0, ms + [x]) == r[x[1..] := (if x[1..] in r then r[x[1..]] else "") + [x[0]]]
  {
    assert (ms + [x])[..|ms|] == ms;
  }

  lemma AddCoarseSnoc(coarse0: map<string, nat>, ms: seq<string>, x: string, counts: map<string, nat>)
    requires NoEmpty(ms) && |x| > 0
    requires forall y :: y in ms ==> y in counts
    requires x in counts
    ensures NoEmpty(ms + [x]) && forall y :: y in ms + [x] ==> y in counts
    ensures var r := AddCoarse(coarse0, ms, counts);
      AddCoarse(coarse0, ms + [x], counts) == r[x[1..] := (if x[1..] in r then r[x[1..]] else 0) + counts[x]]
  {
    assert (ms + [x])[..|ms|] == ms;
  }

  /**
   The fine table lists, under each suffix, the tonics of the keys with
   that suffix in key order, after whatever it held before.
   */
  lemma AddFineMeaning(fine0: map<string, string>, ms: seq<string>)
    requires NoEmpty(ms)
    ensures var r := AddFine(fine0, ms);
      (forall s :: s in r <==> s in fine0 || s in Suffixes(ms))
      && forall s :: s in r ==> r[s] == (if s in fine0 then fine0[s] else "") + FirstChars(ms, s)
  {
    forall s {
      AddFineAt(fine0, ms, s);
    }
  }

  lemma {:induction false} AddFineAt(fine0: map<string, string>, ms: seq<string>, s: string)
    requires NoEmpty(ms)
    ensures var r := AddFine(fine0, ms);
      (s in r <==> s in fine0 || s in Suffixes(ms))
      && (s in r ==> r[s] == (if s in fine0 then fine0[s] else "") + FirstChars(ms, s))
    decreases |ms|
  {
    if |ms| > 0 {
      var p := ms[..|ms| - 1];
      var x := ms[|ms| - 1];
      assert ms == p + [x];
      AddFineAt(fine0, p, s);
      AddFineStep(fine0, p, x, s);
    }
  }

  /** The inductive step of `AddFineAt`. */
  lemma AddFineStep(fine0: map<string, string>, p: seq<string>, x: string, s: string)
    requires NoEmpty(p) && |x| > 0
    requires var r := AddFine(fine0, p);
      (s in r <==> s in fine0 || s in Suffixes(p))
      && (s in r ==> r[s] == (if s in fine0 then fine0[s] else "") + FirstChars(p, s))
    ensures NoEmpty(p + [x])
    ensures var r := AddFine(fine0, p + [x]);
      (s in r <==> s in fine0 || s in Suffixes(p + [x]))
      && (s in r ==> r[s] == (if s in fine0 then fine0[s] else "") + FirstChars(p + [x], s))
  {
    var prev := AddFine(fine0, p);
    assert AddFine(fine0, p + [x]) == prev[x[1..] := (if x[1..] in prev then prev[x[1..]] else "") + [x[0]]] by {
      AddFineSnoc(fine0, p, x);
    }
    assert Suffixes(p + [x]) == Suffixes(p) + [x[1..]] by {
      SuffixesSnoc(p, x);
    }
    FirstCharsSnoc(p, x, s);
    if s == x[1..] {
      if s !in prev {
        SuffixAbsent(p, s);
      }
    } else {
      assert FirstChars(p, s) + "" == FirstChars(p, s);
      assert s in Suffixes(p) + [x[1..]] <==> s in Suffixes(p);
    }
  }

  /**
   The coarse table holds, under each suffix, the sum of the counts of
   the keys with that suffix, added to whatever it held before.
   */
  lemma AddCoarseMeaning(coarse0: map<string, nat>, ms: seq<string>, counts: map<string, nat>)
    requires NoEmpty(ms) && forall x :: x in ms ==> x in counts
    ensures var r := AddCoarse(coarse0, ms, counts);
      (forall s :: s in r <==> s in coarse0 || s in Suffixes(ms))
      && forall s :: s in r ==> r[s] == (if s in coarse0 then coarse0[s] else 0) + SumOver(Select(ms, s), counts)
  {
    forall s {
      AddCoarseAt(coarse0, ms, counts, s);
    }
  }

  /** `AddCoarseMeaning` at one suffix. */
  lemma {:induction false} AddCoarseAt(coarse0: map<string, nat>, ms: seq<string>, counts: map<string, nat>, s: string)
    requires NoEmpty(ms) && forall x :: x in ms ==> x in counts
    ensures var r := AddCoarse(coarse0, ms, counts);
      (s in r <==> s in coarse0 || s in Suffixes(ms))
      && (s in r ==> r[s] == (if s in coarse0 then coarse0[s] else 0) + SumOver(Select(ms, s), counts))
    decreases |ms|
  {
    if |ms| > 0 {
      var p := ms[..|ms| - 1];
      var x := ms[|ms| - 1];
      assert ms == p + [x];
      assert x in counts by {
        assert x in ms;
      }
      AddCoarseAt(coarse0, p, counts, s);
      AddCoarseStep(coarse0, p, x, counts, s);
    }
  }

  /** The inductive step of `AddCoarseAt`. */
  lemma AddCoarseStep(coarse0: map<string, nat>, p: seq<string>, x: string, counts: map<string, nat>, s: string)
    requires NoEmpty(p) && |x| > 0 && x in counts && forall y :: y in p ==> y in counts
    requires var r := AddCoarse(coarse0, p, counts);
      (s in r <==> s in coarse0 || s in Suffixes(p))
      && (s in r ==> r[s] == (if s in coarse0 then coarse0[s] else 0) + SumOver(Select(p, s), counts))
    ensures NoEmpty(p + [x]) && forall y :: y in p + [x] ==> y in counts
    ensures var r := AddCoarse(coarse0, p + [x], counts);
      (s in r <==> s in coarse0 || s in Suffixes(p + [x]))
      && (s in r ==> r[s] == (if s in coarse0 then coarse0[s] else 0) + SumOver(Select(p + [x], s), counts))
  {
    var prev := AddCoarse(coarse0, p, counts);
    var base := if s in coarse0 then coarse0[s] else 0;
    assert AddCoarse(coarse0, p + [x], counts) == prev[x[1..] := (if x[1..] in prev then prev[x[1..]] else 0) + counts[x]] by {
      AddCoarseSnoc(coarse0, p, x, counts);
    }
    assert Suffixes(p + [x]) == Suffixes(p) + [x[1..]] by {
      SuffixesSnoc(p, x);
    }
    assert Select(p + [x], s) == Select(p, s) + (if x[1..] == s then [x] else []) by {
      SelectSnoc(p, x, s);
    }
    if s == x[1..] {
      SumOverSnoc(Select(p, s), x, counts);
      if s !in prev {
        SuffixAbsent(p, s);
      }
    } else {
      assert Select(p, s) + [] == Select(p, s);
      assert s in Suffixes(p) + [x[1..]] <==> s in Suffixes(p);
    }
  }

  /** The index of the first empty key, where `s[0]` raises; `|ms|` if there is none. */
  function EmptyAt(ms: seq<string>): (n: nat)
    ensures n <= |ms| && NoEmpty(ms[..n])
    ensures n < |ms| ==> ms[n] == ""
    ensures n == |ms| <==> "" !in ms
    decreases |ms|
  {
    if |ms| == 0 then 0
    else if ms[0] == "" then 0
    else
      var n := 1 + EmptyAt(ms[1..]);
      assert forall i :: 1 <= i < n ==> ms[..n][i] == ms[1..][..n - 1][i - 1];
      assert "" in ms <==> "" in ms[1..] by {
        assert ms == [ms[0]] + ms[1..];
      }
      n
  }

  /** One turn of the grouping loop: key `x` adds its tonic and its count under its suffix. */
  method GroupTurn(x: string, counts: map<string, nat>, fine: map<string, string>, coarse: map<string, nat>)
    returns (fine': map<string, string>, coarse': map<string, nat>)
    requires |x| > 0 && x in counts && fine.Keys == coarse.Keys
    ensures fine' == fine[x[1..] := (if x[1..] in fine then fine[x[1..]] else "") + [x[0]]]
    ensures coarse' == coarse[x[1..] := (if x[1..] in coarse then coarse[x[1..]] else 0) + counts[x]]
    ensures fine'.Keys == coarse'.Keys
  {
    var s := x[1..];
    assert s in fine <==> s in coarse by {
      assert s in fine <==> s in fine.Keys;
    }
    if s in fine {
      fine' := fine[s := fine[s] + [x[0]]];
      coarse' := coarse[s := coarse[s] + counts[x]];
    } else {
      assert "" + [x[0]] == [x[0]];
      fine' := fine[s := [x[0]]];
      coarse' := coarse[s := counts[x]];
    }
  }

  /** The counting loop of `parse_abc_tunes`: each dictionary starts a new key at 1. */
  method CountTunes(tunes: seq<Tune>) returns (c: Counters)
    ensures c == CountAll(NoCounts, tunes, 1)
  {
    var styles: map<string, nat> := map[];
    var meters: map<string, nat> := map[];
    var modes: map<string, nat> := map[];
    var modeKeys: seq<string> := [];
    for i := 0 to |tunes|
      invariant Counters(styles, meters, modes, modeKeys) == CountAll(NoCounts, tunes[..i], 1)
    {
      var t := tunes[i];
      assert CountAll(NoCounts, tunes[..i + 1], 1) == CountTune(CountAll(NoCounts, tunes[..i], 1), t, 1) by {
        assert tunes[..i + 1] == tunes[..i] + [t];
        CountAllSnoc(NoCounts, tunes[..i], t, 1);
      }
      styles, meters, modes, modeKeys := CountFields(styles, meters, modes, modeKeys, t, 1);
    }
    assert tunes[..|tunes|] == tunes;
    c := Counters(styles, meters, modes, modeKeys);
  }

  /**
   Lines 74-83 of Stats.py and 29-38 of Generate_Stats.py: for each mode
   key in order, append its tonic to the fine table and add its count to
   the coarse table under its suffix. An empty key raises IndexError at
   `s[0]`, after the keys before it have been grouped.
   */
  method GroupModes(ms: seq<string>, counts: map<string, nat>, fine0: map<string, string>, coarse0: map<string, nat>)
    returns (fine: map<string, string>, coarse: map<string, nat>, failed: bool)
    requires forall x :: x in ms ==> x in counts
    requires fine0.Keys == coarse0.Keys
    ensures failed <==> "" in ms
    ensures fine == AddFine(fine0, ms[..EmptyAt(ms)])
    ensures coarse == AddCoarse(coarse0, ms[..EmptyAt(ms)], counts)
    ensures fine.Keys == coarse.Keys
  {
    fine, coarse, failed := fine0, coarse0, false;
    var i := 0;
    assert ms[..0] == [];
    while i < |ms|
      invariant i <= |ms| && NoEmpty(ms[..i])
      invariant fine == AddFine(fine0, ms[..i])
      invariant coarse == AddCoarse(coarse0, ms[..i], counts)
      invariant fine.Keys == coarse.Keys
    {
      var x := ms[i];
      if |x| == 0 {
        assert EmptyAt(ms) == i;
        failed := true;
        return;
      }
      assert x in counts;
      var fine', coarse' := GroupTurn(x, counts, fine, coarse);
      assert fine' == AddFine(fine0, ms[..i + 1]) && coarse' == AddCoarse(coarse0, ms[..i + 1], counts) by {
        assert ms[..i + 1] == ms[..i] + [x];
        AddFineSnoc(fine0, ms[..i], x);
        AddCoarseSnoc(coarse0, ms[..i], x, counts);
      }
      fine, coarse := fine', coarse';
      i := i + 1;
    }
    assert ms[..i] == ms;
  }

  /** A tonic is listed under mode `s` exactly when tonic followed by `s` is a key. */
  lemma {:induction false} FirstCharsIn(ms: seq<string>, s: string, c: char)
    requires NoEmpty(ms)
    ensures c in FirstChars(ms, s) <==> [c] + s in ms
    decreases |ms|
  {
    if |ms| > 0 {
      var p := ms[..|ms| - 1];
      var x := ms[|ms| - 1];
      assert ms == p + [x];
      FirstCharsIn(p, s, c);
      assert ([c] + s)[1..] == s;
      if x[1..] == s {
        assert x == [x[0]] + s;
      }
      assert [c] + s in ms <==> [c] + s in p || [c] + s == x;
    }
  }

  /** Over distinct keys, each tonic is listed once under a mode. */
  lemma {:induction false} FirstCharsOnce(ms: seq<string>, s: string)
    requires NoEmpty(ms)
    requires forall i, j :: 0 <= i < j < |ms| ==> ms[i] != ms[j]
    ensures var r := FirstChars(ms, s); forall i, j :: 0 <= i < j < |r| ==> r[i] != r[j]
    decreases |ms|
  {
    if |ms| > 0 {
      var p := ms[..|ms| - 1];
      var x := ms[|ms| - 1];
      assert ms == p + [x];
      FirstCharsOnce(p, s);
      FirstCharsSnoc(p, x, s);
      if x[1..] == s {
        assert x == [x[0]] + s;
        assert x !in p;
        FirstCharsIn(p, s, x[0]);
      }
    }
  }

  /** The coarse counts add up to the counts of the keys grouped. */
  lemma {:induction false} CoarseSum(ms: seq<string>, counts: map<string, nat>)
    requires NoEmpty(ms) && forall x :: x in ms ==> x in counts
    ensures SumOver(Distinct(Suffixes(ms)), AddCoarse(map[], ms, counts)) == SumOver(ms, counts)
    decreases |ms|
  {
    if |ms| > 0 {
      var p := ms[..|ms| - 1];
      var x := ms[|ms| - 1];
      assert ms == p + [x];
      assert x in counts by {
        assert x in ms;
      }
      CoarseSum(p, counts);
      CoarseSumSnoc(p, x, counts);
    }
  }

  /** The inductive step of `CoarseSum`. */
  lemma CoarseSumSnoc(p: seq<string>, x: string, counts: map<string, nat>)
    requires NoEmpty(p) && |x| > 0 && x in counts && forall y :: y in p ==> y in counts
    requires SumOver(Distinct(Suffixes(p)), AddCoarse(map[], p, counts)) == SumOver(p, counts)
    ensures NoEmpty(p + [x]) && forall y :: y in p + [x] ==> y in counts
    ensures SumOver(Distinct(Suffixes(p + [x])), AddCoarse(map[], p + [x], counts)) == SumOver(p + [x], counts)
  {
    CoarseShapes(p, x, counts);
    CoarseSumGrow(p, x, counts);
    SumOverSnoc(p, x, counts);
  }

  /** One more key adds its suffix to the distinct suffixes, if new, and its count to the suffix's entry. */
  lemma CoarseShapes(p: seq<string>, x: string, counts: map<string, nat>)
    requires NoEmpty(p) && |x| > 0 && x in counts && forall y :: y in p ==> y in counts
    ensures NoEmpty(p + [x]) && forall y :: y in p + [x] ==> y in counts
    ensures AddCoarse(map[], p + [x], counts) == Bump(AddCoarse(map[], p, counts), x[1..], counts[x])
    ensures Distinct(Suffixes(p + [x])) == Grow(Distinct(Suffixes(p)), x[1..])
  {
    AddCoarseSnoc(map[], p, x, counts);
    SuffixesSnoc(p, x);
    DistinctSnoc(Suffixes(p), x[1..]);
  }

  /** The sum over the distinct suffixes grows by the new key's count. */
  lemma CoarseSumGrow(p: seq<string>, x: string, counts: map<string, nat>)
    requires NoEmpty(p) && |x| > 0 && x in counts && forall y :: y in p ==> y in counts
    ensures SumOver(Grow(Distinct(Suffixes(p)), x[1..]), Bump(AddCoarse(map[], p, counts), x[1..], counts[x]))
      == SumOver(Distinct(Suffixes(p)), AddCoarse(map[], p, counts)) + counts[x]
  {
    var s := x[1..];
    var d := Distinct(Suffixes(p));
    var c := AddCoarse(map[], p, counts);
    assert s in d <==> s in c by {
      AddCoarseAt(map[], p, counts, s);
    }
    SumAddOne(d, c, s, counts[x]);
  }

  /** `s` added at the end of a list of distinct keys unless it is there already. */
  function Grow(d: seq<string>, s: string): seq<string>
  {
    if s in d then d else d + [s]
  }

  /** `v` added to the entry of `s`, a missing entry counting as 0. */
  function Bump(c: map<string, nat>, s: string, v: nat): map<string, nat>
  {
    c[s := (if s in c then c[s] else 0) + v]
  }

  /**
   One more count under key `s` adds it to a sum over distinct keys that
   lists `s` exactly when the map had it, or lists it at the end.
   */
  lemma SumAddOne(d: seq<string>, c: map<string, nat>, s: string, v: nat)
    requires forall i, j :: 0 <= i < j < |d| ==> d[i] != d[j]
    requires s in d <==> s in c
    ensures SumOver(Grow(d, s), Bump(c, s, v)) == SumOver(d, c) + v
  {
    var c' := Bump(c, s, v);
    if s in d {
      SumOverBump(d, c, s, v);
    } else {
      SumOverAgree(d, c, c');
      SumOverSnoc(d, s, c');
    }
  }

  // ---------------------------------------------------------------------
  // Counting the fields of each tune
  // ---------------------------------------------------------------------

  /**
   The three counting dictionaries both scripts keep (style, meter,
   mode), with the insertion order of the mode dictionary, which decides
   the order the grouping loop visits the modes in.
   */
  datatype Counters = Counters(styles: map<string, nat>, meters: map<string, nat>, modes: map<string, nat>, modeKeys: seq<string>)

  const NoCounts := Counters(map[], map[], map[], [])

  /** The mode dictionary's keys are `modeKeys`, each once. */
  ghost predicate KeysInOrder(c: Counters)
  {
    (forall k :: k in c.modes <==> k in c.modeKeys)
    && forall i, j :: 0 <= i < j < |c.modeKeys| ==> c.modeKeys[i] != c.modeKeys[j]
  }

  /** The three `inc` calls of one turn of the counting loop. */
  function CountTune(c: Counters, t: Tune, first: nat): Counters
  {
    Counters(Inc(c.styles, t.style, first), Inc(c.meters, t.meter, first), Inc(c.modes, t.mode, first),
             if t.mode in c.modes then c.modeKeys else c.modeKeys + [t.mode])
  }

  /** The body of the counting loops: one tune's three fields counted, a new mode key listed. */
  method CountFields(styles: map<string, nat>, meters: map<string, nat>, modes: map<string, nat>, modeKeys: seq<string>, t: Tune, first: nat)
    returns (styles': map<string, nat>, meters': map<string, nat>, modes': map<string, nat>, modeKeys': seq<string>)
    ensures Counters(styles', meters', modes', modeKeys') == CountTune(Counters(styles, meters, modes, modeKeys), t, first)
  {
    styles' := Inc(styles, t.style, first);
    meters' := Inc(meters, t.meter, first);
    modeKeys' := modeKeys;
    if t.mode !in modes {
      modeKeys' := modeKeys + [t.mode];
    }
    modes' := Inc(modes, t.mode, first);
  }

  /** The counting loop over `tunes`, starting from `c0`. */
  function CountAll(c0: Counters, tunes: seq<Tune>, first: nat): Counters
    decreases |tunes|
  {
    if |tunes| == 0 then c0 else CountTune(CountAll(c0, tunes[..|tunes| - 1], first), tunes[|tunes| - 1], first)
  }

  lemma CountAllSnoc(c0: Counters, tunes: seq<Tune>, t: Tune, first: nat)
    ensures CountAll(c0, tunes + [t], first) == CountTune(CountAll(c0, tunes, first), t, first)
  {
    assert (tunes + [t])[..|tunes|] == tunes;
  }

  /**
   What the counting loop leaves: each dictionary is `inc` applied to its
   column, and the mode keys are the old ones followed by the new modes in
   the order first seen.
   */
  lemma {:induction false} CountAllMeaning(c0: Counters, tunes: seq<Tune>, first: nat)
    requires KeysInOrder(c0)
    ensures var c := CountAll(c0, tunes, first);
      && c.styles == IncAll(c0.styles, Column(tunes, Style), first)
      && c.meters == IncAll(c0.meters, Column(tunes, Meter), first)
      && c.modes == IncAll(c0.modes, Column(tunes, Mode), first)
      && c.modeKeys == Distinct(c0.modeKeys + Column(tunes, Mode))
      && KeysInOrder(c)
    decreases |tunes|
  {
    if |tunes| == 0 {
      assert c0.modeKeys + [] == c0.modeKeys;
      DistinctOfDistinct(c0.modeKeys);
    } else {
      var p := tunes[..|tunes| - 1];
      var t := tunes[|tunes| - 1];
      assert tunes == p + [t];
      CountAllMeaning(c0, p, first);
      CountStep(c0, p, t, first);
    }
  }

  lemma AppendAssoc(a: seq<string>, b: seq<string>, c: seq<string>)
    ensures a + (b + c) == (a + b) + c
  {
  }

  /** The inductive step of `CountAllMeaning`. */
  lemma CountStep(c0: Counters, p: seq<Tune>, t: Tune, first: nat)
    requires KeysInOrder(c0)
    requires var c := CountAll(c0, p, first);
      && c.styles == IncAll(c0.styles, Column(p, Style), first)
      && c.meters == IncAll(c0.meters, Column(p, Meter), first)
      && c.modes == IncAll(c0.modes, Column(p, Mode), first)
      && c.modeKeys == Distinct(c0.modeKeys + Column(p, Mode))
      && KeysInOrder(c)
    ensures var c := CountAll(c0, p + [t], first);
      && c.styles == IncAll(c0.styles, Column(p + [t], Style), first)
      && c.meters == IncAll(c0.meters, Column(p + [t], Meter), first)
      && c.modes == IncAll(c0.modes, Column(p + [t], Mode), first)
      && c.modeKeys == Distinct(c0.modeKeys + Column(p + [t], Mode))
      && KeysInOrder(c)
  {
    var c := CountAll(c0, p, first);
    var c' := CountAll(c0, p + [t], first);
    assert c' == CountTune(c, t, first) by {
      CountAllSnoc(c0, p, t, first);
    }
    assert c'.styles == IncAll(c0.styles, Column(p + [t], Style), first) by {
      ColumnSnoc(p, t, Style);
      IncAllSnoc(c0.styles, Column(p, Style), t.style, first);
    }
    assert c'.meters == IncAll(c0.meters, Column(p + [t], Meter), first) by {
      ColumnSnoc(p, t, Meter);
      IncAllSnoc(c0.meters, Column(p, Meter), t.meter, first);
    }
    assert c'.modes == IncAll(c0.modes, Column(p + [t], Mode), first) by {
      ColumnSnoc(p, t, Mode);
      IncAllSnoc(c0.modes, Column(p, Mode), t.mode, first);
    }
    var ks := c0.modeKeys + Column(p, Mode);
    assert c0.modeKeys + Column(p + [t], Mode) == ks + [t.mode] by {
      ColumnSnoc(p, t, Mode);
      AppendAssoc(c0.modeKeys, Column(p, Mode), [t.mode]);
    }
    assert c'.modeKeys == Distinct(ks + [t.mode]) by {
      DistinctSnoc(ks, t.mode);
    }
  }

  // ---------------------------------------------------------------------
  // StatsObject.parse_abc_tunes
  // ---------------------------------------------------------------------

  /** The counters of a `StatsObject`; `modeKeys` is the insertion order of `tune_modes`. */
  datatype Stats = Stats(total: nat, styles: map<string, nat>, meters: map<string, nat>,
                         modeKeys: seq<string>, modes: map<string, nat>,
                         fine: map<string, string>, coarse: map<string, nat>)

  /**
   Lines 60-83 of Stats.py, on a fresh object: `tunes` is the dictionary's
   values in order. Every field value is counted exactly; a tune with an
   empty mode makes the grouping raise IndexError.
   */
  method ParseAbcTunes(tunes: seq<Tune>) returns (r: Result<Stats>)
    ensures r.Raised? <==> "" in Column(tunes, Mode)
    ensures r.Raised? ==> r.exc == IndexError
    ensures r.Value? ==>
      var st := r.value;
      var modes := Column(tunes, Mode);
      && st.total == |tunes|
      && st.styles == Tally(Column(tunes, Style))
      && st.meters == Tally(Column(tunes, Meter))
      && st.modes == Tally(modes)
      && st.modeKeys == Distinct(modes)
      && NoEmpty(st.modeKeys)
      && st.fine == AddFine(map[], st.modeKeys)
      && st.coarse == AddCoarse(map[], st.modeKeys, st.modes)
  {
    var c := CountTunes(tunes);
    var total, styles, meters, modes, modeKeys := |tunes|, c.styles, c.meters, c.modes, c.modeKeys;
    Counted(tunes);
    var fine, coarse, failed := GroupModes(modeKeys, modes, map[], map[]);
    if failed {
      return Raised(IndexError);
    }
    assert modeKeys[..EmptyAt(modeKeys)] == modeKeys;
    r := Value(Stats(total, styles, meters, modeKeys, modes, fine, coarse));
  }

  /** Counting from 1 on fresh dictionaries gives the tallies, and the mode keys in first-seen order. */
  lemma Counted(tunes: seq<Tune>)
    ensures var c := CountAll(NoCounts, tunes, 1);
      && c.styles == Tally(Column(tunes, Style))
      && c.meters == Tally(Column(tunes, Meter))
      && c.modes == Tally(Column(tunes, Mode))
      && c.modeKeys == Distinct(Column(tunes, Mode))
  {
    CountAllMeaning(NoCounts, tunes, 1);
    IncAllTally(Column(tunes, Style));
    IncAllTally(Column(tunes, Meter));
    IncAllTally(Column(tunes, Mode));
    assert [] + Column(tunes, Mode) == Column(tunes, Mode);
  }

  /** The mode keys of tunes without an empty mode are non-empty. */
  lemma ModeKeysNonEmpty(tunes: seq<Tune>)
    requires "" !in Column(tunes, Mode)
    ensures NoEmpty(Distinct(Column(tunes, Mode)))
  {
    var ks := Distinct(Column(tunes, Mode));
    forall i | 0 <= i < |ks| ensures |ks[i]| > 0 {
      assert ks[i] in Column(tunes, Mode);
    }
  }

  /**
   The sums the counters promise: each of the style, meter and mode tables
   adds up to the number of tunes, and so does the coarse table, in the
   order its keys were inserted.
   */
  lemma StatsSums(tunes: seq<Tune>)
    requires "" !in Column(tunes, Mode)
    ensures SumOver(Distinct(Column(tunes, Style)), Tally(Column(tunes, Style))) == |tunes|
    ensures SumOver(Distinct(Column(tunes, Meter)), Tally(Column(tunes, Meter))) == |tunes|
    ensures SumOver(Distinct(Column(tunes, Mode)), Tally(Column(tunes, Mode))) == |tunes|
    ensures var ks := Distinct(Column(tunes, Mode));
      NoEmpty(ks) && SumOver(Distinct(Suffixes(ks)), AddCoarse(map[], ks, Tally(Column(tunes, Mode)))) == |tunes|
  {
    TallySum(Column(tunes, Style));
    TallySum(Column(tunes, Meter));
    var modes := Column(tunes, Mode);
    var ks := Distinct(modes);
    TallySum(modes);
    ModeKeysNonEmpty(tunes);
    CoarseSum(ks, Tally(modes));
  }

  /** Each tonic appears once in the fine table of a `StatsObject`, under every mode it is a key of. */
  lemma StatsFineOnce(tunes: seq<Tune>, s: string, c: char)
    requires "" !in Column(tunes, Mode)
    ensures var ks := Distinct(Column(tunes, Mode));
      NoEmpty(ks)
      && var r := FirstChars(ks, s);
      (c in r <==> [c] + s in Column(tunes, Mode))
      && forall i, j :: 0 <= i < j < |r| ==> r[i] != r[j]
  {
    var ks := Distinct(Column(tunes, Mode));
    ModeKeysNonEmpty(tunes);
    FirstCharsIn(ks, s, c);
    FirstCharsOnce(ks, s);
  }
}
