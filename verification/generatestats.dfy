/**
 `read_list` of PreProcessing/Generate_Stats.py. The script keeps its
 counters in module globals that every call adds to; here they are the
 `Globals` value passed in and returned.

 Its `inc` stores 0 on a key's first sighting, so every stored count is
 one less than the number of occurrences. The grouping tables
 `mode_types` and `mode_count` are never cleared, and each call regroups
 every mode key seen so far, so a second call lists each tonic again and
 adds each count again.
 */
module GenerateStats {
  import opened PyStr
  import opened Corpus
  import opened Stats

  /** The module globals: `total`, `unique`, `family`/`meter`/`mode` (as `Counters`), `mode_types`, `mode_count`. */
  datatype Globals = Globals(total: nat, unique: set<int>, counters: Counters,
                             modeTypes: map<string, string>, modeCount: map<string, nat>)

  /** The globals at import time. */
  const Initial := Globals(0, {}, NoCounts, map[], map[])

  /** What every call keeps: the mode keys in order, and the two grouping tables keyed alike. */
  ghost predicate Valid(g: Globals)
  {
    KeysInOrder(g.counters) && g.modeTypes.Keys == g.modeCount.Keys
  }

  /** How many tunes, from the start, have an id `int()` accepts. */
  function Parsed(tunes: seq<Tune>): (n: nat)
    ensures n <= |tunes|
    ensures forall j :: 0 <= j < n ==> IntOf(tunes[j].tune).Value?
    ensures n < |tunes| ==> IntOf(tunes[n].tune).Raised?
    decreases |tunes|
  {
    if |tunes| == 0 || IntOf(tunes[0].tune).Raised? then 0 else 1 + Parsed(tunes[1..])
  }

  /** The ids of the tunes whose id parses. */
  function Ids(tunes: seq<Tune>): set<int>
    decreases |tunes|
  {
    if |tunes| == 0 then {}
    else
      var id := IntOf(tunes[|tunes| - 1].tune);
      Ids(tunes[..|tunes| - 1]) + (if id.Value? then {id.value} else {})
  }

  lemma IdsSnoc(tunes: seq<Tune>, t: Tune)
    ensures Ids(tunes + [t]) == Ids(tunes) + (if IntOf(t.tune).Value? then {IntOf(t.tune).value} else {})
  {
    assert (tunes + [t])[..|tunes|] == tunes;
  }

  /** `unique` collects exactly the parsed ids. */
  lemma {:induction false} IdsMeaning(tunes: seq<Tune>, v: int)
    ensures v in Ids(tunes) <==> exists j :: 0 <= j < |tunes| && IntOf(tunes[j].tune) == Value(v)
    decreases |tunes|
  {
    if |tunes| > 0 {
      var p := tunes[..|tunes| - 1];
      IdsMeaning(p, v);
      HasIdSnoc(p, tunes[|tunes| - 1], v);
      assert p + [tunes[|tunes| - 1]] == tunes;
    }
  }

  /** A tune bearing id `v` is among the first ones or is the last. */
  lemma HasIdSnoc(p: seq<Tune>, t: Tune, v: int)
    ensures (exists j :: 0 <= j < |p + [t]| && IntOf((p + [t])[j].tune) == Value(v))
      <==> (exists j :: 0 <= j < |p| && IntOf(p[j].tune) == Value(v)) || IntOf(t.tune) == Value(v)
  {
    var q := p + [t];
    if exists j :: 0 <= j < |p| && IntOf(p[j].tune) == Value(v) {
      var j :| 0 <= j < |p| && IntOf(p[j].tune) == Value(v);
      assert q[j] == p[j];
    }
    if exists j :: 0 <= j < |q| && IntOf(q[j].tune) == Value(v) {
      var j :| 0 <= j < |q| && IntOf(q[j].tune) == Value(v);
      if j < |p| {
        assert p[j] == q[j];
      }
    }
    assert q[|p|] == t;
  }

  /** The tune after the parsed prefix stops the count; a tune that parses extends it. */
  lemma ParsedStep(tunes: seq<Tune>, i: nat)
    requires i <= Parsed(tunes) && i < |tunes|
    ensures IntOf(tunes[i].tune).Raised? ==> Parsed(tunes) == i
    ensures IntOf(tunes[i].tune).Value? ==> i + 1 <= Parsed(tunes)
  {
  }

  /**
   Lines 13-38. The first loop parses each id (ValueError stops it, with
   the earlier tunes already counted, since the globals have been
   changed) and counts the three fields; the second regroups every mode
   key seen so far into the grouping tables, where an empty key raises
   IndexError.
   */
  method ReadList(g: Globals, tunes: seq<Tune>) returns (g': Globals, exc: Option<Exception>)
    requires Valid(g)
    ensures Valid(g')
    ensures var n := Parsed(tunes);
      && g'.total == g.total + n
      && g'.unique == g.unique + Ids(tunes[..n])
      && g'.counters == CountAll(g.counters, tunes[..n], 0)
    ensures Parsed(tunes) < |tunes| ==> exc == Some(ValueError) && g'.modeTypes == g.modeTypes && g'.modeCount == g.modeCount
    ensures Parsed(tunes) == |tunes| ==>
      var ks := g'.counters.modeKeys;
      && (exc.Some? <==> "" in ks)
      && (exc.Some? ==> exc.value == IndexError)
      && g'.modeTypes == AddFine(g.modeTypes, ks[..EmptyAt(ks)])
      && g'.modeCount == AddCoarse(g.modeCount, ks[..EmptyAt(ks)], g'.counters.modes)
  {
    var total, unique, c := CountParsed(g, tunes);
    var n := Parsed(tunes);
    CountAllMeaning(g.counters, tunes[..n], 0);
    if n < |tunes| {
      g' := Globals(total, unique, c, g.modeTypes, g.modeCount);
      exc := Some(ValueError);
      return;
    }
    var modeTypes, modeCount, failed := GroupModes(c.modeKeys, c.modes, g.modeTypes, g.modeCount);
    g' := Globals(total, unique, c, modeTypes, modeCount);
    exc := if failed then Some(IndexError) else None;
  }

  /**
   The first loop of lines 13-30: each id is parsed and the three fields
   counted, up to the first id that raises ValueError.
   */
  method CountParsed(g: Globals, tunes: seq<Tune>) returns (total: nat, unique: set<int>, c: Counters)
    ensures var n := Parsed(tunes);
      && total == g.total + n
      && unique == g.unique + Ids(tunes[..n])
      && c == CountAll(g.counters, tunes[..n], 0)
  {
    total := g.total;
    unique := g.unique;
    var family := g.counters.styles;
    var meter := g.counters.meters;
    var mode := g.counters.modes;
    var modeKeys := g.counters.modeKeys;
    for i := 0 to |tunes|
      invariant total == g.total + i
      invariant unique == g.unique + Ids(tunes[..i])
      invariant Counters(family, meter, mode, modeKeys) == CountAll(g.counters, tunes[..i], 0)
      invariant i <= Parsed(tunes)
    {
      var t := tunes[i];
      var id := IntOf(t.tune);
      ParsedStep(tunes, i);
      if id.Raised? {
        c := Counters(family, meter, mode, modeKeys);
        return;
      }
      TallyStep(g.counters, tunes, i, id.value);
      unique := unique + {id.value};
      family, meter, mode, modeKeys := CountFields(family, meter, mode, modeKeys, t, 0);
      total := total + 1;
    }
    assert tunes[..|tunes|] == tunes;
    c := Counters(family, meter, mode, modeKeys);
  }

  /** One more tune with a parsed id adds that id and counts its fields. */
  lemma TallyStep(c0: Counters, tunes: seq<Tune>, i: nat, id: int)
    requires i < |tunes| && IntOf(tunes[i].tune) == Value(id)
    ensures Ids(tunes[..i + 1]) == Ids(tunes[..i]) + {id}
    ensures CountAll(c0, tunes[..i + 1], 0) == CountTune(CountAll(c0, tunes[..i], 0), tunes[i], 0)
  {
    assert tunes[..i + 1] == tunes[..i] + [tunes[i]];
    IdsSnoc(tunes[..i], tunes[i]);
    CountAllSnoc(c0, tunes[..i], tunes[i], 0);
  }

  /**
   Lines 16-20: from the import-time globals, every stored count is the
   number of occurrences less one, and the keys are the values seen.
   */
  lemma CountsOffByOne(tunes: seq<Tune>, f: Field, k: string)
    ensures var m := IncAll(map[], Column(tunes, f), 0);
      (k in m <==> k in Column(tunes, f))
      && (k in m ==> m[k] + 1 == multiset(Column(tunes, f))[k])
  {
    IncAllCounts(map[], Column(tunes, f), 0);
  }

  /** Lines 22-27: counting two lists in two calls is counting them in one. */
  lemma {:induction false} CountAllAppend(c0: Counters, a: seq<Tune>, b: seq<Tune>, first: nat)
    ensures CountAll(CountAll(c0, a, first), b, first) == CountAll(c0, a + b, first)
    decreases |b|
  {
    if |b| == 0 {
      assert a + b == a;
    } else {
      var p := b[..|b| - 1];
      var t := b[|b| - 1];
      CountAllAppend(c0, a, p, first);
      assert (a + b)[..|a + b| - 1] == a + p;
      assert (a + b)[|a + b| - 1] == t;
    }
  }

  /** Line 23: the ids seen over two calls are the ids of both lists. */
  lemma {:induction false} IdsAppend(a: seq<Tune>, b: seq<Tune>)
    ensures Ids(a + b) == Ids(a) + Ids(b)
    decreases |b|
  {
    if |b| == 0 {
      assert a + b == a;
    } else {
      var p := b[..|b| - 1];
      var t := b[|b| - 1];
      IdsAppend(a, p);
      assert a + b == (a + p) + [t];
      IdsSnoc(a + p, t);
      IdsSnoc(p, t);
      assert b == p + [t];
    }
  }

  /**
   Lines 29-38 on a second call: the grouping tables are not cleared, so a
   mode key seen in the first call is listed and counted again.
   */
  lemma RegroupRepeats()
    ensures var once := AddFine(map[], ["Gmajor"]);
      once["major"] == "G" && AddFine(once, ["Gmajor"])["major"] == "GG"
  {
    var ms := ["Gmajor"];
    assert ms[..0] == [];
    assert "Gmajor"[1..] == "major";
  }
}
