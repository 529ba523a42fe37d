/**
 The two ways the repository turns a list of tunes into a training set.

 `CreateDict` is create_dict of PreProcessing/Generate_Files.py. It keeps
 the tunes that pass the filters and, when asked, the safety check, and
 files each under its setting in a dictionary. `CreateDictList` is
 create_dict_list of src/Generation/Generate_Files.py. It sorts the tunes
 by decreasing setting number, cleans each one that passes the filters,
 and keeps those whose cleaning did not fail. The cleaner it uses is not
 part of this model and comes in as a parameter.
 */
module GenerateFiles {
  import opened PyStr
  import opened Corpus
  import Cleaner

  /** `if types and t['type'] not in types`: an empty (or missing) list lets every value through. */
  predicate Admits(allowed: seq<string>, v: string)
  {
    |allowed| == 0 || v in allowed
  }

  /** The three filters at the head of both loops. */
  predicate Wanted(t: Tune, types: seq<string>, meters: seq<string>, modes: seq<string>)
  {
    Admits(types, t.style) && Admits(meters, t.meter) && Admits(modes, t.mode)
  }

  // ---------------------------------------------------------------------
  // create_dict (PreProcessing/Generate_Files.py:5-27)
  // ---------------------------------------------------------------------

  /** What one turn of the loop does with a tune. */
  datatype Step = Skip | Keep(record: Tune) | Fail(exc: Exception) | NoFuel

  predicate Passes(s: Step)
  {
    s.Skip? || s.Keep?
  }

  /**
   Lines 10-24 for one tune. A kept record copies the five metadata fields
   and holds what the cleaner's `clean` would make of the text: the
   whitespace pass followed by the repeat expansion. A sentinel such as
   `!!BAD ABC!!` is kept like any other text.
   */
  function Prepare(t: Tune, types: seq<string>, meters: seq<string>, modes: seq<string>, checkAbc: bool, fuel: nat): (s: Step)
    ensures !Wanted(t, types, meters, modes) ==> s == Skip
    ensures s.Keep? ==> s.record == t.(abc := s.record.abc)
  {
    if !Wanted(t, types, meters, modes) then Skip
    else
      match Cleaner.RemoveWhitespace(t.abc)
      case Crash(e) => Fail(e)
      case OutOfFuel => NoFuel
      case Ok(abc) =>
        if checkAbc && !Cleaner.SafeAbc(abc) then Skip
        else
          match Cleaner.RemoveRepeats(abc, fuel)
          case Ok(c) => Keep(t.(abc := c))
          case Crash(e) => Fail(e)
          case OutOfFuel => NoFuel
  }

  /**
   A turn agrees with the cleaner's `clean`, the whitespace pass followed
   by the repeat expansion: a kept record holds its answer, a failure is
   its failure, and a wanted tune is skipped only when the safety check is
   on and finds a mark.
   */
  lemma PrepareMeaning(t: Tune, types: seq<string>, meters: seq<string>, modes: seq<string>, checkAbc: bool, fuel: nat)
    ensures var s := Prepare(t, types, meters, modes, checkAbc, fuel);
      && (s.Keep? ==> Cleaner.Clean(t.abc, fuel) == Cleaner.Ok(s.record.abc))
      && (s.Fail? ==> Cleaner.Clean(t.abc, fuel) == Cleaner.Crash(s.exc))
      && (s.NoFuel? ==> Cleaner.Clean(t.abc, fuel) == Cleaner.OutOfFuel)
      && (s.Skip? && Wanted(t, types, meters, modes) <==>
        Wanted(t, types, meters, modes) && checkAbc && Cleaner.RemoveWhitespace(t.abc).Ok? && !Cleaner.SafeAbc(Cleaner.RemoveWhitespace(t.abc).abc))
      && (Wanted(t, types, meters, modes) && !checkAbc ==> !s.Skip?)
  {
  }

  /** A dictionary keyed by setting: the keys in insertion order and the stored records. */
  datatype Table = Table(keys: seq<string>, records: map<string, Tune>)

  const EmptyTable := Table([], map[])

  /** The keys are listed once each, and they are exactly the stored ones. */
  ghost predicate WellKeyed(tab: Table)
  {
    (forall k :: k in tab.keys <==> k in tab.records)
    && (forall i, j :: 0 <= i < j < |tab.keys| ==> tab.keys[i] != tab.keys[j])
  }

  /**
   Line 25: `cleaned[t['setting']] = tune`. A new key goes to the end; a
   key already present keeps its place and gets the new record.
   */
  function Store(tab: Table, rec: Tune): Table
  {
    Table(if rec.setting in tab.records then tab.keys else tab.keys + [rec.setting], tab.records[rec.setting := rec])
  }

  /** The records kept from `tunes`, in order. */
  function Kept(tunes: seq<Tune>, types: seq<string>, meters: seq<string>, modes: seq<string>, checkAbc: bool, fuel: nat): seq<Tune>
    decreases |tunes|
  {
    if |tunes| == 0 then []
    else
      var p := tunes[..|tunes| - 1];
      match Prepare(tunes[|tunes| - 1], types, meters, modes, checkAbc, fuel)
      case Keep(rec) => Kept(p, types, meters, modes, checkAbc, fuel) + [rec]
      case _ => Kept(p, types, meters, modes, checkAbc, fuel)
  }

  /** The dictionary that storing `recs` one after another builds. */
  function Tabulate(recs: seq<Tune>): Table
    decreases |recs|
  {
    if |recs| == 0 then EmptyTable else Store(Tabulate(recs[..|recs| - 1]), recs[|recs| - 1])
  }

  function Settings(recs: seq<Tune>): (r: seq<string>)
    ensures |r| == |recs| && forall i :: 0 <= i < |recs| ==> r[i] == recs[i].setting
  {
    seq(|recs|, i requires 0 <= i < |recs| => recs[i].setting)
  }

  /** The record stored under `s` is the last record of `recs` with that setting. */
  ghost predicate LastWith(recs: seq<Tune>, s: string, rec: Tune)
  {
    exists i :: 0 <= i < |recs| && recs[i] == rec && rec.setting == s
      && forall j :: i < j < |recs| ==> recs[j].setting != s
  }

  lemma LastWithSnoc(recs: seq<Tune>, x: Tune, s: string, rec: Tune)
    requires x.setting != s && LastWith(recs, s, rec)
    ensures LastWith(recs + [x], s, rec)
  {
    var i :| 0 <= i < |recs| && recs[i] == rec && rec.setting == s && forall j :: i < j < |recs| ==> recs[j].setting != s;
    var q := recs + [x];
    assert q[i] == rec;
    assert forall j :: i < j < |q| ==> q[j].setting != s by {
      forall j | i < j < |q|
        ensures q[j].setting != s
      {
        if j < |recs| {
          assert q[j] == recs[j];
        }
      }
    }
  }

  /**
   The dictionary built from `recs`: its keys are the settings in the
   order first seen, and each holds the last record with that setting.
   */
  lemma {:induction false} TabulateMeaning(recs: seq<Tune>)
    ensures WellKeyed(Tabulate(recs))
    ensures Tabulate(recs).keys == Distinct(Settings(recs))
    ensures forall s :: s in Tabulate(recs).records ==> LastWith(recs, s, Tabulate(recs).records[s])
    decreases |recs|
  {
    if |recs| > 0 {
      var p := recs[..|recs| - 1];
      var x := recs[|recs| - 1];
      TabulateMeaning(p);
      var tab := Tabulate(p);
      assert recs == p + [x];
      assert Settings(recs) == Settings(p) + [x.setting];
      DistinctSnoc(Settings(p), x.setting);
      var tab' := Tabulate(recs);
      assert tab' == Store(tab, x);
      forall s | s in tab'.records
        ensures LastWith(recs, s, tab'.records[s])
      {
        if s == x.setting {
          assert recs[|recs| - 1] == x;
        } else {
          LastWithSnoc(p, x, s, tab.records[s]);
        }
      }
    }
  }

  /** What create_dict comes to: the dictionary, or the exception that stopped it, or the fuel running out. */
  datatype Created = Created(table: Table) | Stopped(exc: Exception) | Exhausted

  /** How many tunes from the front pass one after another: the turn that stops the loop, or all of them. */
  function Passing(tunes: seq<Tune>, types: seq<string>, meters: seq<string>, modes: seq<string>, checkAbc: bool, fuel: nat): (n: nat)
    ensures n <= |tunes|
    decreases |tunes|
  {
    if |tunes| == 0 || !Passes(Prepare(tunes[0], types, meters, modes, checkAbc, fuel)) then 0
    else 1 + Passing(tunes[1..], types, meters, modes, checkAbc, fuel)
  }

  /** Every tune before the stopping one passes, and the stopping one does not. */
  lemma {:induction false} PassingMeaning(tunes: seq<Tune>, types: seq<string>, meters: seq<string>, modes: seq<string>, checkAbc: bool, fuel: nat)
    ensures forall j :: 0 <= j < Passing(tunes, types, meters, modes, checkAbc, fuel) ==>
      Passes(Prepare(tunes[j], types, meters, modes, checkAbc, fuel))
    ensures var n := Passing(tunes, types, meters, modes, checkAbc, fuel);
      n < |tunes| ==> !Passes(Prepare(tunes[n], types, meters, modes, checkAbc, fuel))
    decreases |tunes|
  {
    if |tunes| > 0 && Passes(Prepare(tunes[0], types, meters, modes, checkAbc, fuel)) {
      PassingMeaning(tunes[1..], types, meters, modes, checkAbc, fuel);
      var n := Passing(tunes, types, meters, modes, checkAbc, fuel);
      if n < |tunes| {
        assert tunes[n] == tunes[1..][n - 1];
      }
      forall j | 0 < j < Passing(tunes, types, meters, modes, checkAbc, fuel)
        ensures Passes(Prepare(tunes[j], types, meters, modes, checkAbc, fuel))
      {
        assert tunes[j] == tunes[1..][j - 1];
      }
    }
  }

  lemma KeptSnoc(tunes: seq<Tune>, types: seq<string>, meters: seq<string>, modes: seq<string>, checkAbc: bool, fuel: nat, i: nat)
    requires i < |tunes|
    ensures Kept(tunes[..i + 1], types, meters, modes, checkAbc, fuel) ==
      Kept(tunes[..i], types, meters, modes, checkAbc, fuel)
      + (match Prepare(tunes[i], types, meters, modes, checkAbc, fuel) case Keep(rec) => [rec] case _ => [])
  {
    assert tunes[..i + 1][..i] == tunes[..i];
  }

  /** A turn the loop reaches either passes and the next is reached too, or it is the stopping one. */
  lemma PassingAt(tunes: seq<Tune>, types: seq<string>, meters: seq<string>, modes: seq<string>, checkAbc: bool, fuel: nat, i: nat)
    requires i < |tunes| && i <= Passing(tunes, types, meters, modes, checkAbc, fuel)
    ensures Passes(Prepare(tunes[i], types, meters, modes, checkAbc, fuel)) ==> i + 1 <= Passing(tunes, types, meters, modes, checkAbc, fuel)
    ensures !Passes(Prepare(tunes[i], types, meters, modes, checkAbc, fuel)) ==> i == Passing(tunes, types, meters, modes, checkAbc, fuel)
  {
    PassingMeaning(tunes, types, meters, modes, checkAbc, fuel);
  }

  /** One passing turn of the loop of create_dict: the table grows by the record kept, if any. */
  lemma KeptStep(tunes: seq<Tune>, types: seq<string>, meters: seq<string>, modes: seq<string>, checkAbc: bool, fuel: nat, i: nat)
    requires i < |tunes|
    ensures var s := Prepare(tunes[i], types, meters, modes, checkAbc, fuel);
      var tab := Tabulate(Kept(tunes[..i], types, meters, modes, checkAbc, fuel));
      Tabulate(Kept(tunes[..i + 1], types, meters, modes, checkAbc, fuel)) == if s.Keep? then Store(tab, s.record) else tab
  {
    KeptSnoc(tunes, types, meters, modes, checkAbc, fuel, i);
    var s := Prepare(tunes[i], types, meters, modes, checkAbc, fuel);
    var k := Kept(tunes[..i], types, meters, modes, checkAbc, fuel);
    if s.Keep? {
      TabulateSnoc(k, [s.record]);
    } else {
      TabulateSnoc(k, []);
    }
  }

  lemma TabulateSnoc(recs: seq<Tune>, ext: seq<Tune>)
    requires |ext| <= 1
    ensures Tabulate(recs + ext) == if |ext| == 0 then Tabulate(recs) else Store(Tabulate(recs), ext[0])
  {
    if |ext| == 0 {
      assert recs + ext == recs;
    } else {
      assert (recs + ext)[..|recs|] == recs;
    }
  }

  /**
   Lines 5-27. With no failure on the way the result is the dictionary of
   the kept records. Otherwise it is the first failure: an exception from
   the cleaner, or the fuel running out.
   */
  method CreateDict(tunes: seq<Tune>, types: seq<string>, meters: seq<string>, modes: seq<string>, checkAbc: bool, fuel: nat)
    returns (r: Created)
    ensures var n := Passing(tunes, types, meters, modes, checkAbc, fuel);
      && (r.Created? <==> n == |tunes|)
      && (r.Created? ==> r.table == Tabulate(Kept(tunes, types, meters, modes, checkAbc, fuel)))
      && (r.Stopped? ==> n < |tunes| && Prepare(tunes[n], types, meters, modes, checkAbc, fuel) == Fail(r.exc))
      && (r.Exhausted? ==> n < |tunes| && Prepare(tunes[n], types, meters, modes, checkAbc, fuel) == NoFuel)
  {
    var tab := EmptyTable;
    var i := 0;
    while i < |tunes|
      invariant i <= |tunes|
      invariant i <= Passing(tunes, types, meters, modes, checkAbc, fuel)
      invariant tab == Tabulate(Kept(tunes[..i], types, meters, modes, checkAbc, fuel))
    {
      var s := Prepare(tunes[i], types, meters, modes, checkAbc, fuel);
      PassingAt(tunes, types, meters, modes, checkAbc, fuel, i);
      if !Passes(s) {
        return if s.Fail? then Stopped(s.exc) else Exhausted;
      }
      KeptStep(tunes, types, meters, modes, checkAbc, fuel, i);
      tab := if s.Keep? then Store(tab, s.record) else tab;
      i := i + 1;
    }
    assert tunes[..i] == tunes;
    r := Created(tab);
  }

  /** Every record Kept lists comes from a tune that passed the filters, with only its text replaced. */
  lemma {:induction false} KeptFrom(tunes: seq<Tune>, types: seq<string>, meters: seq<string>, modes: seq<string>, checkAbc: bool, fuel: nat)
    ensures forall rec :: rec in Kept(tunes, types, meters, modes, checkAbc, fuel) ==>
      exists i :: 0 <= i < |tunes| && Wanted(tunes[i], types, meters, modes) && rec == tunes[i].(abc := rec.abc)
        && Cleaner.Clean(tunes[i].abc, fuel) == Cleaner.Ok(rec.abc)
    decreases |tunes|
  {
    if |tunes| > 0 {
      var p := tunes[..|tunes| - 1];
      KeptFrom(p, types, meters, modes, checkAbc, fuel);
      forall rec | rec in Kept(tunes, types, meters, modes, checkAbc, fuel)
        ensures exists i :: (0 <= i < |tunes| && Wanted(tunes[i], types, meters, modes) && rec == tunes[i].(abc := rec.abc)
          && Cleaner.Clean(tunes[i].abc, fuel) == Cleaner.Ok(rec.abc))
      {
        if rec in Kept(p, types, meters, modes, checkAbc, fuel) {
          var i :| 0 <= i < |p| && Wanted(p[i], types, meters, modes) && rec == p[i].(abc := rec.abc)
            && Cleaner.Clean(p[i].abc, fuel) == Cleaner.Ok(rec.abc);
          assert tunes[i] == p[i];
        } else {
          PrepareMeaning(tunes[|tunes| - 1], types, meters, modes, checkAbc, fuel);
        }
      }
    }
  }

  // ---------------------------------------------------------------------
  // create_dict_list (src/Generation/Generate_Files.py:33-61)
  // ---------------------------------------------------------------------

  /** A tune with its sort key `int(setting)`. */
  datatype Keyed = Keyed(key: int, tune: Tune)

  /** Each key is the setting number of its tune. */
  ghost predicate KeyedRight(ks: seq<Keyed>)
  {
    forall i :: 0 <= i < |ks| ==> IntOf(ks[i].tune.setting) == Value(ks[i].key)
  }

  /** Line 46's key function over every tune: a ValueError as soon as one setting is not a number. */
  function KeyAll(tunes: seq<Tune>): (r: Result<seq<Keyed>>)
    ensures r.Raised? <==> exists i :: 0 <= i < |tunes| && IntOf(tunes[i].setting).Raised?
    ensures r.Raised? ==> r.exc == ValueError
    ensures r.Value? ==> |r.value| == |tunes| && KeyedRight(r.value)
    ensures r.Value? ==> forall i :: 0 <= i < |tunes| ==> r.value[i].tune == tunes[i]
    decreases |tunes|
  {
    if |tunes| == 0 then Value([])
    else
      var p := tunes[..|tunes| - 1];
      var x := tunes[|tunes| - 1];
      match KeyAll(p)
      case Raised(e) =>
        assert IntOf(p[0].setting).Raised? || exists i :: 0 <= i < |p| && IntOf(p[i].setting).Raised?;
        Raised(e)
      case Value(ks) =>
        match IntOf(x.setting)
        case Raised(e) => Raised(e)
        case Value(k) =>
          KeyAllStep(tunes, ks, k);
          Value(ks + [Keyed(k, x)])
  }

  /** Keys for all but the last tune, and a key for the last, key every tune and none of them raises. */
  lemma KeyAllStep(tunes: seq<Tune>, ks: seq<Keyed>, k: int)
    requires |tunes| > 0 && |ks| == |tunes| - 1 && KeyedRight(ks)
    requires forall i :: 0 <= i < |ks| ==> ks[i].tune == tunes[..|tunes| - 1][i]
    requires IntOf(tunes[|tunes| - 1].setting) == Value(k)
    ensures var r := ks + [Keyed(k, tunes[|tunes| - 1])];
      KeyedRight(r) && forall i :: 0 <= i < |tunes| ==> r[i].tune == tunes[i]
    ensures forall i :: 0 <= i < |tunes| ==> IntOf(tunes[i].setting).Value?
  {
    var r := ks + [Keyed(k, tunes[|tunes| - 1])];
    forall i | 0 <= i < |tunes|
      ensures r[i].tune == tunes[i] && IntOf(r[i].tune.setting) == Value(r[i].key)
    {
      if i < |ks| {
        assert tunes[..|tunes| - 1][i] == tunes[i];
      }
    }
  }

  /** Non-increasing keys, as `reverse=True` orders them. */
  ghost predicate Descending(ks: seq<Keyed>)
  {
    forall i, j :: 0 <= i < j < |ks| ==> ks[i].key >= ks[j].key
  }

  /** The entries with key `k`, in order. */
  function WithKey(ks: seq<Keyed>, k: int): seq<Keyed>
    decreases |ks|
  {
    if |ks| == 0 then [] else (if ks[0].key == k then [ks[0]] else []) + WithKey(ks[1..], k)
  }

  /** `x` goes before the first entry whose key is not larger, so it stays ahead of the equal keys after it. */
  function Insert(x: Keyed, ks: seq<Keyed>): (r: seq<Keyed>)
    ensures multiset(r) == multiset(ks) + multiset{x}
    decreases |ks|
  {
    if |ks| == 0 then [x]
    else if ks[0].key <= x.key then [x] + ks
    else
      assert ks == [ks[0]] + ks[1..];
      [ks[0]] + Insert(x, ks[1..])
  }

  /** Inserting a key no larger than a bound into keys no larger than it keeps every key below the bound. */
  lemma {:induction false} InsertBelow(x: Keyed, ks: seq<Keyed>, b: int)
    requires x.key <= b && forall j :: 0 <= j < |ks| ==> ks[j].key <= b
    ensures forall j :: 0 <= j < |Insert(x, ks)| ==> Insert(x, ks)[j].key <= b
    decreases |ks|
  {
    if |ks| > 0 && ks[0].key > x.key {
      InsertBelow(x, ks[1..], b);
    }
  }

  /** Inserting into a descending list keeps it descending. */
  lemma {:induction false} InsertDescending(x: Keyed, ks: seq<Keyed>)
    requires Descending(ks)
    ensures Descending(Insert(x, ks))
    decreases |ks|
  {
    if |ks| > 0 && ks[0].key > x.key {
      var tail := ks[1..];
      InsertDescending(x, tail);
      var r' := Insert(x, tail);
      var r := [ks[0]] + r';
      assert r == Insert(x, ks);
      InsertBelow(x, tail, ks[0].key);
      forall i, j | 0 <= i < j < |r|
        ensures r[i].key >= r[j].key
      {
        if i == 0 {
          assert r[j] == r'[j - 1];
        } else {
          assert r[i] == r'[i - 1] && r[j] == r'[j - 1];
        }
      }
    }
  }

  lemma {:induction false} InsertWithKey(x: Keyed, ks: seq<Keyed>, k: int)
    ensures WithKey(Insert(x, ks), k) == (if x.key == k then [x] else []) + WithKey(ks, k)
    decreases |ks|
  {
    if |ks| == 0 {
    } else if ks[0].key <= x.key {
      WithKeyCons(x, ks, k);
    } else {
      var rest := Insert(x, ks[1..]);
      var h: seq<Keyed> := if ks[0].key == k then [ks[0]] else [];
      var hx: seq<Keyed> := if x.key == k then [x] else [];
      calc {
        WithKey(Insert(x, ks), k);
        { assert Insert(x, ks) == [ks[0]] + rest; }
        WithKey([ks[0]] + rest, k);
        { WithKeyCons(ks[0], rest, k); }
        h + WithKey(rest, k);
        { InsertWithKey(x, ks[1..], k); }
        h + (hx + WithKey(ks[1..], k));
        { assert h == [] || hx == []; }
        hx + (h + WithKey(ks[1..], k));
        { WithKeyCons(ks[0], ks[1..], k); assert [ks[0]] + ks[1..] == ks; }
        hx + WithKey(ks, k);
      }
    }
  }

  lemma WithKeyCons(y: Keyed, rest: seq<Keyed>, k: int)
    ensures WithKey([y] + rest, k) == (if y.key == k then [y] else []) + WithKey(rest, k)
  {
    assert ([y] + rest)[1..] == rest;
  }

  /** `sorted(..., reverse=True)` by the keys: a stable insertion sort. */
  function SortDesc(ks: seq<Keyed>): (r: seq<Keyed>)
    ensures multiset(r) == multiset(ks)
    ensures Descending(r)
    decreases |ks|
  {
    if |ks| == 0 then []
    else
      assert ks == [ks[0]] + ks[1..];
      InsertDescending(ks[0], SortDesc(ks[1..]));
      Insert(ks[0], SortDesc(ks[1..]))
  }

  /** The sort is stable: the entries that share a key keep their input order. */
  lemma {:induction false} SortDescStable(ks: seq<Keyed>, k: int)
    ensures WithKey(SortDesc(ks), k) == WithKey(ks, k)
    decreases |ks|
  {
    if |ks| > 0 {
      SortDescStable(ks[1..], k);
      InsertWithKey(ks[0], SortDesc(ks[1..]), k);
    }
  }

  /** The sort keeps every key right, since it only moves entries. */
  lemma SortKeepsKeys(ks: seq<Keyed>)
    requires KeyedRight(ks)
    ensures KeyedRight(SortDesc(ks))
  {
    var r := SortDesc(ks);
    forall i | 0 <= i < |r|
      ensures IntOf(r[i].tune.setting) == Value(r[i].key)
    {
      assert r[i] in multiset(ks);
      var j :| 0 <= j < |ks| && ks[j] == r[i];
    }
  }

  /** Lines 53-58 for one tune: the record with the cleaned text, or nothing when the cleaner answers `!!BAD ABC!!`. */
  function CleanOne(x: Keyed, types: seq<string>, meters: seq<string>, modes: seq<string>, clean: (string, string) -> string): seq<Keyed>
  {
    if !Wanted(x.tune, types, meters, modes) then []
    else
      var c := clean(x.tune.abc, x.tune.setting);
      if c == Cleaner.Bad then [] else [Keyed(x.key, x.tune.(abc := c))]
  }

  /** Lines 47-58 over the sorted entries. */
  function CleanAll(ks: seq<Keyed>, types: seq<string>, meters: seq<string>, modes: seq<string>, clean: (string, string) -> string): seq<Keyed>
    decreases |ks|
  {
    if |ks| == 0 then []
    else CleanAll(ks[..|ks| - 1], types, meters, modes, clean) + CleanOne(ks[|ks| - 1], types, meters, modes, clean)
  }

  /**
   What the cleaning pass keeps: every entry comes from an input entry
   that passed the filters and whose cleaned text is not the sentinel,
   with the same key and only the text replaced; every such input entry
   is there; and there are never more entries than went in.
   */
  lemma {:induction false} CleanAllSpec(ks: seq<Keyed>, types: seq<string>, meters: seq<string>, modes: seq<string>, clean: (string, string) -> string)
    ensures |CleanAll(ks, types, meters, modes, clean)| <= |ks|
    ensures forall y :: y in CleanAll(ks, types, meters, modes, clean) ==>
      y.tune.abc != Cleaner.Bad
      && exists x :: x in ks && Wanted(x.tune, types, meters, modes) && y == Keyed(x.key, x.tune.(abc := clean(x.tune.abc, x.tune.setting)))
    ensures forall x :: x in ks && Wanted(x.tune, types, meters, modes) && clean(x.tune.abc, x.tune.setting) != Cleaner.Bad ==>
      Keyed(x.key, x.tune.(abc := clean(x.tune.abc, x.tune.setting))) in CleanAll(ks, types, meters, modes, clean)
    decreases |ks|
  {
    if |ks| > 0 {
      var p := ks[..|ks| - 1];
      CleanAllSpec(p, types, meters, modes, clean);
      assert ks == p + [ks[|ks| - 1]];
    }
  }

  /** The cleaning pass only drops entries, so a descending order stays descending. */
  lemma {:induction false} CleanAllDescending(ks: seq<Keyed>, types: seq<string>, meters: seq<string>, modes: seq<string>, clean: (string, string) -> string)
    requires Descending(ks)
    ensures Descending(CleanAll(ks, types, meters, modes, clean))
    decreases |ks|
  {
    if |ks| > 0 {
      var p := ks[..|ks| - 1];
      var x := ks[|ks| - 1];
      CleanAllDescending(p, types, meters, modes, clean);
      CleanAllSpec(p, types, meters, modes, clean);
      var a := CleanAll(p, types, meters, modes, clean);
      var b := CleanOne(x, types, meters, modes, clean);
      assert forall y :: y in a ==> y.key >= x.key by {
        forall y | y in a
          ensures y.key >= x.key
        {
          var z :| z in p && y.key == z.key;
          var j :| 0 <= j < |p| && p[j] == z;
          assert ks[j] == z;
        }
      }
      assert forall y :: y in b ==> y.key == x.key;
      var r := a + b;
      forall i, j | 0 <= i < j < |r|
        ensures r[i].key >= r[j].key
      {
        if j >= |a| {
          assert r[j] in b;
          if i < |a| {
            assert r[i] in a;
          }
        }
      }
    }
  }

  lemma {:induction false} CleanAllKeyed(ks: seq<Keyed>, types: seq<string>, meters: seq<string>, modes: seq<string>, clean: (string, string) -> string)
    requires KeyedRight(ks)
    ensures KeyedRight(CleanAll(ks, types, meters, modes, clean))
    decreases |ks|
  {
    if |ks| > 0 {
      var p := ks[..|ks| - 1];
      CleanAllKeyed(p, types, meters, modes, clean);
      var a := CleanAll(p, types, meters, modes, clean);
      var r := a + CleanOne(ks[|ks| - 1], types, meters, modes, clean);
      forall i | 0 <= i < |r|
        ensures IntOf(r[i].tune.setting) == Value(r[i].key)
      {
        if i < |a| {
          assert r[i] == a[i];
        }
      }
    }
  }

  function Tunes(ks: seq<Keyed>): (ts: seq<Tune>)
    ensures |ts| == |ks| && forall i :: 0 <= i < |ks| ==> ts[i] == ks[i].tune
  {
    seq(|ks|, i requires 0 <= i < |ks| => ks[i].tune)
  }

  /** The tunes of create_dict_list, before the cleaning pass: sorted by decreasing setting number. */
  function Ordered(tunes: seq<Tune>): seq<Keyed>
    requires KeyAll(tunes).Value?
  {
    SortDesc(KeyAll(tunes).value)
  }

  /** The loop of lines 47-58. */
  method CleanLoop(sorted: seq<Keyed>, types: seq<string>, meters: seq<string>, modes: seq<string>, clean: (string, string) -> string)
    returns (cleaned: seq<Keyed>)
    ensures cleaned == CleanAll(sorted, types, meters, modes, clean)
  {
    cleaned := [];
    var i := 0;
    while i < |sorted|
      invariant i <= |sorted|
      invariant cleaned == CleanAll(sorted[..i], types, meters, modes, clean)
    {
      assert sorted[..i + 1][..i] == sorted[..i];
      cleaned := cleaned + CleanOne(sorted[i], types, meters, modes, clean);
      i := i + 1;
    }
    assert sorted[..i] == sorted;
  }

  /** The cleaned tunes of a sorted, rightly keyed list: no more of them, none the sentinel, settings non-increasing. */
  lemma CleanedTunes(sorted: seq<Keyed>, types: seq<string>, meters: seq<string>, modes: seq<string>, clean: (string, string) -> string)
    requires Descending(sorted) && KeyedRight(sorted)
    ensures |CleanAll(sorted, types, meters, modes, clean)| <= |sorted|
    ensures SettingsDescending(Tunes(CleanAll(sorted, types, meters, modes, clean)))
    ensures forall i :: 0 <= i < |CleanAll(sorted, types, meters, modes, clean)| ==>
      CleanAll(sorted, types, meters, modes, clean)[i].tune.abc != Cleaner.Bad
  {
    var cleaned := CleanAll(sorted, types, meters, modes, clean);
    CleanAllSpec(sorted, types, meters, modes, clean);
    CleanAllDescending(sorted, types, meters, modes, clean);
    CleanAllKeyed(sorted, types, meters, modes, clean);
    forall i | 0 <= i < |cleaned|
      ensures cleaned[i].tune.abc != Cleaner.Bad
    {
      assert cleaned[i] in cleaned;
    }
  }

  /** Setting numbers that never increase along the list. */
  predicate SettingsDescending(out: seq<Tune>)
  {
    forall i, j :: 0 <= i < j < |out| ==>
      IntOf(out[i].setting).Value? && IntOf(out[j].setting).Value?
      && IntOf(out[i].setting).value >= IntOf(out[j].setting).value
  }

  /**
   Lines 33-61. A setting that is not a number raises a ValueError in the
   sort. Otherwise the result lists the cleaned tunes in decreasing setting
   order, none of them the sentinel, ties in input order.
   */
  method CreateDictList(tunes: seq<Tune>, types: seq<string>, meters: seq<string>, modes: seq<string>, clean: (string, string) -> string)
    returns (r: Result<seq<Tune>>)
    ensures r.Raised? <==> exists i :: 0 <= i < |tunes| && IntOf(tunes[i].setting).Raised?
    ensures r.Raised? ==> r.exc == ValueError
    ensures r.Value? ==> KeyAll(tunes).Value? && r.value == Tunes(CleanAll(Ordered(tunes), types, meters, modes, clean))
    ensures r.Value? ==> |r.value| <= |tunes|
    ensures r.Value? ==> forall i :: 0 <= i < |r.value| ==> r.value[i].abc != Cleaner.Bad
    ensures r.Value? ==> SettingsDescending(r.value)
  {
    var keyed := KeyAll(tunes);
    if keyed.Raised? {
      return Raised(keyed.exc);
    }
    var sorted := SortDesc(keyed.value);
    SortKeepsKeys(keyed.value);
    var cleaned := CleanLoop(sorted, types, meters, modes, clean);
    CleanedTunes(sorted, types, meters, modes, clean);
    assert |sorted| == |tunes| by {
      assert |multiset(sorted)| == |multiset(keyed.value)|;
    }
    assert sorted == Ordered(tunes);
    r := Value(Tunes(cleaned));
  }
}
