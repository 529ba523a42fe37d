/**
 The two index-walking loops of `remove_dual_repeat`
 (PreProcessing/Cleaner.py:116-143), which decide where a second ending
 stops.

 A "bar" here is a maximal run of `|` characters.  The first loop counts
 the runs inside the first ending, between `|1` and `:|2`. The second loop
 walks past the same number of runs after `:|2`.  `RunsIn` is the
 independent count both loops are specified against.
 */
module BarWalk {
  import opened PyStr

  /** Position `k` of `s` opens a run of `|` characters. */
  predicate OpensRun(s: string, k: nat)
    requires k < |s|
  {
    s[k] == '|' && (k == 0 || s[k - 1] != '|')
  }

  /** The number of runs of `|` that open at positions `lo` to `hi - 1`. */
  function RunsIn(s: string, lo: nat, hi: nat): nat
    requires hi <= |s|
    decreases hi - lo
  {
    if lo >= hi then 0 else (if OpensRun(s, lo) then 1 else 0) + RunsIn(s, lo + 1, hi)
  }

  lemma {:induction false} RunsSplit(s: string, lo: nat, mid: nat, hi: nat)
    requires lo <= mid <= hi <= |s|
    ensures RunsIn(s, lo, hi) == RunsIn(s, lo, mid) + RunsIn(s, mid, hi)
    decreases mid - lo
  {
    if lo < mid {
      RunsSplit(s, lo + 1, mid, hi);
    }
  }

  /** Inside a run of `|`, and at the character that ends it, no run opens. */
  lemma {:induction false} NoRunOpensInside(s: string, lo: nat, hi: nat)
    requires 0 < lo <= hi <= |s|
    requires forall j :: lo - 1 <= j < hi - 1 ==> s[j] == '|'
    ensures RunsIn(s, lo, hi) == 0
    decreases hi - lo
  {
    if lo < hi {
      NoRunOpensInside(s, lo + 1, hi);
    }
  }

  /**
   The inner loop at lines 126-127: the first position at or after `k`
   that is not `|`. `None` stands for the IndexError raised when the run
   reaches the end of the text.
   */
  function SkipBars(s: string, k: nat): (r: Option<nat>)
    ensures r.Some? ==> k <= r.value < |s| && s[r.value] != '|'
    ensures r.Some? ==> forall j :: k <= j < r.value ==> s[j] == '|'
    ensures r.None? ==> forall j :: k <= j < |s| ==> s[j] == '|'
    decreases |s| - k
  {
    if k >= |s| then None
    else if s[k] != '|' then Some(k)
    else SkipBars(s, k + 1)
  }

  /**
   The first loop, lines 121-128: starting from `loc1`, counts the runs of
   `|` met before `loc2` is passed. `None` stands for an IndexError.
   */
  function CountFirstEnding(s: string, loc1: nat, loc2: nat, bars: nat): (r: Option<nat>)
    requires loc1 < |s|
    decreases |s| - loc1
  {
    if loc1 >= loc2 then Some(bars)
    else if loc1 + 1 >= |s| then None
    else if s[loc1 + 1] != '|' then CountFirstEnding(s, loc1 + 1, loc2, bars)
    else
      match SkipBars(s, loc1 + 1)
      case None => None
      case Some(e) => CountFirstEnding(s, e, loc2, bars + 1)
  }

  /**
   When neither `loc1` nor `loc2` is a `|`, the first loop never fails.
   It adds exactly the runs opening strictly after `loc1` and up to `loc2`.
   */
  lemma {:induction false} CountFirstEndingRuns(s: string, loc1: nat, loc2: nat, bars: nat)
    requires loc1 < |s| && loc2 < |s|
    requires s[loc1] != '|' && s[loc2] != '|'
    ensures CountFirstEnding(s, loc1, loc2, bars) == Some(bars + RunsIn(s, loc1 + 1, loc2 + 1))
    decreases |s| - loc1
  {
    if loc1 < loc2 {
      if s[loc1 + 1] != '|' {
        CountFirstEndingRuns(s, loc1 + 1, loc2, bars);
      } else {
        var e := SkipBars(s, loc1 + 1).value;
        assert loc1 + 1 < e <= loc2;
        RunsSplit(s, loc1 + 2, e + 1, loc2 + 1);
        NoRunOpensInside(s, loc1 + 2, e + 1);
        CountFirstEndingRuns(s, e, loc2, bars + 1);
      }
    }
  }

  /**
   The inner loop at lines 136-138: the first position at or after `k`
   that is not `|`, or the length of the text if there is none.
   */
  function SkipBarsToEnd(s: string, k: nat): (r: nat)
    requires k <= |s|
    ensures k <= r <= |s|
    ensures r < |s| ==> s[r] != '|'
    ensures forall j :: k <= j < r ==> s[j] == '|'
    decreases |s| - k
  {
    if k >= |s| || s[k] != '|' then k else SkipBarsToEnd(s, k + 1)
  }

  /**
   The second loop, lines 130-139: walks from `fin` past `bars` runs of
   `|`. It stops at the end of the text if that comes first.
   */
  function FindSecondEnding(s: string, fin: nat, bars: nat): (r: nat)
    requires fin <= |s|
    ensures fin <= r <= |s| + 1
    ensures bars > 0 ==> fin < r
    decreases |s| - fin
  {
    if bars == 0 then fin
    else if fin + 1 >= |s| then fin + 1
    else if s[fin + 1] != '|' then FindSecondEnding(s, fin + 1, bars)
    else FindSecondEnding(s, SkipBarsToEnd(s, fin + 1), bars - 1)
  }

  /**
   What the second loop guarantees once it stops at `r`. If `r` is inside
   the text, it is the character just after the `bars`-th run of `|` that
   opens after `fin`. In any case the loop never passes more runs than that.
   */
  ghost predicate SpansRuns(s: string, fin: nat, bars: nat, r: nat)
    requires fin < |s|
  {
    (r < |s| ==> RunsIn(s, fin + 1, r + 1) == bars && (bars > 0 ==> 0 < r && s[r - 1] == '|') && s[r] != '|')
    && RunsIn(s, fin + 1, if r < |s| then r + 1 else |s|) <= bars
  }

  lemma {:induction false} FindSecondEndingRuns(s: string, fin: nat, bars: nat)
    requires fin < |s| && s[fin] != '|'
    ensures SpansRuns(s, fin, bars, FindSecondEnding(s, fin, bars))
    decreases |s| - fin, 1
  {
    if bars > 0 && fin + 1 < |s| {
      if s[fin + 1] != '|' {
        FindSecondEndingRuns(s, fin + 1, bars);
      } else {
        SecondEndingAfterRun(s, fin, bars);
      }
    }
  }

  /** The step of `FindSecondEndingRuns` where a run of `|` opens right after `fin`. */
  lemma {:induction false} SecondEndingAfterRun(s: string, fin: nat, bars: nat)
    requires fin + 1 < |s| && s[fin] != '|' && s[fin + 1] == '|' && bars > 0
    ensures SpansRuns(s, fin, bars, FindSecondEnding(s, fin, bars))
    decreases |s| - fin, 0
  {
    var r := FindSecondEnding(s, fin, bars);
    var e := SkipBarsToEnd(s, fin + 1);
    assert r == FindSecondEnding(s, e, bars - 1);
    NoRunOpensInside(s, fin + 2, e);
    if e < |s| {
      NoRunOpensInside(s, fin + 2, e + 1);
      assert RunsIn(s, fin + 1, e + 1) == 1;
      FindSecondEndingRuns(s, e, bars - 1);
      if r < |s| {
        RunsSplit(s, fin + 1, e + 1, r + 1);
      } else {
        RunsSplit(s, fin + 1, e + 1, |s|);
      }
    } else {
      assert RunsIn(s, fin + 1, |s|) == 1;
    }
  }

  /**
   The cut made at lines 117-140. The second ending, which starts at
   `loc2`, spans as many runs of `|` as the first ending does, from
   `loc1` to `loc2`. The exception is when the text ends first.
   */
  lemma SecondEndingMirrorsFirst(s: string, loc1: nat, loc2: nat)
    requires loc1 < |s| && loc2 < |s|
    requires s[loc1] != '|' && s[loc2] != '|'
    ensures CountFirstEnding(s, loc1, loc2, 0).Some?
    ensures var bars := CountFirstEnding(s, loc1, loc2, 0).value;
      var r := FindSecondEnding(s, loc2, bars);
      bars == RunsIn(s, loc1 + 1, loc2 + 1) && (r < |s| ==> RunsIn(s, loc2 + 1, r + 1) == bars)
  {
    CountFirstEndingRuns(s, loc1, loc2, 0);
    var bars := CountFirstEnding(s, loc1, loc2, 0).value;
    FindSecondEndingRuns(s, loc2, bars);
    assert SpansRuns(s, loc2, bars, FindSecondEnding(s, loc2, bars));
  }
}
