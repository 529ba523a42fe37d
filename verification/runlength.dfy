/**
 Maximal runs of equal values, the structure behind the run-length loops
 of the decoders: `decode_song` and `parse_raw_abc` at
 src/Generation/Decoding/Decoding.py:77-87 and 117-131.
 */
module RunLength {
  import opened PyStr

  /** Every element of `run` equals its first. */
  predicate Constant<T(==)>(run: seq<T>)
  {
    |run| > 0 && forall i :: 0 <= i < |run| ==> run[i] == run[0]
  }

  function Last<T>(xs: seq<T>): T
    requires |xs| > 0
  {
    xs[|xs| - 1]
  }

  /** All but the last element: the runs a scan has emitted when the input ends. */
  function AllButLast<T>(xs: seq<T>): seq<T>
    requires |xs| > 0
  {
    xs[..|xs| - 1]
  }

  /**
   The maximal runs of `s`, built left to right as a scan sees them: each
   element either extends the current run or opens a new one.
   */
  function RunsOf<T(==)>(s: seq<T>): (r: seq<seq<T>>)
    ensures |r| <= |s| && (|r| == 0 <==> |s| == 0)
    ensures forall k :: 0 <= k < |r| ==> r[k] != []
    decreases |s|
  {
    if |s| == 0 then []
    else
      var r := RunsOf(s[..|s| - 1]);
      var x := s[|s| - 1];
      if |r| > 0 && Last(r)[0] == x then AllButLast(r) + [Last(r) + [x]] else r + [[x]]
  }

  /** Adding one element to the input either extends the last run or opens a new one. */
  lemma RunsOfSnoc<T>(s: seq<T>, x: T)
    ensures var r := RunsOf(s);
      RunsOf(s + [x]) == if |r| > 0 && Last(r)[0] == x then AllButLast(r) + [Last(r) + [x]] else r + [[x]]
  {
    assert (s + [x])[..|s|] == s;
  }

  /** Consecutive runs hold different values. */
  predicate Alternate<T(==)>(r: seq<seq<T>>)
    requires forall k :: 0 <= k < |r| ==> r[k] != []
  {
    forall k :: 0 < k < |r| ==> r[k][0] != r[k - 1][0]
  }

  /** Opening a new piece or extending the last one adds the element at the end of the concatenation. */
  lemma ExtendConcat<T>(r: seq<seq<T>>, y: T, open: bool)
    requires open || |r| > 0
    ensures var r' := if open then r + [[y]] else AllButLast(r) + [Last(r) + [y]];
      Concat(r') == Concat(r) + [y]
  {
    if open {
      ConcatSnoc(r, [y]);
    } else {
      assert r == AllButLast(r) + [Last(r)];
      ConcatSnoc(AllButLast(r), Last(r));
      ConcatSnoc(AllButLast(r), Last(r) + [y]);
    }
  }

  /** The runs concatenate back to the input. */
  lemma {:induction false} RunsOfConcat<T>(s: seq<T>)
    ensures Concat(RunsOf(s)) == s
    decreases |s|
  {
    if |s| > 0 {
      var p := s[..|s| - 1];
      var x := s[|s| - 1];
      var r := RunsOf(p);
      RunsOfConcat(p);
      assert s == p + [x];
      ExtendConcat(r, x, !(|r| > 0 && Last(r)[0] == x));
    }
  }

  /** Each run repeats one value. */
  lemma {:induction false} RunsOfConstant<T>(s: seq<T>)
    ensures forall k :: 0 <= k < |RunsOf(s)| ==> Constant(RunsOf(s)[k])
    decreases |s|
  {
    if |s| > 0 {
      var p := s[..|s| - 1];
      var x := s[|s| - 1];
      var r := RunsOf(p);
      RunsOfConstant(p);
      if |r| > 0 && Last(r)[0] == x {
        var r' := AllButLast(r) + [Last(r) + [x]];
        assert Constant(Last(r));
        forall k | 0 <= k < |r'| ensures Constant(r'[k]) {
          if k < |r'| - 1 {
            assert r'[k] == r[k];
          }
        }
      } else {
        var r' := r + [[x]];
        forall k | 0 <= k < |r'| ensures Constant(r'[k]) {
          if k < |r| {
            assert r'[k] == r[k];
          }
        }
      }
    }
  }

  /** Neighbouring runs differ, so no run could be longer. */
  lemma {:induction false} RunsOfAlternate<T>(s: seq<T>)
    ensures Alternate(RunsOf(s))
    decreases |s|
  {
    if |s| > 0 {
      var p := s[..|s| - 1];
      var x := s[|s| - 1];
      var r := RunsOf(p);
      RunsOfAlternate(p);
      if |r| > 0 && Last(r)[0] == x {
        var r' := AllButLast(r) + [Last(r) + [x]];
        assert forall k :: 0 <= k < |r'| ==> r'[k][0] == r[k][0];
      } else {
        var r' := r + [[x]];
        assert forall k :: 0 <= k < |r| ==> r'[k] == r[k];
      }
    }
  }

  /**
   A scan that emits a run only when a different value arrives leaves the
   last run unemitted: the emitted runs are maximal, and they and the last
   run make up the whole input.
   */
  lemma EmittedRuns<T>(s: seq<T>)
    requires |s| > 0
    ensures var e := AllButLast(RunsOf(s));
      (forall k :: 0 <= k < |e| ==> Constant(e[k]))
      && Alternate(e)
      && Concat(e) + Last(RunsOf(s)) == s
      && Constant(Last(RunsOf(s)))
      && (|e| > 0 ==> Last(e)[0] != Last(RunsOf(s))[0])
  {
    var r := RunsOf(s);
    RunsOfConcat(s);
    RunsOfConstant(s);
    RunsOfAlternate(s);
    assert r == AllButLast(r) + [Last(r)];
    ConcatSnoc(AllButLast(r), Last(r));
  }
}
