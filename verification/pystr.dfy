/**
 Exact models of the Python `str` operations the ABC cleaner is built from:
 `p in s`, `s.find(p)` / `s.index(p)`, `s.count(p)`, `s.split(p)`,
 `sep.join(xs)`, `s.replace(p, q)` (all leftmost and non-overlapping),
 clamped slicing, `''.join(s.split())` and deleting one character.
 `Exception` and `Result` stand for the Python errors the modelled code
 can raise.

 Strings are `seq<char>`.  The occurrence predicate `OccursAt` is the
 independent reference every scanning function is specified against.
 */
module PyStr {

  datatype Option<T> = None | Some(value: T)

  /** The Python exceptions the modelled code can raise. */
  datatype Exception = IndexError | ValueError | KeyError | ZeroDivisionError | AttributeError | UnboundLocalError

  /** A Python call that either returns a value or raises. */
  datatype Result<T> = Value(value: T) | Raised(exc: Exception)

  /** The double quotation mark, character 34. */
  const Quote: char := 34 as char

  /** The backslash, character 92. */
  const Backslash: char := 92 as char

  /** `p` occurs in `s` starting at index `i`. */
  ghost predicate OccursAt(s: string, p: string, i: int)
  {
    0 <= i && i + |p| <= |s| && s[i..i + |p|] == p
  }

  /** `s.startswith(p)`, written character by character. */
  predicate StartsWith(s: string, p: string)
    decreases |p|
  {
    |p| == 0 || (|s| > 0 && s[0] == p[0] && StartsWith(s[1..], p[1..]))
  }

  lemma {:induction false} StartsWithIsPrefix(s: string, p: string)
    ensures StartsWith(s, p) <==> |p| <= |s| && s[..|p|] == p
    decreases |p|
  {
    if |p| > 0 && |s| > 0 {
      StartsWithIsPrefix(s[1..], p[1..]);
      if |p| <= |s| && s[..|p|] == p {
        assert s[1..][..|p| - 1] == s[..|p|][1..];
      }
      if StartsWith(s, p) {
        assert s[..|p|] == [s[0]] + s[1..][..|p| - 1];
        assert p == [p[0]] + p[1..];
      }
    }
  }

  lemma OccursAtShift(s: string, p: string, j: nat)
    requires |s| > 0
    ensures OccursAt(s, p, j + 1) <==> OccursAt(s[1..], p, j)
  {
    if j + 1 + |p| <= |s| {
      assert s[j + 1..j + 1 + |p|] == s[1..][j..j + |p|];
    }
  }

  /** `s.find(p)`: the leftmost occurrence of `p` in `s`, if any. */
  function Find(s: string, p: string): (r: Option<nat>)
    ensures r.Some? ==> r.value + |p| <= |s|
    decreases |s|
  {
    if |s| < |p| then None
    else if StartsWith(s, p) then Some(0)
    else
      match Find(s[1..], p)
      case None => None
      case Some(i) => Some(i + 1)
  }

  /** `Find` returns the leftmost occurrence, and `None` only when there is none. */
  lemma {:induction false} FindSpec(s: string, p: string)
    ensures var r := Find(s, p);
      (r.Some? ==> OccursAt(s, p, r.value) && forall j :: 0 <= j < r.value ==> !OccursAt(s, p, j))
      && (r.None? ==> forall j :: !OccursAt(s, p, j))
    decreases |s|
  {
    StartsWithIsPrefix(s, p);
    if |s| >= |p| && !StartsWith(s, p) {
      FindSpec(s[1..], p);
      forall j: nat ensures OccursAt(s, p, j + 1) <==> OccursAt(s[1..], p, j) {
        OccursAtShift(s, p, j);
      }
      assert !OccursAt(s, p, 0);
      assert forall j :: OccursAt(s, p, j) ==> j >= 1 && OccursAt(s[1..], p, j - 1);
    }
  }

  /** Python's `p in s`. */
  predicate Contains(s: string, p: string)
  {
    Find(s, p).Some?
  }

  lemma ContainsIff(s: string, p: string)
    ensures Contains(s, p) <==> exists i :: OccursAt(s, p, i)
  {
    FindSpec(s, p);
    if Contains(s, p) {
      assert OccursAt(s, p, Find(s, p).value);
    }
  }

  /** For a one-character pattern, `[c] in s` is plain membership. */
  lemma ContainsChar(s: string, c: char)
    ensures Contains(s, [c]) <==> c in s
  {
    FindSpec(s, [c]);
    if c in s {
      var i :| 0 <= i < |s| && s[i] == c;
      assert s[i..i + 1] == [c];
      assert OccursAt(s, [c], i);
    }
    if Contains(s, [c]) {
      var i := Find(s, [c]).value;
      assert s[i..i + 1] == [c];
      assert s[i] == c;
    }
  }

  /** `s.count(p)`: leftmost, non-overlapping occurrences. */
  function Count(s: string, p: string): (n: nat)
    requires |p| > 0
    ensures n == 0 <==> !Contains(s, p)
    decreases |s|
  {
    match Find(s, p)
    case None => 0
    case Some(i) => 1 + Count(s[i + |p|..], p)
  }

  /** `sep.join(xs)`. */
  function Join(xs: seq<string>, sep: string): (r: string)
    requires |xs| > 0
    decreases |xs|
  {
    if |xs| == 1 then xs[0] else xs[0] + sep + Join(xs[1..], sep)
  }

  lemma {:induction false} JoinLength(xs: seq<string>, sep: string)
    requires |xs| > 0
    ensures |Join(xs, sep)| == SumLengths(xs) + (|xs| - 1) * |sep|
    decreases |xs|
  {
    if |xs| > 1 {
      JoinLength(xs[1..], sep);
    }
  }

  function SumLengths(xs: seq<string>): nat
    decreases |xs|
  {
    if |xs| == 0 then 0 else |xs[0]| + SumLengths(xs[1..])
  }

  /** `s.split(p)`: the pieces between leftmost, non-overlapping occurrences. */
  function Split(s: string, p: string): (r: seq<string>)
    requires |p| > 0
    ensures |r| == Count(s, p) + 1
    decreases |s|
  {
    match Find(s, p)
    case None => [s]
    case Some(i) => [s[..i]] + Split(s[i + |p|..], p)
  }

  /** The pieces of `Split` join back to the text, and none contains the separator. */
  lemma {:induction false} SplitSpec(s: string, p: string)
    requires |p| > 0
    ensures Join(Split(s, p), p) == s
    ensures forall k :: 0 <= k < |Split(s, p)| ==> !Contains(Split(s, p)[k], p)
    decreases |s|
  {
    match Find(s, p)
    case None =>
    case Some(i) =>
      SplitSpec(s[i + |p|..], p);
      BeforeFirstLacks(s, p, i);
      SplitUnfold(s, p, i);
  }

  /** One step of `Split`: the piece before the leftmost occurrence, then the split of the rest. */
  lemma SplitUnfold(s: string, p: string, i: nat)
    requires |p| > 0 && Find(s, p) == Some(i)
    ensures s == s[..i] + p + s[i + |p|..]
    ensures Split(s, p) == [s[..i]] + Split(s[i + |p|..], p)
  {
    FindSpec(s, p);
    assert s[i..i + |p|] == p;
  }

  /** The text before the leftmost occurrence does not contain the pattern. */
  lemma BeforeFirstLacks(s: string, p: string, i: nat)
    requires |p| > 0 && Find(s, p) == Some(i)
    ensures !Contains(s[..i], p)
  {
    var t := s[..i];
    FindSpec(s, p);
    forall j: nat ensures !OccursAt(t, p, j) {
      if j + |p| <= i {
        assert t[j..j + |p|] == s[j..j + |p|];
        assert j < i;
        assert !OccursAt(s, p, j);
      }
    }
    ContainsIff(t, p);
  }

  /** `sep.join(xs)` for a possibly empty list. */
  function JoinAll(xs: seq<string>, sep: string): (r: string)
  {
    if |xs| == 0 then "" else Join(xs, sep)
  }

  /** `s.replace(p, q)`: every leftmost, non-overlapping `p` becomes `q`. */
  function Replace(s: string, p: string, q: string): (r: string)
    requires |p| > 0
  {
    Join(Split(s, p), q)
  }

  lemma SplitLengths(s: string, p: string)
    requires |p| > 0
    ensures SumLengths(Split(s, p)) + Count(s, p) * |p| == |s|
  {
    var xs := Split(s, p);
    SplitSpec(s, p);
    JoinLength(xs, p);
  }

  lemma ReplaceLength(s: string, p: string, q: string)
    requires |p| > 0
    ensures |Replace(s, p, q)| == |s| - Count(s, p) * |p| + Count(s, p) * |q|
  {
    SplitLengths(s, p);
    JoinLength(Split(s, p), q);
  }

  /** Replacing a pattern that does not occur changes nothing. */
  lemma ReplaceAbsent(s: string, p: string, q: string)
    requires |p| > 0 && !Contains(s, p)
    ensures Replace(s, p, q) == s
  {
    assert Split(s, p) == [s];
  }

  lemma {:induction false} JoinNoChar(xs: seq<string>, sep: string, c: char)
    requires |xs| > 0
    requires c !in sep
    requires forall k :: 0 <= k < |xs| ==> c !in xs[k]
    ensures c !in Join(xs, sep)
    decreases |xs|
  {
    if |xs| > 1 {
      JoinNoChar(xs[1..], sep, c);
    }
  }

  /** A character absent from the text and from the replacement stays absent. */
  lemma ReplaceNoChar(s: string, p: string, q: string, c: char)
    requires |p| > 0 && c !in s && c !in q
    ensures c !in Replace(s, p, q)
  {
    var xs := Split(s, p);
    SplitSpec(s, p);
    forall k | 0 <= k < |xs| ensures c !in xs[k] {
      JoinPieceIn(xs, p, k);
    }
    JoinNoChar(xs, q, c);
  }

  /** Every character of `s.replace(p, q)` comes from `s` or from `q`. */
  lemma ReplaceCharsFrom(s: string, p: string, q: string)
    requires |p| > 0
    ensures forall c :: c in Replace(s, p, q) ==> c in s || c in q
  {
    forall c | c in Replace(s, p, q) && c !in q ensures c in s {
      ReplacedCharOrigin(s, p, q, c);
    }
  }

  lemma ReplacedCharOrigin(s: string, p: string, q: string, c: char)
    requires |p| > 0 && c in Replace(s, p, q) && c !in q
    ensures c in s
  {
    if c !in s {
      ReplaceNoChar(s, p, q, c);
    }
  }

  /** Deleting every occurrence of a one-character pattern removes that character. */
  lemma DeleteChar(s: string, c: char)
    ensures c !in Replace(s, [c], "")
  {
    var xs := Split(s, [c]);
    SplitSpec(s, [c]);
    forall k | 0 <= k < |xs| ensures c !in xs[k] {
      ContainsChar(xs[k], c);
    }
    JoinNoChar(xs, "", c);
  }

  /** Every piece of a join is a contiguous part of it. */
  lemma {:induction false} JoinPieceIn(xs: seq<string>, sep: string, k: nat)
    requires 0 <= k < |xs|
    ensures forall c :: c in xs[k] ==> c in Join(xs, sep)
    decreases |xs|
  {
    if |xs| > 1 && k > 0 {
      JoinPieceIn(xs[1..], sep, k - 1);
    }
  }

  /** Replacing a present pattern by a shorter one shortens the text. */
  lemma ReplaceShrinks(s: string, p: string, q: string)
    requires |q| < |p| && Contains(s, p)
    ensures |Replace(s, p, q)| < |s|
  {
    ReplaceLength(s, p, q);
    FewerAfterReplace(|s|, Count(s, p), |p|, |q|, |Replace(s, p, q)|);
  }

  lemma FewerAfterReplace(ls: int, n: int, lp: int, lq: int, lr: int)
    requires n >= 1 && lq < lp && lr == ls - n * lp + n * lq
    ensures lr < ls
  {
    assert n * lp - n * lq == n * (lp - lq);
    MulAtLeast(n, lp - lq);
  }

  lemma MulAtLeast(n: int, d: int)
    requires n >= 1 && d >= 1
    ensures n * d >= d
    decreases n
  {
    if n > 1 {
      MulAtLeast(n - 1, d);
      assert n * d == (n - 1) * d + d;
    }
  }

  /** Repeats `s.replace(p, q)` while `p in s`, as the cleaner's `while` loops do. */
  function Collapse(s: string, p: string, q: string): (r: string)
    requires |q| < |p|
    ensures !Contains(r, p)
    ensures |r| <= |s|
    decreases |s|
  {
    if Contains(s, p) then
      ReplaceShrinks(s, p, q);
      Collapse(Replace(s, p, q), p, q)
    else s
  }

  /** An occurrence inside the slice `s[lo..hi]` is an occurrence in `s`, shifted by `lo`. */
  lemma OccursInPart(s: string, lo: nat, hi: nat, t: string, i: nat)
    requires lo <= hi <= |s| && lo + i + |t| <= hi
    ensures OccursAt(s[lo..hi], t, i) <==> OccursAt(s, t, lo + i)
  {
    var a, b := s[lo..hi][i..i + |t|], s[lo + i..lo + i + |t|];
    forall k | 0 <= k < |t| ensures a[k] == b[k] {
      assert a[k] == s[lo + i + k];
    }
    assert a == b;
  }

  /** Every character covered by an occurrence of `t` is a character of `t`. */
  lemma CoveredChar(s: string, t: string, i: nat, m: nat)
    requires OccursAt(s, t, i) && i <= m < i + |t|
    ensures s[m] in t
  {
    assert s[i..i + |t|][m - i] == s[m];
  }

  /** No occurrence of `t` can overlap a part of the text made of characters foreign to `t`. */
  lemma NoStraddle(s: string, lo: nat, hi: nat, t: string, i: nat)
    requires lo < hi <= |s|
    requires forall c :: c in t ==> c !in s[lo..hi]
    requires |t| > 0 && i < hi && lo < i + |t|
    ensures !OccursAt(s, t, i)
  {
    if OccursAt(s, t, i) {
      var m := if i >= lo then i else lo;
      CoveredChar(s, t, i, m);
    }
  }

  /**
   An occurrence of `t` in `x + y + z` lies wholly inside `x` or wholly inside
   `z` when the middle part is non-empty and shares no character with `t`.
   */
  lemma ContainsAcross(x: string, y: string, z: string, t: string)
    requires |y| > 0
    requires forall c :: c in t ==> c !in y
    ensures Contains(x + y + z, t) <==> Contains(x, t) || Contains(z, t)
  {
    var s := x + y + z;
    var lo, hi := |x|, |x| + |y|;
    assert s[..lo] == x && s[lo..hi] == y && s[hi..|s|] == z;
    ContainsIff(s, t);
    ContainsIff(x, t);
    ContainsIff(z, t);
    if Contains(s, t) {
      var i: nat :| OccursAt(s, t, i);
      if i + |t| <= lo {
        OccursInPart(s, 0, lo, t, i);
      } else if i >= hi {
        OccursInPart(s, hi, |s|, t, i - hi);
      } else if |t| > 0 {
        NoStraddle(s, lo, hi, t, i);
      } else {
        assert OccursAt(x, t, 0);
      }
    }
    if Contains(x, t) {
      var i: nat :| OccursAt(x, t, i);
      OccursInPart(s, 0, lo, t, i);
    }
    if Contains(z, t) {
      var j: nat :| OccursAt(z, t, j);
      OccursInPart(s, hi, |s|, t, j);
    }
  }

  /** Replacing `p` by a non-empty `q` neither creates nor destroys a pattern `t` unrelated to both. */
  lemma {:induction false} ReplaceKeepsPattern(s: string, p: string, q: string, t: string)
    requires |p| > 0 && |q| > 0
    requires forall c :: c in t ==> c !in p && c !in q
    ensures Contains(Replace(s, p, q), t) <==> Contains(s, t)
    decreases |s|
  {
    match Find(s, p)
    case None =>
      ReplaceAbsent(s, p, q);
    case Some(i) =>
      SplitUnfold(s, p, i);
      var a := s[..i];
      var b := s[i + |p|..];
      var rest := Split(b, p);
      assert Replace(s, p, q) == a + q + Replace(b, p, q) by {
        assert ([a] + rest)[1..] == rest;
      }
      ReplaceKeepsPattern(b, p, q, t);
      ContainsAcross(a, q, Replace(b, p, q), t);
      ContainsAcross(a, p, b, t);
  }

  /** `Collapse` keeps exactly the occurrences of patterns unrelated to `p` and `q`. */
  lemma {:induction false} CollapseKeepsPattern(s: string, p: string, q: string, t: string)
    requires 0 < |q| < |p|
    requires forall c :: c in t ==> c !in p && c !in q
    ensures Contains(Collapse(s, p, q), t) <==> Contains(s, t)
    decreases |s|
  {
    if Contains(s, p) {
      ReplaceShrinks(s, p, q);
      ReplaceKeepsPattern(s, p, q, t);
      CollapseKeepsPattern(Replace(s, p, q), p, q, t);
    }
  }

  lemma ReplaceNonEmpty(s: string, p: string, q: string)
    requires |p| > 0 && |q| > 0
    ensures |Replace(s, p, q)| == 0 <==> |s| == 0
  {
    var xs := Split(s, p);
    if |xs| > 1 {
      assert Replace(s, p, q) == xs[0] + q + Join(xs[1..], q);
    } else {
      assert Replace(s, p, q) == xs[0] == s;
    }
  }

  /** Collapsing into a non-empty replacement never empties a non-empty text. */
  lemma {:induction false} CollapseNonEmpty(s: string, p: string, q: string)
    requires 0 < |q| < |p|
    ensures |Collapse(s, p, q)| == 0 <==> |s| == 0
    decreases |s|
  {
    if Contains(s, p) {
      ReplaceShrinks(s, p, q);
      ReplaceNonEmpty(s, p, q);
      CollapseNonEmpty(Replace(s, p, q), p, q);
    }
  }

  /** Appending a character that cannot end `t` creates no occurrence of `t`. */
  lemma AppendKeepsAbsent(s: string, c: char, t: string)
    requires |t| > 0 && t[|t| - 1] != c
    requires !Contains(s, t)
    ensures !Contains(s + [c], t)
  {
    var u := s + [c];
    ContainsIff(s, t);
    ContainsIff(u, t);
    forall i: nat | OccursAt(u, t, i) ensures false {
      if i + |t| <= |s| {
        assert u[..|s|] == s;
        OccursInPart(u, 0, |s|, t, i);
      }
    }
  }

  /** A suffix of a text cannot contain more than the text. */
  lemma SuffixKeepsAbsent(s: string, k: nat, t: string)
    requires k <= |s|
    ensures !Contains(s, t) ==> !Contains(s[k..], t)
  {
    ContainsIff(s, t);
    ContainsIff(s[k..], t);
    forall i: nat | OccursAt(s[k..], t, i) ensures OccursAt(s, t, k + i) {
      OccursInPart(s, k, |s|, t, i);
    }
  }

  /** Python's clamped `s[:k]` for `k >= 0`. */
  function Take(s: string, k: nat): (r: string)
  {
    if k <= |s| then s[..k] else s
  }

  /**
   Python's `s[lo:hi]`: a negative bound counts from the end, and both
   bounds are clamped to the text.
   */
  function Slice(s: string, lo: int, hi: int): (r: string)
    ensures |r| <= |s|
  {
    var a := SliceBound(|s|, lo);
    var b := SliceBound(|s|, hi);
    if a <= b then s[a..b] else ""
  }

  /** Where a slice bound `i` lands in a text of length `n`. */
  function SliceBound(n: nat, i: int): (k: nat)
    ensures k <= n
  {
    if i < 0 then (if n + i < 0 then 0 else n + i) else if i > n then n else i
  }

  /** Python's clamped `s[k:]` for `k >= 0`. */
  function Drop(s: string, k: nat): (r: string)
  {
    if k <= |s| then s[k..] else ""
  }

  /** The characters `str.split()` with no argument treats as separators (`str.isspace`). */
  predicate IsSpace(c: char)
  {
    var n := c as int;
    n == 0x20 || 0x09 <= n <= 0x0d || 0x1c <= n <= 0x1f || n == 0x85 || n == 0xa0
    || n == 0x1680 || 0x2000 <= n <= 0x200a || n == 0x2028 || n == 0x2029
    || n == 0x202f || n == 0x205f || n == 0x3000
  }

  /** `''.join(s.split())`: `s` with every whitespace character removed. */
  function RemoveSpaces(s: string): (r: string)
    decreases |s|
  {
    if |s| == 0 then ""
    else if IsSpace(s[0]) then RemoveSpaces(s[1..])
    else [s[0]] + RemoveSpaces(s[1..])
  }

  /**
   `RemoveSpaces` keeps exactly the characters of `s` that are not
   whitespace, in order, and leaves a text without whitespace unchanged.
   */
  lemma {:induction false} RemoveSpacesSpec(s: string)
    ensures var r := RemoveSpaces(s);
      (forall k :: 0 <= k < |r| ==> !IsSpace(r[k]))
      && |r| <= |s|
      && ((forall k :: 0 <= k < |s| ==> !IsSpace(s[k])) ==> r == s)
      && (forall c :: c in r <==> c in s && !IsSpace(c))
    decreases |s|
  {
    if |s| > 0 {
      RemoveSpacesSpec(s[1..]);
      assert s == [s[0]] + s[1..];
    }
  }

  /** `s` with every `c` removed, in order. */
  function Without(s: string, c: char): (r: string)
    ensures c !in r && |r| <= |s|
    decreases |s|
  {
    if |s| == 0 then "" else (if s[0] == c then "" else [s[0]]) + Without(s[1..], c)
  }

  lemma {:induction false} WithoutConcat(x: string, y: string, c: char)
    ensures Without(x + y, c) == Without(x, c) + Without(y, c)
    decreases |x|
  {
    if |x| == 0 {
      assert x + y == y;
    } else {
      assert (x + y)[1..] == x[1..] + y;
      WithoutConcat(x[1..], y, c);
    }
  }

  lemma {:induction false} WithoutAbsent(s: string, c: char)
    requires c !in s
    ensures Without(s, c) == s
    decreases |s|
  {
    if |s| > 0 {
      WithoutAbsent(s[1..], c);
    }
  }

  /** `s.replace(c, '')` deletes exactly the occurrences of `c`. */
  lemma {:induction false} ReplaceDeletes(s: string, c: char)
    ensures Replace(s, [c], "") == Without(s, c)
    decreases |s|
  {
    match Find(s, [c])
    case None =>
      FindSpec(s, [c]);
      ContainsIff(s, [c]);
      ContainsChar(s, c);
      WithoutAbsent(s, c);
    case Some(i) =>
      var rest := s[i + 1..];
      SplitUnfold(s, [c], i);
      BeforeFirstLacks(s, [c], i);
      ContainsChar(s[..i], c);
      ReplaceDeletes(rest, c);
      WithoutAbsent(s[..i], c);
      WithoutConcat(s[..i] + [c], rest, c);
      WithoutConcat(s[..i], [c], c);
      assert Without([c], c) == "";
  }

  /** The pieces of a list, concatenated. */
  function Concat<T>(xs: seq<seq<T>>): (r: seq<T>)
    decreases |xs|
  {
    if |xs| == 0 then [] else xs[0] + Concat(xs[1..])
  }

  lemma {:induction false} ConcatAppend<T>(xs: seq<seq<T>>, ys: seq<seq<T>>)
    ensures Concat(xs + ys) == Concat(xs) + Concat(ys)
    decreases |xs|
  {
    if |xs| == 0 {
      assert xs + ys == ys;
    } else {
      assert (xs + ys)[1..] == xs[1..] + ys;
      ConcatAppend(xs[1..], ys);
    }
  }

  /** Appending one piece at the end. */
  lemma ConcatSnoc<T>(xs: seq<seq<T>>, x: seq<T>)
    ensures Concat(xs + [x]) == Concat(xs) + x
  {
    ConcatAppend(xs, [x]);
    assert Concat([x]) == x + Concat([x][1..]);
  }

  // ---------------------------------------------------------------------
  // Joining and splitting at one character
  // ---------------------------------------------------------------------

  /** Dropping a character keeps only characters that were there. */
  lemma {:induction false} WithoutSubset(s: string, d: char)
    ensures forall x :: x in Without(s, d) ==> x in s
    decreases |s|
  {
    if |s| > 0 {
      WithoutSubset(s[1..], d);
    }
  }

  /** Dropping a character other than the separator works piece by piece. */
  lemma {:induction false} WithoutJoin(xs: seq<string>, c: char, d: char)
    requires |xs| > 0 && c != d
    ensures Without(Join(xs, [c]), d) == Join(seq(|xs|, k requires 0 <= k < |xs| => Without(xs[k], d)), [c])
    decreases |xs|
  {
    var ys := seq(|xs|, k requires 0 <= k < |xs| => Without(xs[k], d));
    if |xs| > 1 {
      WithoutJoin(xs[1..], c, d);
      assert ys[1..] == seq(|xs| - 1, k requires 0 <= k < |xs| - 1 => Without(xs[1..][k], d));
      WithoutConcat(xs[0], [c] + Join(xs[1..], [c]), d);
      WithoutConcat([c], Join(xs[1..], [c]), d);
      assert Without([c], d) == [c];
      assert Join(xs, [c]) == xs[0] + ([c] + Join(xs[1..], [c]));
    }
  }

  /** The first `c` in `x + [c] + rest` is right after `x` when `x` has none. */
  lemma FindAfter(x: string, c: char, rest: string)
    requires c !in x
    ensures Find(x + [c] + rest, [c]) == Some(|x|)
  {
    var s := x + [c] + rest;
    FindSpec(s, [c]);
    assert s[|x|..|x| + 1] == [c];
    assert OccursAt(s, [c], |x|);
  }

  /** Cutting at `c` undoes joining with `c` when no piece holds a `c`. */
  lemma {:induction false} SplitJoin(xs: seq<string>, c: char)
    requires |xs| > 0
    requires forall k :: 0 <= k < |xs| ==> c !in xs[k]
    ensures Split(Join(xs, [c]), [c]) == xs
    decreases |xs|
  {
    if |xs| == 1 {
      ContainsChar(xs[0], c);
    } else {
      var rest := Join(xs[1..], [c]);
      FindAfter(xs[0], c, rest);
      var s := xs[0] + [c] + rest;
      assert Join(xs, [c]) == s;
      assert s[..|xs[0]|] == xs[0] && s[|xs[0]| + 1..] == rest;
      SplitJoin(xs[1..], c);
    }
  }

  /** No `a` in `s` is directly followed by `b`. */
  predicate PairFree(s: string, a: char, b: char)
  {
    forall j :: 0 <= j < |s| - 1 ==> !(s[j] == a && s[j + 1] == b)
  }

  /** A pattern whose first two characters never stand side by side does not occur. */
  lemma PairFreeLacks(s: string, p: string)
    requires |p| >= 2 && PairFree(s, p[0], p[1])
    ensures !Contains(s, p)
  {
    ContainsIff(s, p);
  }

  /** A pattern holding a character the text lacks does not occur. */
  lemma AbsentCharLacks(s: string, p: string, k: nat)
    requires k < |p| && p[k] !in s
    ensures !Contains(s, p)
  {
    ContainsIff(s, p);
  }

  /** A text without `a`, or without `b`, has no `a` followed by `b`. */
  lemma CharFreePair(s: string, a: char, b: char)
    requires a !in s || b !in s
    ensures PairFree(s, a, b)
  {
    forall j | 0 <= j < |s| - 1 ensures !(s[j] == a && s[j + 1] == b) {
      assert s[j] in s && s[j + 1] in s;
    }
  }

  /** Pair freedom of a concatenation: both parts, and the junction. */
  lemma PairFreeConcat(x: string, y: string, a: char, b: char)
    ensures PairFree(x + y, a, b) <==>
      PairFree(x, a, b) && PairFree(y, a, b) && !(|x| > 0 && |y| > 0 && x[|x| - 1] == a && y[0] == b)
  {
    var s := x + y;
    if PairFree(x, a, b) && PairFree(y, a, b) && !(|x| > 0 && |y| > 0 && x[|x| - 1] == a && y[0] == b) {
      forall j | 0 <= j < |s| - 1 ensures !(s[j] == a && s[j + 1] == b) {
        if j + 1 < |x| {
          assert s[j] == x[j] && s[j + 1] == x[j + 1];
        } else if j >= |x| {
          assert s[j] == y[j - |x|] && s[j + 1] == y[j + 1 - |x|];
        }
      }
    }
    if PairFree(s, a, b) {
      forall j | 0 <= j < |x| - 1 ensures !(x[j] == a && x[j + 1] == b) {
        assert s[j] == x[j] && s[j + 1] == x[j + 1];
      }
      forall j | 0 <= j < |y| - 1 ensures !(y[j] == a && y[j + 1] == b) {
        assert s[|x| + j] == y[j] && s[|x| + j + 1] == y[j + 1];
      }
      if |x| > 0 && |y| > 0 {
        assert s[|x| - 1] == x[|x| - 1] && s[|x|] == y[0];
      }
    }
  }

  /**
   The leftmost `p` in `x + p + y` is the one after `x` when no first
   character of `p` in `x` is followed by its second.
   */
  lemma FindFirstAt(x: string, p: string, y: string)
    requires |p| >= 2 && PairFree(x + [p[0]], p[0], p[1])
    ensures Find(x + p + y, p) == Some(|x|)
  {
    var s := x + p + y;
    var u := x + [p[0]];
    FindSpec(s, p);
    assert s[|x|..|x| + |p|] == p;
    assert OccursAt(s, p, |x|);
    forall j | 0 <= j < |x| ensures !OccursAt(s, p, j) {
      assert u[j] == s[j] && u[j + 1] == s[j + 1];
    }
  }

  /** Splitting `x + p + y` at its leftmost `p`, found right after `x`. */
  lemma SplitFirstAt(x: string, p: string, y: string)
    requires |p| >= 2 && PairFree(x + [p[0]], p[0], p[1])
    ensures Split(x + p + y, p) == [x] + Split(y, p)
    ensures Contains(x + p + y, p)
  {
    FindFirstAt(x, p, y);
    var s := x + p + y;
    SplitUnfold(s, p, |x|);
    assert s[..|x|] == x && s[|x| + |p|..] == y;
  }

  /** A text without the pattern splits into itself. */
  lemma SplitAbsent(s: string, p: string)
    requires |p| > 0 && !Contains(s, p)
    ensures Split(s, p) == [s]
  {
  }

  /** Collapsing a pattern that does not occur changes nothing. */
  lemma CollapseAbsent(s: string, p: string, q: string)
    requires |q| < |p| && !Contains(s, p)
    ensures Collapse(s, p, q) == s
  {
  }
}
