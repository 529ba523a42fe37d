/**
 The tune records the corpus scripts pass around (one entry of a
 `tunes` dictionary) and the counting they do over them: tallying the
 values of a field in a dictionary whose keys keep their first-seen order.
 */
module Corpus {
  import opened PyStr
  import opened NoteLexer

  /** One tune record. `type` is the tune's style (reel, jig, ...). */
  datatype Tune = Tune(tune: string, setting: string, style: string, meter: string, mode: string, abc: string)

  /** The three fields the counters and filters look at. */
  datatype Field = Style | Meter | Mode

  function Get(t: Tune, f: Field): string
  {
    match f
    case Style => t.style
    case Meter => t.meter
    case Mode => t.mode
  }

  /** The value of field `f` of every tune, in order. */
  function Column(tunes: seq<Tune>, f: Field): (r: seq<string>)
    ensures |r| == |tunes| && forall i :: 0 <= i < |r| ==> r[i] == Get(tunes[i], f)
  {
    seq(|tunes|, i requires 0 <= i < |tunes| => Get(tunes[i], f))
  }

  lemma ColumnSnoc(tunes: seq<Tune>, t: Tune, f: Field)
    ensures Column(tunes + [t], f) == Column(tunes, f) + [Get(t, f)]
  {
  }

  /**
   The whitespace `int` skips around its text. Below code point 127 that
   is only space, tab, line feed, vertical tab, form feed and carriage
   return, so the separators `\x1c` to `\x1f` are not skipped although
   `str.isspace` holds for them; above 127 every `str.isspace` character is
   read as a space.
   */
  predicate IntSpace(c: char)
  {
    var n := c as int;
    if n < 127 then n == 0x20 || 0x09 <= n <= 0x0d else IsSpace(c)
  }

  /** `s` without the `IntSpace` characters at either end, as `int` reads it. */
  function Strip(s: string): (r: string)
    ensures |r| <= |s|
    decreases |s|
  {
    if |s| > 0 && IntSpace(s[0]) then Strip(s[1..])
    else if |s| > 0 && IntSpace(s[|s| - 1]) then Strip(s[..|s| - 1])
    else s
  }

  /**
   `strip` keeps one slice of `s`, which neither starts nor ends with
   whitespace, and drops only whitespace before and after it.
   */
  lemma {:induction false} StripSlice(s: string) returns (i: nat, j: nat)
    ensures i <= j <= |s| && Strip(s) == s[i..j]
    ensures forall k :: 0 <= k < i ==> IntSpace(s[k])
    ensures forall k :: j <= k < |s| ==> IntSpace(s[k])
    ensures i < j ==> !IntSpace(s[i]) && !IntSpace(s[j - 1])
    decreases |s|
  {
    if |s| > 0 && IntSpace(s[0]) {
      var t := s[1..];
      var a, b := StripSlice(t);
      i, j := a + 1, b + 1;
      assert t[a..b] == s[i..j];
      assert forall k :: 1 <= k < |s| ==> s[k] == t[k - 1];
    } else if |s| > 0 && IntSpace(s[|s| - 1]) {
      var t := s[..|s| - 1];
      i, j := StripSlice(t);
      assert t[i..j] == s[i..j];
      assert forall k :: 0 <= k < |t| ==> s[k] == t[k];
    } else {
      i, j := 0, |s|;
    }
  }

  /**
   The digits `int` accepts after the sign: ASCII digits, with single
   underscores allowed between two of them.
   */
  predicate Numeral(b: string)
  {
    |b| > 0 && b[0] != '_' && b[|b| - 1] != '_'
    && (forall k :: 0 <= k < |b| ==> InClass(b[k], Digits) || b[k] == '_')
    && (forall k :: 0 < k < |b| && b[k] == '_' ==> b[k - 1] != '_')
  }

  /**
   `int(s)` on a string: surrounding `IntSpace` whitespace is ignored, then comes an
   optional sign and a `Numeral`, whose underscores do not count. Any
   other text raises ValueError.
   */
  function IntOf(s: string): (r: Result<int>)
    ensures r.Raised? ==> r.exc == ValueError
  {
    ReadSigned(Strip(s))
  }

  /** A text `int` accepts holds a digit, and nothing but whitespace, digits, `_` and signs. */
  lemma IntOfChars(s: string)
    requires IntOf(s).Value?
    ensures forall k :: 0 <= k < |s| ==> IntSpace(s[k]) || IntChar(s[k])
    ensures exists k :: 0 <= k < |s| && InClass(s[k], Digits)
  {
    StrippedChars(s);
  }

  /** A character `int` may read besides whitespace. */
  predicate IntChar(c: char)
  {
    InClass(c, Digits) || c == '_' || c == '+' || c == '-'
  }

  /** An optional sign and a numeral, with nothing around them. */
  function ReadSigned(t: string): (r: Result<int>)
    ensures r.Raised? ==> r.exc == ValueError
  {
    var sign := SignLength(t);
    var body := t[sign..];
    if !Numeral(body) then Raised(ValueError)
    else
      NumeralDigits(body);
      var v: int := ParseNat(Without(body, '_'));
      if sign == 1 && t[0] == '-' then Value(-v) else Value(v)
  }

  /** 1 when `t` opens with a sign, else 0. */
  function SignLength(t: string): (n: nat)
    ensures n <= |t| && (n == 1 <==> |t| > 0 && (t[0] == '-' || t[0] == '+'))
  {
    if |t| > 0 && (t[0] == '-' || t[0] == '+') then 1 else 0
  }

  /** Removing the underscores of a numeral leaves its digits. */
  lemma NumeralDigits(b: string)
    requires Numeral(b)
    ensures AllIn(Without(b, '_'), Digits)
  {
    WithoutSubset(b, '_');
    forall k | 0 <= k < |Without(b, '_')| ensures InClass(Without(b, '_')[k], Digits) {
      var c := Without(b, '_')[k];
      assert c in b && c != '_';
    }
  }

  /** What `int` reads off the stripped text lies in `s`, and the rest of `s` is whitespace. */
  lemma StrippedChars(s: string)
    requires ReadSigned(Strip(s)).Value?
    ensures forall k :: 0 <= k < |s| ==> IntSpace(s[k]) || IntChar(s[k])
    ensures exists k :: 0 <= k < |s| && InClass(s[k], Digits)
  {
    var i, j := StripSlice(s);
    var d := SignedChars(Strip(s));
    SliceChars(s, Strip(s), i, j, d);
  }

  lemma SliceChars(s: string, t: string, i: nat, j: nat, d: nat)
    requires i <= j <= |s| && t == s[i..j]
    requires (forall k :: 0 <= k < i ==> IntSpace(s[k])) && (forall k :: j <= k < |s| ==> IntSpace(s[k]))
    requires d < |t| && InClass(t[d], Digits) && forall k :: 0 <= k < |t| ==> IntChar(t[k])
    ensures forall k :: 0 <= k < |s| ==> IntSpace(s[k]) || IntChar(s[k])
    ensures exists k :: 0 <= k < |s| && InClass(s[k], Digits)
  {
    forall k | i <= k < j ensures IntChar(s[k]) {
      assert s[k] == t[k - i];
    }
    assert s[i + d] == t[d];
  }

  /** A signed numeral is made of digits, `_` and signs, and holds a digit at `d`. */
  lemma SignedChars(t: string) returns (d: nat)
    requires ReadSigned(t).Value?
    ensures d < |t| && InClass(t[d], Digits)
    ensures forall k :: 0 <= k < |t| ==> IntChar(t[k])
  {
    var sign := SignLength(t);
    var body := t[sign..];
    assert Numeral(body);
    forall k | sign <= k < |t| ensures IntChar(t[k]) {
      assert t[k] == body[k - sign];
    }
    d := sign;
    assert t[d] == body[0];
  }

  /** A text of whitespace only, in the sense of `IntSpace`. */
  predicate Blank(w: string)
  {
    forall k :: 0 <= k < |w| ==> IntSpace(w[k])
  }

  /** Leading whitespace is dropped by `strip`. */
  lemma {:induction false} StripLeading(w: string, s: string)
    requires Blank(w)
    ensures Strip(w + s) == Strip(s)
    decreases |w|
  {
    if |w| > 0 {
      assert (w + s)[0] == w[0] && (w + s)[1..] == w[1..] + s;
      StripLeading(w[1..], s);
    } else {
      assert w + s == s;
    }
  }

  /** One whitespace character at the end is dropped by `strip`. */
  lemma {:induction false} StripSnoc(s: string, c: char)
    requires IntSpace(c)
    ensures Strip(s + [c]) == Strip(s)
    decreases |s|
  {
    var x := s + [c];
    if |s| > 0 && IntSpace(s[0]) {
      assert x[1..] == s[1..] + [c];
      StripSnoc(s[1..], c);
    } else {
      assert x[..|x| - 1] == s;
    }
  }

  /** Trailing whitespace is dropped by `strip`. */
  lemma {:induction false} StripTrailing(s: string, w: string)
    requires Blank(w)
    ensures Strip(s + w) == Strip(s)
    decreases |w|
  {
    if |w| > 0 {
      var v := w[..|w| - 1];
      assert s + w == (s + v) + [w[|w| - 1]];
      StripSnoc(s + v, w[|w| - 1]);
      StripTrailing(s, v);
    } else {
      assert s + w == s;
    }
  }

  /** Whitespace around a text is dropped by `strip`. */
  lemma StripPadded(w1: string, s: string, w2: string)
    requires Blank(w1) && Blank(w2)
    ensures Strip(w1 + s + w2) == Strip(s)
  {
    assert w1 + s + w2 == w1 + (s + w2);
    StripLeading(w1, s + w2);
    StripTrailing(s, w2);
  }

  /** `int` ignores surrounding whitespace, as in `int(' 42\n') == 42`. */
  lemma IntOfPadded(w1: string, s: string, w2: string)
    requires Blank(w1) && Blank(w2)
    ensures IntOf(w1 + s + w2) == IntOf(s)
  {
    StripPadded(w1, s, w2);
  }

  /** A text without whitespace at its ends is its own `strip`. */
  lemma StripTrimmed(s: string)
    requires |s| > 0 ==> !IntSpace(s[0]) && !IntSpace(s[|s| - 1])
    ensures Strip(s) == s
  {
  }

  /** A plain run of digits is a numeral with no underscore to drop. */
  lemma DigitsNumeral(d: string)
    requires |d| > 0 && AllIn(d, Digits)
    ensures Numeral(d) && Without(d, '_') == d
  {
    WithoutAbsent(d, '_');
  }

  /** On a plain run of digits `int` is the decimal value. */
  lemma IntOfDigits(s: string)
    requires |s| > 0 && AllIn(s, Digits)
    ensures IntOf(s) == Value(ParseNat(s))
  {
    StripTrimmed(s);
    assert SignLength(s) == 0;
    assert s[0..] == s;
    DigitsNumeral(s);
  }

  /** `a_b` is a numeral whose digits are those of `a` and then `b`. */
  lemma GroupedNumeral(a: string, b: string, g: string)
    requires |a| > 0 && |b| > 0 && AllIn(a, Digits) && AllIn(b, Digits) && g == a + "_" + b
    ensures Numeral(g) && Strip(g) == g && SignLength(g) == 0
  {
    assert g[0] == a[0] && g[|g| - 1] == b[|b| - 1];
    StripTrimmed(g);
    forall k | 0 < k < |g| && g[k] == '_' ensures g[k - 1] != '_' {
      assert k == |a|;
    }
  }

  lemma GroupedDigits(a: string, b: string)
    requires AllIn(a, Digits) && AllIn(b, Digits)
    ensures Without(a + "_" + b, '_') == a + b
  {
    DigitsLackUnderscore(a);
    DigitsLackUnderscore(b);
    SeparatorDropped(a, b);
  }

  lemma DigitsLackUnderscore(a: string)
    requires AllIn(a, Digits)
    ensures '_' !in a
  {
  }

  lemma SeparatorDropped(a: string, b: string)
    requires '_' !in a && '_' !in b
    ensures Without(a + "_" + b, '_') == a + b
  {
    WithoutConcat(a + "_", b, '_');
    UnderscoreDropped(a);
    WithoutAbsent(a, '_');
    WithoutAbsent(b, '_');
  }

  lemma UnderscoreDropped(a: string)
    ensures Without(a + "_", '_') == Without(a, '_')
  {
    WithoutConcat(a, "_", '_');
    assert Without("_", '_') == "";
  }

  /** An underscore between two digits does not count: `int('1_000') == int('1000')`. */
  lemma IntOfGrouped(a: string, b: string)
    requires |a| > 0 && |b| > 0 && AllIn(a, Digits) && AllIn(b, Digits)
    ensures IntOf(a + "_" + b) == IntOf(a + b) == Value(ParseNat(a + b))
  {
    GroupedNumeral(a, b, a + "_" + b);
    GroupedDigits(a, b);
    ReadGrouped(a + b, a + "_" + b);
    IntOfDigits(a + b);
  }

  lemma ReadGrouped(d: string, g: string)
    requires AllIn(d, Digits) && Numeral(g) && Strip(g) == g && SignLength(g) == 0 && Without(g, '_') == d
    ensures IntOf(g) == Value(ParseNat(d))
  {
    assert g[0..] == g;
    NumeralDigits(g);
  }

  /** A doubled, leading or trailing underscore is rejected, and so is a text with no digit. */
  lemma IntOfRejects(a: string, b: string)
    requires |a| > 0 && |b| > 0 && AllIn(a, Digits) && AllIn(b, Digits)
    ensures IntOf(a + "__" + b).Raised? && IntOf("_" + a).Raised? && IntOf(a + "_").Raised?
    ensures forall w :: Blank(w) ==> IntOf(w).Raised?
  {
    var g := a + "__" + b;
    assert g[0] == a[0] && g[|g| - 1] == b[|b| - 1];
    StripTrimmed(g);
    assert g[|a| + 1] == '_' && g[|a|] == '_';
    var h := a + "_";
    assert h[0] == a[0] && h[|h| - 1] == '_';
    StripTrimmed(h);
    StripTrimmed("_" + a);
    forall w | Blank(w) ensures IntOf(w).Raised? {
      StripLeading(w, "");
      assert w + "" == w;
    }
  }

  /**
   The information separators `\x1c` to `\x1f` are whitespace to
   `str.isspace` but not to `int`: one before or after the digits makes
   `int` raise, as in `int('\x1c7')`.
   */
  lemma IntOfSeparator(c: char, d: string)
    requires 0x1c <= c as int <= 0x1f
    ensures IntOf([c] + d).Raised? && IntOf(d + [c]).Raised?
  {
    SeparatorRaises([c] + d, 0);
    SeparatorRaises(d + [c], |d|);
  }

  /** A separator anywhere in the text makes `int` raise. */
  lemma SeparatorRaises(s: string, k: nat)
    requires k < |s| && 0x1c <= s[k] as int <= 0x1f
    ensures IntOf(s).Raised?
  {
    if IntOf(s).Value? {
      IntOfChars(s);
    }
  }

  /** `int('\x1c7')` raises although `int('7')` is 7. */
  lemma IntOfSeparatorSeven()
    ensures IntOf([28 as char] + "7").Raised? && IntOf("7" + [31 as char]).Raised?
    ensures IntOf("7") == Value(7)
  {
    IntOfSeparator(28 as char, "7");
    IntOfSeparator(31 as char, "7");
    IntOfDigits("7");
  }

  /** `int(str(n)) == n` for every integer, `str` writing a `-` before a negative one. */
  lemma IntOfShow(n: int)
    ensures IntOf(if n < 0 then "-" + ShowNat(-n) else ShowNat(n)) == Value(n)
  {
    if n < 0 {
      ParseShow(-n);
      IntOfNegative(ShowNat(-n), -n);
    } else {
      ParseShow(n);
      IntOfDigits(ShowNat(n));
    }
  }

  /** A minus sign before a run of digits negates its value. */
  lemma IntOfNegative(d: string, v: nat)
    requires |d| > 0 && AllIn(d, Digits) && ParseNat(d) == v
    ensures IntOf("-" + d) == Value(-(v as int))
  {
    NegativeTrimmed(d, "-" + d);
    ReadNegative(d, "-" + d, v);
  }

  lemma NegativeTrimmed(d: string, s: string)
    requires |d| > 0 && AllIn(d, Digits) && s == "-" + d
    ensures Strip(s) == s && SignLength(s) == 1 && s[0] == '-' && s[1..] == d
  {
    assert s[|s| - 1] == d[|d| - 1];
    StripTrimmed(s);
  }

  lemma ReadNegative(d: string, s: string, v: nat)
    requires |d| > 0 && AllIn(d, Digits) && ParseNat(d) == v
    requires Strip(s) == s && SignLength(s) == 1 && s[0] == '-' && s[1..] == d
    ensures IntOf(s) == Value(-(v as int))
  {
    DigitsNumeral(d);
  }

  /** The values of `xs` in the order they are first seen, each once: the key order of a dictionary filled from `xs`. */
  function Distinct(xs: seq<string>): (r: seq<string>)
    ensures forall x :: x in r <==> x in xs
    ensures forall i, j :: 0 <= i < j < |r| ==> r[i] != r[j]
    decreases |xs|
  {
    if |xs| == 0 then []
    else
      var d := Distinct(xs[..|xs| - 1]);
      var y := xs[|xs| - 1];
      assert forall x :: x in xs <==> x in xs[..|xs| - 1] || x == y by {
        assert xs == xs[..|xs| - 1] + [y];
      }
      if y in d then d else d + [y]
  }

  lemma DistinctSnoc(xs: seq<string>, y: string)
    ensures Distinct(xs + [y]) == if y in Distinct(xs) then Distinct(xs) else Distinct(xs) + [y]
  {
    assert (xs + [y])[..|xs|] == xs;
  }

  /** Values that are already distinct keep their order. */
  lemma {:induction false} DistinctOfDistinct(xs: seq<string>)
    requires forall i, j :: 0 <= i < j < |xs| ==> xs[i] != xs[j]
    ensures Distinct(xs) == xs
    decreases |xs|
  {
    if |xs| > 0 {
      var p := xs[..|xs| - 1];
      DistinctOfDistinct(p);
      assert xs[|xs| - 1] !in p;
      assert xs == p + [xs[|xs| - 1]];
    }
  }

  /** How often each value occurs. */
  function Tally(xs: seq<string>): (m: map<string, nat>)
    ensures forall k :: k in m <==> k in xs
    ensures forall k :: k in m ==> m[k] == multiset(xs)[k] && m[k] > 0
  {
    map k | k in xs :: multiset(xs)[k]
  }

  /** One more value adds one to its count, or enters it with count 1. */
  lemma TallySnoc(xs: seq<string>, y: string)
    ensures Tally(xs + [y]) == Tally(xs)[y := if y in xs then Tally(xs)[y] + 1 else 1]
  {
    var a := Tally(xs + [y]);
    var b := Tally(xs)[y := if y in xs then Tally(xs)[y] + 1 else 1];
    assert multiset(xs + [y]) == multiset(xs) + multiset{y};
    assert a.Keys == b.Keys;
    forall k | k in a ensures a[k] == b[k] {
    }
  }

  /**
   The inner `inc` of both counters: one more sighting of `key`. Stats.py
   stores 1 on a first sighting, Generate_Stats.py stores 0.
   */
  function Inc(master: map<string, nat>, key: string, first: nat): (r: map<string, nat>)
    ensures r.Keys == master.Keys + {key}
    ensures forall k :: k in master && k != key ==> r[k] == master[k]
    ensures key in master ==> r[key] == master[key] + 1
    ensures key !in master ==> r[key] == first
  {
    master[key := if key in master then master[key] + 1 else first]
  }

  /** `inc` applied to every value of `xs` in turn. */
  function IncAll(master: map<string, nat>, xs: seq<string>, first: nat): map<string, nat>
    decreases |xs|
  {
    if |xs| == 0 then master else Inc(IncAll(master, xs[..|xs| - 1], first), xs[|xs| - 1], first)
  }

  lemma IncAllSnoc(master: map<string, nat>, xs: seq<string>, y: string, first: nat)
    ensures IncAll(master, xs + [y], first) == Inc(IncAll(master, xs, first), y, first)
  {
    assert (xs + [y])[..|xs|] == xs;
  }

  /**
   What `inc` stores: a key first seen in `xs` holds `first` plus its
   further occurrences; a key already present gains one per occurrence.
   */
  lemma {:induction false} IncAllCounts(master: map<string, nat>, xs: seq<string>, first: nat)
    ensures var r := IncAll(master, xs, first);
      (forall k :: k in r <==> k in master || k in xs)
      && forall k :: k in r ==> r[k] as int == (if k in master then master[k] else first - 1) + multiset(xs)[k]
    decreases |xs|
  {
    if |xs| > 0 {
      var p := xs[..|xs| - 1];
      var y := xs[|xs| - 1];
      assert xs == p + [y];
      assert multiset(xs) == multiset(p) + multiset{y};
      IncAllCounts(master, p, first);
      assert forall k :: k in xs <==> k in p || k == y;
    }
  }

  /** Counting from 1 on a fresh dictionary is the tally. */
  lemma IncAllTally(xs: seq<string>)
    ensures IncAll(map[], xs, 1) == Tally(xs)
  {
    IncAllCounts(map[], xs, 1);
  }

  /** Counting `xs` and then `ys` into the same dictionary is counting `xs + ys`. */
  lemma {:induction false} IncAllAppend(master: map<string, nat>, xs: seq<string>, ys: seq<string>, first: nat)
    ensures IncAll(IncAll(master, xs, first), ys, first) == IncAll(master, xs + ys, first)
    decreases |ys|
  {
    if |ys| == 0 {
      assert xs + ys == xs;
    } else {
      var p := ys[..|ys| - 1];
      var y := ys[|ys| - 1];
      IncAllAppend(master, xs, p, first);
      assert xs + ys == (xs + p) + [y];
      IncAllSnoc(master, xs + p, y, first);
    }
  }

  /** The sum of `m` over the keys `keys`, in order; a key `m` lacks adds nothing. */
  function SumOver(keys: seq<string>, m: map<string, nat>): nat
    decreases |keys|
  {
    if |keys| == 0 then 0
    else
      var k := keys[|keys| - 1];
      SumOver(keys[..|keys| - 1], m) + (if k in m then m[k] else 0)
  }

  lemma SumOverSnoc(keys: seq<string>, k: string, m: map<string, nat>)
    ensures SumOver(keys + [k], m) == SumOver(keys, m) + (if k in m then m[k] else 0)
  {
    assert (keys + [k])[..|keys|] == keys;
  }

  /** The sum only reads the listed keys. */
  lemma {:induction false} SumOverAgree(keys: seq<string>, m: map<string, nat>, m': map<string, nat>)
    requires forall k :: k in keys ==> (k in m <==> k in m') && (k in m ==> m[k] == m'[k])
    ensures SumOver(keys, m) == SumOver(keys, m')
    decreases |keys|
  {
    if |keys| > 0 {
      SumOverAgree(keys[..|keys| - 1], m, m');
    }
  }

  /** Raising the value of one listed key raises a sum over distinct keys by as much. */
  lemma {:induction false} SumOverBump(keys: seq<string>, m: map<string, nat>, k: string, d: nat)
    requires k in keys && k in m
    requires forall i, j :: 0 <= i < j < |keys| ==> keys[i] != keys[j]
    ensures SumOver(keys, m[k := m[k] + d]) == SumOver(keys, m) + d
    decreases |keys|
  {
    var p := keys[..|keys| - 1];
    var last := keys[|keys| - 1];
    if last == k {
      assert k !in p;
      SumOverAgree(p, m, m[k := m[k] + d]);
    } else {
      assert k in p by {
        var i :| 0 <= i < |keys| && keys[i] == k;
        assert p[i] == k;
      }
      SumOverBump(p, m, k, d);
    }
  }

  /** One more value adds one to the sum of a tally's counts. */
  lemma TallySumStep(p: seq<string>, y: string)
    ensures SumOver(Distinct(p + [y]), Tally(p + [y])) == SumOver(Distinct(p), Tally(p)) + 1
  {
    TallySnoc(p, y);
    DistinctSnoc(p, y);
    if y in p {
      TallySumSeen(Distinct(p), Tally(p), y);
    } else {
      TallySumNew(Distinct(p), Tally(p), y);
    }
  }

  lemma TallySumSeen(d: seq<string>, t: map<string, nat>, y: string)
    requires y in d && y in t
    requires forall i, j :: 0 <= i < j < |d| ==> d[i] != d[j]
    ensures SumOver(d, t[y := t[y] + 1]) == SumOver(d, t) + 1
  {
    SumOverBump(d, t, y, 1);
  }

  lemma TallySumNew(d: seq<string>, t: map<string, nat>, y: string)
    requires y !in d
    ensures SumOver(d + [y], t[y := 1]) == SumOver(d, t) + 1
  {
    SumOverAgree(d, t, t[y := 1]);
    SumOverSnoc(d, y, t[y := 1]);
  }

  /** The counts of a tally add up to the number of values tallied. */
  lemma {:induction false} TallySum(xs: seq<string>)
    ensures SumOver(Distinct(xs), Tally(xs)) == |xs|
    decreases |xs|
  {
    if |xs| > 0 {
      var p := xs[..|xs| - 1];
      var y := xs[|xs| - 1];
      assert xs == p + [y];
      TallySum(p);
      TallySumStep(p, y);
    }
  }
}
