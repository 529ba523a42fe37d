/**
 The note pattern shared by the vectoriser and the raw-ABC decoder:
 `([_=^]*[a-gzA-G][,']*)(\d*)/?(\d*)` at
 src/Generation/Vectorizing/Vectorizer.py:113-114 and, as a single group, at
 src/Generation/Decoding/Decoding.py:118.

 `Lex` is `re.findall` with this pattern. It takes the leftmost match,
 continues after it, and skips one character wherever no note starts.
 Digits are the ASCII digits.
 */
module NoteLexer {

  /** The character classes of the pattern. */
  datatype CharClass = Accidentals | OctaveMarks | Digits

  predicate InClass(c: char, k: CharClass)
  {
    match k
    case Accidentals => c == '_' || c == '=' || c == '^'
    case OctaveMarks => c == ',' || c == '\''
    case Digits => '0' <= c <= '9'
  }

  /** `[a-gzA-G]`: a pitch letter or the rest `z`. */
  predicate IsNoteLetter(c: char)
  {
    'a' <= c <= 'g' || c == 'z' || 'A' <= c <= 'G'
  }

  predicate AllIn(s: string, k: CharClass)
  {
    forall i :: 0 <= i < |s| ==> InClass(s[i], k)
  }

  /**
   One match of the pattern: the accidentals, the letter, the octave marks,
   the digits before the optional `/`, whether the `/` is there, and the
   digits after it.
   */
  datatype Token = Token(accidentals: string, letter: char, octave: string, num: string, slash: bool, denom: string)

  /** A token the pattern can produce. Without a `/`, all digits belong to `num`. */
  predicate WellFormed(t: Token)
  {
    AllIn(t.accidentals, Accidentals) && IsNoteLetter(t.letter) && AllIn(t.octave, OctaveMarks)
    && AllIn(t.num, Digits) && AllIn(t.denom, Digits) && (!t.slash ==> t.denom == "")
  }

  /** The text a token was matched from, which is what the one-group pattern of Decoding.py returns. */
  function Text(t: Token): string
  {
    t.accidentals + [t.letter] + t.octave + t.num + (if t.slash then "/" else "") + t.denom
  }

  /** The note part of a token (the first group at Vectorizer.py:113). */
  function NoteText(t: Token): string
  {
    t.accidentals + [t.letter] + t.octave
  }

  function TextAll(ts: seq<Token>): string
    decreases |ts|
  {
    if |ts| == 0 then "" else Text(ts[0]) + TextAll(ts[1..])
  }

  /** Writing one more token adds its text at the end. */
  lemma {:induction false} TextAllSnoc(ts: seq<Token>, t: Token)
    ensures TextAll(ts + [t]) == TextAll(ts) + Text(t)
    decreases |ts|
  {
    if |ts| == 0 {
      assert TextAll([t]) == Text(t) + TextAll([]);
    } else {
      assert (ts + [t])[1..] == ts[1..] + [t];
      TextAllSnoc(ts[1..], t);
    }
  }

  /** The length of the longest prefix of `s` in class `k`. */
  function Span(s: string, k: CharClass): (n: nat)
    ensures n <= |s|
    decreases |s|
  {
    if |s| == 0 || !InClass(s[0], k) then 0 else 1 + Span(s[1..], k)
  }

  /** The span is in class `k` and stops at the first character that is not. */
  lemma {:induction false} SpanSpec(s: string, k: CharClass)
    ensures AllIn(s[..Span(s, k)], k)
    ensures Span(s, k) < |s| ==> !InClass(s[Span(s, k)], k)
    decreases |s|
  {
    if |s| > 0 && InClass(s[0], k) {
      SpanSpec(s[1..], k);
      var n := Span(s, k);
      assert forall i :: 1 <= i < n ==> s[..n][i] == s[1..][..n - 1][i - 1];
    }
  }

  /** A prefix in class `k` followed by something outside it is exactly the span. */
  lemma {:induction false} SpanOf(x: string, y: string, k: CharClass)
    requires AllIn(x, k)
    requires |y| > 0 ==> !InClass(y[0], k)
    ensures Span(x + y, k) == |x|
    decreases |x|
  {
    if |x| > 0 {
      assert (x + y)[1..] == x[1..] + y;
      SpanOf(x[1..], y, k);
    } else {
      assert x + y == y;
    }
  }

  /** A note starts at the head of `s`: accidentals, then a note letter. */
  predicate StartsNote(s: string)
  {
    var a := Span(s, Accidentals);
    a < |s| && IsNoteLetter(s[a])
  }

  /**
   The match of the note pattern at the head of `s`, and where it ends.
   Each part is the longest run of its class, as the greedy pattern takes it.
   */
  function NextToken(s: string): (r: (Token, nat))
    requires StartsNote(s)
    ensures WellFormed(r.0) && |Text(r.0)| == r.1 && 0 < r.1 <= |s|
  {
    var a := Span(s, Accidentals);
    var s1 := s[a + 1..];
    var o := Span(s1, OctaveMarks);
    var s2 := s1[o..];
    var n := Span(s2, Digits);
    var slash := n < |s2| && s2[n] == '/';
    var s3 := if slash then s2[n + 1..] else s2[n..];
    var d := Span(s3, Digits);
    SpanSpec(s, Accidentals);
    SpanSpec(s1, OctaveMarks);
    SpanSpec(s2, Digits);
    SpanSpec(s3, Digits);
    var t := Token(s[..a], s[a], s1[..o], s2[..n], slash, s3[..d]);
    var e := a + 1 + o + n + (if slash then 1 else 0) + d;
    (t, e)
  }

  /**
   `re.findall` with the note pattern (Vectorizer.py:113-114,
   Decoding.py:118): every leftmost, non-overlapping match.
   */
  function Lex(s: string): (ts: seq<Token>)
    ensures forall k :: 0 <= k < |ts| ==> WellFormed(ts[k])
    decreases |s|
  {
    if |s| == 0 then []
    else if StartsNote(s) then
      var (t, e) := NextToken(s);
      [t] + Lex(s[e..])
    else Lex(s[1..])
  }

  /** A text that does not begin a note, a count or a `/`: what may follow a token without changing how it is read. */
  predicate Separates(s: string)
  {
    |s| == 0 || (!InClass(s[0], OctaveMarks) && !InClass(s[0], Digits) && s[0] != '/')
  }

  /** The head of `Text(t) + rest` is matched as `t`, and the match ends where `rest` starts. */
  lemma NextTokenOf(t: Token, rest: string)
    requires WellFormed(t) && Separates(rest)
    ensures StartsNote(Text(t) + rest)
    ensures NextToken(Text(t) + rest) == (t, |Text(t)|)
  {
    var sl := if t.slash then "/" else "";
    var s3 := t.denom + rest;
    var s2 := t.num + (sl + s3);
    var s1 := t.octave + s2;
    var s := t.accidentals + ([t.letter] + s1);
    TextRight(t, rest);
    TailSpans(t.num, t.slash, t.denom, rest);
    SpanOf(t.octave, s2, OctaveMarks);
    HeadSpan(t.accidentals, t.letter, s1);
    assert s1[..|t.octave|] == t.octave && s1[|t.octave|..] == s2;
    NextTokenIs(s, |t.accidentals|, s1, |t.octave|, s2, |t.num|, t.slash, s3, |t.denom|);
  }

  /** A token's text followed by `rest`, grouped from the right. */
  lemma TextRight(t: Token, rest: string)
    ensures var sl := if t.slash then "/" else "";
      Text(t) + rest == t.accidentals + ([t.letter] + (t.octave + (t.num + (sl + (t.denom + rest)))))
      && |Text(t)| == |t.accidentals| + 1 + |t.octave| + |t.num| + |sl| + |t.denom|
  {
    var sl := if t.slash then "/" else "";
    var x1 := t.accidentals + [t.letter];
    var x2 := x1 + t.octave;
    var x3 := x2 + t.num;
    var x4 := x3 + sl;
    assert Text(t) == x4 + t.denom;
    assert x4 + t.denom + rest == x4 + (t.denom + rest);
    assert x3 + sl + (t.denom + rest) == x3 + (sl + (t.denom + rest));
    assert x2 + t.num + (sl + (t.denom + rest)) == x2 + (t.num + (sl + (t.denom + rest)));
    assert x1 + t.octave + (t.num + (sl + (t.denom + rest))) == x1 + (t.octave + (t.num + (sl + (t.denom + rest))));
    assert t.accidentals + [t.letter] + (t.octave + (t.num + (sl + (t.denom + rest))))
      == t.accidentals + ([t.letter] + (t.octave + (t.num + (sl + (t.denom + rest)))));
  }

  /** The accidentals and the letter are read off the head, and the rest follows them. */
  lemma HeadSpan(acc: string, letter: char, s1: string)
    requires AllIn(acc, Accidentals) && IsNoteLetter(letter)
    ensures var s := acc + ([letter] + s1);
      Span(s, Accidentals) == |acc| && s[..|acc|] == acc && s[|acc|] == letter && s[|acc| + 1..] == s1
  {
    var s := acc + ([letter] + s1);
    SpanOf(acc, [letter] + s1, Accidentals);
    assert s[|acc|..] == [letter] + s1;
  }

  /**
   After the octave marks: the count, the `/` when there is one, and the
   denominator are read off exactly, and what is left is `rest`. The text
   does not start with an octave mark.
   */
  lemma TailSpans(num: string, slash: bool, denom: string, rest: string)
    requires AllIn(num, Digits) && AllIn(denom, Digits) && (!slash ==> denom == "") && Separates(rest)
    ensures var s3 := denom + rest;
      var s2 := num + ((if slash then "/" else "") + s3);
      var n := |num|;
      Span(s2, Digits) == n && s2[..n] == num
      && (n < |s2| && s2[n] == '/') == slash
      && (if slash then s2[n + 1..] else s2[n..]) == s3
      && Span(s3, Digits) == |denom| && s3[..|denom|] == denom
      && (|s2| > 0 ==> !InClass(s2[0], OctaveMarks))
  {
    var sl := if slash then "/" else "";
    var s3 := denom + rest;
    var s2 := num + (sl + s3);
    var n := |num|;
    SpanOf(denom, rest, Digits);
    assert s2[n..] == sl + s3;
    if slash {
      assert (sl + s3)[0] == '/';
      assert s2[n + 1..] == (sl + s3)[1..];
    } else {
      assert sl + s3 == rest;
    }
    SpanOf(num, sl + s3, Digits);
    if |s2| > 0 && n > 0 {
      assert s2[0] == num[0];
    }
  }

  /** `NextToken` in terms of the spans it finds. */
  lemma NextTokenIs(s: string, a: nat, s1: string, o: nat, s2: string, n: nat, slash: bool, s3: string, d: nat)
    requires Span(s, Accidentals) == a && a < |s| && IsNoteLetter(s[a])
    requires s1 == s[a + 1..] && Span(s1, OctaveMarks) == o && s2 == s1[o..]
    requires Span(s2, Digits) == n && slash == (n < |s2| && s2[n] == '/')
    requires s3 == (if slash then s2[n + 1..] else s2[n..]) && Span(s3, Digits) == d
    ensures StartsNote(s)
    ensures NextToken(s).0 == Token(s[..a], s[a], s1[..o], s2[..n], slash, s3[..d])
    ensures NextToken(s).1 == a + 1 + o + n + (if slash then 1 else 0) + d
  {
  }

  /** A well-formed token is read back as itself, whatever note follows it. */
  lemma LexToken(t: Token, rest: string)
    requires WellFormed(t) && Separates(rest)
    ensures Lex(Text(t) + rest) == [t] + Lex(rest)
  {
    NextTokenOf(t, rest);
    assert (Text(t) + rest)[|Text(t)|..] == rest;
  }

  /** The text of a token starts with an accidental or a letter, so it separates the token before it. */
  lemma TextSeparates(ts: seq<Token>)
    requires forall k :: 0 <= k < |ts| ==> WellFormed(ts[k])
    ensures Separates(TextAll(ts))
  {
    if |ts| > 0 {
      var t := ts[0];
      var s := TextAll(ts);
      assert s == Text(t) + TextAll(ts[1..]);
      if |t.accidentals| > 0 {
        assert s[0] == t.accidentals[0];
        assert InClass(s[0], Accidentals);
      } else {
        assert s[0] == t.letter;
      }
    }
  }

  /** Lexing the texts of well-formed tokens gives back the tokens. */
  lemma {:induction false} LexTextAll(ts: seq<Token>)
    requires forall k :: 0 <= k < |ts| ==> WellFormed(ts[k])
    ensures Lex(TextAll(ts)) == ts
    decreases |ts|
  {
    if |ts| > 0 {
      TextSeparates(ts[1..]);
      LexToken(ts[0], TextAll(ts[1..]));
      LexTextAll(ts[1..]);
    }
  }

  /** A text with no note letter holds no token. */
  lemma {:induction false} LexNoLetter(s: string)
    requires forall i :: 0 <= i < |s| ==> !IsNoteLetter(s[i])
    ensures Lex(s) == []
    decreases |s|
  {
    if |s| > 0 {
      var a := Span(s, Accidentals);
      if a < |s| {
        assert !IsNoteLetter(s[a]);
      }
      LexNoLetter(s[1..]);
    }
  }

  // ---------------------------------------------------------------------
  // Decimal numbers, for `int(...)` and `str(...)`
  // ---------------------------------------------------------------------

  function DigitValue(c: char): nat
    requires InClass(c, Digits)
  {
    (c as int) - ('0' as int)
  }

  /** `int(s)` for a non-empty string of ASCII digits (leading zeros allowed). */
  function ParseNat(s: string): nat
    requires AllIn(s, Digits)
    decreases |s|
  {
    if |s| == 0 then 0 else 10 * ParseNat(s[..|s| - 1]) + DigitValue(s[|s| - 1])
  }

  /** `str(n)` for a natural number: its decimal digits, no leading zero. */
  function ShowNat(n: nat): (s: string)
    ensures |s| > 0 && AllIn(s, Digits)
    ensures |s| > 1 ==> s[0] != '0'
    decreases n
  {
    if n < 10 then [('0' as int + n) as char] else ShowNat(n / 10) + [('0' as int + n % 10) as char]
  }

  /** `int(str(n)) == n`. */
  lemma {:induction false} ParseShow(n: nat)
    ensures ParseNat(ShowNat(n)) == n
    decreases n
  {
    var s := ShowNat(n);
    if n >= 10 {
      ParseShow(n / 10);
      assert s[..|s| - 1] == ShowNat(n / 10);
    }
  }
}
