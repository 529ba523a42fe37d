/**
 `condenser`, the decoder from note and timing vectors back to ABC text.
 It has two verbatim copies: src/Generation/Vectorizing/Decoding.py:27-62
 and src/Generation/Decoding.py:25-60.

 A new group opens at each tick whose timing is 1. Each group is written
 as one note: the pitch of its first tick, moved by whole octaves into the
 table's range, and its length as a decimal suffix.
 */
module Condenser {
  import opened PyStr
  import opened NoteLexer
  import opened Vectorizer
  import opened RunLength

  /**
   `number_notes`: the pitch of each plain letter and of the rest `z`. It
   is the inverse of `chars_as_num`, which is also `num_as_chars` in
   src/Generation/Decoding/Decoding.py:33.
   */
  function NumberNotes(n: int): (r: Option<char>)
    ensures r.Some? ==> IsNoteLetter(r.value) && LetterValue(r.value) == n
  {
    match n
    case 60 => Some('C') case 62 => Some('D') case 64 => Some('E') case 65 => Some('F')
    case 67 => Some('G') case 69 => Some('A') case 71 => Some('B')
    case 72 => Some('c') case 74 => Some('d') case 76 => Some('e') case 77 => Some('f')
    case 79 => Some('g') case 81 => Some('a') case 83 => Some('b')
    case 0 => Some('z')
    case _ => None
  }

  /** Every letter of `chars_as_num` is in the table, under its own pitch. */
  lemma NumberNotesCovers(c: char)
    requires IsNoteLetter(c)
    ensures NumberNotes(LetterValue(c)) == Some(c)
  {
  }

  /** The pitches the table can spell, possibly with a sharp: the rest and the two octaves from middle C. */
  predicate InRange(n: int)
  {
    n == 0 || 60 <= n <= 83
  }

  /** `c * m` for a single character. */
  function Repeat(c: char, m: nat): (r: string)
    ensures |r| == m && forall i :: 0 <= i < m ==> r[i] == c
  {
    seq(m, _ => c)
  }

  /** Octave marks add 12 per `'` and take 12 per `,`. */
  lemma {:induction false} OctaveSumRepeat(c: char, m: nat)
    requires InClass(c, OctaveMarks)
    ensures AllIn(Repeat(c, m), OctaveMarks)
    ensures OctaveSum(Repeat(c, m)) == m * OctaveMod(c)
    decreases m
  {
    if m > 0 {
      OctaveSumRepeat(c, m - 1);
      assert Repeat(c, m)[1..] == Repeat(c, m - 1);
    }
  }

  /**
   Lines 44-52 (and 42-50 of the other copy): a pitch outside the table's
   range moves by whole octaves, into 72-83 from above and into 60-71 from
   below, with one octave mark per octave moved. Python's `//` floors; so
   does Dafny's `/` for a positive divisor.
   */
  function Normalise(num: int): (r: (int, string))
    ensures InRange(r.0) && AllIn(r.1, OctaveMarks)
    ensures r.0 + OctaveSum(r.1) == num
    ensures InRange(num) ==> r == (num, "")
    ensures num > 83 ==> 72 <= r.0 <= 83 && |r.1| > 0 && forall i :: 0 <= i < |r.1| ==> r.1[i] == '\''
    ensures !InRange(num) && num < 60 ==> 60 <= r.0 <= 71 && |r.1| > 0 && forall i :: 0 <= i < |r.1| ==> r.1[i] == ','
  {
    if InRange(num) then (num, "")
    else if num > 83 then
      var mult := (num - 72) / 12;
      OctaveSumRepeat('\'', mult);
      (num - 12 * mult, Repeat('\'', mult))
    else
      var mult := -((num - 60) / 12);
      OctaveSumRepeat(',', mult);
      (num + 12 * mult, Repeat(',', mult))
  }

  /**
   Lines 54-58: a pitch missing from the table is written as a sharp on the
   letter a semitone below, which always is in the table.
   */
  function Spell(n: int): (r: (bool, char))
    requires InRange(n)
    ensures IsNoteLetter(r.1)
    ensures r.0 <==> NumberNotes(n).None?
    ensures LetterValue(r.1) + (if r.0 then 1 else 0) == n
  {
    match NumberNotes(n)
    case Some(c) => (false, c)
    case None =>
      var below := NumberNotes(n - 1);
      assert below.Some?;
      (true, below.value)
  }

  /**
   The note a group is written as. `explicit` is the variant of
   src/Generation/Decoding/Decoding.py:57-61, which writes `=` on a
   natural; the condenser copies write nothing there.
   */
  function GroupToken(g: seq<int>, explicit: bool): (t: Token)
    requires |g| > 0
    ensures WellFormed(t) && !t.slash
  {
    var (num, marks) := Normalise(g[0]);
    var (sharp, letter) := Spell(num);
    var acc := if sharp then "^" else if explicit then "=" else "";
    var hold := if |g| != 1 then ShowNat(|g|) else "";
    Token(acc, letter, marks, hold, false, "")
  }

  /**
   The note of a group sounds the group's first pitch: with no key
   accidentals, and, when the accidental is explicit, under any key
   signature. Its duration digits give the group's length.
   */
  lemma GroupTokenPitch(g: seq<int>, explicit: bool, accs: string, mod: int)
    requires |g| > 0
    requires explicit || (accs == "" && mod == 0)
    ensures Pitch(GroupToken(g, explicit), accs, mod) == g[0]
    ensures explicit ==> GroupToken(g, explicit).accidentals in {"^", "="}
    ensures GroupToken(g, explicit).num == "" <==> |g| == 1
    ensures GroupToken(g, explicit).num != "" ==> ParseNat(GroupToken(g, explicit).num) == |g|
  {
    var t := GroupToken(g, explicit);
    var (num, marks) := Normalise(g[0]);
    var (sharp, letter) := Spell(num);
    if |g| != 1 {
      ParseShow(|g|);
    }
    if sharp {
      assert AccidentalSum("^") == 1;
    } else if explicit {
      assert AccidentalSum("=") == 0;
    }
  }

  function TokensOf(gs: seq<seq<int>>, explicit: bool): (ts: seq<Token>)
    requires forall k :: 0 <= k < |gs| ==> |gs[k]| > 0
    ensures |ts| == |gs|
    ensures forall k :: 0 <= k < |gs| ==> ts[k] == GroupToken(gs[k], explicit)
  {
    seq(|gs|, k requires 0 <= k < |gs| => GroupToken(gs[k], explicit))
  }

  /** Writing one more group adds its note at the end. */
  lemma TokensOfSnoc(gs: seq<seq<int>>, i: nat, explicit: bool)
    requires i < |gs| && forall k :: 0 <= k <= i ==> |gs[k]| > 0
    ensures TextAll(TokensOf(gs[..i + 1], explicit)) == TextAll(TokensOf(gs[..i], explicit)) + Text(GroupToken(gs[i], explicit))
  {
    assert TokensOf(gs[..i + 1], explicit) == TokensOf(gs[..i], explicit) + [GroupToken(gs[i], explicit)];
    TextAllSnoc(TokensOf(gs[..i], explicit), GroupToken(gs[i], explicit));
  }

  /**
   Reading the written notes back with the note pattern gives one token per
   group, each sounding the group's first pitch under `note_to_number`, and
   lasting as many ticks as the group.
   */
  lemma ReadBack(gs: seq<seq<int>>, explicit: bool, accs: string, mod: int)
    requires forall k :: 0 <= k < |gs| ==> |gs[k]| > 0
    requires explicit || (accs == "" && mod == 0)
    ensures Lex(TextAll(TokensOf(gs, explicit))) == TokensOf(gs, explicit)
    ensures forall k :: 0 <= k < |gs| ==>
      NoteToNumber(NoteText(TokensOf(gs, explicit)[k]), accs, mod) == Value(gs[k][0])
  {
    var ts := TokensOf(gs, explicit);
    LexTextAll(ts);
    forall k | 0 <= k < |gs|
      ensures NoteToNumber(NoteText(ts[k]), accs, mod) == Value(gs[k][0])
    {
      GroupTokenPitch(gs[k], explicit, accs, mod);
      NoteToNumberOfToken(ts[k], accs, mod);
    }
  }

  // ---------------------------------------------------------------------
  // Grouping the ticks (lines 28-36)
  // ---------------------------------------------------------------------

  /** The index at which each group starts. */
  function Starts(gs: seq<seq<int>>): set<int>
    decreases |gs|
  {
    if |gs| == 0 then {} else Starts(gs[..|gs| - 1]) + {|Concat(gs[..|gs| - 1])|}
  }

  /**
   The groups the first loop builds, tick by tick: tick `x` opens a new
   group when it is the first or when `held[x] == 1`.
   */
  function GroupsOf(pitches: seq<int>, held: seq<int>): (r: seq<seq<int>>)
    requires |pitches| <= 1 || |pitches| <= |held|
    ensures |r| <= |pitches| && (|r| == 0 <==> |pitches| == 0)
    ensures forall k :: 0 <= k < |r| ==> |r[k]| > 0
    decreases |pitches|
  {
    if |pitches| == 0 then []
    else
      var x := |pitches| - 1;
      var r := GroupsOf(pitches[..x], held);
      if x == 0 || held[x] == 1 then r + [[pitches[x]]]
      else AllButLast(r) + [Last(r) + [pitches[x]]]
  }

  /** One more tick either opens a group or extends the last one. */
  lemma GroupsOfSnoc(pitches: seq<int>, held: seq<int>, x: nat)
    requires x < |pitches| && (x == 0 || x < |held|)
    ensures var r := GroupsOf(pitches[..x], held);
      GroupsOf(pitches[..x + 1], held)
        == if x == 0 || held[x] == 1 then r + [[pitches[x]]] else AllButLast(r) + [Last(r) + [pitches[x]]]
  {
    assert pitches[..x + 1][..x] == pitches[..x];
  }

  /** The groups concatenate back to the pitches. */
  lemma {:induction false} GroupsOfConcat(pitches: seq<int>, held: seq<int>)
    requires |pitches| <= 1 || |pitches| <= |held|
    ensures Concat(GroupsOf(pitches, held)) == pitches
    decreases |pitches|
  {
    if |pitches| > 0 {
      var x := |pitches| - 1;
      var p := pitches[..x];
      GroupsOfConcat(p, held);
      assert pitches == p + [pitches[x]];
      ExtendConcat(GroupsOf(p, held), pitches[x], x == 0 || held[x] == 1);
    }
  }

  /**
   The group starts are the first tick and exactly the later ticks with
   `held[x] == 1`.
   */
  lemma {:induction false} GroupsOfStarts(pitches: seq<int>, held: seq<int>)
    requires |pitches| <= 1 || |pitches| <= |held|
    ensures StartsAt(Starts(GroupsOf(pitches, held)), |pitches|, held)
    decreases |pitches|
  {
    if |pitches| > 0 {
      var x := |pitches| - 1;
      GroupsOfStarts(pitches[..x], held);
      StartsStep(pitches, held);
      StartsGrow(Starts(GroupsOf(pitches[..x], held)), Starts(GroupsOf(pitches, held)), |pitches|, held);
    }
  }

  /**
   `s` is the set of group starts of `n` ticks: the first tick, when there
   is one, and exactly the later ticks whose timing is 1.
   */
  predicate StartsAt(s: set<int>, n: nat, held: seq<int>)
    requires n <= 1 || n <= |held|
  {
    (n > 0 ==> 0 in s)
    && (forall x :: 0 < x < n ==> (x in s <==> held[x] == 1))
    && (forall x :: x in s ==> 0 <= x < n)
  }

  /** The start facts for the first `n - 1` ticks, and the last tick's step, give them for `n` ticks. */
  lemma StartsGrow(s0: set<int>, s1: set<int>, n: nat, held: seq<int>)
    requires 0 < n && (n <= 1 || n <= |held|)
    requires StartsAt(s0, n - 1, held)
    requires n - 1 == 0 || held[n - 1] == 1 ==> s1 == s0 + {n - 1}
    requires !(n - 1 == 0 || held[n - 1] == 1) ==> s1 == s0
    ensures StartsAt(s1, n, held)
  {
  }

  /** The last tick adds its own index to the starts exactly when it opens a group. */
  lemma StartsStep(pitches: seq<int>, held: seq<int>)
    requires 0 < |pitches| && (|pitches| <= 1 || |pitches| <= |held|)
    ensures var x := |pitches| - 1;
      x == 0 || held[x] == 1 ==> Starts(GroupsOf(pitches, held)) == Starts(GroupsOf(pitches[..x], held)) + {x}
    ensures var x := |pitches| - 1;
      !(x == 0 || held[x] == 1) ==> Starts(GroupsOf(pitches, held)) == Starts(GroupsOf(pitches[..x], held))
  {
    var x := |pitches| - 1;
    var p := pitches[..x];
    var r := GroupsOf(p, held);
    var g := GroupsOf(pitches, held);
    if x == 0 || held[x] == 1 {
      assert g == r + [[pitches[x]]];
      GroupsOfConcat(p, held);
      assert |Concat(r)| == x;
      StartsOpen(r, pitches[x]);
    } else {
      assert g == AllButLast(r) + [Last(r) + [pitches[x]]];
      StartsJoin(r, pitches[x]);
    }
  }

  /** Opening a group adds a start at the end of the ticks so far. */
  lemma StartsOpen(r: seq<seq<int>>, y: int)
    ensures Starts(r + [[y]]) == Starts(r) + {|Concat(r)|}
  {
    assert (r + [[y]])[..|r|] == r;
  }

  /** Extending the last group adds no start. */
  lemma StartsJoin(r: seq<seq<int>>, y: int)
    requires |r| > 0
    ensures Starts(AllButLast(r) + [Last(r) + [y]]) == Starts(r)
  {
    var r' := AllButLast(r) + [Last(r) + [y]];
    assert r'[..|r'| - 1] == AllButLast(r);
  }

  /** One turn of the grouping loop: the tick joins the open group, or opens one. */
  lemma GroupsStep(pitches: seq<int>, held: seq<int>, x: nat, master: seq<seq<int>>, lst: seq<int>)
    requires x < |pitches| && (x == 0 || x < |held|)
    requires lst == [] ==> master == GroupsOf(pitches[..x], held)
    requires lst != [] ==> master + [lst] == GroupsOf(pitches[..x], held)
    requires lst == [] ==> x == 0 || held[x] == 1
    requires lst != [] ==> x > 0 && held[x] != 1
    ensures master + [lst + [pitches[x]]] == GroupsOf(pitches[..x + 1], held)
  {
    GroupsOfSnoc(pitches, held, x);
    if lst != [] {
      assert AllButLast(master + [lst]) == master;
    } else {
      assert [] + [pitches[x]] == [pitches[x]];
    }
  }

  /**
   The grouping loop of lines 28-36. Reading `held[x]` past its end raises
   IndexError, which happens exactly when there are at least two pitches
   and fewer timings than pitches.
   */
  method Groups(pitches: seq<int>, held: seq<int>) returns (r: Result<seq<seq<int>>>)
    ensures r.Raised? <==> 2 <= |pitches| && |held| < |pitches|
    ensures r.Raised? ==> r.exc == IndexError
    ensures r.Value? ==> r.value == GroupsOf(pitches, held)
  {
    var x := 0;
    var master: seq<seq<int>> := [];
    var lst: seq<int> := [];
    while x < |pitches|
      invariant 0 <= x <= |pitches|
      invariant x <= 1 || x - 1 < |held|
      invariant lst == [] ==> master == GroupsOf(pitches[..x], held)
      invariant lst != [] ==> master + [lst] == GroupsOf(pitches[..x], held)
      invariant lst == [] ==> x == 0 || x == |pitches| || (x < |held| && held[x] == 1)
      invariant lst != [] ==> 0 < x < |pitches| && x < |held| && held[x] != 1
    {
      GroupsStep(pitches, held, x, master, lst);
      lst := lst + [pitches[x]];
      x := x + 1;
      if x < |pitches| && |held| <= x {
        return Raised(IndexError);
      }
      if x == |pitches| || held[x] == 1 {
        master := master + [lst];
        lst := [];
      }
    }
    assert pitches[..x] == pitches;
    return Value(master);
  }

  /**
   `condenser(pitches, held)`: each group written as its note (explicit
   accidentals off), the notes concatenated.
   */
  method Condense(pitches: seq<int>, held: seq<int>) returns (r: Result<string>)
    ensures r.Raised? <==> 2 <= |pitches| && |held| < |pitches|
    ensures r.Raised? ==> r.exc == IndexError
    ensures r.Value? ==> r.value == TextAll(TokensOf(GroupsOf(pitches, held), false))
  {
    var gs := Groups(pitches, held);
    match gs
    case Raised(e) => return Raised(e);
    case Value(groups) =>
      var out := WriteGroups(groups);
      return Value(out);
  }

  /** The writing loop of `condenser`: one note per group, in order. */
  method WriteGroups(groups: seq<seq<int>>) returns (out: string)
    requires forall k :: 0 <= k < |groups| ==> |groups[k]| > 0
    ensures out == TextAll(TokensOf(groups, false))
  {
    out := "";
    for i := 0 to |groups|
      invariant out == TextAll(TokensOf(groups[..i], false))
    {
      TokensOfSnoc(groups, i, false);
      out := out + Text(GroupToken(groups[i], false));
    }
    assert groups[..|groups|] == groups;
  }

  /**
   The round trip of the condenser: the text it writes reads back as one
   note per group, each sounding the group's first pitch, and the groups
   are the pitches cut wherever the timing is 1.
   */
  lemma CondenseReadsBack(pitches: seq<int>, held: seq<int>)
    requires |pitches| <= 1 || |pitches| <= |held|
    ensures var gs := GroupsOf(pitches, held);
      Lex(TextAll(TokensOf(gs, false))) == TokensOf(gs, false)
      && Concat(gs) == pitches
      && forall k :: 0 <= k < |gs| ==> NoteToNumber(NoteText(TokensOf(gs, false)[k]), "", 0) == Value(gs[k][0])
  {
    GroupsOfConcat(pitches, held);
    ReadBack(GroupsOf(pitches, held), false, "", 0);
  }
}
