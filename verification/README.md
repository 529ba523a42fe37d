# GANs-n-reels: the ABC text pipeline in Dafny

GANs-n-reels trains a generative network on Irish session tunes written in
ABC notation. Everything around the network is string and list processing:

- cleaning the scraped tunes;
- counting their styles, meters and modes;
- turning bars into pitch and timing vectors and back;
- writing generated pitches as ABC again;
- the random baseline generator;
- the web page's tune writer.

This project models that processing as pure Dafny functions and small
methods, and proves what each step promises.

Modules, one per source component:

- `PyStr`: the Python `str` operations the code relies on, with their exact semantics:
  - `find`, `count`, `split` and `replace`, all leftmost and non-overlapping;
  - `in`;
  - slicing with negative and clamped bounds;
  - the whitespace split.
- `Cleaner`, with `BarWalk`: PreProcessing/Cleaner.py, which
  - strips whitespace and normalises bar lines;
  - refuses unsafe tunes;
  - unrolls simple repeats `|: … :|`;
  - unrolls first and second endings `|1 … :|2 …`.

  Exceptions are values (`IndexError`, `ValueError`) and so are the sentinels
  `!!BAD ABC!!`, `!!VALUE ERROR!!` and the ending-mismatch markers. A `fuel`
  argument bounds the cleaner's unbounded recursion.
- `EndingReplay`, `SimpleReplay`: what the cleaner makes of tunes of plain
  bars, with one pair of first and second endings, or with repeats marked
  only by `|:` or only by `:|`.
- `NoteLexer`: the note pattern `([_=^]*[a-gzA-G][,']*)(\d*)/?(\d*)` and
  `re.findall` with it.
- `RunLength`: maximal runs of a sequence, the reference for every run-length writer in
  the code.
- `Vectorizer`: src/Generation/Vectorizing/Vectorizer.py. It covers
  - pitch tables, key signatures and transposition;
  - `note_to_number`;
  - a bar as ticks with padding;
  - splitting a tune into bars.
- `Condenser`: `condenser` and `number_notes`, which appear verbatim in both
  src/Generation/Vectorizing/Decoding.py and src/Generation/Decoding.py.
- `Decoding`: src/Generation/Decoding/Decoding.py: `convert_note_list`,
  `decode_song`, `parse_raw_abc` and `from_raw_abc`.
- `TuneCleaning`: the row filters and regular-expression rewrites of
  Music/Data/Tune_Cleaning.py.
- `Analysis`: the letter expansion `clean` and the D major rounding of
  src/Model/analysis.py.
- `Corpus`, `Stats`, `GenerateStats`: the category counters of
  src/Generation/Cleaning/Stats.py and PreProcessing/Generate_Stats.py.
- `GenerateFiles`: `create_dict` of PreProcessing/Generate_Files.py and
  `create_dict_list` of src/Generation/Generate_Files.py.
- `CsvCleaner`: the bar condensing script src/L/CSVCleaner.py.
- `RandomSongGen`: src/Generation/Random/RandomSongGen.py. Every random draw
  is an input: an index into the list `random.choice` would draw from, or
  the integer `random.randint` would return.
- `AudioConverter`: output-format choice and tune argument of
  src/Generation/Decoding/Audio_Converter.py.
- `SiteGenerator`: `note_to_d_major`, `argMin`, `convertNoteToABC` and
  `convertToABC` of Site/assets/js/generator.js.

Python's `//` and `%` floor; Dafny's `/` and `%` agree with them for a
positive divisor. One division of the code can have any divisor:
`8 // beat` at src/Generation/Random/RandomSongGen.py:62, where `beat` is
read from the time-signature text and may be zero or negative.
`RandomSongGen.FloorDiv` models that division for either sign, and
`RandomSongGen.NotesPerPhrase` raises ZeroDivisionError for a zero beat.
Every other `//` and `%` the model covers divides by a constant, or by a
note length that has already passed a `/` which raises on zero.
JavaScript's `%` is modelled separately (`SiteGenerator.JsRem`).

The regular-expression rewrites follow `re` from Python 3.7 on: after an
empty match, the scan retries the same position for a non-empty match.

## Model

| member | source | states |
|---|---|---|
| Cleaner.SafeAbc | PreProcessing/Cleaner.py:28-36 | a tune is safe exactly when none of `"`, `V`, `T`, `M`, `{`, `}`, `~` and `K:` occurs in it |
| Cleaner.SafeFrom | PreProcessing/Cleaner.py:33-36 | the loop answers true exactly when no mark of the list occurs in the text |
| Cleaner.DropComposer | PreProcessing/Cleaner.py:6-7 | a tune opening with `C:` keeps only what follows its first `\|`; without a `\|` it raises ValueError; any other tune is unchanged |
| Cleaner.TrimOpening | PreProcessing/Cleaner.py:8-13 | the text is emptied exactly when it is `""`, `\|`, `[\|` or `[\|\|`; every character left comes from the input |
| Cleaner.TrimEdges | PreProcessing/Cleaner.py:8-17 | IndexError exactly for the four texts the opening trim empties; otherwise a non-empty text that neither starts nor ends with `:`, made of input characters and `\|` |
| Cleaner.NormaliseBars | PreProcessing/Cleaner.py:19-24 | the result holds no `\` and no `\x14`; every character comes from the input or is a `\|` or `:` of a rewritten bar |
| Cleaner.RemoveWhitespace | PreProcessing/Cleaner.py:3-25 | the result holds no whitespace, no `\` and no `\x14`; the ValueError comes exactly from a composer field without a bar line, and any other exception is an IndexError |
| Cleaner.RemoveSimpleRepeat | PreProcessing/Cleaner.py:168-195 | a text with neither `\|:` nor `:\|` is closed by one bar line (the one-marker cases are stated by the two lemmas below) |
| Cleaner.SplitOnOpen | PreProcessing/Cleaner.py:184-194 | without `\|:` the whole text is the head, closed by one bar line |
| Cleaner.SimpleRepeatCloseOnly | PreProcessing/Cleaner.py:168-182 | with closing markers only, every segment before a `:\|` is played twice and the tail once |
| Cleaner.SimpleRepeatOpenOnly | PreProcessing/Cleaner.py:184-195 | with opening markers only, the head is played once and every segment after a `\|:` twice |
| Cleaner.Unopened | PreProcessing/Cleaner.py:44 | a leading `\|:` is dropped and nothing else changes |
| Cleaner.CollapseBars | PreProcessing/Cleaner.py:218-220 | the result is empty exactly when the input is, holds no `[\|`, and holds a sentinel exactly when the input does |
| Cleaner.DropLeadingBar | PreProcessing/Cleaner.py:221 | a sentinel is present after exactly when before, and no `[\|` is created |
| Cleaner.Finish | PreProcessing/Cleaner.py:218-227 | a text holding a sentinel becomes exactly `!!BAD ABC!!`; an empty text raises IndexError; otherwise the tune ends in `]` without `[\|` |
| Cleaner.RemoveRepeats | PreProcessing/Cleaner.py:210-227 | the result is exactly `!!BAD ABC!!` or a bar list ending in `]` without `[\|`; no ValueError escapes |
| Cleaner.RemoveRepeatsPlain | PreProcessing/Cleaner.py:210-227 | a non-empty tune with no repeat or ending marker, no `\|\|`, `\|]`, `[\|`, no leading bar and no sentinel comes back with `]` appended |
| Cleaner.Expand | PreProcessing/Cleaner.py:211-216 | only IndexError escapes, and a text without repeat or ending markers passes through unchanged |
| Cleaner.RemoveDualRepeat | PreProcessing/Cleaner.py:90-95 | an empty text is returned as it is; a text opening with `1` or `:` is malformed; no ValueError escapes |
| Cleaner.ExpandEndings | PreProcessing/Cleaner.py:104-165 | more `:\|2` than `\|1` gives the END2 marker; equal counts with a segment lacking `\|1` give MISMATCH; more `\|1` without a stray `\|2` gives END1 |
| Cleaner.ExpandPairs | PreProcessing/Cleaner.py:116-143 | with no pair left the accumulated text is returned; a missing `\|1` or `:\|2` raises ValueError; a result extends the accumulated text; only IndexError or ValueError is raised |
| Cleaner.RemoveSingleDualRepeat | PreProcessing/Cleaner.py:39-87 | a result is a sentinel or holds no repeat marker; no `:\|2` gives the blank-ending sentinel; a first part without exactly one `\|1` gives the VALUE ERROR sentinel; only IndexError escapes |
| Cleaner.ExpandSingle | PreProcessing/Cleaner.py:50-81 | a first part with no `:\|` and not exactly one `\|1` (after its `\|:`, if any) raises ValueError |
| Cleaner.Clean | PreProcessing/Cleaner.py:230-233 | a result is `!!BAD ABC!!` or a bar list closed by `]` without `[\|`; the ValueError comes exactly from a composer field with no bar line, and any other exception is an IndexError |
| EndingReplay.ExpandSingleReplay | PreProcessing/Cleaner.py:50-53 | with no repeat marks, a first part `b\|1f` and a second ending `g` of plain bars give `b\|f\|b\|g\|]`: the shared bars before each ending |
| EndingReplay.ExpandSingleOpened | PreProcessing/Cleaner.py:55-59 | with one `\|:` in the first part, `up\|:b\|1f` and `g` give `up\|b\|f\|b\|g\|]`: the bars before `\|:` once, the repeated bars before each ending |
| EndingReplay.ReplayEnding | PreProcessing/Cleaner.py:39-53 | `remove_single_dual_repeat` turns a tune `b\|1f:\|2g` of plain bars into `b\|f\|b\|g\|]` |
| EndingReplay.ReplayEndingOpened | PreProcessing/Cleaner.py:39-59 | `remove_single_dual_repeat` turns `up\|:b\|1f:\|2g` into `up\|b\|f\|b\|g\|]` |
| EndingReplay.WhitespaceFixed | PreProcessing/Cleaner.py:3-25 | a tune with no whitespace, no colon outside its repeat marks and a plain first bar passes `remove_whitespace` unchanged |
| EndingReplay.ReplayRemoveRepeats | PreProcessing/Cleaner.py:210-227 | `remove_repeats` turns `b\|1f:\|2g` of plain bars into `b\|f\|b\|g\|]` |
| EndingReplay.ReplayRemoveRepeatsOpened | PreProcessing/Cleaner.py:210-227 | `remove_repeats` turns `up\|:b\|1f:\|2g` into `up\|b\|f\|b\|g\|]` |
| EndingReplay.CleanReplay | PreProcessing/Cleaner.py:230-233 | `clean` turns `b\|1f:\|2g` of plain bars into `b\|f\|b\|g\|]` |
| EndingReplay.CleanReplayOpened | PreProcessing/Cleaner.py:230-233 | `clean` turns `up\|:b\|1f:\|2g` into `up\|b\|f\|b\|g\|]` |
| EndingReplay.CleanDualRepeatDoubleBar | src/Generation/Cleaning/Cleaner_test.py:59 | `A\|B\|C\|1E:\|2F\|\|` is cleaned to `A\|B\|C\|E\|A\|B\|C\|F\|]` |
| EndingReplay.CleanDualRepeatSingleBar | src/Generation/Cleaning/Cleaner_test.py:63 | `A\|B\|C\|1E:\|2F\|` is cleaned to `A\|B\|C\|E\|A\|B\|C\|F\|]` |
| EndingReplay.CleanDualRepeatOpened | PreProcessing/Cleaner.py:55-59 | `A\|:CB\|1DD:\|2EE\|` is cleaned to `A\|CB\|DD\|CB\|EE\|]` |
| SimpleReplay.WhitespaceOpened | PreProcessing/Cleaner.py:3-25 | a tune of plain bars with opening marks only passes `remove_whitespace` unchanged |
| SimpleReplay.DispatchOpened | PreProcessing/Cleaner.py:211-214 | a text with `\|:`, no `:\|` and no ending goes to `remove_simple_repeat` |
| SimpleReplay.SplitOpened | PreProcessing/Cleaner.py:184-185 | splitting `up\|:x1\|:x2…\|:xn` and its trailing bar lines on `\|:` gives `up`, then the segments, the last one carrying the trailing bar lines |
| SimpleReplay.ExpandOpened | PreProcessing/Cleaner.py:183-195 | `remove_simple_repeat` writes the bars before the first `\|:` once, then every segment twice |
| SimpleReplay.CollapseSegment | PreProcessing/Cleaner.py:218 | the doubled or tripled bar lines after the last segment fold to one |
| SimpleReplay.FinishOpened | PreProcessing/Cleaner.py:218-227 | the expansion of an opened tune folds to the bars before the first mark, every segment twice, and `]` |
| SimpleReplay.RemoveRepeatsOpened | PreProcessing/Cleaner.py:210-227 | `remove_repeats` turns `up\|:x1…\|:xn` of plain bars into `up\|` (nothing when `up` is empty), every segment twice, and `]`, with any fuel above zero |
| SimpleReplay.CleanOpened | PreProcessing/Cleaner.py:230-233 | `clean` turns `up\|:x1…\|:xn` of plain bars into `up\|`, every segment twice, and `]`, with any fuel above zero |
| SimpleReplay.WhitespaceClosed | PreProcessing/Cleaner.py:3-25 | a tune of plain bars with closing marks only passes `remove_whitespace` unchanged when its first bar is not a lone `C` |
| SimpleReplay.DispatchClosed | PreProcessing/Cleaner.py:211-214 | a text with `:\|`, no `\|:` and no `:\|2` or `\|1` goes to `remove_simple_repeat` |
| SimpleReplay.SplitClosed | PreProcessing/Cleaner.py:172-173 | splitting `x1:\|x2:\|…xn:\|end` on `:\|` gives the segments, then the trailing bar lines |
| SimpleReplay.ExpandClosed | PreProcessing/Cleaner.py:171-181 | `remove_simple_repeat` writes every segment twice, then the trailing bar lines and `\|` |
| SimpleReplay.CollapseEnd | PreProcessing/Cleaner.py:218 | a run of bars followed by two to four bar lines folds to the run and one bar line |
| SimpleReplay.FinishClosed | PreProcessing/Cleaner.py:218-227 | the expansion of a closed tune folds to every segment twice and `]` |
| SimpleReplay.RemoveRepeatsClosed | PreProcessing/Cleaner.py:210-227 | `remove_repeats` turns `x1:\|…xn:\|` of plain bars into every segment twice and `]`, when no later segment opens with `2`, with any fuel above zero |
| SimpleReplay.CleanClosed | PreProcessing/Cleaner.py:230-233 | `clean` turns `x1:\|…xn:\|` of plain bars into every segment twice and `]`, when the first bar is not a lone `C` and no later one opens with `2`, with any fuel above zero |
| SimpleReplay.CleanSimpleRepeatOpened | src/Generation/Cleaning/Cleaner_test.py:36-39 | `\|:A\|:B\|:C\|:D\|\|` is cleaned to `A\|A\|B\|B\|C\|C\|D\|D\|]`, with any fuel above zero |
| SimpleReplay.CleanSimpleRepeatClosed | src/Generation/Cleaning/Cleaner_test.py:36-40 | `A:\|B:\|C:\|D:\|` is cleaned to `A\|A\|B\|B\|C\|C\|D\|D\|]`, with any fuel above zero |
| BarWalk.SkipBars | PreProcessing/Cleaner.py:126-127 | the first position at or after `k` that is not `\|`, every position skipped being `\|`; `None` exactly when the run reaches the end |
| BarWalk.CountFirstEndingRuns | PreProcessing/Cleaner.py:120-128 | when neither end is a `\|`, the first loop never fails and counts exactly the runs opening after `loc1` up to `loc2` |
| BarWalk.SkipBarsToEnd | PreProcessing/Cleaner.py:136-138 | the first non-`\|` position at or after `k`, or the end of the text |
| BarWalk.FindSecondEnding | PreProcessing/Cleaner.py:130-139 | the walk from `fin` never goes back, moves when there are bars to pass, and stops at most one past the end |
| BarWalk.FindSecondEndingRuns | PreProcessing/Cleaner.py:130-139 | the walk passes exactly `bars` runs of `\|`, unless the text ends first |
| BarWalk.SecondEndingMirrorsFirst | PreProcessing/Cleaner.py:117-140 | the second ending spans as many runs of bar lines as the first ending, unless the text ends first |
| NoteLexer.NextToken | src/Generation/Vectorizing/Vectorizer.py:113 | the match at the head is a well-formed token whose text is exactly the characters consumed, at least one |
| NoteLexer.Lex | src/Generation/Vectorizing/Vectorizer.py:113-114 | every match is a well-formed token (its inverse is stated by `NoteLexer.LexTextAll`) |
| NoteLexer.NextTokenOf | src/Generation/Vectorizing/Vectorizer.py:113 | the head of a token's text followed by more text is matched as that token, ending where the rest starts |
| NoteLexer.LexToken | src/Generation/Vectorizing/Vectorizer.py:113-114 | a well-formed token is read back as itself, whatever note follows it |
| NoteLexer.LexTextAll | src/Generation/Vectorizing/Vectorizer.py:113-114 | lexing the written texts of well-formed tokens gives back the tokens: the lexer inverts the writer |
| NoteLexer.LexNoLetter | src/Generation/Vectorizing/Vectorizer.py:113-114 | a text with no note letter holds no token |
| NoteLexer.ParseShow | src/Generation/Vectorizing/Vectorizer.py:119 | `int(str(n)) == n` for the digits the writers emit |
| RunLength.RunsOfConcat | src/Generation/Decoding/Decoding.py:77-87 | the maximal runs concatenate back to the input |
| RunLength.RunsOfConstant | src/Generation/Decoding/Decoding.py:77-87 | every run is non-empty and repeats one value |
| RunLength.RunsOfAlternate | src/Generation/Decoding/Decoding.py:77-87 | neighbouring runs hold different values, so the runs are maximal |
| RunLength.EmittedRuns | src/Generation/Decoding/Decoding.py:122-128 | a scan that emits a run only when a new value arrives leaves the last run unemitted; the emitted runs and the last run make up the input |
| Vectorizer.LetterOctaves | src/Generation/Vectorizing/Vectorizer.py:17-33 | a lower-case letter sounds an octave above its capital, and C to B climb the C major scale |
| Vectorizer.AccidentalSumCounts | src/Generation/Vectorizing/Vectorizer.py:35 | each `^` raises a semitone, each `_` lowers one, `=` adds nothing |
| Vectorizer.OctaveSumCounts | src/Generation/Vectorizing/Vectorizer.py:36 | each `'` raises an octave and each `,` lowers one |
| Vectorizer.TonicOffset | src/Generation/Vectorizing/Vectorizer.py:39-42 | the offset of a one-character key is the key table's entry for it |
| Vectorizer.FifthsIndex | src/Generation/Vectorizing/Vectorizer.py:45-48 | every pitch class has a position among the twelve keys of the list |
| Vectorizer.Diff | src/Generation/Vectorizing/Vectorizer.py:147-151 | fails only with IndexError or KeyError; otherwise a count of sharps or flats from -5 to 6 |
| Vectorizer.DiffIsFifths | src/Generation/Vectorizing/Vectorizer.py:147-151 | the relative major lies `diff` fifths above C: seven times `diff` is the tonic less the mode, modulo 12 |
| Vectorizer.GetSharpsOrFlats | src/Generation/Vectorizing/Vectorizer.py:144-158 | the code as written: raises when the key lookup does, and the sign flag is 1, -1 or 0 with the sign of `diff` |
| Vectorizer.GetSharpsOrFlatsMiscounts | src/Generation/Vectorizing/Vectorizer.py:153-158 | as written, a sharp key gets `diff - 1` sharps and a flat key `6 + diff` flats; it agrees with the key signature only for three flats |
| Vectorizer.GMajorAsWritten | src/Generation/Vectorizing/Vectorizer.py:153-154 | G major (one sharp) gets no accidental as written, where its signature is `F` |
| Vectorizer.FMajorAsWritten | src/Generation/Vectorizing/Vectorizer.py:155-156 | F major (one flat) gets `BEADG` as written, where its signature is `B` |
| Vectorizer.KeySignature | src/Generation/Vectorizing/Vectorizer.py:144-158 | the corrected signature: the first `\|diff\|` letters of `FCGDAEB` or of `BEADGCF`, with the sign flag of `diff` |
| Vectorizer.TransposeTune | src/Generation/Vectorizing/Vectorizer.py:161-174 | raises exactly when the key lookup does; otherwise a shift from -6 to 5 congruent to `7 * diff` semitones modulo 12 |
| Vectorizer.ShortShift | src/Generation/Vectorizing/Vectorizer.py:168-174 | the shift lies from -6 to 5 and is congruent to `7 * diff` modulo 12 |
| Vectorizer.TransposeShortest | src/Generation/Vectorizing/Vectorizer.py:168-174 | no shift with the same pitch class is shorter than the one chosen |
| Vectorizer.ShiftNotes | src/Generation/Vectorizing/Vectorizer.py:77 | the shift is added to every tick of every bar, the shape kept |
| Vectorizer.ShiftNotesBack | src/Generation/Vectorizing/Vectorizer.py:77 | shifting back by the same amount undoes a shift |
| Vectorizer.ShiftNotesRests | src/Generation/Vectorizing/Vectorizer.py:77 | a rest (0) becomes the shift itself: rests are transposed too |
| Vectorizer.NoteToNumber | src/Generation/Vectorizing/Vectorizer.py:177-191 | only AttributeError can be raised (when it is raised is stated by `NoteToNumberRaises`) |
| Vectorizer.NoteToNumberOfToken | src/Generation/Vectorizing/Vectorizer.py:177-191 | the pitch part of a well-formed token reads back as that token's pitch: letter, accidentals or the key's modifier, and octave marks |
| Vectorizer.NoteToNumberRaises | src/Generation/Vectorizing/Vectorizer.py:178-179 | `note_to_number` raises exactly when the text has no note letter |
| Vectorizer.Block | src/Generation/Vectorizing/Vectorizer.py:126-131 | a token's ticks: `reps` of them, each holding its pitch, timed by an onset 1 and then 0s |
| Vectorizer.TicksRuns | src/Generation/Vectorizing/Vectorizer.py:115-131 | the ticks form runs; there is one onset per token when the loop finishes and fewer when it stops early |
| Vectorizer.TicksLength | src/Generation/Vectorizing/Vectorizer.py:115-131 | when every token is exact and lasts at least a tick, the loop finishes with the ticks of all its tokens |
| Vectorizer.TicksStopped | src/Generation/Vectorizing/Vectorizer.py:124-125 | the early return hands back exactly the ticks of the tokens before the first inexact one, unpadded |
| Vectorizer.TicksFinished | src/Generation/Vectorizing/Vectorizer.py:115-131 | a loop that finishes has expanded every token, each exact and at least a tick long; token `i` owns the ticks starting after those of the tokens before it: its pitch in each, an onset then holds |
| Vectorizer.Pad | src/Generation/Vectorizing/Vectorizer.py:133-140 | a short bar is padded with zeros to the subdivision, after the notes for fewer than 4 tokens and before them otherwise; a long bar is unchanged |
| Vectorizer.VectorizeBar | src/Generation/Vectorizing/Vectorizer.py:106-141 | only ZeroDivisionError or IndexError can be raised, and the note and timing rows have equal length |
| Vectorizer.VectorizeBarLength | src/Generation/Vectorizing/Vectorizer.py:133-140 | a padded bar has at least the subdivision's ticks, exactly that many unless it is too long |
| Vectorizer.SplitByBar | src/Generation/Vectorizing/Vectorizer.py:98-103 | every bar is non-empty |
| Vectorizer.SplitByBarSpec | src/Generation/Vectorizing/Vectorizer.py:98-103 | the bars hold no `\|` and concatenate to the text with every `\|` removed |
| Vectorizer.VectorizeAbc | src/Generation/Vectorizing/Vectorizer.py:82-95 | as written: raises when the key lookup does; otherwise the bars of `split_by_bar` vectorized in order under the accidentals `get_sharps_or_flats` gives, miscount included |
| Vectorizer.VectorizeAbcIntended | src/Generation/Vectorizing/Vectorizer.py:82-95 | as intended: the same under the key signature of `KeySignature` |
| Vectorizer.VectorizeAbcAgrees | src/Generation/Vectorizing/Vectorizer.py:88 | the two agree when the key lookup fails, for keys without accidentals and for three flats |
| Vectorizer.GMajorLoneF | src/Generation/Vectorizing/Vectorizer.py:88 | in G major the bar `f` starts at pitch 77 as written and 78 as intended, so the miscount reaches the vectors |
| Vectorizer.LoneF | src/Generation/Vectorizing/Vectorizer.py:106-140 | a bar holding only `f` vectorizes, and its first tick is F (77) raised by the key's modifier exactly when `F` is among the accidentals |
| Vectorizer.OneBar | src/Generation/Vectorizing/Vectorizer.py:98-103 | a non-empty text without a bar line splits into itself as its only bar |
| Vectorizer.VectorizeBars | src/Generation/Vectorizing/Vectorizer.py:91-95 | succeeds exactly when every bar does, and then holds each bar's two rows in order |
| Vectorizer.VectorizeRowUnshifts | src/Generation/Vectorizing/Vectorizer.py:75-77 | a row fails exactly when its tune fails to vectorize; otherwise its timings are the tune's and its notes, shifted back by the transposition, are the tune's |
| Condenser.NumberNotes | src/Generation/Vectorizing/Decoding.py:8-24 | every pitch the table knows is spelled by a note letter that sounds that pitch |
| Condenser.NumberNotesCovers | src/Generation/Vectorizing/Decoding.py:8-24 | every letter of `chars_as_num` is in the table under its own pitch |
| Condenser.OctaveSumRepeat | src/Generation/Vectorizing/Decoding.py:46-52 | `m` octave marks add or take `12 * m` |
| Condenser.Normalise | src/Generation/Vectorizing/Decoding.py:44-52 | a pitch outside the table's range moves by whole octaves into 60-83, one octave mark per octave moved, and the marks restore the pitch |
| Condenser.Spell | src/Generation/Vectorizing/Decoding.py:54-58 | a pitch missing from the table is a sharp on the letter a semitone below, which is always in the table |
| Condenser.GroupToken | src/Generation/Vectorizing/Decoding.py:43-61 | the written note of a group is a well-formed token without a `/` |
| Condenser.GroupTokenPitch | src/Generation/Vectorizing/Decoding.py:43-61 | the note sounds the group's first pitch without key accidentals, and under any key when the accidental is explicit; its count is empty for one tick and the group's length otherwise |
| Condenser.GroupsOf | src/Generation/Vectorizing/Decoding.py:28-36 | every group is non-empty, there are no more groups than pitches, and none exactly when there are no pitches |
| Condenser.GroupsOfConcat | src/Generation/Vectorizing/Decoding.py:28-36 | the groups concatenate back to the pitches |
| Condenser.GroupsOfStarts | src/Generation/Vectorizing/Decoding.py:28-36 | the group starts are the first tick and exactly the later ticks whose timing is 1 |
| Condenser.Groups | src/Generation/Vectorizing/Decoding.py:28-36 | IndexError exactly when there are two or more pitches and fewer timings than pitches; otherwise the groups of the pitches |
| Condenser.WriteGroups | src/Generation/Vectorizing/Decoding.py:38-62 | one note per group, in order |
| Condenser.Condense | src/Generation/Vectorizing/Decoding.py:27-62 | IndexError exactly when there are two or more pitches and fewer timings; otherwise the notes of the groups, concatenated |
| Condenser.ReadBack | src/Generation/Vectorizing/Decoding.py:38-62 | reading the written notes back gives one token per group, each sounding the group's first pitch and lasting as many ticks as the group |
| Condenser.CondenseReadsBack | src/Generation/Vectorizing/Decoding.py:27-62 | the condenser's round trip: its text reads back as one note per group, at the group's first pitch, the groups cutting the pitches wherever the timing is 1 |
| Decoding.ConvertNoteList | src/Generation/Decoding/Decoding.py:36-67 | IndexError exactly when some run is empty; otherwise each run's note with an explicit accidental, in order |
| Decoding.ConvertNoteListReadsBack | src/Generation/Decoding/Decoding.py:46-66 | each written note reads back as its run's first pitch under any key signature, and its digits give the run's length |
| Decoding.DecodeSong | src/Generation/Decoding/Decoding.py:77-87 | IndexError for an empty tune or first bar; otherwise the emitted runs, the first cell counted twice and the last run never emitted |
| Decoding.DecodeSongRuns | src/Generation/Decoding/Decoding.py:77-87 | the emitted runs are non-empty, constant, and each differs from the one before; with the last run they spell every cell, the first twice |
| Decoding.DecodeTune | src/Generation/Decoding/Decoding.py:99-102 | only an empty tune or first bar raises; otherwise the text is the emitted runs written with explicit accidentals |
| Decoding.Words | src/Generation/Decoding/Decoding.py:117-118 | the note texts are exactly what the lexer finds once every `\|` is deleted |
| Decoding.CountRuns | src/Generation/Decoding/Decoding.py:119-128 | the counting loop writes every run but the last, each as its text and its length when above one |
| Decoding.ParseRawAbc | src/Generation/Decoding/Decoding.py:114-131 | IndexError exactly when the tune has no note; otherwise every run but the last, written back |
| Decoding.ParseRawAbcRuns | src/Generation/Decoding/Decoding.py:114-131 | the emitted runs are maximal, and with the unemitted last run they are all the notes of the tune, bar lines removed |
| Decoding.FromRawAbc | src/Generation/Decoding/Decoding.py:256-267 | the table holds the cleaned tune exactly when `override` is set or the tune is not the failure sentinel, and `tritone` otherwise |
| TuneCleaning.Apply | Music/Data/Tune_Cleaning.py:42-67 | the rows a filter keeps form a subsequence: no longer, every row from the input |
| TuneCleaning.ApplyKeeps | Music/Data/Tune_Cleaning.py:42-67 | a row survives a filter exactly when it was there and the filter does not drop it |
| TuneCleaning.ApplyAppend | Music/Data/Tune_Cleaning.py:42-67 | filtering distributes over concatenation, so the survivors keep their order |
| TuneCleaning.FilterTunes | Music/Data/Tune_Cleaning.py:28-39 | never adds a row |
| TuneCleaning.FilterTunesKeeps | Music/Data/Tune_Cleaning.py:28-67 | keeps exactly the rows that meet every enabled test: meter `4/4`, no tuplet, no accidental, at least `min_str_len` characters |
| TuneCleaning.DeleteSpans | Music/Data/Tune_Cleaning.py:84-89 | the lazy `open.*?close` deletion never lengthens the text |
| TuneCleaning.DeleteSpansLeavesNone | Music/Data/Tune_Cleaning.py:84-89 | no `open … close` span is left within a line |
| TuneCleaning.DeleteSpansKeepsLines | Music/Data/Tune_Cleaning.py:112-117 | spans never cross a line: every newline survives |
| TuneCleaning.DeleteSpansAbsent | Music/Data/Tune_Cleaning.py:129-135 | a text without the opening character is unchanged |
| TuneCleaning.StripOrnaments | Music/Data/Tune_Cleaning.py:92-110 | the text never grows |
| TuneCleaning.StripOrnamentsSpec | Music/Data/Tune_Cleaning.py:92-110 | no decoration character is left, and every other character keeps its number of occurrences |
| TuneCleaning.BarSymbols | Music/Data/Tune_Cleaning.py:125 | the text never grows |
| TuneCleaning.BarSymbolsPlain | Music/Data/Tune_Cleaning.py:125 | a text with no `:`, `[` or `]` is unchanged |
| TuneCleaning.SquashBars | Music/Data/Tune_Cleaning.py:126 | the text never grows, is empty exactly when the input is, and starts with a bar line exactly when the input does |
| TuneCleaning.SquashBarsSingle | Music/Data/Tune_Cleaning.py:126 | no two bar lines are adjacent afterwards |
| TuneCleaning.SquashBarsKeepsNotes | Music/Data/Tune_Cleaning.py:126 | only bar lines are removed: without bar lines input and output agree, and a bar line is left exactly when there was one |
| TuneCleaning.CleanBarlines | Music/Data/Tune_Cleaning.py:120-127 | no two bar lines are adjacent in the result |
| TuneCleaning.CleanSlursKeepsLines | Music/Data/Tune_Cleaning.py:137-143 | the parentheses of `(.*?)` are a group, so every character `.` matches is deleted: `clean_slurs` leaves exactly the text's line breaks, as many as there were |
| TuneCleaning.CleanSlursIntendedSpec | Music/Data/Tune_Cleaning.py:137-143 | the pass the docstring describes, `\(.*?\)`, leaves no slur within a line, keeps every line break, and leaves text without `(` unchanged |
| TuneCleaning.SlurredBarEmptied | Music/Data/Tune_Cleaning.py:142 | `a(b)c` becomes empty as written, and `ac` under the intended pattern |
| TuneCleaning.CleanTunes | Music/Data/Tune_Cleaning.py:74-81 | the same number of rows, each keeping its key and meter |
| TuneCleaning.CleanAbcNoOrnaments | Music/Data/Tune_Cleaning.py:74-81 | with `ornamentation` on, no decoration character is left after the later passes |
| TuneCleaning.GraceNoteBetweenBars | Music/Data/Tune_Cleaning.py:74-81 | with every pass but `slurs` on, grace notes are removed after the bar lines are squashed, so `\|{g}\|` becomes `\|\|` |
| TuneCleaning.CleanAbcSlurred | Music/Data/Tune_Cleaning.py:74-81 | with `slurs` on, the cleaned tune holds only line breaks |
| TuneCleaning.GraceNoteAllPasses | Music/Data/Tune_Cleaning.py:74-81 | with every pass on, `\|{g}\|` becomes empty |
| Analysis.Clean | src/Model/analysis.py:11-20 | the output is the letter expansion of the tune and holds only letters |
| Analysis.ExpandedLetters | src/Model/analysis.py:11-20 | the expansion holds only letters |
| Analysis.ExpandedSkips | src/Model/analysis.py:11-20 | a character that is neither a letter nor a digit changes nothing, wherever it stands |
| Analysis.CleanUnrolls | src/Model/analysis.py:11-20 | `clean` inverts run-length writing with counts 1 to 9: a letter and its count give that many copies |
| Analysis.UnrollStep | src/Model/analysis.py:14-19 | one written run after any text adds its copies and makes its letter the last one |
| Analysis.UnrollDigit | src/Model/analysis.py:18-19 | a letter followed by the digit `n` adds `n - 1` more copies |
| Analysis.FirstMin | src/Model/analysis.py:31-32 | `np.argmin`: the index holds a smallest value and every earlier index a larger one |
| Analysis.NoteToDMajorNearest | src/Model/analysis.py:25-33 | the result is the scale note nearest the note within its octave, the lower on a tie; at most one below and two above; pitch class in D major |
| Analysis.ScaleChoice | src/Model/analysis.py:26-32 | the chosen scale note is no further than any other, the lower on a tie, never the C sharp above |
| Analysis.NearestInRange | src/Model/analysis.py:26-32 | the first nearest scale note is at most one below and two above the pitch class |
| Corpus.IntOf | PreProcessing/Generate_Stats.py:23 | the only exception is ValueError; which texts it accepts, and their values, are stated by the lemmas below |
| Corpus.IntOfPadded | PreProcessing/Generate_Stats.py:23 | the whitespace `int` skips around the text is ignored: space, `\t` to `\r`, and every `str.isspace` character from code point 127 up |
| Corpus.IntOfSeparator | PreProcessing/Generate_Stats.py:23 | an information separator `\x1c` to `\x1f` before or after the text makes `int` raise, although `str.isspace` holds for it |
| Corpus.SeparatorRaises | PreProcessing/Generate_Stats.py:23 | an information separator anywhere in the text makes `int` raise |
| Corpus.IntOfSeparatorSeven | PreProcessing/Generate_Stats.py:23 | `int('\x1c7')` and `int('7\x1f')` raise while `int('7')` is 7 |
| Corpus.IntOfDigits | PreProcessing/Generate_Stats.py:23 | a run of decimal digits reads as its decimal value |
| Corpus.IntOfGrouped | PreProcessing/Generate_Stats.py:23 | an underscore between digits does not count |
| Corpus.IntOfRejects | PreProcessing/Generate_Stats.py:23 | a doubled, leading or trailing underscore raises, and so does a text of whitespace only |
| Corpus.IntOfNegative | src/Generation/Generate_Files.py:46 | a minus sign before digits negates their value |
| Corpus.IntOfChars | src/Generation/Generate_Files.py:46 | an accepted text holds a digit, and nothing but whitespace, digits, `_` and signs |
| Corpus.IntOfShow | PreProcessing/Generate_Stats.py:23 | `int(str(n)) == n` for every integer |
| Corpus.Distinct | src/Generation/Cleaning/Stats.py:74 | holds exactly the values of the input, none twice |
| Corpus.DistinctOfDistinct | src/Generation/Cleaning/Stats.py:74 | values already distinct keep their order |
| Corpus.Tally | src/Generation/Cleaning/Stats.py:61-66 | the keys are exactly the values seen, each holding its number of occurrences, at least one |
| Corpus.TallySnoc | src/Generation/Cleaning/Stats.py:61-66 | one more value adds one to its count, or enters it with count 1 |
| Corpus.Inc | src/Generation/Cleaning/Stats.py:61-66 | one sighting: a present key gains one, a new key gets the first value, every other key unchanged |
| Corpus.IncAllCounts | PreProcessing/Generate_Stats.py:16-20 | a key first seen holds the first value plus its further occurrences; a key already present gains one per occurrence |
| Corpus.IncAllTally | src/Generation/Cleaning/Stats.py:61-72 | counting from 1 on a fresh dictionary gives the tally |
| Corpus.IncAllAppend | PreProcessing/Generate_Stats.py:22-27 | counting two lists in turn into one dictionary is counting their concatenation |
| Corpus.TallySum | src/Generation/Cleaning/Stats.py:67-72 | the counts of a tally add up to the number of values tallied |
| Stats.SelectMembers | src/Generation/Cleaning/Stats.py:74-83 | the keys grouped under a mode are exactly those with that suffix |
| Stats.AddFineMeaning | src/Generation/Cleaning/Stats.py:74-83 | the fine table lists under each suffix the tonics of the keys with that suffix, in key order, after what it held |
| Stats.AddCoarseMeaning | src/Generation/Cleaning/Stats.py:74-83 | the coarse table holds under each suffix the sum of the counts of its keys, added to what it held |
| Stats.EmptyAt | src/Generation/Cleaning/Stats.py:76 | the first empty key, where `s[0]` raises, or the end when there is none |
| Stats.GroupTurn | src/Generation/Cleaning/Stats.py:75-83 | one key adds its tonic to the fine list and its count to the coarse entry of its suffix |
| Stats.GroupModes | src/Generation/Cleaning/Stats.py:74-83 | fails exactly when some key is empty; the keys before the first empty one are grouped into both tables |
| Stats.CountFields | src/Generation/Cleaning/Stats.py:68-72 | one tune's three fields counted and a new mode key listed, as one step of the counting function |
| Stats.CountTunes | src/Generation/Cleaning/Stats.py:67-72 | the loop computes the counting function from fresh dictionaries, starting at 1 |
| Stats.CountAllMeaning | src/Generation/Cleaning/Stats.py:61-72 | each dictionary is `inc` applied to its column; the mode keys are the old ones then the new modes in first-seen order |
| Stats.Counted | src/Generation/Cleaning/Stats.py:61-72 | counting from 1 on fresh dictionaries gives the tallies, and the mode keys in first-seen order |
| Stats.ParseAbcTunes | src/Generation/Cleaning/Stats.py:60-83 | IndexError exactly when a tune has an empty mode; otherwise exact tallies, the total, the distinct mode keys and both grouping tables |
| Stats.FirstCharsIn | src/Generation/Cleaning/Stats.py:74-83 | a tonic is listed under mode `s` exactly when the tonic followed by `s` is a key |
| Stats.FirstCharsOnce | src/Generation/Cleaning/Stats.py:74-83 | over distinct keys, each tonic is listed once under a mode |
| Stats.CoarseSum | src/Generation/Cleaning/Stats.py:74-83 | the coarse counts add up to the counts of the keys grouped |
| Stats.ModeKeysNonEmpty | src/Generation/Cleaning/Stats.py:74-76 | tunes without an empty mode give non-empty mode keys |
| Stats.StatsSums | src/Generation/Cleaning/Stats.py:60-83 | the style, meter, mode and coarse tables each add up to the number of tunes |
| Stats.StatsFineOnce | src/Generation/Cleaning/Stats.py:74-83 | each tonic appears once in the fine table under every mode it is a key of |
| GenerateStats.IdsMeaning | PreProcessing/Generate_Stats.py:23 | `unique` collects exactly the parsed ids |
| GenerateStats.ReadList | PreProcessing/Generate_Stats.py:13-38 | a ValueError stops the first loop with the earlier tunes counted; otherwise the grouping raises IndexError exactly at an empty mode key, keys before it grouped |
| GenerateStats.CountParsed | PreProcessing/Generate_Stats.py:22-27 | the first loop counts the tunes up to the first id `int` rejects: their number, their ids and their fields |
| GenerateStats.CountsOffByOne | PreProcessing/Generate_Stats.py:16-20 | from the import-time globals every stored count is the number of occurrences less one |
| GenerateStats.CountAllAppend | PreProcessing/Generate_Stats.py:22-27 | counting two lists in two calls is counting them in one |
| GenerateStats.IdsAppend | PreProcessing/Generate_Stats.py:23 | the ids seen over two calls are the ids of both lists |
| GenerateStats.RegroupRepeats | PreProcessing/Generate_Stats.py:29-38 | the grouping tables are not cleared, so a second call lists and counts an earlier mode key again |
| GenerateFiles.Prepare | PreProcessing/Generate_Files.py:10-24 | a tune the filters reject is skipped, and a kept record equals its tune except for the text |
| GenerateFiles.PrepareMeaning | PreProcessing/Generate_Files.py:10-24 | a turn agrees with the cleaner: a kept record holds its answer and a failure is its failure |
| GenerateFiles.TabulateMeaning | PreProcessing/Generate_Files.py:25 | the dictionary's keys are the settings in first-seen order, each holding the last record with that setting |
| GenerateFiles.PassingMeaning | PreProcessing/Generate_Files.py:8-25 | every tune before the stopping one passes, and the stopping one does not |
| GenerateFiles.KeptStep | PreProcessing/Generate_Files.py:8-25 | one passing turn grows the table by the record kept, if any |
| GenerateFiles.CreateDict | PreProcessing/Generate_Files.py:5-27 | without a failure on the way, the dictionary of the kept records; otherwise the first failure |
| GenerateFiles.KeptFrom | PreProcessing/Generate_Files.py:10-24 | every kept record comes from a tune that passed the filters, with only its text replaced |
| GenerateFiles.KeyAll | src/Generation/Generate_Files.py:46 | ValueError exactly when some setting is not a number; otherwise every key, in order |
| GenerateFiles.Insert | src/Generation/Generate_Files.py:46 | the result holds the entries of the list and the new one |
| GenerateFiles.InsertDescending | src/Generation/Generate_Files.py:46 | inserting into a descending list keeps it descending |
| GenerateFiles.SortDesc | src/Generation/Generate_Files.py:46 | the result is a permutation of the input in descending key order |
| GenerateFiles.SortDescStable | src/Generation/Generate_Files.py:46 | the sort is stable: entries with equal keys keep their input order |
| GenerateFiles.SortKeepsKeys | src/Generation/Generate_Files.py:46 | the sort keeps every key with its entry |
| GenerateFiles.CleanAllSpec | src/Generation/Generate_Files.py:47-58 | every entry kept comes from a wanted input entry whose cleaned text is not the sentinel, with the same key; every such input entry is kept |
| GenerateFiles.CleanAllDescending | src/Generation/Generate_Files.py:47-58 | the cleaning pass only drops entries, so a descending order stays descending |
| GenerateFiles.CleanLoop | src/Generation/Generate_Files.py:47-58 | the loop's list is the cleaning pass over the sorted entries |
| GenerateFiles.CleanedTunes | src/Generation/Generate_Files.py:47-58 | no more tunes than given, none the sentinel, settings non-increasing |
| GenerateFiles.CreateDictList | src/Generation/Generate_Files.py:33-61 | ValueError exactly when a setting is not a number; otherwise the cleaned tunes in decreasing setting order, none the sentinel |
| CsvCleaner.TokensSpec | src/L/CSVCleaner.py:24-32 | the tokens concatenate back to the bar; each is one character or `^` with the next; only the last can be a lone `^` |
| CsvCleaner.Quarters | src/L/CSVCleaner.py:53 | cuts the tokens into quarters of four, the last possibly shorter |
| CsvCleaner.QuartersConcat | src/L/CSVCleaner.py:53 | the quarters concatenate back to the tokens |
| CsvCleaner.CondenseBar | src/L/CSVCleaner.py:36-61 | the bar's tokens written by quarters and runs as the reference encoding does; every character comes from the bar or is a digit |
| CsvCleaner.TokensFromBar | src/L/CSVCleaner.py:24-32 | every character of a token is a character of the bar |
| CsvCleaner.Turn | src/L/CSVCleaner.py:45-59 | one turn keeps the scan invariant and appends nothing, the token, or a run length and the token |
| CsvCleaner.QuarterTurn | src/L/CSVCleaner.py:51-58 | at a multiple of four the open run is closed, its length written when above one, and a new quarter opens |
| CsvCleaner.SameRunTurn | src/L/CSVCleaner.py:51-52 | a repeat inside a quarter lengthens the open run and writes nothing |
| CsvCleaner.NewRunTurn | src/L/CSVCleaner.py:45-50 | a new symbol inside a quarter closes the open run and opens its own |
| CsvCleaner.CloseText | src/L/CSVCleaner.py:60-61 | after the last token the pending length is written and the text is the reference encoding |
| CsvCleaner.NoBarAdded | src/L/CSVCleaner.py:36-61 | encoding adds only digits, so a bar without `\|` gives an encoding without `\|` |
| CsvCleaner.CondenseBars | src/L/CSVCleaner.py:20-64 | every bar encoded, in order; bars cut at `\|` stay free of `\|` |
| CsvCleaner.RejoinedBars | src/L/CSVCleaner.py:66 | dropping `"` from bars joined with `\|` leaves one `\|`-free piece per bar and no `"` |
| CsvCleaner.CleanSong | src/L/CSVCleaner.py:16-66 | the result has no `"`, and cutting it at `\|` again gives one piece per bar of the song |
| CsvCleaner.CleanSongs | src/L/CSVCleaner.py:14-66 | every song cleaned, in order, with no `"` left |
| RandomSongGen.DrawTokenText | src/Generation/Random/RandomSongGen.py:36-77 | each note is a well-formed token; under option 0 it has exactly one accidental and one octave mark |
| RandomSongGen.NotesLex | src/Generation/Random/RandomSongGen.py:36-77 | reading a phrase's notes with the note pattern gives one token per draw, in order |
| RandomSongGen.TablesShape | src/Generation/Random/RandomSongGen.py:15-22 | every entry of the note and accidental tables is one character of its class |
| RandomSongGen.NotesNoBar | src/Generation/Random/RandomSongGen.py:36-77 | no note text holds a bar line |
| RandomSongGen.FloorDiv | src/Generation/Random/RandomSongGen.py:62 | Python's `//`: the quotient rounded toward minus infinity, the remainder with the divisor's sign |
| RandomSongGen.NotesPerPhrase | src/Generation/Random/RandomSongGen.py:33-63 | only option 2 can raise, and a meter without `/` raises IndexError there |
| RandomSongGen.GenerateAbc | src/Generation/Random/RandomSongGen.py:27-84 | raises exactly when the note count does, with its exception |
| RandomSongGen.AbcPhrases | src/Generation/Random/RandomSongGen.py:78-84 | cutting the tune at `\|` gives an empty piece, the sixteen phrases' notes in order AABB or ABAB four times, and an empty piece |
| RandomSongGen.PatternText | src/Generation/Random/RandomSongGen.py:78-84 | the sixteen phrases between bar lines, closed by one more, are the tune written |
| RandomSongGen.StyleAlwaysWeighted | src/Generation/Random/RandomSongGen.py:102 | `option == 1 or 2` is always true: every option but 0 draws styles and modes by the corpus weights |
| RandomSongGen.Expand | src/Generation/Random/RandomSongGen.py:89-115 | the list `random.choice` draws from is as long as the sum of the weights |
| RandomSongGen.PickIndex | src/Generation/Random/RandomSongGen.py:89-115 | an index of the expanded list picks a name of positive weight |
| RandomSongGen.PickExpand | src/Generation/Random/RandomSongGen.py:89-115 | walking the weights finds the element of the expanded list at that index |
| RandomSongGen.PickUniform | src/Generation/Random/RandomSongGen.py:88-101 | under uniform weights index `ix` picks the `ix`-th name |
| RandomSongGen.Draw | src/Generation/Random/RandomSongGen.py:120-141 | an unbound list raises UnboundLocalError; otherwise the index drawn names an entry of the list |
| RandomSongGen.StyleTime | src/Generation/Random/RandomSongGen.py:143-167 | an unknown style raises UnboundLocalError, the only exception |
| RandomSongGen.StyleTimeDomain | src/Generation/Random/RandomSongGen.py:143-167 | `styleTime` knows exactly the styles `randStyle` can draw |
| RandomSongGen.MeterNotes | src/Generation/Random/RandomSongGen.py:58-63 | a meter `n/d` of decimal naturals gives `n * (8 // d)` notes per phrase |
| RandomSongGen.StyleNotes | src/Generation/Random/RandomSongGen.py:143-167 | under option 2 every style's meter is read without error: 8 notes for `4/4`, 9 for `9/8`, 6 for `3/4`, and so on |
| RandomSongGen.GenerateSong | src/Generation/Random/RandomSongGen.py:227-239 | raises UnboundLocalError exactly for an option other than 0, 1 and 2 |
| RandomSongGen.SongShape | src/Generation/Random/RandomSongGen.py:227-239 | a song is numbered `x` as tune and setting, named after `x`, of length `1/8`, style and mode from their lists, a meter matching the style under option 2, and 18 pieces between bar lines |
| RandomSongGen.GenerateSongs | src/Generation/Random/RandomSongGen.py:226-240 | raises exactly for a positive count under an unknown option; otherwise songs 0 to num-1 are written and every other key is kept |
| AudioConverter.LowerIdempotent | src/Generation/Decoding/Audio_Converter.py:47-55 | lower-casing twice is lower-casing once |
| AudioConverter.ParseOutType | src/Generation/Decoding/Audio_Converter.py:36-57 | IndexError exactly for an integer below -9; every answer is a known format up to case; a string comes back as given or the default |
| AudioConverter.IndexMatchesName | src/Generation/Decoding/Audio_Converter.py:36-57 | an index and the name it selects choose the same format; a negative index matches its positive twin |
| AudioConverter.ParseIdempotent | src/Generation/Decoding/Audio_Converter.py:36-57 | choosing again from a chosen format gives it back unchanged |
| AudioConverter.CaseBlind | src/Generation/Decoding/Audio_Converter.py:47-55 | letter case changes only the spelling of the format chosen, never which one |
| AudioConverter.NewConverter | src/Generation/Decoding/Audio_Converter.py:16-34 | raises exactly when the format choice does or a file name has other than one `.`; a file name is split into a name and a type without dots that rejoin to it |
| AudioConverter.FileNameRoundTrip | src/Generation/Decoding/Audio_Converter.py:16-34 | a name and a type without dots, joined by a dot, are read back as that name and type |
| SiteGenerator.JsRem | Site/assets/js/generator.js:71 | for a non-negative dividend the usual remainder; for a negative one a remainder from `-b` exclusive to 0 |
| SiteGenerator.ArgMin | Site/assets/js/generator.js:84-86 | the index returned is within the array |
| SiteGenerator.ArgMinSpec | Site/assets/js/generator.js:84-86 | the index holds a smallest value and every later index a larger one: a tie goes to the last index |
| SiteGenerator.NoteToDMajorNearest | Site/assets/js/generator.js:68-77 | for a non-negative note, the scale note nearest it within its octave, the higher on a tie: never below and at most two above |
| SiteGenerator.ScaleChoice | Site/assets/js/generator.js:68-77 | the chosen scale note is no further than the others, the higher on a tie, never the C sharp above |
| SiteGenerator.NearestAbove | Site/assets/js/generator.js:72-75 | the last nearest scale note is at most two above the pitch class and never below it |
| SiteGenerator.ConvertNoteToAbcDomain | Site/assets/js/generator.js:93-119 | the table spells exactly its 22 numbers, each as a plain ABC note |
| SiteGenerator.PlainNoteLexes | Site/assets/js/generator.js:94-117 | the note pattern reads every spelling back as one token |
| SiteGenerator.DMajorSpelled | Site/assets/js/generator.js:68-119 | every D major rounding from F sharp 54 to F sharp 90 has a spelling |
| SiteGenerator.BarString | Site/assets/js/generator.js:137-171 | a bar of two notes or more is written run by run, each run's note then its length above one, a note the table lacks as `undefined` and a longer run of them as `NaN`; a single note gives the empty string |
| SiteGenerator.UnspelledRunBar | Site/assets/js/generator.js:147-150 | two unspelled notes between two `d`s are written `dNaNd` |
| SiteGenerator.UnspelledNoteBar | Site/assets/js/generator.js:152-154 | a single unspelled note is written `undefined`: the bar `d`, none, `e`, `e` gives `dundefinede2` |
| SiteGenerator.LastTurn | Site/assets/js/generator.js:143-156 | at the last note the open run is written, and the last note with it |
| SiteGenerator.MiddleTurn | Site/assets/js/generator.js:157-169 | before the last note, a new note writes the open run and opens its own |
| SiteGenerator.LastStepSame | Site/assets/js/generator.js:144-147 | when the last note extends the open run, the run is written with its new length |
| SiteGenerator.LastStepNew | Site/assets/js/generator.js:148-155 | when the last note starts a new run, the open run is written, then the note |
| SiteGenerator.Chunks | Site/assets/js/generator.js:133 | consecutive pieces of four, the last possibly shorter |
| SiteGenerator.ChunksConcat | Site/assets/js/generator.js:133 | the pieces concatenate back to the whole list |
| SiteGenerator.WriteBars | Site/assets/js/generator.js:136-172 | every bar written by the inner loop, in order |
| SiteGenerator.ConvertToAbc | Site/assets/js/generator.js:126-191 | the fixed header, then the first sixteen groups of the written bars laid out four to a line, each bar written as `BarString` states, `undefined` and `NaN` included, and a missing group written `undefined` |

## Left out

- Files, CSV, NumPy arrays, pandas frames, plotting, MIDI and audio output
  (`save_song*`, `stream_to_midi`, `print_bad_abc`'s printing, `dict_to_file`, `master_clean`) are I/O and are not modelled;
  the pure parts they feed are.
- Random choice: every draw is an input, an index into the list that
  `random.choice` draws from or the value `random.randint` returns. The
  distribution is not modelled, only which value each draw selects.
- `str.isalpha`, `str.isdigit`, `\d` and `str.lower` are modelled on ASCII; Python's versions accept more Unicode characters.
- `Cleaner.Clean`, `Cleaner.RemoveSimpleRepeat`, `Cleaner.RemoveSingleDualRepeat`: the recursion of the cleaner is bounded by a `fuel` argument. Running out of fuel is its own outcome, and no bound on the fuel the source needs is proved.
- The tests of src/Generation/Cleaning/Cleaner_test.py run `remove_whitespace` and then `remove_repeats` of src/Generation/Cleaning/Cleaner.py, which is not part of this model. Some examples are restated for the same composition in PreProcessing/Cleaner.py:
  - the simple-repeat examples at lines 39 and 40 (`SimpleReplay.CleanSimpleRepeatOpened`, `SimpleReplay.CleanSimpleRepeatClosed`);
  - the dual-repeat examples at lines 59 and 63 (`EndingReplay.CleanDualRepeatDoubleBar`, `EndingReplay.CleanDualRepeatSingleBar`).

  The other examples are not restated.
- src/Generation/Cleaner.py, whose `clean` `create_dict_list` calls (src/Generation/Generate_Files.py:1 and :56), is not part of this model; that `clean` is a parameter of `GenerateFiles.CreateDictList`.
- src/Generation/Cleaning/Cleaner.py, whose `clean` `from_raw_abc` calls (src/Generation/Decoding/Decoding.py:257), is not part of this model; that `clean` is a parameter of `Decoding.FromRawAbc`.
- `Cleaner.RemoveSingleDualRepeat`: its own contract states the failure cases and that a result holds no repeat marker. What a result holds is stated for tunes of plain bars only, by `EndingReplay.ReplayEnding` and `EndingReplay.ReplayEndingOpened`. The branch of lines 61-81, where the first part holds `:|`, has no stated result.
- `Cleaner.ExpandSingle`: its own contract states only its ValueError. Its result for plain bars is stated by `EndingReplay.ExpandSingleReplay` and `EndingReplay.ExpandSingleOpened`.
- `Corpus.IntOf`: digits are the ASCII `0` to `9`. Python's `int` also accepts the other Unicode decimal digits.
- `GenerateFiles.CreateDictList`: exceptions raised by the cleaner it calls are not modelled, since that cleaner is a parameter that returns a string.
- `vectorize_frame` (Vectorizer.py:65-79) sets globals and applies the row functions to a data frame. Only its per-row effect is modelled, by `Vectorizer.VectorizeRowUnshifts`; the function `VectorizeRow` itself has no contract of its own.
- The float test `NOTE_MULT * num / denom % 1 != 0` at Vectorizer.py:124 is modelled as exact divisibility. For the small integers of a bar the two agree; floating-point rounding of large values is not modelled.
- `scale`, `render`, `download` and `generate` of the web page work on floats from the network's output and on the browser; they are left out.
- `nums_to_abc`, `tune_to_abc`, `get_stats`, `print_stats` and `plot` of src/Model/analysis.py are printing and plotting helpers and are left out.
- `StatsHandler` (Stats.py:11-46) and `save_stats` read and write files; left out.
- `unfold_abc`, `unfold_bar` and `vectorize_tunes` of Tune_Cleaning.py are unfinished stubs and are left out. `get_tunes_clean` reads a file.
- `RandomSongGen.StyleNotes`: covers option 2 with each known style's meter. An option-2 song whose style is unknown cannot arise, since `randStyle` draws only known styles (`RandomSongGen.StyleTimeDomain`).
- `Cleaner.RemoveSimpleRepeat`: its own contract covers only the marker-free case. Texts holding only `:|` or only `|:` are covered by `Cleaner.SimpleRepeatCloseOnly` and `Cleaner.SimpleRepeatOpenOnly`, and for plain bars all the way to `clean` by `SimpleReplay.CleanClosed` and `SimpleReplay.CleanOpened`. A text holding both markers has no stated result.
- `NoteLexer.Lex`: the contract states only that every match is well formed. That it inverts the token writer is stated by `NoteLexer.LexTextAll`, and that a text without note letters gives no match by `NoteLexer.LexNoLetter`.
- `Decoding.ParseRawAbc`: the `print` of the result is left out.

## Findings

| source | as written | input that shows it | evidently intended | confidence | as-written member | corrected member |
|---|---|---|---|---|---|---|
| src/Generation/Vectorizing/Vectorizer.py:153-156 | `sharp_order[0:diff-1]` and `flat_order[0:diff-1]` | key `Gmajor` (one sharp) gives no sharp; `Fmajor` (one flat) gives `BEADG` | `sharp_order[0:diff]` for sharp keys and `flat_order[0:-diff]` for flat keys, the key signature of the circle of fifths | high; not executed | Vectorizer.GetSharpsOrFlatsMiscounts | Vectorizer.KeySignature |
| Music/Data/Tune_Cleaning.py:142 | `str.replace('(.*?)', '')`, whose parentheses form a group, so every character but a line break is deleted | `a(b)c` becomes empty | `\(.*?\)`, deleting notes in parentheses as the docstring at lines 138-141 describes, so `a(b)c` becomes `ac` | high; not executed | TuneCleaning.SlurredBarEmptied | TuneCleaning.CleanSlursIntended |
| src/Generation/Vectorizing/Vectorizer.py:88 | `vectorize_abc` reads notes under the miscounted accidentals | a G major tune whose one bar is `f`: its first tick is 77 (F natural) | 78 (F sharp), the note under the key signature | high; not executed | Vectorizer.VectorizeAbc | Vectorizer.VectorizeAbcIntended |
