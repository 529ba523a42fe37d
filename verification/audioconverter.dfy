/**
 The argument handling of the audio converter in
 src/Generation/Decoding/Audio_Converter.py: choosing the output format
 (`parse_out_type`, lines 36-57) and reading the tune argument in the
 constructor (lines 16-34).

 Python values reach `parse_out_type` untyped; `PyValue` names the kinds
 it tells apart. `type(x) == int` is an exact comparison, so a `bool`
 is not an `int` there.
 */
module AudioConverter {
  import opened PyStr

  /** The kinds of value `parse_out_type` distinguishes. */
  datatype PyValue = IntVal(i: int) | StrVal(s: string) | BoolVal(b: bool) | OtherVal

  /** The formats the converter knows, in the order an integer selects them. */
  const OutTypes: seq<string> := ["mid", "wav", "flac", "mp3", "ogg", "flv", "mp4", "wma", "aac"]

  const Default: string := "mid"

  /** `str.lower` on one character, for ASCII letters. */
  function LowerChar(c: char): char
  {
    if 'A' <= c <= 'Z' then (c as int + 32) as char else c
  }

  function Lower(s: string): (r: string)
    ensures |r| == |s|
    ensures forall i :: 0 <= i < |s| ==> r[i] == LowerChar(s[i])
  {
    seq(|s|, i requires 0 <= i < |s| => LowerChar(s[i]))
  }

  /** Lower-casing twice is lower-casing once. */
  lemma LowerIdempotent(s: string)
    ensures Lower(Lower(s)) == Lower(s)
  {
  }

  /**
   `parse_out_type`. An integer indexes the format list the Python way: a
   negative index counts from the end and one below -9 raises
   `IndexError`; an index past the end gives the default. A string whose
   lower-case form is a known format comes back as given, any other string
   gives the default, and so does every other kind of value.
   */
  function ParseOutType(v: PyValue): (r: Result<string>)
    ensures r.Raised? <==> v.IntVal? && v.i < -|OutTypes|
    ensures r.Raised? ==> r.exc == IndexError
    ensures r.Value? ==> Lower(r.value) in OutTypes
    ensures v.StrVal? ==> r.Value? && (r.value == v.s || r.value == Default)
    ensures !v.IntVal? && !v.StrVal? ==> r == Value(Default)
  {
    OutTypesLower();
    match v
    case IntVal(i) =>
      if i >= |OutTypes| then Value(Default)
      else if i >= 0 then Value(OutTypes[i])
      else if i >= -|OutTypes| then Value(OutTypes[|OutTypes| + i])
      else Raised(IndexError)
    case StrVal(s) =>
      if Lower(s) in OutTypes then Value(s) else Value(Default)
    case BoolVal(_) => Value(Default)
    case OtherVal => Value(Default)
  }

  /** Every known format is written in lower case. */
  lemma OutTypesLower()
    ensures forall k :: 0 <= k < |OutTypes| ==> Lower(OutTypes[k]) == OutTypes[k]
    ensures Default == OutTypes[0] && Lower(Default) == Default
  {
    forall k | 0 <= k < |OutTypes| ensures Lower(OutTypes[k]) == OutTypes[k] {
      var t := OutTypes[k];
      assert forall i :: 0 <= i < |t| ==> 'a' <= t[i] <= 'z' || '0' <= t[i] <= '9';
    }
    assert Default == OutTypes[0];
  }

  /** An index and the name it selects choose the same format; a negative index is the same format as its positive twin. */
  lemma IndexMatchesName(i: int)
    requires -|OutTypes| <= i < |OutTypes|
    ensures var k := if i >= 0 then i else |OutTypes| + i;
      ParseOutType(IntVal(i)) == ParseOutType(StrVal(OutTypes[k])) == Value(OutTypes[k])
  {
    OutTypesLower();
  }

  /** Choosing again from a chosen format gives it back unchanged. */
  lemma ParseIdempotent(v: PyValue)
    requires ParseOutType(v).Value?
    ensures ParseOutType(StrVal(ParseOutType(v).value)) == ParseOutType(v)
  {
  }

  /** Letter case never changes which format is chosen, only how its name is spelled. */
  lemma CaseBlind(s: string)
    ensures Lower(ParseOutType(StrVal(s)).value) == ParseOutType(StrVal(Lower(s))).value
  {
    LowerIdempotent(s);
    OutTypesLower();
    assert Lower(Default) == Default;
  }

  // ---------------------------------------------------------------------
  // The constructor (lines 16-34)
  // ---------------------------------------------------------------------

  /** A tune is a file name, or anything else, which the converter treats as a music stream. */
  datatype TuneArg = FileTune(path: string) | StreamTune

  datatype Converter = Converter(outType: string, tune: TuneArg, num: int, isStream: bool,
                                 fileName: Option<string>, fileType: Option<string>)

  /**
   `Converter(tune, out_type, num)`. A file name must hold exactly one `.`,
   which splits it into a name and a type; otherwise `IndexError` is
   raised. Any other tune is a stream, with no name or type. A format
   choice that raises raises first.
   */
  function NewConverter(tune: TuneArg, outType: PyValue, num: int): (r: Result<Converter>)
    ensures r.Raised? <==> ParseOutType(outType).Raised? || (tune.FileTune? && Count(tune.path, ".") != 1)
    ensures r.Raised? ==> r.exc == IndexError
    ensures r.Value? ==> r.value.outType == ParseOutType(outType).value && r.value.tune == tune
    ensures r.Value? ==> (r.value.isStream <==> tune.StreamTune?)
    ensures r.Value? && tune.StreamTune? ==> r.value.fileName.None? && r.value.fileType.None?
    ensures r.Value? && tune.FileTune? ==> r.value.fileName.Some? && r.value.fileType.Some?
    ensures r.Value? && tune.FileTune? && r.value.fileName.Some? && r.value.fileType.Some? ==>
      (tune.path == r.value.fileName.value + "." + r.value.fileType.value
       && '.' !in r.value.fileName.value && '.' !in r.value.fileType.value)
  {
    match ParseOutType(outType)
    case Raised(e) => Raised(e)
    case Value(out) =>
      match tune
      case StreamTune => Value(Converter(out, tune, num, true, None, None))
      case FileTune(path) =>
        var parts := Split(path, ".");
        if |parts| != 2 then Raised(IndexError)
        else
          assert path == parts[0] + "." + parts[1] && '.' !in parts[0] && '.' !in parts[1] by {
            SplitSpec(path, ".");
            ContainsChar(parts[0], '.');
            ContainsChar(parts[1], '.');
            assert parts[1..] == [parts[1]];
          }
          Value(Converter(out, tune, num, false, Some(parts[0]), Some(parts[1])))
  }

  /** A name and a type without dots, joined by a dot, are read back as that name and type. */
  lemma FileNameRoundTrip(name: string, ext: string, outType: PyValue, num: int)
    requires '.' !in name && '.' !in ext
    requires ParseOutType(outType).Value?
    ensures var r := NewConverter(FileTune(name + "." + ext), outType, num);
      r.Value? && r.value.fileName == Some(name) && r.value.fileType == Some(ext) && !r.value.isStream
  {
    var xs := [name, ext];
    assert Join(xs, ".") == name + "." + ext by {
      assert xs[1..] == [ext];
    }
    SplitJoin(xs, '.');
  }
}
