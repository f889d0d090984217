/**
  The configuration directive (`decode_config_line`): the text after the `>>`
  marker, right-stripped of newlines, spaces and tabs, is split on `:`; the
  first two fields are the clock and data masks, an optional third field of
  exactly one character gives the new offset as its character code, and any
  further fields are ignored.
*/
module Config {
  import opened Basics
  import opened Text
  import opened Wire

  /** The characters `rstrip("\n \t")` removes. */
  const TRAILING: set<char> := {'\n', ' ', '\t'}

  /** The values handed to `setup_bits`; the masks are always supplied. */
  datatype ConfigValues = ConfigValues(sclBit: int, sdaBit: int, shift: Option<int>)

  /** The exceptions the directive can raise. */
  datatype ConfigError =
    | BadInteger(field: string)   // `int()` raises ValueError
    | TooFewFields                // unpacking one value into two names raises ValueError
    | BadShiftField(field: string) // `ord()` of a string that is not one character raises TypeError

  /** The fields in the order Python evaluates them: `int` of the first field,
      then the unpacking that needs a second field, then `int` of the second,
      then `ord` of the third when there is one. */
  function ParseFields(fields: seq<string>): (r: Result<ConfigValues, ConfigError>)
    requires |fields| >= 1
    ensures r.Ok? <==> ParseInt(fields[0]).Some? && |fields| >= 2 && ParseInt(fields[1]).Some?
                       && (|fields| >= 3 ==> |fields[2]| == 1)
    ensures r.Ok? ==> Some(r.value.sclBit) == ParseInt(fields[0]) && Some(r.value.sdaBit) == ParseInt(fields[1])
                      && r.value.shift == (if |fields| >= 3 then Some(fields[2][0] as int) else None)
  {
    if ParseInt(fields[0]).None? then Err(BadInteger(fields[0]))
    else if |fields| < 2 then Err(TooFewFields)
    else if ParseInt(fields[1]).None? then Err(BadInteger(fields[1]))
    else if |fields| >= 3 && |fields[2]| != 1 then Err(BadShiftField(fields[2]))
    else Ok(ConfigValues(ParseInt(fields[0]).value, ParseInt(fields[1]).value,
                         if |fields| >= 3 then Some(fields[2][0] as int) else None))
  }

  /** The fields of a directive's remainder. */
  function Fields(rest: string): (r: seq<string>)
    ensures |r| >= 1
  {
    Split(RStrip(rest, TRAILING), ':')
  }

  /** Parse a directive's remainder. */
  function ParseConfig(rest: string): Result<ConfigValues, ConfigError> {
    ParseFields(Fields(rest))
  }

  /** The new layout after a directive, or the error it raises: an accepted
      directive sets both masks to its first two fields and the offset to the
      code of its third field, keeping the old offset when there is none; a
      rejected one raises the parse error. */
  function ApplyConfig(l: Layout, rest: string): (r: Result<Layout, ConfigError>)
    ensures r.Err? <==> ParseConfig(rest).Err?
    ensures r.Err? ==> ParseConfig(rest) == Err(r.error)
    ensures r.Ok? ==> var f := Fields(rest);
                      |f| >= 2 && Some(r.value.sclBit) == ParseInt(f[0]) && Some(r.value.sdaBit) == ParseInt(f[1])
                      && r.value.shift == (if |f| >= 3 then f[2][0] as int else l.shift)
  {
    match ParseConfig(rest)
    case Ok(v) => Ok(Setup(l, Some(v.sclBit), Some(v.sdaBit), v.shift))
    case Err(e) => Err(e)
  }

  /** Fields after the third are ignored. */
  lemma ExtraFieldsIgnored(fields: seq<string>)
    requires |fields| > 3
    ensures ParseFields(fields) == ParseFields(fields[..3])
  {
  }

  /** A directive that parses always sets both masks; it changes the offset
      exactly when it has a third field. */
  lemma ApplyConfigSets(l: Layout, rest: string)
    requires ApplyConfig(l, rest).Ok?
    ensures var l' := ApplyConfig(l, rest).value; var f := Fields(rest);
            Some(l'.sclBit) == ParseInt(f[0]) && Some(l'.sdaBit) == ParseInt(f[1])
            && (|f| < 3 ==> l'.shift == l.shift)
            && (|f| >= 3 ==> l'.shift == f[2][0] as int)
  {
  }

  /** The text of a directive remainder `<scl>:<sda>[:<c>]`. */
  function ConfigText(sclBit: int, sdaBit: int, shift: Option<char>): string {
    IntToString(sclBit) + ":" + IntToString(sdaBit) + (if shift.Some? then ":" + [shift.value] else "")
  }

  /** Round trip: the directive written for given masks and offset character,
      followed by any trailing newlines, spaces or tabs, parses back to them,
      provided the offset character is neither `:` nor one that `rstrip` removes. */
  lemma ConfigRoundTrip(sclBit: int, sdaBit: int, shift: Option<char>, trailing: string)
    requires shift.Some? ==> shift.value != ':' && shift.value !in TRAILING
    requires forall i :: 0 <= i < |trailing| ==> trailing[i] in TRAILING
    ensures ParseConfig(ConfigText(sclBit, sdaBit, shift) + trailing)
         == Ok(ConfigValues(sclBit, sdaBit, if shift.Some? then Some(shift.value as int) else None))
  {
    var a, b := IntToString(sclBit), IntToString(sdaBit);
    var parts := if shift.Some? then [a, b, [shift.value]] else [a, b];
    var text := ConfigText(sclBit, sdaBit, shift);
    assert text == Join(parts, ':') by {
      if shift.Some? {
        assert parts[1..] == [b, [shift.value]] && parts[1..][1..] == [[shift.value]];
        assert Join(parts[1..], ':') == b + [':'] + [shift.value];
        assert Join(parts, ':') == a + [':'] + (b + [':'] + [shift.value]);
      } else {
        assert Join(parts, ':') == a + [':'] + b;
      }
    }
    IntToStringChars(sclBit, ':');
    IntToStringChars(sdaBit, ':');
    assert text[|text| - 1] !in TRAILING by {
      if shift.None? {
        assert text[|text| - 1] == b[|b| - 1];
      }
    }
    RStripTrailing(text, trailing, TRAILING);
    SplitJoin(parts, ':');
    ParseIntToString(sclBit);
    ParseIntToString(sdaBit);
  }

  /** The fields of a remainder written as `:`-joined fields with nothing to strip. */
  lemma FieldsOfJoin(parts: seq<string>)
    requires |parts| >= 1
    requires forall i :: 0 <= i < |parts| ==> ':' !in parts[i]
    requires var t := Join(parts, ':'); |t| > 0 && t[|t| - 1] !in TRAILING
    ensures Fields(Join(parts, ':')) == parts
  {
    var t := Join(parts, ':');
    RStripTrailing(t, "", TRAILING);
    assert t + "" == t;
    SplitJoin(parts, ':');
  }

  /** A remainder with fewer than two fields (no `:` once trailing blanks are
      stripped) is an error, whether or not it is a number. */
  lemma NoColonIsError(rest: string)
    requires ':' !in RStrip(rest, TRAILING)
    ensures ParseConfig(rest).Err?
  {
    SplitNoSep(RStrip(rest, TRAILING), ':');
  }

  /** The directive remainder `1:2:51` raises, because `ord` needs a single
      character, while `1:2:3` sets the masks to 1 and 2 and the offset to 51,
      the code of `'3'`. */
  lemma OffsetIsOneCharacter()
    ensures ParseConfig("1:2:51").Err?
    ensures ParseConfig("1:2:3") == Ok(ConfigValues(1, 2, Some(51)))
  {
    assert Join(["1", "2", "51"], ':') == "1:2:51";
    FieldsOfJoin(["1", "2", "51"]);
    assert ConfigText(1, 2, Some('3')) + "" == "1:2:3";
    ConfigRoundTrip(1, 2, Some('3'), "");
  }
}
