# Two-wire bus capture decoder

A Dafny model of the decoder in `convertToHtml.py` of an Arduino I²C sniffer.
The sniffer prints one character per sample of the clock (SCL) and data (SDA)
wires. The decoder turns each captured line into a list of sample records:

- It decodes every character into two raw levels, using the clock mask, the
  data mask and the character offset of its layout.
- It promotes each level change to a rise or a fall on the sample where it
  happens.
- It tags the canonical patterns as a start condition, a stop condition, a
  1 bit or a 0 bit.

Lines that start with `!!` are labels. Lines that start with `>>` reconfigure
the layout. The HTML encoder renders each session as a three-row table.

Modules, one file each:

- `basics.dfy` (`Basics`): `Option` and `Result`. A Python exception is an `Err`.
- `text.dfy` (`Text`): Python's `split` on one character, `join`, `rstrip`,
  `lstrip` and `strip` on a set of characters, and decimal `int()`/`str()`,
  with their round trips.
- `wire.dfy` (`Wire`): the `WS` levels and their numeric codes, the sample
  record, the layout, `setup_bits` as a function, Python's `&` on unbounded
  integers, and `decode_status_char`.
- `edges.dfy` (`Edges`): the edge-tracking fold of `decode_status_line`, and
  its characterisation by the raw levels.
- `protocol.dfy` (`Protocol`): `interpret_status_chain` per record, and the
  tags it produces in terms of raw levels.
- `config.dfy` (`Config`): `decode_config_line`'s parsing and its errors.
- `decoding.dfy` (`Decoding`): what `process_line` returns (`Outcome`), routing
  as a function, `parse_input` as a fold, and the `Decoder` class. The class
  has the three layout fields and the methods `SetupBits`, `DecodeStatusLine`
  (a loop), `InterpretStatusChain` (in place on an array), `DecodeConfigLine`,
  `ProcessLine` and `ParseInput` (a loop).
- `html.dfy` (`Html`): `encode_line_event`, `encode_int` and `encode_session`.

Modelling choices:

- **Bitwise and.** A character's value `ord(c) - SHIFT` is negative when the
  character's code is below the offset. This happens to the trailing `'\n'`
  that every capture line read from a file keeps. Python's `&` then works on
  the infinite two's-complement expansion. `Wire.PyAnd` states exactly this
  for all integers, so masks are not bounded and nothing is clamped. With
  the default layout, the newline sample reads as clock low, data high
  (`Wire.DefaultSamples`).
- **Third config field.** It must be exactly one character, because the code
  calls `ord` on it, and `ord` of any other string raises. So `>>1:2:51`
  raises, while `>>1:2:3` sets the offset to 51 (`Config.OffsetIsOneCharacter`,
  `Decoding.ConfigExample`). The offset is never taken from the first
  character of a longer field.
- **Config errors.** Python evaluates `int` of the first field, then the
  two-name unpacking, then `int` of the second field, then `ord` of the third
  field. `Config.ParseFields` raises its errors in that order. An error
  propagates before `setup_bits` runs, so the layout is unchanged. It also
  ends `parse_input`, which is modelled as the fold stopping: `Parsed.err`.
- **Edges.** The resolved level is a rise exactly where the raw level goes
  from low to high, and a fall exactly where it goes from high to low. A rise
  is never followed by another rise, and a fall never by another fall. But
  when a wire toggles on every sample, consecutive samples are all tagged,
  alternately rising and falling (`Edges.ToggleTaggedTwice`: a clock going
  low, high, low is a rise and then a fall). A wire can therefore carry an
  edge on two consecutive samples, but never the same edge twice in a row
  (`Edges.NoRepeatedEdge`).
- **Characters.** The source is Python 2, where a line is a byte string.
  Here a character is a Dafny `char`, and `ord` is its code.

## Model

| member | source | states |
|---|---|---|
| Wire.Code | convertToHtml.py:17-25 | each level has the source's numeric value, between -1 and 3 |
| Wire.CodeInjective | convertToHtml.py:21-25 | distinct levels have distinct codes |
| Wire.Setup | convertToHtml.py:46-51 | each layout field is the supplied value when there is one, and the old value otherwise |
| Wire.SetupNothing | convertToHtml.py:46-51 | a call with every argument omitted is the identity on the layout |
| Wire.SetupTwice | convertToHtml.py:46-51 | two calls equal one call in which the second call's supplied fields win |
| Wire.DecodeChar | convertToHtml.py:53-60 | both wires are only ever high or low; a wire is high iff `(ord(c) - SHIFT) & mask` is nonzero under Python's `&`; no tag yet |
| Wire.PyAnd | convertToHtml.py:60 | Python's `&` on unbounded integers: a non-negative operand bounds the result from above and keeps it non-negative; the result is negative iff both operands are |
| Wire.AndBits | convertToHtml.py:60 | bit k of `x & y` is set iff bit k is set in both `x` and `y`, for every mask, negative and multi-bit ones included |
| Wire.AndZero | convertToHtml.py:60 | Python's `x & 0` is 0 for every integer, negative ones included |
| Wire.AndSingleBit | convertToHtml.py:60 | with a one-bit mask `2^k`, the and is nonzero iff bit k of the two's-complement value is set |
| Wire.ZeroMaskIsLow | convertToHtml.py:60 | a zero clock mask makes the clock always low |
| Wire.SingleBitClock | convertToHtml.py:60 | with clock mask `2^k`, the clock is high iff bit k of `ord(c) - SHIFT` is set |
| Wire.SingleBitData | convertToHtml.py:60 | with data mask `2^k`, the data wire is high iff bit k of `ord(c) - SHIFT` is set |
| Wire.DefaultSamples | convertToHtml.py:33-60 | with the default layout: `'0'` is (low, low), `'1'` is clock high, `'2'` is data high, `'3'` is (high, high), and the trailing `'\n'` is clock low, data high |
| Wire.RawLine | convertToHtml.py:70-71 | one raw record per character of the line, in order |
| Edges.ResolveWire | convertToHtml.py:74-81 | on a steady raw level, a wire becomes a rise iff it is high after a low or a fall, a fall iff it is low after a high or a rise, and the raw level stays underneath |
| Edges.ResolveLine | convertToHtml.py:68-84 | the fold gives one record per sample, and the first record is the raw one |
| Edges.ResolveWireIsEdge | convertToHtml.py:73-81 | one step of the per-wire branch, from a previous resolved level, is the edge between the underlying raw levels, and keeps the raw level underneath |
| Edges.ResolveLineEdges | convertToHtml.py:68-84 | for i > 0, a wire is a rise iff raw[i-1] is low and raw[i] is high, a fall iff raw[i-1] is high and raw[i] is low, and the raw level otherwise; every resolved level has the raw level underneath |
| Edges.NoRepeatedEdge | convertToHtml.py:72-81 | a rise is never directly followed by a rise, nor a fall by a fall |
| Edges.ToggleTaggedTwice | convertToHtml.py:72-81 | a clock going low, high, low gives a rise on sample 1 and a fall on sample 2, so a wire can carry an edge on two consecutive samples |
| Edges.ResolvedNeverInvalid | convertToHtml.py:68-84 | no resolved level is `invalid` |
| Protocol.Interpret | convertToHtml.py:101-109 | the levels are never changed; each of the four patterns sets its tag (S, E, 1, 0); a record matching none is left as it was |
| Protocol.Interpreted | convertToHtml.py:100-109 | the chain keeps its length, and every record is interpreted on its own |
| Protocol.InterpretIff | convertToHtml.py:102-109 | on an untagged record, each tag is set iff its pattern holds, and no tag is set iff no pattern holds, so the patterns exclude each other |
| Protocol.InterpretedLineTags | convertToHtml.py:68-109 | on a decoded line, sample i is a start iff the clock is high at i-1 and i while data goes from high to low, a stop iff data goes from low to high under a high clock, and bit 1/0 iff the clock goes from low to high while the data is high/low at both samples; sample 0 is never tagged |
| Text.Split | convertToHtml.py:91 | `split(':')` gives at least one field, and no field contains the separator |
| Text.JoinSplit | convertToHtml.py:91 | joining the fields of a split gives back the string |
| Text.SplitJoin | convertToHtml.py:91 | splitting a join of separator-free fields gives back the fields |
| Text.RStrip | convertToHtml.py:91 | `rstrip` keeps the longest prefix that does not end with a stripped character; what it drops is stripped characters only |
| Text.LStrip | convertToHtml.py:120 | `lstrip` keeps the longest suffix that does not start with a stripped character; what it drops is stripped characters only |
| Text.StripSlice | convertToHtml.py:120 | `strip` returns a slice of the string whose ends are not stripped characters; everything outside the slice is a stripped character |
| Text.StripPadded | convertToHtml.py:120 | stripping a string padded with stripped characters on both sides gives back the string |
| Text.ParseInt | convertToHtml.py:92 | `int()` succeeds iff the field is an optional sign followed by one or more decimal digits |
| Text.ParseIntToString | convertToHtml.py:92 | `int(str(n)) == n` for every integer |
| Config.ParseFields | convertToHtml.py:92-97 | a directive is accepted iff it has at least two integer fields and any third field is one character; the masks are the integers, and the offset is the third field's code, or absent |
| Config.Fields | convertToHtml.py:91 | the right-stripped remainder split on `:` gives at least one field |
| Config.ApplyConfig | convertToHtml.py:91-97 | the directive raises iff parsing raises, with that error; otherwise both masks are the first two fields' integers, and the offset is the third field's code, or the old offset when there is no third field |
| Config.ExtraFieldsIgnored | convertToHtml.py:92-96 | fields after the third do not affect the result |
| Config.ApplyConfigSets | convertToHtml.py:91-97 | an accepted directive sets both masks; it changes the offset iff it has a third field |
| Config.ConfigRoundTrip | convertToHtml.py:91-97 | `<scl>:<sda>[:<c>]` with any trailing newlines, spaces or tabs parses back to exactly those masks and that offset |
| Config.NoColonIsError | convertToHtml.py:91-92 | a remainder without `:` raises, whether or not it is a number |
| Config.OffsetIsOneCharacter | convertToHtml.py:93-94 | `1:2:51` raises; `1:2:3` gives masks 1 and 2 and offset 51 |
| Decoding.DecodeLine | convertToHtml.py:124-126 | a capture line gives exactly one record per character |
| Decoding.Route | convertToHtml.py:111-126 | only a `>>` line can raise or change the layout; a capture line gives one record per character |
| Decoding.RouteCases | convertToHtml.py:117-126 | a short line is skipped with the layout unchanged; a `!!` line returns its stripped remainder with the layout unchanged; a `>>` line returns nothing and updates the layout, or raises; any other line returns its interpreted records with the layout unchanged |
| Decoding.CaptureRecords | convertToHtml.py:62-126 | on a capture line, trailing newline included: record 0 is raw and untagged; record i's levels are the edges between raw[i-1] and raw[i]; its tag is the raw-level pattern |
| Decoding.DefaultCaptureExamples | convertToHtml.py:68-109 | with the default layout, `"00"` gives two untagged (low, low) records; `"03"` gives (low, low) then (rise, rise), with no tag |
| Decoding.LabelExample | convertToHtml.py:119-120 | `"!! hello \n"` gives the label `hello`, and the layout is unchanged |
| Decoding.ConfigExample | convertToHtml.py:121-123 | `>>1:2:3` sets the layout to (1, 2, 51), after which `'3'` reads (low, low); `>>1:2:51` raises |
| Decoding.Feed | convertToHtml.py:134-135 | once an exception is raised further lines change nothing; otherwise the earlier outcomes are kept and exactly one outcome is appended, or the exception is recorded with the layout unchanged; only a `>>` line can change the layout or raise |
| Decoding.ParseAll | convertToHtml.py:128-135 | without an exception, there is one outcome per line; there are never more outcomes than lines |
| Decoding.ParseAllStopped | convertToHtml.py:134-135 | after an exception, later lines change nothing |
| Decoding.ParseAllAppend | convertToHtml.py:128-135 | the layout is the only state carried between lines: parsing `a + b` is parsing `a`, then parsing `b` from the layout `a` left |
| Decoding.ParseAllWithoutConfig | convertToHtml.py:128-135 | without `>>` lines: the layout never changes, nothing raises, and every line is routed on its own under the starting layout |
| Decoding.Decoder.constructor | convertToHtml.py:33-36 | a new decoder has clock mask 1, data mask 2 and offset `ord('0')` |
| Decoding.Decoder.SetupBits | convertToHtml.py:38-51 | the layout becomes `Setup` of the old layout; each omitted field keeps its value |
| Decoding.Decoder.DecodeStatusLine | convertToHtml.py:62-84 | the loop returns the edge-resolved raw records of the line under the current layout, one per character; the edge state starts afresh on every call |
| Decoding.Decoder.InterpretStatusChain | convertToHtml.py:99-109 | every array element is replaced in place by its interpretation |
| Decoding.Decoder.DecodeConfigLine | convertToHtml.py:86-97 | an accepted directive updates the layout as `ApplyConfig` says; an error is returned and leaves the layout unchanged |
| Decoding.Decoder.ProcessLine | convertToHtml.py:111-126 | the result and the new layout are those of `Route`; an exception leaves the layout unchanged |
| Decoding.Decoder.ParseInput | convertToHtml.py:128-135 | the outcomes, the exception and the final layout are those of the fold `ParseAll` |
| Html.KindName | convertToHtml.py:144 | indexing the tuple by code + 1 maps: fall to "falling", invalid to "error", rise to "rising", low to "low", high to "high" |
| Html.EncodeLineEvent | convertToHtml.py:143-144 | a level's cell never contains a newline, so the cells of a row stay apart |
| Html.EncodeLineEventInjective | convertToHtml.py:143-144 | distinct levels give distinct cells |
| Html.EncodeInt | convertToHtml.py:146-150 | a tagged record's cell carries the tag character; an untagged record gives the `interp_none` cell |
| Html.EncodeIntInjective | convertToHtml.py:146-150 | a cell determines the record's tag |
| Html.SdaCells | convertToHtml.py:153 | one data cell per record, in order |
| Html.SclCells | convertToHtml.py:154 | one clock cell per record, in order |
| Html.IntCells | convertToHtml.py:155 | one interpretation cell per record, in order |
| Html.EncodeSession | convertToHtml.py:152-157 | a session is a table of exactly three rows, the data row, then the clock row, then the interpretation row |
| Html.SessionRows | convertToHtml.py:152-157 | a session is a table of three rows (data, clock, interpretation); splitting a row at its newlines gives exactly one cell per record |

## Left out

- The command-line entry point (convertToHtml.py:169-187): it opens `sys.argv[1]` or stdin, prints, and dispatches on `isinstance`. `Outcome` (`Skip`, `Label`, `Session`) is what a match in that loop would consume.
- `parse_input` is a generator over a file. Here it is a fold over a finite `seq<string>`: `ParseAll`, and the method `ParseInput`. The laziness is not modelled.
- The empty `Encoder` base class (convertToHtml.py:138-139), and `encode_label`, `encode_header` and `encode_footer` (convertToHtml.py:159-166). They only wrap or return fixed strings.
- `decode_status_char` is not a member of the class. It is the function `Wire.DecodeChar`, applied to the layout that the object's fields hold.
- Python's `int()` also accepts surrounding whitespace, so `>>1 :2` is accepted by Python. The model accepts only an optional sign followed by ASCII decimal digits, and rejects everything else.
- Records are values, not shared dictionaries. `interpret_status_chain` updates an `array<Status>` in place. The aliasing between `prev_status` and the last appended dictionary is not observable, because the dictionary is not changed after it is appended.
- Python 2 byte strings: characters are Dafny `char`s, and `ord` is the character's code. Multi-byte input is not modelled.
