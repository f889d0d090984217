/**
  The `Decoder`: its layout fields, line routing (`process_line`) and the fold
  over the lines of an input (`parse_input`).
*/
module Decoding {
  import opened Basics
  import opened Text
  import opened Wire
  import opened Edges
  import opened Protocol
  import opened Config

  /** What `process_line` returns: `None`, the label string, or the list of statuses. */
  datatype Outcome = Skip | Label(text: string) | Session(statuses: seq<Status>)

  /** The characters `strip(' \n\t')` removes around a label. */
  const BLANKS: set<char> := {' ', '\n', '\t'}

  /** A capture line decoded, edge-resolved and interpreted. */
  function DecodeLine(l: Layout, line: string): (r: seq<Status>)
    ensures |r| == |line|
  {
    Interpreted(ResolveLine(RawLine(l, line)))
  }

  /** The layout after a line and what the line returns. */
  datatype Step = Step(layout: Layout, out: Outcome)

  /** `process_line` on a given layout: a short line is skipped, a `!!` line is a
      label, a `>>` line reconfigures the layout (or raises), and every other
      line is a capture. Only a `>>` line can change the layout or fail. */
  function Route(l: Layout, line: string): (r: Result<Step, ConfigError>)
    ensures r.Err? ==> |line| >= 2 && line[..2] == ">>"
    ensures r.Ok? && r.value.layout != l ==> |line| >= 2 && line[..2] == ">>"
    ensures r.Ok? && r.value.out.Session? ==> |r.value.out.statuses| == |line|
  {
    if |line| < 2 then Ok(Step(l, Skip))
    else if line[..2] == "!!" then Ok(Step(l, Label(Strip(line[2..], BLANKS))))
    else if line[..2] == ">>" then
      match ApplyConfig(l, line[2..])
      case Ok(l') => Ok(Step(l', Skip))
      case Err(e) => Err(e)
    else Ok(Step(l, Session(DecodeLine(l, line))))
  }

  /** The four outcomes of routing, from the line's first two characters. */
  lemma RouteCases(l: Layout, line: string)
    ensures |line| < 2 ==> Route(l, line) == Ok(Step(l, Skip))
    ensures |line| >= 2 && line[..2] == "!!" ==> Route(l, line) == Ok(Step(l, Label(Strip(line[2..], BLANKS))))
    ensures |line| >= 2 && line[..2] == ">>" ==>
      match ApplyConfig(l, line[2..])
      case Ok(l') => Route(l, line) == Ok(Step(l', Skip))
      case Err(e) => Route(l, line) == Err(e)
    ensures |line| >= 2 && line[..2] != "!!" && line[..2] != ">>" ==>
      Route(l, line) == Ok(Step(l, Session(DecodeLine(l, line))))
  {
  }

  /** A capture line gives one record per character, trailing newline included;
      its first record carries the raw levels and no tag, and every record's
      levels and tag follow from the raw levels of it and its predecessor. */
  lemma CaptureRecords(l: Layout, line: string, i: nat)
    requires i < |line|
    ensures var r := DecodeLine(l, line); var raws := RawLine(l, line);
            |r| == |line|
            && (i == 0 ==> r[0] == raws[0])
            && (i > 0 ==> r[i].scl == Edge(raws[i - 1].scl, raws[i].scl)
                          && r[i].sda == Edge(raws[i - 1].sda, raws[i].sda))
            && r[i].tag == RawTag(raws, i)
  {
    var raws := RawLine(l, line);
    assert AllLevels(raws);
    ResolveLineEdges(raws);
    InterpretedLineTags(raws, i);
    if i == 0 {
      assert Interpret(raws[0]) == raws[0];
    }
  }

  /** With the default layout, `"00"` is two untagged low/low samples and `"03"`
      is a low/low sample followed by both wires rising, which no pattern tags. */
  lemma DefaultCaptureExamples()
    ensures DecodeLine(DEFAULT_LAYOUT, "00") == [Status(Low, Low, None), Status(Low, Low, None)]
    ensures DecodeLine(DEFAULT_LAYOUT, "03") == [Status(Low, Low, None), Status(Rise, Rise, None)]
  {
    DefaultSamples();
    var r00 := RawLine(DEFAULT_LAYOUT, "00");
    var r03 := RawLine(DEFAULT_LAYOUT, "03");
    assert r00 == [Status(Low, Low, None), Status(Low, Low, None)];
    assert r03 == [Status(Low, Low, None), Status(High, High, None)];
    ResolveLineEdges(r00);
    ResolveLineEdges(r03);
  }

  lemma StripHello()
    ensures Strip(" hello \n", BLANKS) == "hello"
  {
    var t, s, u := " ", "hello", " \n";
    assert t + s + u == " hello \n";
    StripPadded(t, s, u, BLANKS);
  }

  /** `"!! hello "` is the label `hello`. */
  lemma LabelExample(l: Layout)
    ensures Route(l, "!! hello \n") == Ok(Step(l, Label("hello")))
  {
    var line := "!! hello \n";
    assert line[..2] == "!!" && line[2..] == " hello \n";
    RouteCases(l, line);
    StripHello();
  }

  /** The directive `>>1:2:3` moves the offset to 51, the code of `'3'`, after
      which the character `'3'` reads as both wires low; `>>1:2:51` raises. */
  lemma ConfigExample()
    ensures Route(DEFAULT_LAYOUT, ">>1:2:3") == Ok(Step(Layout(1, 2, 51), Skip))
    ensures Route(DEFAULT_LAYOUT, ">>1:2:51").Err?
    ensures DecodeChar(Layout(1, 2, 51), '3') == Status(Low, Low, None)
  {
    OffsetIsOneCharacter();
    assert ">>1:2:3"[..2] == ">>" && ">>1:2:3"[2..] == "1:2:3";
    assert ">>1:2:51"[..2] == ">>" && ">>1:2:51"[2..] == "1:2:51";
    AndZero(0);
    AndSingleBit(0, 0);
    AndSingleBit(0, 1);
  }

  // ---------------------------------------------------------------------
  // parse_input as a fold

  /** The state of `parse_input` after a prefix of the lines: the decoder's
      layout, what each line returned, and the exception that stopped it. */
  datatype Parsed = Parsed(layout: Layout, outs: seq<Outcome>, err: Option<ConfigError>)

  /** One more line: nothing happens once an exception has been raised;
      otherwise the line's outcome is appended, or the exception is recorded
      with the layout and outcomes as they were. Only a `>>` line can change the
      layout or raise. */
  function Feed(p: Parsed, line: string): (r: Parsed)
    ensures p.err.Some? ==> r == p
    ensures |r.outs| >= |p.outs| && r.outs[..|p.outs|] == p.outs
    ensures p.err.None? && r.err.None? ==> |r.outs| == |p.outs| + 1
    ensures p.err.None? && r.err.Some? ==> r.layout == p.layout && r.outs == p.outs
    ensures r.layout != p.layout || (p.err.None? && r.err.Some?) ==> |line| >= 2 && line[..2] == ">>"
  {
    if p.err.Some? then p
    else
      match Route(p.layout, line)
      case Ok(st) => Parsed(st.layout, p.outs + [st.out], None)
      case Err(e) => Parsed(p.layout, p.outs, Some(e))
  }

  /** `parse_input` over a finite sequence of lines from a starting layout. */
  function ParseAll(l: Layout, lines: seq<string>): (r: Parsed)
    ensures r.err.None? ==> |r.outs| == |lines|
    ensures |r.outs| <= |lines|
    decreases |lines|
  {
    if |lines| == 0 then Parsed(l, [], None)
    else Feed(ParseAll(l, lines[..|lines| - 1]), lines[|lines| - 1])
  }

  /** Feeding from an already stopped state changes nothing. */
  lemma {:induction false} ParseAllStopped(l: Layout, lines: seq<string>, k: nat)
    requires k <= |lines|
    requires ParseAll(l, lines[..k]).err.Some?
    ensures ParseAll(l, lines) == ParseAll(l, lines[..k])
    decreases |lines|
  {
    if k < |lines| {
      var n := |lines| - 1;
      assert lines[..n][..k] == lines[..k];
      ParseAllStopped(l, lines[..n], k);
    } else {
      assert lines[..k] == lines;
    }
  }

  /** The layout is the only state carried from one line to the next: parsing
      `a + b` is parsing `a`, then parsing `b` from the layout `a` left. */
  lemma {:induction false} ParseAllAppend(l: Layout, a: seq<string>, b: seq<string>)
    requires ParseAll(l, a).err.None?
    ensures var pa := ParseAll(l, a); var pb := ParseAll(pa.layout, b);
            ParseAll(l, a + b) == Parsed(pb.layout, pa.outs + pb.outs, pb.err)
    decreases |b|
  {
    var pa := ParseAll(l, a);
    if |b| == 0 {
      assert a + b == a;
    } else {
      var n := |b| - 1;
      var ab := a + b;
      assert ab[..|ab| - 1] == a + b[..n] && ab[|ab| - 1] == b[n];
      ParseAllAppend(l, a, b[..n]);
      FeedAfterPrefix(pa.outs, ParseAll(pa.layout, b[..n]), b[n]);
    }
  }

  /** Outcomes collected before do not affect one more line. */
  lemma FeedAfterPrefix(pre: seq<Outcome>, p: Parsed, line: string)
    ensures var q := Feed(p, line);
            Feed(Parsed(p.layout, pre + p.outs, p.err), line) == Parsed(q.layout, pre + q.outs, q.err)
  {
    if p.err.None? && Route(p.layout, line).Ok? {
      var o := Route(p.layout, line).value.out;
      assert pre + p.outs + [o] == pre + (p.outs + [o]);
    }
  }

  /** Without configuration directives every line is processed independently
      with the starting layout, and nothing can fail. */
  lemma {:induction false} ParseAllWithoutConfig(l: Layout, lines: seq<string>)
    requires forall i :: 0 <= i < |lines| ==> |lines[i]| < 2 || lines[i][..2] != ">>"
    ensures var p := ParseAll(l, lines);
            p.layout == l && p.err.None? && |p.outs| == |lines|
            && forall i :: 0 <= i < |lines| ==> Route(l, lines[i]) == Ok(Step(l, p.outs[i]))
    decreases |lines|
  {
    if |lines| > 0 {
      var n := |lines| - 1;
      ParseAllWithoutConfig(l, lines[..n]);
      var p := ParseAll(l, lines[..n]);
      var r := Route(l, lines[n]);
      assert r.Ok? && r.value.layout == l;
      var q := ParseAll(l, lines);
      assert q == Parsed(l, p.outs + [r.value.out], None);
      forall i | 0 <= i < |lines| ensures Route(l, lines[i]) == Ok(Step(l, q.outs[i])) {
        if i < n {
          assert lines[..n][i] == lines[i] && q.outs[i] == p.outs[i];
        }
      }
    }
  }

  // ---------------------------------------------------------------------
  // the decoder object

  /** The `Decoder` class: the layout lives in three fields that configuration
      directives overwrite in place. */
  class Decoder {
    var sclBit: int
    var sdaBit: int
    var shift: int

    /** The layout the fields hold. */
    function CurrentLayout(): Layout
      reads this
    {
      Layout(sclBit, sdaBit, shift)
    }

    /** `__init__`: clock mask 1, data mask 2, offset `ord('0')`. */
    constructor ()
      ensures CurrentLayout() == DEFAULT_LAYOUT
    {
      sclBit := 1;
      sdaBit := 2;
      shift := '0' as int;
    }

    /** `setup_bits`: each supplied field is overwritten, the others keep their values. */
    method SetupBits(scl: Option<int>, sda: Option<int>, sh: Option<int>)
      modifies this
      ensures CurrentLayout() == Setup(old(CurrentLayout()), scl, sda, sh)
      ensures scl.None? ==> sclBit == old(sclBit)
      ensures sda.None? ==> sdaBit == old(sdaBit)
      ensures sh.None? ==> shift == old(shift)
    {
      if scl.Some? {
        sclBit := scl.value;
      }
      if sda.Some? {
        sdaBit := sda.value;
      }
      if sh.Some? {
        shift := sh.value;
      }
    }

    /** `decode_status_line`: one record per character, each resolved against the
        previous record. The edge state starts afresh on every call; only the
        layout is read from the object. */
    method DecodeStatusLine(line: string) returns (statuses: seq<Status>)
      ensures statuses == ResolveLine(RawLine(CurrentLayout(), line))
      ensures |statuses| == |line|
    {
      var prev: Option<Status> := None;
      statuses := [];
      var i := 0;
      while i < |line|
        invariant 0 <= i <= |line|
        invariant statuses == ResolveLine(RawLine(CurrentLayout(), line[..i]))
        invariant prev == if i == 0 then None else Some(statuses[i - 1])
      {
        var status := DecodeChar(CurrentLayout(), line[i]);
        if prev.Some? {
          status := status.(scl := ResolveWire(prev.value.scl, status.scl));
          status := status.(sda := ResolveWire(prev.value.sda, status.sda));
        }
        assert RawLine(CurrentLayout(), line[..i + 1])[..i] == RawLine(CurrentLayout(), line[..i]);
        statuses := statuses + [status];
        prev := Some(status);
        i := i + 1;
      }
      assert line[..i] == line;
    }

    /** `interpret_status_chain`: tags every record of the list in place. */
    static method InterpretStatusChain(statuses: array<Status>)
      modifies statuses
      ensures statuses[..] == Interpreted(old(statuses[..]))
    {
      for i := 0 to statuses.Length
        invariant forall j :: 0 <= j < i ==> statuses[j] == Interpret(old(statuses[j]))
        invariant forall j :: i <= j < statuses.Length ==> statuses[j] == old(statuses[j])
      {
        statuses[i] := Interpret(statuses[i]);
      }
    }

    /** `decode_config_line`: parse the directive and hand the values to
        `setup_bits`; when parsing raises, the layout is untouched. */
    method DecodeConfigLine(rest: string) returns (err: Option<ConfigError>)
      modifies this
      ensures match ApplyConfig(old(CurrentLayout()), rest)
              case Ok(l') => err.None? && CurrentLayout() == l'
              case Err(e) => err == Some(e) && CurrentLayout() == old(CurrentLayout())
    {
      match ParseConfig(rest)
      case Err(e) =>
        err := Some(e);
      case Ok(v) =>
        SetupBits(Some(v.sclBit), Some(v.sdaBit), v.shift);
        err := None;
    }

    /** `process_line`: what the line returns and how the layout changes, as
        `Route` states; a raised exception leaves the layout as it was. */
    method ProcessLine(line: string) returns (r: Result<Outcome, ConfigError>)
      modifies this
      ensures match Route(old(CurrentLayout()), line)
              case Ok(st) => r == Ok(st.out) && CurrentLayout() == st.layout
              case Err(e) => r == Err(e) && CurrentLayout() == old(CurrentLayout())
    {
      if |line| < 2 {
        return Ok(Skip);
      }
      if line[..2] == "!!" {
        return Ok(Label(Strip(line[2..], BLANKS)));
      } else if line[..2] == ">>" {
        var err := DecodeConfigLine(line[2..]);
        if err.Some? {
          return Err(err.value);
        }
        return Ok(Skip);
      }
      var decoded := DecodeStatusLine(line);
      var chain := new Status[|decoded|](i requires 0 <= i < |decoded| => decoded[i]);
      assert chain[..] == decoded;
      InterpretStatusChain(chain);
      return Ok(Session(chain[..]));
    }

    /** `parse_input`: process the lines in order, collecting what each returns,
        until a directive raises. */
    method ParseInput(lines: seq<string>) returns (outs: seq<Outcome>, err: Option<ConfigError>)
      modifies this
      ensures Parsed(CurrentLayout(), outs, err) == ParseAll(old(CurrentLayout()), lines)
    {
      outs := [];
      err := None;
      var i := 0;
      while i < |lines|
        invariant 0 <= i <= |lines|
        invariant Parsed(CurrentLayout(), outs, None) == ParseAll(old(CurrentLayout()), lines[..i])
      {
        assert lines[..i + 1][..i] == lines[..i];
        var r := ProcessLine(lines[i]);
        if r.Err? {
          err := Some(r.error);
          ParseAllStopped(old(CurrentLayout()), lines, i + 1);
          return;
        }
        outs := outs + [r.value];
        i := i + 1;
      }
      assert lines[..i] == lines;
    }
  }
}
