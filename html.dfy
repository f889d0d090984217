/**
  The HTML encoder (`EncoderHtml`): one table cell per level or tag, and a
  session as a three-row table (data row, clock row, interpretation row).
*/
module Html {
  import opened Basics
  import opened Text
  import opened Wire

  /** The CSS kind of a level: the tuple `('falling', 'error', 'rising', 'low',
      'high')` indexed by the level's code plus one. */
  function KindName(w: WS): (r: string)
    ensures r == match w
                 case Fall => "falling"
                 case Invalid => "error"
                 case Rise => "rising"
                 case Low => "low"
                 case High => "high"
  {
    ["falling", "error", "rising", "low", "high"][Code(w) + 1]
  }

  /** `encode_line_event`: a cell of the level's kind; it never holds a
      newline, so the cells of a row can be told apart. */
  function EncodeLineEvent(w: WS): (r: string)
    ensures '\n' !in r
  {
    "<td class=\"kind_" + KindName(w) + "\"></td>"
  }

  /** `encode_int`: the tag in an `interp` cell, or an empty `interp_none` cell
      when the record has no `"int"` key. */
  function EncodeInt(s: Status): (r: string)
    ensures s.tag.Some? ==> |r| == 25 && r[19] == TagChar(s.tag.value)
    ensures s.tag.None? ==> r == "<td class=\"interp interp_none\"></td>"
  {
    match s.tag
    case Some(t) => "<td class=\"interp\">" + [TagChar(t)] + "</td>"
    case None => "<td class=\"interp interp_none\"></td>"
  }

  /** The cells of the data row, clock row and interpretation row. */
  function SdaCells(statuses: seq<Status>): (r: seq<string>)
    ensures |r| == |statuses|
    ensures forall i :: 0 <= i < |r| ==> r[i] == EncodeLineEvent(statuses[i].sda)
  {
    seq(|statuses|, i requires 0 <= i < |statuses| => EncodeLineEvent(statuses[i].sda))
  }

  function SclCells(statuses: seq<Status>): (r: seq<string>)
    ensures |r| == |statuses|
    ensures forall i :: 0 <= i < |r| ==> r[i] == EncodeLineEvent(statuses[i].scl)
  {
    seq(|statuses|, i requires 0 <= i < |statuses| => EncodeLineEvent(statuses[i].scl))
  }

  function IntCells(statuses: seq<Status>): (r: seq<string>)
    ensures |r| == |statuses|
    ensures forall i :: 0 <= i < |r| ==> r[i] == EncodeInt(statuses[i])
  {
    seq(|statuses|, i requires 0 <= i < |statuses| => EncodeInt(statuses[i]))
  }

  /** `encode_session`: a table of three rows, data first, then clock, then
      interpretation, each a newline-joined list of cells. */
  function EncodeSession(statuses: seq<Status>): (r: string)
    ensures r == "<table>" + Row(SdaCells(statuses)) + Row(SclCells(statuses)) + Row(IntCells(statuses)) + "</table>"
  {
    TableOfRows(Join(SdaCells(statuses), '\n'), Join(SclCells(statuses), '\n'), Join(IntCells(statuses), '\n'));
    "<table><tr>\n" + Join(SdaCells(statuses), '\n')
    + "\n</tr><tr>\n" + Join(SclCells(statuses), '\n')
    + "\n</tr><tr>\n" + Join(IntCells(statuses), '\n')
    + "\n</tr></table>"
  }

  /** One table row around a newline-joined list of cells. */
  function Row(cells: seq<string>): string {
    "<tr>\n" + Join(cells, '\n') + "\n</tr>"
  }

  /** Different levels get different cells, so a cell determines its level. */
  lemma EncodeLineEventInjective(a: WS, b: WS)
    ensures EncodeLineEvent(a) == EncodeLineEvent(b) ==> a == b
  {
    if EncodeLineEvent(a) == EncodeLineEvent(b) {
      assert |KindName(a)| == |KindName(b)|;
    }
  }

  /** An interpretation cell determines the record's tag. */
  lemma EncodeIntInjective(s: Status, t: Status)
    ensures EncodeInt(s) == EncodeInt(t) ==> s.tag == t.tag
  {
    if EncodeInt(s) == EncodeInt(t) {
      if s.tag.Some? && t.tag.Some? {
        var open := "<td class=\"interp\">";
        assert |open| == 19;
        assert EncodeInt(s)[19] == TagChar(s.tag.value);
        assert EncodeInt(t)[19] == TagChar(t.tag.value);
      } else {
        assert |EncodeInt(s)| == |EncodeInt(t)|;
      }
    }
  }

  lemma CellsHaveNoNewline(statuses: seq<Status>)
    ensures forall i :: 0 <= i < |statuses| ==> '\n' !in SdaCells(statuses)[i]
    ensures forall i :: 0 <= i < |statuses| ==> '\n' !in SclCells(statuses)[i]
    ensures forall i :: 0 <= i < |statuses| ==> '\n' !in IntCells(statuses)[i]
  {
    forall w: WS ensures '\n' !in EncodeLineEvent(w) {
      var k := KindName(w);
      assert '\n' !in k;
      assert EncodeLineEvent(w) == "<td class=\"kind_" + k + "\"></td>";
    }
    forall s: Status ensures '\n' !in EncodeInt(s) {
      if s.tag.Some? {
        assert EncodeInt(s) == "<td class=\"interp\">" + [TagChar(s.tag.value)] + "</td>";
      }
    }
  }

  lemma TableOfRows(a: string, b: string, c: string)
    ensures "<table><tr>\n" + a + "\n</tr><tr>\n" + b + "\n</tr><tr>\n" + c + "\n</tr></table>"
         == "<table>" + ("<tr>\n" + a + "\n</tr>") + ("<tr>\n" + b + "\n</tr>") + ("<tr>\n" + c + "\n</tr>") + "</table>"
  {
    var open, mid, close := "<tr>\n", "\n</tr>", "</table>";
    assert "<table><tr>\n" == "<table>" + open;
    assert "\n</tr><tr>\n" == mid + open;
    assert "\n</tr></table>" == mid + close;
  }

  /** A session is a table of three rows, data first, then clock, then
      interpretation; splitting each row's contents at its newlines gives back
      exactly one cell per record: the record's data level, clock level and tag,
      in order. */
  lemma SessionRows(statuses: seq<Status>)
    requires |statuses| > 0
    ensures EncodeSession(statuses)
         == "<table>" + Row(SdaCells(statuses)) + Row(SclCells(statuses)) + Row(IntCells(statuses)) + "</table>"
    ensures Split(Join(SdaCells(statuses), '\n'), '\n') == SdaCells(statuses)
    ensures Split(Join(SclCells(statuses), '\n'), '\n') == SclCells(statuses)
    ensures Split(Join(IntCells(statuses), '\n'), '\n') == IntCells(statuses)
  {
    TableOfRows(Join(SdaCells(statuses), '\n'), Join(SclCells(statuses), '\n'), Join(IntCells(statuses), '\n'));
    CellsHaveNoNewline(statuses);
    SplitJoin(SdaCells(statuses), '\n');
    SplitJoin(SclCells(statuses), '\n');
    SplitJoin(IntCells(statuses), '\n');
  }
}
