/**
  Protocol interpretation (`interpret_status_chain`): a resolved record is
  tagged Start, Stop, bit 1 or bit 0 when it shows one of the four canonical
  wire patterns.
*/
module Protocol {
  import opened Basics
  import opened Wire
  import opened Edges

  /** The elif chain of the loop body, applied to one record. A record that
      matches no pattern is left exactly as it was. */
  function Interpret(s: Status): (r: Status)
    ensures r.scl == s.scl && r.sda == s.sda
    ensures s.sda == Fall && s.scl == High ==> r.tag == Some(Start)
    ensures s.sda == Rise && s.scl == High ==> r.tag == Some(Stop)
    ensures s.sda == High && s.scl == Rise ==> r.tag == Some(One)
    ensures s.sda == Low && s.scl == Rise ==> r.tag == Some(Zero)
    ensures !(s.scl == High && (s.sda == Fall || s.sda == Rise)) && !(s.scl == Rise && IsLevel(s.sda)) ==> r == s
  {
    if s.sda == Fall && s.scl == High then s.(tag := Some(Start))
    else if s.sda == Rise && s.scl == High then s.(tag := Some(Stop))
    else if s.sda == High && s.scl == Rise then s.(tag := Some(One))
    else if s.sda == Low && s.scl == Rise then s.(tag := Some(Zero))
    else s
  }

  /** The whole chain after the loop has visited every record. */
  function Interpreted(statuses: seq<Status>): (r: seq<Status>)
    ensures |r| == |statuses|
    ensures forall i :: 0 <= i < |r| ==> r[i] == Interpret(statuses[i])
  {
    seq(|statuses|, i requires 0 <= i < |statuses| => Interpret(statuses[i]))
  }

  /** On an untagged record each tag is set exactly when its pattern holds. */
  lemma InterpretIff(s: Status)
    requires s.tag == None
    ensures Interpret(s).tag == Some(Start) <==> s.sda == Fall && s.scl == High
    ensures Interpret(s).tag == Some(Stop) <==> s.sda == Rise && s.scl == High
    ensures Interpret(s).tag == Some(One) <==> s.sda == High && s.scl == Rise
    ensures Interpret(s).tag == Some(Zero) <==> s.sda == Low && s.scl == Rise
    ensures Interpret(s).tag == None <==>
      !(s.scl == High && (s.sda == Fall || s.sda == Rise)) && !(s.scl == Rise && IsLevel(s.sda))
  {
  }

  /** The tag a sample gets from its raw levels `c` and its predecessor's `p`:
      a start is data going high to low while the clock stays high, a stop is
      data going low to high while the clock stays high, and a bit is the data
      level, held steady, at the sample where the clock goes low to high. */
  function PairTag(p: Status, c: Status): Option<Tag> {
    if p.scl == High && c.scl == High && p.sda == High && c.sda == Low then Some(Start)
    else if p.scl == High && c.scl == High && p.sda == Low && c.sda == High then Some(Stop)
    else if p.scl == Low && c.scl == High && p.sda == High && c.sda == High then Some(One)
    else if p.scl == Low && c.scl == High && p.sda == Low && c.sda == Low then Some(Zero)
    else None
  }

  /** The tag of sample `i` of a line in terms of raw levels; the first sample
      has no predecessor and no tag. */
  function RawTag(raws: seq<Status>, i: nat): Option<Tag>
    requires i < |raws|
  {
    if i == 0 then None else PairTag(raws[i - 1], raws[i])
  }

  lemma InterpretEdge(p: Status, c: Status)
    requires IsLevel(p.scl) && IsLevel(p.sda) && IsLevel(c.scl) && IsLevel(c.sda) && c.tag == None
    ensures Interpret(c.(scl := Edge(p.scl, c.scl), sda := Edge(p.sda, c.sda))).tag == PairTag(p, c)
  {
    InterpretIff(c.(scl := Edge(p.scl, c.scl), sda := Edge(p.sda, c.sda)));
  }

  /** Interpreting the resolved line tags each sample by its raw-level pattern;
      in particular the first sample of a line is never tagged, and a data change
      on the sample where the clock rises yields no bit. */
  lemma InterpretedLineTags(raws: seq<Status>, i: nat)
    requires AllLevels(raws)
    requires forall j :: 0 <= j < |raws| ==> raws[j].tag == None
    requires i < |raws|
    ensures Interpreted(ResolveLine(raws))[i].tag == RawTag(raws, i)
  {
    ResolveLineEdges(raws);
    var r := ResolveLine(raws);
    var c := raws[i];
    assert Interpreted(r)[i] == Interpret(r[i]);
    if i > 0 {
      var p := raws[i - 1];
      assert r[i] == c.(scl := Edge(p.scl, c.scl), sda := Edge(p.sda, c.sda));
      InterpretEdge(p, c);
    } else {
      assert r[0] == c;
      InterpretIff(c);
    }
  }
}
