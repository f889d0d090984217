/**
  Edge tracking (`decode_status_line`): each raw level is compared with the
  previous sample's resolved level and becomes `Rise` or `Fall` on the sample
  where the wire changes.
*/
module Edges {
  import opened Basics
  import opened Wire

  /** The per-wire branch of the loop body: equal levels stay; a high after a
      low or a fall becomes a rise; a low after a high or a rise becomes a fall;
      anything else keeps the raw level. On a steady raw level the result is a
      rise exactly when a high follows a low-side level, a fall exactly when a
      low follows a high-side level, and the raw level is always underneath. */
  function ResolveWire(prev: WS, raw: WS): (r: WS)
    ensures IsLevel(raw) ==> (r == Rise <==> raw == High && (prev == Low || prev == Fall))
    ensures IsLevel(raw) ==> (r == Fall <==> raw == Low && (prev == High || prev == Rise))
    ensures IsLevel(raw) ==> Base(r) == raw
  {
    if raw == prev then raw
    else if raw == High then (if prev == Low || prev == Fall then Rise else raw)
    else if raw == Low then (if prev == High || prev == Rise then Fall else raw)
    else raw
  }

  /** One loop step: the first sample of a line keeps its raw levels, every
      later one is resolved against the previous resolved record. */
  function Next(prev: Option<Status>, raw: Status): Status {
    match prev
    case None => raw
    case Some(p) => raw.(scl := ResolveWire(p.scl, raw.scl), sda := ResolveWire(p.sda, raw.sda))
  }

  /** The statuses the loop has built after consuming `raws`, one per sample. */
  function ResolveLine(raws: seq<Status>): (r: seq<Status>)
    ensures |r| == |raws|
    ensures |raws| > 0 ==> r[0] == raws[0]
    decreases |raws|
  {
    if |raws| == 0 then []
    else
      var pre := ResolveLine(raws[..|raws| - 1]);
      pre + [Next(if |pre| == 0 then None else Some(pre[|pre| - 1]), raws[|raws| - 1])]
  }

  /** The steady level underneath a resolved level. */
  function Base(w: WS): WS {
    match w
    case Rise => High
    case Fall => Low
    case _ => w
  }

  /** Reference definition of the resolved level from the raw levels alone: a
      rise where the raw level goes from low to high, a fall where it goes from
      high to low, the raw level otherwise. */
  function Edge(prevRaw: WS, raw: WS): WS {
    if prevRaw == Low && raw == High then Rise
    else if prevRaw == High && raw == Low then Fall
    else raw
  }

  predicate AllLevels(raws: seq<Status>) {
    forall i :: 0 <= i < |raws| ==> IsLevel(raws[i].scl) && IsLevel(raws[i].sda)
  }

  lemma ResolveWireIsEdge(prev: WS, raw: WS)
    requires IsLevel(raw) && IsLevel(Base(prev))
    ensures ResolveWire(prev, raw) == Edge(Base(prev), raw)
    ensures Base(ResolveWire(prev, raw)) == raw
  {
  }

  /** Edge characterisation: on a line of steady raw levels the first record is
      raw, every later record carries a rise (fall) on a wire exactly when the
      raw level went from low to high (high to low) there, and the record's
      tag is the raw one. */
  lemma {:induction false} ResolveLineEdges(raws: seq<Status>)
    requires AllLevels(raws)
    ensures var r := ResolveLine(raws);
            forall i :: 0 < i < |raws| ==>
              r[i] == raws[i].(scl := Edge(raws[i - 1].scl, raws[i].scl),
                               sda := Edge(raws[i - 1].sda, raws[i].sda))
    ensures var r := ResolveLine(raws);
            forall i :: 0 <= i < |raws| ==> Base(r[i].scl) == raws[i].scl && Base(r[i].sda) == raws[i].sda
    decreases |raws|
  {
    if |raws| > 0 {
      var n := |raws| - 1;
      var front := raws[..n];
      assert AllLevels(front) by {
        forall i | 0 <= i < |front| ensures IsLevel(front[i].scl) && IsLevel(front[i].sda) {
          assert front[i] == raws[i];
        }
      }
      ResolveLineEdges(front);
      var pre := ResolveLine(front);
      var r := ResolveLine(raws);
      assert r == pre + [Next(if |pre| == 0 then None else Some(pre[|pre| - 1]), raws[n])];
      forall i | 0 <= i < n ensures r[i] == pre[i] && front[i] == raws[i] { }
      if n > 0 {
        assert front[n - 1] == raws[n - 1];
        ResolveWireIsEdge(pre[n - 1].scl, raws[n].scl);
        ResolveWireIsEdge(pre[n - 1].sda, raws[n].sda);
      }
    }
  }

  /** An edge is tagged on one sample only: a rise is never followed by another
      rise, nor a fall by another fall. (A wire that toggles on every sample is
      tagged on every sample, alternately rising and falling: `ToggleTaggedTwice`.) */
  lemma NoRepeatedEdge(raws: seq<Status>, i: nat)
    requires AllLevels(raws)
    requires 0 < i < |raws|
    ensures var r := ResolveLine(raws);
            (r[i - 1].scl == Rise ==> r[i].scl != Rise) && (r[i - 1].scl == Fall ==> r[i].scl != Fall)
    ensures var r := ResolveLine(raws);
            (r[i - 1].sda == Rise ==> r[i].sda != Rise) && (r[i - 1].sda == Fall ==> r[i].sda != Fall)
  {
    ResolveLineEdges(raws);
  }

  /** A clock that goes low, high, low is tagged on both of the last two
      samples: a rise, then straight away a fall. */
  lemma ToggleTaggedTwice()
    ensures var r := ResolveLine([Status(Low, Low, None), Status(High, Low, None), Status(Low, Low, None)]);
            r[1].scl == Rise && r[2].scl == Fall
  {
    ResolveLineEdges([Status(Low, Low, None), Status(High, Low, None), Status(Low, Low, None)]);
  }

  /** Resolved levels are never `Invalid`. */
  lemma ResolvedNeverInvalid(raws: seq<Status>, i: nat)
    requires AllLevels(raws)
    requires i < |raws|
    ensures ResolveLine(raws)[i].scl != Invalid && ResolveLine(raws)[i].sda != Invalid
  {
    ResolveLineEdges(raws);
  }
}
