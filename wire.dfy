/**
  Wire levels, the decoded sample record, the bit layout of a capture character
  and the decoding of one character into the raw levels of both wires.
*/
module Wire {
  import opened Basics

  /** The wire status enumeration `WS`. */
  datatype WS = Invalid | High | Low | Rise | Fall

  /** The numeric value each level has in the source; the HTML encoder indexes by it. */
  function Code(w: WS): (n: int)
    ensures -1 <= n <= 3
  {
    match w
    case Invalid => 0
    case High => 3
    case Low => 2
    case Rise => 1
    case Fall => -1
  }

  /** Distinct levels have distinct codes, so the enumeration is faithful. */
  lemma CodeInjective(a: WS, b: WS)
    ensures Code(a) == Code(b) ==> a == b
  {
  }

  /** A plain (steady) level, as produced by decoding one character. */
  predicate IsLevel(w: WS) { w == High || w == Low }

  /** The protocol tag stored under the record's `"int"` key. */
  datatype Tag = Start | Stop | One | Zero

  /** The one-character string the source stores for each tag. */
  function TagChar(t: Tag): char {
    match t
    case Start => 'S'
    case Stop => 'E'
    case One => '1'
    case Zero => '0'
  }

  /** A decoded sample: the record with keys `"scl"`, `"sda"` and, once
      interpreted, possibly `"int"`. */
  datatype Status = Status(scl: WS, sda: WS, tag: Option<Tag>)

  /** The decoder's configuration: the clock mask `SCL_BIT`, the data mask
      `SDA_BIT` and the offset `SHIFT`. */
  datatype Layout = Layout(sclBit: int, sdaBit: int, shift: int)

  /** The layout a fresh decoder starts with. */
  const DEFAULT_LAYOUT := Layout(1, 2, '0' as int)

  /** `setup_bits`: overwrite exactly the fields that are supplied. */
  function Setup(l: Layout, scl: Option<int>, sda: Option<int>, shift: Option<int>): (r: Layout)
    ensures r.sclBit == (if scl.Some? then scl.value else l.sclBit)
    ensures r.sdaBit == (if sda.Some? then sda.value else l.sdaBit)
    ensures r.shift == (if shift.Some? then shift.value else l.shift)
  {
    Layout(scl.GetOr(l.sclBit), sda.GetOr(l.sdaBit), shift.GetOr(l.shift))
  }

  /** A call with every argument omitted leaves the layout as it was. */
  lemma SetupNothing(l: Layout)
    ensures Setup(l, None, None, None) == l
  {
  }

  /** A second call wins on the fields it supplies and keeps the first call's others. */
  lemma SetupTwice(l: Layout, a1: Option<int>, b1: Option<int>, c1: Option<int>,
                   a2: Option<int>, b2: Option<int>, c2: Option<int>)
    ensures Setup(Setup(l, a1, b1, c1), a2, b2, c2)
         == Setup(l, if a2.Some? then a2 else a1, if b2.Some? then b2 else b1, if c2.Some? then c2 else c1)
  {
  }

  // ---------------------------------------------------------------------
  // Python's bitwise and

  function Abs(x: int): nat { if x < 0 then -x else x }

  /** Python's `x & y` on unbounded integers: the bitwise and of the infinite
      two's-complement expansions. Bit 0 is `x % 2` and the remaining bits are
      `x / 2` (both floor-based, as Dafny's are for a positive divisor); the
      expansion ends once each operand is `0` (all zeros) or `-1` (all ones).
      A non-negative operand bounds the result, and only two negative operands
      give a negative result. */
  function PyAnd(x: int, y: int): (r: int)
    ensures x >= 0 ==> 0 <= r <= x
    ensures y >= 0 ==> 0 <= r <= y
    ensures r < 0 <==> x < 0 && y < 0
    decreases Abs(x) + Abs(y)
  {
    if (x == 0 || x == -1) && (y == 0 || y == -1) then
      if x == -1 && y == -1 then -1 else 0
    else
      2 * PyAnd(x / 2, y / 2) + (x % 2) * (y % 2)
  }

  function Pow2(k: nat): (p: nat)
    ensures p >= 1
  {
    if k == 0 then 1 else 2 * Pow2(k - 1)
  }

  /** Bit `k` of the two's-complement expansion of `x`. */
  predicate Bit(x: int, k: nat)
    decreases k
  {
    if k == 0 then x % 2 == 1 else Bit(x / 2, k - 1)
  }

  /** All bits of `0` are clear and all bits of `-1` are set. */
  lemma {:induction false} BitOfConstant(k: nat)
    ensures !Bit(0, k) && Bit(-1, k)
    decreases k
  {
    if k > 0 {
      BitOfConstant(k - 1);
    }
  }

  /** Python's `&` is the bitwise and: bit `k` of `x & y` is set exactly when bit
      `k` is set in both operands, for any masks, negative ones included. */
  lemma {:induction false} AndBits(x: int, y: int, k: nat)
    ensures Bit(PyAnd(x, y), k) <==> Bit(x, k) && Bit(y, k)
    decreases Abs(x) + Abs(y), k
  {
    if (x == 0 || x == -1) && (y == 0 || y == -1) {
      BitOfConstant(k);
    } else if k > 0 {
      var q := PyAnd(x / 2, y / 2);
      var r := 2 * q + (x % 2) * (y % 2);
      assert PyAnd(x, y) == r;
      assert r / 2 == q by {
        assert 0 <= (x % 2) * (y % 2) <= 1;
      }
      AndBits(x / 2, y / 2, k - 1);
    }
  }

  /** A zero mask selects nothing. */
  lemma {:induction false} AndZero(x: int)
    ensures PyAnd(x, 0) == 0
    decreases Abs(x)
  {
    if x != 0 && x != -1 {
      AndZero(x / 2);
    }
  }

  /** With a one-bit mask `2^k`, the and is nonzero exactly when bit `k` is set,
      for negative values too. */
  lemma {:induction false} AndSingleBit(x: int, k: nat)
    ensures PyAnd(x, Pow2(k)) != 0 <==> Bit(x, k)
    decreases k
  {
    if k == 0 {
      AndZero(x / 2);
    } else {
      var p := Pow2(k);
      assert p / 2 == Pow2(k - 1) && p % 2 == 0;
      AndSingleBit(x / 2, k - 1);
    }
  }

  // ---------------------------------------------------------------------
  // decode_status_char

  /** `decode_status_char`: the numeric value `ord(c) - SHIFT`; a wire is high
      when that value and its mask have a common bit, low otherwise. The record
      carries no `"int"` key yet. */
  function DecodeChar(l: Layout, c: char): (r: Status)
    ensures IsLevel(r.scl) && IsLevel(r.sda) && r.tag == None
    ensures r.scl == High <==> PyAnd(c as int - l.shift, l.sclBit) != 0
    ensures r.sda == High <==> PyAnd(c as int - l.shift, l.sdaBit) != 0
  {
    var v := c as int - l.shift;
    Status(if PyAnd(v, l.sclBit) != 0 then High else Low,
           if PyAnd(v, l.sdaBit) != 0 then High else Low, None)
  }

  /** The raw levels of every character of a line, in order. */
  function RawLine(l: Layout, line: string): (r: seq<Status>)
    ensures |r| == |line|
    ensures forall i :: 0 <= i < |line| ==> r[i] == DecodeChar(l, line[i])
  {
    seq(|line|, i requires 0 <= i < |line| => DecodeChar(l, line[i]))
  }

  /** A wire whose mask is zero always reads low. */
  lemma ZeroMaskIsLow(l: Layout, c: char)
    requires l.sclBit == 0
    ensures DecodeChar(l, c).scl == Low
  {
    AndZero(c as int - l.shift);
  }

  /** With a one-bit clock mask `2^k` the clock level is bit `k` of `ord(c) - SHIFT`. */
  lemma SingleBitClock(l: Layout, c: char, k: nat)
    requires l.sclBit == Pow2(k)
    ensures DecodeChar(l, c).scl == High <==> Bit(c as int - l.shift, k)
  {
    AndSingleBit(c as int - l.shift, k);
  }

  /** With a one-bit data mask `2^k` the data level is bit `k` of `ord(c) - SHIFT`. */
  lemma SingleBitData(l: Layout, c: char, k: nat)
    requires l.sdaBit == Pow2(k)
    ensures DecodeChar(l, c).sda == High <==> Bit(c as int - l.shift, k)
  {
    AndSingleBit(c as int - l.shift, k);
  }

  /** The default layout reads '0', '1', '2', '3' as the two low bits of the digit
      (clock in bit 0, data in bit 1); the trailing newline of a line read from a
      file is `ord('\n') - ord('0') == -38`, whose two's-complement bits 0 and 1
      are 0 and 1, so it reads as clock low, data high. */
  lemma DefaultSamples()
    ensures DecodeChar(DEFAULT_LAYOUT, '0') == Status(Low, Low, None)
    ensures DecodeChar(DEFAULT_LAYOUT, '1') == Status(High, Low, None)
    ensures DecodeChar(DEFAULT_LAYOUT, '2') == Status(Low, High, None)
    ensures DecodeChar(DEFAULT_LAYOUT, '3') == Status(High, High, None)
    ensures DecodeChar(DEFAULT_LAYOUT, '\n') == Status(Low, High, None)
  {
    AndSingleBit(0, 0); AndSingleBit(0, 1);
    AndSingleBit(1, 0); AndSingleBit(1, 1);
    AndSingleBit(2, 0); AndSingleBit(2, 1);
    AndSingleBit(3, 0); AndSingleBit(3, 1);
    AndSingleBit(-38, 0); AndSingleBit(-38, 1);
  }
}
