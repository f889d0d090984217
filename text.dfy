/**
  The string operations the decoder relies on, with Python's semantics:
  `str.split` on one separator character, `sep.join`, `str.rstrip`/`str.strip`
  with a set of characters, and `int()` on a plain decimal literal.
*/
module Text {
  import opened Basics

  // ---------------------------------------------------------------------
  // split and join

  /** Python's `s.split(sep)` for a one-character separator: never empty, and
      an empty string gives one empty field. */
  function Split(s: string, sep: char): (r: seq<string>)
    ensures |r| >= 1
    ensures forall i :: 0 <= i < |r| ==> sep !in r[i]
    decreases |s|
  {
    if |s| == 0 then [""]
    else
      var rest := Split(s[1..], sep);
      if s[0] == sep then [""] + rest
      else [[s[0]] + rest[0]] + rest[1..]
  }

  /** Python's `sep.join(parts)`. */
  function Join(parts: seq<string>, sep: char): string
    decreases |parts|
  {
    if |parts| == 0 then ""
    else if |parts| == 1 then parts[0]
    else parts[0] + [sep] + Join(parts[1..], sep)
  }

  /** Joining the fields of a split gives back the string. */
  lemma {:induction false} JoinSplit(s: string, sep: char)
    ensures Join(Split(s, sep), sep) == s
    decreases |s|
  {
    if |s| > 0 {
      JoinSplit(s[1..], sep);
      var rest := Split(s[1..], sep);
      if s[0] == sep {
        assert Join([""] + rest, sep) == "" + [sep] + Join(rest, sep);
      } else if |rest| == 1 {
        assert Join([[s[0]] + rest[0]], sep) == [s[0]] + rest[0];
      } else {
        var parts := [[s[0]] + rest[0]] + rest[1..];
        assert parts[1..] == rest[1..];
        assert Join(rest, sep) == rest[0] + [sep] + Join(rest[1..], sep);
        assert Join(parts, sep) == [s[0]] + rest[0] + [sep] + Join(rest[1..], sep);
      }
    }
  }

  lemma {:induction false} SplitNoSep(p: string, sep: char)
    requires sep !in p
    ensures Split(p, sep) == [p]
    decreases |p|
  {
    if |p| > 0 {
      assert sep !in p[1..] by {
        forall k | 0 <= k < |p[1..]| ensures p[1..][k] != sep { assert p[1..][k] == p[k + 1]; }
      }
      SplitNoSep(p[1..], sep);
      assert [p[0]] + p[1..] == p;
    }
  }

  lemma {:induction false} SplitThroughSep(p: string, t: string, sep: char)
    requires sep !in p
    ensures Split(p + [sep] + t, sep) == [p] + Split(t, sep)
    decreases |p|
  {
    if |p| == 0 {
      assert p + [sep] + t == [sep] + t;
      assert ([sep] + t)[1..] == t;
    } else {
      var s := p + [sep] + t;
      assert s[0] == p[0];
      assert s[1..] == p[1..] + [sep] + t;
      assert sep !in p[1..] by {
        forall k | 0 <= k < |p[1..]| ensures p[1..][k] != sep { assert p[1..][k] == p[k + 1]; }
      }
      SplitThroughSep(p[1..], t, sep);
      assert [p[0]] + p[1..] == p;
    }
  }

  /** Splitting a join gives back the fields, as long as no field holds the separator. */
  lemma {:induction false} SplitJoin(parts: seq<string>, sep: char)
    requires |parts| >= 1
    requires forall i :: 0 <= i < |parts| ==> sep !in parts[i]
    ensures Split(Join(parts, sep), sep) == parts
    decreases |parts|
  {
    if |parts| == 1 {
      SplitNoSep(parts[0], sep);
    } else {
      SplitJoin(parts[1..], sep);
      SplitThroughSep(parts[0], Join(parts[1..], sep), sep);
      assert [parts[0]] + parts[1..] == parts;
    }
  }

  // ---------------------------------------------------------------------
  // strip

  /** Python's `s.rstrip(chars)`: the longest prefix whose last character is not in `cs`
      and that leaves behind only characters of `cs`. */
  function RStrip(s: string, cs: set<char>): (r: string)
    ensures |r| <= |s| && r == s[..|r|]
    ensures |r| > 0 ==> r[|r| - 1] !in cs
    ensures forall i :: |r| <= i < |s| ==> s[i] in cs
    decreases |s|
  {
    if |s| > 0 && s[|s| - 1] in cs then RStrip(s[..|s| - 1], cs) else s
  }

  /** Python's `s.lstrip(chars)`. */
  function LStrip(s: string, cs: set<char>): (r: string)
    ensures |r| <= |s| && r == s[|s| - |r|..]
    ensures |r| > 0 ==> r[0] !in cs
    ensures forall i :: 0 <= i < |s| - |r| ==> s[i] in cs
    decreases |s|
  {
    if |s| > 0 && s[0] in cs then LStrip(s[1..], cs) else s
  }

  /** Python's `s.strip(chars)`: both ends. */
  function Strip(s: string, cs: set<char>): string {
    LStrip(RStrip(s, cs), cs)
  }

  /** Where the result of `strip` starts in its argument. */
  function StripStart(s: string, cs: set<char>): int {
    |RStrip(s, cs)| - |Strip(s, cs)|
  }

  /** What `strip` removes is exactly the blank run at each end: the result is the
      slice of `s` that starts at `StripStart`, its ends are not in `cs`, and
      everything outside it is. */
  lemma StripSlice(s: string, cs: set<char>)
    ensures 0 <= StripStart(s, cs) <= |s| - |Strip(s, cs)|
    ensures Strip(s, cs) == s[StripStart(s, cs)..StripStart(s, cs) + |Strip(s, cs)|]
    ensures forall i :: 0 <= i < StripStart(s, cs) ==> s[i] in cs
    ensures forall i :: StripStart(s, cs) + |Strip(s, cs)| <= i < |s| ==> s[i] in cs
    ensures |Strip(s, cs)| > 0 ==> Strip(s, cs)[0] !in cs && Strip(s, cs)[|Strip(s, cs)| - 1] !in cs
  {
    var t := RStrip(s, cs);
    var r := LStrip(t, cs);
    var k := |t| - |r|;
    assert r == Strip(s, cs) && k == StripStart(s, cs);
    assert r == t[k..] && t == s[..|t|];
    assert r == s[k..k + |r|];
    forall i | 0 <= i < k ensures s[i] in cs {
      assert t[i] == s[i];
    }
    if |r| > 0 {
      assert r[|r| - 1] == t[|t| - 1];
    }
  }

  /** rstrip leaves a string alone when followed by stripped characters only. */
  lemma {:induction false} RStripTrailing(s: string, t: string, cs: set<char>)
    requires |s| > 0 && s[|s| - 1] !in cs
    requires forall i :: 0 <= i < |t| ==> t[i] in cs
    ensures RStrip(s + t, cs) == s
    decreases |t|
  {
    if |t| > 0 {
      var u := s + t;
      assert u[..|u| - 1] == s + t[..|t| - 1];
      RStripTrailing(s, t[..|t| - 1], cs);
    } else {
      assert s + t == s;
    }
  }

  /** lstrip removes exactly a leading run of stripped characters. */
  lemma {:induction false} LStripLeading(t: string, s: string, cs: set<char>)
    requires |s| > 0 && s[0] !in cs
    requires forall i :: 0 <= i < |t| ==> t[i] in cs
    ensures LStrip(t + s, cs) == s
    decreases |t|
  {
    if |t| > 0 {
      assert (t + s)[1..] == t[1..] + s;
      LStripLeading(t[1..], s, cs);
    } else {
      assert t + s == s;
    }
  }

  /** strip gives back a string whose ends are not stripped characters from
      between runs of stripped characters. */
  lemma StripPadded(t: string, s: string, u: string, cs: set<char>)
    requires |s| > 0 && s[0] !in cs && s[|s| - 1] !in cs
    requires forall i :: 0 <= i < |t| ==> t[i] in cs
    requires forall i :: 0 <= i < |u| ==> u[i] in cs
    ensures Strip(t + s + u, cs) == s
  {
    var ts := t + s;
    assert ts[|ts| - 1] == s[|s| - 1];
    RStripTrailing(ts, u, cs);
    LStripLeading(t, s, cs);
  }

  // ---------------------------------------------------------------------
  // decimal integers

  predicate IsDigit(c: char) { '0' <= c <= '9' }

  predicate IsDigits(s: string) {
    |s| > 0 && forall i :: 0 <= i < |s| ==> IsDigit(s[i])
  }

  function DigitValue(c: char): nat
    requires IsDigit(c)
  {
    c as int - '0' as int
  }

  function DigitChar(d: nat): (c: char)
    requires d < 10
    ensures IsDigit(c) && DigitValue(c) == d
  {
    ('0' as int + d) as char
  }

  /** The value of a run of decimal digits, most significant first. */
  function DigitsValue(s: string): nat
    requires forall i :: 0 <= i < |s| ==> IsDigit(s[i])
    decreases |s|
  {
    if |s| == 0 then 0 else DigitsValue(s[..|s| - 1]) * 10 + DigitValue(s[|s| - 1])
  }

  /** Python's `int(s)`, restricted to an optional sign followed by decimal digits;
      anything else is the `ValueError` of `int`. */
  function ParseInt(s: string): (r: Option<int>)
    ensures r.Some? <==> IsDigits(s) || (|s| > 0 && (s[0] == '-' || s[0] == '+') && IsDigits(s[1..]))
  {
    if |s| > 0 && (s[0] == '-' || s[0] == '+') then
      if IsDigits(s[1..]) then
        Some(if s[0] == '-' then -(DigitsValue(s[1..]) as int) else DigitsValue(s[1..]))
      else None
    else if IsDigits(s) then Some(DigitsValue(s))
    else None
  }

  /** Python's `str(n)` for a natural number. */
  function NatToString(n: nat): (s: string)
    ensures IsDigits(s)
    decreases n
  {
    if n < 10 then [DigitChar(n)] else NatToString(n / 10) + [DigitChar(n % 10)]
  }

  /** Python's `str(n)` for an integer. */
  function IntToString(n: int): string {
    if n < 0 then "-" + NatToString(-n) else NatToString(n)
  }

  lemma {:induction false} NatToStringValue(n: nat)
    ensures DigitsValue(NatToString(n)) == n
    decreases n
  {
    if n >= 10 {
      NatToStringValue(n / 10);
      var s := NatToString(n);
      assert s[..|s| - 1] == NatToString(n / 10);
    }
  }

  /** `int(str(n)) == n`. */
  lemma ParseIntToString(n: int)
    ensures ParseInt(IntToString(n)) == Some(n)
  {
    if n < 0 {
      NatToStringValue(-n);
      assert IntToString(n)[1..] == NatToString(-n);
    } else {
      NatToStringValue(n);
    }
  }

  /** A rendered integer never contains anything but a sign and digits. */
  lemma IntToStringChars(n: int, c: char)
    requires c != '-' && !IsDigit(c)
    ensures c !in IntToString(n)
  {
    var s := IntToString(n);
    if n < 0 {
      forall i | 1 <= i < |s| ensures s[i] != c { assert s[i] == NatToString(-n)[i - 1]; }
    }
  }
}
