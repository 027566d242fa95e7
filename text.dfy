// Text helpers shared by the model: decimal rendering as Python's str() and
// C++'s std::to_string produce it, the two integer parsers the programs use
// (Python's int() and C++'s std::stoi), substring tests, Python's
// str.replace, and joining and splitting on a separator.
module Text {
  import opened Wrappers

  predicate IsDigit(c: char) { '0' <= c <= '9' }

  predicate AllDigits(s: string) { forall i :: 0 <= i < |s| ==> IsDigit(s[i]) }

  /** The value of a digit character (0 for any other character). */
  function DigitValue(c: char): (d: nat)
    ensures d < 10
  {
    if IsDigit(c) then c as int - '0' as int else 0
  }

  function DigitChar(d: nat): (c: char)
    requires d < 10
    ensures IsDigit(c) && DigitValue(c) == d
  {
    ('0' as int + d) as char
  }

  /** The value of a string of decimal digits, most significant first. */
  function DigitsValue(s: string): nat
  {
    if s == [] then 0 else DigitsValue(s[..|s| - 1]) * 10 + DigitValue(s[|s| - 1])
  }

  /** Decimal rendering of a natural number, without leading zeros. */
  function NatToString(n: nat): string
    decreases n
  {
    if n < 10 then [DigitChar(n)] else NatToString(n / 10) + [DigitChar(n % 10)]
  }

  /** The rendering is a non-empty run of digits without a leading zero. */
  lemma {:induction false} NatToStringDigits(n: nat)
    ensures var s := NatToString(n);
            0 < |s| && AllDigits(s) && (s[0] != '0' || n == 0)
    decreases n
  {
    if n >= 10 {
      NatToStringDigits(n / 10);
    }
  }

  /** The rendering reads back as n. */
  lemma {:induction false} NatToStringValue(n: nat)
    ensures AllDigits(NatToString(n)) && DigitsValue(NatToString(n)) == n
    decreases n
  {
    NatToStringDigits(n);
    if n >= 10 {
      NatToStringValue(n / 10);
      var s := NatToString(n);
      assert s[..|s| - 1] == NatToString(n / 10);
    }
  }

  /** Decimal rendering of an integer: a '-' for negative values, then the digits. */
  function IntToString(i: int): string
    decreases if i < 0 then 1 else 0
  {
    if i < 0 then "-" + IntToString(-i) else NatToString(i)
  }

  lemma IntToStringNegative(i: int)
    requires i < 0
    ensures IntToString(i) == "-" + NatToString(-i)
  {
    assert IntToString(-i) == NatToString(-i);
  }

  /** The rendering is a '-' exactly for negative values, and otherwise digits only. */
  lemma IntToStringShape(i: int)
    ensures var s := IntToString(i);
            && 0 < |s|
            && (i < 0 <==> s[0] == '-')
            && (forall k :: 0 < k < |s| ==> IsDigit(s[k]))
            && (i < 0 || IsDigit(s[0]))
  {
    NatToStringDigits(if i < 0 then -i else i);
  }

  /** Strict decimal parser: an optional '-' followed by one or more digits. */
  function ParseInt(s: string): Option<int>
  {
    if 0 < |s| && s[0] == '-' then
      if 1 < |s| && AllDigits(s[1..]) then Some(-(DigitsValue(s[1..]) as int)) else None
    else if 0 < |s| && AllDigits(s) then Some(DigitsValue(s))
    else None
  }

  lemma IntToStringRoundTrip(i: int)
    ensures ParseInt(IntToString(i)) == Some(i)
  {
    NatToStringValue(if i < 0 then -i else i);
    if i < 0 {
      assert IntToString(i)[1..] == NatToString(-i);
    }
  }

  /** Rendering is injective: two integers with the same text are equal. */
  lemma IntToStringInjective(i: int, j: int)
    requires IntToString(i) == IntToString(j)
    ensures i == j
  {
    IntToStringRoundTrip(i);
    IntToStringRoundTrip(j);
  }

  // ---------------------------------------------------------------------
  // Python's int() on a str

  /** The ASCII characters Python's str.isspace accepts. */
  predicate IsPySpace(c: char)
  {
    c == ' ' || 9 <= c as int <= 13 || 28 <= c as int <= 31
  }

  /** s without its leading Python white space. */
  function PyTrimStart(s: string): (r: string)
    ensures |r| <= |s|
  {
    if 0 < |s| && IsPySpace(s[0]) then PyTrimStart(s[1..]) else s
  }

  lemma PyTrimStartNoop(s: string)
    requires 0 < |s| && !IsPySpace(s[0])
    ensures PyTrimStart(s) == s
  {
  }

  lemma PyTrimEndNoop(s: string)
    requires 0 < |s| && !IsPySpace(s[|s| - 1])
    ensures PyTrimEnd(s) == s
  {
  }

  /** s without its trailing Python white space. */
  function PyTrimEnd(s: string): (r: string)
    ensures |r| <= |s|
  {
    if 0 < |s| && IsPySpace(s[|s| - 1]) then PyTrimEnd(s[..|s| - 1]) else s
  }

  /** Digits with single underscores between them, as int() accepts. */
  predicate IsPyDigitBody(s: string)
  {
    && 0 < |s| && IsDigit(s[0]) && IsDigit(s[|s| - 1])
    && (forall i :: 0 <= i < |s| ==> IsDigit(s[i]) || s[i] == '_')
    && NoDoubleUnderscore(s)
  }

  predicate NoDoubleUnderscore(s: string)
  {
    |s| < 2 || (!(s[0] == '_' && s[1] == '_') && NoDoubleUnderscore(s[1..]))
  }

  lemma {:induction false} DigitsHaveNoDoubleUnderscore(s: string)
    requires AllDigits(s)
    ensures NoDoubleUnderscore(s)
  {
    if |s| >= 2 {
      DigitsHaveNoDoubleUnderscore(s[1..]);
    }
  }

  function DropUnderscores(s: string): string
  {
    if s == [] then []
    else DropUnderscores(s[..|s| - 1]) + (if s[|s| - 1] == '_' then [] else [s[|s| - 1]])
  }

  /** int(s) for a str s: None where Python raises ValueError. */
  function PyInt(s: string): Option<int>
  {
    var t := PyTrimEnd(PyTrimStart(s));
    if 0 < |t| && (t[0] == '+' || t[0] == '-') then
      if IsPyDigitBody(t[1..]) then
        var v: int := DigitsValue(DropUnderscores(t[1..]));
        Some(if t[0] == '-' then -v else v)
      else None
    else if IsPyDigitBody(t) then Some(DigitsValue(DropUnderscores(t)))
    else None
  }

  lemma {:induction false} DropUnderscoresOfDigits(s: string)
    requires AllDigits(s)
    ensures DropUnderscores(s) == s
  {
    if s != [] {
      DropUnderscoresOfDigits(s[..|s| - 1]);
    }
  }

  lemma DigitsArePyBody(d: string)
    requires 0 < |d| && AllDigits(d)
    ensures IsPyDigitBody(d) && DropUnderscores(d) == d
  {
    DigitsHaveNoDoubleUnderscore(d);
    DropUnderscoresOfDigits(d);
  }

  /** int() of digits. */
  lemma PyIntOfDigits(s: string)
    requires 0 < |s| && AllDigits(s)
    ensures PyInt(s) == Some(DigitsValue(s))
  {
    PyTrimStartNoop(s);
    PyTrimEndNoop(s);
    DigitsArePyBody(s);
  }

  /** int() of '-' followed by digits. */
  lemma PyIntOfNegDigits(s: string, d: string)
    requires 0 < |d| && AllDigits(d)
    requires 0 < |s| && s[0] == '-' && s[1..] == d
    ensures PyInt(s) == Some(-(DigitsValue(d) as int))
  {
    PyTrimStartNoop(s);
    assert s[|s| - 1] == d[|d| - 1];
    PyTrimEndNoop(s);
    DigitsArePyBody(d);
  }

  /** int(str(i)) == i. */
  lemma PyIntOfIntToString(i: int)
    ensures PyInt(IntToString(i)) == Some(i)
  {
    var n: nat := if i < 0 then -i else i;
    var d := NatToString(n);
    assert 0 < |d| && AllDigits(d) && DigitsValue(d) == n by {
      NatToStringDigits(n);
      NatToStringValue(n);
    }
    if i < 0 {
      IntToStringNegative(i);
      PyIntOfNegDigits(IntToString(i), d);
    } else {
      PyIntOfDigits(d);
    }
  }

  // ---------------------------------------------------------------------
  // C++'s std::stoi

  /** The characters isspace accepts in the C locale. */
  predicate IsCSpace(c: char) { c == ' ' || 9 <= c as int <= 13 }

  /** s without its leading C white space. */
  function CTrimStart(s: string): (r: string)
    ensures |r| <= |s|
  {
    if 0 < |s| && IsCSpace(s[0]) then CTrimStart(s[1..]) else s
  }

  /** The longest prefix of s made of decimal digits. */
  function LeadingDigits(s: string): (d: string)
    ensures |d| <= |s|
  {
    if 0 < |s| && IsDigit(s[0]) then [s[0]] + LeadingDigits(s[1..]) else []
  }

  /** LeadingDigits is a prefix of digits that cannot be extended. */
  lemma {:induction false} LeadingDigitsLongest(s: string)
    ensures var d := LeadingDigits(s);
      d == s[..|d|] && AllDigits(d) && (|d| < |s| ==> !IsDigit(s[|d|]))
  {
    if 0 < |s| && IsDigit(s[0]) {
      LeadingDigitsLongest(s[1..]);
    }
  }

  predicate InInt32(v: int) { -0x8000_0000 <= v < 0x8000_0000 }

  /**
   * std::stoi(s): leading white space and a sign are skipped, the longest run
   * of digits is converted and the rest ignored. None where it throws: no
   * digit at all, or a value outside the 32-bit int range.
   */
  function Stoi(s: string): (r: Option<int>)
    ensures r.Some? ==> InInt32(r.value)
  {
    var t := CTrimStart(s);
    var signed := 0 < |t| && (t[0] == '-' || t[0] == '+');
    var d := LeadingDigits(if signed then t[1..] else t);
    if d == [] then None
    else
      var v: int := if signed && t[0] == '-' then -(DigitsValue(d) as int) else DigitsValue(d);
      if InInt32(v) then Some(v) else None
  }

  lemma {:induction false} LeadingDigitsOfDigits(s: string, tail: string)
    requires AllDigits(s)
    requires tail == [] || !IsDigit(tail[0])
    ensures LeadingDigits(s + tail) == s
  {
    if s != [] {
      assert (s + tail)[1..] == s[1..] + tail;
      LeadingDigitsOfDigits(s[1..], tail);
    }
  }

  /** stoi of digits followed by text that does not start with a digit. */
  lemma StoiOfDigits(s: string, d: string, tail: string)
    requires 0 < |d| && AllDigits(d)
    requires tail == [] || !IsDigit(tail[0])
    requires s == d + tail
    ensures Stoi(s) == if InInt32(DigitsValue(d)) then Some(DigitsValue(d) as int) else None
  {
    assert CTrimStart(s) == s;
    LeadingDigitsOfDigits(d, tail);
  }

  /** stoi of '-', digits, and text that does not start with a digit. */
  lemma StoiOfNegDigits(s: string, d: string, tail: string)
    requires 0 < |d| && AllDigits(d)
    requires tail == [] || !IsDigit(tail[0])
    requires 0 < |s| && s[0] == '-' && s[1..] == d + tail
    ensures Stoi(s) == if InInt32(-(DigitsValue(d) as int)) then Some(-(DigitsValue(d) as int)) else None
  {
    LeadingDigitsOfDigits(d, tail);
    StoiOfNegRun(s, d);
  }

  lemma StoiOfNegRun(s: string, d: string)
    requires 0 < |d| && 0 < |s| && s[0] == '-'
    requires LeadingDigits(s[1..]) == d
    ensures Stoi(s) == if InInt32(-(DigitsValue(d) as int)) then Some(-(DigitsValue(d) as int)) else None
  {
    assert CTrimStart(s) == s;
  }

  /** stoi reads back the rendering of any 32-bit int, whatever non-digit text follows it. */
  lemma StoiOfIntToString(i: int, tail: string)
    requires InInt32(i)
    requires tail == [] || !IsDigit(tail[0])
    ensures Stoi(IntToString(i) + tail) == Some(i)
  {
    if i < 0 {
      StoiOfNegIntToString(i, tail);
    } else {
      var d := NatToString(i);
      NatToStringDigits(i);
      NatToStringValue(i);
      StoiOfDigits(IntToString(i) + tail, d, tail);
    }
  }

  lemma StoiOfNegIntToString(i: int, tail: string)
    requires i < 0 && InInt32(i)
    requires tail == [] || !IsDigit(tail[0])
    ensures Stoi(IntToString(i) + tail) == Some(i)
  {
    var d := NatToString(-i);
    var x := IntToString(i);
    assert 0 < |d| && AllDigits(d) && DigitsValue(d) == -i by {
      NatToStringDigits(-i);
      NatToStringValue(-i);
    }
    IntToStringNegative(i);
    assert x[0] == '-' && x[1..] == d;
    StoiOfNegRendering(x, d, tail, i);
  }

  lemma StoiOfNegRendering(x: string, d: string, tail: string, v: int)
    requires 0 < |d| && AllDigits(d) && DigitsValue(d) == -v && InInt32(v)
    requires tail == [] || !IsDigit(tail[0])
    requires 0 < |x| && x[0] == '-' && x[1..] == d
    ensures Stoi(x + tail) == Some(v)
  {
    SignedTail(x, tail);
    StoiOfNegDigits(x + tail, d, tail);
  }

  lemma SignedTail(x: string, tail: string)
    requires 0 < |x|
    ensures (x + tail)[0] == x[0] && (x + tail)[1..] == x[1..] + tail
  {
  }

  // ---------------------------------------------------------------------
  // Substrings and Python's str.replace

  predicate StartsWith(s: string, prefix: string)
  {
    |prefix| <= |s| && s[..|prefix|] == prefix
  }

  /** Python's `part in s` for two strings. */
  predicate Contains(s: string, part: string)
  {
    exists i | 0 <= i <= |s| - |part| :: OccursAt(s, part, i)
  }

  predicate OccursAt(s: string, part: string, i: int)
  {
    0 <= i <= |s| - |part| && s[i..i + |part|] == part
  }

  /**
   * s.replace(pattern, ""): every non-overlapping occurrence of a non-empty
   * pattern, scanning left to right, is removed.
   */
  function RemoveAll(s: string, pattern: string): (r: string)
    requires 0 < |pattern|
    ensures |r| <= |s|
    decreases |s|
  {
    if |s| < |pattern| then s
    else if s[..|pattern|] == pattern then RemoveAll(s[|pattern|..], pattern)
    else [s[0]] + RemoveAll(s[1..], pattern)
  }

  /** A string that does not hold the pattern's first character is left as it is. */
  lemma {:induction false} RemoveAllAbsent(s: string, pattern: string)
    requires 0 < |pattern| && pattern[0] !in s
    ensures RemoveAll(s, pattern) == s
  {
    if |pattern| <= |s| {
      assert s[..|pattern|][0] == s[0];
      RemoveAllAbsent(s[1..], pattern);
      assert [s[0]] + s[1..] == s;
    }
  }

  // ---------------------------------------------------------------------
  // Joining and splitting

  /** Appending is associative; as a lemma, the fact comes without unfolding what the sequences are. */
  lemma AppendAssociates<T>(a: seq<T>, b: seq<T>, c: seq<T>)
    ensures (a + b) + c == a + (b + c)
  {
  }

  /** The parts in order, with the separator between neighbours only. */
  function Join(parts: seq<string>, sep: string): string
  {
    if |parts| == 0 then ""
    else if |parts| == 1 then parts[0]
    else parts[0] + sep + Join(parts[1..], sep)
  }

  /** Appending a part appends a separator and the part. */
  lemma {:induction false} JoinSnoc(parts: seq<string>, x: string, sep: string)
    requires 0 < |parts|
    ensures Join(parts + [x], sep) == Join(parts, sep) + sep + x
  {
    if |parts| > 1 {
      assert (parts + [x])[1..] == parts[1..] + [x];
      JoinSnoc(parts[1..], x, sep);
    }
  }

  function TotalLength(parts: seq<string>): nat
  {
    if parts == [] then 0 else |parts[0]| + TotalLength(parts[1..])
  }

  /** A join is as long as its parts plus one separator per gap. */
  lemma {:induction false} JoinLength(parts: seq<string>, sep: string)
    requires 0 < |parts|
    ensures |Join(parts, sep)| == TotalLength(parts) + (|parts| - 1) * |sep|
  {
    if |parts| > 1 {
      JoinLength(parts[1..], sep);
    }
  }

  /** The index of the first occurrence of c in s. */
  function IndexOf(s: string, c: char): (i: nat)
    requires c in s
    ensures i < |s| && s[i] == c && c !in s[..i]
  {
    if s[0] == c then 0
    else
      var i := 1 + IndexOf(s[1..], c);
      assert s[..i] == [s[0]] + s[1..][..i - 1];
      i
  }

  /** s cut at every occurrence of c; one more piece than there are c's. */
  function Split(s: string, c: char): (parts: seq<string>)
    ensures 0 < |parts|
    ensures forall k :: 0 <= k < |parts| ==> c !in parts[k]
    decreases |s|
  {
    if c in s then
      var i := IndexOf(s, c);
      [s[..i]] + Split(s[i + 1..], c)
    else [s]
  }

  /** There is one more piece than there are occurrences of c. */
  lemma {:induction false} SplitCount(s: string, c: char)
    ensures |Split(s, c)| == multiset(s)[c] + 1
    decreases |s|
  {
    if c in s {
      var i := IndexOf(s, c);
      SplitCount(s[i + 1..], c);
      assert s == s[..i] + [c] + s[i + 1..];
      assert multiset(s) == multiset(s[..i]) + multiset{c} + multiset(s[i + 1..]);
    } else {
      assert multiset(s)[c] == 0;
    }
  }

  /** Joining the pieces with the same character gives the text back. */
  lemma {:induction false} JoinSplit(s: string, c: char)
    ensures Join(Split(s, c), [c]) == s
    decreases |s|
  {
    if c in s {
      var i := IndexOf(s, c);
      JoinSplit(s[i + 1..], c);
      var rest := Split(s[i + 1..], c);
      assert Split(s, c) == [s[..i]] + rest;
      assert (Split(s, c))[1..] == rest;
      assert s == s[..i] + [c] + s[i + 1..];
    }
  }

  /** Splitting a join of pieces free of c gives the pieces back. */
  lemma {:induction false} SplitJoin(parts: seq<string>, c: char)
    requires 0 < |parts|
    requires forall k :: 0 <= k < |parts| ==> c !in parts[k]
    ensures Split(Join(parts, [c]), c) == parts
  {
    if |parts| > 1 {
      var s := Join(parts, [c]);
      var tail := Join(parts[1..], [c]);
      assert s == parts[0] + [c] + tail;
      assert s[..|parts[0]|] == parts[0];
      assert s[|parts[0]|] == c;
      assert IndexOf(s, c) == |parts[0]| by {
        var j := IndexOf(s, c);
        assert forall k :: 0 <= k < |parts[0]| ==> s[k] == parts[0][k];
        assert c !in s[..j];
      }
      assert s[|parts[0]| + 1..] == tail;
      SplitJoin(parts[1..], c);
    } else {
      assert Join(parts, [c]) == parts[0];
    }
  }
}
