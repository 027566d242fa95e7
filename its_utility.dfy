// ItsUtility: cleaning one line of a configuration text. The std::string the
// C++ functions edit through a reference becomes a value passed in and
// returned; the remove_if/erase pairs work in place on a character buffer, as
// the library does on the string's storage, and the erase keeps the kept
// prefix.
module ItsText {
  import opened Text

  /** iscntrl in the C locale: the codes 0 to 31 and 127. */
  predicate IsCntrl(c: char) { c as int < 32 || c as int == 127 }

  /** What removeWhiteSpaces drops: white space or a control character. */
  predicate Invisible(c: char) { IsCSpace(c) || IsCntrl(c) }

  /** The text before its first '#': the longest prefix without a '#'. */
  function BeforeComment(s: string): (r: string)
    ensures '#' !in r
    ensures r <= s
    ensures |r| < |s| ==> s[|r|] == '#'
  {
    if |s| == 0 || s[0] == '#' then "" else [s[0]] + BeforeComment(s[1..])
  }

  /** The characters of s that `drop` does not select, in their order. */
  function Without(s: string, drop: char -> bool): string
  {
    if |s| == 0 then ""
    else Without(s[..|s| - 1], drop) + (if drop(s[|s| - 1]) then "" else [s[|s| - 1]])
  }

  /** What removeWhiteSpaces leaves: the visible characters before the first '#'. */
  function Cleaned(s: string): string
  {
    Without(BeforeComment(s), Invisible)
  }

  // ---------------------------------------------------------------------
  // Filtering

  /** No character the filter drops is left. */
  lemma {:induction false} WithoutExcludes(s: string, drop: char -> bool)
    ensures forall c :: c in Without(s, drop) ==> !drop(c)
  {
    if |s| > 0 {
      WithoutExcludes(s[..|s| - 1], drop);
    }
  }

  /** Every character the filter keeps is left. */
  lemma {:induction false} WithoutKeeps(s: string, drop: char -> bool)
    ensures forall c :: c in s && !drop(c) ==> c in Without(s, drop)
  {
    if |s| > 0 {
      WithoutKeeps(s[..|s| - 1], drop);
      assert s == s[..|s| - 1] + [s[|s| - 1]];
    }
  }

  /** A string holding nothing the filter drops is left as it is. */
  lemma {:induction false} WithoutNothingToDrop(s: string, drop: char -> bool)
    requires forall c :: c in s ==> !drop(c)
    ensures Without(s, drop) == s
  {
    if |s| > 0 {
      WithoutNothingToDrop(s[..|s| - 1], drop);
    }
  }

  /** Filtering a concatenation filters each part. */
  lemma {:induction false} WithoutAppend(a: string, b: string, drop: char -> bool)
    ensures Without(a + b, drop) == Without(a, drop) + Without(b, drop)
  {
    if |b| > 0 {
      assert (a + b)[..|a + b| - 1] == a + b[..|b| - 1];
      WithoutAppend(a, b[..|b| - 1], drop);
    } else {
      assert a + b == a;
    }
  }

  /** Two filters one after the other drop what either drops. */
  lemma {:induction false} WithoutTwice(s: string, p: char -> bool, q: char -> bool, either: char -> bool)
    requires forall c :: either(c) == (p(c) || q(c))
    ensures Without(Without(s, p), q) == Without(s, either)
  {
    if |s| > 0 {
      var init, last := s[..|s| - 1], s[|s| - 1];
      WithoutTwice(init, p, q, either);
      var tail := if p(last) then "" else [last];
      WithoutAppend(Without(init, p), tail, q);
      if !p(last) {
        assert Without(tail, q) == Without([], q) + (if q(last) then "" else [last]);
      }
    }
  }

  // ---------------------------------------------------------------------
  // The operations

  /** The prefix before the first '#' is where text.find("#") points. */
  lemma {:induction false} BeforeCommentAtFind(s: string)
    ensures '#' in s ==> BeforeComment(s) == s[..IndexOf(s, '#')]
    ensures '#' !in s ==> BeforeComment(s) == s
  {
    if |s| > 0 && s[0] != '#' {
      BeforeCommentAtFind(s[1..]);
      if '#' in s {
        assert s[..IndexOf(s, '#')] == [s[0]] + s[1..][..IndexOf(s[1..], '#')];
      } else {
        assert s == [s[0]] + s[1..];
      }
    }
  }

  /** Filtering one more character of a prefix adds that character or nothing. */
  lemma WithoutPrefixStep(s: string, i: nat, drop: char -> bool)
    requires i < |s|
    ensures Without(s[..i + 1], drop) == Without(s[..i], drop) + (if drop(s[i]) then "" else [s[i]])
  {
    assert s[..i + 1][..i] == s[..i];
  }

  /** removeComments: the text is cut at its first '#', if it has one. */
  method RemoveComments(text: string) returns (r: string)
    ensures r == BeforeComment(text)
  {
    r := text;
    if '#' in text {
      var index := IndexOf(text, '#');
      r := text[..index];
    }
    BeforeCommentAtFind(text);
  }

  /**
   * std::remove_if on the first n characters of the buffer: the kept
   * characters move to the front in their order, and the returned end
   * marks how many there are. What lies beyond n is not touched.
   */
  method RemoveIf(buf: array<char>, n: nat, drop: char -> bool) returns (end: nat)
    requires n <= buf.Length
    modifies buf
    ensures end <= n
    ensures buf[..end] == Without(old(buf[..n]), drop)
    ensures buf[n..] == old(buf[n..])
  {
    ghost var s := buf[..n];
    end := 0;
    for i := 0 to n
      invariant end <= i
      invariant buf[..end] == Without(s[..i], drop)
      invariant forall j :: i <= j < buf.Length ==> buf[j] == old(buf[j])
    {
      WithoutPrefixStep(s, i, drop);
      if !drop(buf[i]) {
        ghost var kept := buf[..end];
        buf[end] := buf[i];
        assert buf[..end + 1] == kept + [s[i]];
        end := end + 1;
      }
    }
    assert s[..n] == s;
    assert buf[n..] == old(buf[n..]) by {
      forall j | 0 <= j < buf.Length - n
        ensures buf[n..][j] == old(buf[n..])[j]
      {
        assert buf[n + j] == old(buf[n + j]);
      }
    }
  }

  /**
   * removeWhiteSpaces: the comment is removed, then the white space, then the
   * control characters, each by a remove_if and an erase on the string.
   */
  method RemoveWhiteSpaces(text: string) returns (r: string)
    ensures r == Cleaned(text)
  {
    r := RemoveComments(text);
    ghost var uncommented := r;
    var buf := new char[|r|](i requires 0 <= i < |r| => r[i]);
    assert buf[..|r|] == uncommented;
    var end := RemoveIf(buf, |r|, IsCSpace);
    end := RemoveIf(buf, end, IsCntrl);
    r := buf[..end];
    WithoutTwice(uncommented, IsCSpace, IsCntrl, Invisible);
  }

  // ---------------------------------------------------------------------
  // What the operations promise

  /** Cutting at the comment twice is cutting once; a text without '#' is left as it is. */
  lemma BeforeCommentIdempotent(s: string)
    ensures BeforeComment(BeforeComment(s)) == BeforeComment(s)
    ensures '#' !in s ==> BeforeComment(s) == s
  {
    BeforeCommentAtFind(BeforeComment(s));
    BeforeCommentAtFind(s);
  }

  /** The cleaned text holds no '#', no white space and no control character. */
  lemma CleanedIsClean(s: string)
    ensures forall c :: c in Cleaned(s) ==> c != '#' && !IsCSpace(c) && !IsCntrl(c)
  {
    WithoutExcludes(BeforeComment(s), Invisible);
    forall c | c in Cleaned(s)
      ensures c in BeforeComment(s)
    {
      WithoutIsSubset(BeforeComment(s), Invisible, c);
    }
  }

  /** Every character the filter leaves was in the text. */
  lemma {:induction false} WithoutIsSubset(s: string, drop: char -> bool, c: char)
    requires c in Without(s, drop)
    ensures c in s
  {
    if |s| > 0 {
      var init := s[..|s| - 1];
      if c in Without(init, drop) {
        WithoutIsSubset(init, drop, c);
        assert init <= s;
      }
    }
  }

  /** Every visible character before the first '#' survives the cleaning. */
  lemma CleanedKeepsVisible(s: string, i: nat)
    requires i < |s| && '#' !in s[..i + 1] && !Invisible(s[i])
    ensures s[i] in Cleaned(s)
  {
    var b := BeforeComment(s);
    assert b[i] == s[i];
    WithoutKeeps(b, Invisible);
  }

  /** Cleaning a cleaned text changes nothing. */
  lemma CleanedIdempotent(s: string)
    ensures Cleaned(Cleaned(s)) == Cleaned(s)
  {
    var c := Cleaned(s);
    CleanedIsClean(s);
    BeforeCommentIdempotent(c);
    WithoutNothingToDrop(c, Invisible);
  }
}
