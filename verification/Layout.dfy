/**
 Where things stand in a text: what trimming, splitting, joining and word splitting do, said by
 positions and characters.  These are the terms in which the text pipeline's results are stated.
 */
module Layout {
  import opened Text

  // White space

  /** The 25 code points of the Unicode property. */
  const SPACES: set<int> := {
    0x09, 0x0A, 0x0B, 0x0C, 0x0D, 0x20, 0x85, 0xA0, 0x1680, 0x2000, 0x2001, 0x2002, 0x2003, 0x2004, 0x2005,
    0x2006, 0x2007, 0x2008, 0x2009, 0x200A, 0x2028, 0x2029, 0x202F, 0x205F, 0x3000
  }

  lemma {:induction false} SpacesListed(c: char)
    ensures IsSpace(c) <==> c as int in SPACES
  {
  }

  // Trimming

  /** `t` is `s` without its trailing whitespace. */
  ghost predicate IsRightTrimOf(t: string, s: string) {
    && t <= s && AllSpace(s[|t|..])
    && (t != "" ==> !IsSpace(t[|t| - 1]))
  }

  /** `t` is `s` without its leading and trailing whitespace. */
  ghost predicate IsTrimOf(t: string, s: string) {
    exists i :: 0 <= i <= |s| && AllSpace(s[..i]) && IsRightTrimOf(t, s[i..]) && (t != "" ==> !IsSpace(t[0]))
  }

  lemma {:induction false} TrimEndIs(s: string)
    ensures IsRightTrimOf(TrimEnd(s), s)
    decreases |s|
  {
    if s != "" && IsSpace(s[|s| - 1]) {
      var init, n := s[..|s| - 1], |TrimEnd(s)|;
      TrimEndIs(init);
      assert s[n..] == init[n..] + [s[|s| - 1]];
    }
  }

  lemma {:induction false} TrimStartIs(s: string) returns (i: nat)
    ensures i <= |s| && TrimStart(s) == s[i..] && AllSpace(s[..i])
  {
    i := 0;
    if s != "" && IsSpace(s[0]) {
      var k := TrimStartIs(s[1..]);
      i := k + 1;
      assert s[..i] == [s[0]] + s[1..][..k];
    }
  }

  lemma {:induction false} TrimIs(s: string)
    ensures IsTrimOf(Trim(s), s)
  {
    var i := TrimStartIs(s);
    TrimEndIs(s[i..]);
    assert Trim(s) == TrimEnd(s[i..]);
    assert Trim(s) != "" ==> s[i..] != "" && Trim(s)[0] == s[i..][0];
  }

  lemma {:induction false} StartsAfterSpace(text: string, i: nat)
    requires i < |text| && AllSpace(text[..i]) && !IsSpace(text[i])
    ensures TrimStart(text) == text[i..]
  {
    if i > 0 {
      assert text[0] == text[..i][0];
      assert text[1..][..i - 1] == text[..i][1..];
      StartsAfterSpace(text[1..], i - 1);
    }
  }

  lemma {:induction false} EndsBeforeSpace(text: string, j: nat)
    requires j < |text| && AllSpace(text[j + 1..]) && !IsSpace(text[j])
    ensures TrimEnd(text) == text[..j + 1]
    decreases |text|
  {
    if j + 1 < |text| {
      var init := text[..|text| - 1];
      assert text[|text| - 1] == text[j + 1..][|text| - j - 2];
      assert init[j + 1..] == text[j + 1..][..|text| - j - 2];
      EndsBeforeSpace(init, j);
    }
  }

  // Joining and splitting

  /** The text is the parts one after another, with a separator between each two. */
  ghost predicate IsJoined(text: string, parts: seq<string>, separator: string) {
    if |parts| <= 1 then text == if parts == [] then "" else parts[0]
    else
      && parts[0] + separator <= text
      && IsJoined(text[|parts[0]| + |separator|..], parts[1..], separator)
  }

  lemma {:induction false} JoinIs(parts: seq<string>, separator: string)
    ensures IsJoined(Join(parts, separator), parts, separator)
  {
    if |parts| > 1 {
      var rest := Join(parts[1..], separator);
      JoinIs(parts[1..], separator);
      assert (parts[0] + separator + rest)[|parts[0]| + |separator|..] == rest;
    }
  }

  lemma {:induction false} SplitJoins(s: string, c: char)
    ensures Join(Split(s, c), [c]) == s
    ensures forall i :: 0 <= i < |Split(s, c)| ==> c !in Split(s, c)[i]
    decreases |s|
  {
    var n := IndexOf(s, c);
    if n == |s| {
      assert Split(s, c) == [s];
    } else {
      var rest := s[n + 1..];
      SplitJoins(rest, c);
      assert Split(s, c)[1..] == Split(rest, c);
      assert s == s[..n] + [c] + rest;
    }
  }

  /** The pieces of a split hold no separator and, with separators between them, are the text. */
  lemma {:induction false} SplitIs(s: string, c: char)
    ensures IsJoined(s, Split(s, c), [c])
    ensures forall i :: 0 <= i < |Split(s, c)| ==> c !in Split(s, c)[i]
  {
    SplitJoins(s, c);
    JoinIs(Split(s, c), [c]);
  }

  lemma {:induction false} SplitFirst(first: string, c: char, rest: string)
    requires c !in first
    ensures Split(first + [c] + rest, c) == [first] + Split(rest, c)
  {
    var text, n := first + [c] + rest, |first|;
    var k := IndexOf(text, c);
    assert text[n] == c && forall i :: 0 <= i < n ==> text[i] == first[i];
    assert k == n;
    assert text[..n] == first && text[n + 1..] == rest;
  }

  /** Splitting takes a joined text apart again. */
  lemma {:induction false} SplitOfJoin(parts: seq<string>, c: char)
    requires parts != [] && forall i :: 0 <= i < |parts| ==> c !in parts[i]
    ensures Split(Join(parts, [c]), c) == parts
  {
    if |parts| == 1 {
      assert parts == [parts[0]] && IndexOf(parts[0], c) == |parts[0]|;
    } else {
      SplitOfJoin(parts[1..], c);
      SplitFirst(parts[0], c, Join(parts[1..], [c]));
      assert parts == [parts[0]] + parts[1..];
    }
  }

  // Words

  /** With `WordsConcat` and `NoWordsIffAllSpace` this says what the words of any text are. */
  lemma {:induction false} WordIsItself(s: string)
    requires s != "" && forall i :: 0 <= i < |s| ==> !IsSpace(s[i])
    ensures Words(s) == [s]
  {
    assert WordLength(s) == |s| && s[..|s|] == s && s[|s|..] == "";
  }
}
