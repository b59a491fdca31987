/**
 Whitespace, words, trimming, lines and joins, as Rust's `str` methods define them.  `Words` is
 the yardstick of the text pipeline: every later step is measured by what it does to the words.
 */
module Text {

  /** The Unicode `White_Space` property, which `char::is_whitespace` tests. */
  predicate IsSpace(c: char) {
    var n := c as int;
    || 0x09 <= n <= 0x0D || n == 0x20 || n == 0x85 || n == 0xA0 || n == 0x1680
    || 0x2000 <= n <= 0x200A || n == 0x2028 || n == 0x2029 || n == 0x202F || n == 0x205F || n == 0x3000
  }

  predicate AllSpace(s: string) {
    forall i :: 0 <= i < |s| ==> IsSpace(s[i])
  }

  /** Length of the longest prefix without whitespace. */
  function WordLength(s: string): (n: nat)
    ensures n <= |s|
    ensures forall i :: 0 <= i < n ==> !IsSpace(s[i])
    ensures n < |s| ==> IsSpace(s[n])
  {
    if s == [] || IsSpace(s[0]) then 0 else 1 + WordLength(s[1..])
  }

  /** `split_whitespace`. */
  function Words(s: string): seq<string>
    decreases |s|
  {
    if s == [] then []
    else if IsSpace(s[0]) then Words(s[1..])
    else
      var n := WordLength(s);
      [s[..n]] + Words(s[n..])
  }

  function AllWords(parts: seq<string>): seq<string> {
    if parts == [] then [] else Words(parts[0]) + AllWords(parts[1..])
  }

  predicate Separated(a: string, b: string) {
    a == [] || b == [] || IsSpace(a[|a| - 1]) || IsSpace(b[0])
  }

  lemma {:induction false} WordLengthConcat(a: string, b: string)
    requires a != [] && Separated(a, b)
    ensures WordLength(a + b) == WordLength(a)
  {
    var n := WordLength(a);
    assert forall i :: 0 <= i < n ==> !IsSpace((a + b)[i]);
    assert n == |a| ==> !IsSpace(a[|a| - 1]);
    assert n < |a + b| ==> (a + b)[n] == if n < |a| then a[n] else b[0];
  }

  /** Words never straddle a point next to which there is whitespace. */
  lemma {:induction false} WordsConcat(a: string, b: string)
    requires Separated(a, b)
    ensures Words(a + b) == Words(a) + Words(b)
    decreases |a|
  {
    if a == [] {
      assert a + b == b;
    } else {
      assert (a + b)[0] == a[0];
      if IsSpace(a[0]) {
        assert (a + b)[1..] == a[1..] + b;
        WordsConcat(a[1..], b);
      } else {
        var n := WordLength(a);
        WordLengthConcat(a, b);
        assert (a + b)[..n] == a[..n] && (a + b)[n..] == a[n..] + b;
        WordsConcat(a[n..], b);
      }
    }
  }

  lemma {:induction false} AllWordsConcat(a: seq<string>, b: seq<string>)
    ensures AllWords(a + b) == AllWords(a) + AllWords(b)
  {
    if a == [] {
      assert a + b == b;
    } else {
      assert (a + b)[0] == a[0] && (a + b)[1..] == a[1..] + b;
      AllWordsConcat(a[1..], b);
    }
  }

  lemma {:induction false} NoWordsIffAllSpace(s: string)
    ensures Words(s) == [] <==> AllSpace(s)
  {
    if s != [] && IsSpace(s[0]) {
      NoWordsIffAllSpace(s[1..]);
      assert s == [s[0]] + s[1..];
    }
  }

  // Trimming

  function TrimStart(s: string): (r: string)
    ensures |r| <= |s|
    ensures r != [] ==> !IsSpace(r[0])
  {
    if s != [] && IsSpace(s[0]) then TrimStart(s[1..]) else s
  }

  function TrimEnd(s: string): (r: string)
    ensures r <= s
    ensures r != [] ==> !IsSpace(r[|r| - 1])
  {
    if s != [] && IsSpace(s[|s| - 1]) then TrimEnd(s[..|s| - 1]) else s
  }

  function Trim(s: string): string {
    TrimEnd(TrimStart(s))
  }

  lemma {:induction false} TrimStartWords(s: string)
    ensures Words(TrimStart(s)) == Words(s)
  {
    if s != [] && IsSpace(s[0]) {
      TrimStartWords(s[1..]);
    }
  }

  lemma {:induction false} TrimEndWords(s: string)
    ensures Words(TrimEnd(s)) == Words(s)
  {
    if s != [] && IsSpace(s[|s| - 1]) {
      var init, last := s[..|s| - 1], s[|s| - 1..];
      TrimEndWords(init);
      assert s == init + last;
      WordsConcat(init, last);
      NoWordsIffAllSpace(last);
    }
  }

  /** Trimming keeps the words, and leaves nothing exactly when there were none. */
  lemma {:induction false} TrimWords(s: string)
    ensures Words(Trim(s)) == Words(s)
    ensures Trim(s) == [] <==> Words(s) == []
  {
    TrimStartWords(s);
    TrimEndWords(TrimStart(s));
    var t := Trim(s);
    NoWordsIffAllSpace(t);
    if t != [] {
      assert !IsSpace(t[|t| - 1]);
    }
  }

  // Splitting and joining

  /** Index of the first `c`, or the length when there is none. */
  function IndexOf(s: string, c: char): (n: nat)
    ensures n <= |s|
    ensures forall i :: 0 <= i < n ==> s[i] != c
    ensures n < |s| ==> s[n] == c
  {
    if s == [] || s[0] == c then 0 else 1 + IndexOf(s[1..], c)
  }

  /** `split(c)`: one more piece than there are separators. */
  function Split(s: string, c: char): (r: seq<string>)
    ensures |r| > 0
    decreases |s|
  {
    var n := IndexOf(s, c);
    if n == |s| then [s] else [s[..n]] + Split(s[n + 1..], c)
  }

  function Join(parts: seq<string>, separator: string): string {
    if parts == [] then ""
    else if |parts| == 1 then parts[0]
    else parts[0] + separator + Join(parts[1..], separator)
  }

  lemma {:induction false} SplitWords(s: string, c: char)
    requires IsSpace(c)
    ensures AllWords(Split(s, c)) == Words(s)
    decreases |s|
  {
    var n := IndexOf(s, c);
    if n < |s| {
      var rest := s[n + 1..];
      SplitWords(rest, c);
      assert s == s[..n] + ([c] + rest);
      WordsConcat(s[..n], [c] + rest);
      assert ([c] + rest)[1..] == rest;
      var pieces := Split(rest, c);
      assert ([s[..n]] + pieces)[0] == s[..n] && ([s[..n]] + pieces)[1..] == pieces;
    } else {
      assert Split(s, c) == [s];
      assert AllWords([s]) == Words(s) + AllWords([]);
    }
  }

  lemma {:induction false} JoinWords(parts: seq<string>, separator: string)
    requires separator != "" && AllSpace(separator)
    ensures Words(Join(parts, separator)) == AllWords(parts)
  {
    if |parts| == 1 {
      assert AllWords(parts) == Words(parts[0]) + AllWords([]);
    } else if |parts| > 1 {
      var rest := Join(parts[1..], separator);
      JoinWords(parts[1..], separator);
      NoWordsIffAllSpace(separator);
      WordsConcat(parts[0] + separator, rest);
      WordsConcat(parts[0], separator);
    }
  }

  // Lines

  function StripCarriageReturn(s: string): string {
    if s != [] && s[|s| - 1] == '\r' then s[..|s| - 1] else s
  }

  /** `lines`: ends at `\n` or `\r\n`; a last line without `\n` keeps its `\r`; no empty last line. */
  function Lines(s: string): seq<string>
    decreases |s|
  {
    if s == [] then []
    else
      var n := IndexOf(s, '\n');
      if n == |s| then [s] else [StripCarriageReturn(s[..n])] + Lines(s[n + 1..])
  }

  lemma {:induction false} StripWords(s: string)
    ensures Words(StripCarriageReturn(s)) == Words(s)
  {
    if s != [] && s[|s| - 1] == '\r' {
      var init, last := s[..|s| - 1], s[|s| - 1..];
      assert s == init + last;
      WordsConcat(init, last);
      NoWordsIffAllSpace(last);
    }
  }

  lemma {:induction false} LinesWords(s: string)
    ensures AllWords(Lines(s)) == Words(s)
    decreases |s|
  {
    if s != [] {
      var n := IndexOf(s, '\n');
      if n < |s| {
        var rest := s[n + 1..];
        LinesWords(rest);
        StripWords(s[..n]);
        assert s == s[..n] + (['\n'] + rest);
        WordsConcat(s[..n], ['\n'] + rest);
        assert (['\n'] + rest)[1..] == rest;
        var line, later := StripCarriageReturn(s[..n]), Lines(rest);
        assert ([line] + later)[0] == line && ([line] + later)[1..] == later;
      } else {
        assert AllWords([s]) == Words(s) + AllWords([]);
      }
    }
  }
}
