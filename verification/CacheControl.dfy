/** What the text of a `Cache-Control` header forbids, by its characters (src/ingest/download_persist.rs). */
module CacheControl {
  import opened Ascii
  import opened Downloads
  import opened Layout
  import opened Text

  /** `s` is the lower-case word in some letter case. */
  predicate SameLetters(s: string, word: string) {
    && |s| == |word|
    && forall k :: 0 <= k < |s| ==> s[k] == word[k] || ('a' <= word[k] <= 'z' && s[k] as int + 32 == word[k] as int)
  }

  /** The word stands in the text, in some letter case, with only whitespace around it. */
  predicate WordAt(s: string, word: string, a: nat) {
    && a + |word| <= |s| && SameLetters(s[a..a + |word|], word)
    && AllSpace(s[..a]) && AllSpace(s[a + |word|..])
  }

  ghost predicate IsWord(s: string, word: string) {
    exists a: nat :: WordAt(s, word, a)
  }

  /** Among the comma-separated directives of the header is this one. */
  ghost predicate HasDirective(header: string, word: string) {
    exists piece :: piece in Split(header, ',') && IsWord(piece, word)
  }

  lemma {:induction false} LowerSlice(s: string, i: nat, j: nat)
    requires i <= j <= |s|
    ensures Lower(s)[i..j] == Lower(s[i..j])
    ensures AllSpace(Lower(s)[i..j]) <==> AllSpace(s[i..j])
  {
    forall k | 0 <= k < j - i ensures Lower(s)[i..j][k] == Lower(s[i..j])[k] == LowerChar(s[i..j][k]) {
      LowerAt(s, i + k);
      LowerAt(s[i..j], k);
    }
  }

  lemma {:induction false} LowerConcat(a: string, b: string)
    ensures Lower(a + b) == Lower(a) + Lower(b)
  {
    if a == "" {
      assert a + b == b;
    } else {
      LowerConcat(a[1..], b);
      assert (a + b)[1..] == a[1..] + b;
    }
  }

  lemma {:induction false} LowerParts(first: string, rest: string)
    ensures Lower(first + "," + rest) == Lower(first) + "," + Lower(rest)
  {
    LowerConcat(first + ",", rest);
    LowerConcat(first, ",");
    assert Lower(",") == ",";
  }

  lemma {:induction false} LowerWithoutComma(s: string)
    requires ',' !in s
    ensures ',' !in Lower(s)
  {
    if s != "" {
      LowerWithoutComma(s[1..]);
    }
  }

  function LowerAll(pieces: seq<string>): (r: seq<string>)
    ensures |r| == |pieces| && forall i :: 0 <= i < |r| ==> r[i] == Lower(pieces[i])
  {
    seq(|pieces|, i requires 0 <= i < |pieces| => Lower(pieces[i]))
  }

  lemma {:induction false} LowerAllFirst(first: string, rest: seq<string>)
    ensures LowerAll([first] + rest) == [Lower(first)] + LowerAll(rest)
  {
  }

  /** Case folding leaves the commas where they are. */
  lemma {:induction false} LowerPieces(s: string)
    ensures Split(Lower(s), ',') == LowerAll(Split(s, ','))
    decreases |s|
  {
    var n := IndexOf(s, ',');
    if n == |s| {
      LowerWithoutComma(s);
      assert Split(s, ',') == [s] && IndexOf(Lower(s), ',') == |s|;
    } else {
      LowerPieces(s[n + 1..]);
      assert s == s[..n] + "," + s[n + 1..];
      LowerFirstPiece(s[..n], s[n + 1..]);
    }
  }

  lemma {:induction false} LowerFirstPiece(first: string, rest: string)
    requires ',' !in first && Split(Lower(rest), ',') == LowerAll(Split(rest, ','))
    ensures Split(Lower(first + "," + rest), ',') == LowerAll(Split(first + "," + rest, ','))
  {
    LowerWithoutComma(first);
    LowerParts(first, rest);
    SplitFirst(first, ',', rest);
    SplitFirst(Lower(first), ',', Lower(rest));
    LowerAllFirst(first, Split(rest, ','));
  }

  /** A directive as the code compares with: lower-case, not empty, no whitespace at its ends. */
  predicate Plain(word: string) {
    && word != "" && !IsSpace(word[0]) && !IsSpace(word[|word| - 1])
    && forall k :: 0 <= k < |word| ==> !('A' <= word[k] <= 'Z')
  }

  lemma {:induction false} SameLettersIff(s: string, word: string)
    requires Plain(word)
    ensures SameLetters(s, word) <==> Lower(s) == word
  {
    forall k | 0 <= k < |s| ensures Lower(s)[k] == LowerChar(s[k]) {
      LowerAt(s, k);
    }
  }

  lemma {:induction false} TrimIsWord(s: string, word: string)
    requires Plain(word)
    ensures Trim(Lower(s)) == word <==> IsWord(s, word)
  {
    var lower := Lower(s);
    if Trim(lower) == word {
      TrimIs(lower);
      var i :| 0 <= i <= |lower| && AllSpace(lower[..i]) && IsRightTrimOf(word, lower[i..]);
      StandsLower(s, word, i);
    } else if IsWord(s, word) {
      var a: nat :| WordAt(s, word, a);
      TrimOfWord(s, word, a);
    }
  }

  /** Before, in and behind the slice, what case folding leaves alone. */
  lemma {:induction false} LowerAround(s: string, word: string, a: nat)
    requires Plain(word) && a + |word| <= |s|
    ensures
      var lower, b := Lower(s), a + |word|;
      && (AllSpace(lower[..a]) <==> AllSpace(s[..a]))
      && (lower[a..b] == word <==> SameLetters(s[a..b], word))
      && (AllSpace(lower[b..]) <==> AllSpace(s[b..]))
  {
    var lower, b := Lower(s), a + |word|;
    LowerSlice(s, 0, a);
    LowerSlice(s, a, b);
    LowerSlice(s, b, |s|);
    SameLettersIff(s[a..b], word);
    assert s[..a] == s[0..a] && lower[..a] == lower[0..a];
    assert s[b..] == s[b..|s|] && lower[b..] == lower[b..|s|];
  }

  lemma {:induction false} StandsLower(s: string, word: string, a: nat)
    requires Plain(word) && a <= |s| && AllSpace(Lower(s)[..a]) && IsRightTrimOf(word, Lower(s)[a..])
    ensures WordAt(s, word, a)
  {
    var lower, b := Lower(s), a + |word|;
    assert lower[a..][..|word|] == lower[a..b] && lower[a..][|word|..] == lower[b..];
    LowerAround(s, word, a);
  }

  lemma {:induction false} TrimOfWord(s: string, word: string, a: nat)
    requires Plain(word) && WordAt(s, word, a)
    ensures Trim(Lower(s)) == word
  {
    LowerAround(s, word, a);
    TrimAround(Lower(s), word, a);
  }

  lemma {:induction false} TrimAround(s: string, word: string, a: nat)
    requires Plain(word) && a + |word| <= |s| && s[a..a + |word|] == word
    requires AllSpace(s[..a]) && AllSpace(s[a + |word|..])
    ensures Trim(s) == word
  {
    var rest, last := s[a..], |word| - 1;
    assert s[a] == word[0] && rest[last] == word[last];
    assert rest[last + 1..] == s[a + |word|..];
    StartsAfterSpace(s, a);
    EndsBeforeSpace(rest, last);
  }

  predicate AnyIs(pieces: seq<string>, word: string) {
    exists i :: 0 <= i < |pieces| && Trim(pieces[i]) == word
  }

  lemma {:induction false} DirectiveIff(header: string, word: string)
    requires Plain(word)
    ensures HasDirective(header, word) <==> AnyIs(Split(Lower(header), ','), word)
  {
    var pieces, lower := Split(header, ','), Split(Lower(header), ',');
    LowerPieces(header);
    forall i | 0 <= i < |pieces| ensures Trim(lower[i]) == word <==> IsWord(pieces[i], word) {
      TrimIsWord(pieces[i], word);
    }
  }

  lemma {:induction false} PlainWords()
    ensures Plain("no-store") && Plain("private")
  {
  }

  /** A header forbids storing exactly when one of its directives is `no-store` or `private`. */
  lemma {:induction false} ForbidsIff(header: string)
    ensures HeaderForbids(header) <==> HasDirective(header, "no-store") || HasDirective(header, "private")
  {
    PlainWords();
    DirectiveIff(header, "no-store");
    DirectiveIff(header, "private");
    AnyForbidsIff(Split(Lower(header), ','));
  }

  lemma {:induction false} AnyForbidsIff(pieces: seq<string>)
    ensures AnyForbids(pieces) <==> AnyIs(pieces, "no-store") || AnyIs(pieces, "private")
  {
  }

  lemma {:induction false} NothingForbids()
    ensures !HeaderForbids("")
  {
    assert Split(Lower(""), ',') == [""] && Trim("") == "";
  }
}
