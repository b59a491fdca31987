/** Cache keys of downloads (src/ingest/download.rs), and which requests share one. */
module CacheKeys {
  import opened BlobStore
  import opened Utf8

  const PREFIX: string := "asset-download:v1\0"
  const SEPARATOR: string := "\0GET\0"

  /** The bytes fed to the digest, one `update` after the other. */
  function KeyPreimage(source: string, url: string): seq<byte> {
    Encode(PREFIX) + Encode(source) + Encode(SEPARATOR) + Encode(url)
  }

  function CacheKey(digest: Digest, source: string, url: string): string {
    "asset:sha256:" + digest(KeyPreimage(source, url))
  }

  function KeyText(source: string, url: string): string {
    source + SEPARATOR + url
  }

  lemma {:induction false} PreimagesByText(source: string, url: string, source': string, url': string)
    ensures KeyPreimage(source, url) == KeyPreimage(source', url') <==> KeyText(source, url) == KeyText(source', url')
  {
    PreimageIsText(source, url);
    PreimageIsText(source', url');
    if KeyPreimage(source, url) == KeyPreimage(source', url') {
      EncodeInjective(PREFIX + KeyText(source, url), PREFIX + KeyText(source', url'));
      assert KeyText(source, url) == (PREFIX + KeyText(source, url))[|PREFIX|..];
      assert KeyText(source', url') == (PREFIX + KeyText(source', url'))[|PREFIX|..];
    }
  }

  lemma {:induction false} PreimageIsText(source: string, url: string)
    ensures KeyPreimage(source, url) == Encode(PREFIX + KeyText(source, url))
  {
    EncodeParts(PREFIX, source, SEPARATOR, url);
  }

  lemma {:induction false} EncodeParts(a: string, b: string, c: string, d: string)
    ensures Encode(a) + Encode(b) + Encode(c) + Encode(d) == Encode(a + (b + c + d))
  {
    EncodeConcat(b, c);
    EncodeConcat(b + c, d);
    EncodeConcat(a, b + c + d);
    Reassociate(Encode(a), Encode(b), Encode(c), Encode(d));
  }

  lemma {:induction false} Reassociate<T>(a: seq<T>, b: seq<T>, c: seq<T>, d: seq<T>)
    ensures a + b + c + d == a + (b + c + d)
  {
  }

  // Which requests share a key text

  /** `source'` is `source`, a separator, and the part of `url` before its own separator. */
  predicate Swallows(source: string, url: string, source': string, url': string) {
    && |source'| >= |source| + |SEPARATOR|
    && var taken := source'[|source| + |SEPARATOR|..];
       source' == source + SEPARATOR + taken && url == taken + SEPARATOR + url'
  }

  /** The separator ends as it begins, so two of them can share a character. */
  predicate Overlaps(source: string, url: string, source': string, url': string) {
    source' == source + "\0GET" && url == "GET\0" + url'
  }

  predicate TakesOver(source: string, url: string, source': string, url': string) {
    Swallows(source, url, source', url') || Overlaps(source, url, source', url')
  }

  lemma {:induction false} TakingOverShares(source: string, url: string, source': string, url': string)
    requires TakesOver(source, url, source', url')
    ensures KeyText(source, url) == KeyText(source', url')
  {
    if Overlaps(source, url, source', url') {
      assert SEPARATOR + "GET\0" == "\0GET" + SEPARATOR;
      assert KeyText(source, url) == source + (SEPARATOR + "GET\0") + url';
      assert KeyText(source', url') == source + ("\0GET" + SEPARATOR) + url';
    }
  }

  lemma {:induction false} SharingOverlaps(source: string, url: string, source': string, url': string)
    requires KeyText(source, url) == KeyText(source', url')
    requires |source| < |source'| < |source| + |SEPARATOR|
    ensures Overlaps(source, url, source', url')
  {
    var text, d := KeyText(source, url), |source'| - |source|;
    assert text[|source| + d] == SEPARATOR[d] && text[|source'|] == SEPARATOR[0];
    assert d == 4;
    assert source' == text[..|source'|] == source + "\0GET";
    assert url == text[|source| + 5..] == "GET\0" + url';
  }

  lemma {:induction false} SharingSwallows(source: string, url: string, source': string, url': string)
    requires KeyText(source, url) == KeyText(source', url') && |source| + |SEPARATOR| <= |source'|
    ensures Swallows(source, url, source', url')
  {
    var text, n := KeyText(source, url), |source| + |SEPARATOR|;
    var taken := source'[n..];
    assert source' == text[..|source'|] && url == text[n..];
    assert source' == source + SEPARATOR + taken;
    assert text[n..] == taken + SEPARATOR + url';
  }

  lemma {:induction false} SharingTakesOver(source: string, url: string, source': string, url': string)
    requires KeyText(source, url) == KeyText(source', url') && |source| < |source'|
    ensures TakesOver(source, url, source', url')
  {
    if |source'| < |source| + |SEPARATOR| {
      SharingOverlaps(source, url, source', url');
    } else {
      SharingSwallows(source, url, source', url');
    }
  }

  /** Two requests share what is digested exactly when they are the same or one source takes over part of the other's URL. */
  lemma {:induction false} SharedIff(source: string, url: string, source': string, url': string)
    ensures KeyPreimage(source, url) == KeyPreimage(source', url') <==>
              || (source == source' && url == url')
              || TakesOver(source, url, source', url')
              || TakesOver(source', url', source, url)
  {
    PreimagesByText(source, url, source', url');
    if KeyText(source, url) == KeyText(source', url') {
      if |source| < |source'| {
        SharingTakesOver(source, url, source', url');
      } else if |source'| < |source| {
        SharingTakesOver(source', url', source, url);
      } else {
        assert source == KeyText(source, url)[..|source|] && url == KeyText(source, url)[|source| + |SEPARATOR|..];
        assert source' == KeyText(source', url')[..|source|] && url' == KeyText(source', url')[|source| + |SEPARATOR|..];
      }
    } else if TakesOver(source, url, source', url') {
      TakingOverShares(source, url, source', url');
    } else if TakesOver(source', url', source, url) {
      TakingOverShares(source', url', source, url);
    }
  }

  predicate NulFree(s: string) {
    '\0' !in s
  }

  /** So NUL-free sources are told apart. */
  lemma {:induction false} PreimageInjective(source: string, url: string, source': string, url': string)
    requires NulFree(source) && NulFree(source')
    requires KeyPreimage(source, url) == KeyPreimage(source', url')
    ensures source == source' && url == url'
  {
    SharedIff(source, url, source', url');
    if TakesOver(source, url, source', url') {
      TakenHasNul(source, url, source', url');
    } else if TakesOver(source', url', source, url) {
      TakenHasNul(source', url', source, url);
    }
  }

  lemma {:induction false} TakenHasNul(source: string, url: string, source': string, url': string)
    requires TakesOver(source, url, source', url')
    ensures !NulFree(source')
  {
    assert source'[|source|] == '\0';
  }

  // For the URLs a download accepts, whichever they are

  type UrlCheck = string -> bool

  /** Some requests of the two sources, with accepted URLs, share a key text. */
  ghost predicate CanCollide(accepts: UrlCheck, source: string, source': string) {
    exists url, url' :: accepts(url) && accepts(url') && KeyPreimage(source, url) == KeyPreimage(source', url')
  }

  /** Put before a separator and some accepted URL, the text is accepted. */
  ghost predicate Prefixes(accepts: UrlCheck, taken: string) {
    exists rest :: accepts(rest) && accepts(taken + SEPARATOR + rest)
  }

  ghost predicate AcceptsHalf(accepts: UrlCheck) {
    exists rest :: accepts(rest) && accepts("GET\0" + rest)
  }

  /** `source'` is `source`, a separator and the start of a URL, or `source` and half a separator. */
  ghost predicate Continues(accepts: UrlCheck, source: string, source': string) {
    || (&& |source'| >= |source| + |SEPARATOR| && source'[..|source| + |SEPARATOR|] == source + SEPARATOR
        && Prefixes(accepts, source'[|source| + |SEPARATOR|..]))
    || (source' == source + "\0GET" && AcceptsHalf(accepts))
  }

  lemma {:induction false} TakingContinues(accepts: UrlCheck, source: string, url: string, source': string, url': string)
    requires TakesOver(source, url, source', url') && accepts(url) && accepts(url')
    ensures Continues(accepts, source, source')
  {
    if Swallows(source, url, source', url') {
      assert source'[..|source| + |SEPARATOR|] == source + SEPARATOR;
      assert Prefixes(accepts, source'[|source| + |SEPARATOR|..]);
    }
  }

  lemma {:induction false} TakingCollides(accepts: UrlCheck, source: string, url: string, source': string, url': string)
    requires TakesOver(source, url, source', url') && accepts(url) && accepts(url')
    ensures CanCollide(accepts, source, source') && CanCollide(accepts, source', source)
  {
    SharedIff(source, url, source', url');
  }

  lemma {:induction false} ContinuingCollides(accepts: UrlCheck, source: string, source': string)
    requires Continues(accepts, source, source')
    ensures CanCollide(accepts, source, source') && CanCollide(accepts, source', source)
  {
    if source' == source + "\0GET" && AcceptsHalf(accepts) {
      var rest :| accepts(rest) && accepts("GET\0" + rest);
      TakingCollides(accepts, source, "GET\0" + rest, source', rest);
    } else {
      var taken := source'[|source| + |SEPARATOR|..];
      assert source' == source + SEPARATOR + taken;
      var rest :| accepts(rest) && accepts(taken + SEPARATOR + rest);
      TakingCollides(accepts, source, taken + SEPARATOR + rest, source', rest);
    }
  }

  /**
   Whatever URLs are accepted: requests of two different sources can share a key exactly when one
   source continues the other.
   */
  lemma {:induction false} SourcesCollideIff(accepts: UrlCheck, source: string, source': string)
    requires source != source'
    ensures CanCollide(accepts, source, source')
       <==> Continues(accepts, source, source') || Continues(accepts, source', source)
  {
    if CanCollide(accepts, source, source') {
      var url, url' :| accepts(url) && accepts(url') && KeyPreimage(source, url) == KeyPreimage(source', url');
      SharedIff(source, url, source', url');
      if TakesOver(source, url, source', url') {
        TakingContinues(accepts, source, url, source', url');
      } else {
        TakingContinues(accepts, source', url', source, url);
      }
    } else if Continues(accepts, source, source') {
      ContinuingCollides(accepts, source, source');
    } else if Continues(accepts, source', source) {
      ContinuingCollides(accepts, source', source);
    }
  }
}
