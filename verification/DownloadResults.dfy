/**
 What a download returns and leaves in the cache, column by column, and what the next download of
 the same asset starts from (src/ingest/download_persist.rs).
 */
module DownloadResults {
  import opened BlobStore
  import opened CacheControl
  import opened Database
  import opened Downloads
  import opened Utf8
  import opened Wrappers

  /** The header, if there is one, has neither directive that forbids keeping an answer. */
  ghost predicate AllowsStorage(cacheControl: Option<string>) {
    cacheControl.Some? ==>
      !HasDirective(cacheControl.value, "no-store") && !HasDirective(cacheControl.value, "private")
  }

  lemma {:induction false} EffectivePolicyIff(policy: CachePolicy, cacheControl: Option<string>)
    ensures EffectivePolicy(policy, cacheControl) == RespectSourceHeaders
       <==> policy == RespectSourceHeaders && AllowsStorage(cacheControl)
  {
    if cacheControl.Some? {
      ForbidsIff(cacheControl.value);
    } else {
      NothingForbids();
    }
  }

  // What a download says, and what the next one starts from

  /** The answer may be kept: the request respects headers and the header does not forbid it. */
  ghost predicate MayKeep(request: Request, response: Response) {
    request.cachePolicy == RespectSourceHeaders && AllowsStorage(response.cacheControl)
  }

  /** Where a body of this digest lies. */
  function PathFor(role: AssetRole, sha256: string): Path {
    match role
    case PdfAsset => ["blobs", "pdf", "sha256", sha256 + ".pdf"]
    case HtmlAsset => ["blobs", "html", "sha256", sha256 + ".html"]
    case _ => ["blobs", "other", "sha256", sha256 + ".blob"]
  }

  lemma {:induction false} PathsAre(role: AssetRole, sha256: string)
    ensures BlobPath(BlobKindOf(role), sha256) == PathFor(role, sha256)
  {
    assert sha256 + "." + "pdf" == sha256 + ".pdf" && sha256 + "." + "html" == sha256 + ".html";
    assert sha256 + "." + "blob" == sha256 + ".blob";
  }

  /** What is returned repeats the request and the answer, and names the file with exactly this body. */
  ghost predicate SaysFetched(
    asset: DownloadedAsset, digest: Digest, key: string, request: Request, response: Response, body: seq<byte>)
  {
    && asset.cacheKey == key && asset.url == request.url && asset.statusCode == response.status
    && asset.mimeType == (if request.mimeType.Some? then request.mimeType else response.contentType)
    && asset.sha256 == digest(body) && asset.sizeBytes == |body| && asset.path == PathFor(request.role, digest(body))
    && asset.validators.etag == response.validators.etag
    && asset.validators.lastModified == response.validators.lastModified
    && asset.cachePolicy == (if MayKeep(request, response) then RespectSourceHeaders else DoNotPersist)
    && asset.cacheStatus == (if MayKeep(request, response) then Fetched else NotPersisted)
  }

  /** The row of a kept answer. */
  ghost predicate IsRowOf(
    entry: CacheEntry, digest: Digest, key: string, request: Request, response: Response, body: seq<byte>)
  {
    && entry.cacheKey == key && entry.source == request.source && entry.url == request.url
    && entry.statusCode == Some(response.status) && entry.expiresAt.None?
    && entry.validators.etag == response.validators.etag
    && entry.validators.lastModified == response.validators.lastModified
    && entry.bodySha256 == Some(digest(body)) && entry.bodyPath == Some(PathFor(request.role, digest(body)))
  }

  /** A persisted fetch leaves its row under its key exactly when it may be kept. */
  lemma {:induction false} FetchedIs(
    rows: Rows, digest: Digest, key: string, request: Request, response: Response, body: seq<byte>, other: string)
    ensures
      var rows' := PersistedRows(rows, FetchedDownload(request, key, response, StoredFor(digest, request, body)));
      && (key in rows' <==> MayKeep(request, response))
      && (key in rows' ==> IsRowOf(rows'[key], digest, key, request, response, body))
      && (other != key ==> (other in rows' <==> other in rows) && (other in rows ==> rows'[other] == rows[other]))
  {
    PathsAre(request.role, digest(body));
    EffectivePolicyIff(request.cachePolicy, response.cacheControl);
  }

  /**
   A fetch, and what the next request for the same source and URL starts from: exactly that fetch, if
   and only if the answer may be kept and the next request looks; other keys keep what they had.
   */
  lemma {:induction false} FetchThenLoad(
    rows: Rows, digest: Digest, key: string, request: Request, response: Response, body: seq<byte>,
    next: Request, now: int)
    ensures
      var fetched := FetchedDownload(request, key, response, StoredFor(digest, request, body));
      var rows' := PersistedRows(rows, fetched);
      var loaded := LoadCachedEntry(rows', next, key, now);
      && SaysFetched(fetched.downloaded, digest, key, request, response, body)
      && (key in rows' <==> MayKeep(request, response))
      && (loaded.Some? <==>
            next.cachePolicy == RespectSourceHeaders && !next.force && MayKeep(request, response))
      && (loaded.Some? ==> IsRowOf(loaded.value, digest, key, request, response, body))
      && forall other :: other != key ==> LoadCachedEntry(rows', next, other, now) == LoadCachedEntry(rows, next, other, now)
  {
    var stored := StoredFor(digest, request, body);
    var entry := FetchedDownload(request, key, response, stored).cacheEntry.value;
    PathsAre(request.role, digest(body));
    EffectivePolicyIff(request.cachePolicy, response.cacheControl);
    PutThenGet(rows, entry, key, now);
    forall other | other != key
      ensures GetRow(PutRow(rows, entry), other, now) == GetRow(rows, other, now)
    {
      PutThenGet(rows, entry, other, now);
    }
  }

  /**
   A revalidation succeeds exactly when the cached row names a file that is there.  It returns that
   file under the request's own names, with the validators of the answer before those of the row, and
   keeps the rows as they are.
   */
  lemma {:induction false} RevalidationKeepsRows(
    rows: Rows, blobs: Blobs, request: Request, cached: Option<CacheEntry>, key: string, validators: Validators)
    ensures
      var r := RevalidatedDownload(blobs, request, cached, key, validators);
      && (r.Ok? <==> cached.Some? && cached.value.bodySha256.Some? && cached.value.bodyPath.Some?
                     && cached.value.bodyPath.value in blobs)
      && (r.Err? ==> r.error == MissingCachedBody(key))
      && (r.Ok? ==>
            && PersistedRows(rows, r.value) == rows
            && SaysRevalidated(r.value.downloaded, blobs, request, cached.value, key, validators))
  {
  }

  predicate SaysRevalidated(
    asset: DownloadedAsset, blobs: Blobs, request: Request, row: CacheEntry, key: string, validators: Validators)
  {
    && asset.cacheKey == key && asset.url == request.url && asset.mimeType == request.mimeType
    && asset.statusCode == 304 && asset.cacheStatus == Revalidated && asset.cachePolicy == row.cachePolicy
    && row.bodySha256 == Some(asset.sha256) && row.bodyPath == Some(asset.path)
    && asset.path in blobs && asset.sizeBytes == |blobs[asset.path]|
    && asset.validators.etag == (if validators.etag.Some? then validators.etag else row.validators.etag)
    && asset.validators.lastModified ==
         (if validators.lastModified.Some? then validators.lastModified else row.validators.lastModified)
  }
}
