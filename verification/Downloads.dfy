/**
 Downloading one asset through the HTTP cache (src/ingest/download.rs, src/ingest/download_persist.rs,
 src/store/cache.rs): which request is conditional, what an answer becomes, and what is kept.
 */
module Downloads {
  import opened Ascii
  import opened BlobStore
  import opened CacheKeys
  import opened Database
  import opened Text
  import opened Utf8
  import opened Wrappers

  datatype CachePolicy = RespectSourceHeaders | DoNotPersist

  datatype Validators = Validators(etag: Option<string>, lastModified: Option<string>)

  /** A row of `cache_entries`; the JSON columns are not kept. */
  datatype CacheEntry = CacheEntry(
    cacheKey: string, source: string, url: string, statusCode: Option<nat>,
    bodySha256: Option<string>, bodyPath: Option<Path>, validators: Validators,
    expiresAt: Option<int>, cachePolicy: CachePolicy)

  datatype Request = Request(
    source: string, url: string, role: AssetRole, mimeType: Option<string>, cachePolicy: CachePolicy, force: bool)

  /** An answer as it arrives: status, the headers that matter, and the body in chunks. */
  datatype Response = Response(
    status: nat, validators: Validators, contentType: Option<string>, cacheControl: Option<string>,
    contentLength: Option<nat>, chunks: seq<seq<byte>>)

  datatype CacheStatus = Fetched | Revalidated | NotPersisted

  datatype DownloadedAsset = DownloadedAsset(
    cacheKey: string, url: string, mimeType: Option<string>, statusCode: nat, sha256: string, path: Path,
    sizeBytes: nat, validators: Validators, cachePolicy: CachePolicy, cacheStatus: CacheStatus)

  datatype Pending = Pending(downloaded: DownloadedAsset, cacheEntry: Option<CacheEntry>)

  datatype DownloadError =
    | HttpStatus(status: nat)
    | TooLarge(limit: nat, actual: nat)
    | MissingCachedBody(cacheKey: string)
    | FileStore

  const NOT_MODIFIED: nat := 304

  // The cache table

  type Rows = map<string, CacheEntry>

  function PutRow(rows: Rows, entry: CacheEntry): Rows {
    if entry.cachePolicy == DoNotPersist then rows - {entry.cacheKey} else rows[entry.cacheKey := entry]
  }

  function GetRow(rows: Rows, key: string, now: int): Option<CacheEntry> {
    if key in rows && rows[key].cachePolicy != DoNotPersist
       && (rows[key].expiresAt.None? || rows[key].expiresAt.value > now) then
      Some(rows[key])
    else None
  }

  /** A row just written is read back unless it may not be kept or has expired; other keys read as before. */
  lemma {:induction false} PutThenGet(rows: Rows, entry: CacheEntry, key: string, now: int)
    ensures GetRow(PutRow(rows, entry), key, now) ==
            if key != entry.cacheKey then GetRow(rows, key, now)
            else if entry.cachePolicy == DoNotPersist || (entry.expiresAt.Some? && entry.expiresAt.value <= now) then None
            else Some(entry)
  {
  }

  class CacheStore {
    var rows: Rows

    constructor ()
      ensures rows == map[]
    {
      rows := map[];
    }

    method Put(entry: CacheEntry)
      modifies this
      ensures rows == PutRow(old(rows), entry)
    {
      if entry.cachePolicy == DoNotPersist {
        rows := rows - {entry.cacheKey};
        return;
      }
      rows := rows[entry.cacheKey := entry];
    }

    method Get(key: string, now: int) returns (entry: Option<CacheEntry>)
      ensures entry == GetRow(rows, key, now)
    {
      if key !in rows {
        return None;
      }
      var row := rows[key];
      if row.cachePolicy == DoNotPersist || (row.expiresAt.Some? && row.expiresAt.value <= now) {
        return None;
      }
      return Some(row);
    }
  }

  // The effective policy

  predicate ForbidsStorage(directive: string) {
    directive == "no-store" || directive == "private"
  }

  predicate AnyForbids(pieces: seq<string>) {
    exists i :: 0 <= i < |pieces| && ForbidsStorage(Trim(pieces[i]))
  }

  /** Lower case, split at commas, trimmed. */
  predicate HeaderForbids(header: string) {
    AnyForbids(Split(Lower(header), ','))
  }

  /** A missing or unreadable header is `None`. */
  function EffectivePolicy(policy: CachePolicy, cacheControl: Option<string>): CachePolicy {
    if policy == DoNotPersist then DoNotPersist
    else if HeaderForbids(if cacheControl.Some? then cacheControl.value else "") then DoNotPersist
    else RespectSourceHeaders
  }

  // Reading the body

  function Concat(chunks: seq<seq<byte>>): seq<byte> {
    if chunks == [] then [] else chunks[0] + Concat(chunks[1..])
  }

  lemma {:induction false} ConcatLast(chunks: seq<seq<byte>>, chunk: seq<byte>)
    ensures Concat(chunks + [chunk]) == Concat(chunks) + chunk
  {
    if chunks == [] {
      assert [] + [chunk] == [chunk] && [chunk][1..] == [];
      assert Concat([chunk]) == chunk + Concat([]);
    } else {
      ConcatLast(chunks[1..], chunk);
      assert (chunks + [chunk])[0] == chunks[0] && (chunks + [chunk])[1..] == chunks[1..] + [chunk];
    }
  }

  lemma {:induction false} ConcatPrefix(chunks: seq<seq<byte>>, i: nat)
    requires i <= |chunks|
    ensures |Concat(chunks[..i])| <= |Concat(chunks)|
    decreases |chunks| - i
  {
    if i < |chunks| {
      assert chunks[..i + 1] == chunks[..i] + [chunks[i]];
      ConcatLast(chunks[..i], chunks[i]);
      ConcatPrefix(chunks, i + 1);
    } else {
      assert chunks[..i] == chunks;
    }
  }

  ghost predicate OverLimit(chunks: seq<seq<byte>>, maxBytes: nat, error: DownloadError) {
    exists i :: 0 <= i < |chunks| && error == TooLarge(maxBytes, |Concat(chunks[..i + 1])|)
                && |Concat(chunks[..i])| <= maxBytes < |Concat(chunks[..i + 1])|
  }

  /** The whole body when it fits; otherwise the first running total over the limit, and no more is read. */
  method ReadBounded(chunks: seq<seq<byte>>, maxBytes: nat) returns (r: Result<seq<byte>, DownloadError>)
    ensures r.Ok? <==> |Concat(chunks)| <= maxBytes
    ensures r.Ok? ==> r.value == Concat(chunks)
    ensures r.Err? ==> OverLimit(chunks, maxBytes, r.error)
  {
    var body: seq<byte> := [];
    for i := 0 to |chunks|
      invariant body == Concat(chunks[..i]) && |body| <= maxBytes
    {
      var actual := |body| + |chunks[i]|;
      assert chunks[..i + 1] == chunks[..i] + [chunks[i]];
      ConcatLast(chunks[..i], chunks[i]);
      if actual > maxBytes {
        ConcatPrefix(chunks, i + 1);
        return Err(TooLarge(maxBytes, actual));
      }
      body := body + chunks[i];
    }
    assert chunks[..|chunks|] == chunks;
    return Ok(body);
  }

  // One download

  function LoadCachedEntry(rows: Rows, request: Request, key: string, now: int): Option<CacheEntry> {
    if request.cachePolicy == RespectSourceHeaders && !request.force then GetRow(rows, key, now) else None
  }

  function Or<T>(a: Option<T>, b: Option<T>): Option<T> {
    if a.Some? then a else b
  }

  function RevalidatedDownload(
    blobs: Blobs, request: Request, cached: Option<CacheEntry>, key: string, validators: Validators)
    : Result<Pending, DownloadError>
  {
    if cached.None? || cached.value.bodySha256.None? || cached.value.bodyPath.None?
       || cached.value.bodyPath.value !in blobs then
      Err(MissingCachedBody(key))
    else
      var entry := cached.value;
      var path := entry.bodyPath.value;
      Ok(Pending(
        DownloadedAsset(
          key, request.url, request.mimeType, NOT_MODIFIED, entry.bodySha256.value, path, |blobs[path]|,
          Validators(Or(validators.etag, entry.validators.etag),
                     Or(validators.lastModified, entry.validators.lastModified)),
          entry.cachePolicy, Revalidated),
        None))
  }

  function FetchedDownload(request: Request, key: string, response: Response, stored: StoredBlob): Pending {
    var policy := EffectivePolicy(request.cachePolicy, response.cacheControl);
    Pending(
      DownloadedAsset(
        key, request.url, Or(request.mimeType, response.contentType), response.status, stored.sha256, stored.path,
        stored.sizeBytes, response.validators, policy, if policy == DoNotPersist then NotPersisted else Fetched),
      Some(CacheEntry(
        key, request.source, request.url, Some(response.status), Some(stored.sha256), Some(stored.path),
        response.validators, None, policy)))
  }

  function BlobKindOf(role: AssetRole): BlobKind {
    match role case PdfAsset => PdfBlob case HtmlAsset => HtmlBlob case _ => OtherBlob
  }

  predicate IsSuccess(status: nat) {
    200 <= status < 300
  }

  /** An answer that is taken: the limits are met and the status is a success. */
  predicate Taken(response: Response, maxBytes: nat) {
    && IsSuccess(response.status)
    && (response.contentLength.Some? ==> response.contentLength.value <= maxBytes)
    && |Concat(response.chunks)| <= maxBytes
  }

  function StoredFor(digest: Digest, request: Request, body: seq<byte>): StoredBlob {
    StoredBlob(digest(body), BlobPath(BlobKindOf(request.role), digest(body)), |body|)
  }

  /** What the blobs and the result are after an answer, unless the disk refuses. */
  ghost predicate Answered(
    digest: Digest, maxBytes: nat, before: Blobs, after: Blobs, request: Request, key: string,
    cached: Option<CacheEntry>, response: Response, r: Result<Pending, DownloadError>)
  {
    if response.status == 304 then
      after == before && r == RevalidatedDownload(before, request, cached, key, response.validators)
    else if && 200 <= response.status <= 299 && |Concat(response.chunks)| <= maxBytes
            && (response.contentLength.Some? ==> response.contentLength.value <= maxBytes) then
      var body := Concat(response.chunks);
      || (r == Err(FileStore) && after == before)
      || (&& r == Ok(FetchedDownload(request, key, response, StoredFor(digest, request, body)))
          && after == Put(before, digest, BlobKindOf(request.role), body))
    else r.Err? && Refuses(response, maxBytes, r.error) && after == before
  }

  /** Why an answer is refused: its status, the length it announces, or the first running total over the limit. */
  ghost predicate Refuses(response: Response, maxBytes: nat, error: DownloadError) {
    if response.status < 200 || response.status > 299 then error == HttpStatus(response.status)
    else if response.contentLength.Some? && response.contentLength.value > maxBytes then
      error == TooLarge(maxBytes, response.contentLength.value)
    else OverLimit(response.chunks, maxBytes, error)
  }

  function PersistedRows(rows: Rows, pending: Pending): Rows {
    if pending.cacheEntry.Some? then PutRow(rows, pending.cacheEntry.value) else rows
  }

  lemma {:induction false} RefusedIs(
    digest: Digest, maxBytes: nat, blobs: Blobs, request: Request, key: string,
    cached: Option<CacheEntry>, response: Response, error: DownloadError)
    requires response.status != NOT_MODIFIED && !Taken(response, maxBytes) && Refuses(response, maxBytes, error)
    ensures Answered(digest, maxBytes, blobs, blobs, request, key, cached, response, Err(error))
  {
  }

  lemma {:induction false} TakenIs(
    digest: Digest, maxBytes: nat, before: Blobs, after: Blobs, request: Request, key: string,
    cached: Option<CacheEntry>, response: Response, stored: Result<StoredBlob, FileStoreError>)
    requires response.status != NOT_MODIFIED && Taken(response, maxBytes)
    requires stored.Err? ==> after == before
    requires stored.Ok? ==>
               && stored.value == StoredFor(digest, request, Concat(response.chunks))
               && after == Put(before, digest, BlobKindOf(request.role), Concat(response.chunks))
    ensures Answered(digest, maxBytes, before, after, request, key, cached, response,
                     if stored.Ok? then Ok(FetchedDownload(request, key, response, stored.value)) else Err(FileStore))
  {
  }

  class AssetDownloader {
    const maxBytes: nat

    constructor (maxBytes: nat)
      ensures this.maxBytes == maxBytes
    {
      this.maxBytes := maxBytes;
    }

    method LoadCached(files: ContentAddressedStore, cache: CacheStore, request: Request, now: int)
      returns (cached: Option<CacheEntry>)
      ensures cached == LoadCachedEntry(
                cache.rows, request, CacheKey(files.digest, request.source, request.url), now)
    {
      if request.cachePolicy == RespectSourceHeaders && !request.force {
        cached := cache.Get(CacheKey(files.digest, request.source, request.url), now);
      } else {
        cached := None;
      }
    }

    /** `download_http`, from the answer on. */
    method DownloadHttp(
      files: ContentAddressedStore, request: Request, cached: Option<CacheEntry>, response: Response)
      returns (r: Result<Pending, DownloadError>)
      requires files.Valid()
      modifies files
      ensures files.Valid()
      ensures Answered(files.digest, maxBytes, old(files.blobs), files.blobs, request,
                       CacheKey(files.digest, request.source, request.url), cached, response, r)
    {
      var key := CacheKey(files.digest, request.source, request.url);
      ghost var blobs := files.blobs;
      if response.status == NOT_MODIFIED {
        r := RevalidatedDownload(files.blobs, request, cached, key, response.validators);
        return;
      }
      if !IsSuccess(response.status) {
        r := Err(HttpStatus(response.status));
        RefusedIs(files.digest, maxBytes, blobs, request, key, cached, response, r.error);
        return;
      }
      if response.contentLength.Some? && response.contentLength.value > maxBytes {
        r := Err(TooLarge(maxBytes, response.contentLength.value));
        RefusedIs(files.digest, maxBytes, blobs, request, key, cached, response, r.error);
        return;
      }
      var body := ReadBounded(response.chunks, maxBytes);
      if body.Err? {
        r := Err(body.error);
        RefusedIs(files.digest, maxBytes, blobs, request, key, cached, response, r.error);
        return;
      }
      var reader := new Reader(body.value);
      var stored := files.PutReader(BlobKindOf(request.role), reader);
      TakenIs(files.digest, maxBytes, blobs, files.blobs, request, key, cached, response, stored);
      if stored.Err? {
        r := Err(FileStore);
      } else {
        r := Ok(FetchedDownload(request, key, response, stored.value));
      }
    }

    method PersistDownload(cache: CacheStore, pending: Pending) returns (downloaded: DownloadedAsset)
      modifies cache
      ensures downloaded == pending.downloaded
      ensures cache.rows == PersistedRows(old(cache.rows), pending)
    {
      if pending.cacheEntry.Some? {
        cache.Put(pending.cacheEntry.value);
      }
      downloaded := pending.downloaded;
    }

    /** What was prepared is persisted, unless the download failed. */
    method PersistPrepared(cache: CacheStore, pending: Result<Pending, DownloadError>)
      returns (r: Result<DownloadedAsset, DownloadError>)
      modifies cache
      ensures Persisted(pending, old(cache.rows), cache.rows, r)
    {
      if pending.Err? {
        return Err(pending.error);
      }
      var downloaded := PersistDownload(cache, pending.value);
      return Ok(downloaded);
    }

    /** `download`: load, ask the origin, persist; a failed download leaves the rows alone. */
    method Download(files: ContentAddressedStore, cache: CacheStore, request: Request, now: int,
                    origin: Option<CacheEntry> -> Response)
      returns (r: Result<DownloadedAsset, DownloadError>)
      requires files.Valid()
      modifies files, cache
      ensures files.Valid()
      ensures IsDownload(files.digest, maxBytes, request, CacheKey(files.digest, request.source, request.url), now, origin,
                         old(files.blobs), files.blobs, old(cache.rows), cache.rows, r)
    {
      var cached := LoadCached(files, cache, request, now);
      var pending := DownloadHttp(files, request, cached, origin(cached));
      ghost var blobs' := files.blobs;
      r := PersistPrepared(cache, pending);
      DownloadedBy(files.digest, maxBytes, request, CacheKey(files.digest, request.source, request.url), now, origin,
                   old(files.blobs), blobs', old(cache.rows), cache.rows, r, cached, pending);
    }
  }

  /** From the rows and blobs before to the rows and blobs after, with this result. */
  ghost predicate IsDownload(
    digest: Digest, maxBytes: nat, request: Request, key: string, now: int, origin: Option<CacheEntry> -> Response,
    blobs: Blobs, blobs': Blobs, rows: Rows, rows': Rows, r: Result<DownloadedAsset, DownloadError>)
  {
    var cached := LoadCachedEntry(rows, request, key, now);
    exists pending :: Answered(digest, maxBytes, blobs, blobs', request, key, cached, origin(cached), pending)
                      && Persisted(pending, rows, rows', r)
  }

  lemma {:induction false} DownloadedBy(
    digest: Digest, maxBytes: nat, request: Request, key: string, now: int, origin: Option<CacheEntry> -> Response,
    blobs: Blobs, blobs': Blobs, rows: Rows, rows': Rows, r: Result<DownloadedAsset, DownloadError>,
    cached: Option<CacheEntry>, pending: Result<Pending, DownloadError>)
    requires cached == LoadCachedEntry(rows, request, key, now)
    requires Answered(digest, maxBytes, blobs, blobs', request, key, cached, origin(cached), pending)
    requires Persisted(pending, rows, rows', r)
    ensures IsDownload(digest, maxBytes, request, key, now, origin, blobs, blobs', rows, rows', r)
  {
  }

  predicate Persisted(
    pending: Result<Pending, DownloadError>, before: Rows, after: Rows, r: Result<DownloadedAsset, DownloadError>)
  {
    match pending
    case Ok(p) => r == Ok(p.downloaded) && after == PersistedRows(before, p)
    case Err(error) => r == Err(error) && after == before
  }
}
