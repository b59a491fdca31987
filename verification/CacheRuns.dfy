/**
 Any number of downloads interleaved over one cache: against an origin that answers 304 only when
 the validators name its current representation, what a download returns is that representation.
 */
module CacheRuns {
  import opened BlobStore
  import opened CacheKeys
  import opened Downloads
  import opened Utf8
  import opened Wrappers

  // Downloads under way

  datatype Phase =
    | Asked(request: Request, cached: Option<CacheEntry>)
    | Received(request: Request, pending: Pending)

  datatype World = World(blobs: Blobs, rows: Rows, downloads: map<nat, Phase>)

  datatype Event =
    | Begin(id: nat, request: Request, now: int)
    // The origin answers while `representation` is its current one for the URL.
    | Answer(id: nat, response: Response, representation: seq<byte>, diskFull: bool)
    | Persist(id: nat)
    // The download errs, is cancelled or dies with its process.
    | Abandon(id: nat)
    | LoseBlob(path: Path)

  /** `keyOf` is how a source and a URL become a cache key. */
  datatype Setting = Setting(digest: Digest, keyOf: (string, string) -> string, maxBytes: nat)

  function AnswerOutcome(s: Setting, blobs: Blobs, request: Request, cached: Option<CacheEntry>,
                         response: Response, diskFull: bool): (Blobs, Result<Pending, DownloadError>)
  {
    var key := s.keyOf(request.source, request.url);
    if response.status == NOT_MODIFIED then
      (blobs, RevalidatedDownload(blobs, request, cached, key, response.validators))
    else if !Taken(response, s.maxBytes) then (blobs, Err(HttpStatus(response.status)))
    else if diskFull then (blobs, Err(FileStore))
    else
      var body := Concat(response.chunks);
      (Put(blobs, s.digest, BlobKindOf(request.role), body),
       Ok(FetchedDownload(request, key, response, StoredFor(s.digest, request, body))))
  }

  function Next(s: Setting, world: World, event: Event): World {
    match event
    case Begin(id, request, now) =>
      if id in world.downloads then world
      else world.(downloads := world.downloads[id :=
        Asked(request, LoadCachedEntry(world.rows, request, s.keyOf(request.source, request.url), now))])
    case Answer(id, response, _, diskFull) =>
      if id !in world.downloads || !world.downloads[id].Asked? then world
      else
        var p := world.downloads[id];
        var (blobs, r) := AnswerOutcome(s, world.blobs, p.request, p.cached, response, diskFull);
        world.(blobs := blobs,
               downloads := if r.Ok? then world.downloads[id := Received(p.request, r.value)]
                            else world.downloads - {id})
    case Persist(id) =>
      if id !in world.downloads || !world.downloads[id].Received? then world
      else
        world.(rows := PersistedRows(world.rows, world.downloads[id].pending), downloads := world.downloads - {id})
    case Abandon(id) => world.(downloads := world.downloads - {id})
    case LoseBlob(path) => world.(blobs := world.blobs - {path})
  }

  /** What the method does on an answer is one of the outcomes above. */
  lemma {:induction false} MethodTakesThisStep(
    s: Setting, before: Blobs, after: Blobs, request: Request, cached: Option<CacheEntry>, response: Response,
    r: Result<Pending, DownloadError>)
    requires Answered(s.digest, s.maxBytes, before, after, request, s.keyOf(request.source, request.url),
                      cached, response, r)
    ensures exists diskFull ::
              var outcome := AnswerOutcome(s, before, request, cached, response, diskFull);
              after == outcome.0 && (r == outcome.1 || (r.Err? && outcome.1.Err?))
  {
    var diskFull := Taken(response, s.maxBytes) && r.Err?;
    var outcome := AnswerOutcome(s, before, request, cached, response, diskFull);
    assert after == outcome.0 && (r == outcome.1 || (r.Err? && outcome.1.Err?));
  }

  // The origin and the digest

  /** Which body a URL's validators stand for; a URL without validators names nothing. */
  type Naming = (string, Validators) -> seq<byte>

  predicate HasValidators(v: Validators) {
    v.etag.Some? || v.lastModified.Some?
  }

  /** The validators a request carries. */
  function Sent(cached: Option<CacheEntry>): Validators {
    if cached.Some? then cached.value.validators else Validators(None, None)
  }

  /**
   Sections 13.1.2 and 15.4.5 of RFC 9110: a full answer carries the current representation, and its
   validators name it; 304 answers only a request whose validators name the current representation.
   */
  ghost predicate Honest(
    names: Naming, url: string, sent: Validators, response: Response, representation: seq<byte>)
  {
    if response.status == NOT_MODIFIED then HasValidators(sent) && names(url, sent) == representation
    else IsSuccess(response.status) ==>
      && Concat(response.chunks) == representation
      && (HasValidators(response.validators) ==> names(url, response.validators) == representation)
  }

  /** No two of these byte strings have the same digest. */
  ghost predicate CollisionFree(digest: Digest, inputs: iset<seq<byte>>) {
    forall a, b :: a in inputs && b in inputs && digest(a) == digest(b) ==> a == b
  }

  /** What a run is about: its sources and URLs, the bodies it digests, and what validators name. */
  datatype Scope = Scope(names: Naming, inputs: iset<seq<byte>>, pairs: iset<(string, string)>)

  ghost predicate KeysApart(keyOf: (string, string) -> string, pairs: iset<(string, string)>) {
    forall a, u, b, v :: (a, u) in pairs && (b, v) in pairs && keyOf(a, u) == keyOf(b, v) ==> a == b && u == v
  }

  function AssetKeys(digest: Digest): (string, string) -> string {
    (source: string, url: string) => CacheKey(digest, source, url)
  }

  lemma {:induction false} AfterPrefix(prefix: string, a: string, b: string)
    requires prefix + a == prefix + b
    ensures a == b
  {
    assert (prefix + a)[|prefix|..] == a && (prefix + b)[|prefix|..] == b;
  }

  /** Without digest collisions and NUL in sources, keys of different requests differ. */
  lemma {:induction false} AssetKeysApart(digest: Digest, inputs: iset<seq<byte>>, pairs: iset<(string, string)>)
    requires CollisionFree(digest, inputs)
    requires forall a, u :: (a, u) in pairs ==> NulFree(a) && KeyPreimage(a, u) in inputs
    ensures KeysApart(AssetKeys(digest), pairs)
  {
    forall a, u, b, v | (a, u) in pairs && (b, v) in pairs && AssetKeys(digest)(a, u) == AssetKeys(digest)(b, v)
      ensures a == b && u == v
    {
      AfterPrefix("asset:sha256:", digest(KeyPreimage(a, u)), digest(KeyPreimage(b, v)));
      PreimageInjective(a, u, b, v);
    }
  }

  // The invariant

  /** An entry describes a body its own validators name, under the key of its own source and URL. */
  ghost predicate EntryOk(s: Setting, scope: Scope, entry: CacheEntry) {
    && entry.cachePolicy != DoNotPersist
    && EntryNamed(s, scope, entry)
  }

  ghost predicate EntryNamed(s: Setting, scope: Scope, entry: CacheEntry) {
    && (entry.source, entry.url) in scope.pairs
    && entry.cacheKey == s.keyOf(entry.source, entry.url)
    && entry.bodySha256.Some? && entry.bodyPath.Some?
    && (exists kind: BlobKind :: entry.bodyPath.value == BlobPath(kind, entry.bodySha256.value))
    && (HasValidators(entry.validators) ==>
          && scope.names(entry.url, entry.validators) in scope.inputs
          && s.digest(scope.names(entry.url, entry.validators)) == entry.bodySha256.value)
  }

  ghost predicate BlobsOk(s: Setting, scope: Scope, blobs: Blobs) {
    Named(blobs, s.digest) && forall p :: p in blobs ==> blobs[p] in scope.inputs
  }

  ghost predicate RowsOk(s: Setting, scope: Scope, rows: Rows) {
    forall k :: k in rows ==> rows[k].cacheKey == k && EntryOk(s, scope, rows[k])
  }

  ghost predicate PhaseOk(s: Setting, scope: Scope, phase: Phase) {
    && (phase.request.source, phase.request.url) in scope.pairs
    && match phase
       case Asked(request, cached) =>
         cached.Some? ==>
           && cached.value.cacheKey == s.keyOf(request.source, request.url)
           && EntryOk(s, scope, cached.value)
       case Received(request, pending) =>
         pending.cacheEntry.Some? ==> EntryNamed(s, scope, pending.cacheEntry.value)
  }

  ghost predicate WorldOk(s: Setting, scope: Scope, world: World) {
    && BlobsOk(s, scope, world.blobs)
    && RowsOk(s, scope, world.rows)
    && forall id :: id in world.downloads ==> PhaseOk(s, scope, world.downloads[id])
  }

  /** The event is within the scope, and an answer is honest. */
  ghost predicate Fair(s: Setting, scope: Scope, world: World, event: Event) {
    match event
    case Begin(_, request, _) => (request.source, request.url) in scope.pairs
    case Answer(id, response, representation, _) =>
      (id in world.downloads && world.downloads[id].Asked?) ==>
        && representation in scope.inputs
        && Honest(scope.names, world.downloads[id].request.url, Sent(world.downloads[id].cached), response, representation)
    case _ => true
  }

  lemma {:induction false} LoadedIsOk(s: Setting, scope: Scope, rows: Rows, request: Request, now: int)
    requires RowsOk(s, scope, rows) && (request.source, request.url) in scope.pairs
    ensures PhaseOk(s, scope, Asked(request, LoadCachedEntry(rows, request, s.keyOf(request.source, request.url), now)))
  {
  }

  lemma {:induction false} FetchedIsOk(
    s: Setting, scope: Scope, request: Request, response: Response, body: seq<byte>)
    requires (request.source, request.url) in scope.pairs && body in scope.inputs
    requires HasValidators(response.validators) ==> scope.names(request.url, response.validators) == body
    ensures
      var key := s.keyOf(request.source, request.url);
      PhaseOk(s, scope,
              Received(request, FetchedDownload(request, key, response, StoredFor(s.digest, request, body))))
  {
    var kind := BlobKindOf(request.role);
    assert BlobPath(kind, s.digest(body)) == StoredFor(s.digest, request, body).path;
  }

  lemma {:induction false} PutIsOk(s: Setting, scope: Scope, blobs: Blobs, kind: BlobKind, body: seq<byte>)
    requires BlobsOk(s, scope, blobs) && body in scope.inputs
    ensures BlobsOk(s, scope, Put(blobs, s.digest, kind, body))
  {
    PutKeepsNames(blobs, s.digest, kind, body);
  }

  lemma {:induction false} AnswerKeeps(s: Setting, scope: Scope, world: World, event: Event)
    requires event.Answer? && WorldOk(s, scope, world) && Fair(s, scope, world, event)
    ensures WorldOk(s, scope, Next(s, world, event))
  {
    if event.id in world.downloads && world.downloads[event.id].Asked? {
      var p := world.downloads[event.id];
      assert PhaseOk(s, scope, p);
      if Taken(event.response, s.maxBytes) {
        var body := Concat(event.response.chunks);
        assert body == event.representation;
        PutIsOk(s, scope, world.blobs, BlobKindOf(p.request.role), body);
        FetchedIsOk(s, scope, p.request, event.response, body);
      }
    }
  }

  lemma {:induction false} PersistKeeps(s: Setting, scope: Scope, world: World, event: Event)
    requires event.Persist? && WorldOk(s, scope, world)
    ensures WorldOk(s, scope, Next(s, world, event))
  {
    if event.id in world.downloads && world.downloads[event.id].Received? {
      assert PhaseOk(s, scope, world.downloads[event.id]);
    }
  }

  lemma {:induction false} StepKeeps(s: Setting, scope: Scope, world: World, event: Event)
    requires WorldOk(s, scope, world) && Fair(s, scope, world, event)
    ensures WorldOk(s, scope, Next(s, world, event))
  {
    match event {
      case Begin(id, request, now) => LoadedIsOk(s, scope, world.rows, request, now);
      case Answer(_, _, _, _) => AnswerKeeps(s, scope, world, event);
      case Persist(_) => PersistKeeps(s, scope, world, event);
      case Abandon(_) =>
      case LoseBlob(_) =>
    }
  }

  // Runs

  ghost function Run(s: Setting, world: World, events: seq<Event>): World
    decreases |events|
  {
    if events == [] then world else Run(s, Next(s, world, events[0]), events[1..])
  }

  ghost predicate FairRun(s: Setting, scope: Scope, world: World, events: seq<Event>)
    decreases |events|
  {
    events != [] ==>
      && Fair(s, scope, world, events[0])
      && FairRun(s, scope, Next(s, world, events[0]), events[1..])
  }

  lemma {:induction false} RunKeeps(s: Setting, scope: Scope, world: World, events: seq<Event>)
    requires WorldOk(s, scope, world) && FairRun(s, scope, world, events)
    ensures WorldOk(s, scope, Run(s, world, events))
    decreases |events|
  {
    if events != [] {
      StepKeeps(s, scope, world, events[0]);
      RunKeeps(s, scope, Next(s, world, events[0]), events[1..]);
    }
  }

  const EMPTY_WORLD: World := World(map[], map[], map[])

  // Coherence

  /** The file returned holds exactly `body`, under its digest and with its size. */
  ghost predicate Delivers(s: Setting, blobs: Blobs, asset: DownloadedAsset, body: seq<byte>) {
    && asset.path in blobs && blobs[asset.path] == body
    && asset.sha256 == s.digest(body) && asset.sizeBytes == |body|
  }

  lemma {:induction false} BlobIsBody(
    s: Setting, scope: Scope, blobs: Blobs, kind: BlobKind, path: Path, body: seq<byte>)
    requires BlobsOk(s, scope, blobs) && CollisionFree(s.digest, scope.inputs) && body in scope.inputs
    requires path in blobs && path == BlobPath(kind, s.digest(body))
    ensures blobs[path] == body
  {
    var k: BlobKind :| path == BlobPath(k, s.digest(blobs[path]));
    BlobPathInjective(k, s.digest(blobs[path]), kind, s.digest(body));
  }

  lemma {:induction false} FetchedDelivers(
    s: Setting, scope: Scope, blobs: Blobs, request: Request, response: Response)
    requires BlobsOk(s, scope, blobs) && CollisionFree(s.digest, scope.inputs) && Concat(response.chunks) in scope.inputs
    ensures
      var body := Concat(response.chunks);
      var key := s.keyOf(request.source, request.url);
      Delivers(s, Put(blobs, s.digest, BlobKindOf(request.role), body),
               FetchedDownload(request, key, response, StoredFor(s.digest, request, body)).downloaded, body)
  {
    var body := Concat(response.chunks);
    var kind := BlobKindOf(request.role);
    var path := BlobPath(kind, s.digest(body));
    if path in blobs {
      BlobIsBody(s, scope, blobs, kind, path, body);
    }
  }

  /** A loaded entry is one of the same source and URL. */
  lemma {:induction false} EntryIsOfThisUrl(s: Setting, scope: Scope, request: Request, entry: CacheEntry)
    requires KeysApart(s.keyOf, scope.pairs) && EntryOk(s, scope, entry)
    requires (request.source, request.url) in scope.pairs
    requires entry.cacheKey == s.keyOf(request.source, request.url)
    ensures entry.source == request.source && entry.url == request.url
  {
  }

  lemma {:induction false} RevalidatedDelivers(
    s: Setting, scope: Scope, blobs: Blobs, request: Request, cached: Option<CacheEntry>,
    response: Response, representation: seq<byte>)
    requires BlobsOk(s, scope, blobs) && CollisionFree(s.digest, scope.inputs) && KeysApart(s.keyOf, scope.pairs)
    requires PhaseOk(s, scope, Asked(request, cached)) && representation in scope.inputs
    requires response.status == NOT_MODIFIED
    requires Honest(scope.names, request.url, Sent(cached), response, representation)
    ensures
      var r := RevalidatedDownload(
        blobs, request, cached, s.keyOf(request.source, request.url), response.validators);
      r.Ok? ==> Delivers(s, blobs, r.value.downloaded, representation)
  {
    var entry := cached.value;
    EntryIsOfThisUrl(s, scope, request, entry);
    if entry.bodyPath.value in blobs {
      var kind: BlobKind :| entry.bodyPath.value == BlobPath(kind, entry.bodySha256.value);
      BlobIsBody(s, scope, blobs, kind, entry.bodyPath.value, representation);
    }
  }

  /**
   Coherence: in any interleaving, at the moment a download has its answer, the path it will return
   holds the representation the origin had then, whole, with matching digest and size.
   */
  lemma {:induction false} DownloadsAreCoherent(
    s: Setting, scope: Scope, events: seq<Event>, event: Event)
    requires CollisionFree(s.digest, scope.inputs) && KeysApart(s.keyOf, scope.pairs) && event.Answer?
    requires FairRun(s, scope, EMPTY_WORLD, events)
    requires Fair(s, scope, Run(s, EMPTY_WORLD, events), event)
    ensures
      var world := Run(s, EMPTY_WORLD, events);
      var after := Next(s, world, event);
      (event.id in world.downloads && world.downloads[event.id].Asked? && event.id in after.downloads) ==>
        && after.downloads[event.id].Received?
        && Delivers(s, after.blobs, after.downloads[event.id].pending.downloaded, event.representation)
  {
    RunKeeps(s, scope, EMPTY_WORLD, events);
    var world := Run(s, EMPTY_WORLD, events);
    if event.id in world.downloads && world.downloads[event.id].Asked? {
      var p := world.downloads[event.id];
      assert PhaseOk(s, scope, p);
      if event.response.status == NOT_MODIFIED {
        RevalidatedDelivers(s, scope, world.blobs, p.request, p.cached, event.response, event.representation);
      } else if Taken(event.response, s.maxBytes) {
        FetchedDelivers(s, scope, world.blobs, p.request, event.response);
      }
    }
  }

  /** With the keys the code uses: no two of the strings digested collide, and sources hold no NUL. */
  lemma {:induction false} AssetDownloadsAreCoherent(
    digest: Digest, maxBytes: nat, scope: Scope, events: seq<Event>, event: Event)
    requires CollisionFree(digest, scope.inputs) && event.Answer?
    requires forall a, u :: (a, u) in scope.pairs ==> NulFree(a) && KeyPreimage(a, u) in scope.inputs
    requires
      var s := Setting(digest, AssetKeys(digest), maxBytes);
      FairRun(s, scope, EMPTY_WORLD, events) && Fair(s, scope, Run(s, EMPTY_WORLD, events), event)
    ensures
      var s := Setting(digest, AssetKeys(digest), maxBytes);
      var world := Run(s, EMPTY_WORLD, events);
      var after := Next(s, world, event);
      (event.id in world.downloads && world.downloads[event.id].Asked? && event.id in after.downloads) ==>
        && after.downloads[event.id].Received?
        && Delivers(s, after.blobs, after.downloads[event.id].pending.downloaded, event.representation)
  {
    AssetKeysApart(digest, scope.inputs, scope.pairs);
    DownloadsAreCoherent(Setting(digest, AssetKeys(digest), maxBytes), scope, events, event);
  }

  /** Nothing but the loss of the file takes the delivered bytes away again, however the run goes on. */
  lemma {:induction false} DeliveredStays(
    s: Setting, world: World, events: seq<Event>, asset: DownloadedAsset, body: seq<byte>)
    requires Delivers(s, world.blobs, asset, body) && LoseBlob(asset.path) !in events
    ensures Delivers(s, Run(s, world, events).blobs, asset, body)
    decreases |events|
  {
    if events != [] {
      assert events[0] in events;
      DeliveredStays(s, Next(s, world, events[0]), events[1..], asset, body);
    }
  }
}
