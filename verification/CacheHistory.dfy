/** Which answer each row of the cache goes back to, over every run of downloads. */
module CacheHistory {
  import opened CacheRuns
  import opened DownloadResults
  import opened Downloads

  datatype Fetch = Fetch(request: Request, response: Response)

  /** The fetches not yet persisted, by download, and the fetch persisted last under each key. */
  datatype Memory = Memory(open: map<nat, Fetch>, last: map<string, Fetch>)

  /** The answer is taken as the new content of its URL. */
  predicate IsFetch(response: Response, maxBytes: nat, diskFull: bool) {
    && 200 <= response.status <= 299 && !diskFull
    && (response.contentLength.Some? ==> response.contentLength.value <= maxBytes)
    && |Concat(response.chunks)| <= maxBytes
  }

  function KeyOf(s: Setting, fetch: Fetch): string {
    s.keyOf(fetch.request.source, fetch.request.url)
  }

  function Remember(s: Setting, world: World, event: Event, m: Memory): Memory {
    match event
    case Answer(id, response, _, diskFull) =>
      if id !in world.downloads || !world.downloads[id].Asked? then m
      else if IsFetch(response, s.maxBytes, diskFull) then
        m.(open := m.open[id := Fetch(world.downloads[id].request, response)])
      else m.(open := m.open - {id})
    case Persist(id) =>
      if id in m.open then Memory(m.open - {id}, m.last[KeyOf(s, m.open[id]) := m.open[id]]) else m
    case Abandon(id) => m.(open := m.open - {id})
    case _ => m
  }

  function MemoryOf(s: Setting, world: World, events: seq<Event>, m: Memory): Memory
    decreases |events|
  {
    if events == [] then m
    else MemoryOf(s, Next(s, world, events[0]), events[1..], Remember(s, world, events[0], m))
  }

  /** The download under way holds this fetch, or a revalidation, which writes no row. */
  ghost predicate HoldsFetch(s: Setting, world: World, m: Memory, id: nat) {
    if id in m.open then
      var fetch := m.open[id];
      && id in world.downloads && world.downloads[id].Received?
      && world.downloads[id].pending == FetchedDownload(
           fetch.request, KeyOf(s, fetch), fetch.response, StoredFor(s.digest, fetch.request, Concat(fetch.response.chunks)))
    else id in world.downloads && world.downloads[id].Received? ==> world.downloads[id].pending.cacheEntry.None?
  }

  /** There is a row under the key exactly when its last fetch may be kept, and it says what that said. */
  ghost predicate RowIsLast(s: Setting, rows: Rows, m: Memory, key: string) {
    && (key in m.last ==> KeyOf(s, m.last[key]) == key)
    && (key in rows <==> key in m.last && MayKeep(m.last[key].request, m.last[key].response))
    && (key in rows ==>
          var fetch := m.last[key];
          IsRowOf(rows[key], s.digest, key, fetch.request, fetch.response, Concat(fetch.response.chunks)))
  }

  ghost predicate Remembers(s: Setting, world: World, m: Memory) {
    && (forall id: nat :: HoldsFetch(s, world, m, id))
    && (forall key: string :: RowIsLast(s, world.rows, m, key))
  }

  lemma {:induction false} AnswerRemembered(s: Setting, world: World, event: Event, m: Memory)
    requires event.Answer? && Remembers(s, world, m)
    ensures Remembers(s, Next(s, world, event), Remember(s, world, event, m))
  {
    var world', m' := Next(s, world, event), Remember(s, world, event, m);
    forall id: nat ensures HoldsFetch(s, world', m', id) {
      assert HoldsFetch(s, world, m, id);
    }
    forall key: string ensures RowIsLast(s, world'.rows, m', key) {
      assert RowIsLast(s, world.rows, m, key);
    }
  }

  lemma {:induction false} RowWritten(s: Setting, rows: Rows, m: Memory, id: nat, key: string)
    requires id in m.open && RowIsLast(s, rows, m, key)
    ensures
      var fetch := m.open[id];
      var pending := FetchedDownload(
        fetch.request, KeyOf(s, fetch), fetch.response, StoredFor(s.digest, fetch.request, Concat(fetch.response.chunks)));
      RowIsLast(s, PersistedRows(rows, pending), Memory(m.open - {id}, m.last[KeyOf(s, fetch) := fetch]), key)
  {
    var fetch := m.open[id];
    var body := Concat(fetch.response.chunks);
    FetchedIs(rows, s.digest, KeyOf(s, fetch), fetch.request, fetch.response, body, key);
  }

  lemma {:induction false} PersistRemembered(s: Setting, world: World, event: Event, m: Memory)
    requires event.Persist? && Remembers(s, world, m)
    ensures Remembers(s, Next(s, world, event), Remember(s, world, event, m))
  {
    var world', m' := Next(s, world, event), Remember(s, world, event, m);
    forall id: nat ensures HoldsFetch(s, world', m', id) {
      assert HoldsFetch(s, world, m, id);
    }
    assert HoldsFetch(s, world, m, event.id);
    forall key: string ensures RowIsLast(s, world'.rows, m', key) {
      assert RowIsLast(s, world.rows, m, key);
      if event.id in m.open {
        RowWritten(s, world.rows, m, event.id, key);
      }
    }
  }

  lemma {:induction false} OtherRemembered(s: Setting, world: World, event: Event, m: Memory)
    requires !event.Answer? && !event.Persist? && Remembers(s, world, m)
    ensures Remembers(s, Next(s, world, event), Remember(s, world, event, m))
  {
    var world', m' := Next(s, world, event), Remember(s, world, event, m);
    forall id: nat ensures HoldsFetch(s, world', m', id) {
      assert HoldsFetch(s, world, m, id);
    }
    forall key: string ensures RowIsLast(s, world'.rows, m', key) {
      assert RowIsLast(s, world.rows, m, key);
    }
  }

  lemma {:induction false} RunRemembered(s: Setting, world: World, events: seq<Event>, m: Memory)
    requires Remembers(s, world, m)
    ensures Remembers(s, Run(s, world, events), MemoryOf(s, world, events, m))
    decreases |events|
  {
    if events != [] {
      if events[0].Answer? {
        AnswerRemembered(s, world, events[0], m);
      } else if events[0].Persist? {
        PersistRemembered(s, world, events[0], m);
      } else {
        OtherRemembered(s, world, events[0], m);
      }
      RunRemembered(s, Next(s, world, events[0]), events[1..], Remember(s, world, events[0], m));
    }
  }

  /**
   After any run, whatever the origin answers, there is a row under a key exactly when the fetch
   persisted last under it may be kept: its request respected headers and its `Cache-Control` named
   neither `no-store` nor `private`.  The row says what that answer said.
   */
  lemma {:induction false} RowsAreLastFetches(s: Setting, events: seq<Event>, key: string)
    ensures
      var world, m := Run(s, EMPTY_WORLD, events), MemoryOf(s, EMPTY_WORLD, events, Memory(map[], map[]));
      RowIsLast(s, world.rows, m, key)
  {
    RunRemembered(s, EMPTY_WORLD, events, Memory(map[], map[]));
  }
}
