/**
 Per-parser ingest keys: the server that mints them, the cache file that remembers them,
 and the call that joins the two.
 */
module IngestKeys {
  import opened Wrappers

  type Source = string
  type Key = nat

  /** `keys` holds the one valid key of a source; `nextKey` was never handed out. */
  datatype Server = Server(registered: set<Source>, keys: map<Source, Key>, nextKey: Key)

  type Cache = map<Source, Key>

  /** What a call sees and changes. */
  datatype World = World(server: Server, cache: Cache)

  predicate Mints(server: Server, source: Source, reset: bool) {
    source !in server.registered || reset || source !in server.keys
  }

  /** The endpoint behind `ensure_source`, always asked to create a key. */
  function EnsureSource(server: Server, source: Source, reset: bool): (Server, Option<Key>) {
    if Mints(server, source, reset) then
      (Server(server.registered + {source}, server.keys[source := server.nextKey], server.nextKey + 1),
       Some(server.nextKey))
    else (server, None)
  }

  /** One whole call of `_ensure_parser_ingest_key`. */
  function Call(w: World, source: Source, reset: bool): (World, Option<Key>) {
    var (server, minted) := EnsureSource(w.server, source, reset);
    var key := if minted.Some? then minted
               else if source in w.cache then Some(w.cache[source]) else None;
    (World(server, if key.Some? then w.cache[source := key.value] else w.cache), key)
  }

  // ---------------------------------------------------------------------------
  // The call as the program makes it
  // ---------------------------------------------------------------------------

  class KeyServer {
    var state: Server

    constructor ()
      ensures state == Server({}, map[], 0)
    {
      state := Server({}, map[], 0);
    }

    /** The endpoint: rotate on request, create when there is no key, else answer nothing. */
    method Ensure(source: Source, createKey: bool, regenerate: bool) returns (key: Option<Key>)
      modifies this
      ensures createKey ==> (state, key) == EnsureSource(old(state), source, regenerate)
      ensures !createKey ==> key.Some? == (source in old(state).registered && regenerate)
      ensures key.Some? ==> state.keys == old(state).keys[source := key.value] && key.value == old(state).nextKey
      ensures key.None? ==> state.keys == old(state).keys
      ensures state.registered == old(state).registered + {source}
      ensures state.nextKey == old(state).nextKey + if key.Some? then 1 else 0
    {
      key := None;
      if source in state.registered {
        if regenerate || (createKey && source !in state.keys) {
          key := Some(state.nextKey);
        }
      } else if createKey {
        key := Some(state.nextKey);
      }
      assert source in state.registered ==> state.registered == state.registered + {source};
      state := state.(registered := state.registered + {source});
      if key.Some? {
        state := state.(keys := state.keys[source := key.value], nextKey := state.nextKey + 1);
      }
    }
  }

  class KeyFile {
    var content: Cache
    /** False on a read-only file system, where saving fails and the failure is ignored. */
    const writable: bool

    constructor (writable: bool)
      ensures content == map[] && this.writable == writable
    {
      content := map[];
      this.writable := writable;
    }

    method GetCachedKey(source: Source) returns (key: Option<Key>)
      ensures key == if source in content then Some(content[source]) else None
    {
      key := if source in content then Some(content[source]) else None;
    }

    /** Load, update one entry, save; without a writable file nothing changes. */
    method CacheKey(source: Source, key: Key)
      modifies this
      ensures content == if writable then old(content)[source := key] else old(content)
    {
      var cache := content;
      cache := cache[source := key];
      if writable {
        content := cache;
      }
    }
  }

  method EnsureParserIngestKey(server: KeyServer, file: KeyFile, source: Source, reset: bool)
    returns (key: Option<Key>)
    modifies server, file
    ensures var (after, k) := Call(old(World(server.state, file.content)), source, reset);
            && key == k && server.state == after.server
            && file.content == if file.writable then after.cache else old(file.content)
  {
    key := server.Ensure(source, true, reset);
    if key.None? {
      key := file.GetCachedKey(source);
    }
    if key.Some? {
      file.CacheKey(source, key.value);
    }
  }

  // ---------------------------------------------------------------------------
  // What one call guarantees
  // ---------------------------------------------------------------------------

  /** The cache knows exactly the server's keys, and the server knows its sources. */
  ghost predicate Synced(w: World) {
    && w.cache == w.server.keys
    && w.server.keys.Keys <= w.server.registered
    && forall s :: s in w.server.keys ==> w.server.keys[s] < w.server.nextKey
  }

  /** From a synced world a call stays synced and returns the server's current key. */
  lemma CallKeepsSynced(w: World, source: Source, reset: bool)
    requires Synced(w)
    ensures var (w', key) := Call(w, source, reset);
            && Synced(w')
            && source in w'.server.keys && key == Some(w'.server.keys[source])
            && (forall s :: s in w.cache && s != source ==> s in w'.cache && w'.cache[s] == w.cache[s])
            && (source in w.server.keys && !reset ==> w' == w)
  {
  }

  /**
   When a call returns a key at all, in any world: exactly when it mints one or has one
   cached. It never rotates to get one.
   */
  lemma CallAnswersIff(w: World, source: Source, reset: bool)
    ensures Call(w, source, reset).1.Some? <==> Mints(w.server, source, reset) || source in w.cache
    ensures Call(w, source, reset).1.None? ==> Call(w, source, reset).0 == w
  {
  }

  /**
   Without `reset` a call replaces an existing key exactly when the source is no longer
   registered with the server although its key still is.
   */
  lemma RotatesWithoutResetIff(w: World, source: Source)
    requires source in w.server.keys && w.server.keys[source] < w.server.nextKey
    ensures Call(w, source, false).0.server.keys[source] != w.server.keys[source]
            <==> source !in w.server.registered
  {
  }
}
