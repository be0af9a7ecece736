/**
 * The proxy's cache engine as the program runs it: the module-level
 * `cache_memory` and the cache directory become the fields of one object,
 * and `handle_client` (proxy.py:64-146) updates them in place. Each method
 * is proved to leave exactly the state, and to produce exactly the origin
 * request and client reply, that the functions of CacheSpec describe.
 */
module ProxyEngine {
  import opened Wrappers
  import opened Utf8
  import opened Recency
  import opened ProxyRequest
  import opened OriginClient
  import opened CacheSpec

  class CacheEngine {
    /** `MAX_CACHE_SIZE` (proxy.py:12). */
    const capacity: nat
    /** `TTL` (proxy.py:18-21), in seconds. */
    const ttl: int
    /** The key order of `cache_memory`, least recently used first. */
    var order: seq<Key>
    /** The values of `cache_memory`. */
    var entries: map<Key, Entry>
    /** The contents of the cache directory, by file name. */
    var files: map<string, Bytes>

    /** The configuration this engine runs with. */
    function Cfg(): Config
      reads this
    {
      Config(capacity, ttl)
    }

    /** The fields as a value of the specification. */
    function State(): Cache
      reads this
    {
      Cache(order, entries, files)
    }

    /**
     * The index is well formed, every entry's file is named after its path,
     * and every file an entry names holds a "200 OK" response.
     */
    ghost predicate Valid()
      reads this
    {
      CacheSpec.Valid(Cfg(), State()) && NamedByPath(State()) && ServesOnlyOk(State())
    }

    /** proxy.py:18-26: an empty index over whatever the cache directory holds at start-up. */
    constructor(ttl: int, files: map<string, Bytes>)
      ensures this.ttl == ttl && capacity == MaxCacheSize
      ensures State() == Empty(files)
      ensures Valid()
    {
      this.capacity := MaxCacheSize;
      this.ttl := ttl;
      this.order := [];
      this.entries := map[];
      this.files := files;
    }

    /**
     * proxy.py:90-146: the GET branch of `handle_client`. `now` is the clock
     * reading of line 91, `t` the one of line 140; `transport` is what the
     * origin delivers.
     */
    method HandleGet(path: Key, now: int, t: int, transport: Option<seq<Bytes>>)
      returns (request: Option<string>, sent: Bytes)
      requires Valid()
      modifies this
      ensures Valid()
      ensures Step(State(), request, sent) == Get(Cfg(), old(State()), path, now, t, OriginReply(transport))
    {
      ghost var c := State();
      GetNamedByPath(Cfg(), c, path, now, t, OriginReply(transport));
      GetServesOnlyOk(Cfg(), c, path, now, t, OriginReply(transport));
      var content: Option<Bytes> := None;
      request := None;
      if path in entries {
        var entry := entries[path];
        var age := now - entry.timestamp;
        if age < ttl {
          content := ServeHit(path);
        }
      }
      if content.None? {
        var req, raw := GetFromOrigin("GET", path, None, transport);
        request := Some(req);
        if raw.Some? && raw.value != [] {
          if IsCacheable(raw.value) {
            SaveToCache(path, raw.value, t);
            MissStores(Cfg(), c, path, now, t, raw.value);
          }
          content := raw;
        }
      }
      sent := if content.Some? then content.value else [];
    }

    /** proxy.py:101-108: move the path to the most recently used end and read its file. */
    method ServeHit(path: Key) returns (content: Option<Bytes>)
      requires Valid() && path in entries
      modifies this
      ensures Valid()
      ensures State() == Touch(Cfg(), old(State()), path)
      ensures content == Some(files[entries[path].filename]) && IsCacheable(content.value)
    {
      ghost var c := State();
      order := MoveToEnd(order, path);
      assert State() == Touch(Cfg(), c, path);
      StoredIgnoresOrder(c, State());
      assert OkAt(State(), path);
      content := Some(files[entries[path].filename]);
    }

    /**
     * proxy.py:125-140: write the response to the path's file, drop the least
     * recently used entry when the index is full, then assign the path its
     * entry with the fetch time `t`.
     */
    method SaveToCache(path: Key, raw: Bytes, t: int)
      requires Valid() && IsCacheable(raw)
      modifies this
      ensures Valid()
      ensures State() == Store(Cfg(), old(State()), path, raw, t)
    {
      ghost var c := State();
      SizeIsOrderLength(c);
      var filename := StorageKey(path);
      files := files[filename := raw];
      if |entries| >= capacity {
        var evicted := order[0];
        order := order[1..];
        entries := entries - {evicted};
      }
      order := Assign(order, path);
      entries := entries[path := Entry(filename, t)];
      StoreIs(Cfg(), c, path, raw, t, State());
      StoreNamedByPath(Cfg(), c, path, raw, t);
      StoreServesOnlyOk(Cfg(), c, path, raw, t);
    }

    /**
     * proxy.py:64-146: one client connection. A first line that is not three
     * tokens gets no answer; another method than GET is forwarded with the
     * body after the first blank line; a GET goes through the cache.
     */
    method HandleClient(data: string, now: int, t: int, transport: Option<seq<Bytes>>)
      returns (request: Option<string>, sent: Bytes)
      requires Valid()
      modifies this
      ensures Valid()
      ensures Step(State(), request, sent) == Handle(Cfg(), old(State()), data, now, t, OriginReply(transport))
    {
      var line := ParseRequestLine(data);
      if line.None? {
        return None, [];
      }
      var verb, path := line.value.verb, line.value.path;
      if verb != "GET" {
        var body := ExtractBody(data);
        var req, response := GetFromOrigin(verb, path, body, transport);
        request := Some(req);
        sent := if response.Some? then response.value else [];
        return;
      }
      request, sent := HandleGet(path, now, t, transport);
    }
  }
}
