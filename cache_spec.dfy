/**
 * The proxy's cache as values: the index `cache_memory` (an `OrderedDict`
 * from request path to file name and fetch time, proxy.py:26) and the
 * cache directory, with the GET step of `handle_client` (proxy.py:90-146) as
 * a function of the state before it. The class in proxy_engine.dfy performs
 * the same step in place and is proved equal to these functions.
 */
module CacheSpec {
  import opened Wrappers
  import opened Utf8
  import opened Recency
  import opened ProxyRequest

  /** proxy.py:12. */
  const MaxCacheSize: nat := 10

  /** proxy.py:18, when no argument is given on the command line. */
  const DefaultTtl: int := 10

  /** A value of `cache_memory`: the cache file of the response and its fetch time. */
  datatype Entry = Entry(filename: string, timestamp: int)

  /**
   * The index (its key order, least recently used first, and its values) and
   * the contents of the cache directory, by file name.
   */
  datatype Cache = Cache(order: seq<Key>, entries: map<Key, Entry>, files: map<string, Bytes>)

  /** The capacity of the index and the time to live of an entry, in seconds. */
  datatype Config = Config(capacity: nat, ttl: int)

  /** The configuration the proxy starts with when no time to live is given. */
  const Standard := Config(MaxCacheSize, DefaultTtl)

  /**
   * What every GET step keeps: the order lists each key of the index once
   * and nothing else, the index stays within capacity, and the file every
   * entry names exists.
   */
  ghost predicate Valid(cfg: Config, c: Cache) {
    && 0 < cfg.capacity
    && Indexed(c)
    && |c.entries| == |c.order| <= cfg.capacity
    && (forall p | p in c.entries :: c.entries[p].filename in c.files)
  }

  /** An entry for `p`, if there is one, names the file `p` maps to. */
  ghost predicate NamedAt(c: Cache, p: Key) {
    p in c.entries ==> c.entries[p].filename == StorageKey(p)
  }

  /** Every entry names the file its path maps to. */
  ghost predicate NamedByPath(c: Cache) {
    forall p :: NamedAt(c, p)
  }

  /** The file an entry for `p` names, if it exists, holds a response that passed the "200 OK" test. */
  ghost predicate OkAt(c: Cache, p: Key) {
    p in c.entries && c.entries[p].filename in c.files ==> IsCacheable(c.files[c.entries[p].filename])
  }

  /** Every file an entry names holds a response that passed the "200 OK" test. */
  ghost predicate ServesOnlyOk(c: Cache) {
    forall p :: OkAt(c, p)
  }

  /** Both invariants speak only of the index's entries and the files, never of the key order. */
  lemma StoredIgnoresOrder(c: Cache, d: Cache)
    requires c.entries == d.entries && c.files == d.files
    ensures NamedByPath(c) ==> NamedByPath(d)
    ensures ServesOnlyOk(c) ==> ServesOnlyOk(d)
  {
    forall p
      ensures NamedAt(c, p) == NamedAt(d, p) && OkAt(c, p) == OkAt(d, p)
    {
    }
  }

  /** The key order lists each key of the index exactly once. */
  ghost predicate Indexed(c: Cache) {
    Distinct(c.order) && forall p :: p in c.entries <==> p in c.order
  }

  /** The state at start-up: an empty index over whatever the cache directory already holds. */
  function Empty(files: map<string, Bytes>): (c: Cache)
    ensures forall cfg: Config :: 0 < cfg.capacity ==> Valid(cfg, c)
  {
    Cache([], map[], files)
  }

  /** The index holds exactly as many entries as its key order lists. */
  lemma SizeIsOrderLength(c: Cache)
    requires Indexed(c)
    ensures |c.entries| == |c.order|
  {
    DistinctCard(c.order);
    assert c.entries.Keys == set x | x in c.order;
  }

  /** proxy.py:99-101: an entry is served only while its age is strictly below the time to live. */
  predicate IsFresh(cfg: Config, c: Cache, path: Key, now: int) {
    path in c.entries && now - c.entries[path].timestamp < cfg.ttl
  }

  /**
   * proxy.py:104: `move_to_end` on a fresh hit: the path goes to the most
   * recently used end, and every entry and file stays as it was.
   */
  function Touch(cfg: Config, c: Cache, path: Key): (r: Cache)
    requires Valid(cfg, c) && path in c.entries
    ensures Valid(cfg, r)
    ensures r.entries == c.entries && r.files == c.files
    ensures r.order[|r.order| - 1] == path && Remove(r.order, path) == Remove(c.order, path)
  {
    var order := MoveToEnd(c.order, path);
    assert forall p :: p in c.entries <==> p in order;
    c.(order := order)
  }

  /**
   * proxy.py:125-140: a cacheable response is written to the path's file;
   * when the index is full its least recently used entry is dropped (its
   * file stays); then the path is assigned its new entry, which keeps the
   * position of a key still present and goes last otherwise.
   */
  function Store(cfg: Config, c: Cache, path: Key, raw: Bytes, t: int): (r: Cache)
    requires Valid(cfg, c)
    ensures path in r.entries && r.entries[path] == Entry(StorageKey(path), t)
    ensures r.files == c.files[StorageKey(path) := raw]
    ensures forall q | q in r.entries && q != path :: q in c.entries && r.entries[q] == c.entries[q]
    ensures forall q | q in c.entries && q != path ::
      q in r.entries <==> |c.order| < cfg.capacity || q != c.order[0]
  {
    var filename := StorageKey(path);
    SizeIsOrderLength(c);
    var full := |c.entries| >= cfg.capacity;
    var order := if full then c.order[1..] else c.order;
    var entries := if full then c.entries - {c.order[0]} else c.entries;
    EvictOnlyFirst(cfg, c, entries);
    Cache(Assign(order, path), entries[path := Entry(filename, t)], c.files[filename := raw])
  }

  /** Dropping the first key when full, and nothing otherwise, keeps every other entry as it was. */
  lemma EvictOnlyFirst(cfg: Config, c: Cache, entries: map<Key, Entry>)
    requires Valid(cfg, c)
    requires entries == if |c.entries| >= cfg.capacity then c.entries - {c.order[0]} else c.entries
    ensures forall q | q in entries :: q in c.entries && entries[q] == c.entries[q]
    ensures forall q | q in c.entries :: q in entries <==> |c.order| < cfg.capacity || q != c.order[0]
  {
    SizeIsOrderLength(c);
  }

  /** A state built by the steps of proxy.py:129-140 is the one `Store` describes, and it is valid. */
  lemma StoreIs(cfg: Config, c: Cache, path: Key, raw: Bytes, t: int, r: Cache)
    requires Valid(cfg, c)
    requires var full := |c.entries| >= cfg.capacity;
      && r.files == c.files[StorageKey(path) := raw]
      && r.order == Assign(if full then c.order[1..] else c.order, path)
      && r.entries == (if full then c.entries - {c.order[0]} else c.entries)[path := Entry(StorageKey(path), t)]
    ensures r == Store(cfg, c, path, raw, t) && Valid(cfg, r)
  {
    StoreKeepsValid(cfg, c, path, raw, t);
  }

  /** Storing keeps the invariant: in particular the index never exceeds its capacity. */
  lemma StoreKeepsValid(cfg: Config, c: Cache, path: Key, raw: Bytes, t: int)
    requires Valid(cfg, c)
    ensures Valid(cfg, Store(cfg, c, path, raw, t))
  {
    StoreIndexed(cfg, c, path, raw, t);
    SizeIsOrderLength(Store(cfg, c, path, raw, t));
    StoreWithinCapacity(cfg, c, path, raw, t);
    StoreFiles(cfg, c, path, raw, t);
  }

  /** After storing, the key order still lists each key of the index once. */
  lemma StoreIndexed(cfg: Config, c: Cache, path: Key, raw: Bytes, t: int)
    requires Valid(cfg, c)
    ensures Indexed(Store(cfg, c, path, raw, t))
  {
    SizeIsOrderLength(c);
    if |c.entries| >= cfg.capacity {
      DistinctTail(c.order);
      forall p ensures p in c.entries - {c.order[0]} <==> p in c.order[1..] {
        assert p in c.order <==> p == c.order[0] || p in c.order[1..];
      }
    }
  }

  /** Eviction makes room before the assignment, so the capacity is never exceeded. */
  lemma StoreWithinCapacity(cfg: Config, c: Cache, path: Key, raw: Bytes, t: int)
    requires Valid(cfg, c)
    ensures |Store(cfg, c, path, raw, t).order| <= cfg.capacity
  {
    SizeIsOrderLength(c);
  }

  /** The file every entry names still exists. */
  lemma StoreFiles(cfg: Config, c: Cache, path: Key, raw: Bytes, t: int)
    requires Valid(cfg, c)
    ensures var r := Store(cfg, c, path, raw, t);
      forall p | p in r.entries :: r.entries[p].filename in r.files
  {
    var r := Store(cfg, c, path, raw, t);
    forall p | p in r.entries
      ensures r.entries[p].filename in r.files
    {
      if p != path {
        assert p in c.entries && r.entries[p] == c.entries[p];
      }
    }
  }

  /** The new entry is named after its path and the others keep their names. */
  lemma StoreNamedByPath(cfg: Config, c: Cache, path: Key, raw: Bytes, t: int)
    requires Valid(cfg, c) && NamedByPath(c)
    ensures NamedByPath(Store(cfg, c, path, raw, t))
  {
    var r := Store(cfg, c, path, raw, t);
    forall p
      ensures NamedAt(r, p)
    {
      if p in r.entries && p != path {
        assert NamedAt(c, p);
        assert p in c.entries && r.entries[p] == c.entries[p];
      }
    }
  }

  /** Only a cacheable response is ever written, so every file an entry names holds one. */
  lemma StoreServesOnlyOk(cfg: Config, c: Cache, path: Key, raw: Bytes, t: int)
    requires Valid(cfg, c) && ServesOnlyOk(c) && IsCacheable(raw)
    ensures ServesOnlyOk(Store(cfg, c, path, raw, t))
  {
    var r := Store(cfg, c, path, raw, t);
    forall p
      ensures OkAt(r, p)
    {
      if p in r.entries && r.entries[p].filename in r.files && p != path {
        assert OkAt(c, p);
        assert p in c.entries && r.entries[p] == c.entries[p];
        if r.entries[p].filename != StorageKey(path) {
          assert r.files[r.entries[p].filename] == c.files[c.entries[p].filename];
        }
      }
    }
  }

  /** The result of one GET: the new state, the request sent to the origin (if any) and the bytes sent to the client. */
  datatype Step = Step(cache: Cache, request: Option<string>, sent: Bytes)

  /**
   * proxy.py:90-146: a fresh entry is served from its file and moved to the
   * back of the order; otherwise the path is fetched from the origin, and a
   * non-empty reply is stored when cacheable and forwarded in any case.
   */
  function Get(cfg: Config, c: Cache, path: Key, now: int, t: int, reply: Option<Bytes>): (s: Step)
    requires Valid(cfg, c)
    ensures Valid(cfg, s.cache)
  {
    if IsFresh(cfg, c, path, now) then
      Step(Touch(cfg, c, path), None, c.files[c.entries[path].filename])
    else
      var request := Some(OriginRequest("GET", path, None));
      if reply.None? || reply.value == [] then
        Step(c, request, [])
      else if IsCacheable(reply.value) then
        StoreKeepsValid(cfg, c, path, reply.value, t);
        Step(Store(cfg, c, path, reply.value, t), request, reply.value)
      else
        Step(c, request, reply.value)
  }

  // ---------------------------------------------------------------------
  // The GET step, case by case

  /**
   * proxy.py:101-108: a fresh hit contacts nobody, sends the stored file,
   * leaves every entry (its own time stamp included) and the directory as
   * they were, and moves the path to the most recently used end while the
   * other keys keep their order.
   */
  lemma FreshHit(cfg: Config, c: Cache, path: Key, now: int, t: int, reply: Option<Bytes>)
    requires Valid(cfg, c) && IsFresh(cfg, c, path, now)
    ensures var s := Get(cfg, c, path, now, t, reply);
      && s.request == None
      && s.sent == c.files[c.entries[path].filename]
      && (NamedAt(c, path) ==> s.sent == c.files[StorageKey(path)])
      && s.cache.entries == c.entries && s.cache.files == c.files
      && s.cache.order[|s.cache.order| - 1] == path
      && |s.cache.order| == |c.order|
      && Remove(s.cache.order, path) == Remove(c.order, path)
  {
  }

  /** proxy.py:101, 116: an entry whose age has reached the time to live is fetched again. */
  lemma ExpiredAtTtl(cfg: Config, c: Cache, path: Key, now: int, t: int, reply: Option<Bytes>)
    requires Valid(cfg, c) && path in c.entries && now - c.entries[path].timestamp >= cfg.ttl
    ensures Get(cfg, c, path, now, t, reply).request == Some(OriginRequest("GET", path, None))
  {
  }

  /** proxy.py:117-119, 145: no reply or an empty one changes nothing and sends nothing. */
  lemma NoReply(cfg: Config, c: Cache, path: Key, now: int, t: int, reply: Option<Bytes>)
    requires Valid(cfg, c) && !IsFresh(cfg, c, path, now)
    requires reply == None || reply == Some([])
    ensures Get(cfg, c, path, now, t, reply).cache == c
    ensures Get(cfg, c, path, now, t, reply).sent == []
  {
  }

  /** proxy.py:123, 142, 145-146: a response without "200 OK" in its header part is forwarded but not cached. */
  lemma NotCacheableIsForwarded(cfg: Config, c: Cache, path: Key, now: int, t: int, raw: Bytes)
    requires Valid(cfg, c) && !IsFresh(cfg, c, path, now)
    requires raw != [] && !IsCacheable(raw)
    ensures Get(cfg, c, path, now, t, Some(raw)).cache == c
    ensures Get(cfg, c, path, now, t, Some(raw)).sent == raw
  {
  }

  /**
   * proxy.py:129-142: a cacheable response is forwarded, written to the
   * path's file, and recorded with the second clock reading `t`.
   */
  lemma CacheableIsStored(cfg: Config, c: Cache, path: Key, now: int, t: int, raw: Bytes)
    requires Valid(cfg, c) && !IsFresh(cfg, c, path, now) && IsCacheable(raw)
    ensures var s := Get(cfg, c, path, now, t, Some(raw));
      && s.sent == raw
      && s.cache.files == c.files[StorageKey(path) := raw]
      && path in s.cache.entries && s.cache.entries[path] == Entry(StorageKey(path), t)
  {
    CacheableIsNonEmpty(raw);
  }

  /** A path that is not fresh, answered with a cacheable response, is stored. */
  lemma MissStores(cfg: Config, c: Cache, path: Key, now: int, t: int, raw: Bytes)
    requires Valid(cfg, c) && !IsFresh(cfg, c, path, now) && IsCacheable(raw)
    ensures Get(cfg, c, path, now, t, Some(raw)).cache == Store(cfg, c, path, raw, t)
  {
    CacheableIsNonEmpty(raw);
  }

  /** proxy.py:97-116: the origin is contacted exactly when the path has no fresh entry, always with a plain GET. */
  lemma FetchesIffStale(cfg: Config, c: Cache, path: Key, now: int, t: int, reply: Option<Bytes>)
    requires Valid(cfg, c)
    ensures Get(cfg, c, path, now, t, reply).request.None? <==> IsFresh(cfg, c, path, now)
    ensures Get(cfg, c, path, now, t, reply).request.Some? ==>
      Get(cfg, c, path, now, t, reply).request == Some(OriginRequest("GET", path, None))
  {
  }

  /**
   * proxy.py:138-140: eviction leaves the file on disk, so no file ever
   * disappears, and the only key a step can add to the index is its own path.
   */
  lemma GetKeepsFiles(cfg: Config, c: Cache, path: Key, now: int, t: int, reply: Option<Bytes>)
    requires Valid(cfg, c)
    ensures c.files.Keys <= Get(cfg, c, path, now, t, reply).cache.files.Keys
    ensures Get(cfg, c, path, now, t, reply).cache.entries.Keys <= c.entries.Keys + {path}
  {
    GetCache(cfg, c, path, now, t, reply);
    if IsFresh(cfg, c, path, now) {
      assert Touch(cfg, c, path).entries == c.entries && Touch(cfg, c, path).files == c.files;
    }
  }

  /** The state after a GET: touched on a fresh hit, stored after a cacheable reply, unchanged otherwise. */
  lemma GetCache(cfg: Config, c: Cache, path: Key, now: int, t: int, reply: Option<Bytes>)
    requires Valid(cfg, c)
    ensures Get(cfg, c, path, now, t, reply).cache ==
      if IsFresh(cfg, c, path, now) then Touch(cfg, c, path)
      else if reply.Some? && reply.value != [] && IsCacheable(reply.value) then Store(cfg, c, path, reply.value, t)
      else c
  {
  }

  /** Every entry keeps naming the file its path maps to. */
  lemma GetNamedByPath(cfg: Config, c: Cache, path: Key, now: int, t: int, reply: Option<Bytes>)
    requires Valid(cfg, c) && NamedByPath(c)
    ensures NamedByPath(Get(cfg, c, path, now, t, reply).cache)
  {
    GetCache(cfg, c, path, now, t, reply);
    if IsFresh(cfg, c, path, now) {
      StoredIgnoresOrder(c, Touch(cfg, c, path));
    } else if reply.Some? && reply.value != [] && IsCacheable(reply.value) {
      StoreNamedByPath(cfg, c, path, reply.value, t);
    }
  }

  /** proxy.py:123-142: the cache never holds a response that failed the "200 OK" test. */
  lemma GetServesOnlyOk(cfg: Config, c: Cache, path: Key, now: int, t: int, reply: Option<Bytes>)
    requires Valid(cfg, c) && ServesOnlyOk(c)
    ensures ServesOnlyOk(Get(cfg, c, path, now, t, reply).cache)
  {
    GetCache(cfg, c, path, now, t, reply);
    if IsFresh(cfg, c, path, now) {
      StoredIgnoresOrder(c, Touch(cfg, c, path));
    } else if reply.Some? && reply.value != [] && IsCacheable(reply.value) {
      StoreServesOnlyOk(cfg, c, path, reply.value, t);
    }
  }

  /** A fresh hit sends only a response that passed the "200 OK" test. */
  lemma HitIsOk(cfg: Config, c: Cache, path: Key, now: int, t: int, reply: Option<Bytes>)
    requires Valid(cfg, c) && ServesOnlyOk(c) && IsFresh(cfg, c, path, now)
    ensures IsCacheable(Get(cfg, c, path, now, t, reply).sent)
  {
    assert OkAt(c, path);
  }

  // ---------------------------------------------------------------------
  // Where the stored path ends up in the order

  /** With room left, a new path goes to the back. */
  lemma StoreNewWithRoom(cfg: Config, c: Cache, path: Key, raw: Bytes, t: int)
    requires Valid(cfg, c) && |c.order| < cfg.capacity && path !in c.order
    ensures Store(cfg, c, path, raw, t).order == c.order + [path]
    ensures Store(cfg, c, path, raw, t).entries.Keys == c.entries.Keys + {path}
  {
    SizeIsOrderLength(c);
  }

  /**
   * With room left, a stale path that is refreshed keeps its position:
   * assigning to an existing key does not move it to the back.
   */
  lemma StaleRefreshKeepsPosition(cfg: Config, c: Cache, path: Key, raw: Bytes, t: int)
    requires Valid(cfg, c) && |c.order| < cfg.capacity && path in c.order
    ensures Store(cfg, c, path, raw, t).order == c.order
  {
    SizeIsOrderLength(c);
  }

  /** When full, the least recently used key is dropped before a new path is added at the back. */
  lemma StoreNewWhenFull(cfg: Config, c: Cache, path: Key, raw: Bytes, t: int)
    requires Valid(cfg, c) && |c.order| == cfg.capacity && path !in c.order
    ensures Store(cfg, c, path, raw, t).order == c.order[1..] + [path]
    ensures c.order[0] !in Store(cfg, c, path, raw, t).entries
    ensures |Store(cfg, c, path, raw, t).entries| == cfg.capacity
  {
    SizeIsOrderLength(c);
    StoreIndexed(cfg, c, path, raw, t);
    var r := Store(cfg, c, path, raw, t);
    DistinctTail(c.order);
    SizeIsOrderLength(r);
  }

  /**
   * When full and the stale path is itself the least recently used key, it
   * is dropped and then added again at the back.
   */
  lemma StoreLruWhenFull(cfg: Config, c: Cache, path: Key, raw: Bytes, t: int)
    requires Valid(cfg, c) && |c.order| == cfg.capacity && path == c.order[0]
    ensures Store(cfg, c, path, raw, t).order == c.order[1..] + [path]
  {
    SizeIsOrderLength(c);
    DistinctTail(c.order);
  }

  /**
   * When full and the stale path sits elsewhere, a different key is evicted
   * and the path keeps its position, so the index shrinks to one below
   * capacity.
   */
  lemma StoreOtherWhenFull(cfg: Config, c: Cache, path: Key, raw: Bytes, t: int)
    requires Valid(cfg, c) && |c.order| == cfg.capacity && path in c.order[1..]
    ensures Store(cfg, c, path, raw, t).order == c.order[1..]
    ensures c.order[0] !in Store(cfg, c, path, raw, t).entries
    ensures |Store(cfg, c, path, raw, t).entries| == cfg.capacity - 1
  {
    SizeIsOrderLength(c);
    StoreIndexed(cfg, c, path, raw, t);
    var r := Store(cfg, c, path, raw, t);
    DistinctTail(c.order);
    SizeIsOrderLength(r);
  }

  // ---------------------------------------------------------------------
  // One client connection

  /**
   * proxy.py:64-146: one client connection. A request whose first line is
   * not exactly three tokens gets no answer; a method other than GET is
   * forwarded with the body found after the first blank line, its reply is
   * passed back, and the cache is not touched; a GET is the step above.
   */
  function Handle(cfg: Config, c: Cache, data: string, now: int, t: int, reply: Option<Bytes>): (s: Step)
    requires Valid(cfg, c)
    ensures Valid(cfg, s.cache)
    ensures ParseRequestLine(data).None? ==> s == Step(c, None, [])
  {
    match ParseRequestLine(data)
    case None => Step(c, None, [])
    case Some(line) =>
      if line.verb != "GET" then
        Step(c, Some(OriginRequest(line.verb, line.path, ExtractBody(data))), if reply.Some? then reply.value else [])
      else
        Get(cfg, c, line.path, now, t, reply)
  }

  /** proxy.py:77-86: a request with another method is forwarded as it came and leaves the cache as it was;
      the reply is passed on, and nothing is sent when the origin gave none. */
  lemma ForwardOnly(cfg: Config, c: Cache, data: string, now: int, t: int, reply: Option<Bytes>)
    requires Valid(cfg, c)
    requires ParseRequestLine(data).Some? && ParseRequestLine(data).value.verb != "GET"
    ensures var line := ParseRequestLine(data).value;
      var s := Handle(cfg, c, data, now, t, reply);
      && s.cache == c
      && s.request == Some(OriginRequest(line.verb, line.path, ExtractBody(data)))
      && s.sent == (if reply.Some? then reply.value else [])
  {
  }

  /** A client connection: the bytes the client sent, the two clock readings, and the origin's reply. */
  datatype Visit = Visit(data: string, now: int, t: int, reply: Option<Bytes>)

  /** The state after serving the connections one after the other. */
  function Run(cfg: Config, c: Cache, visits: seq<Visit>): (r: Cache)
    requires Valid(cfg, c)
    ensures Valid(cfg, r)
    decreases |visits|
  {
    if visits == [] then c
    else
      var v := visits[0];
      Run(cfg, Handle(cfg, c, v.data, v.now, v.t, v.reply).cache, visits[1..])
  }

  /** Any number of requests with methods other than GET leave the cache exactly as it was. */
  lemma {:induction false} ForwardOnlyRun(cfg: Config, c: Cache, visits: seq<Visit>)
    requires Valid(cfg, c)
    requires forall i :: 0 <= i < |visits| ==>
      (ParseRequestLine(visits[i].data).None? || ParseRequestLine(visits[i].data).value.verb != "GET")
    ensures Run(cfg, c, visits) == c
    decreases |visits|
  {
    if visits != [] {
      var v := visits[0];
      assert Handle(cfg, c, v.data, v.now, v.t, v.reply).cache == c;
      assert forall i :: 0 <= i < |visits[1..]| ==> visits[1..][i] == visits[i + 1];
      ForwardOnlyRun(cfg, c, visits[1..]);
    }
  }

  /** Every connection keeps each entry naming its own path's file, holding a response that passed the "200 OK" test. */
  lemma HandleKeepsStored(cfg: Config, c: Cache, data: string, now: int, t: int, reply: Option<Bytes>)
    requires Valid(cfg, c) && NamedByPath(c) && ServesOnlyOk(c)
    ensures NamedByPath(Handle(cfg, c, data, now, t, reply).cache)
    ensures ServesOnlyOk(Handle(cfg, c, data, now, t, reply).cache)
  {
    var line := ParseRequestLine(data);
    if line.Some? && line.value.verb == "GET" {
      GetNamedByPath(cfg, c, line.value.path, now, t, reply);
      GetServesOnlyOk(cfg, c, line.value.path, now, t, reply);
    }
  }

  /** Any sequence of connections keeps both invariants about what the index names. */
  lemma {:induction false} RunKeepsStored(cfg: Config, c: Cache, visits: seq<Visit>)
    requires Valid(cfg, c) && NamedByPath(c) && ServesOnlyOk(c)
    ensures NamedByPath(Run(cfg, c, visits)) && ServesOnlyOk(Run(cfg, c, visits))
    decreases |visits|
  {
    if visits != [] {
      var v := visits[0];
      HandleKeepsStored(cfg, c, v.data, v.now, v.t, v.reply);
      RunKeepsStored(cfg, Handle(cfg, c, v.data, v.now, v.t, v.reply).cache, visits[1..]);
    }
  }

  /**
   * From start-up, whatever connections came before, a fresh hit sends a
   * response that passed the "200 OK" test.
   */
  lemma HitAfterRunIsOk(cfg: Config, files: map<string, Bytes>, visits: seq<Visit>, path: Key, now: int, t: int, reply: Option<Bytes>)
    requires 0 < cfg.capacity
    requires IsFresh(cfg, Run(cfg, Empty(files), visits), path, now)
    ensures IsCacheable(Get(cfg, Run(cfg, Empty(files), visits), path, now, t, reply).sent)
  {
    var c := Run(cfg, Empty(files), visits);
    RunKeepsStored(cfg, Empty(files), visits);
    HitIsOk(cfg, c, path, now, t, reply);
  }

  // ---------------------------------------------------------------------
  // Least recently used eviction over many requests

  /** The last `n` elements of `s`, or all of them if there are fewer. */
  function Last(n: nat, s: seq<Key>): (r: seq<Key>)
    ensures |r| == if |s| < n then |s| else n
  {
    if |s| <= n then s else s[|s| - n..]
  }

  /** The state after a GET of each path in turn, each missing the cache and answered with `raw`. */
  function GetAll(cfg: Config, c: Cache, paths: seq<Key>, now: int, raw: Bytes): (r: Cache)
    requires Valid(cfg, c)
    ensures Valid(cfg, r)
    decreases |paths|
  {
    if paths == [] then c
    else GetAll(cfg, Get(cfg, c, paths[0], now, now, Some(raw)).cache, paths[1..], now, raw)
  }

  /**
   * Fetching distinct new paths, each answered with a cacheable response,
   * leaves exactly the most recent `capacity` of all keys in the index, in
   * the order they were fetched.
   */
  lemma {:induction false} GetAllKeepsLast(cfg: Config, c: Cache, paths: seq<Key>, now: int, raw: Bytes)
    requires Valid(cfg, c) && IsCacheable(raw)
    requires Distinct(c.order + paths)
    ensures GetAll(cfg, c, paths, now, raw).order == Last(cfg.capacity, c.order + paths)
    decreases |paths|
  {
    if paths == [] {
      assert c.order + paths == c.order;
    } else {
      var p := paths[0];
      var o1 := c.order + [p];
      assert c.order + paths == o1 + paths[1..];
      NewKey(c.order, paths);
      var c1 := Get(cfg, c, p, now, now, Some(raw)).cache;
      MissStores(cfg, c, p, now, now, raw);
      StoreAppends(cfg, c, p, raw, now);
      LastDistinct(cfg.capacity, o1, paths[1..]);
      GetAllKeepsLast(cfg, c1, paths[1..], now, raw);
      LastOfLast(cfg.capacity, o1, paths[1..]);
    }
  }

  /** The first of the paths that follow a distinct sequence is not in it. */
  lemma NewKey(a: seq<Key>, b: seq<Key>)
    requires Distinct(a + b) && b != []
    ensures b[0] !in a
  {
    forall i | 0 <= i < |a| ensures a[i] != b[0] {
      assert (a + b)[i] == a[i] && (a + b)[|a|] == b[0];
    }
  }

  /** Storing a path not yet in the index keeps the last `capacity` keys of the order extended by it. */
  lemma StoreAppends(cfg: Config, c: Cache, path: Key, raw: Bytes, t: int)
    requires Valid(cfg, c) && path !in c.order
    ensures Store(cfg, c, path, raw, t).order == Last(cfg.capacity, c.order + [path])
  {
    if |c.order| < cfg.capacity {
      StoreNewWithRoom(cfg, c, path, raw, t);
      assert |c.order + [path]| <= cfg.capacity;
    } else {
      StoreNewWhenFull(cfg, c, path, raw, t);
      LastSnoc(cfg.capacity, c.order, path);
    }
  }

  /** Appending to a sequence of exactly `n` keys and keeping the last `n` drops the first. */
  lemma LastSnoc(n: nat, s: seq<Key>, x: Key)
    requires |s| == n > 0
    ensures Last(n, s + [x]) == s[1..] + [x]
  {
    assert (s + [x])[1..] == s[1..] + [x];
  }

  /** Keeping the last elements of a prefix keeps a sequence whose extension has distinct elements. */
  lemma LastDistinct(n: nat, a: seq<Key>, b: seq<Key>)
    requires Distinct(a + b)
    ensures Distinct(Last(n, a) + b)
  {
    var k := |a| - |Last(n, a)|;
    assert Last(n, a) + b == (a + b)[k..];
    forall i, j | 0 <= i < j < |(a + b)[k..]| ensures (a + b)[k..][i] != (a + b)[k..][j] {
      assert (a + b)[k..][i] == (a + b)[k + i] && (a + b)[k..][j] == (a + b)[k + j];
    }
  }

  /** Taking the last `n` twice, with more appended in between, is taking them once. */
  lemma LastOfLast(n: nat, a: seq<Key>, b: seq<Key>)
    ensures Last(n, Last(n, a) + b) == Last(n, a + b)
  {
    var k := |a| - |Last(n, a)|;
    assert Last(n, a) + b == (a + b)[k..];
  }

  /**
   * Inserting one more distinct successful path than the capacity, with no
   * hit in between, evicts exactly the first one inserted.
   */
  lemma OverflowEvictsFirst(cfg: Config, files: map<string, Bytes>, paths: seq<Key>, now: int, raw: Bytes)
    requires 0 < cfg.capacity && IsCacheable(raw)
    requires Distinct(paths) && |paths| == cfg.capacity + 1
    ensures GetAll(cfg, Empty(files), paths, now, raw).order == paths[1..]
    ensures paths[0] !in GetAll(cfg, Empty(files), paths, now, raw).entries
  {
    assert Empty(files).order + paths == paths;
    GetAllKeepsLast(cfg, Empty(files), paths, now, raw);
    DistinctTail(paths);
  }

  // ---------------------------------------------------------------------
  // Two short histories

  /**
   * With room for two entries: fetch a, fetch b, hit a while fresh, fetch
   * d. The hit moved a out of reach, so b is the one evicted.
   */
  lemma RecencyBump(files: map<string, Bytes>, ok: Bytes, late: Option<Bytes>, a: Key, b: Key, d: Key)
    requires IsCacheable(ok)
    requires a != b && b != d && a != d
    ensures var cfg := Config(2, 10);
      var c1 := Get(cfg, Empty(files), a, 0, 0, Some(ok)).cache;
      var c2 := Get(cfg, c1, b, 1, 1, Some(ok)).cache;
      var c3 := Get(cfg, c2, a, 2, 2, late).cache;
      var c4 := Get(cfg, c3, d, 3, 3, Some(ok)).cache;
      c2.order == [a, b] && c3.order == [b, a] && c4.order == [a, d]
  {
    var cfg := Config(2, 10);
    var c1 := Get(cfg, Empty(files), a, 0, 0, Some(ok)).cache;
    var c2 := Get(cfg, c1, b, 1, 1, Some(ok)).cache;
    FetchTwo(cfg, files, ok, a, b);
    HitThenFetch(cfg, c2, ok, late, a, b, d);
  }

  /** The last two steps of RecencyBump: the hit on a moves it behind b, so fetching d evicts b. */
  lemma HitThenFetch(cfg: Config, c2: Cache, ok: Bytes, late: Option<Bytes>, a: Key, b: Key, d: Key)
    requires cfg == Config(2, 10) && Valid(cfg, c2) && IsCacheable(ok)
    requires a != b && b != d && a != d
    requires c2.order == [a, b] && IsFresh(cfg, c2, a, 2)
    ensures var c3 := Get(cfg, c2, a, 2, 2, late).cache;
      c3.order == [b, a] && Get(cfg, c3, d, 3, 3, Some(ok)).cache.order == [a, d]
  {
    HitSwaps(cfg, c2, a, b, 2, 2, late);
    var c3 := Get(cfg, c2, a, 2, 2, late).cache;
    FetchIntoFullPair(cfg, c3, b, a, d, 3, ok);
  }

  /** A fresh hit on the first of two keys puts it behind the second. */
  lemma HitSwaps(cfg: Config, c: Cache, a: Key, b: Key, now: int, t: int, reply: Option<Bytes>)
    requires Valid(cfg, c) && c.order == [a, b] && IsFresh(cfg, c, a, now)
    ensures Get(cfg, c, a, now, t, reply).cache.order == [b, a]
  {
    FreshHit(cfg, c, a, now, t, reply);
    assert Remove([a, b], a) == [b];
    TwoKeys(Get(cfg, c, a, now, t, reply).cache.order, a, b);
  }

  /** Fetching a new path into a full index of two keys keeps the second and adds the path. */
  lemma FetchIntoFullPair(cfg: Config, c: Cache, x: Key, y: Key, d: Key, now: int, ok: Bytes)
    requires Valid(cfg, c) && cfg.capacity == 2 && c.order == [x, y] && IsCacheable(ok)
    requires d != x && d != y
    ensures Get(cfg, c, d, now, now, Some(ok)).cache.order == [y, d]
  {
    MissStores(cfg, c, d, now, now, ok);
    StoreNewWhenFull(cfg, c, d, ok, now);
    assert [x, y][1..] == [y];
  }

  /** The first two fetches of RecencyBump: both paths are stored, in that order. */
  lemma FetchTwo(cfg: Config, files: map<string, Bytes>, ok: Bytes, a: Key, b: Key)
    requires cfg == Config(2, 10) && IsCacheable(ok) && a != b
    ensures var c1 := Get(cfg, Empty(files), a, 0, 0, Some(ok)).cache;
      var c2 := Get(cfg, c1, b, 1, 1, Some(ok)).cache;
      c2.order == [a, b] && a in c2.entries && c2.entries[a].timestamp == 0
  {
    var c0 := Empty(files);
    FetchIntoRoom(cfg, c0, a, 0, 0, ok);
    var c1 := Get(cfg, c0, a, 0, 0, Some(ok)).cache;
    FetchIntoRoom(cfg, c1, b, 1, 1, ok);
  }

  /**
   * Fetching a new path while there is room adds it at the back with the
   * fetch time and leaves every other entry as it was.
   */
  lemma FetchIntoRoom(cfg: Config, c: Cache, path: Key, now: int, t: int, ok: Bytes)
    requires Valid(cfg, c) && |c.order| < cfg.capacity && path !in c.order && IsCacheable(ok)
    ensures var r := Get(cfg, c, path, now, t, Some(ok)).cache;
      && r.order == c.order + [path]
      && path in r.entries && r.entries[path].timestamp == t
      && forall q | q in c.entries :: q in r.entries && r.entries[q] == c.entries[q]
  {
    MissStores(cfg, c, path, now, t, ok);
    StoreNewWithRoom(cfg, c, path, ok, t);
  }

  /** Two keys, the first one removed leaves the second, the first is last: the order is settled. */
  lemma TwoKeys(s: seq<Key>, a: Key, b: Key)
    requires |s| == 2 && s[1] == a && Remove(s, a) == [b]
    ensures s == [b, a]
  {
    assert b in Remove(s, a);
    assert s == [s[0], s[1]];
  }

  /**
   * Paths that map to one file overwrite each other's response: once q is
   * cached, a fresh hit on p serves the response of q. StorageKeyCollision
   * names such a pair.
   */
  lemma SharedFileServesOther(cfg: Config, files: map<string, Bytes>, p: Key, q: Key, raw1: Bytes, raw2: Bytes, now: int)
    requires 2 <= cfg.capacity && 0 < cfg.ttl
    requires p != q && StorageKey(p) == StorageKey(q)
    requires IsCacheable(raw1) && IsCacheable(raw2)
    ensures var c1 := Get(cfg, Empty(files), p, now, now, Some(raw1)).cache;
      var c2 := Get(cfg, c1, q, now, now, Some(raw2)).cache;
      var s := Get(cfg, c2, p, now, now, None);
      s.request == None && s.sent == raw2
  {
    var c0 := Empty(files);
    var c1 := Get(cfg, c0, p, now, now, Some(raw1)).cache;
    MissStores(cfg, c0, p, now, now, raw1);
    StoreNewWithRoom(cfg, c0, p, raw1, now);
    var c2 := Get(cfg, c1, q, now, now, Some(raw2)).cache;
    MissStores(cfg, c1, q, now, now, raw2);
    StoreNewWithRoom(cfg, c1, q, raw2, now);
    assert c2.entries[p] == c1.entries[p] == Entry(StorageKey(p), now);
    assert IsFresh(cfg, c2, p, now);
    FreshHit(cfg, c2, p, now, now, None);
  }
}
