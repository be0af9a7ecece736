# http-web-cache-proxy in Dafny

This project models a small forward HTTP caching proxy and the origin server
it fronts, and proves properties of the model.

The proxy (`proxy.py`) reads one request per connection and splits off its
first line. A method other than GET is forwarded to the origin as it came.
A GET is served from a bounded, time-limited cache. The cache has two parts:
- an `OrderedDict` index in recency order, from path to file name and fetch time;
- a directory of stored responses.

The cache behaves as follows:
- A fresh entry is served from its file and moved to the most recently used end.
- A stale entry or a missing path is fetched from the origin.
- A reply whose header part contains `200 OK` is written to the path's file and
  recorded in the index. When the index is full, its least recently used
  entry is dropped first.

The origin server (`server.py`) parses the request line, the header fields
and the body. It dispatches GET, HEAD, POST and PUT to their handlers and
answers everything else with 405. Every response is serialised by
`send_http_response`.

## Layout

| file | module | what it holds |
|---|---|---|
| `wrappers.dfy` | `Wrappers` | `Option` |
| `seqs.dfy` | `Seqs` | `find`, `in`, `split(sep)`, `split(sep, 1)` and `join` on sequences |
| `pystr.dfy` | `PyStr` | `split()`, `strip`, `lstrip`, `replace`, `lower`, `str(int)` and `int()` on strings |
| `utf8.dfy` | `Utf8` | UTF-8 encoding of text |
| `http_text.dfy` | `HttpText` | line end and blank line |
| `recency.dfy` | `Recency` | the key order of an `OrderedDict`: `move_to_end`, `popitem(last=False)`, assignment |
| `proxy_request.dfy` | `ProxyRequest` | the proxy's string handling: request line, body, origin request, cache file name, success test |
| `origin_client.dfy` | `OriginClient` | `get_from_origin` and its receive loop |
| `cache_spec.dfy` | `CacheSpec` | the cache as a value: `Get`, `Store`, `Handle`, and their invariants |
| `proxy_engine.dfy` | `ProxyEngine` | class `CacheEngine`, which performs `handle_client` in place and is proved against `CacheSpec` |
| `http_response.dfy` | `HttpResponse` | `send_http_response`, error pages, the 405 page |
| `server_paths.dfy` | `ServerPaths` | `resolve_file_path`, `basename`, content type |
| `server_request.dfy` | `ServerRequest` | request parsing and the header loop |
| `origin_server.dfy` | `OriginServer` | the handlers, dispatch, and class `Server` |
| `end_to_end.dfy` | `EndToEnd` | the proxy's requests as the server reads them, and the server's answers as the proxy judges them |

## How the state is modelled

The proxy's global `cache_memory` and its cache directory are the fields of
class `ProxyEngine.CacheEngine`:
- `order`: the key order of the `OrderedDict`;
- `entries`: path to file name and time stamp;
- `files`: file name to bytes.

Each method of the class performs the source's steps in place. Its
postcondition ties the new state to a function of `CacheSpec` applied to the
old state. The invariants are proved about those functions:
- the index never exceeds its capacity;
- every key is listed once in the order;
- every indexed file exists, is named after its path, and passed the success test.

The class's own invariant `Valid()` holds all three, so every method of the
engine keeps them.

The origin server's document root is a map from names, relative to
`SERVER_DIR`, to a file text, an unreadable file, or a directory. A file
holds its text as written; a GET or HEAD serves it as `read()` returns it
in text mode, with "\r\n" and lone "\r" turned into "\n" (`ReadBack`).
`post_data.txt` is a string. Class `OriginServer.Server` updates both in
place, and its methods are proved equal to the functions `Process`,
`Respond`, `GetPage`, `HeadPage`, `PostEffect` and `PutEffect`.

Parameters stand in for the outside world:
- Clock readings are integers: `now` is proxy.py:91 and `t` is proxy.py:140.
- The origin's reply is what the transport delivers: `None` when the
  connection fails, otherwise the chunks `recv` returns.
- `outcome` says how the server's file write goes: it succeeds
  (`Written`), the file cannot be opened (`NotOpened`), or writing stops
  after some characters (`Cut`). A cut write is not undone.

## Behaviour worth knowing

- **Stale refresh keeps its position.** Refreshing a stale path assigns to a
  key that already exists in the `OrderedDict` (proxy.py:140). That keeps the
  key's position, so the entry does not move to the most recently used end.
  See `CacheSpec.StaleRefreshKeepsPosition`.
- **Eviction runs before the check for an existing key.** The eviction test
  at proxy.py:133 runs whether or not the path is already indexed. With a
  full index, a stale refresh evicts the least recently used entry:
  - if that entry is the path itself, the path is dropped and re-added at
    the end (`CacheSpec.StoreLruWhenFull`);
  - otherwise another entry is dropped and the index shrinks to one below
    capacity (`CacheSpec.StoreOtherWhenFull`).
- **The success test is a substring search.** proxy.py:123 looks for
  `200 OK` anywhere in the header part, not in the status code. A response
  with any status and a header field whose value is `200 OK` is cached
  (`ProxyRequest.OkHeaderValueIsCacheable`).
- **The forwarded body can be cut short.** proxy.py:80 forwards only the text
  between the first and the second blank line (`ProxyRequest.ExtractBodyCut`).
- **An entry expires when its age reaches the time to live** (proxy.py:101
  uses `<`; see `CacheSpec.ExpiredAtTtl`). A fresh hit does not refresh the
  time stamp.
- **Distinct paths can share one cache file.** `/a/b` and `/a_b`, and also
  `/` and `/index.html`, map to the same file (proxy.py:125). A fresh hit on
  one path can then serve the other path's response
  (`ProxyRequest.StorageKeyCollision`, `CacheSpec.SharedFileServesOther`).
- **GET serves a file as text mode reads it.** server.py:76-77 opens the
  file with `'r'`, so a file written with "\r\n" line ends is served with
  "\n" (`OriginServer.PutThenGet`, `OriginServer.ReadBackOfLineEnds`).
- **A write that fails part-way is not undone.** `open(..., 'w')` empties
  the file before the write, and an append may stop part-way; the 500 answer
  leaves what was written (`OriginServer.CutWriteKeepsPrefix`).

## Model

| member | source | states |
|---|---|---|
| Seqs.Find | http-web-cache-proxy/proxy.py:123 | the result is the leftmost position where the pattern occurs, or none when it occurs nowhere |
| Seqs.Contains | http-web-cache-proxy/server.py:60 | `sep in s` holds exactly when `sep` occurs at some position |
| Seqs.Split | http-web-cache-proxy/proxy.py:71 | `split(sep)` gives at least one piece; the pieces joined by `sep` give the input back; no piece holds `sep`; there are two or more pieces exactly when the input holds `sep` |
| Seqs.SplitCutsLeftmost | http-web-cache-proxy/proxy.py:71 | every cut is at the leftmost occurrence: no piece but the last, followed by all of `sep` but its final element, holds `sep` |
| Seqs.SplitOnce | http-web-cache-proxy/server.py:178 | `split(sep, 1)` gives one or two pieces that join back to the input; there are two exactly when `sep` occurs; the first piece ends at the first occurrence |
| Seqs.SplitJoin | http-web-cache-proxy/proxy.py:71 | splitting what `join` built gives the parts back when no part holds the separator's first character |
| Seqs.SplitAppend | http-web-cache-proxy/proxy.py:71 | splitting joined parts followed by the separator and a tail gives the parts, then the tail's pieces |
| PyStr.Words | http-web-cache-proxy/proxy.py:72 | `split()` yields only non-empty words without whitespace |
| PyStr.WordsOfJoin | http-web-cache-proxy/proxy.py:72 | words joined by single spaces split back into the same words |
| PyStr.WordsCons | http-web-cache-proxy/proxy.py:72 | a word followed by whitespace or nothing is the first word of the split |
| PyStr.WordsAfterSpace | http-web-cache-proxy/proxy.py:72 | a leading whitespace character of any kind does not change the words |
| PyStr.WordsEmptyIffBlank | http-web-cache-proxy/proxy.py:72 | `split()` gives no words exactly when the text is empty or all whitespace |
| PyStr.DropTrailingSpaces | http-web-cache-proxy/server.py:193 | `rstrip()`, as `int()` applies it to its argument, is the longest prefix that does not end in whitespace, and only whitespace was removed |
| PyStr.LStrip | http-web-cache-proxy/server.py:59 | `lstrip(c)` is a suffix of the input; only `c` was removed; the result does not start with `c` |
| PyStr.RStrip | http-web-cache-proxy/proxy.py:125 | `rstrip(c)` is a prefix of the input; only `c` was removed; the result does not end with `c` |
| PyStr.Strip | http-web-cache-proxy/proxy.py:125 | `strip(c)` neither starts nor ends with `c`, and it is empty exactly when the input is all `c` |
| PyStr.StripIsInfix | http-web-cache-proxy/proxy.py:125 | `strip(c)` is a stretch of the input with only `c` before it and only `c` after it |
| PyStr.Replace | http-web-cache-proxy/proxy.py:125 | `replace(a, b)` keeps the length and swaps exactly the positions that held `a` |
| PyStr.ReplaceAbsent | http-web-cache-proxy/proxy.py:125 | replacing a character that does not occur changes nothing |
| PyStr.Lower | http-web-cache-proxy/server.py:186 | `lower()` on ASCII: each capital A to Z becomes its small letter and every other character is kept |
| PyStr.Decimal | http-web-cache-proxy/server.py:20 | `str(n)` is a non-empty string of digits with no leading zero except for 0 |
| PyStr.DecimalRoundTrip | http-web-cache-proxy/server.py:193 | reading back the digits `str(n)` writes gives `n` |
| Utf8.EncodeChar | http-web-cache-proxy/server.py:33 | a character encodes to one to four bytes; it encodes to one byte, its own code, exactly when it is ASCII; otherwise every byte is at least 0x80 |
| Utf8.Encode | http-web-cache-proxy/server.py:20 | the encoding is at least as long as the text, and exactly as long when the text is ASCII |
| Utf8.EncodeAppend | http-web-cache-proxy/server.py:33 | encoding a concatenation concatenates the encodings |
| Utf8.EncodeAscii | http-web-cache-proxy/server.py:20 | an ASCII text encodes to its own character codes |
| Utf8.EncodeOmits | http-web-cache-proxy/proxy.py:121 | a text without an ASCII character encodes to bytes without that character's code |
| Recency.Remove | http-web-cache-proxy/proxy.py:135 | removing a key keeps every other key in order; it shortens a distinct order by one when the key was present and changes nothing otherwise |
| Recency.RemoveAt | http-web-cache-proxy/proxy.py:135 | in a distinct order, removing the key at a position cuts out exactly that position |
| Recency.MoveToEnd | http-web-cache-proxy/proxy.py:104 | `move_to_end` keeps the same keys and distinctness, puts the key last, and leaves the relative order of the others unchanged |
| Recency.Assign | http-web-cache-proxy/proxy.py:140 | assigning to an `OrderedDict` key leaves the order alone when the key is present and appends it otherwise |
| Recency.DistinctCard | http-web-cache-proxy/proxy.py:133 | a distinct order has as many keys as its set of keys, so `len` of the dict is the order's length |
| ProxyRequest.ParseRequestLine | http-web-cache-proxy/proxy.py:71-74 | an accepted request line gives a method, a path and a version, each non-empty and without whitespace |
| ProxyRequest.ParseRequestLineOf | http-web-cache-proxy/proxy.py:71-74 | a first line of three tokens parses into exactly those tokens, whatever follows it |
| ProxyRequest.RequestLineWords | http-web-cache-proxy/proxy.py:72 | three tokens joined by spaces split back into the three tokens |
| ProxyRequest.ExtractBody | http-web-cache-proxy/proxy.py:80 | the body is absent exactly when the request has no blank line, and it never contains a blank line |
| ProxyRequest.ExtractBodyOf | http-web-cache-proxy/proxy.py:80 | what follows the first blank line comes back as the body when it holds no blank line itself |
| ProxyRequest.ExtractBodyCut | http-web-cache-proxy/proxy.py:80 | a body followed by a further blank line is cut there, and what follows is not forwarded |
| ProxyRequest.StorageKey | http-web-cache-proxy/proxy.py:125 | the cache file name of a path is never empty and never contains a slash |
| ProxyRequest.StorageKeyCollision | http-web-cache-proxy/proxy.py:125 | `/a/b` and `/a_b` get the same file name `a_b` |
| ProxyRequest.StorageKeyOfRoot | http-web-cache-proxy/proxy.py:125 | `/` and `/index.html` both get the file name `index.html` |
| ProxyRequest.StorageKeyInjective | http-web-cache-proxy/proxy.py:125 | distinct paths without underscores and without slashes at the ends get distinct file names |
| ProxyRequest.HeaderPart | http-web-cache-proxy/proxy.py:121 | the header part is the prefix of the response before its first blank line, or the whole response when there is none |
| ProxyRequest.CacheableIff | http-web-cache-proxy/proxy.py:121-123 | a response passes the success test exactly when `200 OK` occurs in it before any blank line |
| ProxyRequest.CacheableIsNonEmpty | http-web-cache-proxy/proxy.py:123 | a response that passes the success test is at least as long as `200 OK` |
| ProxyRequest.OkOnSecondLine | http-web-cache-proxy/proxy.py:121-123 | `200 OK` on the second line passes the test whatever the status line says |
| ProxyRequest.OkHeaderValueIsCacheable | http-web-cache-proxy/proxy.py:121-123 | a header field whose value is `200 OK` makes any response pass the test, a 404 included |
| ProxyRequest.EncodeOkAfter | http-web-cache-proxy/proxy.py:121-123 | text with `200 OK` inside encodes to the encoded text around it with the bytes of `200 OK` between |
| OriginClient.FirstEmpty | http-web-cache-proxy/proxy.py:55 | the index of the first empty chunk, or the number of chunks when none is empty: all chunks before it are non-empty |
| OriginClient.ReceiveAll | http-web-cache-proxy/proxy.py:52-56 | the loop returns the concatenation of the chunks received before the first empty one |
| OriginClient.GetFromOrigin | http-web-cache-proxy/proxy.py:28-62 | the request sent is the method, path, `Host` and `Connection: close` lines plus the body; the result is the received bytes, or none when the connection fails |
| OriginClient.Chunks | http-web-cache-proxy/proxy.py:54 | a byte stream as successive reads return it, each piece non-empty and at most the read size |
| OriginClient.ReceiveChunks | http-web-cache-proxy/proxy.py:52-59 | whatever the origin sends, read in pieces of at most 4096 bytes and closed by an empty read, comes back whole |
| CacheSpec.Empty | http-web-cache-proxy/proxy.py:20-26 | the start-up state, an empty index over the existing directory, meets the cache invariant for any positive capacity |
| CacheSpec.SizeIsOrderLength | http-web-cache-proxy/proxy.py:133 | in a valid state, the number of entries is the length of the key order |
| CacheSpec.Touch | http-web-cache-proxy/proxy.py:104 | a fresh hit keeps the invariant and every entry and file; it makes the path most recently used and keeps the order of the other keys |
| CacheSpec.Store | http-web-cache-proxy/proxy.py:125-140 | after storing, the path's entry names its file with fetch time `t` and that file holds the response; no other file changes; every other entry is kept unchanged, except that a full index loses its least recently used key |
| CacheSpec.StoreKeepsValid | http-web-cache-proxy/proxy.py:133-140 | storing keeps the cache invariant |
| CacheSpec.StoreIndexed | http-web-cache-proxy/proxy.py:133-140 | after storing, the order lists each indexed key exactly once |
| CacheSpec.StoreWithinCapacity | http-web-cache-proxy/proxy.py:133-140 | the index never exceeds its capacity, because eviction happens before assignment |
| CacheSpec.StoreFiles | http-web-cache-proxy/proxy.py:129-140 | every file an entry names still exists, since eviction leaves files on disk |
| CacheSpec.StoreNamedByPath | http-web-cache-proxy/proxy.py:125-140 | every entry's file is the storage key of its own path |
| CacheSpec.StoreServesOnlyOk | http-web-cache-proxy/proxy.py:123-140 | every file an entry names holds a response that passed the success test |
| CacheSpec.StoreIs | http-web-cache-proxy/proxy.py:129-140 | the state built by writing the file, evicting and assigning, step by step, is the one `Store` describes, and it is valid |
| CacheSpec.Get | http-web-cache-proxy/proxy.py:90-146 | a GET keeps the cache invariant |
| CacheSpec.FreshHit | http-web-cache-proxy/proxy.py:101-108 | a fresh hit contacts nobody, sends the stored file (the file of the path's storage key), keeps entries, time stamps and files, and makes the path most recently used without reordering the rest |
| CacheSpec.ExpiredAtTtl | http-web-cache-proxy/proxy.py:99-117 | an entry whose age has reached the time to live is fetched again with a plain GET |
| CacheSpec.FetchesIffStale | http-web-cache-proxy/proxy.py:96-117 | the origin is contacted exactly when the path has no fresh entry, and always with a GET without body |
| CacheSpec.NoReply | http-web-cache-proxy/proxy.py:117-119 | no reply, or an empty one, changes nothing and sends nothing |
| CacheSpec.NotCacheableIsForwarded | http-web-cache-proxy/proxy.py:119-146 | a reply that fails the success test is sent to the client, and the cache is left unchanged |
| CacheSpec.CacheableIsStored | http-web-cache-proxy/proxy.py:119-146 | a cacheable reply is sent, written to the path's file and recorded with time `t` |
| CacheSpec.GetKeepsFiles | http-web-cache-proxy/proxy.py:133-140 | no file ever disappears, and the only key a GET can add is its own path |
| CacheSpec.GetNamedByPath | http-web-cache-proxy/proxy.py:125-140 | after any GET, every entry still names the file of its own path |
| CacheSpec.GetServesOnlyOk | http-web-cache-proxy/proxy.py:121-140 | after any GET, the cache holds only responses that passed the success test |
| CacheSpec.HitIsOk | http-web-cache-proxy/proxy.py:101-108 | a fresh hit sends only a response that passed the success test |
| CacheSpec.StoreNewWithRoom | http-web-cache-proxy/proxy.py:133-140 | with room, a new path is appended to the order and its key added to the index |
| CacheSpec.StaleRefreshKeepsPosition | http-web-cache-proxy/proxy.py:140 | with room, refreshing a path already indexed leaves the order as it was |
| CacheSpec.StoreNewWhenFull | http-web-cache-proxy/proxy.py:133-140 | when full, a new path drops the least recently used key, is added last, and the size stays at capacity |
| CacheSpec.StoreLruWhenFull | http-web-cache-proxy/proxy.py:133-140 | when full and the refreshed path is itself least recently used, it is dropped and appended again |
| CacheSpec.StoreOtherWhenFull | http-web-cache-proxy/proxy.py:133-140 | when full and the refreshed path is elsewhere, the least recently used key is evicted, the path keeps its place, and the size falls to one below capacity |
| CacheSpec.Handle | http-web-cache-proxy/proxy.py:64-146 | a connection keeps the invariant, and a request line that is not three tokens gets no answer and changes nothing |
| CacheSpec.HandleKeepsStored | http-web-cache-proxy/proxy.py:64-146 | a connection keeps every entry named after its path and every stored response one that passed the success test |
| CacheSpec.ForwardOnly | http-web-cache-proxy/proxy.py:77-86 | a non-GET request is forwarded with its method, path and extracted body; the reply is passed on, nothing is sent when the origin cannot be reached (proxy.py:83), and the cache is untouched |
| CacheSpec.Run | http-web-cache-proxy/proxy.py:157-160 | serving connections one after another keeps the invariant |
| CacheSpec.RunKeepsStored | http-web-cache-proxy/proxy.py:157-160 | any number of connections keep every entry named after its path and every stored response one that passed the success test |
| CacheSpec.HitAfterRunIsOk | http-web-cache-proxy/proxy.py:101-108 | from start-up, after any connections, a fresh hit sends only a response that passed the success test |
| CacheSpec.ForwardOnlyRun | http-web-cache-proxy/proxy.py:77-86 | any number of non-GET requests leave the cache exactly as it was |
| CacheSpec.GetAll | http-web-cache-proxy/proxy.py:116-140 | fetching a sequence of paths keeps the invariant |
| CacheSpec.GetAllKeepsLast | http-web-cache-proxy/proxy.py:133-140 | fetching distinct new paths with cacheable replies leaves exactly the last `capacity` keys, in fetch order |
| CacheSpec.StoreAppends | http-web-cache-proxy/proxy.py:133-140 | storing a new path keeps the last `capacity` keys of the order extended by it |
| CacheSpec.OverflowEvictsFirst | http-web-cache-proxy/proxy.py:133-140 | inserting one more distinct path than the capacity, with no hits in between, evicts exactly the first one inserted |
| CacheSpec.RecencyBump | http-web-cache-proxy/proxy.py:101-140 | capacity 2: fetch a, fetch b, hit a, fetch d gives orders [a, b], then [b, a], then [a, d], so b is the one evicted |
| CacheSpec.HitSwaps | http-web-cache-proxy/proxy.py:104 | a fresh hit on the first of two keys puts it behind the second |
| CacheSpec.FetchIntoRoom | http-web-cache-proxy/proxy.py:133-140 | fetching a new path with room appends it with time `t` and leaves every other entry unchanged |
| CacheSpec.SharedFileServesOther | http-web-cache-proxy/proxy.py:107-108 | when two paths share a file, after the second is cached a fresh hit on the first serves the second's response |
| ProxyEngine.CacheEngine.constructor | http-web-cache-proxy/proxy.py:18-26 | the engine starts with capacity 10, the given time to live, and an empty index over the existing files |
| ProxyEngine.CacheEngine.ServeHit | http-web-cache-proxy/proxy.py:101-108 | moves the path to the most recently used end in place (the state becomes `Touch` of the old one) and returns the path's stored file, which passed the success test |
| ProxyEngine.CacheEngine.SaveToCache | http-web-cache-proxy/proxy.py:123-140 | called only with a response that passed the success test; writes the file, evicts when full, assigns the entry; the new state is `Store` of the old one and keeps the class invariant |
| ProxyEngine.CacheEngine.HandleGet | http-web-cache-proxy/proxy.py:90-146 | the GET branch changes the fields, requests and sends exactly what `CacheSpec.Get` says for the old state, and keeps the invariant |
| ProxyEngine.CacheEngine.HandleClient | http-web-cache-proxy/proxy.py:64-146 | one connection does exactly what `CacheSpec.Handle` says for the old state, and keeps the invariant |
| HttpResponse.Lookup | http-web-cache-proxy/server.py:19 | `'Content-Length' not in headers` holds exactly when no field has that name; a value found is the value of such a field |
| HttpResponse.SendHttpResponse | http-web-cache-proxy/server.py:16-33 | the loop builds the status line, one line per field in dict order, `Connection: close`, the empty line and the body; the caller's dict gets the length field where one is added; the bytes sent are the UTF-8 encoding of that text |
| HttpResponse.ContentLengthAdded | http-web-cache-proxy/server.py:19-20 | a non-empty body without a length field adds one field, last, whose value is the decimal byte length of the body and reads back as that number |
| HttpResponse.ContentLengthKept | http-web-cache-proxy/server.py:19 | an empty body, or a length field already given, leaves the fields unchanged |
| HttpResponse.ResponseLines | http-web-cache-proxy/server.py:16-30 | read back line by line, a response gives the status line, the field lines in order, `Connection: close`, an empty line and the body's lines |
| HttpResponse.ErrorPageText | http-web-cache-proxy/server.py:35-40 | an error page without its own body sends `code message` as a text/html body, announced with its length |
| HttpResponse.BadRequestPage | http-web-cache-proxy/server.py:35-40 | the 400 page is exactly the status line, `Content-Type: text/html`, `Content-Length: 15`, `Connection: close`, the empty line, and `400 Bad Request` |
| HttpResponse.MethodNotAllowedFields | http-web-cache-proxy/server.py:42-50 | the 405 page has body `Method Not Allowed` and the fields `Content-Type: text/plain`, `Allow: GET, POST, PUT, HEAD` and `Content-Length: 18`, in that order |
| HttpResponse.AllowList | http-web-cache-proxy/server.py:44 | the allowed methods joined by commas read `GET, POST, PUT, HEAD` |
| ServerPaths.ResolveFilePath | http-web-cache-proxy/server.py:54-63 | a resolved name never holds `..` and never starts with a slash |
| ServerPaths.ResolveOther | http-web-cache-proxy/server.py:59-63 | any path other than the index paths is refused exactly when it holds `..` after its leading slashes are removed, and otherwise resolves to that name |
| ServerPaths.ResolveIndex | http-web-cache-proxy/server.py:56-57 | `/` and `/index.html` both resolve to the index file |
| ServerPaths.ResolveRoundTrip | http-web-cache-proxy/server.py:54-63 | for a name without a leading slash or `..`, resolving `/` followed by the name gives the name back |
| ServerPaths.Basename | http-web-cache-proxy/server.py:147 | the base name is the longest suffix without a slash, and a slash precedes it when it is not the whole name |
| ServerRequest.HeaderField | http-web-cache-proxy/server.py:184-188 | a line gives no field exactly when it holds no `: ` |
| ServerRequest.HeaderFieldOf | http-web-cache-proxy/server.py:185-186 | a line `name: value`, where the name holds no colon, gives the lowercased name and the whole value |
| ServerRequest.HeaderLines | http-web-cache-proxy/server.py:179-183 | the header lines are the lines up to the first empty one, all non-empty |
| ServerRequest.ParseHeaders | http-web-cache-proxy/server.py:177-188 | the loop with `break` and `continue` fills the dict with the fields of the header lines, assigned in order |
| ServerRequest.FieldMapHas | http-web-cache-proxy/server.py:181-188 | the dict holds a name exactly when some header line gives it |
| ServerRequest.FieldMapLast | http-web-cache-proxy/server.py:181-188 | the value held for a name is the one given by the last line that names it |
| ServerRequest.ParseRequest | http-web-cache-proxy/server.py:161-190 | a parsed request's method, path and version hold no whitespace |
| ServerRequest.BodyAfterHead | http-web-cache-proxy/server.py:178-190 | the body is everything after the first blank line, later blank lines included |
| ServerRequest.NoBlankNoBody | http-web-cache-proxy/server.py:190 | a request without a blank line has an empty body |
| OriginServer.ReadBack | http-web-cache-proxy/server.py:76-77 | what `read()` returns in text mode holds no carriage return, is no longer than the file, is empty only for an empty file, and is the file itself when the file holds no carriage return |
| OriginServer.ReadBackOfLineEnds | http-web-cache-proxy/server.py:76-77 | `a\r\nb\r` reads back as `a\nb\n` |
| OriginServer.Kept | http-web-cache-proxy/server.py:118-143 | what a write cut short leaves is a prefix of what was to be written |
| OriginServer.PostOnlyAtPost | http-web-cache-proxy/server.py:114-116 | POST anywhere but `/post` gets 403 and stores nothing; the log changes only for an accepted POST whose log file could be opened |
| OriginServer.PostAppends | http-web-cache-proxy/server.py:118-124 | an accepted POST appends the body and a newline to the log, keeps the old log as a prefix, changes no file, and answers 200 |
| OriginServer.PutRefused | http-web-cache-proxy/server.py:131-135 | a path the guard refuses gets 403 and nothing is written |
| OriginServer.PutStores | http-web-cache-proxy/server.py:137-154 | a successful PUT makes the name hold the body as written and changes nothing else; it answers 201 with the path as `Location` exactly when the name was new, and otherwise 200 |
| OriginServer.OpenFailureChangesNothing | http-web-cache-proxy/server.py:118-157 | a file that cannot be opened leaves the document root and the log as they were |
| OriginServer.CutWriteKeepsPrefix | http-web-cache-proxy/server.py:118-157 | a write cut short gets 500 but stays done: POST leaves a prefix of the body and newline appended to the log; PUT leaves the file holding a prefix of the body |
| OriginServer.PutThenGet | http-web-cache-proxy/server.py:76-154 | after a successful PUT, a GET of the same path serves the body with its line ends read back as newlines, typed by its name; a body without a carriage return comes back unchanged |
| OriginServer.HeadMatchesGet | http-web-cache-proxy/server.py:87-107 | HEAD of a readable file sends GET's status and fields plus the file's byte length and no body; in every other case HEAD answers as GET does |
| OriginServer.HeadIsGetWithoutBody | http-web-cache-proxy/server.py:67-107 | for a non-empty file, the text GET sends is the text HEAD sends followed by the file as read |
| OriginServer.ReadsChangeNothing | http-web-cache-proxy/server.py:199-202 | GET and HEAD always answer and never change the document root or the log |
| OriginServer.MalformedLineIs400 | http-web-cache-proxy/server.py:170-175 | a first line that is not three tokens gets the 400 page and changes nothing |
| OriginServer.OtherMethodIs405 | http-web-cache-proxy/server.py:197-198 | a method outside the four gets the 405 page and changes nothing |
| OriginServer.Server.constructor | http-web-cache-proxy/server.py:6-7 | the server starts over the given document root and post log |
| OriginServer.Server.ProcessRequest | http-web-cache-proxy/server.py:161-208 | one connection updates the root and the log and sends exactly what `Process` says |
| OriginServer.Server.Dispatch | http-web-cache-proxy/server.py:192-206 | dispatch updates the state and sends exactly what `Respond` says |
| OriginServer.Server.HandleGetRequest | http-web-cache-proxy/server.py:67-85 | the GET handler answers `GetPage`: 404 for a missing name or a directory, 500 for an unreadable file, otherwise 200 with the file as read |
| OriginServer.Server.HandleHeadRequest | http-web-cache-proxy/server.py:87-110 | the HEAD handler answers `HeadPage` |
| OriginServer.Server.HandlePostRequest | http-web-cache-proxy/server.py:112-127 | the POST handler updates the log and answers as `PostEffect` says, a cut write included |
| OriginServer.Server.HandlePutRequest | http-web-cache-proxy/server.py:129-157 | the PUT handler updates the root and answers as `PutEffect` says, a cut write included |
| OriginServer.Server.Send | http-web-cache-proxy/server.py:33 | the bytes sent are the UTF-8 encoding of the response text |
| EndToEnd.SameRequestLine | http-web-cache-proxy/proxy.py:71-74 | the proxy accepts a first line exactly when the server does, and both read the same method, path and version |
| EndToEnd.ServerReadsOriginRequest | http-web-cache-proxy/proxy.py:39-47 | the server reads the proxy's request as its method, path, `HTTP/1.1`, the `host` and `connection` fields, and the forwarded body (empty when there is none) |
| EndToEnd.ForwardedBodyArrives | http-web-cache-proxy/proxy.py:80-82 | a body sent after the head, with no blank line of its own, reaches the server whole |
| EndToEnd.OkResponseIsCacheable | http-web-cache-proxy/proxy.py:121-123 | every 200 OK response the server sends passes the proxy's success test, whatever its fields and body |
| EndToEnd.ServerSendsFile | http-web-cache-proxy/server.py:67-82 | the server answers the proxy's GET of a readable file with 200 OK, the file's type and the file as read |
| EndToEnd.MissFetchesFile | http-web-cache-proxy/proxy.py:116-142 | on a miss for a readable file, the server sends the file as read; the proxy passes that reply on and stores it under the path's file name |

## Left out

- Sockets, `listen`/`accept` loops and both `main` functions (proxy.py:150-167, server.py:210-236) are I/O. The model takes the received text and the origin's chunks as parameters and returns what would be sent.
- The client's request is taken as already-decoded text. Neither the proxy's `decode(errors='ignore')` (proxy.py:65) nor the server's strict decode (server.py:163) is modelled, and neither is the server's failure on bytes that are not valid UTF-8.
- The proxy receives only the first 4096 bytes of a client request (proxy.py:65). The model takes the request text as it arrives.
- `time.time()` is a float. The two clock readings are integer parameters. Fractional ages, and a clock that goes backwards between the two readings, are not modelled.
- The time to live from `sys.argv` (proxy.py:18) is a constructor parameter. A command-line value that `int()` refuses is not modelled.
- Creating the cache directory (proxy.py:21-22) is not modelled. The proxy's file write (proxy.py:129-130) and its read on a hit (proxy.py:107-108) are taken to succeed, and the cache files are changed only by the proxy.
- ProxyRequest.IsCacheable: the test is made on the raw bytes of the header part. `decode(errors='ignore')` (proxy.py:121) drops invalid UTF-8 bytes, so the source also accepts a `200 OK` whose characters are separated by such bytes; this model does not.
- `print` logging in both programs is output only. It includes the Content-Length mismatch warning (server.py:194-195), which changes no state. The `int()` failure on a malformed `content-length` is modelled as `LengthFails`: the request gets no answer.
- The server's document root is a map keyed by names relative to `SERVER_DIR`. The following are not modelled: the home-directory paths; `os.path.join`; path normalisation (`a//b`, `a/./b`, symbolic links); the `os.makedirs` of server.py:140. A PUT whose parent directory cannot be created, or whose name ends in `/`, is not refused by the model unless `outcome` is `NotOpened`.
- Reading a file in text mode can fail (server.py:76-77). This is modelled as the `Unreadable` node, not by decoding the bytes.
- PutEffect, PutStores, PutThenGet and HandlePutRequest (OriginServer): `ReadBack` models the read side of text mode only. Writing is taken to store the text as given: this is `open(..., 'w')` on a system whose line separator is "\n", with a locale encoding that round-trips the text. A system that writes "\r\n" for "\n", or an encoding that cannot hold a character of the body, is not modelled.
- Exceptions other than the modelled failure paths are not modelled: a failed origin connection is `None`, a failed write is `outcome`, an unreadable file is `Unreadable`, and a bad `int()` is `LengthFails`. The sequential accept loops have no concurrency to model.
- Lower (PyStr.Lower) lowers only the ASCII capitals A to Z. Python's `str.lower()` also lowers other letters (`Ä` to `ä`), and can change the length (`İ` becomes two characters), so a header name with such a letter is stored under a different key by the source. Header names are ASCII in practice.
- IsIntLiteral, IsDigit and LengthFails (PyStr.IsIntLiteral, PyStr.IsDigit, OriginServer.LengthFails): only the ASCII digits 0 to 9 are digits. Python's `int()` accepts every Unicode decimal digit, so a `Content-Length` of `٣` (Arabic-Indic three) is answered by the source but gets no answer in the model.
- ProcessRequest (OriginServer.Server.ProcessRequest): through `LengthFails`, it inherits the ASCII-only reading of `Content-Length` described on the line above, and sends nothing where the source answers.
- Dispatch (OriginServer.Server.Dispatch): the same ASCII-only reading of `Content-Length` makes it send nothing where the source answers.
- OriginReply and ReceiveAll (OriginClient.OriginReply, OriginClient.ReceiveAll): a transport whose chunks contain no empty chunk is read to its end and treated as a closed stream. The source would call `recv` again and, with no time-out set, wait for ever; that case is not modelled.
- Words (PyStr.Words): its own contract states only that each word is non-empty and holds no whitespace. Together with `Words("") == []`, `WordsCons` and `WordsAfterSpace` fix its value on every input, and `WordsEmptyIffBlank` states when it is empty.
