/**
 * The pure string and byte pieces of the proxy (proxy.py): the split of the
 * client's request line, the body it forwards for non-GET methods, the request
 * it sends to the origin, the name of the cache file for a path, and the
 * "200 OK" test that decides whether a response may be cached.
 */
module ProxyRequest {
  import opened Wrappers
  import opened Seqs
  import opened PyStr
  import opened Utf8
  import opened HttpText

  /** The one origin server the proxy talks to (proxy.py:14-15). */
  const OriginServerIp := "192.168.56.101"
  const OriginServerPort: nat := 8080

  datatype RequestLine = RequestLine(verb: string, path: string, version: string)

  /**
   * proxy.py:71-74: the first line of the request split at whitespace. The
   * proxy goes on only with exactly three tokens: with fewer it returns, with
   * more the tuple assignment raises; either way nothing is answered.
   */
  function ParseRequestLine(data: string): (r: Option<RequestLine>)
    ensures r.Some? ==> r.value.verb != "" && NoSpace(r.value.verb)
    ensures r.Some? ==> r.value.path != "" && NoSpace(r.value.path)
    ensures r.Some? ==> r.value.version != "" && NoSpace(r.value.version)
  {
    var tokens := Words(Split(data, Crlf)[0]);
    if |tokens| == 3 then Some(RequestLine(tokens[0], tokens[1], tokens[2])) else None
  }

  /** Whitespace-free text holds no carriage return. */
  lemma NoSpaceNoCr(w: string)
    requires NoSpace(w)
    ensures '\r' !in w
  {
  }

  /** A request line of three tokens parses back into those tokens, whatever follows it. */
  lemma ParseRequestLineOf(verb: string, path: string, version: string, rest: string)
    requires verb != "" && NoSpace(verb)
    requires path != "" && NoSpace(path)
    requires version != "" && NoSpace(version)
    ensures ParseRequestLine(verb + " " + path + " " + version + Crlf + rest)
         == Some(RequestLine(verb, path, version))
  {
    var line := verb + " " + path + " " + version;
    RequestLineWords(verb, path, version);
    SplitFirst(line, Crlf, rest);
    assert Split(line + Crlf + rest, Crlf)[0] == line;
  }

  /** Three tokens joined by single spaces split back into those tokens, and hold no carriage return. */
  lemma RequestLineWords(verb: string, path: string, version: string)
    requires verb != "" && NoSpace(verb)
    requires path != "" && NoSpace(path)
    requires version != "" && NoSpace(version)
    ensures var line := verb + " " + path + " " + version;
      Words(line) == [verb, path, version] && '\r' !in line
  {
    var ws := [verb, path, version];
    var line := verb + " " + path + " " + version;
    assert Join(ws, " ") == line by {
      assert ws[1..] == [path, version];
      assert ws[1..][1..] == [version];
      assert Join([version], " ") == version;
      assert Join([path, version], " ") == path + " " + version;
      assert Join(ws, " ") == verb + " " + (path + " " + version);
    }
    NoSpaceNoCr(verb);
    NoSpaceNoCr(path);
    NoSpaceNoCr(version);
    assert '\r' !in line;
    WordsOfJoin(ws);
    assert Words(line) == ws;
  }

  /**
   * proxy.py:80: the body forwarded for a non-GET request is the segment
   * between the first and the second blank line, or absent when there is no
   * blank line at all.
   */
  function ExtractBody(data: string): (r: Option<string>)
    ensures r.None? <==> !Contains(data, BlankLine)
    ensures r.Some? ==> !Contains(r.value, BlankLine)
  {
    if Contains(data, BlankLine) then Some(Split(data, BlankLine)[1]) else None
  }

  /** One step of `Split` past a piece whose first blank line is the one after it. */
  lemma SplitAtFirstBlank(head: string, rest: string)
    requires EndsBeforeBlankLine(head)
    ensures Split(head + BlankLine + rest, BlankLine) == [head] + Split(rest, BlankLine)
  {
    var s := head + BlankLine + rest;
    FirstStaysFirst(head, BlankLine, rest);
    assert s[..|head|] == head && s[|head| + 4..] == rest;
  }

  /** What the client sends after the first blank line comes back as the body. */
  lemma ExtractBodyOf(head: string, body: string)
    requires EndsBeforeBlankLine(head)
    requires !Contains(body, BlankLine)
    ensures ExtractBody(head + BlankLine + body) == Some(body)
  {
    SplitAtFirstBlank(head, body);
    assert Split(body, BlankLine) == [body];
  }

  /** A body followed by a further blank line is cut short there: what follows is not forwarded. */
  lemma ExtractBodyCut(head: string, body: string, tail: string)
    requires EndsBeforeBlankLine(head)
    requires EndsBeforeBlankLine(body)
    ensures ExtractBody(head + BlankLine + body + BlankLine + tail) == Some(body)
  {
    var rest := body + BlankLine + tail;
    assert head + BlankLine + body + BlankLine + tail == head + BlankLine + rest;
    SplitAtFirstBlank(head, rest);
    SplitAtFirstBlank(body, tail);
  }

  /** The host header contents: the origin's address and port, as proxy.py:42 formats them. */
  function HostValue(): string {
    OriginServerIp + ":" + Decimal(OriginServerPort)
  }

  /**
   * proxy.py:39-47: the request sent to the origin. Only Host and Connection
   * are sent; the client's own headers are not forwarded; a body is appended
   * only when it is present and non-empty.
   */
  function OriginRequest(verb: string, path: string, body: Option<string>): string {
    var requestLine := verb + " " + path + " " + "HTTP/1.1" + Crlf;
    var hostLine := "Host" + ": " + HostValue() + Crlf;
    var closeLines := "Connection" + ": " + "close" + Crlf + Crlf;
    requestLine + hostLine + closeLines + (if body.Some? && body.value != "" then body.value else "")
  }

  /**
   * proxy.py:125: the cache file name for a path: slashes stripped at both
   * ends, inner slashes turned into underscores, 'index.html' for what is left
   * empty. It is never empty and never names a subdirectory.
   */
  function StorageKey(path: string): (r: string)
    ensures r != ""
    ensures forall i :: 0 <= i < |r| ==> r[i] != '/'
  {
    var k := Replace(Strip(path, '/'), '/', '_');
    if k == "" then "index.html" else k
  }

  lemma StripKeeps(s: string, c: char)
    requires s != [] && s[0] != c && s[|s| - 1] != c
    ensures Strip(s, c) == s
  {
  }

  lemma StripDropsFirst(s: string, c: char)
    requires s != [] && s[0] == c
    ensures Strip(s, c) == Strip(s[1..], c)
  {
  }

  /** Paths that differ only in '/' versus '_' share one cache file. */
  lemma StorageKeyCollision()
    ensures StorageKey("/a/b") == StorageKey("/a_b") == "a_b"
  {
    StripDropsFirst("/a/b", '/');
    assert "/a/b"[1..] == "a/b";
    StripKeeps("a/b", '/');
    StripDropsFirst("/a_b", '/');
    assert "/a_b"[1..] == "a_b";
    StripKeeps("a_b", '/');
    assert Replace("a/b", '/', '_') == "a_b";
    ReplaceAbsent("a_b", '/', '_');
  }

  /** The root path and "/index.html" share one cache file. */
  lemma StorageKeyOfRoot()
    ensures StorageKey("/") == StorageKey("/index.html") == "index.html"
  {
    assert Strip("/", '/') == "";
    StripDropsFirst("/index.html", '/');
    assert "/index.html"[1..] == "index.html";
    StripKeeps("index.html", '/');
    ReplaceAbsent("index.html", '/', '_');
  }

  /** Without underscores in the paths and with the slashes at the ends already stripped, distinct paths get distinct files. */
  lemma StorageKeyInjective(p: string, q: string)
    requires p != "" && q != ""
    requires Strip(p, '/') == p && Strip(q, '/') == q
    requires forall i :: 0 <= i < |p| ==> p[i] != '_'
    requires forall i :: 0 <= i < |q| ==> q[i] != '_'
    ensures StorageKey(p) == StorageKey(q) ==> p == q
  {
    var kp := Replace(p, '/', '_');
    var kq := Replace(q, '/', '_');
    if StorageKey(p) == StorageKey(q) {
      assert kp == kq;
      forall i | 0 <= i < |p| ensures p[i] == q[i] {
        assert kp[i] == kq[i];
      }
    }
  }

  const BlankLineBytes: Bytes := [13, 10, 13, 10]

  /** The ASCII bytes of "200 OK". */
  const Ok200: Bytes := [50, 48, 48, 32, 79, 75]

  /** proxy.py:121: the response up to its first blank line. */
  function HeaderPart(raw: Bytes): (h: Bytes)
    ensures |h| <= |raw| && h == raw[..|h|]
    ensures !Contains(h, BlankLineBytes)
    ensures |h| < |raw| ==> OccursAt(raw, BlankLineBytes, |h|)
  {
    var parts := Split(raw, BlankLineBytes);
    if |parts| >= 2 then
      assert raw == parts[0] + BlankLineBytes + Join(parts[1..], BlankLineBytes);
      assert raw[..|parts[0]|] == parts[0];
      assert raw[|parts[0]|..|parts[0]| + 4] == BlankLineBytes;
      parts[0]
    else
      parts[0]
  }

  /** proxy.py:121-123: a response is cached only when its header part contains "200 OK". */
  predicate IsCacheable(raw: Bytes) {
    Contains(HeaderPart(raw), Ok200)
  }

  /** A cacheable response is never empty. */
  lemma CacheableIsNonEmpty(raw: Bytes)
    requires IsCacheable(raw)
    ensures |raw| >= |Ok200|
  {
    var i :| OccursAt(HeaderPart(raw), Ok200, i);
  }

  /** No blank line starts inside an occurrence of "200 OK". */
  lemma NoBlankInsideOk(raw: Bytes, i: int, j: int)
    requires OccursAt(raw, Ok200, i) && i <= j < i + |Ok200|
    ensures !OccursAt(raw, BlankLineBytes, j)
  {
    if j + 4 <= |raw| {
      assert raw[j..j + 4][0] == raw[j] == raw[i..i + 6][j - i];
    }
  }

  /** The success test, stated on the whole response: "200 OK" occurs before any blank line. */
  lemma CacheableIff(raw: Bytes)
    ensures IsCacheable(raw) <==>
      exists i :: OccursAt(raw, Ok200, i) && forall j :: 0 <= j < i ==> !OccursAt(raw, BlankLineBytes, j)
  {
    var h := HeaderPart(raw);
    if IsCacheable(raw) {
      var i :| OccursAt(h, Ok200, i);
      OccursInPrefix(raw, Ok200, |h|, i);
      forall j | 0 <= j < i ensures !OccursAt(raw, BlankLineBytes, j) {
        OccursInPrefix(raw, BlankLineBytes, |h|, j);
      }
    }
    if exists i :: OccursAt(raw, Ok200, i) && forall j :: 0 <= j < i ==> !OccursAt(raw, BlankLineBytes, j) {
      var i :| OccursAt(raw, Ok200, i) && forall j :: 0 <= j < i ==> !OccursAt(raw, BlankLineBytes, j);
      forall j | 0 <= j < i + |Ok200| ensures !OccursAt(raw, BlankLineBytes, j) {
        if j >= i {
          NoBlankInsideOk(raw, i, j);
        }
      }
      OccursInPrefix(raw, Ok200, |h|, i);
      assert OccursAt(h, Ok200, i);
    }
  }

  /**
   * "200 OK" on the second line of a response makes it cacheable, whatever
   * the first line says.
   */
  lemma OkOnSecondLine(line1: Bytes, line2: Bytes, rest: Bytes)
    requires 13 !in line1 && 13 !in line2
    requires Contains(line2, Ok200)
    ensures IsCacheable(line1 + [13, 10] + line2 + rest)
  {
    var raw := line1 + [13, 10] + line2 + rest;
    var k :| OccursAt(line2, Ok200, k);
    var i := |line1| + 2 + k;
    assert raw[i..i + 6] == line2[k..k + 6];
    assert OccursAt(raw, Ok200, i);
    forall j | 0 <= j < i ensures !OccursAt(raw, BlankLineBytes, j) {
      NoBlankInFirstLines(line1, line2, rest, j);
    }
    CacheableIff(raw);
  }

  /** The only carriage return in the first two lines is followed by a byte that is none. */
  lemma NoBlankInFirstLines(line1: Bytes, line2: Bytes, rest: Bytes, j: int)
    requires 13 !in line1 && 13 !in line2 && line2 != []
    requires 0 <= j < |line1| + 2 + |line2|
    ensures !OccursAt(line1 + [13, 10] + line2 + rest, BlankLineBytes, j)
  {
    var raw := line1 + [13, 10] + line2 + rest;
    if j + 4 <= |raw| {
      var w := raw[j..j + 4];
      if j < |line1| {
        assert w[0] == raw[j] == line1[j];
      } else if j == |line1| {
        assert w[2] == raw[j + 2] == line2[0];
      } else if j == |line1| + 1 {
        assert w[0] == raw[j] == 10;
      } else {
        assert w[0] == raw[j] == line2[j - |line1| - 2];
      }
    }
  }

  /**
   * The test is a substring search over the whole header part, not a reading
   * of the status code: whatever the status line says (a 404, say), a header
   * whose value is "200 OK" makes the response cacheable.
   */
  lemma OkHeaderValueIsCacheable(statusLine: string, name: string, rest: string)
    requires '\r' !in statusLine && '\r' !in name
    ensures IsCacheable(Encode(statusLine + "\r\n" + (name + ": 200 OK") + rest))
  {
    var note := name + ": 200 OK";
    assert '\r' !in note by {
      assert '\r' !in ": 200 OK";
    }
    EncodeOmits(statusLine, '\r');
    EncodeOmits(note, '\r');
    assert Contains(Encode(note), Ok200) by {
      ValueCarriesOk(name + ": ");
      assert name + ": " + "200 OK" == note;
    }
    OkOnSecondLine(Encode(statusLine), Encode(note), Encode(rest));
    EncodeLines(statusLine, note, rest);
  }

  lemma EncodeLines(line1: string, line2: string, rest: string)
    ensures Encode(line1 + "\r\n" + line2 + rest) == Encode(line1) + [13, 10] + Encode(line2) + Encode(rest)
  {
    EncodeAppend(line1, "\r\n");
    EncodeAppend(line1 + "\r\n", line2);
    EncodeAppend(line1 + "\r\n" + line2, rest);
    assert Encode("\r\n") == [13, 10];
  }

  lemma ValueCarriesOk(prefix: string)
    ensures Contains(Encode(prefix + "200 OK"), Ok200)
  {
    EncodeOkAfter(prefix, "");
    var raw := Encode(prefix) + Ok200 + Encode("");
    assert raw[|Encode(prefix)|..|Encode(prefix)| + |Ok200|] == Ok200;
    assert OccursAt(raw, Ok200, |Encode(prefix)|);
    assert prefix + "200 OK" + "" == prefix + "200 OK";
  }

  /** "200 OK" is ASCII, so it encodes to its own codes. */
  lemma EncodeOk200()
    ensures Encode("200 OK") == Ok200
  {
    assert IsAscii("200 OK");
    assert AsciiBytes("200 OK") == Ok200;
  }

  /** Text with "200 OK" inside encodes to the parts around it with the bytes of "200 OK" between. */
  lemma EncodeOkAfter(prefix: string, rest: string)
    ensures Encode(prefix + "200 OK" + rest) == Encode(prefix) + Ok200 + Encode(rest)
  {
    EncodeAppend(prefix, "200 OK");
    EncodeAppend(prefix + "200 OK", rest);
    EncodeOk200();
  }
}
