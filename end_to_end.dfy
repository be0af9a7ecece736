/**
 * The proxy and the origin server together: what the server reads from the
 * request the proxy builds, and what the proxy does with the server's
 * answer.
 */
module EndToEnd {
  import opened Wrappers
  import opened Seqs
  import opened PyStr
  import opened Utf8
  import opened HttpText
  import opened ProxyRequest
  import opened CacheSpec
  import opened HttpResponse
  import opened ServerRequest
  import opened OriginServer

  /**
   * proxy.py:71-74 and server.py:168-176 read the first line alike: the
   * proxy finds three tokens exactly when the server does, and the same
   * three.
   */
  lemma SameRequestLine(data: string)
    ensures ParseRequestLine(data).Some? <==> ParseRequest(data).Parsed?
    ensures ParseRequestLine(data).Some? ==>
      && ParseRequestLine(data).value.verb == ParseRequest(data).request.verb
      && ParseRequestLine(data).value.path == ParseRequest(data).request.path
      && ParseRequestLine(data).value.version == ParseRequest(data).request.version
  {
    if data == "" {
      CleanHasNone(data, Crlf);
      assert Split(data, Crlf) == [data];
      assert Words(data) == [];
    }
  }

  /** The header fields the proxy sends (proxy.py:41-44), as the server's dict holds them. */
  function ProxyFields(): map<string, string> {
    map["host" := HostValue(), "connection" := "close"]
  }

  /**
   * proxy.py:39-47 against server.py:161-190: the server reads the proxy's
   * request as the method, the path and HTTP/1.1, the two fields the proxy
   * sets, and the forwarded body (nothing when there is none).
   */
  lemma ServerReadsOriginRequest(verb: string, path: string, body: Option<string>)
    requires verb != "" && NoSpace(verb) && path != "" && NoSpace(path)
    ensures var sent := if body.Some? then body.value else "";
      ParseRequest(OriginRequest(verb, path, body)) == Parsed(Request(verb, path, "HTTP/1.1", ProxyFields(), sent))
  {
    var sent := if body.Some? then body.value else "";
    var l1, l2, l3 := verb + " " + path + " " + "HTTP/1.1", "Host" + ": " + HostValue(), "Connection" + ": " + "close";
    RequestLineWords(verb, path, "HTTP/1.1");
    HostLines(l2, l3);
    var data := OriginRequest(verb, path, body);
    OriginRequestLayout(verb, path, body, l1, l2, l3, sent);
    ThreeLineParse(data, l1, l2, l3, sent, [verb, path, "HTTP/1.1"], ProxyFields());
  }

  /** What the server reads from a request of three head lines and a body. */
  lemma ThreeLineParse(data: string, l1: string, l2: string, l3: string, sent: string, words: seq<string>, fields: map<string, string>)
    requires data == l1 + Crlf + (l2 + Crlf + (l3 + Crlf + (Crlf + sent)))
    requires data == l1 + Crlf + l2 + Crlf + l3 + BlankLine + sent
    requires '\r' !in l1 && '\r' !in l2 && '\r' !in l3 && l2 != "" && l3 != ""
    requires Words(l1) == words && |words| == 3 && FieldMap([l2, l3]) == fields
    ensures ParseRequest(data) == Parsed(Request(words[0], words[1], words[2], fields, sent))
  {
    var tail := Split(sent, Crlf);
    var lines := [l1, l2, l3, ""] + tail;
    ThreeLineRequest(data, l1, l2, l3, sent);
    HeaderLinesOf(l1, l2, l3, tail);
    ParseRequestOf(data, lines, words, [l2, l3], fields, sent);
  }

  /** The lines and the body of a request of three head lines. */
  lemma ThreeLineRequest(data: string, l1: string, l2: string, l3: string, sent: string)
    requires data == l1 + Crlf + (l2 + Crlf + (l3 + Crlf + (Crlf + sent)))
    requires data == l1 + Crlf + l2 + Crlf + l3 + BlankLine + sent
    requires '\r' !in l1 && '\r' !in l2 && '\r' !in l3 && l2 != "" && l3 != ""
    ensures Split(data, Crlf) == [l1, l2, l3, ""] + Split(sent, Crlf)
    ensures Body(data) == sent
  {
    RequestLines(l1, l2, l3, sent, data);
    RequestLinesEnd(l1, l2, l3);
    BodyAfterHead(l1 + Crlf + l2 + Crlf + l3, sent);
  }

  /** What the server reads from text of given lines and a given body. */
  lemma ParseRequestOf(data: string, lines: seq<string>, words: seq<string>, head: seq<string>, fields: map<string, string>, body: string)
    requires data != "" && Split(data, Crlf) == lines && Words(lines[0]) == words && |words| == 3
    requires HeaderLines(lines[1..]) == head && FieldMap(head) == fields && Body(data) == body
    ensures ParseRequest(data) == Parsed(Request(words[0], words[1], words[2], fields, body))
  {
  }

  /** proxy.py:39-47: the request the proxy builds, line by line. */
  lemma OriginRequestLayout(verb: string, path: string, body: Option<string>, l1: string, l2: string, l3: string, sent: string)
    requires l1 == verb + " " + path + " " + "HTTP/1.1" && l2 == "Host" + ": " + HostValue() && l3 == "Connection" + ": " + "close"
    requires sent == if body.Some? then body.value else ""
    ensures var data := OriginRequest(verb, path, body);
      && data == l1 + Crlf + (l2 + Crlf + (l3 + Crlf + (Crlf + sent)))
      && data == l1 + Crlf + l2 + Crlf + l3 + BlankLine + sent
  {
    Regroup(l1, l2, l3, sent, Crlf);
    assert BlankLine == Crlf + Crlf;
  }

  lemma Regroup(l1: string, l2: string, l3: string, sent: string, nl: string)
    ensures var data := (l1 + nl) + (l2 + nl) + (l3 + nl + nl) + sent;
      && data == l1 + nl + (l2 + nl + (l3 + nl + (nl + sent)))
      && data == l1 + nl + l2 + nl + l3 + (nl + nl) + sent
  {
  }

  /** The two header lines the proxy writes, read as fields. */
  lemma HostLines(l2: string, l3: string)
    requires l2 == "Host" + ": " + HostValue() && l3 == "Connection" + ": " + "close"
    ensures '\r' !in l2 && '\r' !in l3 && l2 != "" && l3 != ""
    ensures FieldMap([l2, l3]) == ProxyFields()
  {
    HostField(l2, "Host", HostValue());
    ConnectionField(l3, "Connection", "close");
    TwoFields(l2, l3, ("host", HostValue()), ("connection", "close"));
  }

  lemma HostField(line: string, name: string, host: string)
    requires name == "Host" && host == HostValue() && line == name + ": " + host
    ensures '\r' !in line && line != ""
    ensures HeaderField(line) == Some(("host", host))
  {
    assert '\r' !in host by {
      var port := Decimal(OriginServerPort);
      assert forall i :: 0 <= i < |port| ==> IsDigit(port[i]);
      assert host == OriginServerIp + ":" + port;
    }
    FieldOfLine(line, name, host, "host");
  }

  lemma ConnectionField(line: string, name: string, value: string)
    requires name == "Connection" && value == "close" && line == name + ": " + value
    ensures '\r' !in line && line != ""
    ensures HeaderField(line) == Some(("connection", value))
  {
    FieldOfLine(line, name, value, "connection");
  }

  /** Two header lines give a dict of their two fields, the second assigned last. */
  lemma TwoFields(l2: string, l3: string, f2: (string, string), f3: (string, string))
    requires HeaderField(l2) == Some(f2) && HeaderField(l3) == Some(f3)
    ensures FieldMap([l2, l3]) == map[f2.0 := f2.1][f3.0 := f3.1]
  {
    var fs := Fields([l2, l3]);
    assert fs == [Some(f2), Some(f3)];
    assert fs[..1] == [Some(f2)];
    assert fs[..1][..0] == [];
    assert Assigned(fs[..1]) == map[f2.0 := f2.1];
  }

  /** A line `name: value` read as a field. */
  lemma FieldOfLine(line: string, name: string, value: string, lower: string)
    requires line == name + ": " + value && ':' !in name
    requires |name| == |lower| && forall i :: 0 <= i < |name| ==> LowerChar(name[i]) == lower[i]
    ensures HeaderField(line) == Some((lower, value))
  {
    HeaderFieldOf(name, value);
    assert Lower(name) == lower;
  }

  /** Two non-empty lines before an empty one are the header lines. */
  lemma HeaderLinesOf(l1: string, l2: string, l3: string, tail: seq<string>)
    requires l2 != "" && l3 != ""
    ensures HeaderLines(([l1, l2, l3, ""] + tail)[1..]) == [l2, l3]
  {
    var ls := ([l1, l2, l3, ""] + tail)[1..];
    assert ls == [l2, l3, ""] + tail;
    assert ls[1..] == [l3, ""] + tail;
    assert ls[1..][1..] == [""] + tail;
    assert HeaderLines(ls[1..][1..]) == [];
    assert HeaderLines(ls[1..]) == [l3];
  }

  /** The received text split at line ends: the three head lines, the empty line, and the body's lines. */
  lemma RequestLines(l1: string, l2: string, l3: string, tail: string, data: string)
    requires '\r' !in l1 && '\r' !in l2 && '\r' !in l3
    requires data == l1 + Crlf + (l2 + Crlf + (l3 + Crlf + (Crlf + tail)))
    ensures Split(data, Crlf) == [l1, l2, l3, ""] + Split(tail, Crlf)
  {
    var t3 := Crlf + tail;
    var t2 := l3 + Crlf + t3;
    var t1 := l2 + Crlf + t2;
    assert t3 == "" + Crlf + tail;
    SplitFirst("", Crlf, tail);
    SplitFirst(l3, Crlf, t3);
    SplitFirst(l2, Crlf, t2);
    SplitFirst(l1, Crlf, t1);
    Cons4(l1, l2, l3, "", Split(tail, Crlf), Split(data, Crlf), Split(t1, Crlf), Split(t2, Crlf), Split(t3, Crlf));
  }

  lemma Cons4<T>(a: T, b: T, c: T, d: T, s: seq<T>, x1: seq<T>, x2: seq<T>, x3: seq<T>, x4: seq<T>)
    requires x1 == [a] + x2 && x2 == [b] + x3 && x3 == [c] + x4 && x4 == [d] + s
    ensures x1 == [a, b, c, d] + s
  {
  }

  /** A head of three lines, the last two non-empty, ends before the blank line that follows it. */
  lemma RequestLinesEnd(l1: string, l2: string, l3: string)
    requires '\r' !in l1 && '\r' !in l2 && '\r' !in l3 && l2 != "" && l3 != ""
    ensures EndsBeforeBlankLine(l1 + Crlf + l2 + Crlf + l3)
  {
    var x := l1 + Crlf + l2 + Crlf + l3;
    forall j | 0 <= j < |x| ensures CrFollowed(x, j) {
      if j < |l1| {
        assert x[j] == l1[j];
      } else if j == |l1| {
        assert x[j + 2] == l2[0];
      } else if j == |l1| + 1 {
        assert x[j] == '\n';
      } else if j < |l1| + 2 + |l2| {
        assert x[j] == l2[j - |l1| - 2];
      } else if j == |l1| + 2 + |l2| {
        assert x[j + 2] == l3[0];
      } else if j == |l1| + 3 + |l2| {
        assert x[j] == '\n';
      } else {
        assert x[j] == l3[j - |l1| - 4 - |l2|];
      }
    }
    CrNotBlank(x);
  }

  /** The character at `j` is no carriage return, or the one two places on is a character and not one. */
  predicate CrFollowed(x: string, j: nat)
    requires j < |x|
  {
    x[j] != '\r' || (j + 2 < |x| && x[j + 2] != '\r')
  }

  /**
   * Text in which every carriage return is followed, two places on, by a
   * character that is not one ends before a blank line appended to it.
   */
  lemma CrNotBlank(x: string)
    requires forall j :: 0 <= j < |x| ==> CrFollowed(x, j)
    ensures EndsBeforeBlankLine(x)
  {
    var s := x + BlankLine;
    assert BlankLine[0] == BlankLine[2] == '\r';
    assert OccursAt(s, BlankLine, |x|) by {
      assert s[|x|..|x| + 4] == BlankLine;
    }
    assert |BlankLine| == 4;
    forall j | 0 <= j < |x| ensures !OccursAt(s, BlankLine, j) {
      var w := s[j..j + 4];
      assert w[0] == x[j];
      assert CrFollowed(x, j);
      if j + 2 < |x| {
        assert w[2] == x[j + 2];
      }
      assert w[0] != BlankLine[0] || w[2] != BlankLine[2];
    }
    var k := Find(s, BlankLine);
    assert k.Some? && k.value == |x|;
  }

  /**
   * A body the client sent after its head (proxy.py:80) reaches the server
   * whole, provided it holds no blank line of its own.
   */
  lemma ForwardedBodyArrives(verb: string, path: string, head: string, body: string)
    requires verb != "" && NoSpace(verb) && path != "" && NoSpace(path)
    requires EndsBeforeBlankLine(head) && !Contains(body, BlankLine)
    ensures var r := ParseRequest(OriginRequest(verb, path, ExtractBody(head + BlankLine + body)));
      r.Parsed? && r.request.body == body
  {
    ExtractBodyOf(head, body);
    ServerReadsOriginRequest(verb, path, Some(body));
  }

  /**
   * server.py:16-30 against proxy.py:121-123: every response the server
   * sends with status 200 OK passes the proxy's success test, whatever its
   * fields and body.
   */
  lemma OkResponseIsCacheable(r: Response)
    requires r.code == 200 && r.message == "OK"
    ensures IsCacheable(Encode(Text(r)))
  {
    var version := HttpVersion + " ";
    var rest := AfterStatus(r);
    OkStatusText(r.code, r.message, version);
    assert Text(r) == version + "200 OK" + rest;
    EncodeOkAfter(version, rest);
    EncodeOmits(version, '\r');
    OkAfter(Encode(version), Encode(rest));
  }

  /** What follows the status line of a response. */
  function AfterStatus(r: Response): (rest: string)
    ensures Text(r) == StatusText(r.code, r.message) + rest
  {
    var ls := HeadLines(r.code, r.message, WithContentLength(r.headers, r.body));
    StatusLineFirst(r.code, r.message, WithContentLength(r.headers, r.body));
    Crlf + Lines(ls[1..]) + r.body
  }

  /** The status line is the first of the lines before the body. */
  lemma StatusLineFirst(code: nat, message: string, fields: Headers)
    ensures var ls := HeadLines(code, message, fields);
      Lines(ls) == StatusText(code, message) + Crlf + Lines(ls[1..])
  {
    var ls := HeadLines(code, message, fields);
    assert ls[0] == StatusText(code, message);
  }

  /** The status line of a 200 OK response. */
  lemma OkStatusText(code: nat, message: string, version: string)
    requires code == 200 && message == "OK" && version == HttpVersion + " "
    ensures StatusText(code, message) == version + "200 OK"
  {
    assert Decimal(code) == "200";
    assert Decimal(code) + " " + message == "200 OK";
  }

  /** "200 OK" after bytes without a carriage return passes the success test. */
  lemma OkAfter(prefix: Bytes, rest: Bytes)
    requires 13 !in prefix
    ensures IsCacheable(prefix + Ok200 + rest)
  {
    var raw := prefix + Ok200 + rest;
    assert raw[|prefix|..|prefix| + 6] == Ok200;
    assert OccursAt(raw, Ok200, |prefix|);
    forall j | 0 <= j < |prefix| ensures !OccursAt(raw, BlankLineBytes, j) {
      assert raw[j] == prefix[j] != 13;
      if j + 4 <= |raw| {
        assert raw[j..j + 4][0] == raw[j];
      }
    }
    CacheableIff(raw);
  }

  /** server.py:66-85: the server answers the proxy's GET of a readable file with the file, as text of its type. */
  lemma ServerSendsFile(fs: Tree, log: string, verb: string, path: string, outcome: WriteOutcome)
    requires verb == "GET" && path != "" && NoSpace(path)
    requires ServerPaths.ResolveFilePath(path).Some? && Readable(fs, ServerPaths.ResolveFilePath(path).value)
    ensures var name := ServerPaths.ResolveFilePath(path).value;
      && Process(fs, log, OriginRequest(verb, path, None), outcome) == Served(fs, log, Some(GetPage(fs, path)))
      && GetPage(fs, path) == Response(200, "OK", [TypeField(name)], ReadBack(fs[name].text))
  {
    ServerReadsOriginRequest(verb, path, None);
    GetIsServed(fs, log, Request(verb, path, "HTTP/1.1", ProxyFields(), ""), outcome);
  }

  lemma GetIsServed(fs: Tree, log: string, req: Request, outcome: WriteOutcome)
    requires req.verb == "GET"
    ensures Respond(fs, log, req, outcome) == Served(fs, log, Some(GetPage(fs, req.path)))
  {
  }

  /**
   * The round trip of a cache miss: the server answers the proxy's GET of a
   * readable file with the file; the proxy stores that answer under the
   * path's file name and passes it on.
   */
  lemma MissFetchesFile(cfg: Config, c: Cache, fs: Tree, log: string, path: string, now: int, t: int, outcome: WriteOutcome)
    requires Valid(cfg, c) && !IsFresh(cfg, c, path, now)
    requires path != "" && NoSpace(path)
    requires ServerPaths.ResolveFilePath(path).Some? && Readable(fs, ServerPaths.ResolveFilePath(path).value)
    ensures var page := GetPage(fs, path);
      var raw := Encode(Text(page));
      && Process(fs, log, OriginRequest("GET", path, None), outcome) == Served(fs, log, Some(page))
      && page.code == 200 && page.body == ReadBack(fs[ServerPaths.ResolveFilePath(path).value].text)
      && Get(cfg, c, path, now, t, Some(raw)).sent == raw
      && Get(cfg, c, path, now, t, Some(raw)).cache.files == c.files[StorageKey(path) := raw]
  {
    var page := GetPage(fs, path);
    ServerSendsFile(fs, log, "GET", path, outcome);
    OkResponseIsCacheable(page);
    CacheableIsStored(cfg, c, path, now, t, Encode(Text(page)));
  }
}
