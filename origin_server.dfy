/**
 * The origin server's handlers and dispatch (server.py:65-208) over an
 * abstract document root: a map from names relative to `SERVER_DIR` to what
 * is stored under them, and the contents of `post_data.txt`. The functions
 * state which response a request leads to and what it writes; the class
 * performs it in place and sends the response's text.
 */
module OriginServer {
  import opened Wrappers
  import opened Seqs
  import opened PyStr
  import opened Utf8
  import opened HttpText
  import opened HttpResponse
  import opened ServerPaths
  import opened ServerRequest

  /**
   * What a name under the document root holds. `File` holds the text as it
   * was written to disk; `Unreadable` is a file that `open(..., 'r')` or
   * `read()` fails on.
   */
  datatype Node = File(text: string) | Unreadable | Directory

  /**
   * What `read()` of a file opened in text mode returns: Python's universal
   * newlines turn every "\r\n" and every lone "\r" into "\n". Nothing
   * else changes.
   */
  function ReadBack(s: string): (r: string)
    ensures '\r' !in r
    ensures '\r' !in s ==> r == s
    ensures |r| <= |s| && (r == [] <==> s == [])
  {
    if s == [] then []
    else if s[0] == '\r' then "\n" + ReadBack(if |s| >= 2 && s[1] == '\n' then s[2..] else s[1..])
    else [s[0]] + ReadBack(s[1..])
  }

  /** Both line ends Python translates become a single newline. */
  lemma ReadBackOfLineEnds()
    ensures ReadBack("a\r\nb\r") == "a\nb\n"
  {
    var s := "a\r\nb\r";
    assert ReadBack(s[4..]) == "\n";
    assert ReadBack(s[3..]) == "b\n";
    assert ReadBack(s[1..]) == "\n" + ReadBack(s[3..]);
  }

  /** The document root, by name relative to it. */
  type Tree = map<string, Node>

  /** The empty name is the document root itself, which exists and is a directory. */
  predicate Exists(fs: Tree, name: string) {
    name == "" || name in fs
  }

  predicate IsDirectory(fs: Tree, name: string) {
    name == "" || (name in fs && fs[name].Directory?)
  }

  /** The name is a file whose text can be read. */
  predicate Readable(fs: Tree, name: string) {
    Exists(fs, name) && !IsDirectory(fs, name) && fs[name].File?
  }

  /** server.py:71-72, 91-92. */
  function NotFoundPage(): Response {
    ErrorPage(404, "Not Found", "404 Not Found")
  }

  /** server.py:84-85, 109-110, 126-127, 156-157. */
  function ServerErrorPage(): Response {
    ErrorPage(500, "Internal Server Error", "")
  }

  /** server.py:79-80, 99: the field naming a file's type. */
  function TypeField(name: string): (string, string) {
    ("Content-Type", ContentType(name))
  }

  /** server.py:67-85. */
  function GetPage(fs: Tree, path: string): Response {
    match ResolveFilePath(path)
    case None => NotFoundPage()
    case Some(name) =>
      if !Exists(fs, name) || IsDirectory(fs, name) then NotFoundPage()
      else if fs[name].File? then Response(200, "OK", [TypeField(name)], ReadBack(fs[name].text))
      else ServerErrorPage()
  }

  /** server.py:87-110: the type and the length given explicitly, and no body. */
  function HeadPage(fs: Tree, path: string): Response {
    match ResolveFilePath(path)
    case None => NotFoundPage()
    case Some(name) =>
      if !Exists(fs, name) || IsDirectory(fs, name) then NotFoundPage()
      else if fs[name].File? then
        Response(200, "OK", [TypeField(name), ("Content-Length", Decimal(|Encode(ReadBack(fs[name].text))|))], "")
      else ServerErrorPage()
  }

  /**
   * How a file write of POST or PUT goes: it succeeds; the file cannot be
   * opened, so nothing changes; or the file is opened (for PUT, `'w'` has
   * already emptied it) and writing stops after `kept` characters.
   */
  datatype WriteOutcome = Written | NotOpened | Cut(kept: nat)

  /** The part of `data` a write cut after `kept` characters leaves on disk. */
  function Kept(data: string, kept: nat): (r: string)
    ensures |r| <= |data| && r == data[..|r|]
  {
    data[..if kept < |data| then kept else |data|]
  }

  /** The outcome of a handler that may write: the new root, the new post log, and the response. */
  datatype Effect = Effect(fs: Tree, log: string, reply: Response)

  /** The one path POST accepts (server.py:114). */
  const PostPath := "/post"

  /**
   * server.py:112-127: only `/post` is accepted; the body and a newline are
   * appended to the post log. `outcome` says how opening and writing the
   * log goes; any failure is answered with 500.
   */
  function PostEffect(fs: Tree, log: string, path: string, body: string, outcome: WriteOutcome): Effect {
    if path != PostPath then Effect(fs, log, ErrorPage(403, "Forbidden", "POST only allowed at /post"))
    else if outcome.NotOpened? then Effect(fs, log, ServerErrorPage())
    else if outcome.Cut? then Effect(fs, log + Kept(body + "\n", outcome.kept), ServerErrorPage())
    else Effect(fs, log + body + "\n", Response(200, "OK", [("Content-Type", "text/plain")], "POST received and stored."))
  }

  /** server.py:148-154: the answer to a PUT that stored its body. */
  function PutStoredPage(path: string, name: string, isNew: bool): Response {
    if isNew then Response(201, "Created", [("Content-Type", "text/plain"), ("Location", path)], "PUT stored as " + Basename(name))
    else Response(200, "OK", [("Content-Type", "text/plain")], "PUT updated " + Basename(name))
  }

  /**
   * server.py:129-157: a refused path gets 403; otherwise the body replaces
   * what the name held. A directory cannot be opened for writing; a write
   * cut short leaves the part written in the emptied file. Any failure is
   * answered with 500.
   */
  function PutEffect(fs: Tree, log: string, path: string, body: string, outcome: WriteOutcome): Effect {
    match ResolveFilePath(path)
    case None => Effect(fs, log, ErrorPage(403, "Forbidden", "Invalid path."))
    case Some(name) =>
      if outcome.NotOpened? || IsDirectory(fs, name) then Effect(fs, log, ServerErrorPage())
      else if outcome.Cut? then Effect(fs[name := File(Kept(body, outcome.kept))], log, ServerErrorPage())
      else Effect(fs[name := File(body)], log, PutStoredPage(path, name, !Exists(fs, name)))
  }

  /** The result of one connection: the new state and the response, if any is sent. */
  datatype Served = Served(fs: Tree, log: string, reply: Option<Response>)

  /**
   * server.py:192-193: for POST and PUT the `Content-Length` field is read
   * with `int()`, and a value it does not accept raises out of the request.
   */
  predicate LengthFails(req: Request) {
    && (req.verb == "POST" || req.verb == "PUT")
    && "content-length" in req.headers
    && !IsIntLiteral(req.headers["content-length"])
  }

  /** server.py:192-205: what a parsed request leads to. */
  function Respond(fs: Tree, log: string, req: Request, outcome: WriteOutcome): Served {
    if LengthFails(req) then Served(fs, log, None)
    else if req.verb !in AllowedMethods then Served(fs, log, Some(MethodNotAllowedPage()))
    else if req.verb == "GET" then Served(fs, log, Some(GetPage(fs, req.path)))
    else if req.verb == "HEAD" then Served(fs, log, Some(HeadPage(fs, req.path)))
    else
      var e := if req.verb == "POST" then PostEffect(fs, log, req.path, req.body, outcome)
               else PutEffect(fs, log, req.path, req.body, outcome);
      Served(e.fs, e.log, Some(e.reply))
  }

  /** server.py:161-208: one connection, from the received text to the response. */
  function Process(fs: Tree, log: string, data: string, outcome: WriteOutcome): Served {
    match ParseRequest(data)
    case NoRequest => Served(fs, log, None)
    case BadRequestLine => Served(fs, log, Some(ErrorPage(400, "Bad Request", "")))
    case Parsed(req) => Respond(fs, log, req, outcome)
  }

  // ---------------------------------------------------------------------
  // Properties of the handlers

  /** server.py:114-116: POST anywhere but `/post` is refused with 403 and stores nothing. */
  lemma PostOnlyAtPost(fs: Tree, log: string, path: string, body: string, outcome: WriteOutcome)
    ensures var e := PostEffect(fs, log, path, body, outcome);
      && (path != PostPath ==> e == Effect(fs, log, ErrorPage(403, "Forbidden", "POST only allowed at /post")))
      && (e.log != log ==> path == PostPath && !outcome.NotOpened?)
  {
  }

  /** server.py:119-124: an accepted POST appends the body and a newline to the log, and changes nothing else. */
  lemma PostAppends(fs: Tree, log: string, body: string)
    ensures var e := PostEffect(fs, log, PostPath, body, Written);
      && e.fs == fs && e.log == log + body + "\n"
      && e.log[..|log|] == log && e.log[|log|..] == body + "\n"
      && e.reply.code == 200
  {
    var e := PostEffect(fs, log, PostPath, body, Written);
    assert e.log[|log|..] == body + "\n";
  }

  /** server.py:133-135: a path the guard refuses is answered with 403 and nothing is written. */
  lemma PutRefused(fs: Tree, log: string, path: string, body: string, outcome: WriteOutcome)
    requires Contains(LStrip(path, '/'), "..")
    ensures PutEffect(fs, log, path, body, outcome) == Effect(fs, log, ErrorPage(403, "Forbidden", "Invalid path."))
  {
    if path == "/" || path == "/index.html" {
      LStripSlash(path);
    } else {
      ResolveOther(path);
    }
  }

  /** `/` and `/index.html` hold no "..". */
  lemma LStripSlash(path: string)
    requires path == "/" || path == "/index.html"
    ensures !Contains(LStrip(path, '/'), "..")
  {
    if path == "/" {
      assert LStrip(path, '/') == "";
    } else {
      assert path[0] == '/' && path[1..] == IndexFile;
      assert LStrip(IndexFile, '/') == IndexFile;
      assert LStrip(path, '/') == LStrip(IndexFile, '/');
      NoDotsInIndex();
    }
  }

  /**
   * server.py:137-154: a successful PUT makes the name hold the body and
   * changes nothing else; it is answered with 201 Created and the path as
   * `Location` exactly when the name did not exist before, and with 200
   * otherwise.
   */
  lemma PutStores(fs: Tree, log: string, path: string, body: string)
    requires ResolveFilePath(path).Some? && !IsDirectory(fs, ResolveFilePath(path).value)
    ensures var name := ResolveFilePath(path).value;
      var e := PutEffect(fs, log, path, body, Written);
      && e.fs == fs[name := File(body)] && e.log == log
      && (e.reply.code == 201 <==> !Exists(fs, name))
      && (e.reply.code == 201 ==> Lookup(e.reply.headers, "Location") == Some(path)
                                  && e.reply.body == "PUT stored as " + Basename(name))
      && (e.reply.code != 201 ==> e.reply == Response(200, "OK", [("Content-Type", "text/plain")], "PUT updated " + Basename(name)))
  {
  }

  /** A file that cannot be opened leaves the document root and the post log as they were. */
  lemma OpenFailureChangesNothing(fs: Tree, log: string, path: string, body: string)
    ensures PostEffect(fs, log, path, body, NotOpened).fs == fs && PostEffect(fs, log, path, body, NotOpened).log == log
    ensures PutEffect(fs, log, path, body, NotOpened).fs == fs && PutEffect(fs, log, path, body, NotOpened).log == log
  {
  }

  /**
   * server.py:119-120, 140-141: a write cut short is answered with 500 but
   * is not undone. POST has appended the start of the body and newline;
   * PUT has replaced the file with the start of the body, since `'w'`
   * empties it when it opens.
   */
  lemma CutWriteKeepsPrefix(fs: Tree, log: string, path: string, body: string, kept: nat)
    ensures var e := PostEffect(fs, log, PostPath, body, Cut(kept));
      && e.fs == fs && e.reply == ServerErrorPage()
      && |log| <= |e.log| <= |log| + |body| + 1 && e.log == log + (body + "\n")[..|e.log| - |log|]
    ensures ResolveFilePath(path).Some? && !IsDirectory(fs, ResolveFilePath(path).value) ==>
      var e := PutEffect(fs, log, path, body, Cut(kept));
      && e.log == log && e.reply == ServerErrorPage()
      && exists p :: e.fs == fs[ResolveFilePath(path).value := File(p)] && |p| <= |body| && p == body[..|p|]
  {
    if ResolveFilePath(path).Some? && !IsDirectory(fs, ResolveFilePath(path).value) {
      var p := Kept(body, kept);
      assert PutEffect(fs, log, path, body, Cut(kept)).fs == fs[ResolveFilePath(path).value := File(p)];
    }
  }

  /**
   * After a successful PUT, a GET of the same path serves the body just
   * stored, typed by the name, with its line ends read back as newlines; a
   * body without a carriage return comes back unchanged.
   */
  lemma PutThenGet(fs: Tree, log: string, path: string, body: string)
    requires ResolveFilePath(path).Some? && !IsDirectory(fs, ResolveFilePath(path).value)
    ensures var name := ResolveFilePath(path).value;
      GetPage(PutEffect(fs, log, path, body, Written).fs, path) == Response(200, "OK", [TypeField(name)], ReadBack(body))
    ensures '\r' !in body ==> GetPage(PutEffect(fs, log, path, body, Written).fs, path).body == body
  {
  }

  /**
   * server.py:87-107: HEAD of a readable file sends GET's status and fields
   * plus the length of the file, and no body; every other case gets the
   * same response as GET.
   */
  lemma HeadMatchesGet(fs: Tree, path: string)
    ensures var g, h := GetPage(fs, path), HeadPage(fs, path);
      if ResolveFilePath(path).Some? && Readable(fs, ResolveFilePath(path).value) then
        h == Response(g.code, g.message, g.headers + [("Content-Length", Decimal(|Encode(g.body)|))], "")
      else h == g
  {
  }

  /** For a non-empty file the text GET sends is the text HEAD sends followed by the file as read. */
  lemma HeadIsGetWithoutBody(fs: Tree, path: string)
    requires ResolveFilePath(path).Some? && Readable(fs, ResolveFilePath(path).value)
    requires fs[ResolveFilePath(path).value].text != ""
    ensures Text(GetPage(fs, path)) == Text(HeadPage(fs, path)) + ReadBack(fs[ResolveFilePath(path).value].text)
  {
    var name := ResolveFilePath(path).value;
    var text := ReadBack(fs[name].text);
    var length := ("Content-Length", Decimal(|Encode(text)|));
    assert GetPage(fs, path) == Response(200, "OK", [TypeField(name)], text);
    assert HeadPage(fs, path) == Response(200, "OK", [TypeField(name), length], "");
    LengthLast(TypeField(name), text);
  }

  /** A response with one field and a body, against the same response with its length given and no body. */
  lemma LengthLast(f: (string, string), text: string)
    requires text != "" && f.0 != "Content-Length"
    ensures var length := ("Content-Length", Decimal(|Encode(text)|));
      Text(Response(200, "OK", [f], text)) == Text(Response(200, "OK", [f, length], "")) + text
  {
    var length := ("Content-Length", Decimal(|Encode(text)|));
    assert Lookup([f], "Content-Length").None?;
    assert WithContentLength([f], text) == [f, length];
    assert WithContentLength([f, length], "") == [f, length];
  }

  /** GET and HEAD leave the document root and the post log alone. */
  lemma ReadsChangeNothing(fs: Tree, log: string, req: Request, outcome: WriteOutcome)
    requires req.verb == "GET" || req.verb == "HEAD"
    ensures Respond(fs, log, req, outcome).fs == fs && Respond(fs, log, req, outcome).log == log
    ensures Respond(fs, log, req, outcome).reply.Some?
  {
  }

  /** server.py:170-175: a first line that is not three tokens is answered with the 400 page. */
  lemma MalformedLineIs400(fs: Tree, log: string, data: string, outcome: WriteOutcome)
    requires data != "" && |Words(Split(data, Crlf)[0])| != 3
    ensures Process(fs, log, data, outcome) == Served(fs, log, Some(ErrorPage(400, "Bad Request", "")))
  {
  }

  /** server.py:197-198: a method outside the four is answered with 405 and changes nothing. */
  lemma OtherMethodIs405(fs: Tree, log: string, req: Request, outcome: WriteOutcome)
    requires req.verb !in AllowedMethods
    ensures Respond(fs, log, req, outcome) == Served(fs, log, Some(MethodNotAllowedPage()))
  {
  }

  // ---------------------------------------------------------------------
  // The server as it runs

  class Server {
    /** The files under `SERVER_DIR`. */
    var files: Tree
    /** The contents of `post_data.txt`. */
    var postLog: string

    constructor(files: Tree, postLog: string)
      ensures this.files == files && this.postLog == postLog
    {
      this.files := files;
      this.postLog := postLog;
    }

    /**
     * server.py:161-208: serve one connection. `outcome` says how the file
     * write of a POST or PUT goes; the result is what `sendall`
     * gets, or `None` when nothing is sent.
     */
    method ProcessRequest(data: string, outcome: WriteOutcome) returns (wire: Option<Bytes>)
      modifies this
      ensures var s := Process(old(files), old(postLog), data, outcome);
        && files == s.fs && postLog == s.log
        && wire == (if s.reply.Some? then Some(Encode(Text(s.reply.value))) else None)
    {
      if data == "" {
        return None;
      }
      var lines := Split(data, Crlf);
      var tokens := Words(lines[0]);
      if |tokens| != 3 {
        var w := Send(ErrorPage(400, "Bad Request", ""));
        return Some(w);
      }
      var headers := ParseHeaders(lines[1..]);
      var body := Body(data);
      var request := Request(tokens[0], tokens[1], tokens[2], headers, body);
      assert ParseRequest(data) == Parsed(request);
      wire := Dispatch(request, outcome);
    }

    /** server.py:192-205: run the handler of the method and send what it answers. */
    method Dispatch(request: Request, outcome: WriteOutcome) returns (wire: Option<Bytes>)
      modifies this
      ensures var s := Respond(old(files), old(postLog), request, outcome);
        && files == s.fs && postLog == s.log
        && wire == (if s.reply.Some? then Some(Encode(Text(s.reply.value))) else None)
    {
      ghost var s := Respond(files, postLog, request, outcome);
      var verb, path, headers, body := request.verb, request.path, request.headers, request.body;
      if verb == "POST" || verb == "PUT" {
        if "content-length" in headers && !IsIntLiteral(headers["content-length"]) {
          return None;
        }
      }
      assert !LengthFails(request);
      var reply;
      if verb !in AllowedMethods {
        reply := MethodNotAllowedPage();
      } else if verb == "GET" {
        reply := HandleGetRequest(path);
      } else if verb == "HEAD" {
        reply := HandleHeadRequest(path);
      } else if verb == "POST" {
        reply := HandlePostRequest(path, body, outcome);
        assert s == Served(files, postLog, Some(reply));
      } else {
        reply := HandlePutRequest(path, body, outcome);
        assert s == Served(files, postLog, Some(reply));
      }
      assert s == Served(files, postLog, Some(reply));
      var w := Send(reply);
      wire := Some(w);
    }

    /** server.py:67-85: the response to a GET. */
    method HandleGetRequest(path: string) returns (reply: Response)
      ensures reply == GetPage(files, path)
    {
      var name := ResolveFilePath(path);
      if name.None? || !Exists(files, name.value) || IsDirectory(files, name.value) {
        return NotFoundPage();
      }
      var node := files[name.value];
      if !node.File? {
        return ServerErrorPage();
      }
      var content := ReadBack(node.text);
      reply := Response(200, "OK", [TypeField(name.value)], content);
    }

    /** server.py:87-110: the response to a HEAD. */
    method HandleHeadRequest(path: string) returns (reply: Response)
      ensures reply == HeadPage(files, path)
    {
      var name := ResolveFilePath(path);
      if name.None? || !Exists(files, name.value) || IsDirectory(files, name.value) {
        return NotFoundPage();
      }
      var node := files[name.value];
      if !node.File? {
        return ServerErrorPage();
      }
      var content := ReadBack(node.text);
      var contentLength := Decimal(|Encode(content)|);
      reply := Response(200, "OK", [TypeField(name.value), ("Content-Length", contentLength)], "");
    }

    /** server.py:112-127: append an accepted POST body to the log; the response to send. */
    method HandlePostRequest(path: string, body: string, outcome: WriteOutcome) returns (reply: Response)
      modifies this
      ensures var e := PostEffect(old(files), old(postLog), path, body, outcome);
        files == e.fs && postLog == e.log && reply == e.reply
    {
      if path != PostPath {
        return ErrorPage(403, "Forbidden", "POST only allowed at /post");
      }
      if outcome.NotOpened? {
        return ServerErrorPage();
      }
      if outcome.Cut? {
        postLog := postLog + Kept(body + "\n", outcome.kept);
        return ServerErrorPage();
      }
      postLog := postLog + body + "\n";
      reply := Response(200, "OK", [("Content-Type", "text/plain")], "POST received and stored.");
    }

    /** server.py:129-157: write a PUT body to its file; the response to send. */
    method HandlePutRequest(path: string, body: string, outcome: WriteOutcome) returns (reply: Response)
      modifies this
      ensures var e := PutEffect(old(files), old(postLog), path, body, outcome);
        files == e.fs && postLog == e.log && reply == e.reply
    {
      var target := ResolveFilePath(path);
      if target.None? {
        return ErrorPage(403, "Forbidden", "Invalid path.");
      }
      var name := target.value;
      var isNewFile := !Exists(files, name);
      if outcome.NotOpened? || IsDirectory(files, name) {
        return ServerErrorPage();
      }
      if outcome.Cut? {
        files := files[name := File(Kept(body, outcome.kept))];
        return ServerErrorPage();
      }
      files := files[name := File(body)];
      if isNewFile {
        reply := Response(201, "Created", [("Content-Type", "text/plain"), ("Location", path)], "PUT stored as " + Basename(name));
      } else {
        reply := Response(200, "OK", [("Content-Type", "text/plain")], "PUT updated " + Basename(name));
      }
    }

    /** server.py:16-33: one call of `send_http_response`. */
    static method Send(r: Response) returns (wire: Bytes)
      ensures wire == Encode(Text(r))
    {
      var _, w := SendHttpResponse(r.code, r.message, r.headers, r.body);
      wire := w;
    }
  }
}
