/**
 * How the origin server writes its responses (server.py:14-50): a status
 * line, the header fields in the order they were put into the dict, a
 * `Connection: close` line, an empty line and the body, all encoded as UTF-8.
 */
module HttpResponse {
  import opened Wrappers
  import opened Seqs
  import opened PyStr
  import opened Utf8
  import opened HttpText

  /** server.py:10. */
  const HttpVersion := "HTTP/1.1"

  /** server.py:11, in the order the 405 response lists them. */
  const AllowedMethods: seq<string> := ["GET", "POST", "PUT", "HEAD"]

  /** A dict of header fields, in insertion order. */
  type Headers = seq<(string, string)>

  /** `headers.get(k)`: the value of the first field named `k`. */
  function Lookup(h: Headers, k: string): (r: Option<string>)
    ensures r.None? <==> forall i :: 0 <= i < |h| ==> h[i].0 != k
    ensures r.Some? ==> exists i :: 0 <= i < |h| && h[i] == (k, r.value)
  {
    if h == [] then None
    else if h[0].0 == k then Some(h[0].1)
    else
      var r := Lookup(h[1..], k);
      assert r.Some? ==> exists i :: 0 <= i < |h[1..]| && h[1..][i] == (k, r.value);
      assert r.Some? ==> exists i :: 1 <= i < |h| && h[i] == (k, r.value);
      r
  }

  /**
   * server.py:19-20: a non-empty body without a `Content-Length` field gets
   * one, added last, holding the length of the body's UTF-8 encoding.
   */
  function WithContentLength(h: Headers, body: string): Headers {
    if body != "" && Lookup(h, "Content-Length").None? then h + [("Content-Length", Decimal(|Encode(body)|))]
    else h
  }

  /** One header line, without its line end. */
  function FieldText(f: (string, string)): string {
    f.0 + ": " + f.1
  }

  function FieldTexts(h: Headers): (r: seq<string>)
    ensures |r| == |h| && forall i :: 0 <= i < |h| ==> r[i] == FieldText(h[i])
  {
    seq(|h|, i requires 0 <= i < |h| => FieldText(h[i]))
  }

  /** Each line followed by a line end. */
  function Lines(ls: seq<string>): string {
    if ls == [] then "" else ls[0] + Crlf + Lines(ls[1..])
  }

  /** The first line of a response. */
  function StatusText(code: nat, message: string): string {
    HttpVersion + " " + Decimal(code) + " " + message
  }

  /** The lines before a response's body: status, fields, `Connection: close`, and the empty line. */
  function HeadLines(code: nat, message: string, fields: Headers): seq<string> {
    [StatusText(code, message)] + FieldTexts(fields) + ["Connection: close", ""]
  }

  /** server.py:16-30: the text `send_http_response` encodes and sends. */
  function ResponseText(code: nat, message: string, headers: Headers, body: string): string {
    Lines(HeadLines(code, message, WithContentLength(headers, body))) + body
  }

  /**
   * server.py:16-33. The dict the caller passed is updated in place; here it
   * is returned as `fields`. The wire bytes are the UTF-8 encoding of the text.
   */
  method SendHttpResponse(code: nat, message: string, headers: Headers, body: string)
    returns (fields: Headers, wire: Bytes)
    ensures fields == WithContentLength(headers, body)
    ensures wire == Encode(ResponseText(code, message, headers, body))
  {
    fields := headers;
    var response := HttpVersion + " " + Decimal(code) + " " + message + Crlf;
    if body != "" && Lookup(fields, "Content-Length").None? {
      fields := fields + [("Content-Length", Decimal(|Encode(body)|))];
    }
    assert fields == WithContentLength(headers, body);
    ghost var ls := [StatusText(code, message)];
    assert response == Lines(ls);
    var i := 0;
    while i < |fields|
      invariant i <= |fields|
      invariant ls == [StatusText(code, message)] + FieldTexts(fields[..i])
      invariant response == Lines(ls)
    {
      var key, value := fields[i].0, fields[i].1;
      LinesSnoc(ls, key + ": " + value);
      FieldTextsSnoc(fields, i);
      ls := ls + [key + ": " + value];
      response := response + (key + ": " + value) + Crlf;
      i := i + 1;
    }
    assert fields[..i] == fields;
    CloseHead(code, message, fields, ls);
    response := response + "Connection: close" + Crlf + "" + Crlf;
    if body != "" {
      response := response + body;
    }
    assert response == Lines(HeadLines(code, message, fields)) + body;
    wire := Encode(response);
  }

  lemma FieldTextsSnoc(fields: Headers, i: nat)
    requires i < |fields|
    ensures FieldTexts(fields[..i + 1]) == FieldTexts(fields[..i]) + [fields[i].0 + ": " + fields[i].1]
  {
    assert fields[..i + 1][i] == fields[i];
  }

  /** The status line and the field lines, closed by `Connection: close` and the empty line, are the head. */
  lemma CloseHead(code: nat, message: string, fields: Headers, ls: seq<string>)
    requires ls == [StatusText(code, message)] + FieldTexts(fields)
    ensures Lines(ls) + "Connection: close" + Crlf + "" + Crlf == Lines(HeadLines(code, message, fields))
  {
    LinesSnoc(ls, "Connection: close");
    LinesSnoc(ls + ["Connection: close"], "");
    assert ls + ["Connection: close"] + [""] == HeadLines(code, message, fields);
  }

  lemma {:induction false} LinesSnoc(ls: seq<string>, l: string)
    ensures Lines(ls + [l]) == Lines(ls) + l + Crlf
    decreases |ls|
  {
    if ls == [] {
      assert [] + [l] == [l];
    } else {
      assert (ls + [l])[1..] == ls[1..] + [l];
      LinesSnoc(ls[1..], l);
    }
  }

  /** What one call of `send_http_response` is given. */
  datatype Response = Response(code: nat, message: string, headers: Headers, body: string)

  /** The text sent for a response. */
  function Text(r: Response): string {
    ResponseText(r.code, r.message, r.headers, r.body)
  }

  /** server.py:35-40: an error page, whose body defaults to the code and the message. */
  function ErrorPage(code: nat, message: string, body: string): Response {
    var text := if body == "" then Decimal(code) + " " + message else body;
    Response(code, message, [("Content-Type", "text/html")], text)
  }

  /** server.py:42-50: the 405 page, listing the methods the server accepts. */
  function MethodNotAllowedPage(): Response {
    Response(405, "Method Not Allowed",
      [("Content-Type", "text/plain"), ("Allow", Join(AllowedMethods, ", "))], "Method Not Allowed")
  }

  // ---------------------------------------------------------------------
  // Properties

  /**
   * server.py:42-50: the 405 page is text/plain, lists the four methods in
   * an `Allow` field, and gets a `Content-Length` of 18, the length of its
   * body, as its last field.
   */
  lemma MethodNotAllowedFields()
    ensures var p := MethodNotAllowedPage();
      && p.code == 405 && p.body == "Method Not Allowed"
      && WithContentLength(p.headers, p.body) ==
        [("Content-Type", "text/plain"), ("Allow", "GET, POST, PUT, HEAD"), ("Content-Length", "18")]
  {
    NotAllowedHeaders();
    var p := MethodNotAllowedPage();
    assert p.body == "Method Not Allowed";
    NotAllowedLengthField(p.headers, p.body);
  }

  lemma NotAllowedHeaders()
    ensures MethodNotAllowedPage().headers == [("Content-Type", "text/plain"), ("Allow", "GET, POST, PUT, HEAD")]
  {
    AllowList();
  }

  lemma NotAllowedLengthField(h: Headers, body: string)
    requires h == [("Content-Type", "text/plain"), ("Allow", "GET, POST, PUT, HEAD")]
    requires body == "Method Not Allowed"
    ensures WithContentLength(h, body) == h + [("Content-Length", "18")]
  {
    NotAllowedLength(body);
    DecimalOf18();
    LengthAddedLast(h, body, 18);
  }

  /** Two fields other than `Content-Length` and a body of `n` bytes: the length comes third. */
  lemma LengthAddedLast(h: Headers, body: string, n: nat)
    requires |h| == 2 && h[0].0 != "Content-Length" && h[1].0 != "Content-Length"
    requires body != "" && |Encode(body)| == n
    ensures WithContentLength(h, body) == h + [("Content-Length", Decimal(n))]
  {
    assert Lookup(h, "Content-Length").None?;
  }

  lemma DecimalOf18()
    ensures Decimal(18) == "18"
  {
    assert Decimal(1) == "1";
  }

  /** server.py:44: the methods joined by commas. */
  lemma AllowList()
    ensures Join(AllowedMethods, ", ") == "GET, POST, PUT, HEAD"
  {
    assert AllowedMethods[1..] == ["POST", "PUT", "HEAD"];
    assert AllowedMethods[1..][1..] == ["PUT", "HEAD"];
    assert AllowedMethods[1..][1..][1..] == ["HEAD"];
  }

  lemma NotAllowedLength(body: string)
    requires body == "Method Not Allowed"
    ensures |Encode(body)| == 18
  {
    assert IsAscii(body);
    EncodeAscii(body);
  }

  /**
   * A non-empty body without a `Content-Length` field gets one, last, whose
   * value is the decimal length of the body's UTF-8 encoding; the other
   * fields stay as they were.
   */
  lemma ContentLengthAdded(h: Headers, body: string)
    requires body != "" && Lookup(h, "Content-Length").None?
    ensures var r := WithContentLength(h, body);
      && r[..|h|] == h && |r| == |h| + 1
      && Lookup(r, "Content-Length") == Some(Decimal(|Encode(body)|))
      && DecimalValue(Decimal(|Encode(body)|)) == |Encode(body)|
  {
    var r := WithContentLength(h, body);
    assert r[..|h|] == h;
    LookupAfter(h, ("Content-Length", Decimal(|Encode(body)|)));
    DecimalRoundTrip(|Encode(body)|);
  }

  /** A field appended to fields that lack its name is the one found. */
  lemma {:induction false} LookupAfter(h: Headers, f: (string, string))
    requires Lookup(h, f.0).None?
    ensures Lookup(h + [f], f.0) == Some(f.1)
    decreases |h|
  {
    if h == [] {
      assert [] + [f] == [f];
    } else {
      assert (h + [f])[1..] == h[1..] + [f];
      LookupAfter(h[1..], f);
    }
  }

  /** server.py:19, 100-107: a `Content-Length` already given, or an empty body, leaves the fields alone. */
  lemma ContentLengthKept(h: Headers, body: string)
    requires body == "" || Lookup(h, "Content-Length").Some?
    ensures WithContentLength(h, body) == h
  {
  }

  /**
   * Reading a response back line by line gives the status line, one line
   * per field in dict order, `Connection: close`, an empty line, and then
   * the lines of the body, as long as no line holds a carriage return.
   */
  lemma ResponseLines(code: nat, message: string, headers: Headers, body: string)
    requires '\r' !in message
    requires forall i :: 0 <= i < |headers| ==> '\r' !in headers[i].0 && '\r' !in headers[i].1
    ensures Split(ResponseText(code, message, headers, body), Crlf) ==
      HeadLines(code, message, WithContentLength(headers, body)) + Split(body, Crlf)
  {
    var fields := WithContentLength(headers, body);
    var ls := HeadLines(code, message, fields);
    forall i | 0 <= i < |ls| ensures '\r' !in ls[i] {
      if i == 0 {
        assert '\r' !in Decimal(code) by {
          assert forall j :: 0 <= j < |Decimal(code)| ==> IsDigit(Decimal(code)[j]);
        }
        assert ls[0] == HttpVersion + " " + Decimal(code) + " " + message;
      } else if i <= |fields| {
        assert ls[i] == FieldText(fields[i - 1]);
        NoCrInField(headers, body, i - 1);
      } else {
        assert ls[i] == "Connection: close" || ls[i] == "";
      }
    }
    LinesSplit(ls, body);
  }

  /** No field of the completed dict holds a carriage return when none of the given fields does. */
  lemma NoCrInField(headers: Headers, body: string, i: nat)
    requires forall i :: 0 <= i < |headers| ==> '\r' !in headers[i].0 && '\r' !in headers[i].1
    requires i < |WithContentLength(headers, body)|
    ensures '\r' !in FieldText(WithContentLength(headers, body)[i])
  {
    var fields := WithContentLength(headers, body);
    if i == |headers| {
      var n := Decimal(|Encode(body)|);
      assert forall j :: 0 <= j < |n| ==> IsDigit(n[j]);
      assert FieldText(fields[i]) == "Content-Length" + ": " + n;
    } else {
      assert fields[i] == headers[i];
    }
  }

  /**
   * server.py:35-40: an error page without a body of its own carries the
   * code and the message as a text/html body, announced with its length.
   */
  lemma ErrorPageText(code: nat, message: string)
    requires IsAscii(message)
    ensures var body := Decimal(code) + " " + message;
      Text(ErrorPage(code, message, "")) ==
        Lines([StatusText(code, message), "Content-Type: text/html", "Content-Length: " + Decimal(|body|), "Connection: close", ""]) + body
  {
    var body := Decimal(code) + " " + message;
    assert Text(ErrorPage(code, message, "")) == ResponseText(code, message, [("Content-Type", "text/html")], body);
    ErrorPageHead(code, message);
  }

  lemma ErrorPageHead(code: nat, message: string)
    requires IsAscii(message)
    ensures var body := Decimal(code) + " " + message;
      HeadLines(code, message, WithContentLength([("Content-Type", "text/html")], body)) ==
        [StatusText(code, message), "Content-Type: text/html", "Content-Length: " + Decimal(|body|), "Connection: close", ""]
  {
    var body := Decimal(code) + " " + message;
    DefaultBodyIsAscii(code, message);
    EncodeAscii(body);
    HtmlFieldText();
    TwoFieldHead(code, message, ("Content-Type", "text/html"), body);
  }

  /** The default body of an error page is ASCII when its message is. */
  lemma DefaultBodyIsAscii(code: nat, message: string)
    requires IsAscii(message)
    ensures IsAscii(Decimal(code) + " " + message)
  {
    var d := Decimal(code);
    var body := d + " " + message;
    forall i | 0 <= i < |body| ensures body[i] as int < 0x80 {
      if i < |d| {
        assert body[i] == d[i] && IsDigit(d[i]);
      } else if i > |d| {
        assert body[i] == message[i - |d| - 1];
      }
    }
  }

  /** The lines before the body of a response with one given field and an added length. */
  lemma TwoFieldHead(code: nat, message: string, f: (string, string), body: string)
    requires body != "" && f.0 != "Content-Length" && |Encode(body)| == |body|
    ensures HeadLines(code, message, WithContentLength([f], body)) ==
      [StatusText(code, message), FieldText(f), "Content-Length: " + Decimal(|body|), "Connection: close", ""]
  {
    var g := ("Content-Length", Decimal(|body|));
    OneFieldLength(f, body);
    TwoFieldTexts(f, g);
    HeadOfTwo(code, message, [f, g], FieldText(f), FieldText(g));
    LengthFieldText(Decimal(|body|));
  }

  lemma OneFieldLength(f: (string, string), body: string)
    requires body != "" && f.0 != "Content-Length"
    ensures WithContentLength([f], body) == [f, ("Content-Length", Decimal(|Encode(body)|))]
  {
    assert Lookup([f], "Content-Length").None?;
  }

  lemma TwoFieldTexts(f: (string, string), g: (string, string))
    ensures FieldTexts([f, g]) == [FieldText(f), FieldText(g)]
  {
  }

  lemma HeadOfTwo(code: nat, message: string, fs: Headers, a: string, b: string)
    requires FieldTexts(fs) == [a, b]
    ensures HeadLines(code, message, fs) == [StatusText(code, message), a, b, "Connection: close", ""]
  {
  }

  lemma HtmlFieldText()
    ensures FieldText(("Content-Type", "text/html")) == "Content-Type: text/html"
  {
  }

  lemma LengthFieldText(n: string)
    ensures FieldText(("Content-Length", n)) == "Content-Length: " + n
  {
  }

  /** server.py:173: the 400 page of a malformed request line has the body "400 Bad Request", 15 bytes. */
  lemma BadRequestPage()
    ensures Text(ErrorPage(400, "Bad Request", "")) ==
      Lines(["HTTP/1.1 400 Bad Request", "Content-Type: text/html", "Content-Length: 15", "Connection: close", ""]) +
      "400 Bad Request"
  {
    assert IsAscii("Bad Request");
    ErrorPageText(400, "Bad Request");
    BadRequestParts(400, "Bad Request");
  }

  lemma BadRequestParts(code: nat, message: string)
    requires code == 400 && message == "Bad Request"
    ensures StatusText(code, message) == "HTTP/1.1 400 Bad Request"
    ensures Decimal(code) + " " + message == "400 Bad Request"
    ensures "Content-Length: " + Decimal(|Decimal(code) + " " + message|) == "Content-Length: 15"
  {
    assert Decimal(code) == "400";
    assert |Decimal(code) + " " + message| == 15;
    assert Decimal(15) == "15";
  }

  /** Splitting lines that hold no carriage return, followed by anything, gives them back. */
  lemma {:induction false} LinesSplit(ls: seq<string>, tail: string)
    requires forall i :: 0 <= i < |ls| ==> '\r' !in ls[i]
    ensures Split(Lines(ls) + tail, Crlf) == ls + Split(tail, Crlf)
    decreases |ls|
  {
    if ls == [] {
      assert Lines(ls) + tail == tail;
    } else {
      SplitFirstLine(ls, tail);
      LinesSplit(ls[1..], tail);
      ConsAppend(ls, Split(Lines(ls) + tail, Crlf), Split(Lines(ls[1..]) + tail, Crlf), Split(tail, Crlf));
    }
  }

  lemma SplitFirstLine(ls: seq<string>, tail: string)
    requires ls != [] && '\r' !in ls[0]
    ensures Split(Lines(ls) + tail, Crlf) == [ls[0]] + Split(Lines(ls[1..]) + tail, Crlf)
  {
    var head, more := ls[0], Lines(ls[1..]) + tail;
    assert Lines(ls) + tail == head + Crlf + more;
    assert Crlf[0] !in head;
    SplitFirst(head, Crlf, more);
  }
}
