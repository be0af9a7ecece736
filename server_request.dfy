/**
 * How the origin server reads a request (server.py:161-190): the request
 * line split at whitespace into exactly three tokens, the header lines up to
 * the first empty one folded into a dict under lowercased names, and the body
 * after the first blank line.
 */
module ServerRequest {
  import opened Wrappers
  import opened Seqs
  import opened PyStr
  import opened HttpText

  /** A request the server can dispatch. */
  datatype Request = Request(verb: string, path: string, version: string, headers: map<string, string>, body: string)

  /** What reading the received text leads to. */
  datatype Parse =
    | NoRequest          // server.py:164-165: nothing was received, nothing is answered
    | BadRequestLine     // server.py:172-175: not three tokens, answered with 400
    | Parsed(request: Request)

  /** server.py:185-186: a header line cut at its first ": ", the name lowercased. */
  function HeaderField(line: string): (r: Option<(string, string)>)
    ensures r.None? <==> !Contains(line, ": ")
  {
    var parts := SplitOnce(line, ": ");
    if |parts| == 2 then Some((Lower(parts[0]), parts[1])) else None
  }

  /** server.py:179-183: the lines after the request line, up to the first empty one. */
  function HeaderLines(lines: seq<string>): (r: seq<string>)
    ensures |r| <= |lines| && r == lines[..|r|]
    ensures forall i :: 0 <= i < |r| ==> r[i] != ""
    ensures |r| < |lines| ==> lines[|r|] == ""
  {
    if lines == [] || lines[0] == "" then []
    else [lines[0]] + HeaderLines(lines[1..])
  }

  /** What each line gives: a field, or nothing for a line without ": ". */
  function Fields(lines: seq<string>): (r: seq<Option<(string, string)>>)
    ensures |r| == |lines| && forall i :: 0 <= i < |lines| ==> r[i] == HeaderField(lines[i])
  {
    seq(|lines|, i requires 0 <= i < |lines| => HeaderField(lines[i]))
  }

  /** Fields assigned into a dict one after the other, a later one replacing an earlier value. */
  function Assigned(fs: seq<Option<(string, string)>>): map<string, string> {
    if fs == [] then map[]
    else
      var m := Assigned(fs[..|fs| - 1]);
      match fs[|fs| - 1]
      case None => m
      case Some(f) => m[f.0 := f.1]
  }

  /** server.py:184-188: the dict the header lines build. */
  function FieldMap(lines: seq<string>): map<string, string> {
    Assigned(Fields(lines))
  }

  /** server.py:181-188: the loop that fills `headers`, with its `break` and `continue`. */
  method ParseHeaders(lines: seq<string>) returns (headers: map<string, string>)
    ensures headers == FieldMap(HeaderLines(lines))
  {
    headers := map[];
    var i := 0;
    while i < |lines|
      invariant i <= |HeaderLines(lines)|
      invariant headers == FieldMap(lines[..i])
    {
      var line := lines[i];
      if line == "" {
        HeaderLinesEnd(lines, i);
        break;
      }
      FieldMapStep(lines, i);
      var parts := SplitOnce(line, ": ");
      if |parts| != 2 {
        i := i + 1;
        continue;
      }
      var name, value := parts[0], parts[1];
      headers := headers[Lower(name) := value];
      i := i + 1;
    }
    assert lines[..i] == HeaderLines(lines);
  }

  /** The header lines end at the first empty line. */
  lemma HeaderLinesEnd(lines: seq<string>, i: nat)
    requires i <= |HeaderLines(lines)| && i < |lines| && lines[i] == ""
    ensures |HeaderLines(lines)| == i
  {
  }

  /** One more line read into the dict. */
  lemma FieldMapStep(lines: seq<string>, i: nat)
    requires i < |lines|
    ensures var m := FieldMap(lines[..i]);
      FieldMap(lines[..i + 1]) == match HeaderField(lines[i]) case None => m case Some(f) => m[f.0 := f.1]
  {
    assert Fields(lines[..i + 1])[..i] == Fields(lines[..i]);
  }

  /** server.py:178, 190: everything after the first blank line, or nothing when there is none. */
  function Body(data: string): string {
    var parts := SplitOnce(data, BlankLine);
    if |parts| == 2 then parts[1] else ""
  }

  /** server.py:161-190. */
  function ParseRequest(data: string): (r: Parse)
    ensures r.Parsed? ==> NoSpace(r.request.verb) && NoSpace(r.request.path) && NoSpace(r.request.version)
  {
    if data == "" then NoRequest
    else
      var lines := Split(data, Crlf);
      var tokens := Words(lines[0]);
      if |tokens| != 3 then BadRequestLine
      else Parsed(Request(tokens[0], tokens[1], tokens[2], FieldMap(HeaderLines(lines[1..])), Body(data)))
  }

  // ---------------------------------------------------------------------
  // Properties

  /** A line `name: value` whose name holds no colon gives the lowercased name and the whole value. */
  lemma HeaderFieldOf(name: string, value: string)
    requires ':' !in name
    ensures HeaderField(name + ": " + value) == Some((Lower(name), value))
  {
    var line := name + ": " + value;
    FindAfterClean(name, ": ", value);
    assert line[..|name|] == name;
    assert line[|name| + 2..] == value;
  }

  /**
   * The dict holds a name exactly when some header line gives it, and its
   * value is the one of the last such line.
   */
  lemma FieldMapHas(lines: seq<string>, k: string)
    ensures k in FieldMap(lines) <==> exists i :: 0 <= i < |lines| && Gives(lines[i], k)
  {
    var fs := Fields(lines);
    AssignedHas(fs, k);
    if exists i :: 0 <= i < |fs| && fs[i].Some? && fs[i].value.0 == k {
      var i :| 0 <= i < |fs| && fs[i].Some? && fs[i].value.0 == k;
      assert Gives(lines[i], k);
    }
    if exists i :: 0 <= i < |lines| && Gives(lines[i], k) {
      var i :| 0 <= i < |lines| && Gives(lines[i], k);
      assert fs[i].Some? && fs[i].value.0 == k;
    }
  }

  /** The line is a header line whose lowercased name is `k`. */
  predicate Gives(line: string, k: string) {
    HeaderField(line).Some? && HeaderField(line).value.0 == k
  }

  lemma FieldMapLast(lines: seq<string>, k: string, j: nat)
    requires j < |lines| && Gives(lines[j], k)
    requires forall i :: j < i < |lines| ==> !Gives(lines[i], k)
    ensures k in FieldMap(lines) && FieldMap(lines)[k] == HeaderField(lines[j]).value.1
  {
    var fs := Fields(lines);
    forall i | j < i < |fs| ensures fs[i].None? || fs[i].value.0 != k {
      assert !Gives(lines[i], k);
    }
    AssignedLast(fs, k, j);
  }

  lemma {:induction false} AssignedHas(fs: seq<Option<(string, string)>>, k: string)
    ensures k in Assigned(fs) <==> exists i :: 0 <= i < |fs| && fs[i].Some? && fs[i].value.0 == k
    decreases |fs|
  {
    if fs != [] {
      var init := fs[..|fs| - 1];
      AssignedHas(init, k);
      if exists i :: 0 <= i < |init| && init[i].Some? && init[i].value.0 == k {
        var i :| 0 <= i < |init| && init[i].Some? && init[i].value.0 == k;
        assert fs[i] == init[i];
      }
      if exists i :: 0 <= i < |fs| && fs[i].Some? && fs[i].value.0 == k {
        var i :| 0 <= i < |fs| && fs[i].Some? && fs[i].value.0 == k;
        if i < |init| {
          assert init[i] == fs[i];
        }
      }
    }
  }

  lemma {:induction false} AssignedLast(fs: seq<Option<(string, string)>>, k: string, j: nat)
    requires j < |fs| && fs[j].Some? && fs[j].value.0 == k
    requires forall i :: j < i < |fs| ==> fs[i].None? || fs[i].value.0 != k
    ensures k in Assigned(fs) && Assigned(fs)[k] == fs[j].value.1
    decreases |fs|
  {
    var init := fs[..|fs| - 1];
    if j < |fs| - 1 {
      assert init[j] == fs[j];
      forall i | j < i < |init| ensures init[i].None? || init[i].value.0 != k {
        assert init[i] == fs[i];
      }
      AssignedLast(init, k, j);
    }
  }

  /** The body is everything after the first blank line, blank lines inside it included. */
  lemma BodyAfterHead(head: string, body: string)
    requires EndsBeforeBlankLine(head)
    ensures Body(head + BlankLine + body) == body
  {
    var s := head + BlankLine + body;
    FirstStaysFirst(head, BlankLine, body);
    assert s[|head| + 4..] == body;
  }

  /** A request without a blank line has an empty body. */
  lemma NoBlankNoBody(data: string)
    requires !Contains(data, BlankLine)
    ensures Body(data) == ""
  {
  }
}
