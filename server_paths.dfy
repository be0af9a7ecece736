/**
 * Where the origin server looks for the file of a request path
 * (server.py:54-63). Files are named relative to the document root
 * `SERVER_DIR`: the server opens `os.path.join(SERVER_DIR, name)`, which is
 * `SERVER_DIR + "/" + name` for every name this module produces, since none
 * of them starts with a slash.
 */
module ServerPaths {
  import opened Wrappers
  import opened Seqs
  import opened PyStr

  /** The file served for `/` and `/index.html`. */
  const IndexFile := "index.html"

  /**
   * server.py:54-63: `/` and `/index.html` name the index file; any other
   * path loses its leading slashes and is refused when what is left holds
   * "..".
   */
  function ResolveFilePath(path: string): (r: Option<string>)
    ensures r.Some? ==> !Contains(r.value, "..")
    ensures r.Some? ==> r.value == [] || r.value[0] != '/'
  {
    if path == "/" || path == "/index.html" then
      assert !Contains(IndexFile, "..") by {
        NoDotsInIndex();
      }
      Some(IndexFile)
    else
      var rel := LStrip(path, '/');
      if Contains(rel, "..") then None else Some(rel)
  }

  lemma NoDotsInIndex()
    ensures !Contains(IndexFile, "..")
  {
    forall i ensures !OccursAt(IndexFile, "..", i) {
      if 0 <= i && i + 2 <= |IndexFile| {
        assert IndexFile[i..i + 2][0] == IndexFile[i];
        assert IndexFile[i..i + 2][1] == IndexFile[i + 1];
        assert IndexFile[i] == '.' ==> i == 5;
        assert IndexFile[6] == 'h';
      }
    }
  }

  /** For every other path: refused exactly when the relative name holds "..", otherwise that name. */
  lemma ResolveOther(path: string)
    requires path != "/" && path != "/index.html"
    ensures ResolveFilePath(path).None? <==> Contains(LStrip(path, '/'), "..")
    ensures ResolveFilePath(path).Some? ==> ResolveFilePath(path).value == LStrip(path, '/')
  {
  }

  /** `/` and `/index.html` both name the index file. */
  lemma ResolveIndex()
    ensures ResolveFilePath("/") == ResolveFilePath("/index.html") == Some(IndexFile)
  {
    NoDotsInIndex();
  }

  /**
   * A resolved name is the request path without its leading slashes, so a
   * name found is the name asked for: resolving `"/" + name` gives `name`
   * back for every name without a leading slash or "..".
   */
  lemma ResolveRoundTrip(name: string)
    requires name != [] && name[0] != '/' && !Contains(name, "..")
    ensures ResolveFilePath("/" + name) == Some(name)
  {
    assert ("/" + name)[1..] == name;
    if "/" + name == "/index.html" {
      assert name == IndexFile;
    }
  }

  /** `os.path.basename` of the full path: the part of the name after its last slash. */
  function Basename(name: string): (r: string)
    ensures '/' !in r
    ensures |r| <= |name| && name[|name| - |r|..] == r
    ensures |r| < |name| ==> name[|name| - |r| - 1] == '/'
  {
    if name == [] || name[|name| - 1] == '/' then []
    else Basename(name[..|name| - 1]) + [name[|name| - 1]]
  }

  /** server.py:79, 99: the content type by the name's extension. */
  function ContentType(name: string): string {
    if |name| >= 5 && name[|name| - 5..] == ".html" then "text/html" else "text/plain"
  }
}
