/**
 * The proxy's side of a conversation with the origin (proxy.py:28-62): the
 * request it writes and the loop that collects the reply. The socket is not
 * modelled; what the origin delivers is a parameter, `None` when the
 * connection fails (the `except` branch), otherwise the successive results of
 * `recv(4096)`, where an empty chunk means the origin closed the connection.
 */
module OriginClient {
  import opened Wrappers
  import opened Seqs
  import opened Utf8
  import opened ProxyRequest

  /** The size of each read from the origin socket. */
  const RecvSize: nat := 4096

  /** The index of the first empty chunk, or the number of chunks if none is empty. */
  function FirstEmpty(chunks: seq<Bytes>): (k: nat)
    ensures k <= |chunks|
    ensures k < |chunks| ==> chunks[k] == []
    ensures forall i :: 0 <= i < k ==> chunks[i] != []
  {
    if chunks == [] || chunks[0] == [] then 0 else 1 + FirstEmpty(chunks[1..])
  }

  /** What `get_from_origin` returns for what the origin delivered. */
  function OriginReply(transport: Option<seq<Bytes>>): Option<Bytes> {
    match transport
    case None => None
    case Some(chunks) => Some(Concat(chunks[..FirstEmpty(chunks)]))
  }

  /** proxy.py:52-56: append chunks until an empty one arrives. */
  method ReceiveAll(chunks: seq<Bytes>) returns (data: Bytes)
    ensures data == Concat(chunks[..FirstEmpty(chunks)])
  {
    data := [];
    var i := 0;
    while i < |chunks|
      invariant i <= FirstEmpty(chunks)
      invariant data == Concat(chunks[..i])
      decreases |chunks| - i
    {
      var chunk := chunks[i];
      if chunk == [] {
        break;
      }
      ConcatSnoc(chunks[..i], chunk);
      assert chunks[..i + 1] == chunks[..i] + [chunk];
      data := data + chunk;
      i := i + 1;
    }
  }

  lemma ConcatSnoc(parts: seq<Bytes>, last: Bytes)
    ensures Concat(parts + [last]) == Concat(parts) + last
  {
    ConcatAppend(parts, [last]);
    assert Concat([last]) == last + Concat([]);
  }

  /**
   * proxy.py:28-62: the request written to the origin and the reply read
   * back, or `None` when the connection fails.
   */
  method GetFromOrigin(verb: string, path: string, body: Option<string>, transport: Option<seq<Bytes>>)
    returns (request: string, reply: Option<Bytes>)
    ensures request == OriginRequest(verb, path, body)
    ensures reply == OriginReply(transport)
  {
    request := OriginRequest(verb, path, body);
    match transport {
      case None =>
        reply := None;
      case Some(chunks) =>
        var data := ReceiveAll(chunks);
        reply := Some(data);
    }
  }

  /** A byte stream cut into non-empty pieces of at most `n` bytes, as successive reads may return it. */
  function Chunks(d: Bytes, n: nat): (r: seq<Bytes>)
    requires n > 0
    ensures forall i :: 0 <= i < |r| ==> 0 < |r[i]| <= n
    decreases |d|
  {
    if d == [] then []
    else if |d| <= n then [d]
    else [d[..n]] + Chunks(d[n..], n)
  }

  /** Whatever the origin sends, reading it in pieces of `recv(4096)` and a final empty read gives it back whole. */
  lemma {:induction false} ReceiveChunks(d: Bytes)
    ensures OriginReply(Some(Chunks(d, RecvSize) + [[]])) == Some(d)
  {
    var cs := Chunks(d, RecvSize);
    assert FirstEmpty(cs + [[]]) == |cs| by {
      FirstEmptyAt(cs);
    }
    assert (cs + [[]])[..|cs|] == cs;
    ConcatChunks(d, RecvSize);
  }

  lemma {:induction false} FirstEmptyAt(cs: seq<Bytes>)
    requires forall i :: 0 <= i < |cs| ==> cs[i] != []
    ensures FirstEmpty(cs + [[]]) == |cs|
    decreases |cs|
  {
    if cs != [] {
      assert (cs + [[]])[1..] == cs[1..] + [[]];
      FirstEmptyAt(cs[1..]);
    }
  }

  lemma {:induction false} ConcatChunks(d: Bytes, n: nat)
    requires n > 0
    ensures Concat(Chunks(d, n)) == d
    decreases |d|
  {
    if d != [] && |d| > n {
      ConcatChunks(d[n..], n);
      assert d == d[..n] + d[n..];
    } else if d != [] {
      assert Concat([d]) == d + [];
    }
  }
}
