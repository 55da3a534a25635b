/** The manager's side of a package transfer: it streams exactly `size` bytes
    of a source as length-prefixed chunks. */
module PackageSender {
  import opened Wire
  import opened Payload

  const PACKAGE_CHUNK_LEN: nat := 64 * 1024

  datatype SourceRead = Bytes(bytes: Wire.Bytes) | SourceError

  /** A byte source that hands over as much as it likes per read. */
  class Source {
    var data: Wire.Bytes

    /** Between one and `want` bytes; none at the end of the data; or an
        error, which takes nothing. */
    method Read(want: nat) returns (r: SourceRead)
      requires want > 0
      modifies this
      ensures r.Bytes? ==> |r.bytes| <= want && old(data) == r.bytes + data
      ensures r.Bytes? ==> (r.bytes == [] <==> old(data) == [])
      ensures r.SourceError? ==> data == old(data)
    {
      if * {
        return SourceError;
      }
      if data == [] {
        return Bytes([]);
      }
      var n :| 1 <= n <= want && n <= |data|;
      r := Bytes(data[..n]);
      data := data[n..];
    }
  }

  /** Streams the package.  Whatever the source's read sizes, the chunks put
      on the wire are a prefix of the data, in order; on success they are a
      chunking of exactly `size` bytes and the source keeps the rest. */
  method SendPackage(send: SendStream<Wire.Bytes>, pkg: Source, size: U64)
    returns (ok: bool, chunks: seq<Wire.Bytes>)
    modifies send, pkg
    ensures send.sent == old(send.sent) + chunks
    ensures Concat(chunks) <= old(pkg.data)
    ensures forall c :: c in chunks ==> 0 < |c| <= 0x1_0000
    ensures ok ==> Chunking(chunks, size) && old(pkg.data) == Concat(chunks) + pkg.data
    ensures ok ==> Concat(chunks) == old(pkg.data)[..size]
    ensures |old(pkg.data)| < size ==> !ok
  {
    chunks := [];
    var remaining: nat := size;
    while remaining > 0
      invariant send.sent == old(send.sent) + chunks
      invariant old(pkg.data) == Concat(chunks) + pkg.data
      invariant |Concat(chunks)| + remaining == size
      invariant forall c :: c in chunks ==> 0 < |c| <= PACKAGE_CHUNK_LEN
    {
      var want := if remaining < PACKAGE_CHUNK_LEN then remaining else PACKAGE_CHUNK_LEN;
      var r := pkg.Read(want);
      if r.SourceError? || r.bytes == [] {
        return false, chunks;
      }
      var sent := send.Send(r.bytes);
      if !sent {
        return false, chunks;
      }
      ConcatSnoc(chunks, r.bytes);
      chunks := chunks + [r.bytes];
      remaining := remaining - |r.bytes|;
    }
    ok := true;
    assert chunks != [] ==> chunks[|chunks| - 1] in chunks;
  }
}
