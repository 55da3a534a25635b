/** Bytes on a QUIC stream and the length-prefixed frames laid over them.

    A frame is a 4-byte big-endian length followed by that many bytes.  A
    stream is the sequence of bytes its peer will ever send, together with
    the error the transport reports once those bytes run out: a cleanly
    finished stream reports `UnexpectedEof`, a reset one reports some other
    kind. */
module Wire {
  type Byte = b: int | 0 <= b < 0x100
  type Bytes = seq<Byte>
  type U32 = n: int | 0 <= n < 0x1_0000_0000
  type U64 = n: int | 0 <= n < 0x1_0000_0000_0000_0000

  datatype Option<+T> = None | Some(value: T)

  datatype IoKind =
    | UnexpectedEof
    | InvalidData
    | InvalidInput
    | PermissionDenied
    | OtherKind(tag: nat)

  // ---- fixed-width integers ----

  /** 256 to the power `k`. */
  function Pow256(k: nat): (p: nat)
    ensures p >= 1
  {
    if k == 0 then 1 else 0x100 * Pow256(k - 1)
  }

  lemma Pow256Values()
    ensures Pow256(1) == 0x100 && Pow256(2) == 0x1_0000
    ensures Pow256(4) == 0x1_0000_0000 && Pow256(8) == 0x1_0000_0000_0000_0000
  {
    assert Pow256(3) == 0x100_0000;
    assert Pow256(5) == 0x100_0000_0000;
    assert Pow256(6) == 0x1_0000_0000_0000;
    assert Pow256(7) == 0x100_0000_0000_0000;
  }

  function BigEndian(n: nat, k: nat): (b: Bytes)
    ensures |b| == k
  {
    if k == 0 then [] else BigEndian(n / 0x100, k - 1) + [n % 0x100]
  }

  function FromBigEndian(b: Bytes): (n: nat)
    ensures n < Pow256(|b|)
  {
    if b == [] then 0 else FromBigEndian(b[..|b| - 1]) * 0x100 + b[|b| - 1]
  }

  lemma {:induction false} BigEndianRoundTrip(n: nat, k: nat)
    requires n < Pow256(k)
    ensures FromBigEndian(BigEndian(n, k)) == n
  {
    if k == 0 {
    } else {
      var b, high := BigEndian(n, k), BigEndian(n / 0x100, k - 1);
      BigEndianRoundTrip(n / 0x100, k - 1);
      assert b[..k - 1] == high && b[k - 1] == n % 0x100;
    }
  }

  function LittleEndian(n: nat, k: nat): (b: Bytes)
    ensures |b| == k
  {
    if k == 0 then [] else [n % 0x100] + LittleEndian(n / 0x100, k - 1)
  }

  function FromLittleEndian(b: Bytes): (n: nat)
    ensures n < Pow256(|b|)
  {
    if b == [] then 0 else b[0] + 0x100 * FromLittleEndian(b[1..])
  }

  lemma {:induction false} LittleEndianRoundTrip(n: nat, k: nat)
    requires n < Pow256(k)
    ensures FromLittleEndian(LittleEndian(n, k)) == n
  {
    if k == 0 {
    } else {
      var b := LittleEndian(n, k);
      assert b[1..] == LittleEndian(n / 0x100, k - 1);
      LittleEndianRoundTrip(n / 0x100, k - 1);
    }
  }

  /** Lengths have their most significant byte first, codes their least. */
  lemma ByteOrders(x: int, y: int, z: int, u: int)
    requires 0 <= x < 0x100 && 0 <= y < 0x100 && 0 <= z < 0x100 && 0 <= u < 0x100
    ensures FromBigEndian([x, y, z, u]) == x * 0x100_0000 + y * 0x1_0000 + z * 0x100 + u
    ensures FromLittleEndian([x, y, z, u]) == x + y * 0x100 + z * 0x1_0000 + u * 0x100_0000
  {
    assert [x, y, z, u][..3] == [x, y, z] && [x, y, z][..2] == [x, y] && [x, y][..1] == [x];
    assert FromBigEndian([x]) == x;
    assert FromBigEndian([x, y]) == x * 0x100 + y;
    assert FromBigEndian([x, y, z]) == (x * 0x100 + y) * 0x100 + z;
    assert [x, y, z, u][1..] == [y, z, u] && [y, z, u][1..] == [z, u] && [z, u][1..] == [u];
    assert FromLittleEndian([u]) == u;
    assert FromLittleEndian([z, u]) == z + 0x100 * u;
    assert FromLittleEndian([y, z, u]) == y + 0x100 * (z + 0x100 * u);
  }

  // ---- frames ----

  datatype FrameRead =
    | Framed(payload: Bytes, rest: Bytes)
    | Short

  /** Splits the first frame off `s`; `Short` if `s` ends inside it. */
  function ReadFrame(s: Bytes): (r: FrameRead)
    ensures r.Framed? ==> |r.rest| + 4 + |r.payload| == |s|
  {
    if |s| < 4 then Short
    else
      var n := FromBigEndian(s[..4]);
      if |s| < 4 + n then Short else Framed(s[4..4 + n], s[4 + n..])
  }

  predicate Fits(payload: Bytes) {
    |payload| < 0x1_0000_0000
  }

  function FrameBytes(payload: Bytes): (b: Bytes)
    requires Fits(payload)
  {
    BigEndian(|payload|, 4) + payload
  }

  /** Reading a written frame yields its payload and leaves what follows. */
  lemma FrameRoundTrip(payload: Bytes, rest: Bytes)
    requires Fits(payload)
    ensures ReadFrame(FrameBytes(payload) + rest) == Framed(payload, rest)
  {
    var s := FrameBytes(payload) + rest;
    assert s[..4] == BigEndian(|payload|, 4);
    Pow256Values();
    BigEndianRoundTrip(|payload|, 4);
    assert s[4..4 + |payload|] == payload;
    assert s[4 + |payload|..] == rest;
  }

  /** A whole frame is read the same whatever follows it. */
  lemma FrameExtends(s: Bytes, more: Bytes)
    requires ReadFrame(s).Framed?
    ensures ReadFrame(s + more) == Framed(ReadFrame(s).payload, ReadFrame(s).rest + more)
  {
    var n := FromBigEndian(s[..4]);
    assert (s + more)[..4] == s[..4];
    assert (s + more)[4..4 + n] == s[4..4 + n];
    assert (s + more)[4 + n..] == s[4 + n..] + more;
  }

  /** The wire image of a list of payloads, one frame each. */
  function Frames(payloads: seq<Bytes>): Bytes
    requires forall p :: p in payloads ==> Fits(p)
  {
    if payloads == [] then [] else FrameBytes(payloads[0]) + Frames(payloads[1..])
  }

  /** A frame read off a stream is the frame that was on it. */
  lemma FrameSplits(s: Bytes)
    requires ReadFrame(s).Framed?
    ensures Fits(ReadFrame(s).payload)
    ensures s == FrameBytes(ReadFrame(s).payload) + ReadFrame(s).rest
  {
    var n := FromBigEndian(s[..4]);
    Pow256Values();
    BigEndianOfFrom(s[..4]);
    assert s == s[..4] + s[4..4 + n] + s[4 + n..];
  }

  lemma {:induction false} BigEndianOfFrom(b: Bytes)
    ensures BigEndian(FromBigEndian(b), |b|) == b
  {
    if b == [] {
    } else {
      var high, low := b[..|b| - 1], b[|b| - 1];
      BigEndianOfFrom(high);
      LastByte(FromBigEndian(high), low, |high|);
      assert b == high + [low];
    }
  }

  lemma LastByte(high: nat, low: Byte, k: nat)
    ensures BigEndian(high * 0x100 + low, k + 1) == BigEndian(high, k) + [low]
  {
  }

  lemma FramesUnfold(payloads: seq<Bytes>, rest: Bytes)
    requires payloads != [] && forall p :: p in payloads ==> Fits(p)
    ensures Frames(payloads) + rest == FrameBytes(payloads[0]) + (Frames(payloads[1..]) + rest)
  {
  }

  // ---- what a stream holds ----

  /** The payloads of the whole frames on a stream, in order. */
  function Payloads(s: Bytes): seq<Bytes>
    decreases |s|
  {
    match ReadFrame(s)
    case Short => []
    case Framed(payload, rest) => [payload] + Payloads(rest)
  }

  /** What is left of a stream after its last whole frame. */
  function Leftover(s: Bytes): (rest: Bytes)
    ensures |rest| <= |s|
    decreases |s|
  {
    match ReadFrame(s)
    case Short => s
    case Framed(_, rest) => Leftover(rest)
  }

  /** A stream is its whole frames and a rest that holds none. */
  lemma {:induction false} StreamSplits(s: Bytes)
    ensures forall p :: p in Payloads(s) ==> Fits(p)
    ensures s == Frames(Payloads(s)) + Leftover(s)
    ensures ReadFrame(Leftover(s)).Short?
    decreases |s|
  {
    match ReadFrame(s)
    case Short =>
    case Framed(payload, rest) =>
      StreamSplits(rest);
      FrameSplits(s);
      FramesCons(payload, Payloads(rest), Leftover(rest));
  }

  lemma FramesCons(payload: Bytes, payloads: seq<Bytes>, rest: Bytes)
    requires Fits(payload) && forall p :: p in payloads ==> Fits(p)
    ensures forall p :: p in [payload] + payloads ==> Fits(p)
    ensures Frames([payload] + payloads) + rest == FrameBytes(payload) + (Frames(payloads) + rest)
  {
    assert ([payload] + payloads)[1..] == payloads;
  }

  /** The split is the only one. */
  lemma {:induction false} PayloadsOfFrames(payloads: seq<Bytes>, rest: Bytes)
    requires forall p :: p in payloads ==> Fits(p)
    requires ReadFrame(rest).Short?
    ensures Payloads(Frames(payloads) + rest) == payloads
    ensures Leftover(Frames(payloads) + rest) == rest
    decreases payloads
  {
    if payloads == [] {
      assert Frames(payloads) + rest == rest;
    } else {
      FramesUnfold(payloads, rest);
      FrameRoundTrip(payloads[0], Frames(payloads[1..]) + rest);
      PayloadsOfFrames(payloads[1..], rest);
      assert [payloads[0]] + payloads[1..] == payloads;
    }
  }

  // ---- requests ----

  /** The errors a transport reports: when the bytes run out, for a frame too
      short to hold a request code, and for a failing send. */
  datatype Link = Link(end: IoKind, shortCode: IoKind, sendKind: IoKind)

  datatype Request =
    | Request(code: U32, body: Bytes, rest: Bytes)
    | NoRequest(kind: IoKind, rest: Bytes)

  /** Reads one request: a frame holding a little-endian `u32` code and a
      body. */
  function ReadRequest(link: Link, s: Bytes): (r: Request)
    ensures r.Request? ==> |r.rest| < |s|
  {
    match ReadFrame(s)
    case Short => NoRequest(link.end, [])
    case Framed(p, rest) =>
      if |p| < 4 then NoRequest(link.shortCode, rest)
      else Pow256Values(); Request(FromLittleEndian(p[..4]), p[4..], rest)
  }

  /** There is no whole frame, or the first is too short to hold a code. */
  predicate FoundNoRequest(s: Bytes) {
    match ReadFrame(s)
    case Short => true
    case Framed(payload, _) => |payload| < 4
  }

  /** What a receive that finds no request fails with. */
  function FailureKind(link: Link, s: Bytes): IoKind {
    if ReadFrame(s).Short? then link.end else link.shortCode
  }

  /** A frame too short for a code is its own kind of failure, and what follows
      it stays on the stream; a stream without a whole frame is used up. */
  lemma NoRequestThere(link: Link, payload: Bytes, rest: Bytes)
    requires |payload| < 4
    ensures ReadRequest(link, FrameBytes(payload) + rest) == NoRequest(link.shortCode, rest)
    ensures ReadFrame(rest).Short? ==> ReadRequest(link, rest) == NoRequest(link.end, [])
  {
    FrameRoundTrip(payload, rest);
  }

  /** The codes of the requests on a stream, in order; a frame too short for
      a code holds none. */
  function Codes(s: Bytes): seq<U32>
    decreases |s|
  {
    match ReadFrame(s)
    case Short => []
    case Framed(p, rest) =>
      (if |p| < 4 then [] else Pow256Values(); [FromLittleEndian(p[..4])]) + Codes(rest)
  }

  // ---- streams ----

  /** What one framed read gives its caller. */
  datatype Received = Got(payload: Bytes) | Lost(kind: IoKind)

  /** What a framed read of the stream `s` gives. */
  function Receive(s: Bytes, end: IoKind): Received {
    match ReadFrame(s) case Framed(payload, _) => Got(payload) case Short => Lost(end)
  }

  /** The receiving half of a stream: the bytes not yet read. */
  class RecvStream {
    var unread: Bytes
    const end: IoKind

    constructor (bytes: Bytes, end: IoKind)
      ensures unread == bytes && this.end == end
    {
      unread := bytes;
      this.end := end;
    }

    /** Reads exactly `n` bytes. */
    method ReadExact(n: nat) returns (r: Received)
      modifies this
      ensures n <= |old(unread)| ==> r == Got(old(unread)[..n]) && unread == old(unread)[n..]
      ensures n > |old(unread)| ==> r == Lost(end) && unread == []
    {
      if n > |unread| {
        unread := [];
        return Lost(end);
      }
      r := Got(unread[..n]);
      unread := unread[n..];
    }

    /** Reads one frame; a read that runs out of bytes has consumed them. */
    method RecvRaw() returns (r: Received)
      modifies this
      ensures r == Receive(old(unread), end)
      ensures unread == match ReadFrame(old(unread)) case Framed(_, rest) => rest case Short => []
    {
      r := ReadExact(4);
      if r.Got? {
        r := ReadExact(FromBigEndian(r.payload));
      }
    }
  }

  /** The sending half of a stream.  It accepts `room` more frames; every
      send after that fails. */
  class SendStream<Frame> {
    var sent: seq<Frame>
    var room: nat

    constructor (room: nat)
      ensures sent == [] && this.room == room
    {
      sent := [];
      this.room := room;
    }

    method Send(frame: Frame) returns (ok: bool)
      modifies this
      ensures ok == (old(room) > 0)
      ensures ok ==> sent == old(sent) + [frame] && room == old(room) - 1
      ensures !ok ==> sent == old(sent) && room == old(room)
    {
      ok := room > 0;
      if ok {
        sent := sent + [frame];
        room := room - 1;
      }
    }
  }

  /** Receives one request. */
  method RecvRequest(link: Link, recv: RecvStream) returns (r: Request)
    requires recv.end == link.end
    modifies recv
    ensures r == ReadRequest(link, old(recv.unread))
    ensures recv.unread == r.rest
  {
    var f := recv.RecvRaw();
    match f
    case Lost(kind) => r := NoRequest(kind, []);
    case Got(p) =>
      if |p| < 4 {
        r := NoRequest(link.shortCode, recv.unread);
      } else {
        Pow256Values();
        r := Request(FromLittleEndian(p[..4]), p[4..], recv.unread);
      }
  }
}
