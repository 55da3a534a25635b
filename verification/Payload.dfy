/** The bounded reader over a package payload that follows an `Install`
    request on the request's own stream. */
module Payload {
  import opened Wire

  /** Why a read of the payload failed. */
  datatype ReadError =
    | AlreadyFailed
    | Overrun(len: nat, expected: nat)
    | Truncated(cause: IoKind)
  {
    /** The kind the caller sees.  A payload that stopped short is an end of
        file whatever the transport called it. */
    function Kind(): IoKind {
      if Truncated? then UnexpectedEof else InvalidData
    }
  }

  /** What one `next_chunk` call returns. */
  datatype ChunkResult = Chunk(data: Bytes) | End | Error(error: ReadError)

  /** The state of a reader over its stream. */
  datatype Reader = Reader(unread: Bytes, remaining: nat, failed: bool)

  datatype ChunkRead = ChunkRead(outcome: ChunkResult, reader: Reader)

  function ChunkStep(r: Reader, end: IoKind): (c: ChunkRead)
    ensures |c.reader.unread| <= |r.unread|
    ensures c.outcome.Chunk? ==> |c.reader.unread| < |r.unread|
  {
    if r.failed then ChunkRead(Error(AlreadyFailed), r)
    else if r.remaining == 0 then ChunkRead(End, r)
    else match ReadFrame(r.unread)
      case Short => ChunkRead(Error(Truncated(end)), Reader([], r.remaining, true))
      case Framed(data, rest) =>
        if |data| > r.remaining then
          ChunkRead(Error(Overrun(|data|, r.remaining)), Reader(rest, r.remaining, true))
        else
          ChunkRead(Chunk(data), Reader(rest, r.remaining - |data|, false))
  }

  datatype Drained = Drained(error: Option<ReadError>, reader: Reader)

  /** Reads on until the payload ends or fails. */
  function Drain(r: Reader, end: IoKind): (d: Drained)
    ensures |d.reader.unread| <= |r.unread|
    decreases |r.unread|
  {
    var c := ChunkStep(r, end);
    match c.outcome
    case Chunk(_) => Drain(c.reader, end)
    case End => Drained(None, c.reader)
    case Error(e) => Drained(Some(e), c.reader)
  }

  /** Where a transfer of `size` bytes ends, decided by the stream alone. */
  function Settled(s: Bytes, size: nat, end: IoKind): Reader {
    Drain(Reader(s, size, false), end).reader
  }

  // ---- one call after another ----

  /** The results of `n` successive calls and the reader they leave. */
  function Calls(r: Reader, end: IoKind, n: nat): (c: (seq<ChunkResult>, Reader))
    ensures |c.0| == n
  {
    if n == 0 then ([], r)
    else
      var prior := Calls(r, end, n - 1);
      var last := ChunkStep(prior.1, end);
      (prior.0 + [last.outcome], last.reader)
  }

  /** The bytes handed over by the successful calls, in order. */
  function Delivered(results: seq<ChunkResult>): Bytes {
    if results == [] then []
    else
      var last := results[|results| - 1];
      Delivered(results[..|results| - 1]) + (if last.Chunk? then last.data else [])
  }

  /** What every sequence of calls keeps: the bytes handed over and those
      still expected make up the payload. */
  lemma {:induction false} CallsConserve(s: Bytes, size: nat, end: IoKind, n: nat)
    ensures var (results, r) := Calls(Reader(s, size, false), end, n);
            r.remaining + |Delivered(results)| == size
  {
    if n == 0 {
    } else {
      CallsConserve(s, size, end, n - 1);
      var (before, r) := Calls(Reader(s, size, false), end, n - 1);
      DeliveredSnoc(before, ChunkStep(r, end).outcome);
      ReadConserves(r, end);
    }
  }

  lemma ReadConserves(r: Reader, end: IoKind)
    ensures var c := ChunkStep(r, end);
            c.reader.remaining + (if c.outcome.Chunk? then |c.outcome.data| else 0) == r.remaining
  {
  }

  lemma DeliveredSnoc(results: seq<ChunkResult>, last: ChunkResult)
    ensures Delivered(results + [last]) == Delivered(results) + if last.Chunk? then last.data else []
  {
    assert (results + [last])[..|results|] == results;
  }

  /** The first failure and the first end among `results` are final, and the
      reader `r` they left knows of them. */
  ghost predicate Final(results: seq<ChunkResult>, r: Reader) {
    var n := |results|;
    && (r.failed <==> n > 0 && results[n - 1].Error?)
    && (n > 0 && results[n - 1].End? ==> r.remaining == 0)
    && (forall i, j :: 0 <= i < j < n && results[i].Error? ==> results[j] == Error(AlreadyFailed))
    && (forall i, j :: 0 <= i < j < n && results[i].End? ==> results[j].End?)
  }

  lemma StepStaysFinal(before: seq<ChunkResult>, r: Reader, end: IoKind)
    requires Final(before, r)
    ensures var c := ChunkStep(r, end);
            Final(before + [c.outcome], c.reader)
  {
    var n := |before|;
    assert forall i :: 0 <= i < n - 1 ==>
             (before[i].Error? ==> before[n - 1].Error?) && (before[i].End? ==> before[n - 1].End?);
  }

  /** After an error every call reports it, after an end every call repeats
      it. */
  lemma {:induction false} CallsSettle(s: Bytes, size: nat, end: IoKind, n: nat)
    ensures var (results, r) := Calls(Reader(s, size, false), end, n);
            Final(results, r)
  {
    if n == 0 {
    } else {
      CallsSettle(s, size, end, n - 1);
      var (before, r) := Calls(Reader(s, size, false), end, n - 1);
      StepStaysFinal(before, r, end);
    }
  }

  /** Once a reader has failed no call moves the stream or recovers. */
  lemma {:induction false} FailureIsFinal(r: Reader, end: IoKind, n: nat)
    requires r.failed
    ensures Calls(r, end, n).1 == r
    ensures forall i :: 0 <= i < n ==> Calls(r, end, n).0[i] == Error(AlreadyFailed)
    ensures AlreadyFailed.Kind() == InvalidData
  {
    if n == 0 {
    } else {
      FailureIsFinal(r, end, n - 1);
    }
  }

  /** A failing first read is `InvalidData` exactly when a whole frame
      arrived that overruns the payload, and `UnexpectedEof` exactly when no
      whole frame arrived, whatever error the transport gave; the error says
      what arrived and what was expected, or what the transport said. */
  lemma FailureCause(r: Reader, end: IoKind)
    requires !r.failed
    ensures var c := ChunkStep(r, end);
            && (c.outcome.Error? && c.outcome.error.Kind() == InvalidData
                <==> r.remaining > 0 && ReadFrame(r.unread).Framed?
                     && |ReadFrame(r.unread).payload| > r.remaining)
            && (c.outcome.Error? && c.outcome.error.Kind() == UnexpectedEof
                <==> r.remaining > 0 && ReadFrame(r.unread).Short?)
            && (c.outcome.Error? <==> c.reader.failed)
            && (c.outcome.Error? ==>
                  c.outcome.error == match ReadFrame(r.unread)
                                     case Short => Truncated(end)
                                     case Framed(payload, _) => Overrun(|payload|, r.remaining))
  {
  }

  /** An empty chunk is a successful read that leaves `remaining` as it was,
      so only the stream measures progress. */
  lemma EmptyChunkIsNoProgress(rest: Bytes, remaining: nat, end: IoKind)
    requires remaining > 0
    ensures ChunkStep(Reader(FrameBytes([]) + rest, remaining, false), end)
         == ChunkRead(Chunk([]), Reader(rest, remaining, false))
  {
    FrameRoundTrip([], rest);
  }

  // ---- the end of a transfer ----

  /** A read does not change where the transfer will end. */
  lemma ReadKeepsSettled(r: Reader, end: IoKind)
    ensures Drain(ChunkStep(r, end).reader, end).reader == Drain(r, end).reader
  {
  }

  /** Draining ends in an error exactly when the reader ends up failed, and
      in success exactly when no byte is outstanding. */
  lemma {:induction false} DrainVerdict(r: Reader, end: IoKind)
    ensures Drain(r, end).error.Some? <==> Drain(r, end).reader.failed
    ensures !Drain(r, end).reader.failed ==> Drain(r, end).reader.remaining == 0
    decreases |r.unread|
  {
    var c := ChunkStep(r, end);
    match c.outcome
    case Chunk(_) =>
      DrainVerdict(c.reader, end);
    case _ =>
  }

  lemma ReadIgnoresCause(r: Reader, end: IoKind, other: IoKind)
    ensures ChunkStep(r, end).reader == ChunkStep(r, other).reader
    ensures ChunkStep(r, end).outcome.Chunk? <==> ChunkStep(r, other).outcome.Chunk?
  {
  }

  lemma DrainUnfolds(r: Reader, end: IoKind)
    ensures var c := ChunkStep(r, end);
            Drain(r, end).reader == if c.outcome.Chunk? then Drain(c.reader, end).reader else c.reader
  {
  }

  /** The error a transport ends with does not affect whether or where a
      transfer completes. */
  lemma {:induction false} DrainIgnoresCause(r: Reader, end: IoKind, other: IoKind)
    ensures Drain(r, end).reader == Drain(r, other).reader
    decreases |r.unread|
  {
    var c := ChunkStep(r, end);
    ReadIgnoresCause(r, end, other);
    DrainUnfolds(r, end);
    DrainUnfolds(r, other);
    if c.outcome.Chunk? {
      DrainIgnoresCause(c.reader, end, other);
    } else {
      assert Drain(r, end).reader == c.reader;
    }
  }

  function Concat(chunks: seq<Bytes>): Bytes {
    if chunks == [] then [] else chunks[0] + Concat(chunks[1..])
  }

  lemma {:induction false} ConcatSnoc(chunks: seq<Bytes>, last: Bytes)
    ensures Concat(chunks + [last]) == Concat(chunks) + last
  {
    if chunks == [] {
    } else {
      ConcatSnoc(chunks[1..], last);
      assert (chunks + [last])[1..] == chunks[1..] + [last];
    }
  }

  /** A chunking of `size` bytes as a sender may put it on the wire: any
      chunk may be empty except the last. */
  ghost predicate Chunking(chunks: seq<Bytes>, size: nat) {
    && (forall c :: c in chunks ==> Fits(c))
    && |Concat(chunks)| == size
    && (chunks != [] ==> chunks[|chunks| - 1] != [])
  }

  lemma ChunkingTail(chunks: seq<Bytes>, size: nat)
    requires Chunking(chunks, size) && chunks != []
    ensures |chunks[0]| <= size && size > 0
    ensures Chunking(chunks[1..], size - |chunks[0]|)
  {
    if |chunks| == 1 {
      assert Concat(chunks[1..]) == [];
    } else {
      LastIsPart(chunks[1..]);
      assert chunks[1..][|chunks| - 2] == chunks[|chunks| - 1];
    }
  }

  lemma {:induction false} LastIsPart(chunks: seq<Bytes>)
    requires chunks != []
    ensures |chunks[|chunks| - 1]| <= |Concat(chunks)|
  {
    if |chunks| == 1 {
    } else {
      LastIsPart(chunks[1..]);
    }
  }

  /** The reader takes the first chunk of a chunking and goes on to the rest. */
  lemma FirstChunk(chunks: seq<Bytes>, rest: Bytes, size: nat, end: IoKind)
    requires Chunking(chunks, size) && chunks != []
    ensures |chunks[0]| <= size && Chunking(chunks[1..], size - |chunks[0]|)
    ensures ChunkStep(Reader(Frames(chunks) + rest, size, false), end)
         == ChunkRead(Chunk(chunks[0]), Reader(Frames(chunks[1..]) + rest, size - |chunks[0]|, false))
  {
    ChunkingTail(chunks, size);
    FramesUnfold(chunks, rest);
    FrameRoundTrip(chunks[0], Frames(chunks[1..]) + rest);
  }

  /** A transfer over a chunking of exactly `size` bytes completes and ends
      just after it. */
  lemma {:induction false} TransferOfChunking(chunks: seq<Bytes>, rest: Bytes, size: nat, end: IoKind)
    requires Chunking(chunks, size)
    ensures Settled(Frames(chunks) + rest, size, end) == Reader(rest, 0, false)
    decreases |chunks|
  {
    if chunks == [] {
      assert size == 0;
      assert Frames(chunks) + rest == rest;
    } else {
      FirstChunk(chunks, rest, size, end);
      TransferOfChunking(chunks[1..], rest, size - |chunks[0]|, end);
    }
  }

  lemma ChunkingCons(data: Bytes, tail: seq<Bytes>, size: nat, rest: Bytes)
    requires Fits(data) && Chunking(tail, size) && (tail == [] ==> data != [])
    ensures Chunking([data] + tail, |data| + size)
    ensures Frames([data] + tail) + rest == FrameBytes(data) + (Frames(tail) + rest)
  {
    var chunks := [data] + tail;
    assert chunks[1..] == tail;
    assert tail != [] ==> chunks[|chunks| - 1] == tail[|tail| - 1];
  }

  /** A transfer that is going to complete takes a chunk first. */
  lemma CompletesByChunk(s: Bytes, size: nat, end: IoKind)
    requires !Settled(s, size, end).failed && size > 0
    ensures ReadFrame(s).Framed? && |ReadFrame(s).payload| <= size
    ensures Settled(s, size, end) == Settled(ReadFrame(s).rest, size - |ReadFrame(s).payload|, end)
  {
  }

  lemma {:induction false} CompletedTransferIsChunking(s: Bytes, size: nat, end: IoKind)
    returns (chunks: seq<Bytes>, rest: Bytes)
    requires !Settled(s, size, end).failed
    ensures Chunking(chunks, size) && s == Frames(chunks) + rest
    ensures Settled(s, size, end) == Reader(rest, 0, false)
    decreases |s|
  {
    if size == 0 {
      chunks, rest := [], s;
    } else {
      CompletesByChunk(s, size, end);
      FrameSplits(s);
      var data, after := ReadFrame(s).payload, ReadFrame(s).rest;
      var tail;
      tail, rest := CompletedTransferIsChunking(after, size - |data|, end);
      chunks := [data] + tail;
      ChunkingCons(data, tail, size - |data|, rest);
    }
  }

  /** A transfer completes if and only if the stream starts with a chunking
      of exactly `size` bytes. */
  lemma TransferCompletesIff(s: Bytes, size: nat, end: IoKind)
    ensures !Settled(s, size, end).failed <==>
            exists chunks, rest :: Chunking(chunks, size) && s == Frames(chunks) + rest
  {
    if !Settled(s, size, end).failed {
      var chunks, rest := CompletedTransferIsChunking(s, size, end);
    }
    if chunks, rest :| Chunking(chunks, size) && s == Frames(chunks) + rest {
      TransferOfChunking(chunks, rest, size, end);
    }
  }

  // ---- where any list of chunks leaves the reader ----

  /** The last chunk, and no earlier one, brings more than was left to come. */
  predicate OverrunsOnLast(chunks: seq<Bytes>, size: nat) {
    chunks != [] && |Concat(chunks[..|chunks| - 1])| < size < |Concat(chunks)|
  }

  /** When a transfer of `size` bytes over a list of chunks ends just after
      the list: the list is a chunking, its last chunk overruns, or it falls
      short and nothing follows it. */
  ghost predicate EndsWithList(chunks: seq<Bytes>, rest: Bytes, size: nat) {
    || Chunking(chunks, size)
    || OverrunsOnLast(chunks, size)
    || (|Concat(chunks)| < size && rest == [])
  }

  lemma EndsWithTail(chunks: seq<Bytes>, rest: Bytes, size: nat)
    requires chunks != [] && size > 0 && forall c :: c in chunks ==> Fits(c)
    ensures |chunks[0]| > size ==> (EndsWithList(chunks, rest, size) <==> |chunks| == 1)
    ensures |chunks[0]| <= size ==>
              (EndsWithList(chunks, rest, size) <==> EndsWithList(chunks[1..], rest, size - |chunks[0]|))
  {
    var tail := chunks[1..];
    if tail == [] {
      assert chunks[..0] == [];
    } else {
      var init := chunks[..|chunks| - 1];
      assert init[1..] == tail[..|tail| - 1];
      assert tail[|tail| - 1] == chunks[|chunks| - 1];
    }
  }

  lemma FramesAreLong(chunks: seq<Bytes>, rest: Bytes)
    requires forall c :: c in chunks ==> Fits(c)
    ensures Frames(chunks) + rest == rest <==> chunks == []
  {
    if chunks == [] {
      assert Frames(chunks) + rest == rest;
    } else {
      assert |Frames(chunks)| >= 4;
    }
  }

  /** What a frame in front of the stream does to a transfer. */
  lemma FrameSettles(data: Bytes, rest: Bytes, size: nat, end: IoKind)
    requires Fits(data) && size > 0
    ensures |data| <= size ==> Settled(FrameBytes(data) + rest, size, end) == Settled(rest, size - |data|, end)
    ensures |data| > size ==> Settled(FrameBytes(data) + rest, size, end).unread == rest
  {
    FrameRoundTrip(data, rest);
  }

  /** An unfinished transfer takes something off any stream that has it. */
  lemma TransferTakes(rest: Bytes, size: nat, end: IoKind)
    requires size > 0
    ensures Settled(rest, size, end).unread == rest <==> rest == []
  {
    var c := ChunkStep(Reader(rest, size, false), end);
    assert |c.reader.unread| < |rest| || rest == [];
  }

  ghost predicate SettlesAfter(chunks: seq<Bytes>, rest: Bytes, size: nat, end: IoKind)
    requires forall c :: c in chunks ==> Fits(c)
  {
    Settled(Frames(chunks) + rest, size, end).unread == rest
  }

  /** The question for a list is the question for its tail, unless the first
      chunk overruns. */
  lemma FirstSettles(chunks: seq<Bytes>, rest: Bytes, size: nat, end: IoKind)
    requires chunks != [] && size > 0 && forall c :: c in chunks ==> Fits(c)
    ensures |chunks[0]| <= size ==>
              (SettlesAfter(chunks, rest, size, end) <==> SettlesAfter(chunks[1..], rest, size - |chunks[0]|, end))
    ensures |chunks[0]| > size ==> (SettlesAfter(chunks, rest, size, end) <==> |chunks| == 1)
  {
    FirstSettled(chunks, rest, size, end);
    if |chunks[0]| > size {
      FramesAreLong(chunks[1..], rest);
    }
  }

  lemma FirstSettled(chunks: seq<Bytes>, rest: Bytes, size: nat, end: IoKind)
    requires chunks != [] && size > 0 && forall c :: c in chunks ==> Fits(c)
    ensures var tail := Frames(chunks[1..]) + rest;
            var settled := Settled(Frames(chunks) + rest, size, end);
            if |chunks[0]| <= size then settled == Settled(tail, size - |chunks[0]|, end) else settled.unread == tail
  {
    FramesUnfold(chunks, rest);
    FrameSettles(chunks[0], Frames(chunks[1..]) + rest, size, end);
  }

  /** Any list of chunks, whether or not it is a chunking, is consumed exactly
      if and only if `EndsWithList`. */
  lemma {:induction false} SettlesAfterListIff(chunks: seq<Bytes>, rest: Bytes, size: nat, end: IoKind)
    requires forall c :: c in chunks ==> Fits(c)
    ensures SettlesAfter(chunks, rest, size, end) <==> EndsWithList(chunks, rest, size)
    decreases |chunks|
  {
    if size == 0 || chunks == [] {
      EmptyListSettles(chunks, rest, size, end);
    } else if |chunks[0]| <= size {
      SettlesAfterListIff(chunks[1..], rest, size - |chunks[0]|, end);
      FirstSettles(chunks, rest, size, end);
      EndsWithTail(chunks, rest, size);
    } else {
      FirstSettles(chunks, rest, size, end);
      EndsWithTail(chunks, rest, size);
    }
  }

  lemma EmptyListSettles(chunks: seq<Bytes>, rest: Bytes, size: nat, end: IoKind)
    requires size == 0 || chunks == []
    requires forall c :: c in chunks ==> Fits(c)
    ensures SettlesAfter(chunks, rest, size, end) <==> EndsWithList(chunks, rest, size)
  {
    FramesAreLong(chunks, rest);
    if size == 0 {
      EmptyTransferEndsHere(chunks);
    } else {
      TransferTakes(rest, size, end);
    }
  }

  lemma EmptyTransferEndsHere(chunks: seq<Bytes>)
    ensures Chunking(chunks, 0) <==> chunks == []
  {
    if chunks != [] {
      LastIsPart(chunks);
    }
  }

  // ---- what follows a complete transfer does not matter ----

  function Followed(r: Reader, more: Bytes): Reader {
    r.(unread := r.unread + more)
  }

  /** While a transfer is going to complete, bytes beyond it and the way the
      stream ends are not observable through the reader. */
  lemma ReadIsLocal(r: Reader, more: Bytes, end: IoKind, other: IoKind)
    requires !Drain(r, end).reader.failed
    ensures var c := ChunkStep(r, end);
            && ChunkStep(Followed(r, more), other) == ChunkRead(c.outcome, Followed(c.reader, more))
            && !Drain(c.reader, end).reader.failed
            && !c.outcome.Error?
  {
    if r.remaining > 0 {
      FrameExtends(r.unread, more);
    }
  }

  lemma {:induction false} DrainIsLocal(r: Reader, more: Bytes, end: IoKind, other: IoKind)
    requires !Drain(r, end).reader.failed
    ensures Drain(Followed(r, more), other) == Drained(None, Followed(Drain(r, end).reader, more))
    decreases |r.unread|
  {
    ReadIsLocal(r, more, end, other);
    var c := ChunkStep(r, end);
    match c.outcome
    case Chunk(_) =>
      DrainIsLocal(c.reader, more, end, other);
    case _ =>
  }

  // ---- the reader as the source has it ----

  class PackageReader {
    const recv: RecvStream
    const size: U64
    var remaining: nat
    var failed: bool
    /** Every byte handed over so far. */
    ghost var taken: Bytes

    ghost predicate Valid()
      reads this
    {
      remaining + |taken| == size
    }

    ghost function State(): Reader
      reads this, recv
    {
      Reader(recv.unread, remaining, failed)
    }

    constructor (recv: RecvStream, size: U64)
      ensures Valid() && this.recv == recv && this.size == size && taken == []
      ensures State() == Reader(recv.unread, size, false)
    {
      this.recv := recv;
      this.size := size;
      remaining := size;
      failed := false;
      taken := [];
    }

    method NextChunk() returns (c: ChunkResult)
      requires Valid()
      modifies this, recv
      ensures Valid()
      ensures ChunkRead(c, State()) == ChunkStep(old(State()), recv.end)
      ensures taken == old(taken) + (if c.Chunk? then c.data else [])
    {
      if failed {
        return Error(AlreadyFailed);
      }
      if remaining == 0 {
        return End;
      }
      c := ReadChunk();
      if c.Error? {
        failed := true;
      }
    }

    /** Reads one chunk and accounts for it against `remaining`. */
    method ReadChunk() returns (c: ChunkResult)
      requires Valid()
      modifies this`remaining, this`taken, recv
      ensures Valid()
      ensures match ReadFrame(old(recv.unread))
              case Short =>
                c == Error(Truncated(recv.end)) && recv.unread == [] && remaining == old(remaining)
              case Framed(data, rest) =>
                && recv.unread == rest
                && (|data| > old(remaining) ==>
                      c == Error(Overrun(|data|, old(remaining))) && remaining == old(remaining))
                && (|data| <= old(remaining) ==>
                      c == Chunk(data) && remaining == old(remaining) - |data|)
      ensures taken == old(taken) + (if c.Chunk? then c.data else [])
    {
      var r := recv.RecvRaw();
      match r
      case Lost(kind) =>
        return Error(Truncated(kind));
      case Got(data) =>
        if |data| > remaining {
          return Error(Overrun(|data|, remaining));
        }
        remaining := remaining - |data|;
        taken := taken + data;
        return Chunk(data);
    }

    /** Reads whatever is left.  The measure is the stream, not `remaining`,
        because an empty chunk leaves `remaining` as it was. */
    method DrainRest() returns (error: Option<ReadError>)
      requires Valid()
      modifies this, recv
      ensures Valid()
      ensures Drained(error, State()) == Drain(old(State()), recv.end)
      ensures error.None? ==> |taken| == size
    {
      DrainVerdict(State(), recv.end);
      while true
        invariant Valid()
        invariant Drain(State(), recv.end) == Drain(old(State()), recv.end)
        decreases |recv.unread|
      {
        var c := NextChunk();
        match c
        case Chunk(_) =>
        case End => return None;
        case Error(e) => return Some(e);
      }
    }
  }
}
