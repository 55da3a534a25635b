/** What the install exchange guarantees whatever the handler does. */
module InstallExchange {
  import opened Wire
  import opened Payload
  import opened Agent

  /** However often an install routine reads, and whatever it returns, it
      does not move the point at which the transfer ends. */
  lemma {:induction false} RoutineKeepsSettled(h: Handler, end: IoKind, t: Trace, r: Reader)
    ensures Drain(RunInstall(h, end, t, r).reader, end).reader == Drain(r, end).reader
    decreases |r.unread|, h.patience(t)
  {
    match h.install(t)
    case Return(_) =>
    case ReadOn =>
      var c := ChunkStep(r, end);
      ReadKeepsSettled(r, end);
      assert Tires(h, t, c.outcome);
      RoutineKeepsSettled(h, end, t + [Read(c.outcome)], c.reader);
  }

  /** The agent agrees to take the payload of `req`. */
  predicate Accepts(h: Handler, w: World, req: PackageRequest) {
    && req.Install?
    && w.room > 0
    && h.preflight(Note(w, InstallPreflight(req)).trace) == Ok(Proceed)
  }

  /** The run of the install routine inside the exchange. */
  function RoutineRun(h: Handler, env: Env, w: World, req: PackageRequest): InstallRun
    requires req.Install?
  {
    var t := w.trace + [Called(InstallPreflight(req)), Called(NodePackageInstall(req))];
    RunInstall(h, env.link.end, t, Reader(w.unread, req.size, false))
  }

  lemma StreamUnfolds(h: Handler, env: Env, w: World, req: PackageRequest)
    requires Accepts(h, w, req)
    ensures var run := RoutineRun(h, env, w, req);
            var d := Drain(run.reader, env.link.end);
            var w1 := World(d.reader.unread, w.sent + [Ok(Verdict(Proceed))], w.room - 1, run.trace);
            DispatchPackage(h, env, w, req) == Respond(env, w1, ValueFrame(Terminal(run.result, d.error)))
  {
    assert w.trace + [Called(InstallPreflight(req))] + [Called(NodePackageInstall(req))]
        == w.trace + [Called(InstallPreflight(req)), Called(NodePackageInstall(req))];
  }

  /** Handler independence: two handlers that accept an install of the same
      size on the same unread bytes leave the stream at the same place and
      the reader in the same state, however differently they read and answer,
      in failing transfers too, and even if their streams end differently. */
  lemma HandlerIndependence(h: Handler, h': Handler, env: Env, env': Env, w: World, w': World,
                            req: PackageRequest, req': PackageRequest)
    requires Accepts(h, w, req) && Accepts(h', w', req')
    requires w.unread == w'.unread && req.size == req'.size
    ensures DispatchPackage(h, env, w, req).world.unread == DispatchPackage(h', env', w', req').world.unread
    ensures Drain(RoutineRun(h, env, w, req).reader, env.link.end).reader
         == Drain(RoutineRun(h', env', w', req').reader, env'.link.end).reader
  {
    ExchangeSettles(h, env, w, req);
    ExchangeSettles(h', env', w', req');
    DrainIgnoresCause(Reader(w.unread, req.size, false), env.link.end, env'.link.end);
  }

  /** The exchange leaves the stream where the transfer ends. */
  lemma ExchangeSettles(h: Handler, env: Env, w: World, req: PackageRequest)
    requires Accepts(h, w, req)
    ensures DispatchPackage(h, env, w, req).world.unread == Settled(w.unread, req.size, env.link.end).unread
    ensures Drain(RoutineRun(h, env, w, req).reader, env.link.end).reader
         == Settled(w.unread, req.size, env.link.end)
  {
    RoutineKeepsSettled(h, env.link.end,
      w.trace + [Called(InstallPreflight(req)), Called(NodePackageInstall(req))],
      Reader(w.unread, req.size, false));
    StreamUnfolds(h, env, w, req);
  }

  /** The terminal frame: a success is sent only over a payload of exactly
      `size` bytes that was consumed whole, even by a handler that swallowed
      a failed read; a handler's own error text is kept; and over a whole
      payload the handler's result is sent as it is. */
  lemma TerminalFrame(h: Handler, env: Env, w: World, req: PackageRequest)
    requires Accepts(h, w, req) && w.room > 1
    ensures var step := DispatchPackage(h, env, w, req);
            var run := RoutineRun(h, env, w, req);
            && step.Continue?
            && step.world.trace == run.trace
            && |step.world.sent| == |w.sent| + 2
            && step.world.sent[..|w.sent| + 1] == w.sent + [Ok(Verdict(Proceed))]
            && var last := step.world.sent[|w.sent| + 1];
            && (last.Ok? <==> run.result.Ok? && !Settled(w.unread, req.size, env.link.end).failed)
            && (run.result.Err? ==> last == Err(run.result.message))
            && (last.Ok? ==> last == Ok(Value(run.result.value)))
            && (run.result.Ok? && !last.Ok? ==>
                  var cause := Drain(run.reader, env.link.end).error;
                  cause.Some? && last == Err(PayloadNotReceived(cause.value)))
            && (last.Ok? ==> exists chunks ::
                  Chunking(chunks, req.size) && w.unread == Frames(chunks) + step.world.unread)
  {
    StreamUnfolds(h, env, w, req);
    ExchangeSettles(h, env, w, req);
    var run := RoutineRun(h, env, w, req);
    DrainVerdict(run.reader, env.link.end);
    var step := DispatchPackage(h, env, w, req);
    assert step.world.sent[..|w.sent| + 1] == w.sent + [Ok(Verdict(Proceed))];
    if !Settled(w.unread, req.size, env.link.end).failed {
      var chunks, rest := CompletedTransferIsChunking(w.unread, req.size, env.link.end);
    }
  }

  // ---- chunking invariance ----

  /** Where the running install routine was entered and what it has read. */
  function Collected(t: Trace): Option<(Trace, Bytes)> {
    if t == [] then None
    else
      var last := t[|t| - 1];
      if last.Called? then
        if last.call.NodePackageInstall? then Some((t, [])) else None
      else if last.chunk.Chunk? then
        match Collected(t[..|t| - 1])
        case Some((entry, bytes)) => Some((entry, bytes + last.chunk.data))
        case None => None
      else None
  }

  /** An install routine that reads to the end and answers from the payload
      as a whole, not from how it was chunked. */
  ghost predicate ReadsToEnd(h: Handler, answer: (Trace, Bytes) -> Result<Bytes>) {
    forall t: Trace :: ReadsOn(h, answer, t)
  }

  predicate ReadsOn(h: Handler, answer: (Trace, Bytes) -> Result<Bytes>, t: Trace) {
    match Collected(t)
    case None => true
    case Some((entry, bytes)) =>
      h.install(t) == ReadOn && h.install(t + [Read(End)]) == Return(answer(entry, bytes))
  }

  lemma ReadOnce(h: Handler, end: IoKind, t: Trace, r: Reader)
    requires h.install(t) == ReadOn
    ensures var c := ChunkStep(r, end);
            RunInstall(h, end, t, r) == RunInstall(h, end, t + [Read(c.outcome)], c.reader)
  {
  }

  lemma ReachEnd(h: Handler, answer: (Trace, Bytes) -> Result<Bytes>, end: IoKind, t: Trace, rest: Bytes)
    requires ReadsToEnd(h, answer) && Collected(t).Some?
    ensures var run := RunInstall(h, end, t, Reader(rest, 0, false));
            && run.reader == Reader(rest, 0, false)
            && run.result == answer(Collected(t).value.0, Collected(t).value.1)
  {
    assert ReadsOn(h, answer, t);
    ReadOnce(h, end, t, Reader(rest, 0, false));
  }

  lemma ReadFirst(h: Handler, answer: (Trace, Bytes) -> Result<Bytes>, end: IoKind, t: Trace, chunks: seq<Bytes>,
                  rest: Bytes, size: nat)
    requires ReadsToEnd(h, answer) && Collected(t).Some? && Chunking(chunks, size) && chunks != []
    ensures |chunks[0]| <= size && Chunking(chunks[1..], size - |chunks[0]|)
    ensures RunInstall(h, end, t, Reader(Frames(chunks) + rest, size, false))
         == RunInstall(h, end, t + [Read(Chunk(chunks[0]))],
                       Reader(Frames(chunks[1..]) + rest, size - |chunks[0]|, false))
  {
    assert ReadsOn(h, answer, t);
    FirstChunk(chunks, rest, size, end);
    ReadOnce(h, end, t, Reader(Frames(chunks) + rest, size, false));
  }

  lemma ConcatAfter(got: Bytes, chunks: seq<Bytes>)
    requires chunks != []
    ensures got + chunks[0] + Concat(chunks[1..]) == got + Concat(chunks)
  {
  }

  lemma CollectOne(t: Trace, entry: Trace, got: Bytes, data: Bytes)
    requires Collected(t) == Some((entry, got))
    ensures Collected(t + [Read(Chunk(data))]) == Some((entry, got + data))
  {
    assert (t + [Read(Chunk(data))])[..|t|] == t;
  }

  predicate Answered(run: InstallRun, rest: Bytes, result: Result<Bytes>) {
    run.reader == Reader(rest, 0, false) && run.result == result
  }

  lemma ReadsNothing(h: Handler, answer: (Trace, Bytes) -> Result<Bytes>, end: IoKind, t: Trace, entry: Trace,
                     got: Bytes, chunks: seq<Bytes>, rest: Bytes, size: nat)
    requires ReadsToEnd(h, answer) && Collected(t) == Some((entry, got)) && Chunking(chunks, size) && chunks == []
    ensures Answered(RunInstall(h, end, t, Reader(Frames(chunks) + rest, size, false)), rest, answer(entry, got))
    ensures got + Concat(chunks) == got
  {
    assert Frames(chunks) + rest == rest;
    ReachEnd(h, answer, end, t, rest);
  }

  lemma {:induction false} ReadsPayload(h: Handler, answer: (Trace, Bytes) -> Result<Bytes>, end: IoKind, t: Trace,
                                        entry: Trace, got: Bytes, chunks: seq<Bytes>, rest: Bytes, size: nat,
                                        payload: Bytes)
    requires ReadsToEnd(h, answer) && Collected(t) == Some((entry, got)) && Chunking(chunks, size)
    requires payload == got + Concat(chunks)
    ensures Answered(RunInstall(h, end, t, Reader(Frames(chunks) + rest, size, false)), rest, answer(entry, payload))
    decreases |chunks|
  {
    if chunks == [] {
      ReadsNothing(h, answer, end, t, entry, got, chunks, rest, size);
    } else {
      ReadFirst(h, answer, end, t, chunks, rest, size);
      CollectOne(t, entry, got, chunks[0]);
      ConcatAfter(got, chunks);
      ReadsPayload(h, answer, end, t + [Read(Chunk(chunks[0]))], entry, got + chunks[0], chunks[1..], rest,
                   size - |chunks[0]|, payload);
    }
  }

  /** A routine that reads to the end is given the concatenation of the chunks
      and leaves the stream just after them. */
  lemma ReadToEnd(h: Handler, answer: (Trace, Bytes) -> Result<Bytes>, end: IoKind, t: Trace, chunks: seq<Bytes>,
                  rest: Bytes, size: nat)
    requires ReadsToEnd(h, answer) && Collected(t) == Some((t, [])) && Chunking(chunks, size)
    ensures var run := RunInstall(h, end, t, Reader(Frames(chunks) + rest, size, false));
            run.reader == Reader(rest, 0, false) && run.result == answer(t, Concat(chunks))
  {
    assert [] + Concat(chunks) == Concat(chunks);
    ReadsPayload(h, answer, end, t, t, [], chunks, rest, size, Concat(chunks));
  }

  /** Two chunkings of the same bytes give a read-to-end handler the same
      payload, the same frames and the same place to resume. */
  lemma ChunkingInvariance(h: Handler, answer: (Trace, Bytes) -> Result<Bytes>, env: Env, w: World,
                           req: PackageRequest, chunks: seq<Bytes>, chunks': seq<Bytes>, rest: Bytes)
    requires ReadsToEnd(h, answer) && Accepts(h, w, req) && w.room > 1
    requires Chunking(chunks, req.size) && Chunking(chunks', req.size) && Concat(chunks) == Concat(chunks')
    ensures var t := w.trace + [Called(InstallPreflight(req)), Called(NodePackageInstall(req))];
            var step := DispatchPackage(h, env, w.(unread := Frames(chunks) + rest), req);
            var step' := DispatchPackage(h, env, w.(unread := Frames(chunks') + rest), req);
            && step.Continue? && step'.Continue?
            && step.world.unread == rest && step'.world.unread == rest
            && step.world.sent == step'.world.sent
            && step.world.sent
               == w.sent + [Ok(Verdict(Proceed)),
                            match answer(t, Concat(chunks)) case Ok(v) => Ok(Value(v)) case Err(m) => Err(m)]
  {
    var t := w.trace + [Called(InstallPreflight(req)), Called(NodePackageInstall(req))];
    OneChunking(h, answer, env, w, req, chunks, rest);
    OneChunking(h, answer, env, w, req, chunks', rest);
  }

  lemma OneChunking(h: Handler, answer: (Trace, Bytes) -> Result<Bytes>, env: Env, w: World,
                    req: PackageRequest, chunks: seq<Bytes>, rest: Bytes)
    requires ReadsToEnd(h, answer) && Accepts(h, w, req) && w.room > 1
    requires Chunking(chunks, req.size)
    ensures var t := w.trace + [Called(InstallPreflight(req)), Called(NodePackageInstall(req))];
            var step := DispatchPackage(h, env, w.(unread := Frames(chunks) + rest), req);
            && step.Continue? && step.world.unread == rest
            && step.world.sent
               == w.sent + [Ok(Verdict(Proceed)),
                            match answer(t, Concat(chunks)) case Ok(v) => Ok(Value(v)) case Err(m) => Err(m)]
  {
    var t := w.trace + [Called(InstallPreflight(req)), Called(NodePackageInstall(req))];
    var w1 := w.(unread := Frames(chunks) + rest);
    StreamUnfolds(h, env, w1, req);
    ReadToEnd(h, answer, env.link.end, t, chunks, rest, req.size);
  }

  // ---- such routines exist ----

  function CollectMove(answer: (Trace, Bytes) -> Result<Bytes>, t: Trace): Move {
    if Collected(t).Some? then ReadOn
    else if t != [] && t[|t| - 1] == Read(End) && Collected(t[..|t| - 1]).Some? then
      var (entry, bytes) := Collected(t[..|t| - 1]).value;
      Return(answer(entry, bytes))
    else Return(Err(Text("failed to read the payload")))
  }

  /** For every way of answering from the payload there is a handler that
      reads to the end and answers that way. */
  lemma ReadToEndHandlerExists(p: Handler, answer: (Trace, Bytes) -> Result<Bytes>)
    returns (h: Handler)
    ensures ReadsToEnd(h, answer)
    ensures h.preflight == p.preflight
  {
    var q := p.(install := t => CollectMove(answer, t), patience := t => if Collected(t).Some? then 1 else 0);
    h := q;
    forall t: Trace
      ensures ReadsOn(h, answer, t)
    {
      assert (t + [Read(End)])[..|t|] == t;
    }
  }
}
