/** What it tells a caller that the agent's loop ended without an error. */
module CleanEnd {
  import opened Wire
  import opened Payload
  import opened Errors
  import opened Agent
  import opened InstallExchange
  import opened Alignment

  // ---- a trailing partial frame is invisible ----

  /** A stream without the partial frame at its end. */
  function Whole(s: Bytes): Bytes {
    s[..|s| - |Leftover(s)|]
  }

  lemma WholeIsFrames(s: Bytes)
    ensures forall p :: p in Payloads(s) ==> Fits(p)
    ensures Whole(s) == Frames(Payloads(s))
  {
    StreamSplits(s);
  }

  lemma WholeStep(s: Bytes)
    ensures match ReadFrame(s)
            case Short => Whole(s) == []
            case Framed(payload, rest) => ReadFrame(Whole(s)) == Framed(payload, Whole(rest))
  {
    match ReadFrame(s)
    case Short =>
    case Framed(payload, rest) =>
      FrameSplits(s);
      FrameRoundTrip(payload, Whole(rest));
      assert Whole(s) == FrameBytes(payload) + Whole(rest);
  }

  function Trim(r: Reader): Reader {
    r.(unread := Whole(r.unread))
  }

  lemma ChunkTrims(r: Reader, end: IoKind)
    ensures var c := ChunkStep(r, end);
            ChunkStep(Trim(r), end) == ChunkRead(c.outcome, Trim(c.reader))
  {
    WholeStep(r.unread);
  }

  lemma {:induction false} DrainTrims(r: Reader, end: IoKind)
    ensures var d := Drain(r, end);
            Drain(Trim(r), end) == Drained(d.error, Trim(d.reader))
    decreases |r.unread|
  {
    ChunkTrims(r, end);
    var c := ChunkStep(r, end);
    match c.outcome
    case Chunk(_) =>
      DrainTrims(c.reader, end);
    case _ =>
  }

  lemma {:induction false} RoutineTrims(h: Handler, end: IoKind, t: Trace, r: Reader)
    ensures var run := RunInstall(h, end, t, r);
            RunInstall(h, end, t, Trim(r)) == run.(reader := Trim(run.reader))
    decreases |r.unread|, h.patience(t)
  {
    match h.install(t)
    case Return(_) =>
    case ReadOn =>
      var c := ChunkStep(r, end);
      ChunkTrims(r, end);
      assert Tires(h, t, c.outcome);
      ReadOnce(h, end, t, r);
      ReadOnce(h, end, t, Trim(r));
      RoutineTrims(h, end, t + [Read(c.outcome)], c.reader);
  }

  lemma StreamTrims(h: Handler, env: Env, w: World, req: PackageRequest)
    requires Accepts(h, w, req)
    ensures var s := DispatchPackage(h, env, w, req);
            DispatchPackage(h, env, w.(unread := Whole(w.unread)), req) == At(s, Whole(s.world.unread))
  {
    var v := w.(unread := Whole(w.unread));
    StreamUnfolds(h, env, w, req);
    StreamUnfolds(h, env, v, req);
    var t := w.trace + [Called(InstallPreflight(req)), Called(NodePackageInstall(req))];
    TransferTrims(h, env.link.end, t, w.unread, req.size);
  }

  lemma TransferTrims(h: Handler, end: IoKind, t: Trace, s: Bytes, size: nat)
    ensures var run := RunInstall(h, end, t, Reader(s, size, false));
            var trimmed := RunInstall(h, end, t, Reader(Whole(s), size, false));
            var d := Drain(run.reader, end);
            && trimmed.trace == run.trace && trimmed.result == run.result
            && Drain(trimmed.reader, end) == Drained(d.error, Trim(d.reader))
  {
    RoutineTrims(h, end, t, Reader(s, size, false));
    DrainTrims(RunInstall(h, end, t, Reader(s, size, false)).reader, end);
  }

  lemma ServeTrims(table: Table, h: Handler, env: Env, w: World, code: U32, body: Bytes)
    ensures var s := Serve(table, h, env, w, code, body);
            Serve(table, h, env, w.(unread := Whole(w.unread)), code, body) == At(s, Whole(s.world.unread))
  {
    if Asked(table, h, env, w, code, body).Some? {
      ServesInstall(table, h, env, w, code, body);
      ServesInstall(table, h, env, w.(unread := Whole(w.unread)), code, body);
      StreamTrims(h, env, w, env.package(body).value);
    } else {
      assert Ending(env, env.link.end) == env;
      ServeIgnoresStream(table, h, env, env.link.end, w, code, body, Whole(w.unread));
    }
  }

  lemma RequestTrims(link: Link, s: Bytes)
    ensures ReadRequest(link, Whole(s))
         == match ReadRequest(link, s)
            case NoRequest(kind, rest) => NoRequest(kind, Whole(rest))
            case Request(code, body, rest) => Request(code, body, Whole(rest))
  {
    WholeStep(s);
  }

  /** On every run of either loop, for every handler and however the stream
      ends, a partial frame at the end of the stream changes no call, no
      frame and no result. */
  lemma {:induction false} PartialFrameIsInvisible(table: Table, h: Handler, env: Env, w: World)
    ensures var run := Run(table, h, env, w);
            Run(table, h, env, w.(unread := Whole(w.unread)))
            == Outcome(run.world.(unread := Whole(run.world.unread)), run.error)
    decreases |w.unread|
  {
    var v := w.(unread := Whole(w.unread));
    RequestTrims(env.link, w.unread);
    match ReadRequest(env.link, w.unread)
    case NoRequest(_, _) =>
    case Request(code, body, rest) =>
      var w0 := w.(unread := rest);
      RunOne(table, h, env, w, code, body, rest);
      RunOne(table, h, env, v, code, body, Whole(rest));
      ServeTrims(table, h, env, w0, code, body);
      var s := Serve(table, h, env, w0, code, body);
      if s.Continue? {
        PartialFrameIsInvisible(table, h, env, s.world);
      }
  }

  // ---- what success leaves unsaid ----

  /** The bytes on the stream when the loop last looks for a request, if it
      does not stop inside one: what that receive takes is in no request. */
  function LastReceive(table: Table, h: Handler, env: Env, w: World): Option<Bytes>
    decreases |w.unread|
  {
    match ReadRequest(env.link, w.unread)
    case NoRequest(_, _) => Some(w.unread)
    case Request(code, body, rest) =>
      match Serve(table, h, env, w.(unread := rest), code, body)
      case Stop(_, _) => None
      case Continue(w1) => LastReceive(table, h, env, w1)
  }

  /** The stream ends inside the payload the request asked for. */
  predicate CutsTransfer(table: Table, h: Handler, env: Env, w: World, code: U32, body: Bytes) {
    match Asked(table, h, env, w, code, body)
    case None => false
    case Some(size) =>
      var error := Drain(Reader(w.unread, size, false), env.link.end).error;
      error.Some? && error.value.Truncated?
  }

  /** Some transfer of the run is cut short by the end of the stream. */
  predicate RunCutsTransfer(table: Table, h: Handler, env: Env, w: World)
    decreases |w.unread|
  {
    match ReadRequest(env.link, w.unread)
    case NoRequest(_, _) => false
    case Request(code, body, rest) =>
      var w0 := w.(unread := rest);
      || CutsTransfer(table, h, env, w0, code, body)
      || match Serve(table, h, env, w0, code, body)
         case Stop(_, _) => false
         case Continue(w1) => RunCutsTransfer(table, h, env, w1)
  }

  lemma {:induction false} DrainLeaves(r: Reader, end: IoKind)
    ensures var d := Drain(r, end);
            if d.error.Some? && d.error.value.Truncated? then d.reader.unread == []
            else Leftover(d.reader.unread) == Leftover(r.unread)
    decreases |r.unread|
  {
    var c := ChunkStep(r, end);
    match c.outcome
    case Chunk(_) =>
      DrainLeaves(c.reader, end);
    case _ =>
  }

  lemma ServeLeaves(table: Table, h: Handler, env: Env, w: World, code: U32, body: Bytes)
    ensures var s := Serve(table, h, env, w, code, body);
            if CutsTransfer(table, h, env, w, code, body) then s.world.unread == []
            else Leftover(s.world.unread) == Leftover(w.unread)
  {
    if Asked(table, h, env, w, code, body).Some? {
      var req := env.package(body).value;
      ServesInstall(table, h, env, w, code, body);
      ExchangeSettles(h, env, w, req);
      DrainLeaves(Reader(w.unread, req.size, false), env.link.end);
    } else {
      ServeIgnoresStream(table, h, env, env.link.end, w, code, body, w.unread);
    }
  }

  /** An end of file is no error; any other failure to receive is one. */
  function ErrorAt(link: Link, s: Bytes): Option<HandlerError> {
    var kind := FailureKind(link, s);
    if kind == UnexpectedEof then None else Some(RecvError(IoError(kind, None)))
  }

  /** How every run ends: inside a request with an error, or on its last
      receive, with success exactly if that meets an end of file; and that
      receive finds the bytes after the last whole frame, unless a transfer
      has taken them. */
  lemma {:induction false} RunEnds(table: Table, h: Handler, env: Env, w: World)
    ensures var run, last := Run(table, h, env, w), LastReceive(table, h, env, w);
            && (last.Some? ==> FoundNoRequest(last.value) && run.error == ErrorAt(env.link, last.value))
            && (last.None? ==> run.error.Some?)
            && (last.Some? ==>
                  if RunCutsTransfer(table, h, env, w) then last.value == []
                  else Leftover(last.value) == Leftover(w.unread))
    decreases |w.unread|
  {
    match ReadRequest(env.link, w.unread)
    case NoRequest(_, _) =>
    case Request(code, body, rest) =>
      var w0 := w.(unread := rest);
      RunOne(table, h, env, w, code, body, rest);
      ServeLeaves(table, h, env, w0, code, body);
      var s := Serve(table, h, env, w0, code, body);
      if s.Continue? {
        RunEnds(table, h, env, s.world);
      }
  }

  /** The loop goes on until no whole frame is left. */
  predicate Exhausts(table: Table, h: Handler, env: Env, w: World) {
    var last := LastReceive(table, h, env, w);
    last.Some? && ReadFrame(last.value).Short?
  }

  /** The loop ends without an error and without dropping a byte if and only
      if it exhausts a cleanly finished stream that has no partial frame at
      its end, or whose partial frame a transfer was waiting for. */
  lemma NothingDroppedIff(table: Table, h: Handler, env: Env, w: World)
    ensures Run(table, h, env, w).error.None? && LastReceive(table, h, env, w) == Some([])
            <==> && Exhausts(table, h, env, w)
                 && env.link.end.UnexpectedEof?
                 && (Leftover(w.unread) == [] || RunCutsTransfer(table, h, env, w))
  {
    RunEnds(table, h, env, w);
  }

  /** Both loops end without an error on a stream that finishes three bytes
      into a frame. */
  lemma PartialFrameEndsWell(h: Handler, env: Env, w: World)
    requires env.link.end.UnexpectedEof? && w.unread == [0, 0, 0]
    ensures Run(FullRoute, h, env, w) == Run(NodeRoute, h, env, w) == Outcome(w.(unread := []), None)
    ensures LastReceive(FullRoute, h, env, w) == LastReceive(NodeRoute, h, env, w) == Some([0, 0, 0])
  {
  }
}
