/** The dispatch loop stays aligned: exchanges laid end to end on one stream
    are served as if each had a stream of its own. */
module Alignment {
  import opened Wire
  import opened Payload
  import opened Agent
  import opened InstallExchange

  /** One exchange from the manager's side: a request and the payload chunks
      that follow it, if any. */
  datatype Exchange = Exchange(code: U32, body: Bytes, chunks: seq<Bytes>)

  ghost predicate Sendable(x: Exchange) {
    |x.body| + 4 < 0x1_0000_0000 && forall c :: c in x.chunks ==> Fits(c)
  }

  ghost predicate AllSendable(xs: seq<Exchange>) {
    forall x :: x in xs ==> Sendable(x)
  }

  /** A request frame: the code as a little-endian `u32`, then the body. */
  function RequestBytes(code: U32, body: Bytes): Bytes
    requires |body| + 4 < 0x1_0000_0000
  {
    FrameBytes(LittleEndian(code, 4) + body)
  }

  ghost function ExchangeBytes(x: Exchange): Bytes
    requires Sendable(x)
  {
    RequestBytes(x.code, x.body) + Frames(x.chunks)
  }

  ghost function StreamBytes(xs: seq<Exchange>): Bytes
    requires AllSendable(xs)
  {
    if xs == [] then [] else ExchangeBytes(xs[0]) + StreamBytes(xs[1..])
  }

  lemma StreamUnfold(xs: seq<Exchange>, more: Bytes)
    requires xs != [] && AllSendable(xs)
    ensures StreamBytes(xs) + more == ExchangeBytes(xs[0]) + (StreamBytes(xs[1..]) + more)
  {
  }

  lemma RequestRoundTrip(link: Link, code: U32, body: Bytes, rest: Bytes)
    requires |body| + 4 < 0x1_0000_0000
    ensures ReadRequest(link, RequestBytes(code, body) + rest) == Request(code, body, rest)
  {
    var p := LittleEndian(code, 4) + body;
    FrameRoundTrip(p, rest);
    assert p[..4] == LittleEndian(code, 4) && p[4..] == body;
    Pow256Values();
    LittleEndianRoundTrip(code, 4);
  }

  /** The payload the agent will ask for, if it asks for one. */
  function Asked(table: Table, h: Handler, env: Env, w: World, code: U32, body: Bytes): Option<nat> {
    if table(code).Package? && env.package(body).Some? && Accepts(h, w, env.package(body).value)
    then Some(env.package(body).value.size) else None
  }

  /** The exchange is complete at this point of the conversation: a payload
      follows exactly when the agent asked for one, and it is whole. */
  ghost predicate Complete(table: Table, h: Handler, env: Env, w: World, x: Exchange) {
    && Sendable(x)
    && match Asked(table, h, env, w, x.code, x.body)
       case None => x.chunks == []
       case Some(size) => Chunking(x.chunks, size)
  }

  // ---- one exchange ----

  /** A routine reading a payload that will arrive whole sees nothing of what
      follows it, nor of how the stream ends. */
  lemma {:induction false} RoutineIsLocal(h: Handler, t: Trace, r: Reader, more: Bytes, end: IoKind, other: IoKind)
    requires !Drain(r, end).reader.failed
    ensures var run := RunInstall(h, end, t, r);
            && RunInstall(h, other, t, Followed(r, more)) == run.(reader := Followed(run.reader, more))
            && !Drain(run.reader, end).reader.failed
    decreases |r.unread|, h.patience(t)
  {
    match h.install(t)
    case Return(_) =>
    case ReadOn =>
      var c := ChunkStep(r, end);
      ReadIsLocal(r, more, end, other);
      assert Tires(h, t, c.outcome);
      RoutineIsLocal(h, t + [Read(c.outcome)], c.reader, more, end, other);
  }

  function Ending(env: Env, end: IoKind): Env {
    env.(link := env.link.(end := end))
  }

  function Clean(env: Env): Env {
    Ending(env, UnexpectedEof)
  }

  function At(s: Step, unread: Bytes): Step {
    var w := s.world.(unread := unread);
    if s.Stop? then Stop(w, s.error) else Continue(w)
  }

  /** Routine and drain on a whole payload, with anything after it and
      without. */
  lemma TransferIsLocal(h: Handler, t: Trace, chunks: seq<Bytes>, size: nat, more: Bytes, end: IoKind)
    requires Chunking(chunks, size)
    ensures var alone := RunInstall(h, UnexpectedEof, t, Reader(Frames(chunks), size, false));
            var run := RunInstall(h, end, t, Reader(Frames(chunks) + more, size, false));
            && run.trace == alone.trace && run.result == alone.result
            && Drain(alone.reader, UnexpectedEof) == Drained(None, Reader([], 0, false))
            && Drain(run.reader, end) == Drained(None, Reader(more, 0, false))
  {
    var r := Reader(Frames(chunks), size, false);
    assert Frames(chunks) + [] == Frames(chunks);
    TransferOfChunking(chunks, [], size, UnexpectedEof);
    RoutineIsLocal(h, t, r, more, UnexpectedEof, end);
    RoutineKeepsSettled(h, UnexpectedEof, t, r);
    var alone := RunInstall(h, UnexpectedEof, t, r);
    DrainVerdict(alone.reader, UnexpectedEof);
    DrainIsLocal(alone.reader, more, UnexpectedEof, end);
    assert [] + more == more;
  }

  lemma StreamIsLocal(h: Handler, env: Env, w: World, req: PackageRequest, chunks: seq<Bytes>, more: Bytes)
    requires Accepts(h, w, req) && Chunking(chunks, req.size)
    ensures var alone := DispatchPackage(h, Clean(env), w.(unread := Frames(chunks)), req);
            && DispatchPackage(h, env, w.(unread := Frames(chunks) + more), req) == At(alone, more)
            && alone.world.unread == []
  {
    StreamUnfolds(h, Clean(env), w.(unread := Frames(chunks)), req);
    StreamUnfolds(h, env, w.(unread := Frames(chunks) + more), req);
    var t := w.trace + [Called(InstallPreflight(req)), Called(NodePackageInstall(req))];
    TransferIsLocal(h, t, chunks, req.size, more, env.link.end);
  }

  /** A request that asks for a payload is an install. */
  lemma ServesInstall(table: Table, h: Handler, env: Env, w: World, code: U32, body: Bytes)
    requires Asked(table, h, env, w, code, body).Some?
    ensures var req := env.package(body).value;
            && Accepts(h, w, req) && req.size == Asked(table, h, env, w, code, body).value
            && Serve(table, h, env, w, code, body) == DispatchPackage(h, env, w, req)
  {
  }

  /** A request that asks for no payload is served without looking at the
      stream. */
  lemma ServeIgnoresStream(table: Table, h: Handler, env: Env, end: IoKind, w: World, code: U32, body: Bytes,
                           unread: Bytes)
    requires Asked(table, h, env, w, code, body).None?
    ensures var s := Serve(table, h, env, w, code, body);
            && s.world.unread == w.unread
            && Serve(table, h, Ending(env, end), w.(unread := unread), code, body) == At(s, unread)
  {
    if table(code).Package? {
      match env.package(body) {
        case None =>
        case Some(req) => DispatchIgnoresStream(h, env, end, w, req, unread);
      }
    } else {
      UnaryIgnoresStream(table, h, env, end, w, code, body, unread);
    }
  }

  lemma UnaryIgnoresStream(table: Table, h: Handler, env: Env, end: IoKind, w: World, code: U32, body: Bytes,
                           unread: Bytes)
    requires !table(code).Package?
    ensures var s := Serve(table, h, env, w, code, body);
            && s.world.unread == w.unread
            && Serve(table, h, Ending(env, end), w.(unread := unread), code, body) == At(s, unread)
  {
    match table(code)
    case Decoded(_) =>
    case Power =>
    case Observe =>
    case _ =>
  }

  lemma DispatchIgnoresStream(h: Handler, env: Env, end: IoKind, w: World, req: PackageRequest, unread: Bytes)
    requires !Accepts(h, w, req)
    ensures var s := DispatchPackage(h, env, w, req);
            && s.world.unread == w.unread
            && DispatchPackage(h, Ending(env, end), w.(unread := unread), req) == At(s, unread)
  {
  }

  lemma ServeIsLocal(table: Table, h: Handler, env: Env, w: World, x: Exchange, more: Bytes)
    requires Complete(table, h, env, w, x)
    ensures var alone := Serve(table, h, Clean(env), w.(unread := Frames(x.chunks)), x.code, x.body);
            && Serve(table, h, env, w.(unread := Frames(x.chunks) + more), x.code, x.body) == At(alone, more)
            && alone.world.unread == []
  {
    if Asked(table, h, env, w, x.code, x.body).Some? {
      ServesInstall(table, h, Clean(env), w.(unread := Frames(x.chunks)), x.code, x.body);
      ServesInstall(table, h, env, w.(unread := Frames(x.chunks) + more), x.code, x.body);
      StreamIsLocal(h, env, w, env.package(x.body).value, x.chunks, more);
    } else {
      assert Frames(x.chunks) + more == more;
      ServeIgnoresStream(table, h, env, UnexpectedEof, w.(unread := more), x.code, x.body, []);
    }
  }

  /** The exchange served on a stream of its own that finishes after it. */
  ghost function Alone(table: Table, h: Handler, env: Env, w: World, x: Exchange): Outcome
    requires Sendable(x)
  {
    Run(table, h, Clean(env), w.(unread := ExchangeBytes(x)))
  }

  /** An exchange that is served to the end of its own stream. */
  lemma AloneServes(table: Table, h: Handler, env: Env, w: World, x: Exchange)
    requires Sendable(x)
    requires Serve(table, h, Clean(env), w.(unread := Frames(x.chunks)), x.code, x.body).world.unread == []
    ensures var s := Serve(table, h, Clean(env), w.(unread := Frames(x.chunks)), x.code, x.body);
            Alone(table, h, env, w, x) == Outcome(s.world, if s.Stop? then Some(s.error) else None)
  {
    RequestRoundTrip(Clean(env).link, x.code, x.body, Frames(x.chunks));
    RunOne(table, h, Clean(env), w.(unread := ExchangeBytes(x)), x.code, x.body, Frames(x.chunks));
    var s := Serve(table, h, Clean(env), w.(unread := Frames(x.chunks)), x.code, x.body);
    RunNone(table, h, env, s.world);
  }

  lemma AloneUnfolds(table: Table, h: Handler, env: Env, w: World, x: Exchange)
    requires Complete(table, h, env, w, x)
    ensures var s := Serve(table, h, Clean(env), w.(unread := Frames(x.chunks)), x.code, x.body);
            && s.world.unread == []
            && Alone(table, h, env, w, x) == Outcome(s.world, if s.Stop? then Some(s.error) else None)
  {
    ServeIsLocal(table, h, env, w, x, []);
    AloneServes(table, h, env, w, x);
  }

  lemma RunOne(table: Table, h: Handler, env: Env, w: World, code: U32, body: Bytes, rest: Bytes)
    requires ReadRequest(env.link, w.unread) == Request(code, body, rest)
    ensures var s := Serve(table, h, env, w.(unread := rest), code, body);
            Run(table, h, env, w)
            == if s.Stop? then Outcome(s.world, Some(s.error)) else Run(table, h, env, s.world)
  {
  }

  lemma RunNone(table: Table, h: Handler, env: Env, w: World)
    requires w.unread == []
    ensures Run(table, h, Clean(env), w) == Outcome(w, None)
  {
  }

  lemma FollowedUnfolds(table: Table, h: Handler, env: Env, w: World, x: Exchange, more: Bytes)
    requires Complete(table, h, env, w, x)
    ensures var s := Serve(table, h, Clean(env), w.(unread := Frames(x.chunks)), x.code, x.body);
            Run(table, h, env, w.(unread := ExchangeBytes(x) + more))
            == if s.Stop? then Outcome(s.world.(unread := more), Some(s.error))
               else Run(table, h, env, s.world.(unread := more))
  {
    var rest := Frames(x.chunks) + more;
    assert ExchangeBytes(x) + more == RequestBytes(x.code, x.body) + rest;
    RequestRoundTrip(env.link, x.code, x.body, rest);
    RunOne(table, h, env, w.(unread := ExchangeBytes(x) + more), x.code, x.body, rest);
    ServeIsLocal(table, h, env, w, x, more);
  }

  lemma OneExchange(table: Table, h: Handler, env: Env, w: World, x: Exchange, more: Bytes)
    requires Complete(table, h, env, w, x)
    ensures var alone := Alone(table, h, env, w, x);
            && alone.world.unread == []
            && Run(table, h, env, w.(unread := ExchangeBytes(x) + more))
               == if alone.error.None? then Run(table, h, env, alone.world.(unread := more))
                  else Outcome(alone.world.(unread := more), alone.error)
  {
    AloneUnfolds(table, h, env, w, x);
    FollowedUnfolds(table, h, env, w, x, more);
  }

  // ---- whole conversations ----

  /** How an exchange goes on a stream of its own. */
  type Solo = (World, Exchange) -> Outcome

  ghost function OnItsOwn(table: Table, h: Handler, env: Env): Solo {
    (w: World, x: Exchange) => if Sendable(x) then Alone(table, h, env, w, x) else Outcome(w, None)
  }

  /** Serves each exchange on its own stream, in turn, up to an error. */
  ghost function InTurn(solo: Solo, w: World, xs: seq<Exchange>): Outcome
    decreases xs
  {
    if xs == [] then Outcome(w.(unread := []), None)
    else
      var o := solo(w, xs[0]);
      if o.error.Some? then o else InTurn(solo, o.world, xs[1..])
  }

  /** `p` holds of every exchange when its turn comes. */
  ghost predicate Throughout(solo: Solo, p: (World, Exchange) -> bool, w: World, xs: seq<Exchange>)
    decreases xs
  {
    xs != [] ==>
      && p(w, xs[0])
      && var o := solo(w, xs[0]);
         (o.error.None? ==> Throughout(solo, p, o.world, xs[1..]))
  }

  ghost function Completes(table: Table, h: Handler, env: Env): (World, Exchange) -> bool {
    (w: World, x: Exchange) => Complete(table, h, env, w, x)
  }

  /** Every exchange is complete when its turn comes. */
  ghost predicate AllComplete(table: Table, h: Handler, env: Env, w: World, xs: seq<Exchange>) {
    AllSendable(xs) && Throughout(OnItsOwn(table, h, env), Completes(table, h, env), w, xs)
  }

  /** Loop alignment over whole runs.  If every exchange succeeds the loop is
      left exactly at what follows them; otherwise it stops with the same
      calls, frames and error as the exchange that failed on its own. */
  lemma {:induction false} LoopAlignment(table: Table, h: Handler, env: Env, w: World, xs: seq<Exchange>, more: Bytes)
    requires AllComplete(table, h, env, w, xs)
    ensures var each := InTurn(OnItsOwn(table, h, env), w, xs);
            var run := Run(table, h, env, w.(unread := StreamBytes(xs) + more));
            && each.world.unread == []
            && (each.error.None? ==> run == Run(table, h, env, each.world.(unread := more)))
            && (each.error.Some? ==> run.error == each.error && run.world.(unread := []) == each.world)
    decreases |xs|
  {
    if xs == [] {
      assert StreamBytes(xs) + more == more;
    } else {
      StreamUnfold(xs, more);
      OneExchange(table, h, env, w, xs[0], StreamBytes(xs[1..]) + more);
      var o := Alone(table, h, env, w, xs[0]);
      if o.error.None? {
        LoopAlignment(table, h, env, o.world, xs[1..], more);
      }
    }
  }

  // ---- after a transfer that is not a chunking ----

  /** For every list of chunks and every handler that accepts the install, the
      loop goes on with what follows the list if and only if the list is a
      chunking, its last chunk overruns, or it falls short at the end of the
      stream. */
  lemma ResumesAfterListIff(h: Handler, env: Env, w: World, req: PackageRequest, chunks: seq<Bytes>, rest: Bytes)
    requires Accepts(h, w, req) && forall c :: c in chunks ==> Fits(c)
    ensures DispatchPackage(h, env, w.(unread := Frames(chunks) + rest), req).world.unread == rest
            <==> EndsWithList(chunks, rest, req.size)
  {
    ExchangeSettles(h, env, w.(unread := Frames(chunks) + rest), req);
    SettlesAfterListIff(chunks, rest, req.size, env.link.end);
  }

  lemma TwoFrames(first: Bytes, second: Bytes, rest: Bytes)
    requires Fits(first) && Fits(second)
    ensures Frames([first, second]) + rest == FrameBytes(first) + (FrameBytes(second) + rest)
  {
    var one: seq<Bytes> := [second];
    assert [first, second][1..] == one && one[1..] == [];
    FramesUnfold([first, second], rest);
    FramesUnfold(one, rest);
    assert Frames([]) + rest == rest;
  }

  /** An overrun before the last chunk costs the alignment: the chunk after it
      is taken for the next request. */
  lemma ChunkTakenForRequest(h: Handler, env: Env, w: World, req: PackageRequest, data: Bytes, code: U32, body: Bytes,
                             rest: Bytes)
    requires Accepts(h, w, req) && w.room > 1
    requires Fits(data) && 0 < req.size < |data| && |body| + 4 < 0x1_0000_0000
    ensures var chunks := [data, LittleEndian(code, 4) + body];
            && (forall c :: c in chunks ==> Fits(c))
            && var s := DispatchPackage(h, env, w.(unread := Frames(chunks) + rest), req);
               s.Continue? && ReadRequest(env.link, s.world.unread) == Request(code, body, rest)
  {
    var next := LittleEndian(code, 4) + body;
    var chunks := [data, next];
    var after := RequestBytes(code, body) + rest;
    TwoFrames(data, next, rest);
    FrameSettles(data, after, req.size, env.link.end);
    var w0 := w.(unread := Frames(chunks) + rest);
    ExchangeSettles(h, env, w0, req);
    StreamUnfolds(h, env, w0, req);
    RequestRoundTrip(env.link, code, body, rest);
  }
}
