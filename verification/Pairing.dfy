/** Which frame answers which request, and how the two entry points relate. */
module Pairing {
  import opened Wire
  import opened Payload
  import opened Errors
  import opened Agent

  /** The number of frames that answer a request, as its sender can tell:
      none for an immediate power operation, two for an install whose first
      frame says `Proceed`, one for everything else. */
  function Expected(table: Table, env: Env, code: U32, body: Bytes, frames: seq<Frame>): nat {
    match table(code)
    case Power =>
      (match DecodePower(body)
       case Some(op) => if ExpectsResponse(op) then 1 else 0
       case None => 1)
    case Package =>
      (match env.package(body)
       case Some(Install(_, _)) => if frames != [] && frames[0] == Ok(Verdict(Proceed)) then 2 else 1
       case _ => 1)
    case _ => 1
  }

  /** The frames a step wrote. */
  function Written(w: World, s: Step): seq<Frame> {
    if |w.sent| <= |s.world.sent| then s.world.sent[|w.sent|..] else []
  }

  /** Serving a request writes its block and nothing else; a block falls
      short only when the stream takes no more frames, and then the loop
      stops. */
  ghost predicate WritesBlock(table: Table, env: Env, w: World, code: U32, body: Bytes, s: Step) {
    var block := Written(w, s);
    var expected := Expected(table, env, code, body, block);
    && s.world.sent == w.sent + block
    && |block| + s.world.room == w.room
    && |block| <= expected
    && (|block| < expected ==> s.Stop? && s.world.room == 0)
  }

  lemma ServeWritesBlock(table: Table, h: Handler, env: Env, w: World, code: U32, body: Bytes)
    ensures WritesBlock(table, env, w, code, body, Serve(table, h, env, w, code, body))
  {
    match table(code)
    case Package =>
      match env.package(body) {
        case Some(Install(_, _)) => InstallWritesBlock(table, h, env, w, code, body);
        case _ =>
      }
    case Decoded(_) =>
    case Power =>
    case Observe =>
    case _ =>
  }

  lemma InstallWritesBlock(table: Table, h: Handler, env: Env, w: World, code: U32, body: Bytes)
    requires table(code).Package? && env.package(body).Some? && env.package(body).value.Install?
    ensures WritesBlock(table, env, w, code, body, Serve(table, h, env, w, code, body))
  {
    var s := Serve(table, h, env, w, code, body);
    var verdict := VerdictFrame(h.preflight(Note(w, InstallPreflight(env.package(body).value)).trace));
    if w.room > 0 {
      assert w.sent + [verdict] <= s.world.sent;
      assert Written(w, s)[0] == verdict;
    }
  }

  // ---- whole runs ----

  /** A request the loop served, what followed it on the stream, and the
      events and frames it added. */
  datatype Entry = Entry(code: U32, body: Bytes, stream: Bytes, events: Trace, block: seq<Frame>)

  /** The events a step added. */
  function Added(w: World, s: Step): Trace {
    if |w.trace| <= |s.world.trace| then s.world.trace[|w.trace|..] else []
  }

  function EntryOf(w: World, code: U32, body: Bytes, s: Step): Entry {
    Entry(code, body, w.unread, Added(w, s), Written(w, s))
  }

  /** The requests served by a run, in order. */
  function Log(table: Table, h: Handler, env: Env, w: World): seq<Entry>
    decreases |w.unread|
  {
    match ReadRequest(env.link, w.unread)
    case NoRequest(_, _) => []
    case Request(code, body, rest) =>
      var w0 := w.(unread := rest);
      var s := Serve(table, h, env, w0, code, body);
      [EntryOf(w0, code, body, s)] + if s.Stop? then [] else Log(table, h, env, s.world)
  }

  function Answers(log: seq<Entry>): seq<Frame> {
    if log == [] then [] else log[0].block + Answers(log[1..])
  }

  /** Assigns frames to requests knowing only the requests and the frames. */
  function Recover(table: Table, env: Env, requests: seq<(U32, Bytes)>, frames: seq<Frame>): seq<seq<Frame>> {
    if requests == [] then []
    else
      var n := Expected(table, env, requests[0].0, requests[0].1, frames);
      if |frames| < n then [frames] + Recover(table, env, requests[1..], [])
      else [frames[..n]] + Recover(table, env, requests[1..], frames[n..])
  }

  function Requests(log: seq<Entry>): (r: seq<(U32, Bytes)>)
    ensures |r| == |log|
  {
    if log == [] then [] else [(log[0].code, log[0].body)] + Requests(log[1..])
  }

  function Blocks(log: seq<Entry>): (r: seq<seq<Frame>>)
    ensures |r| == |log|
  {
    if log == [] then [] else [log[0].block] + Blocks(log[1..])
  }

  ghost predicate Served(table: Table, env: Env, log: seq<Entry>, failed: bool) {
    forall i :: 0 <= i < |log| ==>
      && |log[i].block| <= Expected(table, env, log[i].code, log[i].body, log[i].block)
      && (i < |log| - 1 || !failed ==>
            |log[i].block| == Expected(table, env, log[i].code, log[i].body, log[i].block))
  }

  lemma ServedCons(table: Table, env: Env, e: Entry, rest: seq<Entry>, failed: bool)
    requires Served(table, env, rest, failed)
    requires |e.block| <= Expected(table, env, e.code, e.body, e.block)
    requires rest != [] || !failed ==> |e.block| == Expected(table, env, e.code, e.body, e.block)
    ensures Served(table, env, [e] + rest, failed)
  {
    var log := [e] + rest;
    assert forall i :: 1 <= i < |log| ==> log[i] == rest[i - 1];
  }

  lemma LogUnfolds(table: Table, h: Handler, env: Env, w: World)
    requires ReadRequest(env.link, w.unread).Request?
    ensures var r := ReadRequest(env.link, w.unread);
            var w0 := w.(unread := r.rest);
            var s := Serve(table, h, env, w0, r.code, r.body);
            Log(table, h, env, w)
            == [EntryOf(w0, r.code, r.body, s)] + if s.Stop? then [] else Log(table, h, env, s.world)
  {
  }

  lemma RunUnfolds(table: Table, h: Handler, env: Env, w: World)
    requires ReadRequest(env.link, w.unread).Request?
    ensures var r := ReadRequest(env.link, w.unread);
            var s := Serve(table, h, env, w.(unread := r.rest), r.code, r.body);
            Run(table, h, env, w)
            == if s.Stop? then Outcome(s.world, Some(s.error)) else Run(table, h, env, s.world)
  {
  }

  /** On every run the output is the concatenation, in request order, of the
      blocks of the requests served. */
  lemma {:induction false} OutputIsBlocks(table: Table, h: Handler, env: Env, w: World)
    ensures Run(table, h, env, w).world.sent == w.sent + Answers(Log(table, h, env, w))
    decreases |w.unread|
  {
    match ReadRequest(env.link, w.unread)
    case NoRequest(_, _) =>
    case Request(code, body, rest) =>
      var w0 := w.(unread := rest);
      var s := Serve(table, h, env, w0, code, body);
      LogUnfolds(table, h, env, w);
      RunUnfolds(table, h, env, w);
      ServeWritesBlock(table, h, env, w0, code, body);
      var e := EntryOf(w0, code, body, s);
      if s.Continue? {
        OutputIsBlocks(table, h, env, s.world);
        AnswersAfter(w.sent, e, Log(table, h, env, s.world));
      } else {
        AnswersAfter(w.sent, e, []);
      }
  }

  lemma AnswersAfter(sent: seq<Frame>, e: Entry, rest: seq<Entry>)
    ensures sent + Answers([e] + rest) == sent + e.block + Answers(rest)
  {
    assert ([e] + rest)[1..] == rest;
  }

  /** On every run each block has the length its request expects, except that
      the block the run failed on can be short. */
  lemma {:induction false} BlocksAreExpected(table: Table, h: Handler, env: Env, w: World)
    ensures Served(table, env, Log(table, h, env, w), Run(table, h, env, w).error.Some?)
    decreases |w.unread|
  {
    match ReadRequest(env.link, w.unread)
    case NoRequest(_, _) =>
    case Request(code, body, rest) =>
      var w0 := w.(unread := rest);
      var s := Serve(table, h, env, w0, code, body);
      LogUnfolds(table, h, env, w);
      RunUnfolds(table, h, env, w);
      ServeWritesBlock(table, h, env, w0, code, body);
      var e := EntryOf(w0, code, body, s);
      if s.Continue? {
        BlocksAreExpected(table, h, env, s.world);
        ServedCons(table, env, e, Log(table, h, env, s.world), Run(table, h, env, s.world).error.Some?);
      } else {
        ServedCons(table, env, e, [], true);
      }
  }

  /** Response pairing: both together. */
  lemma ResponsePairing(table: Table, h: Handler, env: Env, w: World)
    ensures var log := Log(table, h, env, w);
            var run := Run(table, h, env, w);
            && run.world.sent == w.sent + Answers(log)
            && Served(table, env, log, run.error.Some?)
  {
    OutputIsBlocks(table, h, env, w);
    BlocksAreExpected(table, h, env, w);
  }

  /** A block is found again in front of whatever follows it. */
  lemma ExpectedIsLocal(table: Table, env: Env, code: U32, body: Bytes, block: seq<Frame>, more: seq<Frame>)
    requires |block| == Expected(table, env, code, body, block)
    ensures Expected(table, env, code, body, block + more) == |block|
  {
  }

  lemma {:induction false} RecoverServed(table: Table, env: Env, log: seq<Entry>, failed: bool)
    requires Served(table, env, log, failed)
    ensures Recover(table, env, Requests(log), Answers(log)) == Blocks(log)
  {
    if log == [] {
    } else {
      var e, rest := log[0], log[1..];
      assert Requests(log)[1..] == Requests(rest);
      if |log| == 1 {
        assert Answers(log) == e.block;
        assert Requests(log)[1..] == [];
        assert Recover(table, env, Requests(log)[1..], []) == [];
        assert e.block[..|e.block|] == e.block && e.block[|e.block|..] == [];
        assert Blocks(log) == [e.block];
      } else {
        ExpectedIsLocal(table, env, e.code, e.body, e.block, Answers(rest));
        assert Answers(log)[..|e.block|] == e.block && Answers(log)[|e.block|..] == Answers(rest);
        assert Served(table, env, rest, failed) by {
          assert forall i :: 0 <= i < |rest| ==> rest[i] == log[i + 1];
        }
        RecoverServed(table, env, rest, failed);
      }
    }
  }

  /** A reader that knows the requests recovers from the frames of any run
      which of them answer which request. */
  lemma FramesIdentifyRequests(table: Table, h: Handler, env: Env, w: World)
    ensures w.sent <= Run(table, h, env, w).world.sent
    ensures var log := Log(table, h, env, w);
            Recover(table, env, Requests(log), Run(table, h, env, w).world.sent[|w.sent|..]) == Blocks(log)
  {
    ResponsePairing(table, h, env, w);
    var log := Log(table, h, env, w);
    RecoverServed(table, env, log, Run(table, h, env, w).error.Some?);
    assert Run(table, h, env, w).world.sent[|w.sent|..] == Answers(log);
  }

  /** The category a route gives its parse failures. */
  function Classified(route: Route): Option<ProtocolErrorKind> {
    match route
    case Decoded(classify) => classify
    case Power => Some(InvalidArgs)
    case _ => None
  }

  /** The arguments of a request do not decode. */
  predicate Undecoded(table: Table, env: Env, code: U32, body: Bytes) {
    match table(code)
    case Decoded(_) => env.parse(code, body).None?
    case Power => DecodePower(body).None?
    case Observe => DecodeQuery(body).None?
    case Package => env.package(body).None?
    case _ => false
  }

  /** Why a loop stops inside a request: with a receive error if and only if
      the arguments do not decode; then the handler was not called, one error
      frame naming the code was sent if it could be, and the error carries
      the route's category.  Any other stop is an exhausted send stream. */
  lemma StopReason(table: Table, h: Handler, env: Env, w: World, code: U32, body: Bytes)
    ensures var s := Serve(table, h, env, w, code, body);
            && (s.Stop? && s.error.RecvError? <==> Undecoded(table, env, code, body))
            && (Undecoded(table, env, code, body) ==>
                  && s.world.trace == w.trace
                  && s.error.error == IoError(InvalidData, Classified(table(code)))
                  && s.world.sent == w.sent + (if w.room > 0 then [Err(UndecodableArgs(code))] else []))
            && (s.Stop? && s.error.SendError? ==> s.world.room == 0 && s.error.Kind() == Other)
  {
    match table(code)
    case Package =>
      match env.package(body) {
        case Some(Install(_, _)) =>
        case _ =>
      }
    case Decoded(_) =>
    case Power =>
    case Observe =>
    case _ =>
  }

  /** A decode failure is `InvalidArgs` exactly for the two codes whose arms
      classify it; every other one reads as `NotSupported`. */
  lemma DecodeErrorKind(h: Handler, env: Env, w: World, code: U32, body: Bytes)
    requires Undecoded(FullRoute, env, code, body)
    ensures var s := Serve(FullRoute, h, env, w, code, body);
            && s.Stop?
            && s.error.Kind() == if code == 5 || code == 106 then InvalidArgs else NotSupported
  {
    StopReason(FullRoute, h, env, w, code, body);
  }

  /** A `NodeHostname` request without arguments that decode is reported as
      not supported, though the agent supports it. */
  lemma MalformedReadsAsUnsupported(h: Handler, link: Link, w: World)
    ensures var env := Env(link, (code, body) => None, body => None);
            var s := Serve(FullRoute, h, env, w, 102, []);
            && FullRoute(102) == Decoded(None)
            && s.Stop? && s.error.Kind() == NotSupported
  {
    DecodeErrorKind(h, Env(link, (code, body) => None, body => None), w, 102, []);
  }

  // ---- handle_node against handle ----

  /** The `NodeHandler` every `Handler` is: the node methods forwarded, none
      of the others. */
  function Blanket(h: Program): Program {
    h.(unary := (t: Trace) =>
         if t != [] && t[|t| - 1].Called? && NodeCall(t[|t| - 1].call) then h.unary(t)
         else Err(Text("not supported")))
  }

  predicate NodeCall(call: Call) {
    !call.Unary? || NodeFamily(call.code)
  }

  lemma BlanketReturns(h: Handler)
    ensures Returns(Blanket(h))
  {
    forall t: Trace, c: ChunkResult
      ensures Tires(Blanket(h), t, c)
    {
      assert Tires(h, t, c);
    }
  }

  lemma {:induction false} BlanketInstalls(h: Handler, b: Handler, end: IoKind, t: Trace, r: Reader)
    requires b == Blanket(h)
    ensures RunInstall(b, end, t, r) == RunInstall(h, end, t, r)
    decreases |r.unread|, h.patience(t)
  {
    match h.install(t)
    case Return(_) =>
    case ReadOn =>
      var c := ChunkStep(r, end);
      assert Tires(h, t, c.outcome);
      BlanketInstalls(h, b, end, t + [Read(c.outcome)], c.reader);
  }

  lemma BlanketDispatches(h: Handler, b: Handler, env: Env, w: World, req: PackageRequest)
    requires b == Blanket(h)
    ensures DispatchPackage(b, env, w, req) == DispatchPackage(h, env, w, req)
  {
    if req.Install? {
      var t := w.trace + [Called(InstallPreflight(req))] + [Called(NodePackageInstall(req))];
      BlanketInstalls(h, b, env.link.end, t, Reader(w.unread, req.size, false));
    }
  }

  lemma BlanketServes(h: Handler, b: Handler, env: Env, w: World, code: U32, body: Bytes)
    requires b == Blanket(h)
    ensures Serve(NodeRoute, b, env, w, code, body) == Serve(NodeRoute, h, env, w, code, body)
  {
    if code == 109 && env.package(body).Some? {
      BlanketDispatches(h, b, env, w, env.package(body).value);
    }
  }

  /** `handle_node` on the blanket implementation refines `handle`: on every
      run that meets only node-family or unassigned codes it makes the same
      calls, writes the same frames and ends the same way. */
  lemma {:induction false} NodeRefinesFull(h: Handler, b: Handler, env: Env, w: World)
    requires b == Blanket(h)
    requires forall e :: e in Log(FullRoute, h, env, w) ==> NodeFamily(e.code) || FullRoute(e.code).Unknown?
    ensures Run(NodeRoute, b, env, w) == Run(FullRoute, h, env, w)
    decreases |w.unread|
  {
    match ReadRequest(env.link, w.unread)
    case NoRequest(_, _) =>
    case Request(code, body, rest) =>
      var w0 := w.(unread := rest);
      var s := Serve(FullRoute, h, env, w0, code, body);
      var log := Log(FullRoute, h, env, w);
      assert log[0] in log;
      RoutesAgree(code);
      ServeAgrees(h, env, w0, code, body);
      BlanketServes(h, b, env, w0, code, body);
      if s.Continue? {
        assert forall e :: e in Log(FullRoute, h, env, s.world) ==> e in log;
        NodeRefinesFull(h, b, env, s.world);
      }
  }
}
