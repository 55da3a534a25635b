/** What every request is answered with: the calls it makes and with what
    arguments, and the frames it is sent and with what in them, written out
    request by request and then over whole runs. */
module Answers {
  import opened Wire
  import opened Payload
  import opened Errors
  import opened Agent
  import opened InstallExchange
  import opened Alignment
  import opened Pairing

  /** What a request does to the handler's trace, and the frames it is due. */
  datatype Answer = Answer(events: Trace, frames: seq<Frame>)

  /** A unary method is called and its own result is sent. */
  function Direct(h: Handler, t: Trace, call: Call): Answer {
    Answer([Called(call)], [match h.unary(t + [Called(call)]) case Ok(v) => Ok(Value(v)) case Err(m) => Err(m)])
  }

  /** Nothing is called; the frame names the code. */
  function Rejected(code: U32): Answer {
    Answer([], [Err(UndecodableArgs(code))])
  }

  function PowerAnswer(h: Handler, t: Trace, code: U32, op: Option<PowerOp>): Answer {
    match op
    case None => Rejected(code)
    case Some(Reboot) => Answer([Called(NodePower(Reboot))], [])
    case Some(Shutdown) => Answer([Called(NodePower(Shutdown))], [])
    case Some(GracefulReboot) => Graceful(h, t, GracefulReboot)
    case Some(GracefulShutdown) => Graceful(h, t, GracefulShutdown)
  }

  function Graceful(h: Handler, t: Trace, op: PowerOp): Answer {
    var events := [Called(NodePower(op))];
    Answer(events, [match h.power(t + events) case Ok(_) => Ok(Initiated) case Err(m) => Err(m)])
  }

  function ObservationAnswer(h: Handler, t: Trace, code: U32, query: Option<Query>): Answer {
    match query
    case None => Rejected(code)
    case Some(q) =>
      var events := [Called(NodeObservation(q))];
      Answer(events, [match h.observation(t + events) case Ok(o) => Ok(Observed(o)) case Err(m) => Err(m)])
  }

  /** A preflight verdict; on `Proceed` also the routine's own result, or the
      reason the payload did not fully arrive in place of a success. */
  function InstallAnswer(h: Handler, end: IoKind, t: Trace, stream: Bytes, req: PackageRequest): Answer
    requires req.Install?
  {
    var first := [Called(InstallPreflight(req))];
    match h.preflight(t + first)
    case Err(m) => Answer(first, [Err(m)])
    case Ok(Declined(reason)) => Answer(first, [Ok(Verdict(Declined(reason)))])
    case Ok(Proceed) =>
      var entered := t + [Called(InstallPreflight(req)), Called(NodePackageInstall(req))];
      var run := RunInstall(h, end, entered, Reader(stream, req.size, false));
      var last := match run.result
        case Err(m) => Err(m)
        case Ok(v) =>
          match Drain(run.reader, end).error
          case None => Ok(Value(v))
          case Some(cause) => Err(PayloadNotReceived(cause));
      Answer(if |t| <= |run.trace| then run.trace[|t|..] else [], [Ok(Verdict(Proceed)), last])
  }

  /** The answer to each request, by how its code is routed. */
  function AnswerTo(table: Table, h: Handler, env: Env, t: Trace, stream: Bytes, code: U32, body: Bytes): Answer {
    match table(code)
    case Plain => Direct(h, t, Unary(code, NoArguments))
    case RawBody => Direct(h, t, Unary(code, Arguments(body)))
    case Decoded(_) =>
      (match env.parse(code, body)
       case None => Rejected(code)
       case Some(args) => Direct(h, t, Unary(code, Arguments(args))))
    case Echo => Answer([], [Ok(Unit)])
    case LegacyPower(op) =>
      var events := [Called(NodePower(op))];
      Answer(events, [match h.power(t + events) case Ok(_) => Ok(Unit) case Err(m) => Err(m)])
    case LegacyObservation(query) =>
      var events := [Called(NodeObservation(query))];
      Answer(events,
             [match (query, h.observation(t + events))
              case (_, Err(m)) => Err(m)
              case (ResourceUsage, Ok(Usage(hostname, usage))) => Ok(FlatUsage(hostname, usage))
              case (ProcessList, Ok(Processes(processes))) => Ok(FlatProcesses(processes))
              case (_, Ok(other)) => Err(UnexpectedObservation(other))])
    case Power => PowerAnswer(h, t, code, DecodePower(body))
    case Observe => ObservationAnswer(h, t, code, DecodeQuery(body))
    case Package =>
      (match env.package(body)
       case None => Rejected(code)
       case Some(UnaryPackage(details)) => Direct(h, t, NodePackage(UnaryPackage(details)))
       case Some(Install(size, details)) => InstallAnswer(h, env.link.end, t, stream, Install(size, details)))
    case Unknown => Answer([], [Err(UnknownCode(code))])
  }

  /** The frames of an answer that a send stream with `room` takes. */
  function Fitting(a: Answer, room: nat): seq<Frame> {
    if |a.frames| <= room then a.frames else a.frames[..room]
  }

  /** The part of an answer that happens: an install whose verdict cannot be
      sent goes no further than its preflight. */
  function Happening(a: Answer, room: nat): Trace {
    if room == 0 && |a.frames| == 2 && a.events != [] then a.events[..1] else a.events
  }

  /** A step gives its answer, as far as the send stream takes it: the frames,
      the calls, the room left, and whether and how the loop stops. */
  predicate Gives(table: Table, env: Env, w: World, code: U32, body: Bytes, a: Answer, s: Step) {
    && s.world.sent == w.sent + Fitting(a, w.room)
    && s.world.room == w.room - |Fitting(a, w.room)|
    && s.world.trace == w.trace + Happening(a, w.room)
    && (s.Stop? <==> Undecoded(table, env, code, body) || |a.frames| > w.room)
    && (s.Stop? && !Undecoded(table, env, code, body) ==>
          s.error == SendError(IoError(env.link.sendKind, None)))
  }

  // ---- one request ----

  lemma UnaryGives(table: Table, h: Handler, env: Env, w: World, code: U32, body: Bytes)
    requires table(code).Plain? || table(code).RawBody? || table(code).Decoded?
    ensures Gives(table, env, w, code, body, AnswerTo(table, h, env, w.trace, w.unread, code, body),
                  Serve(table, h, env, w, code, body))
  {
  }

  lemma FixedGives(table: Table, h: Handler, env: Env, w: World, code: U32, body: Bytes)
    requires table(code).Echo? || table(code).Unknown?
    ensures Gives(table, env, w, code, body, AnswerTo(table, h, env, w.trace, w.unread, code, body),
                  Serve(table, h, env, w, code, body))
  {
  }

  lemma LegacyGives(table: Table, h: Handler, env: Env, w: World, code: U32, body: Bytes)
    requires table(code).LegacyPower? || table(code).LegacyObservation?
    ensures Gives(table, env, w, code, body, AnswerTo(table, h, env, w.trace, w.unread, code, body),
                  Serve(table, h, env, w, code, body))
  {
  }

  lemma PowerGives(table: Table, h: Handler, env: Env, w: World, code: U32, body: Bytes)
    requires table(code).Power?
    ensures Gives(table, env, w, code, body, AnswerTo(table, h, env, w.trace, w.unread, code, body),
                  Serve(table, h, env, w, code, body))
  {
  }

  lemma ObserveGives(table: Table, h: Handler, env: Env, w: World, code: U32, body: Bytes)
    requires table(code).Observe?
    ensures Gives(table, env, w, code, body, AnswerTo(table, h, env, w.trace, w.unread, code, body),
                  Serve(table, h, env, w, code, body))
  {
  }

  lemma PackageGives(table: Table, h: Handler, env: Env, w: World, code: U32, body: Bytes)
    requires table(code).Package?
    ensures Gives(table, env, w, code, body, AnswerTo(table, h, env, w.trace, w.unread, code, body),
                  Serve(table, h, env, w, code, body))
  {
    match env.package(body) {
      case None => RejectedGives(table, h, env, w, code, body);
      case Some(UnaryPackage(_)) => UnaryPackageGives(table, h, env, w, code, body);
      case Some(Install(size, details)) => DispatchGives(h, env, w, Install(size, details));
    }
  }

  lemma RejectedGives(table: Table, h: Handler, env: Env, w: World, code: U32, body: Bytes)
    requires table(code).Package? && env.package(body).None?
    ensures Gives(table, env, w, code, body, AnswerTo(table, h, env, w.trace, w.unread, code, body),
                  Serve(table, h, env, w, code, body))
  {
  }

  lemma UnaryPackageGives(table: Table, h: Handler, env: Env, w: World, code: U32, body: Bytes)
    requires table(code).Package? && env.package(body).Some? && env.package(body).value.UnaryPackage?
    ensures Gives(table, env, w, code, body, AnswerTo(table, h, env, w.trace, w.unread, code, body),
                  Serve(table, h, env, w, code, body))
  {
  }

  /** An install gives its answer. */
  predicate GivesInstall(env: Env, w: World, a: Answer, s: Step) {
    && s.world.sent == w.sent + Fitting(a, w.room)
    && s.world.room == w.room - |Fitting(a, w.room)|
    && s.world.trace == w.trace + Happening(a, w.room)
    && (s.Stop? <==> |a.frames| > w.room)
    && (s.Stop? ==> s.error == SendError(IoError(env.link.sendKind, None)))
  }

  lemma DispatchGives(h: Handler, env: Env, w: World, req: PackageRequest)
    requires req.Install?
    ensures GivesInstall(env, w, InstallAnswer(h, env.link.end, w.trace, w.unread, req),
                         DispatchPackage(h, env, w, req))
  {
    if Accepts(h, w, req) {
      InstallGives(h, env, w, req);
    } else if h.preflight(w.trace + [Called(InstallPreflight(req))]) == Ok(Proceed) {
      var entered := w.trace + [Called(InstallPreflight(req)), Called(NodePackageInstall(req))];
      RoutineExtends(h, env.link.end, entered, Reader(w.unread, req.size, false));
      var run := RunInstall(h, env.link.end, entered, Reader(w.unread, req.size, false));
      assert run.trace[|w.trace|] == entered[|w.trace|];
      assert run.trace[|w.trace|..][..1] == [Called(InstallPreflight(req))];
    }
  }

  lemma {:induction false} RoutineExtends(h: Handler, end: IoKind, t: Trace, r: Reader)
    ensures t <= RunInstall(h, end, t, r).trace
    decreases |r.unread|, h.patience(t)
  {
    match h.install(t)
    case Return(_) =>
    case ReadOn =>
      var c := ChunkStep(r, end);
      assert Tires(h, t, c.outcome);
      RoutineExtends(h, end, t + [Read(c.outcome)], c.reader);
  }

  lemma InstallGives(h: Handler, env: Env, w: World, req: PackageRequest)
    requires Accepts(h, w, req)
    ensures GivesInstall(env, w, InstallAnswer(h, env.link.end, w.trace, w.unread, req),
                         DispatchPackage(h, env, w, req))
  {
    StreamUnfolds(h, env, w, req);
    var entered := w.trace + [Called(InstallPreflight(req)), Called(NodePackageInstall(req))];
    RoutineExtends(h, env.link.end, entered, Reader(w.unread, req.size, false));
    var run, a := RoutineRun(h, env, w, req), InstallAnswer(h, env.link.end, w.trace, w.unread, req);
    assert w.trace <= entered;
    assert run.trace == w.trace + a.events;
  }

  /** Every request, for every table, makes exactly the calls and is sent
      exactly the frames of its answer; it stops the loop exactly if its
      arguments do not decode or the send stream does not take the frames. */
  lemma ServeAnswers(table: Table, h: Handler, env: Env, w: World, code: U32, body: Bytes)
    ensures Gives(table, env, w, code, body, AnswerTo(table, h, env, w.trace, w.unread, code, body),
                  Serve(table, h, env, w, code, body))
    ensures Serve(table, h, env, w, code, body).world.unread
         == match Asked(table, h, env, w, code, body)
            case None => w.unread
            case Some(size) => Settled(w.unread, size, env.link.end).unread
  {
    if Asked(table, h, env, w, code, body).Some? {
      ServesInstall(table, h, env, w, code, body);
      ExchangeSettles(h, env, w, env.package(body).value);
    } else {
      ServeIgnoresStream(table, h, env, env.link.end, w, code, body, w.unread);
    }
    match table(code)
    case Plain => UnaryGives(table, h, env, w, code, body);
    case RawBody => UnaryGives(table, h, env, w, code, body);
    case Decoded(_) => UnaryGives(table, h, env, w, code, body);
    case Echo => FixedGives(table, h, env, w, code, body);
    case Unknown => FixedGives(table, h, env, w, code, body);
    case LegacyPower(_) => LegacyGives(table, h, env, w, code, body);
    case LegacyObservation(_) => LegacyGives(table, h, env, w, code, body);
    case Power => PowerGives(table, h, env, w, code, body);
    case Observe => ObserveGives(table, h, env, w, code, body);
    case Package => PackageGives(table, h, env, w, code, body);
  }

  // ---- whole runs ----

  function EventsOf(log: seq<Entry>): Trace {
    if log == [] then [] else log[0].events + EventsOf(log[1..])
  }

  /** A served request was given its answer, beginning with the trace `t` and
      the given room. */
  predicate Answered(table: Table, h: Handler, env: Env, t: Trace, room: nat, e: Entry) {
    var a := AnswerTo(table, h, env, t, e.stream, e.code, e.body);
    e.block == Fitting(a, room) && e.events == Happening(a, room)
  }

  /** Every request of a log was given its answer when its turn came. */
  predicate AllAnswered(table: Table, h: Handler, env: Env, t: Trace, room: nat, log: seq<Entry>)
    decreases log
  {
    log != [] ==>
      && Answered(table, h, env, t, room, log[0])
      && |log[0].block| <= room
      && AllAnswered(table, h, env, t + log[0].events, room - |log[0].block|, log[1..])
  }

  lemma StepAnswered(table: Table, h: Handler, env: Env, w: World, code: U32, body: Bytes)
    ensures var s := Serve(table, h, env, w, code, body);
            var e := EntryOf(w, code, body, s);
            && Answered(table, h, env, w.trace, w.room, e)
            && |e.block| <= w.room && s.world.room == w.room - |e.block|
            && s.world.trace == w.trace + e.events
  {
    ServeAnswers(table, h, env, w, code, body);
    var s, a := Serve(table, h, env, w, code, body), AnswerTo(table, h, env, w.trace, w.unread, code, body);
    assert Written(w, s) == Fitting(a, w.room);
    assert Added(w, s) == Happening(a, w.room);
  }

  lemma AnsweredCons(table: Table, h: Handler, env: Env, t: Trace, room: nat, e: Entry, rest: seq<Entry>)
    requires Answered(table, h, env, t, room, e) && |e.block| <= room
    requires AllAnswered(table, h, env, t + e.events, room - |e.block|, rest)
    ensures AllAnswered(table, h, env, t, room, [e] + rest)
    ensures t + EventsOf([e] + rest) == t + e.events + EventsOf(rest)
  {
    assert ([e] + rest)[1..] == rest;
  }

  /** Over every run: the requests served make, in order, exactly the calls of
      their answers, and are sent exactly the frames of their answers. */
  lemma {:induction false} RunAnswers(table: Table, h: Handler, env: Env, w: World)
    ensures var log, run := Log(table, h, env, w), Run(table, h, env, w);
            && AllAnswered(table, h, env, w.trace, w.room, log)
            && run.world.trace == w.trace + EventsOf(log)
    decreases |w.unread|
  {
    match ReadRequest(env.link, w.unread)
    case NoRequest(_, _) =>
    case Request(code, body, rest) =>
      var w0 := w.(unread := rest);
      var s := Serve(table, h, env, w0, code, body);
      var e := EntryOf(w0, code, body, s);
      LogUnfolds(table, h, env, w);
      RunUnfolds(table, h, env, w);
      StepAnswered(table, h, env, w0, code, body);
      if s.Continue? {
        RunAnswers(table, h, env, s.world);
        AnsweredCons(table, h, env, w.trace, w.room, e, Log(table, h, env, s.world));
      } else {
        AnsweredCons(table, h, env, w.trace, w.room, e, []);
      }
  }

  // ---- what the bodies say ----

  /** The encoded form of each power operation. */
  function PowerBytes(op: PowerOp): Bytes {
    match op
    case Reboot => [0]
    case Shutdown => [1]
    case GracefulReboot => [2]
    case GracefulShutdown => [3]
  }

  /** The encoded form of each query. */
  function QueryBytes(query: Query): Bytes {
    match query
    case ProcessList => [0]
    case ResourceUsage => [1]
    case Uptime => [2]
  }

  /** Each operation and each query is decoded from its own encoding, whatever
      follows it. */
  lemma VariantsDecode(op: PowerOp, query: Query, more: Bytes)
    ensures DecodePower(PowerBytes(op) + more) == Some(op)
    ensures DecodeQuery(QueryBytes(query) + more) == Some(query)
  {
  }

  /** Nothing else decodes: the variant index is the encoding's. */
  lemma OnlyVariantsDecode(b: Bytes)
    ensures match DecodePower(b)
            case Some(op) => VariantIndex(b) == Some(PowerBytes(op)[0])
            case None => VariantIndex(b).None? || VariantIndex(b).value > 3
    ensures match DecodeQuery(b)
            case Some(query) => VariantIndex(b) == Some(QueryBytes(query)[0])
            case None => VariantIndex(b).None? || VariantIndex(b).value > 2
  {
  }

  // ---- which codes are routed how ----

  /** The shapes of the arms of `handle`, code by code. */
  lemma FullRouteShapes(code: U32)
    ensures FullRoute(code).Plain? <==> code == 1 || code == 2 || code == 6 || code == 12
    ensures FullRoute(code).RawBody? <==> code == 20
    ensures FullRoute(code).Echo? <==> code == 17
    ensures FullRoute(code) == LegacyPower(Reboot) <==> code == 4
    ensures FullRoute(code) == LegacyPower(Shutdown) <==> code == 21
    ensures FullRoute(code) == LegacyObservation(ResourceUsage) <==> code == 7
    ensures FullRoute(code) == LegacyObservation(ProcessList) <==> code == 19
    ensures FullRoute(code).Power? <==> code == 106
    ensures FullRoute(code).Observe? <==> code == 107
    ensures FullRoute(code).Package? <==> code == 109
    ensures FullRoute(code).Unknown? <==> code == 3 || code == 11 || 27 <= code <= 99 || code >= 111
    ensures FullRoute(code).Decoded? ==> FullRoute(code).classify == if code == 5 then Some(InvalidArgs) else None
  {
  }
}
