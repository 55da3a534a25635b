/** The agent's dispatch functions as the source writes them: loops over a
    stream, a reader object and a send stream, each proved to compute what
    the functions of `Agent` say. */
module AgentLoops {
  import opened Wire
  import opened Payload
  import opened Errors
  import opened Agent

  ghost function WorldOf(send: SendStream<Frame>, recv: RecvStream, t: Trace): World
    reads send, recv
  {
    World(recv.unread, send.sent, send.room, t)
  }

  /** The error of a failing send. */
  function SendFailure(env: Env): HandlerError {
    SendError(IoError(env.link.sendKind, None))
  }

  /** The handler's install routine: it calls `next_chunk` as often as it
      likes and returns. */
  method NodePackageInstallRoutine(h: Handler, pkg: PackageReader, t: Trace)
    returns (result: Result<Bytes>, t': Trace)
    requires pkg.Valid()
    modifies pkg, pkg.recv
    ensures pkg.Valid()
    ensures InstallRun(t', pkg.State(), result) == RunInstall(h, pkg.recv.end, t, old(pkg.State()))
  {
    t' := t;
    while true
      invariant pkg.Valid()
      invariant RunInstall(h, pkg.recv.end, t', pkg.State())
             == RunInstall(h, pkg.recv.end, t, old(pkg.State()))
      decreases |pkg.recv.unread|, h.patience(t')
    {
      var move := h.install(t');
      match move
      case Return(r) =>
        return r, t';
      case ReadOn =>
        var c := pkg.NextChunk();
        assert Tires(h, t', c);
        t' := t' + [Read(c)];
    }
  }

  method DispatchNodePackage(h: Handler, env: Env, send: SendStream<Frame>, recv: RecvStream,
                             req: PackageRequest, t: Trace)
    returns (error: Option<HandlerError>, t': Trace)
    requires recv.end == env.link.end
    modifies send, recv
    ensures var step := DispatchPackage(h, env, old(WorldOf(send, recv, t)), req);
            && step.world == WorldOf(send, recv, t')
            && error == (if step.Stop? then Some(step.error) else None)
  {
    error := None;
    if req.UnaryPackage? {
      t' := t + [Called(NodePackage(req))];
      var ok := send.Send(ValueFrame(h.unary(t')));
      if !ok { error := Some(SendFailure(env)); }
      return;
    }
    t' := t + [Called(InstallPreflight(req))];
    var verdict := h.preflight(t');
    var ok := send.Send(VerdictFrame(verdict));
    if !ok {
      error := Some(SendFailure(env));
      return;
    }
    if verdict != Ok(Proceed) {
      return;
    }
    t' := t' + [Called(NodePackageInstall(req))];
    var pkg := new PackageReader(recv, req.size);
    var result;
    result, t' := NodePackageInstallRoutine(h, pkg, t');
    var drained := pkg.DrainRest();
    if result.Ok? && drained.Some? {
      result := Err(PayloadNotReceived(drained.value));
    }
    ok := send.Send(ValueFrame(result));
    if !ok { error := Some(SendFailure(env)); }
  }

  /** Answers undecodable arguments; a failure to send the frame is ignored. */
  method RejectArgs(env: Env, send: SendStream<Frame>, code: U32, classify: Option<ProtocolErrorKind>)
    returns (error: HandlerError)
    modifies send
    ensures forall unread, t ::
              Undecodable(env, World(unread, old(send.sent), old(send.room), t), code, classify)
              == Stop(World(unread, send.sent, send.room, t), error)
  {
    var _ := send.Send(Err(UndecodableArgs(code)));
    var e := IoError(InvalidData, None);
    error := RecvError(match classify case Some(kind) => FromIo(kind, e) case None => e);
  }

  /** Calls a unary method and answers with its result. */
  method AnswerUnary(h: Handler, env: Env, send: SendStream<Frame>, call: Call, t: Trace)
    returns (error: Option<HandlerError>, t': Trace)
    modifies send
    ensures forall unread ::
              var step := CallUnary(h, env, World(unread, old(send.sent), old(send.room), t), call);
              && step.world == World(unread, send.sent, send.room, t')
              && error == (if step.Stop? then Some(step.error) else None)
  {
    t' := t + [Called(call)];
    var ok := send.Send(ValueFrame(h.unary(t')));
    error := if ok then None else Some(SendFailure(env));
  }

  /** The arms of `handle_node`, which `handle` has too. */
  method ServeNodeCode(h: Handler, env: Env, send: SendStream<Frame>, recv: RecvStream,
                       code: U32, body: Bytes, t: Trace)
    returns (error: Option<HandlerError>, t': Trace)
    requires recv.end == env.link.end
    modifies send, recv
    ensures var step := Serve(NodeRoute, h, env, old(WorldOf(send, recv, t)), code, body);
            && step.world == WorldOf(send, recv, t')
            && error == (if step.Stop? then Some(step.error) else None)
  {
    error, t' := None, t;
    if code == 106 {
      var op := DecodePower(body);
      if op.None? {
        var e := RejectArgs(env, send, code, Some(InvalidArgs));
        return Some(e), t;
      }
      t' := t + [Called(NodePower(op.value))];
      var result := h.power(t');
      if ExpectsResponse(op.value) {
        var ok := send.Send(PowerFrame(result));
        if !ok { error := Some(SendFailure(env)); }
      }
    } else if code == 107 {
      var query := DecodeQuery(body);
      if query.None? {
        var e := RejectArgs(env, send, code, None);
        return Some(e), t;
      }
      t' := t + [Called(NodeObservation(query.value))];
      var ok := send.Send(ObservationFrame(h.observation(t')));
      if !ok { error := Some(SendFailure(env)); }
    } else if code == 109 {
      var req := env.package(body);
      if req.None? {
        var e := RejectArgs(env, send, code, None);
        return Some(e), t;
      }
      error, t' := DispatchNodePackage(h, env, send, recv, req.value, t);
    } else if NodeFamily(code) {
      var args := env.parse(code, body);
      if args.None? {
        var e := RejectArgs(env, send, code, None);
        return Some(e), t;
      }
      error, t' := AnswerUnary(h, env, send, Unary(code, Arguments(args.value)), t);
    } else {
      var ok := send.Send(Err(UnknownCode(code)));
      if !ok { error := Some(SendFailure(env)); }
    }
  }

  method HandleNode(h: Handler, env: Env, send: SendStream<Frame>, recv: RecvStream, t: Trace)
    returns (error: Option<HandlerError>, t': Trace)
    requires recv.end == env.link.end
    modifies send, recv
    ensures Outcome(WorldOf(send, recv, t'), error)
         == Run(NodeRoute, h, env, old(WorldOf(send, recv, t)))
  {
    t' := t;
    while true
      invariant Run(NodeRoute, h, env, WorldOf(send, recv, t'))
             == Run(NodeRoute, h, env, old(WorldOf(send, recv, t)))
      decreases |recv.unread|
    {
      var r := RecvRequest(env.link, recv);
      match r
      case NoRequest(kind, _) =>
        return (if kind.UnexpectedEof? then None else Some(RecvError(IoError(kind, None)))), t';
      case Request(code, body, _) =>
        error, t' := ServeNodeCode(h, env, send, recv, code, body, t');
        if error.Some? {
          return;
        }
    }
  }

  method Handle(h: Handler, env: Env, send: SendStream<Frame>, recv: RecvStream, t: Trace)
    returns (error: Option<HandlerError>, t': Trace)
    requires recv.end == env.link.end
    modifies send, recv
    ensures Outcome(WorldOf(send, recv, t'), error)
         == Run(FullRoute, h, env, old(WorldOf(send, recv, t)))
  {
    t' := t;
    while true
      invariant Run(FullRoute, h, env, WorldOf(send, recv, t'))
             == Run(FullRoute, h, env, old(WorldOf(send, recv, t)))
      decreases |recv.unread|
    {
      var r := RecvRequest(env.link, recv);
      match r
      case NoRequest(kind, _) =>
        return (if kind.UnexpectedEof? then None else Some(RecvError(IoError(kind, None)))), t';
      case Request(code, body, _) =>
        if NodeFamily(code) {
          RoutesAgree(code);
          ServeAgrees(h, env, WorldOf(send, recv, t'), code, body);
          error, t' := ServeNodeCode(h, env, send, recv, code, body, t');
        } else {
          error, t' := ServeFlatCode(h, env, send, code, body, t');
        }
        if error.Some? {
          return;
        }
    }
  }

  /** The arms of `handle` outside the node family. */
  method ServeFlatCode(h: Handler, env: Env, send: SendStream<Frame>, code: U32, body: Bytes, t: Trace)
    returns (error: Option<HandlerError>, t': Trace)
    requires !NodeFamily(code)
    modifies send
    ensures forall unread ::
              var step := Serve(FullRoute, h, env, World(unread, old(send.sent), old(send.room), t), code, body);
              && step.world == World(unread, send.sent, send.room, t')
              && error == (if step.Stop? then Some(step.error) else None)
  {
    error, t' := None, t;
    var route := FullRoute(code);
    if {
      case route.Plain? =>
        error, t' := AnswerUnary(h, env, send, Unary(code, NoArguments), t);
      case route.RawBody? =>
        error, t' := AnswerUnary(h, env, send, Unary(code, Arguments(body)), t);
      case route.Decoded? =>
        var args := env.parse(code, body);
        if args.None? {
          var e := RejectArgs(env, send, code, route.classify);
          return Some(e), t;
        }
        error, t' := AnswerUnary(h, env, send, Unary(code, Arguments(args.value)), t);
      case route.Echo? =>
        var ok := send.Send(Ok(Unit));
        if !ok { error := Some(SendFailure(env)); }
      case route.LegacyPower? =>
        t' := t + [Called(NodePower(route.op))];
        var ok := send.Send(FlatPowerFrame(h.power(t')));
        if !ok { error := Some(SendFailure(env)); }
      case route.LegacyObservation? =>
        t' := t + [Called(NodeObservation(route.query))];
        var ok := send.Send(FlatObservationFrame(route.query, h.observation(t')));
        if !ok { error := Some(SendFailure(env)); }
      case route.Unknown? =>
        var ok := send.Send(Err(UnknownCode(code)));
        if !ok { error := Some(SendFailure(env)); }
    }
  }
}
