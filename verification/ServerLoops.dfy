/** The server's two dispatch functions as the source writes them: loops over
    a stream, proved to compute what the functions of `Server` say. */
module ServerLoops {
  import opened Wire
  import opened Errors
  import opened Authorization
  import opened ServerTables
  import opened Server

  ghost function WorldOf<I>(send: SendStream<Result>, recv: RecvStream, t: seq<Event<I>>): World<I>
    reads send, recv
  {
    World(recv.unread, send.sent, send.room, t)
  }

  /** Sends a last error frame and gives the error to fail with. */
  method RefuseRequest(env: Env, send: SendStream<Result>, text: string, e: IoError) returns (done: Option<Ending>)
    modifies send
    ensures done == Some(if old(send.room) > 0 then Failed(e) else SendFailure(env))
    ensures old(send.room) > 0 ==> send.sent == old(send.sent) + [Err(text)] && send.room == old(send.room) - 1
    ensures old(send.room) == 0 ==> send.sent == old(send.sent) && send.room == 0
  {
    var ok := send.Send(Err(text));
    done := Some(if ok then Failed(e) else SendFailure(env));
  }

  /** The arms of `handle_authorized`.  `done` is how the loop ends, if
      it ends here. */
  method AuthorizedArms(table: Table, h: Handler, env: Env, peer: PeerContext, send: SendStream<Result>,
                        code: U32, body: Bytes, t: seq<Event<PeerContext>>)
    returns (done: Option<Ending>, t': seq<Event<PeerContext>>)
    modifies send
    ensures forall unread ::
              var w := World(unread, old(send.sent), old(send.room), t);
              var s := DispatchAuthorized(table, h, env, peer, w, code, body);
              && s.world == World(unread, send.sent, send.room, t')
              && done == (if s.Stop? then Some(s.ending) else None)
  {
    done, t' := None, t;
    var arm := table.arm(table.decode(code));
    match arm
    case Rejected =>
      done := RefuseRequest(env, send, "unknown request code", IoError(InvalidData, Some(NotSupported)));
    case HandBack =>
      return Some(Returned(code, body)), t + [HandedBack(code, body)];
    case Calls(operation, parsing, named) =>
      var args: Option<Bytes> := None;
      if parsing.Args? {
        args := env.parse(parsing.of, body);
        if args.None? {
          return Some(Failed(IoError(InvalidData, parsing.classify))), t;
        }
      }
      t' := t + [Called(operation, args, if named then Some(peer.name) else None)];
      var ok := send.Send(h(Anonymous(t')));
      if !ok { done := Some(SendFailure(env)); }
  }

  method HandleAuthorized(h: Handler, env: Env, auth: Authorizer, peer: PeerContext,
                          send: SendStream<Result>, recv: RecvStream, t: seq<Event<PeerContext>>)
    returns (ending: Ending, t': seq<Event<PeerContext>>)
    requires recv.end == env.link.end
    modifies send, recv
    ensures Outcome(WorldOf(send, recv, t'), ending)
         == RunAuthorized(LegacyTable(), h, env, auth, peer, old(WorldOf(send, recv, t)))
  {
    t' := t;
    var table := LegacyTable();
    while true
      invariant RunAuthorized(LegacyTable(), h, env, auth, peer, WorldOf(send, recv, t'))
             == RunAuthorized(LegacyTable(), h, env, auth, peer, old(WorldOf(send, recv, t)))
      decreases |recv.unread|
    {
      var r := RecvRequest(env.link, recv);
      match r
      case NoRequest(kind, _) =>
        return (if kind.UnexpectedEof? then EndOfStream else Failed(IoError(kind, None))), t';
      case Request(code, body, _) =>
        var service := table.service(table.decode(code));
        var done: Option<Ending> := None;
        if service.Some? {
          var decision := auth(t', peer, service.value);
          t' := t' + [Asked(peer, service.value, decision)];
          if decision.Denied? {
            done := RefuseRequest(env, send, "authorization denied", IoError(PermissionDenied, Some(Forbidden)));
          }
        }
        if done.None? {
          done, t' := AuthorizedArms(table, h, env, peer, send, code, body, t');
        }
        if done.Some? {
          return done.value, t';
        }
    }
  }

  /** The arms of `handle_authorized_with_context`.  `done` is how the loop ends, if
      it ends here. */
  method ContextArms(table: Table, h: Handler, env: Env, ctx: AuthorizationContext, send: SendStream<Result>,
                     code: U32, body: Bytes, t: seq<Event<AuthorizationContext>>)
    returns (done: Option<Ending>, t': seq<Event<AuthorizationContext>>)
    modifies send
    ensures forall unread ::
              var w := World(unread, old(send.sent), old(send.room), t);
              var s := DispatchWithContext(table, h, env, ctx, w, code, body);
              && s.world == World(unread, send.sent, send.room, t')
              && done == (if s.Stop? then Some(s.ending) else None)
  {
    done, t' := None, t;
    var arm := table.arm(table.decode(code));
    match arm
    case Rejected =>
      done := RefuseRequest(env, send, "unknown request code", IoError(InvalidData, Some(NotSupported)));
    case HandBack =>
      return Some(Returned(code, body)), t + [HandedBack(code, body)];
    case Calls(operation, parsing, named) =>
      var args: Option<Bytes> := None;
      if parsing.Args? {
        args := env.parse(parsing.of, body);
        if args.None? {
          return Some(Failed(IoError(InvalidData, parsing.classify))), t;
        }
      }
      t' := t + [Called(operation, args, if named then Some(ctx.peerIdentity.name) else None)];
      var ok := send.Send(h(Anonymous(t')));
      if !ok { done := Some(SendFailure(env)); }
  }

  method HandleAuthorizedWithContext(h: Handler, env: Env, auth: AuthorizerV2,
                                     ctx: AuthorizationContext, send: SendStream<Result>, recv: RecvStream,
                                     t: seq<Event<AuthorizationContext>>)
    returns (ending: Ending, t': seq<Event<AuthorizationContext>>)
    requires recv.end == env.link.end
    modifies send, recv
    ensures Outcome(WorldOf(send, recv, t'), ending)
         == RunWithContext(ContextTable(), h, env, auth, ctx, old(WorldOf(send, recv, t)))
  {
    t' := t;
    var table := ContextTable();
    while true
      invariant RunWithContext(ContextTable(), h, env, auth, ctx, WorldOf(send, recv, t'))
             == RunWithContext(ContextTable(), h, env, auth, ctx, old(WorldOf(send, recv, t)))
      decreases |recv.unread|
    {
      var r := RecvRequest(env.link, recv);
      match r
      case NoRequest(kind, _) =>
        return (if kind.UnexpectedEof? then EndOfStream else Failed(IoError(kind, None))), t';
      case Request(code, body, _) =>
        var service := table.service(table.decode(code));
        var done: Option<Ending> := None;
        if service.Some? {
          var decision := auth(t', ctx, service.value);
          t' := t' + [Asked(ctx, service.value, decision)];
          if decision.Denied? {
            done := RefuseRequest(env, send, "authorization denied", IoError(PermissionDenied, Some(Forbidden)));
          }
        }
        if done.None? {
          done, t' := ContextArms(table, h, env, ctx, send, code, body, t');
        }
        if done.Some? {
          return done.value, t';
        }
    }
  }
}
