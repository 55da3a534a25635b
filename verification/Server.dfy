/** The server's request loop and its authorization gate: what
    `handle_authorized` and `handle_authorized_with_context` do with a stream
    of framed requests. */
module Server {
  import opened Wire
  import opened Errors
  import opened Authorization
  import opened ServerTables

  // ---- events ----

  /** What happens on a connection, in order.  `who` is the identity put to
      the authorizer: a peer in one loop, a context in the other. */
  datatype Event<+I> =
    | Asked(who: I, service: ServiceId, decision: Decision)
    | Called(operation: RequestCode, args: Option<Bytes>, peerName: Option<string>)
    | HandedBack(code: U32, body: Bytes)

  datatype Result = Ok(value: Bytes) | Err(message: string)

  /** A handler's answers depend on what it has been called with, which the
      anonymous trace includes. */
  type Handler = seq<Event<()>> -> Result

  /** Authorizers decide from everything that happened and the question. */
  type Authorizer = (seq<Event<PeerContext>>, PeerContext, ServiceId) -> Decision
  type AuthorizerV2 = (seq<Event<AuthorizationContext>>, AuthorizationContext, ServiceId) -> Decision

  function RelabelEvent<I, J>(f: I -> J, e: Event<I>): Event<J> {
    match e
    case Asked(who, service, decision) => Asked(f(who), service, decision)
    case Called(operation, args, peerName) => Called(operation, args, peerName)
    case HandedBack(code, body) => HandedBack(code, body)
  }

  function Relabel<I, J>(f: I -> J, t: seq<Event<I>>): (r: seq<Event<J>>)
    ensures |r| == |t|
    ensures forall i :: 0 <= i < |t| ==> r[i] == RelabelEvent(f, t[i])
  {
    seq(|t|, i requires 0 <= i < |t| => RelabelEvent(f, t[i]))
  }

  function Anonymous<I>(t: seq<Event<I>>): seq<Event<()>> {
    Relabel((who: I) => (), t)
  }

  /** `AuthorizerV2Adapter`: asks the legacy authorizer about the context's
      peer. */
  function Adapter(inner: Authorizer): AuthorizerV2 {
    (t: seq<Event<AuthorizationContext>>, ctx: AuthorizationContext, s: ServiceId) =>
      inner(Relabel(PeerOf, t), PeerOf(ctx), s)
  }

  /** `NoopAuthorizer`. */
  function Permissive(): Authorizer {
    (t: seq<Event<PeerContext>>, peer: PeerContext, s: ServiceId) => Allowed
  }

  // ---- serving ----

  datatype Env = Env(link: Link, parse: (ArgType, Bytes) -> Option<Bytes>)

  datatype World<+I> = World(unread: Bytes, sent: seq<Result>, room: nat, trace: seq<Event<I>>)

  /** How the loop ends: `Ok(None)`, `Ok(Some(code, body))` or `Err`. */
  datatype Ending = EndOfStream | Returned(code: U32, body: Bytes) | Failed(error: IoError)

  datatype Step<+I> = Continue(world: World<I>) | Stop(world: World<I>, ending: Ending)

  function SendFailure(env: Env): Ending {
    Failed(IoError(env.link.sendKind, None))
  }

  function Respond<I>(env: Env, w: World<I>, f: Result): Step<I> {
    if w.room == 0 then Stop(w, SendFailure(env))
    else Continue(w.(sent := w.sent + [f], room := w.room - 1))
  }

  function Note<I>(w: World<I>, e: Event<I>): World<I> {
    w.(trace := w.trace + [e])
  }

  /** Sends a last frame, then fails with `e`; a failing send comes first. */
  function Refuse<I>(env: Env, w: World<I>, text: string, e: IoError): Step<I> {
    var s := Respond(env, w, Err(text));
    if s.Stop? then s else Stop(s.world, Failed(e))
  }

  /** Calls the handler and answers with its result. */
  function Invoke<I>(h: Handler, env: Env, w: World<I>, call: Event<I>): Step<I> {
    var w1 := Note(w, call);
    Respond(env, w1, h(Anonymous(w1.trace)))
  }

  datatype Outcome<+I> = Outcome(world: World<I>, ending: Ending)

  function AtEnd<I>(w: World<I>, kind: IoKind): Outcome<I> {
    Outcome(w, if kind.UnexpectedEof? then EndOfStream else Failed(IoError(kind, None)))
  }

  // ---- `handle_authorized_with_context` ----

  /** The match of `handle_authorized_with_context`, after its gate. */
  function DispatchWithContext(table: Table, h: Handler, env: Env, ctx: AuthorizationContext,
                               w: World<AuthorizationContext>, code: U32, body: Bytes): Step<AuthorizationContext> {
    match table.arm(table.decode(code))
    case Calls(operation, NoParse, named) =>
      Invoke(h, env, w, Called(operation, None, if named then Some(ctx.peerIdentity.name) else None))
    case Calls(operation, Args(of, classify), named) =>
      (match env.parse(of, body)
       case None => Stop(w, Failed(IoError(InvalidData, classify)))
       case Some(args) =>
         Invoke(h, env, w, Called(operation, Some(args), if named then Some(ctx.peerIdentity.name) else None)))
    case Rejected => Refuse(env, w, "unknown request code", IoError(InvalidData, Some(NotSupported)))
    case HandBack => Stop(Note(w, HandedBack(code, body)), Returned(code, body))
  }

  function ServeWithContext(table: Table, h: Handler, env: Env, auth: AuthorizerV2, ctx: AuthorizationContext,
                            w: World<AuthorizationContext>, code: U32, body: Bytes): Step<AuthorizationContext> {
    match table.service(table.decode(code))
    case None => DispatchWithContext(table, h, env, ctx, w, code, body)
    case Some(service) =>
      var decision := auth(w.trace, ctx, service);
      var w1 := Note(w, Asked(ctx, service, decision));
      if decision.Denied? then
        Refuse(env, w1, "authorization denied", IoError(PermissionDenied, Some(Forbidden)))
      else DispatchWithContext(table, h, env, ctx, w1, code, body)
  }

  lemma WithContextKeepsStream(table: Table, h: Handler, env: Env, auth: AuthorizerV2, ctx: AuthorizationContext,
                               w: World<AuthorizationContext>, code: U32, body: Bytes)
    ensures ServeWithContext(table, h, env, auth, ctx, w, code, body).world.unread == w.unread
  {
  }

  function RunWithContext(table: Table, h: Handler, env: Env, auth: AuthorizerV2, ctx: AuthorizationContext,
                          w: World<AuthorizationContext>): Outcome<AuthorizationContext>
    decreases |w.unread|
  {
    match ReadRequest(env.link, w.unread)
    case NoRequest(kind, rest) => AtEnd(w.(unread := rest), kind)
    case Request(code, body, rest) =>
      WithContextKeepsStream(table, h, env, auth, ctx, w.(unread := rest), code, body);
      match ServeWithContext(table, h, env, auth, ctx, w.(unread := rest), code, body)
      case Stop(w1, ending) => Outcome(w1, ending)
      case Continue(w1) => RunWithContext(table, h, env, auth, ctx, w1)
  }

  // ---- `handle_authorized` ----

  /** The match of `handle_authorized`, after its gate. */
  function DispatchAuthorized(table: Table, h: Handler, env: Env, peer: PeerContext,
                              w: World<PeerContext>, code: U32, body: Bytes): Step<PeerContext> {
    match table.arm(table.decode(code))
    case Calls(operation, NoParse, named) =>
      Invoke(h, env, w, Called(operation, None, if named then Some(peer.name) else None))
    case Calls(operation, Args(of, classify), named) =>
      (match env.parse(of, body)
       case None => Stop(w, Failed(IoError(InvalidData, classify)))
       case Some(args) =>
         Invoke(h, env, w, Called(operation, Some(args), if named then Some(peer.name) else None)))
    case Rejected => Refuse(env, w, "unknown request code", IoError(InvalidData, Some(NotSupported)))
    case HandBack => Stop(Note(w, HandedBack(code, body)), Returned(code, body))
  }

  function ServeAuthorized(table: Table, h: Handler, env: Env, auth: Authorizer, peer: PeerContext,
                           w: World<PeerContext>, code: U32, body: Bytes): Step<PeerContext> {
    match table.service(table.decode(code))
    case None => DispatchAuthorized(table, h, env, peer, w, code, body)
    case Some(service) =>
      var decision := auth(w.trace, peer, service);
      var w1 := Note(w, Asked(peer, service, decision));
      if decision.Denied? then
        Refuse(env, w1, "authorization denied", IoError(PermissionDenied, Some(Forbidden)))
      else DispatchAuthorized(table, h, env, peer, w1, code, body)
  }

  lemma AuthorizedKeepsStream(table: Table, h: Handler, env: Env, auth: Authorizer, peer: PeerContext,
                              w: World<PeerContext>, code: U32, body: Bytes)
    ensures ServeAuthorized(table, h, env, auth, peer, w, code, body).world.unread == w.unread
  {
  }

  function RunAuthorized(table: Table, h: Handler, env: Env, auth: Authorizer, peer: PeerContext,
                         w: World<PeerContext>): Outcome<PeerContext>
    decreases |w.unread|
  {
    match ReadRequest(env.link, w.unread)
    case NoRequest(kind, rest) => AtEnd(w.(unread := rest), kind)
    case Request(code, body, rest) =>
      AuthorizedKeepsStream(table, h, env, auth, peer, w.(unread := rest), code, body);
      match ServeAuthorized(table, h, env, auth, peer, w.(unread := rest), code, body)
      case Stop(w1, ending) => Outcome(w1, ending)
      case Continue(w1) => RunAuthorized(table, h, env, auth, peer, w1)
  }

  // ---- the two loops are bisimilar ----

  function RelabelWorld<I, J>(f: I -> J, w: World<I>): World<J> {
    World(w.unread, w.sent, w.room, Relabel(f, w.trace))
  }

  function RelabelStep<I, J>(f: I -> J, s: Step<I>): Step<J> {
    match s
    case Continue(w) => Continue(RelabelWorld(f, w))
    case Stop(w, e) => Stop(RelabelWorld(f, w), e)
  }

  lemma RelabelSnoc<I, J>(f: I -> J, t: seq<Event<I>>, e: Event<I>)
    ensures Relabel(f, t + [e]) == Relabel(f, t) + [RelabelEvent(f, e)]
  {
  }

  lemma RelabelAnonymous<I, J>(f: I -> J, t: seq<Event<I>>)
    ensures Anonymous(Relabel(f, t)) == Anonymous(t)
  {
  }

  lemma InvokeRelabels<I, J>(f: I -> J, h: Handler, env: Env, w: World<I>, call: Event<I>)
    ensures Invoke(h, env, RelabelWorld(f, w), RelabelEvent(f, call)) == RelabelStep(f, Invoke(h, env, w, call))
  {
    RelabelSnoc(f, w.trace, call);
    RelabelAnonymous(f, w.trace + [call]);
  }

  lemma RefuseRelabels<I, J>(f: I -> J, env: Env, w: World<I>, text: string, e: IoError)
    ensures Refuse(env, RelabelWorld(f, w), text, e) == RelabelStep(f, Refuse(env, w, text, e))
  {
  }

  /** Where the two tables have the same arm, the two matches do the same. */
  lemma DispatchBisimilar(legacy: Table, table: Table, h: Handler, env: Env, ctx: AuthorizationContext,
                          w: World<AuthorizationContext>, code: U32, body: Bytes)
    requires AgreeAt(legacy, table, code)
    ensures DispatchAuthorized(legacy, h, env, PeerOf(ctx), RelabelWorld(PeerOf, w), code, body)
         == RelabelStep(PeerOf, DispatchWithContext(table, h, env, ctx, w, code, body))
  {
    match table.arm(table.decode(code))
    case Rejected => RefuseRelabels(PeerOf, env, w, "unknown request code", IoError(InvalidData, Some(NotSupported)));
    case HandBack => RelabelSnoc(PeerOf, w.trace, HandedBack(code, body));
    case Calls(operation, parsing, named) =>
      var peerName := if named then Some(ctx.peerIdentity.name) else None;
      var args := if parsing.Args? then env.parse(parsing.of, body) else None;
      InvokeRelabels(PeerOf, h, env, w, Called(operation, args, peerName));
  }

  lemma ServeBisimilar(legacy: Table, table: Table, h: Handler, env: Env, inner: Authorizer,
                       ctx: AuthorizationContext, w: World<AuthorizationContext>, code: U32, body: Bytes)
    requires AgreeAt(legacy, table, code)
    ensures ServeAuthorized(legacy, h, env, inner, PeerOf(ctx), RelabelWorld(PeerOf, w), code, body)
         == RelabelStep(PeerOf, ServeWithContext(table, h, env, Adapter(inner), ctx, w, code, body))
  {
    match table.service(table.decode(code))
    case None => DispatchBisimilar(legacy, table, h, env, ctx, w, code, body);
    case Some(service) =>
      var asked := Asked(ctx, service, Adapter(inner)(w.trace, ctx, service));
      RelabelSnoc(PeerOf, w.trace, asked);
      DispatchBisimilar(legacy, table, h, env, ctx, Note(w, asked), code, body);
      RefuseRelabels(PeerOf, env, Note(w, asked), "authorization denied",
                     IoError(PermissionDenied, Some(Forbidden)));
  }

  /** Loops over agreeing tables are bisimilar. */
  lemma {:induction false} LoopsBisimilar(legacy: Table, table: Table, h: Handler, env: Env, inner: Authorizer,
                                          ctx: AuthorizationContext, w: World<AuthorizationContext>)
    requires Agree(legacy, table)
    ensures var o := RunWithContext(table, h, env, Adapter(inner), ctx, w);
            RunAuthorized(legacy, h, env, inner, PeerOf(ctx), RelabelWorld(PeerOf, w))
            == Outcome(RelabelWorld(PeerOf, o.world), o.ending)
    decreases |w.unread|
  {
    match ReadRequest(env.link, w.unread)
    case NoRequest(_, _) =>
    case Request(code, body, rest) =>
      var w0 := w.(unread := rest);
      assert AgreeAt(legacy, table, code);
      ServeBisimilar(legacy, table, h, env, inner, ctx, w0, code, body);
      WithContextKeepsStream(table, h, env, Adapter(inner), ctx, w0, code, body);
      var s := ServeWithContext(table, h, env, Adapter(inner), ctx, w0, code, body);
      if s.Continue? {
        LoopsBisimilar(legacy, table, h, env, inner, ctx, s.world);
      }
  }

  /** For every stream, handler, legacy authorizer and context,
      `handle_authorized_with_context` with the adapter asks the same
      questions, makes the same calls, writes the same frames and ends the
      same way as `handle_authorized` on the context's peer. */
  lemma Bisimilar(h: Handler, env: Env, inner: Authorizer, ctx: AuthorizationContext,
                  w: World<AuthorizationContext>)
    ensures var o := RunWithContext(ContextTable(), h, env, Adapter(inner), ctx, w);
            RunAuthorized(LegacyTable(), h, env, inner, PeerOf(ctx), RelabelWorld(PeerOf, w))
            == Outcome(RelabelWorld(PeerOf, o.world), o.ending)
  {
    TablesAgree();
    LoopsBisimilar(LegacyTable(), ContextTable(), h, env, inner, ctx, w);
  }

  /** In particular for a context built from a peer with any metadata. */
  lemma MetadataIsInvisible(h: Handler, env: Env, inner: Authorizer, peer: PeerContext,
                            agentKind: Option<AgentKind>, roles: Option<seq<string>>,
                            metadata: Option<ProtocolMetadata>, attributes: Option<map<string, string>>,
                            unread: Bytes, room: nat)
    ensures var ctx := FromAuthenticatedInputs(peer, agentKind, roles, metadata, attributes);
            var o := RunWithContext(ContextTable(), h, env, Adapter(inner), ctx, World(unread, [], room, []));
            RunAuthorized(LegacyTable(), h, env, inner, peer, World(unread, [], room, []))
            == Outcome(RelabelWorld(PeerOf, o.world), o.ending)
  {
    var ctx := FromAuthenticatedInputs(peer, agentKind, roles, metadata, attributes);
    assert PeerOf(ctx) == peer;
    var start: World<AuthorizationContext> := World(unread, [], room, []);
    assert RelabelWorld(PeerOf, start) == World(unread, [], room, []);
    Bisimilar(h, env, inner, ctx, start);
  }
}
