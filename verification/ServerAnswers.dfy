/** What the server's two loops answer each request with, written out arm by
    arm, and what that comes to over whole runs. */
module ServerAnswers {
  import opened Wire
  import opened Errors
  import opened Authorization
  import opened ServerTables
  import opened Server
  import opened Mediation

  // ---- one request ----

  /** What the handler sees of a trace: everything but who was asked about. */
  function Seen<I>(t: seq<Event<I>>): (r: seq<Event<()>>)
    ensures |r| == |t|
  {
    if t == [] then []
    else
      var last := match t[|t| - 1]
        case Asked(_, service, decision) => Asked((), service, decision)
        case Called(operation, args, peerName) => Called(operation, args, peerName)
        case HandedBack(code, body) => HandedBack(code, body);
      Seen(t[..|t| - 1]) + [last]
  }

  lemma {:induction false} SeenIsAnonymous<I>(t: seq<Event<I>>)
    ensures Anonymous(t) == Seen(t)
  {
    if t == [] {
    } else {
      SeenIsAnonymous(t[..|t| - 1]);
      RelabelSnoc((who: I) => (), t[..|t| - 1], t[|t| - 1]);
      assert t == t[..|t| - 1] + [t[|t| - 1]];
    }
  }

  /** What a request is due: the events it adds, a frame, and the end of the
      loop if it ends it. */
  datatype Due<+I> = Due(events: seq<Event<I>>, frame: Option<Result>, ending: Option<Ending>)

  /** The arm of a request, once the question in `asked` has been put. */
  function ArmDue<I>(table: Table, h: Handler, env: Env, name: string, t: seq<Event<I>>, asked: seq<Event<I>>,
                     code: U32, body: Bytes): Due<I> {
    match table.arm(table.decode(code))
    case Rejected =>
      Due(asked, Some(Err("unknown request code")), Some(Failed(IoError(InvalidData, Some(NotSupported)))))
    case HandBack => Due(asked + [HandedBack(code, body)], None, Some(Returned(code, body)))
    case Calls(operation, NoParse, named) => CallDue(h, name, t, asked, operation, None, named)
    case Calls(operation, Args(of, classify), named) =>
      match env.parse(of, body)
      case None => Due(asked, None, Some(Failed(IoError(InvalidData, classify))))
      case Some(args) => CallDue(h, name, t, asked, operation, Some(args), named)
  }

  /** The handler's own result answers the call. */
  function CallDue<I>(h: Handler, name: string, t: seq<Event<I>>, asked: seq<Event<I>>, operation: RequestCode,
                      args: Option<Bytes>, named: bool): Due<I> {
    var events := asked + [Called(operation, args, if named then Some(name) else None)];
    Due(events, Some(h(Seen(t + events))), None)
  }

  /** The gate before the arm: one question for a known code, and a refusal in
      place of the arm if it is denied. */
  function RequestDue<I>(table: Table, h: Handler, env: Env, ask: (seq<Event<I>>, I, ServiceId) -> Decision, who: I,
                         name: string, t: seq<Event<I>>, code: U32, body: Bytes): Due<I> {
    match table.service(table.decode(code))
    case None => ArmDue(table, h, env, name, t, [], code, body)
    case Some(service) =>
      var decision := ask(t, who, service);
      var asked := [Asked(who, service, decision)];
      if decision.Denied? then
        Due(asked, Some(Err("authorization denied")), Some(Failed(IoError(PermissionDenied, Some(Forbidden)))))
      else ArmDue(table, h, env, name, t, asked, code, body)
  }

  /** A step does what is due, as far as the send stream takes it. */
  ghost predicate Does<I>(env: Env, w: World<I>, due: Due<I>, s: Step<I>) {
    && s.world.trace == w.trace + due.events && s.world.unread == w.unread
    && match due.frame
       case None =>
         && s.world.sent == w.sent && s.world.room == w.room
         && due.ending.Some? && s == Stop(s.world, due.ending.value)
       case Some(frame) =>
         if w.room == 0 then
           && s.world.sent == w.sent && s.world.room == 0
           && s == Stop(s.world, Failed(IoError(env.link.sendKind, None)))
         else
           && s.world.sent == w.sent + [frame] && s.world.room == w.room - 1
           && s == if due.ending.Some? then Stop(s.world, due.ending.value) else Continue(s.world)
  }

  lemma TraceRegroups<I>(t: seq<Event<I>>, asked: seq<Event<I>>, e: Event<I>)
    ensures t + asked + [e] == t + (asked + [e])
  {
  }

  lemma InvokeDoes<I>(h: Handler, env: Env, name: string, t: seq<Event<I>>, asked: seq<Event<I>>, w: World<I>,
                      operation: RequestCode, args: Option<Bytes>, named: bool)
    requires w.trace == t + asked
    ensures Does(env, w.(trace := t), CallDue(h, name, t, asked, operation, args, named),
                 Invoke(h, env, w, Called(operation, args, if named then Some(name) else None)))
  {
    var call: Event<I> := Called(operation, args, if named then Some(name) else None);
    TraceRegroups(t, asked, call);
    SeenIsAnonymous(t + asked + [call]);
  }

  lemma RefuseDoes<I>(env: Env, t: seq<Event<I>>, asked: seq<Event<I>>, w: World<I>, text: string, e: IoError)
    requires w.trace == t + asked
    ensures Does(env, w.(trace := t), Due(asked, Some(Err(text)), Some(Failed(e))), Refuse(env, w, text, e))
  {
  }

  lemma ContextArmDoes(table: Table, h: Handler, env: Env, ctx: AuthorizationContext,
                       t: seq<Event<AuthorizationContext>>, asked: seq<Event<AuthorizationContext>>,
                       w: World<AuthorizationContext>, code: U32, body: Bytes)
    requires w.trace == t + asked
    ensures Does(env, w.(trace := t), ArmDue(table, h, env, ctx.peerIdentity.name, t, asked, code, body),
                 DispatchWithContext(table, h, env, ctx, w, code, body))
  {
    match table.arm(table.decode(code))
    case Rejected =>
      RefuseDoes(env, t, asked, w, "unknown request code", IoError(InvalidData, Some(NotSupported)));
    case HandBack => TraceRegroups(t, asked, HandedBack(code, body));
    case Calls(operation, NoParse, named) =>
      InvokeDoes(h, env, ctx.peerIdentity.name, t, asked, w, operation, None, named);
    case Calls(operation, Args(of, _), named) =>
      match env.parse(of, body) {
        case None =>
        case Some(args) => InvokeDoes(h, env, ctx.peerIdentity.name, t, asked, w, operation, Some(args), named);
      }
  }

  /** `handle_authorized_with_context` does what is due, for every table. */
  lemma ContextDoes(table: Table, h: Handler, env: Env, auth: AuthorizerV2, ctx: AuthorizationContext,
                    w: World<AuthorizationContext>, code: U32, body: Bytes)
    ensures Does(env, w, RequestDue(table, h, env, auth, ctx, ctx.peerIdentity.name, w.trace, code, body),
                 ServeWithContext(table, h, env, auth, ctx, w, code, body))
  {
    match table.service(table.decode(code))
    case None =>
      assert w.trace + [] == w.trace;
      ContextArmDoes(table, h, env, ctx, w.trace, [], w, code, body);
    case Some(service) =>
      var asked := [Asked(ctx, service, auth(w.trace, ctx, service))];
      ContextArmDoes(table, h, env, ctx, w.trace, asked, w.(trace := w.trace + asked), code, body);
  }

  lemma AuthorizedArmDoes(table: Table, h: Handler, env: Env, peer: PeerContext, t: seq<Event<PeerContext>>,
                          asked: seq<Event<PeerContext>>, w: World<PeerContext>, code: U32, body: Bytes)
    requires w.trace == t + asked
    ensures Does(env, w.(trace := t), ArmDue(table, h, env, peer.name, t, asked, code, body),
                 DispatchAuthorized(table, h, env, peer, w, code, body))
  {
    match table.arm(table.decode(code))
    case Rejected =>
      RefuseDoes(env, t, asked, w, "unknown request code", IoError(InvalidData, Some(NotSupported)));
    case HandBack => TraceRegroups(t, asked, HandedBack(code, body));
    case Calls(operation, NoParse, named) => InvokeDoes(h, env, peer.name, t, asked, w, operation, None, named);
    case Calls(operation, Args(of, _), named) =>
      match env.parse(of, body) {
        case None =>
        case Some(args) => InvokeDoes(h, env, peer.name, t, asked, w, operation, Some(args), named);
      }
  }

  /** `handle_authorized` does what is due, for every table. */
  lemma AuthorizedDoes(table: Table, h: Handler, env: Env, auth: Authorizer, peer: PeerContext,
                       w: World<PeerContext>, code: U32, body: Bytes)
    ensures Does(env, w, RequestDue(table, h, env, auth, peer, peer.name, w.trace, code, body),
                 ServeAuthorized(table, h, env, auth, peer, w, code, body))
  {
    match table.service(table.decode(code))
    case None =>
      assert w.trace + [] == w.trace;
      AuthorizedArmDoes(table, h, env, peer, w.trace, [], w, code, body);
    case Some(service) =>
      var asked := [Asked(peer, service, auth(w.trace, peer, service))];
      AuthorizedArmDoes(table, h, env, peer, w.trace, asked, w.(trace := w.trace + asked), code, body);
  }

  // ---- whole runs ----

  /** The handler's answers to the calls of a trace from `start` on. */
  function Replies<I>(h: Handler, t: seq<Event<I>>, start: nat): seq<Result>
    requires start <= |t|
    decreases |t|
  {
    if |t| == start then []
    else Replies(h, t[..|t| - 1], start) + if t[|t| - 1].Called? then [h(Seen(t))] else []
  }

  lemma {:induction false} RepliesSplit<I>(h: Handler, t: seq<Event<I>>, start: nat, mid: nat)
    requires start <= mid <= |t|
    ensures Replies(h, t, start) == Replies(h, t[..mid], start) + Replies(h, t, mid)
    decreases |t|
  {
    if |t| == mid {
      assert t[..mid] == t;
    } else {
      RepliesSplit(h, t[..|t| - 1], start, mid);
      assert t[..|t| - 1][..mid] == t[..mid];
    }
  }

  /** The refusal a request ends with, if it does. */
  function Refusal<I>(due: Due<I>): seq<Result> {
    if due.frame.Some? && due.ending.Some? then [due.frame.value] else []
  }

  function DueFrames<I>(due: Due<I>): seq<Result> {
    if due.frame.Some? then [due.frame.value] else []
  }

  /** The frame of a request is the handler's answer to its call, or its
      refusal. */
  lemma DueReplies<I>(table: Table, h: Handler, env: Env, ask: (seq<Event<I>>, I, ServiceId) -> Decision, who: I,
                      name: string, t: seq<Event<I>>, code: U32, body: Bytes)
    ensures var due := RequestDue(table, h, env, ask, who, name, t, code, body);
            && Replies(h, t + due.events, |t|) + Refusal(due) == DueFrames(due)
            && |DueFrames(due)| <= 1
            && (due.ending == None || due.ending.value != EndOfStream)
  {
    match table.service(table.decode(code))
    case None =>
      assert t + [] == t;
      ArmReplies(table, h, env, name, t, [], code, body);
    case Some(service) =>
      var asked := [Asked(who, service, ask(t, who, service))];
      RepliesSnoc(h, t, asked[0], |t|);
      ArmReplies(table, h, env, name, t, asked, code, body);
  }

  lemma RepliesSnoc<I>(h: Handler, front: seq<Event<I>>, e: Event<I>, start: nat)
    requires start <= |front|
    ensures Replies(h, front + [e], start)
         == Replies(h, front, start) + if e.Called? then [h(Seen(front + [e]))] else []
  {
    assert (front + [e])[..|front|] == front;
  }

  lemma OneMoreEvent<I>(h: Handler, t: seq<Event<I>>, asked: seq<Event<I>>, e: Event<I>)
    requires Replies(h, t + asked, |t|) == []
    ensures Replies(h, t + (asked + [e]), |t|) == if e.Called? then [h(Seen(t + (asked + [e])))] else []
  {
    TraceRegroups(t, asked, e);
    RepliesSnoc(h, t + asked, e, |t|);
  }

  lemma ArmReplies<I>(table: Table, h: Handler, env: Env, name: string, t: seq<Event<I>>, asked: seq<Event<I>>,
                      code: U32, body: Bytes)
    requires Replies(h, t + asked, |t|) == []
    ensures var due := ArmDue(table, h, env, name, t, asked, code, body);
            && Replies(h, t + due.events, |t|) + Refusal(due) == DueFrames(due)
            && |DueFrames(due)| <= 1
            && (due.ending == None || due.ending.value != EndOfStream)
  {
    match table.arm(table.decode(code))
    case Rejected =>
    case HandBack => OneMoreEvent(h, t, asked, HandedBack(code, body));
    case Calls(operation, NoParse, named) => CallReplies(h, name, t, asked, operation, None, named);
    case Calls(operation, Args(of, _), named) =>
      match env.parse(of, body) {
        case None =>
        case Some(args) => CallReplies(h, name, t, asked, operation, Some(args), named);
      }
  }

  lemma CallReplies<I>(h: Handler, name: string, t: seq<Event<I>>, asked: seq<Event<I>>, operation: RequestCode,
                       args: Option<Bytes>, named: bool)
    requires Replies(h, t + asked, |t|) == []
    ensures var due := CallDue(h, name, t, asked, operation, args, named);
            Replies(h, t + due.events, |t|) == DueFrames(due)
  {
    OneMoreEvent(h, t, asked, Called(operation, args, if named then Some(name) else None));
  }

  function Upto(frames: seq<Result>, room: nat): seq<Result> {
    if |frames| <= room then frames else frames[..room]
  }

  /** A run sent the given frames, as far as the send stream took them. */
  predicate Sends<I>(w: World<I>, v: World<I>, frames: seq<Result>) {
    v.sent == w.sent + Upto(frames, w.room) && v.room == w.room - |Upto(frames, w.room)|
  }

  lemma SendsAfter<I>(w: World<I>, mid: World<I>, v: World<I>, first: Result, frames: seq<Result>)
    requires mid.sent == w.sent + [first] && w.room > 0 && mid.room == w.room - 1
    requires Sends(mid, v, frames)
    ensures Sends(w, v, [first] + frames)
  {
    assert Upto([first] + frames, w.room) == [first] + Upto(frames, mid.room);
  }

  /** The refusal of a run, if there is one: of a denied request exactly if the
      run ends on a denial, or of an unknown code. */
  predicate Refuses<I>(t: seq<Event<I>>, start: nat, ending: Ending, refusal: seq<Result>) {
    && (refusal == [] || (ending.Failed? && (refusal == [Err("authorization denied")]
                                             || refusal == [Err("unknown request code")])))
    && (refusal == [Err("authorization denied")] <==> |t| > start && EndsDenied(t))
  }

  lemma RefusalsDiffer()
    ensures Err("authorization denied") != Err("unknown request code")
  {
    assert "authorization denied"[0] != "unknown request code"[0];
  }

  lemma EndOf<I>(t: seq<Event<I>>, events: seq<Event<I>>)
    ensures |t + events| > |t| && EndsDenied(t + events) <==> events != [] && EndsDenied(events)
  {
    if events != [] {
      assert (t + events)[|t + events| - 1] == events[|events| - 1];
    }
  }

  lemma DueRefuses<I>(table: Table, h: Handler, env: Env, ask: (seq<Event<I>>, I, ServiceId) -> Decision, who: I,
                      name: string, t: seq<Event<I>>, code: U32, body: Bytes, ending: Ending)
    requires var due := RequestDue(table, h, env, ask, who, name, t, code, body);
             Refusal(due) != [] ==> ending.Failed?
    ensures var due := RequestDue(table, h, env, ask, who, name, t, code, body);
            Refuses(t + due.events, |t|, ending, Refusal(due))
  {
    RefusalsDiffer();
    EndOf(t, RequestDue(table, h, env, ask, who, name, t, code, body).events);
    match table.service(table.decode(code))
    case None => ArmIsNoDenial(table, h, env, name, t, [], code, body);
    case Some(service) =>
      var asked := [Asked(who, service, ask(t, who, service))];
      if !asked[0].decision.Denied? {
        ArmIsNoDenial(table, h, env, name, t, asked, code, body);
      }
  }

  /** An arm ends on no denial, and refuses nothing but an unknown code. */
  lemma ArmIsNoDenial<I>(table: Table, h: Handler, env: Env, name: string, t: seq<Event<I>>, asked: seq<Event<I>>,
                         code: U32, body: Bytes)
    requires asked == [] || !EndsDenied(asked)
    ensures var due := ArmDue(table, h, env, name, t, asked, code, body);
            && (due.events == [] || !EndsDenied(due.events))
            && (Refusal(due) == [] || Refusal(due) == [Err("unknown request code")])
  {
  }

  /** What the frames of a run are: the handler's answers to its calls, in
      order, and at the end at most one refusal. */
  ghost predicate RunReplies<I>(h: Handler, w: World<I>, o: Outcome<I>, refusal: seq<Result>) {
    && w.trace <= o.world.trace
    && Sends(w, o.world, Replies(h, o.world.trace, |w.trace|) + refusal)
    && Refuses(o.world.trace, |w.trace|, o.ending, refusal)
  }

  lemma StoppedReplies<I>(h: Handler, env: Env, w: World<I>, due: Due<I>, s: Step<I>)
    requires Does(env, w, due, s) && s.Stop?
    requires Replies(h, w.trace + due.events, |w.trace|) + Refusal(due) == DueFrames(due) && |DueFrames(due)| <= 1
    requires Refuses(w.trace + due.events, |w.trace|, s.ending, Refusal(due))
    ensures RunReplies(h, w, Outcome(s.world, s.ending), Refusal(due))
  {
  }

  lemma ContinuedReplies<I>(h: Handler, env: Env, w: World<I>, due: Due<I>, s: Step<I>, o: Outcome<I>,
                            refusal: seq<Result>)
    requires Does(env, w, due, s) && s.Continue?
    requires Replies(h, w.trace + due.events, |w.trace|) + Refusal(due) == DueFrames(due)
    requires Refuses(w.trace + due.events, |w.trace|, o.ending, [])
    requires RunReplies(h, s.world, o, refusal)
    ensures RunReplies(h, w, o, refusal)
  {
    var t := o.world.trace;
    RepliesSplit(h, t, |w.trace|, |s.world.trace|);
    assert t[..|s.world.trace|] == s.world.trace;
    var first, later := due.frame.value, Replies(h, t, |s.world.trace|);
    assert Replies(h, t, |w.trace|) + refusal == [first] + (later + refusal);
    SendsAfter(w, s.world, o.world, first, later + refusal);
    if |t| == |s.world.trace| {
      assert t == s.world.trace;
    }
  }

  /** Over every run of `handle_authorized_with_context`: the frames sent are
      the handler's answers to the calls made, in order, then at most one
      refusal, as far as the send stream takes them. */
  lemma {:induction false} ContextReplies(table: Table, h: Handler, env: Env, auth: AuthorizerV2,
                                          ctx: AuthorizationContext, w: World<AuthorizationContext>)
    returns (refusal: seq<Result>)
    ensures RunReplies(h, w, RunWithContext(table, h, env, auth, ctx, w), refusal)
    decreases |w.unread|
  {
    refusal := [];
    match ReadRequest(env.link, w.unread)
    case NoRequest(_, _) =>
    case Request(code, body, rest) =>
      var w0 := w.(unread := rest);
      var s := ServeWithContext(table, h, env, auth, ctx, w0, code, body);
      var name := ctx.peerIdentity.name;
      var due := RequestDue(table, h, env, auth, ctx, name, w.trace, code, body);
      ContextDoes(table, h, env, auth, ctx, w0, code, body);
      DueReplies(table, h, env, auth, ctx, name, w.trace, code, body);
      if s.Continue? {
        refusal := ContextReplies(table, h, env, auth, ctx, s.world);
        var o := RunWithContext(table, h, env, auth, ctx, s.world);
        DueRefuses(table, h, env, auth, ctx, name, w.trace, code, body, o.ending);
        ContinuedReplies(h, env, w0, due, s, o, refusal);
      } else {
        refusal := Refusal(due);
        DueRefuses(table, h, env, auth, ctx, name, w.trace, code, body, s.ending);
        StoppedReplies(h, env, w0, due, s);
      }
  }

  /** The same of `handle_authorized`. */
  lemma {:induction false} AuthorizedReplies(table: Table, h: Handler, env: Env, auth: Authorizer, peer: PeerContext,
                                             w: World<PeerContext>)
    returns (refusal: seq<Result>)
    ensures RunReplies(h, w, RunAuthorized(table, h, env, auth, peer, w), refusal)
    decreases |w.unread|
  {
    refusal := [];
    match ReadRequest(env.link, w.unread)
    case NoRequest(_, _) =>
    case Request(code, body, rest) =>
      var w0 := w.(unread := rest);
      var s := ServeAuthorized(table, h, env, auth, peer, w0, code, body);
      var due := RequestDue(table, h, env, auth, peer, peer.name, w.trace, code, body);
      AuthorizedDoes(table, h, env, auth, peer, w0, code, body);
      DueReplies(table, h, env, auth, peer, peer.name, w.trace, code, body);
      if s.Continue? {
        refusal := AuthorizedReplies(table, h, env, auth, peer, s.world);
        var o := RunAuthorized(table, h, env, auth, peer, s.world);
        DueRefuses(table, h, env, auth, peer, peer.name, w.trace, code, body, o.ending);
        ContinuedReplies(h, env, w0, due, s, o, refusal);
      } else {
        refusal := Refusal(due);
        DueRefuses(table, h, env, auth, peer, peer.name, w.trace, code, body, s.ending);
        StoppedReplies(h, env, w0, due, s);
      }
  }

  // ---- how runs end ----

  predicate EndsBy(env: Env, last: Option<Bytes>, ending: Ending) {
    match last
    case None => ending != EndOfStream
    case Some(s) =>
      && FoundNoRequest(s)
      && ending == if FailureKind(env.link, s) == UnexpectedEof then EndOfStream
                   else Failed(IoError(FailureKind(env.link, s), None))
  }

  /** The bytes on the stream when `handle_authorized_with_context` last looks for a
      request, if it does not end inside one. */
  function ContextLast(table: Table, h: Handler, env: Env, auth: AuthorizerV2, ctx: AuthorizationContext,
                       w: World<AuthorizationContext>): Option<Bytes>
    decreases |w.unread|
  {
    match ReadRequest(env.link, w.unread)
    case NoRequest(_, _) => Some(w.unread)
    case Request(code, body, rest) =>
      WithContextKeepsStream(table, h, env, auth, ctx, w.(unread := rest), code, body);
      match ServeWithContext(table, h, env, auth, ctx, w.(unread := rest), code, body)
      case Stop(_, _) => None
      case Continue(w1) => ContextLast(table, h, env, auth, ctx, w1)
  }

  /** It ends with the stream if and only if that receive meets an end of file,
      and fails with any other error it meets. */
  lemma {:induction false} ContextEnds(table: Table, h: Handler, env: Env, auth: AuthorizerV2,
                                       ctx: AuthorizationContext, w: World<AuthorizationContext>)
    ensures EndsBy(env, ContextLast(table, h, env, auth, ctx, w), RunWithContext(table, h, env, auth, ctx, w).ending)
    decreases |w.unread|
  {
    match ReadRequest(env.link, w.unread)
    case NoRequest(_, _) =>
    case Request(code, body, rest) =>
      var w0 := w.(unread := rest);
      ContextDoes(table, h, env, auth, ctx, w0, code, body);
      DueReplies(table, h, env, auth, ctx, ctx.peerIdentity.name, w.trace, code, body);
      var s := ServeWithContext(table, h, env, auth, ctx, w0, code, body);
      if s.Continue? {
        ContextEnds(table, h, env, auth, ctx, s.world);
      }
  }

  /** The bytes on the stream when `handle_authorized` last looks for a
      request, if it does not end inside one. */
  function AuthorizedLast(table: Table, h: Handler, env: Env, auth: Authorizer, peer: PeerContext,
                          w: World<PeerContext>): Option<Bytes>
    decreases |w.unread|
  {
    match ReadRequest(env.link, w.unread)
    case NoRequest(_, _) => Some(w.unread)
    case Request(code, body, rest) =>
      AuthorizedKeepsStream(table, h, env, auth, peer, w.(unread := rest), code, body);
      match ServeAuthorized(table, h, env, auth, peer, w.(unread := rest), code, body)
      case Stop(_, _) => None
      case Continue(w1) => AuthorizedLast(table, h, env, auth, peer, w1)
  }

  /** It ends with the stream if and only if that receive meets an end of file,
      and fails with any other error it meets. */
  lemma {:induction false} AuthorizedEnds(table: Table, h: Handler, env: Env, auth: Authorizer, peer: PeerContext,
                                          w: World<PeerContext>)
    ensures EndsBy(env, AuthorizedLast(table, h, env, auth, peer, w),
                   RunAuthorized(table, h, env, auth, peer, w).ending)
    decreases |w.unread|
  {
    match ReadRequest(env.link, w.unread)
    case NoRequest(_, _) =>
    case Request(code, body, rest) =>
      var w0 := w.(unread := rest);
      AuthorizedDoes(table, h, env, auth, peer, w0, code, body);
      DueReplies(table, h, env, auth, peer, peer.name, w.trace, code, body);
      var s := ServeAuthorized(table, h, env, auth, peer, w0, code, body);
      if s.Continue? {
        AuthorizedEnds(table, h, env, auth, peer, s.world);
      }
  }
}
