/** Complete mediation: nothing reaches a handler or the caller without an
    `Ok` from the authorizer for that very request. */
module Mediation {
  import opened Wire
  import opened Errors
  import opened Authorization
  import opened ServerTables
  import opened Server

  /** What the gate promises about event `i` of a run that began at `start`:
      a call or a handed-back code comes right after permission for its own
      service, every question is about this connection, and nothing follows
      a denial or a hand-back. */
  predicate MediatedAt<I(==)>(table: Table, who: I, t: seq<Event<I>>, start: nat, i: nat)
    requires start <= i < |t|
  {
    match t[i]
    case Asked(asked, _, decision) => asked == who && (decision.Denied? ==> i == |t| - 1)
    case Called(operation, _, _) => Permitted(table, who, t, start, i, operation)
    case HandedBack(code, _) => Permitted(table, who, t, start, i, table.decode(code)) && i == |t| - 1
  }

  predicate Permitted<I(==)>(table: Table, who: I, t: seq<Event<I>>, start: nat, i: nat, req: RequestCode)
    requires start <= i < |t|
  {
    i > start && table.service(req).Some? && t[i - 1] == Asked(who, table.service(req).value, Allowed)
  }

  ghost predicate Mediated<I>(table: Table, who: I, t: seq<Event<I>>, start: nat) {
    start <= |t| && forall i :: start <= i < |t| ==> MediatedAt(table, who, t, start, i)
  }

  /** The services asked about, in order. */
  function Questions<I>(t: seq<Event<I>>): seq<ServiceId> {
    if t == [] then []
    else (if t[0].Asked? then [t[0].service] else []) + Questions(t[1..])
  }

  lemma {:induction false} QuestionsAppend<I>(a: seq<Event<I>>, b: seq<Event<I>>)
    ensures Questions(a + b) == Questions(a) + Questions(b)
  {
    if a == [] {
      assert a + b == b;
    } else {
      QuestionsAppend(a[1..], b);
      assert (a + b)[0] == a[0] && (a + b)[1..] == a[1..] + b;
      var head := if a[0].Asked? then [a[0].service] else [];
      assert head + (Questions(a[1..]) + Questions(b)) == head + Questions(a[1..]) + Questions(b);
    }
  }

  /** The question a code calls for, if it is a known one. */
  function ServiceOfCode(table: Table, code: U32): seq<ServiceId> {
    match table.service(table.decode(code))
    case Some(service) => [service]
    case None => []
  }

  function Services(table: Table, codes: seq<U32>): seq<ServiceId> {
    if codes == [] then [] else ServiceOfCode(table, codes[0]) + Services(table, codes[1..])
  }

  predicate Known(table: Table, code: U32) {
    table.service(table.decode(code)).Some?
  }

  /** Exactly the requests `taken` off the stream were asked about, each once
      and in order: `before` are the codes on it at the start and `after`
      those still on it.  Only the last one taken can be unknown, and then the
      loop fails on it. */
  predicate AsksAbout(table: Table, before: seq<U32>, after: seq<U32>, questions: seq<ServiceId>, ending: Ending,
                      taken: seq<U32>) {
    && before == taken + after
    && questions == Services(table, taken)
    && (forall k :: 0 <= k < |taken| - 1 ==> Known(table, taken[k]))
    && (taken != [] && !Known(table, taken[|taken| - 1]) ==> ending.Failed?)
  }

  ghost predicate AsksEach(table: Table, before: seq<U32>, after: seq<U32>, questions: seq<ServiceId>,
                           ending: Ending) {
    exists taken :: AsksAbout(table, before, after, questions, ending, taken)
  }

  lemma AsksNone(table: Table, codes: seq<U32>, ending: Ending)
    ensures AsksEach(table, codes, codes, [], ending)
  {
    assert AsksAbout(table, codes, codes, [], ending, []);
  }

  lemma AsksOneMore(table: Table, code: U32, before: seq<U32>, after: seq<U32>, questions: seq<ServiceId>,
                    ending: Ending)
    requires AsksEach(table, before, after, questions, ending)
    requires Known(table, code) || (before == after && ending.Failed?)
    ensures AsksEach(table, [code] + before, after, ServiceOfCode(table, code) + questions, ending)
  {
    var taken :| AsksAbout(table, before, after, questions, ending, taken);
    var all := [code] + taken;
    assert all[1..] == taken;
    assert forall k :: 1 <= k < |all| ==> all[k] == taken[k - 1];
    assert before == after ==> taken == [] by {
      if before == after {
        assert |before| == |taken| + |after|;
      }
    }
    assert [code] + (taken + after) == all + after;
    assert AsksAbout(table, [code] + before, after, ServiceOfCode(table, code) + questions, ending, all);
  }

  // ---- one request ----

  /** The events one request adds. */
  ghost predicate RequestEvents<I>(table: Table, who: I, code: U32, s: Step<I>, added: seq<Event<I>>) {
    match table.service(table.decode(code))
    case None => added == [] && s.Stop? && s.ending.Failed?
    case Some(service) =>
      && added != []
      && added[0].Asked? && added[0].who == who && added[0].service == service
      && (added[0].decision.Denied? ==> |added| == 1)
      && (|added| == 1 ==> s.Stop? && s.ending.Failed?)
      && |added| <= 2
      && (|added| == 2 ==> ServedEvent(table, code, s, added[1]))
  }

  predicate ServedEvent<I>(table: Table, code: U32, s: Step<I>, e: Event<I>) {
    match e
    case Called(operation, _, _) => operation == table.decode(code)
    case HandedBack(handed, _) => handed == code && s.Stop?
    case Asked(_, _, _) => false
  }

  lemma ServeAddsEvents(table: Table, h: Handler, env: Env, auth: AuthorizerV2, ctx: AuthorizationContext,
                        w: World<AuthorizationContext>, code: U32, body: Bytes)
    returns (added: seq<Event<AuthorizationContext>>)
    requires Coherent(table)
    ensures var s := ServeWithContext(table, h, env, auth, ctx, w, code, body);
            s.world.trace == w.trace + added && RequestEvents(table, ctx, code, s, added)
  {
    var req := table.decode(code);
    assert Gated(table, req);
    if table.service(req).Some? {
      var service := table.service(req).value;
      var question := Asked(ctx, service, auth(w.trace, ctx, service));
      var later := DispatchAddsEvents(table, h, env, ctx, Note(w, question), code, body);
      added := [question] + if question.decision.Denied? then [] else later;
      assert w.trace + [question] + later == w.trace + ([question] + later);
    } else {
      added := [];
    }
  }

  lemma DispatchAddsEvents(table: Table, h: Handler, env: Env, ctx: AuthorizationContext,
                           w: World<AuthorizationContext>, code: U32, body: Bytes)
    returns (added: seq<Event<AuthorizationContext>>)
    requires Gated(table, table.decode(code))
    ensures var s := DispatchWithContext(table, h, env, ctx, w, code, body);
            && s.world.trace == w.trace + added
            && |added| <= 1
            && (added == [] ==> s.Stop? && s.ending.Failed?)
            && (|added| == 1 ==> ServedEvent(table, code, s, added[0]))
  {
    added := DispatchWithContext(table, h, env, ctx, w, code, body).world.trace[|w.trace|..];
  }

  /** A denied request is refused before anything of it is looked at: neither
      the argument decoders, nor the body, nor the handler matter. */
  lemma DenialPrecedesParsing(table: Table, h: Handler, h': Handler, env: Env, env': Env, auth: AuthorizerV2,
                              ctx: AuthorizationContext, w: World<AuthorizationContext>, code: U32,
                              body: Bytes, body': Bytes)
    requires Known(table, code) && env.link == env'.link
    requires auth(w.trace, ctx, table.service(table.decode(code)).value).Denied?
    ensures ServeWithContext(table, h, env, auth, ctx, w, code, body)
         == ServeWithContext(table, h', env', auth, ctx, w, code, body')
  {
  }

  // ---- whole runs ----

  lemma Splice<I>(table: Table, who: I, code: U32, s: Step<I>, before: seq<Event<I>>, added: seq<Event<I>>,
                  t: seq<Event<I>>)
    requires RequestEvents(table, who, code, s, added)
    requires before + added <= t && Mediated(table, who, t, |before + added|)
    requires s.Stop? ==> t == before + added
    ensures Mediated(table, who, t, |before|)
  {
    var n := |before|;
    assert forall i :: 0 <= i < |added| ==> t[n + i] == added[i];
    forall i | n <= i < |t|
      ensures MediatedAt(table, who, t, n, i)
    {
      if i >= n + |added| {
        assert MediatedAt(table, who, t, n + |added|, i);
      } else if i == n {
        assert t[n] == added[0];
      } else {
        assert t[n] == added[0] && t[n + 1] == added[1];
      }
    }
  }

  lemma {:induction false} RunIsMediated(table: Table, h: Handler, env: Env, auth: AuthorizerV2,
                                         ctx: AuthorizationContext, w: World<AuthorizationContext>)
    requires Coherent(table)
    ensures var t := RunWithContext(table, h, env, auth, ctx, w).world.trace;
            w.trace <= t && Mediated(table, ctx, t, |w.trace|)
    decreases |w.unread|
  {
    match ReadRequest(env.link, w.unread)
    case NoRequest(_, _) =>
    case Request(code, body, rest) =>
      var w0 := w.(unread := rest);
      var s := ServeWithContext(table, h, env, auth, ctx, w0, code, body);
      WithContextKeepsStream(table, h, env, auth, ctx, w0, code, body);
      var added := ServeAddsEvents(table, h, env, auth, ctx, w0, code, body);
      if s.Continue? {
        RunIsMediated(table, h, env, auth, ctx, s.world);
      }
      Splice(table, ctx, code, s, w.trace, added, RunWithContext(table, h, env, auth, ctx, w).world.trace);
  }

  lemma OneQuestion<I>(table: Table, who: I, code: U32, s: Step<I>, added: seq<Event<I>>)
    requires RequestEvents(table, who, code, s, added)
    ensures Questions(added) == ServiceOfCode(table, code)
  {
    if |added| == 2 {
      assert added[1..][1..] == [];
      assert Questions(added[1..]) == [];
    }
  }

  /** The questions of a run that goes on after a request. */
  lemma QuestionsOfRun<I>(table: Table, who: I, code: U32, s: Step<I>, before: seq<Event<I>>, added: seq<Event<I>>,
                          t: seq<Event<I>>)
    requires RequestEvents(table, who, code, s, added)
    requires before + added <= t
    ensures Questions(t[|before|..]) == ServiceOfCode(table, code) + Questions(t[|before + added|..])
  {
    var later := t[|before + added|..];
    assert t[|before|..] == added + later;
    QuestionsAppend(added, later);
    OneQuestion(table, who, code, s, added);
  }

  lemma CodesOfRequest(link: Link, s: Bytes)
    ensures match ReadRequest(link, s)
            case NoRequest(_, rest) => Codes(s) == Codes(rest)
            case Request(code, _, rest) => Codes(s) == [code] + Codes(rest)
  {
    if ReadFrame(s).Framed? && |ReadFrame(s).payload| < 4 {
      assert [] + Codes(ReadFrame(s).rest) == Codes(ReadFrame(s).rest);
    }
  }

  lemma {:induction false} RunAsksEach(table: Table, h: Handler, env: Env, auth: AuthorizerV2,
                                       ctx: AuthorizationContext, w: World<AuthorizationContext>)
    requires Coherent(table)
    ensures var o := RunWithContext(table, h, env, auth, ctx, w);
            && w.trace <= o.world.trace
            && AsksEach(table, Codes(w.unread), Codes(o.world.unread), Questions(o.world.trace[|w.trace|..]), o.ending)
    decreases |w.unread|
  {
    CodesOfRequest(env.link, w.unread);
    var o := RunWithContext(table, h, env, auth, ctx, w);
    match ReadRequest(env.link, w.unread)
    case NoRequest(_, _) =>
      AsksNone(table, Codes(w.unread), o.ending);
    case Request(code, body, rest) =>
      var w0 := w.(unread := rest);
      var s := ServeWithContext(table, h, env, auth, ctx, w0, code, body);
      WithContextKeepsStream(table, h, env, auth, ctx, w0, code, body);
      var added := ServeAddsEvents(table, h, env, auth, ctx, w0, code, body);
      if s.Continue? {
        RunAsksEach(table, h, env, auth, ctx, s.world);
      } else {
        AsksNone(table, Codes(rest), o.ending);
      }
      QuestionsOfRun(table, ctx, code, s, w.trace, added, o.world.trace);
      AsksOneMore(table, code, Codes(rest), Codes(o.world.unread),
                  Questions(o.world.trace[|w.trace + added|..]), o.ending);
  }

  /** Complete mediation over every run of `handle_authorized_with_context`,
      for any authorizer: every call and hand-back is permitted, every known
      request taken off the stream is asked about exactly once and in order,
      and nothing follows a denial. */
  lemma CompleteMediation(table: Table, h: Handler, env: Env, auth: AuthorizerV2, ctx: AuthorizationContext,
                          w: World<AuthorizationContext>)
    requires Coherent(table)
    ensures var o := RunWithContext(table, h, env, auth, ctx, w);
            var t := o.world.trace;
            && w.trace <= t
            && Mediated(table, ctx, t, |w.trace|)
            && AsksEach(table, Codes(w.unread), Codes(o.world.unread), Questions(t[|w.trace|..]), o.ending)
  {
    RunIsMediated(table, h, env, auth, ctx, w);
    RunAsksEach(table, h, env, auth, ctx, w);
  }

  predicate EndsDenied<I>(t: seq<Event<I>>) {
    t != [] && t[|t| - 1].Asked? && t[|t| - 1].decision.Denied?
  }

  /** The peer was answered "authorization denied" and the loop fails with
      permission denied, classified as forbidden, unless even that answer
      could not be sent. */
  predicate DenialReported<I>(env: Env, w: World<I>, ending: Ending) {
    || (w.room == 0 && ending == SendFailure(env))
    || (&& ending == Failed(IoError(PermissionDenied, Some(Forbidden)))
        && OfIoError(ending.error) == Forbidden
        && w.sent != [] && w.sent[|w.sent| - 1] == Err("authorization denied"))
  }

  lemma DeniedRequest(table: Table, h: Handler, env: Env, auth: AuthorizerV2, ctx: AuthorizationContext,
                      w: World<AuthorizationContext>, code: U32, body: Bytes)
    requires Coherent(table)
    ensures var s := ServeWithContext(table, h, env, auth, ctx, w, code, body);
            && w.trace <= s.world.trace
            && (s.Continue? ==> |s.world.trace| > |w.trace| && !EndsDenied(s.world.trace))
            && (s.Stop? && |s.world.trace| > |w.trace| && EndsDenied(s.world.trace) ==>
                  DenialReported(env, s.world, s.ending))
  {
    var added := ServeAddsEvents(table, h, env, auth, ctx, w, code, body);
    var s := ServeWithContext(table, h, env, auth, ctx, w, code, body);
    if added != [] && EndsDenied(s.world.trace) {
      var last := s.world.trace[|s.world.trace| - 1];
      assert last == added[|added| - 1];
      DeniedStep(table, h, env, auth, ctx, w, code, body);
    }
  }

  /** The step of a denied request. */
  lemma DeniedStep(table: Table, h: Handler, env: Env, auth: AuthorizerV2, ctx: AuthorizationContext,
                   w: World<AuthorizationContext>, code: U32, body: Bytes)
    requires Known(table, code)
    requires auth(w.trace, ctx, table.service(table.decode(code)).value).Denied?
    ensures var s := ServeWithContext(table, h, env, auth, ctx, w, code, body);
            s.Stop? && DenialReported(env, s.world, s.ending)
  {
  }

  /** A run that ends on a denial has reported it. */
  lemma {:induction false} DenialIsReported(table: Table, h: Handler, env: Env, auth: AuthorizerV2,
                                            ctx: AuthorizationContext, w: World<AuthorizationContext>)
    requires Coherent(table)
    ensures var o := RunWithContext(table, h, env, auth, ctx, w);
            && w.trace <= o.world.trace
            && (|o.world.trace| > |w.trace| && EndsDenied(o.world.trace) ==>
                  DenialReported(env, o.world, o.ending))
    decreases |w.unread|
  {
    match ReadRequest(env.link, w.unread)
    case NoRequest(_, _) =>
    case Request(code, body, rest) =>
      var w0 := w.(unread := rest);
      var s := ServeWithContext(table, h, env, auth, ctx, w0, code, body);
      WithContextKeepsStream(table, h, env, auth, ctx, w0, code, body);
      DeniedRequest(table, h, env, auth, ctx, w0, code, body);
      if s.Continue? {
        DenialIsReported(table, h, env, auth, ctx, s.world);
        PrefixGrows(w.trace, s.world.trace, RunWithContext(table, h, env, auth, ctx, s.world).world.trace);
      }
  }

  lemma PrefixGrows<I>(a: seq<Event<I>>, b: seq<Event<I>>, c: seq<Event<I>>)
    requires a <= b <= c
    ensures a <= c && (|b| == |c| ==> b == c)
  {
  }

  // ---- the legacy loop ----

  lemma {:induction false} RelabelQuestions<I, J>(f: I -> J, t: seq<Event<I>>)
    ensures Questions(Relabel(f, t)) == Questions(t)
  {
    if t == [] {
    } else {
      assert Relabel(f, t)[1..] == Relabel(f, t[1..]);
      RelabelQuestions(f, t[1..]);
    }
  }

  lemma RelabelMediated<I, J>(f: I -> J, table: Table, who: I, t: seq<Event<I>>, start: nat)
    requires Mediated(table, who, t, start)
    ensures Mediated(table, f(who), Relabel(f, t), start)
  {
    forall i | start <= i < |t|
      ensures MediatedAt(table, f(who), Relabel(f, t), start, i)
    {
      assert MediatedAt(table, who, t, start, i);
    }
  }

  /** Complete mediation for `handle_authorized`, carried over from the other
      loop by bisimilarity. */
  lemma LegacyMediation(table: Table, h: Handler, env: Env, auth: Authorizer, peer: PeerContext,
                        w: World<PeerContext>)
    requires Coherent(table)
    ensures var o := RunAuthorized(table, h, env, auth, peer, w);
            var t := o.world.trace;
            && w.trace <= t
            && Mediated(table, peer, t, |w.trace|)
            && AsksEach(table, Codes(w.unread), Codes(o.world.unread), Questions(t[|w.trace|..]), o.ending)
  {
    var ctx, lifted := FromPeerContext(peer), RelabelWorld(FromPeerContext, w);
    LiftedWorld(w);
    LoopsBisimilar(table, table, h, env, auth, ctx, lifted);
    CompleteMediation(table, h, env, Adapter(auth), ctx, lifted);
    MediationCarries(table, h, env, auth, ctx, lifted);
  }

  /** Both loops over their own tables. */
  lemma BothLoopsMediate(h: Handler, env: Env, auth: AuthorizerV2, ctx: AuthorizationContext,
                         w: World<AuthorizationContext>, inner: Authorizer, peer: PeerContext, v: World<PeerContext>)
    ensures var o := RunWithContext(ContextTable(), h, env, auth, ctx, w);
            var t := o.world.trace;
            && w.trace <= t && Mediated(ContextTable(), ctx, t, |w.trace|)
            && AsksEach(ContextTable(), Codes(w.unread), Codes(o.world.unread), Questions(t[|w.trace|..]), o.ending)
    ensures var o := RunAuthorized(LegacyTable(), h, env, inner, peer, v);
            var t := o.world.trace;
            && v.trace <= t && Mediated(LegacyTable(), peer, t, |v.trace|)
            && AsksEach(LegacyTable(), Codes(v.unread), Codes(o.world.unread), Questions(t[|v.trace|..]), o.ending)
  {
    TablesGate();
    CompleteMediation(ContextTable(), h, env, auth, ctx, w);
    LegacyMediation(LegacyTable(), h, env, inner, peer, v);
  }

  lemma LiftedWorld(w: World<PeerContext>)
    ensures RelabelWorld(PeerOf, RelabelWorld(FromPeerContext, w)) == w
  {
    assert Relabel(PeerOf, Relabel(FromPeerContext, w.trace)) == w.trace;
  }

  lemma RelabelSlices<I, J>(f: I -> J, t: seq<Event<I>>, n: nat)
    requires n <= |t|
    ensures Relabel(f, t)[n..] == Relabel(f, t[n..]) && Relabel(f, t)[..n] == Relabel(f, t[..n])
  {
  }

  lemma MediationCarries(table: Table, h: Handler, env: Env, auth: Authorizer, ctx: AuthorizationContext,
                         w: World<AuthorizationContext>)
    requires Coherent(table)
    ensures var t := Relabel(PeerOf, RunWithContext(table, h, env, Adapter(auth), ctx, w).world.trace);
            && Relabel(PeerOf, w.trace) <= t
            && Mediated(table, PeerOf(ctx), t, |w.trace|)
            && Questions(t[|w.trace|..])
               == Questions(RunWithContext(table, h, env, Adapter(auth), ctx, w).world.trace[|w.trace|..])
  {
    CompleteMediation(table, h, env, Adapter(auth), ctx, w);
    var t := RunWithContext(table, h, env, Adapter(auth), ctx, w).world.trace;
    RelabelMediated(PeerOf, table, ctx, t, |w.trace|);
    RelabelSlices(PeerOf, t, |w.trace|);
    RelabelQuestions(PeerOf, t[|w.trace|..]);
  }

  /** `handle`: under the permissive authorizer nothing is denied, so a run
      serves every request up to one that fails on its own account. */
  lemma {:induction false} PermissiveNeverDenies(table: Table, h: Handler, env: Env, peer: PeerContext,
                                                 w: World<PeerContext>)
    ensures var t := RunAuthorized(table, h, env, Permissive(), peer, w).world.trace;
            && w.trace <= t
            && forall i :: |w.trace| <= i < |t| && t[i].Asked? ==> t[i].decision == Allowed
    decreases |w.unread|
  {
    match ReadRequest(env.link, w.unread)
    case NoRequest(_, _) =>
    case Request(code, body, rest) =>
      var w0 := w.(unread := rest);
      var s := ServeAuthorized(table, h, env, Permissive(), peer, w0, code, body);
      AuthorizedKeepsStream(table, h, env, Permissive(), peer, w0, code, body);
      PermissiveRequest(table, h, env, peer, w0, code, body);
      if s.Continue? {
        PermissiveNeverDenies(table, h, env, peer, s.world);
      }
  }

  lemma PermissiveRequest(table: Table, h: Handler, env: Env, peer: PeerContext, w: World<PeerContext>,
                          code: U32, body: Bytes)
    ensures var t := ServeAuthorized(table, h, env, Permissive(), peer, w, code, body).world.trace;
            && w.trace <= t
            && forall i :: |w.trace| <= i < |t| && t[i].Asked? ==> t[i].decision == Allowed
  {
    match table.service(table.decode(code))
    case None => PermissiveDispatch(table, h, env, peer, w, code, body);
    case Some(service) =>
      PermissiveDispatch(table, h, env, peer, Note(w, Asked(peer, service, Allowed)), code, body);
  }

  lemma PermissiveDispatch(table: Table, h: Handler, env: Env, peer: PeerContext, w: World<PeerContext>,
                           code: U32, body: Bytes)
    ensures var t := DispatchAuthorized(table, h, env, peer, w, code, body).world.trace;
            w.trace <= t && forall i :: |w.trace| <= i < |t| ==> !t[i].Asked?
  {
  }
}
