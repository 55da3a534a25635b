/** Moving a manager from the flat host-control requests to their node forms
    keeps every handler call. */
module Migration {
  import opened Wire
  import opened Payload
  import opened Errors
  import opened Agent
  import opened InstallExchange
  import opened Alignment
  import opened Pairing

  /** A legacy `Reboot`, `Shutdown`, `ResourceUsage` or `ProcessList` request
      in its node form; any other exchange unchanged. */
  function Migrate(x: Exchange): (y: Exchange)
    ensures y.chunks == x.chunks
  {
    match x.code
    case 4 => Exchange(106, [0], x.chunks)
    case 21 => Exchange(106, [1], x.chunks)
    case 7 => Exchange(107, [1], x.chunks)
    case 19 => Exchange(107, [0], x.chunks)
    case _ => x
  }

  function MigrateAll(xs: seq<Exchange>): (ys: seq<Exchange>)
    ensures |ys| == |xs|
    ensures forall i :: 0 <= i < |xs| ==> ys[i] == Migrate(xs[i])
  {
    if xs == [] then [] else [Migrate(xs[0])] + MigrateAll(xs[1..])
  }

  /** The flat frame a typed observation frame stands for. */
  function FlatOf(query: Query, f: Frame): Frame {
    match (query, f)
    case (ResourceUsage, Ok(Observed(Usage(hostname, usage)))) => Ok(FlatUsage(hostname, usage))
    case (ProcessList, Ok(Observed(Processes(processes)))) => Ok(FlatProcesses(processes))
    case (_, Ok(Observed(other))) => Err(UnexpectedObservation(other))
    case _ => f
  }

  /** A request whose node form is not answered. */
  predicate LegacyPowerCode(code: U32) {
    code == 4 || code == 21
  }

  /** A table that serves the four legacy requests and their node forms, as
      that of `handle` does. */
  predicate HostControl(table: Table) {
    && table(4) == LegacyPower(Reboot) && table(21) == LegacyPower(Shutdown)
    && table(7) == LegacyObservation(ResourceUsage) && table(19) == LegacyObservation(ProcessList)
    && table(106) == Power && table(107) == Observe
  }

  lemma NodeForms()
    ensures DecodePower([0]) == Some(Reboot) && DecodePower([1]) == Some(Shutdown)
    ensures DecodeQuery([0]) == Some(ProcessList) && DecodeQuery([1]) == Some(ResourceUsage)
  {
  }

  /** How the flat block of an exchange and the node block of its migrated
      form correspond. */
  predicate Translates(code: U32, flat: seq<Frame>, node: seq<Frame>) {
    if LegacyPowerCode(code) then
      |flat| == 1 && (flat[0].Ok? ==> flat[0] == Ok(Unit)) && node == []
    else if code == 7 || code == 19 then
      && |flat| == |node| <= 1
      && (flat != [] ==> flat[0] == FlatOf(if code == 7 then ResourceUsage else ProcessList, node[0]))
    else flat == node
  }

  /** The second world differs only in what was sent and in having at least
      as much room. */
  predicate Twins(w: World, v: World) {
    w.trace == v.trace && w.unread == v.unread && w.room <= v.room
  }

  // ---- what was sent, and room not needed, do not matter ----

  /** The send stream takes fewer frames than the request is answered with. */
  predicate Starves(table: Table, h: Handler, env: Env, w: World, code: U32, body: Bytes) {
    var block := Written(w, Serve(table, h, env, w, code, body));
    |block| < Expected(table, env, code, body, block)
  }

  /** The step after other frames and with more room. */
  function Moved(s: Step, sent: seq<Frame>, extra: nat): Step {
    var w := s.world.(sent := sent, room := s.world.room + extra);
    match s case Continue(_) => Continue(w) case Stop(_, e) => Stop(w, e)
  }

  predicate MovesTo(w: World, s: Step, v: World, s': Step) {
    w.room <= v.room && s' == Moved(s, v.sent + Written(w, s), v.room - w.room)
  }

  lemma RespondMoves(env: Env, w: World, v: World, f: Frame)
    requires Twins(w, v) && (w.room == v.room || w.room > 0)
    ensures MovesTo(w, Respond(env, w, f), v, Respond(env, v, f))
  {
  }

  /** One frame earlier. */
  lemma MovesAfter(w: World, v: World, first: Frame, w1: World, s: Step, v1: World, s': Step)
    requires w1.sent == w.sent + [first] && v1.sent == v.sent + [first]
    requires w1.room + 1 == w.room && v1.room + 1 == v.room
    requires MovesTo(w1, s, v1, s') && w1.sent <= s.world.sent
    ensures MovesTo(w, s, v, s')
  {
    assert Written(w, s) == [first] + Written(w1, s);
    assert v.sent + ([first] + Written(w1, s)) == v1.sent + Written(w1, s);
  }

  lemma InstallMoves(h: Handler, env: Env, w: World, v: World, req: PackageRequest)
    requires Twins(w, v) && Accepts(h, w, req) && (w.room == v.room || w.room > 1)
    ensures MovesTo(w, DispatchPackage(h, env, w, req), v, DispatchPackage(h, env, v, req))
  {
    StreamUnfolds(h, env, w, req);
    StreamUnfolds(h, env, v, req);
    var run, verdict := RoutineRun(h, env, w, req), Ok(Verdict(Proceed));
    var d := Drain(run.reader, env.link.end);
    var w1 := World(d.reader.unread, w.sent + [verdict], w.room - 1, run.trace);
    var v1 := w1.(sent := v.sent + [verdict], room := v.room - 1);
    var last := ValueFrame(Terminal(run.result, d.error));
    RespondMoves(env, w1, v1, last);
    MovesAfter(w, v, verdict, w1, Respond(env, w1, last), v1, Respond(env, v1, last));
  }

  lemma RefusalMoves(h: Handler, env: Env, w: World, v: World, req: PackageRequest)
    requires Twins(w, v) && !Accepts(h, w, req) && (w.room == v.room || w.room > 0)
    ensures MovesTo(w, DispatchPackage(h, env, w, req), v, DispatchPackage(h, env, v, req))
  {
  }

  /** A request that expects no frame. */
  predicate Silent(table: Table, code: U32, body: Bytes) {
    table(code).Power? && DecodePower(body).Some? && !ExpectsResponse(DecodePower(body).value)
  }

  lemma UnaryMoves(table: Table, h: Handler, env: Env, w: World, v: World, code: U32, body: Bytes)
    requires !table(code).Package? && Twins(w, v)
    requires w.room == v.room || w.room > 0 || Silent(table, code, body)
    ensures MovesTo(w, Serve(table, h, env, w, code, body), v, Serve(table, h, env, v, code, body))
  {
    if table(code).Decoded? || table(code).Observe? {
      DecodedMoves(table, h, env, w, v, code, body);
    } else if table(code).Power? {
      PowerMoves(table, h, env, w, v, code, body);
    } else {
      PlainMoves(table, h, env, w, v, code, body);
    }
  }

  lemma PlainMoves(table: Table, h: Handler, env: Env, w: World, v: World, code: U32, body: Bytes)
    requires !table(code).Decoded? && !table(code).Observe? && !table(code).Power? && !table(code).Package?
    requires Twins(w, v) && (w.room == v.room || w.room > 0)
    ensures MovesTo(w, Serve(table, h, env, w, code, body), v, Serve(table, h, env, v, code, body))
  {
    match table(code)
    case LegacyPower(_) =>
    case LegacyObservation(_) =>
    case _ =>
  }

  lemma DecodedMoves(table: Table, h: Handler, env: Env, w: World, v: World, code: U32, body: Bytes)
    requires table(code).Decoded? || table(code).Observe?
    requires Twins(w, v) && (w.room == v.room || w.room > 0)
    ensures MovesTo(w, Serve(table, h, env, w, code, body), v, Serve(table, h, env, v, code, body))
  {
  }

  lemma PowerMoves(table: Table, h: Handler, env: Env, w: World, v: World, code: U32, body: Bytes)
    requires table(code).Power? && Twins(w, v)
    requires w.room == v.room || w.room > 0 || Silent(table, code, body)
    ensures MovesTo(w, Serve(table, h, env, w, code, body), v, Serve(table, h, env, v, code, body))
  {
  }

  /** The room a request that is answered in full had. */
  lemma FedHadRoom(table: Table, h: Handler, env: Env, w: World, code: U32, body: Bytes)
    requires !Starves(table, h, env, w, code, body)
    ensures w.room > 0 || Silent(table, code, body)
    ensures Asked(table, h, env, w, code, body).Some? ==> w.room > 1
  {
    ServeWritesBlock(table, h, env, w, code, body);
    if Asked(table, h, env, w, code, body).Some? {
      ServesInstall(table, h, env, w, code, body);
      StreamUnfolds(h, env, w, env.package(body).value);
    }
  }

  /** How a request is served does not depend on the frames sent before it,
      nor on room it does not use. */
  lemma ServeMoves(table: Table, h: Handler, env: Env, w: World, v: World, code: U32, body: Bytes)
    requires Twins(w, v) && (w.room == v.room || !Starves(table, h, env, w, code, body))
    ensures MovesTo(w, Serve(table, h, env, w, code, body), v, Serve(table, h, env, v, code, body))
  {
    if w.room != v.room {
      FedHadRoom(table, h, env, w, code, body);
    }
    if !table(code).Package? {
      UnaryMoves(table, h, env, w, v, code, body);
    } else {
      PackageMoves(table, h, env, w, v, code, body);
    }
  }

  lemma PackageMoves(table: Table, h: Handler, env: Env, w: World, v: World, code: U32, body: Bytes)
    requires table(code).Package? && Twins(w, v)
    requires w.room == v.room || w.room > 1 || (w.room > 0 && Asked(table, h, env, w, code, body).None?)
    ensures MovesTo(w, Serve(table, h, env, w, code, body), v, Serve(table, h, env, v, code, body))
  {
    match env.package(body) {
      case None =>
      case Some(req) =>
        if Accepts(h, w, req) {
          InstallMoves(h, env, w, v, req);
        } else {
          RefusalMoves(h, env, w, v, req);
        }
    }
  }

  // ---- one request ----

  predicate TwinSteps(s: Step, s': Step) {
    && Twins(s.world, s'.world)
    && (s.Stop? <==> s'.Stop?)
    && (s.Stop? ==> s.error == s'.error)
  }

  lemma PowerForms(table: Table, h: Handler, env: Env, w: World, v: World, code: U32, body: Bytes,
                   code': U32, body': Bytes)
    requires Twins(w, v) && w.room > 0
    requires table(code).LegacyPower? && !ExpectsResponse(table(code).op)
    requires table(code').Power? && DecodePower(body') == Some(table(code).op)
    ensures var s, s' := Serve(table, h, env, w, code, body), Serve(table, h, env, v, code', body');
            && TwinSteps(s, s') && |Written(w, s)| == 1 && Written(v, s') == []
            && (Written(w, s)[0].Ok? ==> Written(w, s)[0] == Ok(Unit))
            && s'.world.room == v.room
  {
  }

  lemma ObservationForms(table: Table, h: Handler, env: Env, w: World, v: World, code: U32, body: Bytes,
                         code': U32, body': Bytes)
    requires Twins(w, v) && (w.room == v.room || w.room > 0)
    requires table(code).LegacyObservation?
    requires table(code').Observe? && DecodeQuery(body') == Some(table(code).query)
    ensures var s, s' := Serve(table, h, env, w, code, body), Serve(table, h, env, v, code', body');
            && TwinSteps(s, s')
            && |Written(w, s)| == |Written(v, s')| <= 1
            && (Written(w, s) != [] ==> Written(w, s)[0] == FlatOf(table(code).query, Written(v, s')[0]))
            && s'.world.room - s.world.room == v.room - w.room
  {
  }

  /** A request that is answered in full, or whose node form finds the send
      stream just as full, keeps its meaning. */
  lemma MigratedServe(table: Table, h: Handler, env: Env, w: World, v: World, x: Exchange)
    requires HostControl(table)
    requires Twins(w, v)
    requires || !Starves(table, h, env, w, x.code, x.body)
             || (w.room == v.room && !LegacyPowerCode(x.code))
    ensures var y := Migrate(x);
            var s, s' := Serve(table, h, env, w, x.code, x.body), Serve(table, h, env, v, y.code, y.body);
            && TwinSteps(s, s') && Translates(x.code, Written(w, s), Written(v, s'))
            && (s.world.room < s'.world.room <==> w.room < v.room || LegacyPowerCode(x.code))
  {
    var y := Migrate(x);
    NodeForms();
    if !Starves(table, h, env, w, x.code, x.body) {
      FedHadRoom(table, h, env, w, x.code, x.body);
    }
    ServeWritesBlock(table, h, env, w, x.code, x.body);
    if LegacyPowerCode(x.code) {
      PowerForms(table, h, env, w, v, x.code, x.body, y.code, y.body);
    } else if x.code == 7 || x.code == 19 {
      ObservationForms(table, h, env, w, v, x.code, x.body, y.code, y.body);
    } else {
      ServeMoves(table, h, env, w, v, x.code, x.body);
      MovedWrites(w, Serve(table, h, env, w, x.code, x.body), v, Serve(table, h, env, v, x.code, x.body));
    }
  }

  lemma MovedWrites(w: World, s: Step, v: World, s': Step)
    requires MovesTo(w, s, v, s') && Twins(w, v)
    ensures TwinSteps(s, s') && Written(v, s') == Written(w, s)
    ensures s'.world.room - s.world.room == v.room - w.room
  {
  }

  /** Otherwise it does not: the node form is answered with more. */
  lemma OvertakenServe(table: Table, h: Handler, env: Env, w: World, v: World, x: Exchange)
    requires HostControl(table)
    requires Twins(w, v) && Starves(table, h, env, w, x.code, x.body)
    requires w.room < v.room || LegacyPowerCode(x.code)
    ensures var y := Migrate(x);
            var s, s' := Serve(table, h, env, w, x.code, x.body), Serve(table, h, env, v, y.code, y.body);
            !Translates(x.code, Written(w, Continue(s.world)), Written(v, Continue(s'.world)))
  {
    var y := Migrate(x);
    ServeWritesBlock(table, h, env, w, x.code, x.body);
    ServeWritesBlock(table, h, env, v, y.code, y.body);
    NodeForms();
  }

  // ---- one exchange ----

  ghost predicate StarvesAlone(table: Table, h: Handler, env: Env, w: World, x: Exchange)
    requires Sendable(x)
  {
    Starves(table, h, Clean(env), w.(unread := Frames(x.chunks)), x.code, x.body)
  }

  /** The node form of a complete exchange is served to the end of its
      stream. */
  lemma MigratedEnds(table: Table, h: Handler, env: Env, w: World, v: World, x: Exchange)
    requires HostControl(table)
    requires Complete(table, h, env, w, x) && Twins(w, v)
    ensures Sendable(Migrate(x))
    ensures Serve(table, h, Clean(env), v.(unread := Frames(x.chunks)), Migrate(x).code, Migrate(x).body)
            .world.unread == []
  {
    if Asked(table, h, env, w, x.code, x.body).Some? {
      assert Migrate(x) == x;
      assert Complete(table, h, env, v, x);
      ServeIsLocal(table, h, env, v, x, []);
    } else {
      assert Frames(x.chunks) == [];
    }
  }

  lemma MigratedComplete(table: Table, h: Handler, env: Env, w: World, v: World, x: Exchange)
    requires HostControl(table)
    requires Complete(table, h, env, w, x)
    requires Twins(w, v) && (w.room == v.room || w.room > 0 || Silent(table, x.code, x.body))
    ensures Complete(table, h, env, v, Migrate(x))
  {
    if Asked(table, h, env, w, x.code, x.body).Some? {
      assert Migrate(x) == x;
    }
  }

  /** What an exchange served on its own stream comes to. */
  function Came(s: Step): Outcome {
    Outcome(s.world, match s case Stop(_, e) => Some(e) case Continue(_) => None)
  }

  /** The outcomes of an exchange and of its migrated form correspond. */
  predicate Corresponds(code: U32, w: World, o: Outcome, v: World, o': Outcome) {
    && Twins(o.world, o'.world) && o.error == o'.error
    && Translates(code, Written(w, Continue(o.world)), Written(v, Continue(o'.world)))
    && (o.world.room < o'.world.room <==> w.room < v.room || LegacyPowerCode(code))
  }

  lemma MigratedStep(table: Table, h: Handler, env: Env, w: World, v: World, x: Exchange)
    requires HostControl(table) && Twins(w, v)
    requires !Starves(table, h, env, w, x.code, x.body) || (w.room == v.room && !LegacyPowerCode(x.code))
    ensures var y := Migrate(x);
            Corresponds(x.code, w, Came(Serve(table, h, env, w, x.code, x.body)),
                        v, Came(Serve(table, h, env, v, y.code, y.body)))
  {
    MigratedServe(table, h, env, w, v, x);
  }

  /** One exchange of the conversation, served alone in both forms. */
  lemma MigratedAlone(table: Table, h: Handler, env: Env, w: World, v: World, x: Exchange)
    requires HostControl(table)
    requires Complete(table, h, env, w, x) && Twins(w, v)
    requires !StarvesAlone(table, h, env, w, x) || (w.room == v.room && !LegacyPowerCode(x.code))
    ensures Sendable(Migrate(x))
    ensures Corresponds(x.code, w, Alone(table, h, env, w, x), v, Alone(table, h, env, v, Migrate(x)))
  {
    var w0, v0 := w.(unread := Frames(x.chunks)), v.(unread := Frames(x.chunks));
    MigratedStep(table, h, Clean(env), w0, v0, x);
    BothCame(table, h, env, w, v, x);
    StreamIsNoMatter(x.code, w, w0, Alone(table, h, env, w, x), v, v0, Alone(table, h, env, v, Migrate(x)));
  }

  lemma StreamIsNoMatter(code: U32, w: World, w0: World, o: Outcome, v: World, v0: World, o': Outcome)
    requires w.sent == w0.sent && w.room == w0.room && v.sent == v0.sent && v.room == v0.room
    ensures Corresponds(code, w, o, v, o') <==> Corresponds(code, w0, o, v0, o')
  {
  }

  lemma BothCame(table: Table, h: Handler, env: Env, w: World, v: World, x: Exchange)
    requires HostControl(table)
    requires Complete(table, h, env, w, x) && Twins(w, v)
    ensures Sendable(Migrate(x))
    ensures var w0, v0, y := w.(unread := Frames(x.chunks)), v.(unread := Frames(x.chunks)), Migrate(x);
            && Alone(table, h, env, w, x) == Came(Serve(table, h, Clean(env), w0, x.code, x.body))
            && Alone(table, h, env, v, y) == Came(Serve(table, h, Clean(env), v0, y.code, y.body))
  {
    MigratedEnds(table, h, env, w, v, x);
    AloneCame(table, h, env, w, x);
    AloneServes(table, h, env, v, Migrate(x));
  }

  lemma AloneCame(table: Table, h: Handler, env: Env, w: World, x: Exchange)
    requires Complete(table, h, env, w, x)
    ensures Alone(table, h, env, w, x)
         == Came(Serve(table, h, Clean(env), w.(unread := Frames(x.chunks)), x.code, x.body))
  {
    AloneUnfolds(table, h, env, w, x);
  }

  lemma MigratedStaysComplete(table: Table, h: Handler, env: Env, w: World, v: World, x: Exchange)
    requires HostControl(table)
    requires Complete(table, h, env, w, x) && Twins(w, v)
    requires !StarvesAlone(table, h, env, w, x) || w.room == v.room
    ensures Complete(table, h, env, v, Migrate(x))
  {
    if !StarvesAlone(table, h, env, w, x) {
      FedHadRoom(table, h, Clean(env), w.(unread := Frames(x.chunks)), x.code, x.body);
    }
    MigratedComplete(table, h, env, w, v, x);
  }

  lemma StarvedFails(table: Table, h: Handler, env: Env, w: World, x: Exchange)
    requires Complete(table, h, env, w, x) && StarvesAlone(table, h, env, w, x)
    ensures Alone(table, h, env, w, x).error.Some?
  {
    ServeWritesBlock(table, h, Clean(env), w.(unread := Frames(x.chunks)), x.code, x.body);
    AloneCame(table, h, env, w, x);
  }

  lemma OvertakenAlone(table: Table, h: Handler, env: Env, w: World, v: World, x: Exchange)
    requires HostControl(table)
    requires Complete(table, h, env, w, x) && Twins(w, v) && StarvesAlone(table, h, env, w, x)
    requires w.room < v.room || LegacyPowerCode(x.code)
    ensures Sendable(Migrate(x))
    ensures var o, o' := Alone(table, h, env, w, x), Alone(table, h, env, v, Migrate(x));
            !Translates(x.code, Written(w, Continue(o.world)), Written(v, Continue(o'.world)))
  {
    var w0, v0 := w.(unread := Frames(x.chunks)), v.(unread := Frames(x.chunks));
    OvertakenServe(table, h, Clean(env), w0, v0, x);
    BothCame(table, h, env, w, v, x);
    SameWritten(w, w0, Alone(table, h, env, w, x).world);
    SameWritten(v, v0, Alone(table, h, env, v, Migrate(x)).world);
  }

  lemma SameWritten(w: World, w0: World, after: World)
    requires w.sent == w0.sent
    ensures Written(w, Continue(after)) == Written(w0, Continue(after))
  {
  }

  // ---- whole conversations ----

  /** The frames each exchange of a conversation is answered with. */
  ghost function BlocksInTurn(solo: Solo, w: World, xs: seq<Exchange>): seq<seq<Frame>>
    decreases xs
  {
    if xs == [] then []
    else
      var o := solo(w, xs[0]);
      [Written(w, Continue(o.world))] + if o.error.Some? then [] else BlocksInTurn(solo, o.world, xs[1..])
  }

  predicate AllTranslate(xs: seq<Exchange>, flat: seq<seq<Frame>>, node: seq<seq<Frame>>) {
    && |flat| == |node| <= |xs|
    && forall i :: 0 <= i < |flat| ==> Translates(xs[i].code, flat[i], node[i])
  }

  lemma TranslateCons(xs: seq<Exchange>, f: seq<Frame>, flat: seq<seq<Frame>>, n: seq<Frame>, node: seq<seq<Frame>>)
    requires xs != []
    ensures AllTranslate(xs, [f] + flat, [n] + node)
            <==> Translates(xs[0].code, f, n) && AllTranslate(xs[1..], flat, node)
  {
    var flat', node' := [f] + flat, [n] + node;
    if AllTranslate(xs, flat', node') {
      assert Translates(xs[0].code, flat'[0], node'[0]);
      forall i | 0 <= i < |flat|
        ensures Translates(xs[1..][i].code, flat[i], node[i])
      {
        assert Translates(xs[i + 1].code, flat'[i + 1], node'[i + 1]);
      }
    }
    if Translates(xs[0].code, f, n) && AllTranslate(xs[1..], flat, node) {
      forall i | 0 <= i < |flat'|
        ensures Translates(xs[i].code, flat'[i], node'[i])
      {
        if i > 0 {
          assert Translates(xs[1..][i - 1].code, flat[i - 1], node[i - 1]);
        }
      }
    }
  }

  /** The conversation and its migrated form, begun in `w` and `v`, make the
      same calls, end the same way and are answered by corresponding frames. */
  ghost predicate Preserved(solo: Solo, w: World, v: World, xs: seq<Exchange>) {
    var ys := MigrateAll(xs);
    var o, o' := InTurn(solo, w, xs), InTurn(solo, v, ys);
    && o.world.trace == o'.world.trace && o.error == o'.error
    && AllTranslate(xs, BlocksInTurn(solo, w, xs), BlocksInTurn(solo, v, ys))
  }

  /** The legacy conversation runs out of room at an exchange whose node form
      does not, because that exchange or an earlier one is a power request,
      whose node form needs no room; `ahead` says there was one before. */
  ghost predicate Overtaken(solo: Solo, starves: (World, Exchange) -> bool, w: World, xs: seq<Exchange>, ahead: bool)
    decreases xs
  {
    xs != [] &&
      var o := solo(w, xs[0]);
      var ahead' := ahead || LegacyPowerCode(xs[0].code);
      if starves(w, xs[0]) then ahead' else o.error.None? && Overtaken(solo, starves, o.world, xs[1..], ahead')
  }

  /** What migration does to one exchange, in any worlds that are twins. */
  predicate StepLaw(solo: Solo, starves: (World, Exchange) -> bool, complete: (World, Exchange) -> bool,
                    w: World, v: World, x: Exchange) {
    complete(w, x) && Twins(w, v) ==>
      var o, o' := solo(w, x), solo(v, Migrate(x));
      && (starves(w, x) ==> o.error.Some?)
      && if starves(w, x) && (w.room < v.room || LegacyPowerCode(x.code)) then
           !Translates(x.code, Written(w, Continue(o.world)), Written(v, Continue(o'.world)))
         else complete(v, Migrate(x)) && Corresponds(x.code, w, o, v, o')
  }

  ghost predicate Lawful(solo: Solo, starves: (World, Exchange) -> bool, complete: (World, Exchange) -> bool) {
    forall w, v, x :: StepLaw(solo, starves, complete, w, v, x)
  }

  /** What preservation comes to after the first exchange. */
  lemma HeadUnfolds(solo: Solo, w: World, v: World, xs: seq<Exchange>)
    requires xs != []
    ensures var o, o' := solo(w, xs[0]), solo(v, Migrate(xs[0]));
            var same := Translates(xs[0].code, Written(w, Continue(o.world)), Written(v, Continue(o'.world)));
            && (o.error.Some? && !same ==> !Preserved(solo, w, v, xs))
            && (o.error == o'.error && same && o.world.trace == o'.world.trace ==>
                  (Preserved(solo, w, v, xs) <==>
                     o.error.Some? || Preserved(solo, o.world, o'.world, xs[1..])))
  {
    var ys := MigrateAll(xs);
    assert ys[1..] == MigrateAll(xs[1..]) && ys[0] == Migrate(xs[0]);
    var o, o' := solo(w, xs[0]), solo(v, ys[0]);
    TranslateCons(xs,
      Written(w, Continue(o.world)), if o.error.Some? then [] else BlocksInTurn(solo, o.world, xs[1..]),
      Written(v, Continue(o'.world)), if o'.error.Some? then [] else BlocksInTurn(solo, o'.world, ys[1..]));
  }

  /** Twins go on as twins, with the same room if they had the same and no
      power request came between. */
  ghost predicate Level(w: World, v: World, xs: seq<Exchange>, w': World, v': World) {
    Twins(w', v') && (w.room == v.room && (forall x :: x in xs ==> !LegacyPowerCode(x.code)) ==> w'.room == v'.room)
  }

  /** Where every exchange obeys the law, a conversation keeps its meaning if
      and only if it is not overtaken; then its migrated form is complete too
      and leaves twins. */
  lemma {:induction false} ConversationIff(solo: Solo, starves: (World, Exchange) -> bool,
                                           complete: (World, Exchange) -> bool, w: World, v: World, xs: seq<Exchange>)
    requires Lawful(solo, starves, complete) && Throughout(solo, complete, w, xs) && Twins(w, v)
    ensures var overtaken := Overtaken(solo, starves, w, xs, w.room < v.room);
            && (Preserved(solo, w, v, xs) <==> !overtaken)
            && (!overtaken ==>
                  && Throughout(solo, complete, v, MigrateAll(xs))
                  && Level(w, v, xs, InTurn(solo, w, xs).world, InTurn(solo, v, MigrateAll(xs)).world))
    decreases xs
  {
    if xs == [] {
      assert MigrateAll(xs) == [];
    } else {
      assert StepLaw(solo, starves, complete, w, v, xs[0]);
      HeadUnfolds(solo, w, v, xs);
      assert MigrateAll(xs)[1..] == MigrateAll(xs[1..]);
      var o, o' := solo(w, xs[0]), solo(v, Migrate(xs[0]));
      if !(starves(w, xs[0]) && (w.room < v.room || LegacyPowerCode(xs[0].code))) && o.error.None? {
        ConversationIff(solo, starves, complete, o.world, o'.world, xs[1..]);
      }
    }
  }

  ghost function Starving(table: Table, h: Handler, env: Env): (World, Exchange) -> bool {
    (w: World, x: Exchange) => Sendable(x) && StarvesAlone(table, h, env, w, x)
  }

  lemma SoloIsLawful(table: Table, h: Handler, env: Env)
    requires HostControl(table)
    ensures Lawful(OnItsOwn(table, h, env), Starving(table, h, env), Completes(table, h, env))
  {
    forall w, v, x
      ensures StepLaw(OnItsOwn(table, h, env), Starving(table, h, env), Completes(table, h, env), w, v, x)
    {
      if Complete(table, h, env, w, x) && Twins(w, v) {
        SoloObeys(table, h, env, w, v, x);
      }
    }
  }

  lemma SoloObeys(table: Table, h: Handler, env: Env, w: World, v: World, x: Exchange)
    requires HostControl(table) && Complete(table, h, env, w, x) && Twins(w, v)
    ensures StepLaw(OnItsOwn(table, h, env), Starving(table, h, env), Completes(table, h, env), w, v, x)
  {
    if StarvesAlone(table, h, env, w, x) {
      StarvedFails(table, h, env, w, x);
    }
    if StarvesAlone(table, h, env, w, x) && (w.room < v.room || LegacyPowerCode(x.code)) {
      OvertakenAlone(table, h, env, w, v, x);
    } else {
      MigratedAlone(table, h, env, w, v, x);
      MigratedStaysComplete(table, h, env, w, v, x);
    }
  }

  lemma {:induction false} MigratedSendable(xs: seq<Exchange>)
    requires AllSendable(xs)
    ensures AllSendable(MigrateAll(xs))
  {
    if xs == [] {
    } else {
      MigrateSendable(xs[0]);
      MigratedSendable(xs[1..]);
    }
  }

  lemma MigrateSendable(x: Exchange)
    requires Sendable(x)
    ensures Sendable(Migrate(x))
  {
  }

  /** Exchange by exchange, migration preserves meaning if and only if the
      legacy conversation is not overtaken. */
  lemma MigrationIff(table: Table, h: Handler, env: Env, w: World, v: World, xs: seq<Exchange>)
    requires HostControl(table) && Twins(w, v) && AllComplete(table, h, env, w, xs)
    ensures var solo := OnItsOwn(table, h, env);
            var overtaken := Overtaken(solo, Starving(table, h, env), w, xs, w.room < v.room);
            && (Preserved(solo, w, v, xs) <==> !overtaken)
            && (!overtaken ==>
                  && AllComplete(table, h, env, v, MigrateAll(xs))
                  && Level(w, v, xs, InTurn(solo, w, xs).world, InTurn(solo, v, MigrateAll(xs)).world))
  {
    SoloIsLawful(table, h, env);
    MigratedSendable(xs);
    ConversationIff(OnItsOwn(table, h, env), Starving(table, h, env), Completes(table, h, env), w, v, xs);
  }

  lemma UnansweredReboot(table: Table, h: Handler, env: Env, w: World, body: Bytes)
    requires HostControl(table) && w.room == 0
    ensures var w1 := Note(w, NodePower(Reboot));
            && Serve(table, h, env, w, 4, body) == Stop(w1, SendError(IoError(env.link.sendKind, None)))
            && Serve(table, h, env, w, 106, [0]) == Continue(w1)
  {
    NodeForms();
  }

  /** A legacy `Reboot` that cannot be answered fails the loop; its node form
      does not, though both make the same call. */
  lemma RebootNeedsRoom(table: Table, h: Handler, env: Env, w: World, body: Bytes)
    requires HostControl(table) && w.room == 0 && |body| + 4 < 0x1_0000_0000
    ensures var w1 := Note(w.(unread := []), NodePower(Reboot));
            && Alone(table, h, env, w, Exchange(4, body, []))
               == Outcome(w1, Some(SendError(IoError(env.link.sendKind, None))))
            && Alone(table, h, env, w, Exchange(106, [0], [])) == Outcome(w1, None)
  {
    UnansweredReboot(table, h, Clean(env), w.(unread := []), body);
    assert Frames([]) == [];
    AloneServes(table, h, env, w, Exchange(4, body, []));
    AloneServes(table, h, env, w, Exchange(106, [0], []));
  }

  // ---- whole streams ----

  /** The send stream runs out in the course of the run. */
  predicate RunStarves(table: Table, h: Handler, env: Env, w: World)
    decreases |w.unread|
  {
    match ReadRequest(env.link, w.unread)
    case NoRequest(_, _) => false
    case Request(code, body, rest) =>
      var w0 := w.(unread := rest);
      || Starves(table, h, env, w0, code, body)
      || match Serve(table, h, env, w0, code, body)
         case Stop(_, _) => false
         case Continue(w1) => RunStarves(table, h, env, w1)
  }

  lemma StepMoves(table: Table, h: Handler, env: Env, w: World, v: World, code: U32, body: Bytes)
    requires Twins(w, v) && (w.room == v.room || !Starves(table, h, env, w, code, body))
    ensures var s, s' := Serve(table, h, env, w, code, body), Serve(table, h, env, v, code, body);
            && TwinSteps(s, s') && (w.room == v.room ==> s.world.room == s'.world.room)
            && s.world.sent == w.sent + Written(w, s) && s'.world.sent == v.sent + Written(w, s)
  {
    ServeMoves(table, h, env, w, v, code, body);
    ServeWritesBlock(table, h, env, w, code, body);
    MovedWrites(w, Serve(table, h, env, w, code, body), v, Serve(table, h, env, v, code, body));
  }

  predicate WentAlike(w: World, run: Outcome, v: World, run': Outcome, added: seq<Frame>) {
    && run.world.trace == run'.world.trace && run.error == run'.error
    && run.world.sent == w.sent + added && run'.world.sent == v.sent + added
  }

  lemma AlikeAfter(w: World, w1: World, v: World, v1: World, block: seq<Frame>, run: Outcome, run': Outcome,
                   later: seq<Frame>)
    requires w1.sent == w.sent + block && v1.sent == v.sent + block
    requires WentAlike(w1, run, v1, run', later)
    ensures WentAlike(w, run, v, run', block + later)
  {
  }

  /** Runs over the same stream from twin worlds go alike. */
  lemma {:induction false} RunMoves(table: Table, h: Handler, env: Env, w: World, v: World)
    returns (added: seq<Frame>)
    requires Twins(w, v) && (w.room == v.room || !RunStarves(table, h, env, w))
    ensures WentAlike(w, Run(table, h, env, w), v, Run(table, h, env, v), added)
    decreases |w.unread|
  {
    added := [];
    match ReadRequest(env.link, w.unread)
    case NoRequest(_, _) =>
    case Request(code, body, rest) =>
      var w0, v0 := w.(unread := rest), v.(unread := rest);
      var s, s' := Serve(table, h, env, w0, code, body), Serve(table, h, env, v0, code, body);
      RunOne(table, h, env, w, code, body, rest);
      RunOne(table, h, env, v, code, body, rest);
      StepMoves(table, h, env, w0, v0, code, body);
      added := Written(w0, s);
      if s.Continue? {
        var later := RunMoves(table, h, env, s.world, s'.world);
        AlikeAfter(w, s.world, v, s'.world, added, Run(table, h, env, s.world), Run(table, h, env, s'.world), later);
        added := added + later;
      }
  }

  function Flatten(blocks: seq<seq<Frame>>): seq<Frame> {
    if blocks == [] then [] else blocks[0] + Flatten(blocks[1..])
  }

  lemma FlattenAfter(sent: seq<Frame>, first: seq<Frame>, rest: seq<seq<Frame>>)
    ensures sent + Flatten([first] + rest) == sent + first + Flatten(rest)
  {
    assert ([first] + rest)[1..] == rest;
  }

  predicate Appends(solo: Solo, complete: (World, Exchange) -> bool, w: World, x: Exchange) {
    complete(w, x) ==> w.sent <= solo(w, x).world.sent
  }

  lemma {:induction false} BlocksAreSent(solo: Solo, complete: (World, Exchange) -> bool, w: World, xs: seq<Exchange>)
    requires forall v, x :: Appends(solo, complete, v, x)
    requires Throughout(solo, complete, w, xs)
    ensures InTurn(solo, w, xs).world.sent == w.sent + Flatten(BlocksInTurn(solo, w, xs))
    decreases xs
  {
    if xs == [] {
      assert w.sent + Flatten([]) == w.sent;
    } else {
      assert Appends(solo, complete, w, xs[0]);
      var o := solo(w, xs[0]);
      var first := Written(w, Continue(o.world));
      if o.error.None? {
        BlocksAreSent(solo, complete, o.world, xs[1..]);
        FlattenAfter(w.sent, first, BlocksInTurn(solo, o.world, xs[1..]));
      } else {
        FlattenAfter(w.sent, first, []);
      }
    }
  }

  lemma SoloAppends(table: Table, h: Handler, env: Env)
    ensures forall w, x :: Appends(OnItsOwn(table, h, env), Completes(table, h, env), w, x)
  {
    forall w, x
      ensures Appends(OnItsOwn(table, h, env), Completes(table, h, env), w, x)
    {
      if Complete(table, h, env, w, x) {
        AloneAppends(table, h, env, w, x);
      }
    }
  }

  lemma AloneAppends(table: Table, h: Handler, env: Env, w: World, x: Exchange)
    requires Complete(table, h, env, w, x)
    ensures w.sent <= Alone(table, h, env, w, x).world.sent
  {
    AloneCame(table, h, env, w, x);
    ServeWritesBlock(table, h, Clean(env), w.(unread := Frames(x.chunks)), x.code, x.body);
  }

  /** A run over a conversation and more: it sends the blocks of the
      exchanges, and then is the run over the rest, if they all succeed. */
  predicate Carries(w: World, each: Outcome, blocks: seq<seq<Frame>>, run: Outcome, rest: Outcome) {
    && each.world.sent == w.sent + Flatten(blocks)
    && (each.error.None? ==> run == rest)
    && (each.error.Some? ==>
          run.error == each.error && run.world.sent == each.world.sent && run.world.trace == each.world.trace)
  }

  /** The runs make the same calls, end the same way and send the given
      blocks and then the same frames. */
  predicate SameMeaning(w: World, flat: Outcome, flatBlocks: seq<seq<Frame>>, node: Outcome,
                        nodeBlocks: seq<seq<Frame>>, tail: seq<Frame>) {
    && flat.world.trace == node.world.trace && flat.error == node.error
    && flat.world.sent == w.sent + Flatten(flatBlocks) + tail
    && node.world.sent == w.sent + Flatten(nodeBlocks) + tail
  }

  lemma RunsMeanTheSame(w: World, each: Outcome, flatBlocks: seq<seq<Frame>>, flat: Outcome, rest: Outcome,
                        each': Outcome, nodeBlocks: seq<seq<Frame>>, node: Outcome, rest': Outcome, tail: seq<Frame>)
    requires Carries(w, each, flatBlocks, flat, rest) && Carries(w, each', nodeBlocks, node, rest')
    requires each.error == each'.error && each.world.trace == each'.world.trace
    requires if each.error.None? then WentAlike(each.world, rest, each'.world, rest', tail) else tail == []
    ensures SameMeaning(w, flat, flatBlocks, node, nodeBlocks, tail)
  {
  }

  /** The conversation in front of any bytes: what its exchanges send in turn,
      then what the run over those bytes sends. */
  lemma StreamSends(table: Table, h: Handler, env: Env, w: World, xs: seq<Exchange>, more: Bytes)
    requires AllComplete(table, h, env, w, xs)
    ensures var solo := OnItsOwn(table, h, env);
            var each := InTurn(solo, w, xs);
            Carries(w, each, BlocksInTurn(solo, w, xs), Run(table, h, env, w.(unread := StreamBytes(xs) + more)),
                    Run(table, h, env, each.world.(unread := more)))
  {
    LoopAlignment(table, h, env, w, xs, more);
    SoloAppends(table, h, env);
    BlocksAreSent(OnItsOwn(table, h, env), Completes(table, h, env), w, xs);
  }

  /** Migration can change a run only by giving it room: the legacy requests
      are overtaken, or what follows them starves after a power request. */
  ghost predicate RunOvertaken(table: Table, h: Handler, env: Env, w: World, xs: seq<Exchange>, more: Bytes) {
    var solo := OnItsOwn(table, h, env);
    var each := InTurn(solo, w, xs);
    || Overtaken(solo, Starving(table, h, env), w, xs, false)
    || (&& each.error.None? && RunStarves(table, h, env, each.world.(unread := more))
        && exists x :: x in xs && LegacyPowerCode(x.code))
  }

  /** Migration preserves meaning: over a whole stream, whatever follows the
      rewritten requests and however it ends, the handler sees the same calls,
      the loop ends the same way, and the frames are the same up to the fixed
      translation, in which an immediate power operation loses its frame. */
  lemma MigrationPreservesMeaning(table: Table, h: Handler, env: Env, w: World, xs: seq<Exchange>, more: Bytes)
    returns (tail: seq<Frame>)
    requires HostControl(table)
    requires AllComplete(table, h, env, w, xs) && !RunOvertaken(table, h, env, w, xs, more)
    ensures AllSendable(MigrateAll(xs))
    ensures var solo := OnItsOwn(table, h, env);
            var flat := Run(table, h, env, w.(unread := StreamBytes(xs) + more));
            var node := Run(table, h, env, w.(unread := StreamBytes(MigrateAll(xs)) + more));
            var flatBlocks, nodeBlocks := BlocksInTurn(solo, w, xs), BlocksInTurn(solo, w, MigrateAll(xs));
            SameMeaning(w, flat, flatBlocks, node, nodeBlocks, tail) && AllTranslate(xs, flatBlocks, nodeBlocks)
  {
    var ys, solo := MigrateAll(xs), OnItsOwn(table, h, env);
    MigrationIff(table, h, env, w, w, xs);
    StreamSends(table, h, env, w, xs, more);
    StreamSends(table, h, env, w, ys, more);
    tail := TailMoves(table, h, env, w, xs, more);
    var each, each' := InTurn(solo, w, xs), InTurn(solo, w, ys);
    RunsMeanTheSame(w,
      each, BlocksInTurn(solo, w, xs),
      Run(table, h, env, w.(unread := StreamBytes(xs) + more)), Run(table, h, env, each.world.(unread := more)),
      each', BlocksInTurn(solo, w, ys),
      Run(table, h, env, w.(unread := StreamBytes(ys) + more)), Run(table, h, env, each'.world.(unread := more)),
      tail);
  }

  lemma TailMoves(table: Table, h: Handler, env: Env, w: World, xs: seq<Exchange>, more: Bytes)
    returns (tail: seq<Frame>)
    requires HostControl(table)
    requires AllComplete(table, h, env, w, xs) && !RunOvertaken(table, h, env, w, xs, more)
    ensures var solo := OnItsOwn(table, h, env);
            var each, each' := InTurn(solo, w, xs), InTurn(solo, w, MigrateAll(xs));
            if each.error.None? then
              WentAlike(each.world, Run(table, h, env, each.world.(unread := more)),
                        each'.world, Run(table, h, env, each'.world.(unread := more)), tail)
            else tail == []
  {
    var solo := OnItsOwn(table, h, env);
    MigrationIff(table, h, env, w, w, xs);
    var each, each' := InTurn(solo, w, xs), InTurn(solo, w, MigrateAll(xs));
    tail := [];
    if each.error.None? {
      tail := RunMoves(table, h, env, each.world.(unread := more), each'.world.(unread := more));
    }
  }

  /** The table of `handle` is one the theorem is about. */
  lemma FullRouteMigrates()
    ensures HostControl(FullRoute)
  {
  }

  // ---- agents that implement only the flat methods ----

  /** The flat methods the default node methods fall back to. */
  datatype FlatMethods = FlatMethods(
    reboot: Trace -> Result<()>,
    shutdown: Trace -> Result<()>,
    processList: Trace -> Result<Bytes>,
    resourceUsage: Trace -> Result<(Bytes, Bytes)>)

  /** The default `node_power`. */
  function DefaultPower(f: FlatMethods, op: PowerOp, t: Trace): Result<()> {
    match op
    case Reboot => f.reboot(t)
    case Shutdown => f.shutdown(t)
    case _ => Err(Text("not supported"))
  }

  /** The default `node_observation`. */
  function DefaultObservation(f: FlatMethods, query: Query, t: Trace): Result<Observation> {
    match query
    case ProcessList => (match f.processList(t) case Ok(p) => Ok(Processes(p)) case Err(m) => Err(m))
    case ResourceUsage => (match f.resourceUsage(t) case Ok((h, u)) => Ok(Usage(h, u)) case Err(m) => Err(m))
    case Uptime => Err(Text("not supported"))
  }

  /** The grouped method a legacy code calls. */
  function GroupedCall(code: U32): Call {
    match code
    case 4 => NodePower(Reboot)
    case 21 => NodePower(Shutdown)
    case 7 => NodeObservation(ResourceUsage)
    case _ => NodeObservation(ProcessList)
  }

  predicate LegacyCode(code: U32) {
    LegacyPowerCode(code) || code == 7 || code == 19
  }

  /** The frame the flat method of a legacy code would be answered with, were
      it called directly. */
  function DirectAnswer(f: FlatMethods, code: U32, t: Trace): Frame {
    match code
    case 4 => (match f.reboot(t) case Ok(_) => Ok(Unit) case Err(m) => Err(m))
    case 21 => (match f.shutdown(t) case Ok(_) => Ok(Unit) case Err(m) => Err(m))
    case 7 => (match f.resourceUsage(t) case Ok((n, u)) => Ok(FlatUsage(n, u)) case Err(m) => Err(m))
    case _ => (match f.processList(t) case Ok(p) => Ok(FlatProcesses(p)) case Err(m) => Err(m))
  }

  /** The grouped method answers as its default would; or it answers with an
      observation of another kind, and the flat method fails with the very
      text that reports that. */
  predicate AnswersAsDefault(h: Program, f: FlatMethods, call: Call, t: Trace) {
    match call
    case NodePower(op) => h.power(t) == DefaultPower(f, op, t)
    case NodeObservation(query) =>
      var default := DefaultObservation(f, query, t);
      || h.observation(t) == default
      || (&& h.observation(t).Ok? && default == Err(UnexpectedObservation(h.observation(t).value))
          && !(query.ResourceUsage? && h.observation(t).value.Usage?)
          && !(query.ProcessList? && h.observation(t).value.Processes?))
    case _ => false
  }

  /** A legacy request calls the grouped method and nothing else, and is
      answered as its flat method would answer if and only if that method
      answers as its default would. */
  lemma DetourIff(h: Handler, f: FlatMethods, env: Env, w: World, code: U32, body: Bytes)
    requires LegacyCode(code) && w.room > 0
    ensures var t := w.trace + [Called(GroupedCall(code))];
            var s := Serve(FullRoute, h, env, w, code, body);
            && s.world.trace == t
            && (s.world.sent == w.sent + [DirectAnswer(f, code, t)]
                <==> AnswersAsDefault(h, f, GroupedCall(code), t))
  {
    var t := w.trace + [Called(GroupedCall(code))];
    if LegacyPowerCode(code) {
      PowerAnswers(h, env, w, code, body);
      LastFrame(w.sent, FlatPowerFrame(h.power(t)), DirectAnswer(f, code, t));
      SameFlatPower(h.power(t), DefaultPower(f, GroupedCall(code).op, t));
    } else {
      ObservationAnswers(h, env, w, code, body);
      LastFrame(w.sent, FlatObservationFrame(GroupedCall(code).query, h.observation(t)), DirectAnswer(f, code, t));
      SameFlatObservation(GroupedCall(code).query, h.observation(t), DefaultObservation(f, GroupedCall(code).query, t));
    }
  }

  lemma LastFrame(sent: seq<Frame>, a: Frame, b: Frame)
    ensures sent + [a] == sent + [b] <==> a == b
  {
    assert (sent + [a])[|sent|] == a && (sent + [b])[|sent|] == b;
  }

  lemma PowerAnswers(h: Handler, env: Env, w: World, code: U32, body: Bytes)
    requires LegacyPowerCode(code) && w.room > 0
    ensures var t := w.trace + [Called(GroupedCall(code))];
            var s := Serve(FullRoute, h, env, w, code, body);
            s.world.trace == t && s.world.sent == w.sent + [FlatPowerFrame(h.power(t))]
  {
  }

  lemma ObservationAnswers(h: Handler, env: Env, w: World, code: U32, body: Bytes)
    requires (code == 7 || code == 19) && w.room > 0
    ensures var t := w.trace + [Called(GroupedCall(code))];
            var s := Serve(FullRoute, h, env, w, code, body);
            && s.world.trace == t
            && s.world.sent == w.sent + [FlatObservationFrame(GroupedCall(code).query, h.observation(t))]
  {
  }

  lemma SameFlatPower(got: Result<()>, default: Result<()>)
    ensures FlatPowerFrame(got) == FlatPowerFrame(default) <==> got == default
  {
    if got.Ok? && default.Ok? {
      assert got.value == () == default.value;
    }
  }

  lemma SameFlatObservation(query: Query, got: Result<Observation>, default: Result<Observation>)
    requires query.ResourceUsage? || query.ProcessList?
    requires default.Ok? ==> if query.ResourceUsage? then default.value.Usage? else default.value.Processes?
    ensures FlatObservationFrame(query, got) == FlatObservationFrame(query, default)
            <==> || got == default
                 || (&& got.Ok? && default == Err(UnexpectedObservation(got.value))
                     && !(query.ResourceUsage? && got.value.Usage?)
                     && !(query.ProcessList? && got.value.Processes?))
  {
  }

  /** An agent that implements only the flat methods. */
  ghost predicate KeepsDefaults(h: Program, f: FlatMethods) {
    forall t: Trace, call: Call :: DefaultsAt(h, f, t, call)
  }

  predicate DefaultsAt(h: Program, f: FlatMethods, t: Trace, call: Call) {
    t != [] && t[|t| - 1] == Called(call) ==>
      match call
      case NodePower(op) => h.power(t) == DefaultPower(f, op, t)
      case NodeObservation(query) => h.observation(t) == DefaultObservation(f, query, t)
      case _ => true
  }

  /** A legacy manager gets from such an agent exactly what the flat method
      returned: the detour through the node method and back is the identity,
      and never an unexpected response. */
  lemma LegacyDetourIsIdentity(h: Handler, f: FlatMethods, env: Env, w: World, code: U32, body: Bytes)
    requires KeepsDefaults(h, f) && LegacyCode(code) && w.room > 0
    ensures Serve(FullRoute, h, env, w, code, body).world.sent
         == w.sent + [DirectAnswer(f, code, w.trace + [Called(GroupedCall(code))])]
  {
    assert DefaultsAt(h, f, w.trace + [Called(GroupedCall(code))], GroupedCall(code));
    DetourIff(h, f, env, w, code, body);
  }

  /** Such an agent supports none of what the flat methods cannot do. */
  lemma DefaultsRefuse(h: Handler, f: FlatMethods, env: Env, w: World)
    requires KeepsDefaults(h, f) && w.room > 0
    ensures Serve(FullRoute, h, env, w, 106, [2]).world.sent == w.sent + [Err(Text("not supported"))]
    ensures Serve(FullRoute, h, env, w, 106, [3]).world.sent == w.sent + [Err(Text("not supported"))]
    ensures Serve(FullRoute, h, env, w, 107, [2]).world.sent == w.sent + [Err(Text("not supported"))]
  {
    GracefulRefused(FullRoute, h, f, env, w, 106, GracefulReboot, [2]);
    GracefulRefused(FullRoute, h, f, env, w, 106, GracefulShutdown, [3]);
    UptimeRefused(FullRoute, h, f, env, w, 107, [2]);
  }

  lemma GracefulRefused(table: Table, h: Handler, f: FlatMethods, env: Env, w: World, code: U32, op: PowerOp,
                        body: Bytes)
    requires KeepsDefaults(h, f) && w.room > 0 && table(code).Power?
    requires DecodePower(body) == Some(op) && (op.GracefulReboot? || op.GracefulShutdown?)
    ensures Serve(table, h, env, w, code, body).world.sent == w.sent + [Err(Text("not supported"))]
  {
    assert DefaultsAt(h, f, w.trace + [Called(NodePower(op))], NodePower(op));
  }

  lemma UptimeRefused(table: Table, h: Handler, f: FlatMethods, env: Env, w: World, code: U32, body: Bytes)
    requires KeepsDefaults(h, f) && w.room > 0 && table(code).Observe? && DecodeQuery(body) == Some(Uptime)
    ensures Serve(table, h, env, w, code, body).world.sent == w.sent + [Err(Text("not supported"))]
  {
    assert DefaultsAt(h, f, w.trace + [Called(NodeObservation(Uptime))], NodeObservation(Uptime));
  }

  /** An agent that overrides `node_power` answers a legacy `Reboot` with it,
      whatever its flat `reboot` would say. */
  lemma OverrideIsSeen(p: Handler, env: Env, w: World, body: Bytes) returns (h: Handler, f: FlatMethods)
    requires w.room > 0
    ensures Serve(FullRoute, h, env, w, 4, body).world.sent
         != w.sent + [DirectAnswer(f, 4, w.trace + [Called(NodePower(Reboot))])]
  {
    var q := p.(power := t => Err(Text("not supported")));
    forall t: Trace, c: ChunkResult
      ensures Tires(q, t, c)
    {
      assert Tires(p, t, c);
    }
    h := q;
    f := FlatMethods(t => Ok(()), t => Ok(()), t => Ok([]), t => Ok(([], [])));
    DetourIff(h, f, env, w, 4, body);
  }
}
