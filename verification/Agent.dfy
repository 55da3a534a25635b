/** The agent's request loop: what `handle` and `handle_node` do with a
    stream of framed requests, as functions of the whole stream.

    A handler is any deterministic program: each of its answers is a function
    of everything it has seen so far, which is the trace of its calls and of
    the chunks its install routine has read. */
module Agent {
  import opened Wire
  import opened Payload
  import opened Errors
  import Codecs

  // ---- requests, calls and answers ----

  datatype PowerOp = Reboot | Shutdown | GracefulReboot | GracefulShutdown

  /** Immediate power operations are fire-and-forget. */
  predicate ExpectsResponse(op: PowerOp) {
    op.GracefulReboot? || op.GracefulShutdown?
  }

  datatype Query = ProcessList | ResourceUsage | Uptime

  datatype Observation =
    | Processes(processes: Bytes)
    | Usage(hostname: Bytes, usage: Bytes)
    | UptimeOf(uptime: Bytes)

  datatype PackageRequest =
    | Install(size: U64, details: Bytes)
    | UnaryPackage(details: Bytes)

  datatype Preflight = Proceed | Declined(reason: Bytes)

  /** The text of an error frame; each format string of the source is a
      constructor of its own. */
  datatype Message =
    | Text(text: string)
    | UnknownCode(code: U32)
    | UndecodableArgs(code: U32)
    | PayloadNotReceived(cause: ReadError)
    | UnexpectedObservation(observed: Observation)

  datatype Result<+T> = Ok(value: T) | Err(message: Message)

  datatype Arguments = NoArguments | Arguments(value: Bytes)

  /** A handler method called with its arguments.  The methods of the flat
      and node families that differ only in their types are named by the
      request code they serve. */
  datatype Call =
    | Unary(code: U32, args: Arguments)
    | NodePower(op: PowerOp)
    | NodeObservation(query: Query)
    | NodePackage(package: PackageRequest)
    | InstallPreflight(package: PackageRequest)
    | NodePackageInstall(package: PackageRequest)

  /** What a handler sees: a call, or the result of a chunk it read. */
  datatype Event = Called(call: Call) | Read(chunk: ChunkResult)

  type Trace = seq<Event>

  /** What an install routine does next. */
  datatype Move = ReadOn | Return(result: Result<Bytes>)

  datatype Program = Program(
    unary: Trace -> Result<Bytes>,
    power: Trace -> Result<()>,
    observation: Trace -> Result<Observation>,
    preflight: Trace -> Result<Preflight>,
    install: Trace -> Move,
    patience: Trace -> nat)

  /** An install routine returns once it has had enough of reads that bring
      nothing new: `patience` falls with each of them. */
  ghost predicate Returns(p: Program) {
    forall t: Trace, c: ChunkResult :: Tires(p, t, c)
  }

  predicate Tires(p: Program, t: Trace, c: ChunkResult) {
    p.install(t).ReadOn? && !c.Chunk? ==> p.patience(t + [Read(c)]) < p.patience(t)
  }

  /** Any handler whose install routine returns. */
  type Handler = p: Program | Returns(p)
    ghost witness Program(
      (t: Trace) => Err(Text("not supported")),
      (t: Trace) => Err(Text("not supported")),
      (t: Trace) => Err(Text("not supported")),
      (t: Trace) => Err(Text("not supported")),
      (t: Trace) => Return(Err(Text("not supported"))),
      (t: Trace) => 0)

  // ---- the wire ----

  /** The body of a successful response. */
  datatype Body =
    | Unit
    | Value(value: Bytes)
    | Initiated
    | Observed(observation: Observation)
    | FlatUsage(hostname: Bytes, usage: Bytes)
    | FlatProcesses(processes: Bytes)
    | Verdict(verdict: Preflight)

  /** A response frame. */
  type Frame = Result<Body>

  function ValueFrame(r: Result<Bytes>): Frame {
    match r case Ok(v) => Ok(Value(v)) case Err(m) => Err(m)
  }

  function VerdictFrame(r: Result<Preflight>): Frame {
    match r case Ok(v) => Ok(Verdict(v)) case Err(m) => Err(m)
  }

  function PowerFrame(r: Result<()>): Frame {
    match r case Ok(_) => Ok(Initiated) case Err(m) => Err(m)
  }

  function ObservationFrame(r: Result<Observation>): Frame {
    match r case Ok(o) => Ok(Observed(o)) case Err(m) => Err(m)
  }

  /** The flat answer to a legacy `Reboot` or `Shutdown`. */
  function FlatPowerFrame(r: Result<()>): Frame {
    match r case Ok(_) => Ok(Unit) case Err(m) => Err(m)
  }

  /** The flat answer to a legacy `ResourceUsage` or `ProcessList`: the typed
      observation unpacked, or an error if it is of another kind. */
  function FlatObservationFrame(query: Query, r: Result<Observation>): Frame {
    match r
    case Err(m) => Err(m)
    case Ok(o) =>
      if query.ResourceUsage? && o.Usage? then Ok(FlatUsage(o.hostname, o.usage))
      else if query.ProcessList? && o.Processes? then Ok(FlatProcesses(o.processes))
      else Err(UnexpectedObservation(o))
  }

  /** What the loops take from outside: the transport's errors and the
      argument decoders. */
  datatype Env = Env(
    link: Link,
    parse: (U32, Bytes) -> Option<Bytes>,
    package: Bytes -> Option<PackageRequest>)

  /** The variant index of a unit-only enumeration. */
  function VariantIndex(b: Bytes): Option<nat> {
    match Codecs.DecodeVarInt(4, b)
    case Decoded(n, _) => Some(n)
    case Malformed => None
  }

  function DecodePower(b: Bytes): Option<PowerOp> {
    match VariantIndex(b)
    case Some(0) => Some(Reboot)
    case Some(1) => Some(Shutdown)
    case Some(2) => Some(GracefulReboot)
    case Some(3) => Some(GracefulShutdown)
    case _ => None
  }

  function DecodeQuery(b: Bytes): Option<Query> {
    match VariantIndex(b)
    case Some(0) => Some(ProcessList)
    case Some(1) => Some(ResourceUsage)
    case Some(2) => Some(Uptime)
    case _ => None
  }

  // ---- routing ----

  /** How a request code is served. */
  datatype Route =
    | Plain
    | Decoded(classify: Option<ProtocolErrorKind>)
    | RawBody
    | Echo
    | LegacyPower(op: PowerOp)
    | LegacyObservation(query: Query)
    | Power
    | Observe
    | Package
    | Unknown

  /** How an entry point routes every code. */
  type Table = U32 -> Route

  /** The table of `handle`. */
  function FullRoute(code: U32): Route {
    match code
    case 0 => Decoded(None)  // TrustedDomainList
    case 1 => Plain  // DnsStart
    case 2 => Plain  // DnsStop
    case 4 => LegacyPower(Reboot)
    case 5 => Decoded(Some(InvalidArgs))  // ReloadTi
    case 6 => Plain  // ReloadConfig
    case 7 => LegacyObservation(ResourceUsage)
    case 8 => Decoded(None)  // TorExitNodeList
    case 9 => Decoded(None)  // SamplingPolicyList
    case 10 => Decoded(None)  // ReloadFilterRule
    case 12 => Plain  // UpdateConfig
    case 13 => Decoded(None)  // DeleteSamplingPolicy
    case 14 => Decoded(None)  // InternalNetworkList
    case 15 => Decoded(None)  // Allowlist
    case 16 => Decoded(None)  // Blocklist
    case 17 => Echo
    case 18 => Decoded(None)  // TrustedUserAgentList
    case 19 => LegacyObservation(ProcessList)
    case 20 => RawBody  // SemiSupervisedModels
    case 21 => LegacyPower(Shutdown)
    case 22 => Decoded(None)  // DeleteCustomerData
    case 23 => Decoded(None)  // TrainModel
    case 24 => Decoded(None)  // CloneModel
    case 25 => Decoded(None)  // CancelRun
    case 26 => Decoded(None)  // RunDetectorOnce
    case 100 => Decoded(None)  // NodeService
    case 101 => Decoded(None)  // NodeNetworkInterface
    case 102 => Decoded(None)  // NodeHostname
    case 103 => Decoded(None)  // NodeTimeSync
    case 104 => Decoded(None)  // NodeLogging
    case 105 => Decoded(None)  // NodeRemoteAccess
    case 106 => Power
    case 107 => Observe
    case 108 => Decoded(None)  // NodeVersion
    case 109 => Package
    case 110 => Decoded(None)  // NodeEnroll
    case _ => Unknown
  }

  /** The table of `handle_node`. */
  function NodeRoute(code: U32): Route {
    if code == 106 then Power
    else if code == 107 then Observe
    else if code == 109 then Package
    else if 100 <= code <= 110 then Decoded(None)
    else Unknown
  }

  predicate NodeFamily(code: U32) {
    100 <= code <= 110
  }

  /** The two separately written tables agree exactly on the node family and
      on codes neither assigns. */
  lemma RoutesAgree(code: U32)
    ensures FullRoute(code) == NodeRoute(code) <==> NodeFamily(code) || FullRoute(code).Unknown?
    ensures NodeFamily(code) <==> !NodeRoute(code).Unknown?
  {
  }

  // ---- serving one request ----

  /** Everything a loop reads and writes. */
  datatype World = World(unread: Bytes, sent: seq<Frame>, room: nat, trace: Trace)

  datatype Step = Continue(world: World) | Stop(world: World, error: HandlerError)

  /** Sends one frame. */
  function Respond(env: Env, w: World, f: Frame): Step {
    if w.room == 0 then Stop(w, SendError(IoError(env.link.sendKind, None)))
    else Continue(w.(sent := w.sent + [f], room := w.room - 1))
  }

  function Note(w: World, call: Call): World {
    w.(trace := w.trace + [Called(call)])
  }

  /** Answers undecodable arguments: one error frame if it can be sent, then
      the decode error. */
  function Undecodable(env: Env, w: World, code: U32, classify: Option<ProtocolErrorKind>): Step {
    var e := IoError(InvalidData, None);
    Stop(Respond(env, w, Err(UndecodableArgs(code))).world,
         RecvError(match classify case Some(kind) => FromIo(kind, e) case None => e))
  }

  function CallUnary(h: Handler, env: Env, w: World, call: Call): Step {
    var w1 := Note(w, call);
    Respond(env, w1, ValueFrame(h.unary(w1.trace)))
  }

  datatype InstallRun = InstallRun(trace: Trace, reader: Reader, result: Result<Bytes>)

  /** Runs an install routine against a reader until it returns. */
  function RunInstall(h: Handler, end: IoKind, t: Trace, r: Reader): (run: InstallRun)
    ensures |run.reader.unread| <= |r.unread|
    decreases |r.unread|, h.patience(t)
  {
    match h.install(t)
    case Return(result) => InstallRun(t, r, result)
    case ReadOn =>
      var c := ChunkStep(r, end);
      assert Tires(h, t, c.outcome);
      RunInstall(h, end, t + [Read(c.outcome)], c.reader)
  }

  /** The terminal frame's content: the routine's own result, unless it
      claimed success over a payload that did not fully arrive. */
  function Terminal(result: Result<Bytes>, drained: Option<ReadError>): Result<Bytes> {
    match (result, drained)
    case (_, None) => result
    case (Err(_), Some(_)) => result
    case (Ok(_), Some(e)) => Err(PayloadNotReceived(e))
  }

  /** The streaming half of an install, after a `Proceed` verdict. */
  function Stream(h: Handler, env: Env, w: World, req: PackageRequest): (s: Step)
    requires req.Install?
    ensures |s.world.unread| <= |w.unread|
  {
    var w1 := Note(w, NodePackageInstall(req));
    var run := RunInstall(h, env.link.end, w1.trace, Reader(w1.unread, req.size, false));
    var d := Drain(run.reader, env.link.end);
    Respond(env, w1.(unread := d.reader.unread, trace := run.trace),
            ValueFrame(Terminal(run.result, d.error)))
  }

  function DispatchPackage(h: Handler, env: Env, w: World, req: PackageRequest): (s: Step)
    ensures |s.world.unread| <= |w.unread|
  {
    match req
    case UnaryPackage(_) => CallUnary(h, env, w, NodePackage(req))
    case Install(_, _) =>
      var w1 := Note(w, InstallPreflight(req));
      var verdict := h.preflight(w1.trace);
      match Respond(env, w1, VerdictFrame(verdict))
      case Stop(w2, e) => Stop(w2, e)
      case Continue(w2) => if verdict == Ok(Proceed) then Stream(h, env, w2, req) else Continue(w2)
  }

  /** Serves the request `code`, `body` whose frame has been read. */
  function Serve(table: Table, h: Handler, env: Env, w: World, code: U32, body: Bytes): (s: Step)
    ensures |s.world.unread| <= |w.unread|
  {
    match table(code)
    case Plain => CallUnary(h, env, w, Unary(code, NoArguments))
    case RawBody => CallUnary(h, env, w, Unary(code, Arguments(body)))
    case Decoded(classify) =>
      (match env.parse(code, body)
       case None => Undecodable(env, w, code, classify)
       case Some(args) => CallUnary(h, env, w, Unary(code, Arguments(args))))
    case Echo => Respond(env, w, Ok(Unit))
    case LegacyPower(op) =>
      var w1 := Note(w, NodePower(op));
      Respond(env, w1, FlatPowerFrame(h.power(w1.trace)))
    case LegacyObservation(query) =>
      var w1 := Note(w, NodeObservation(query));
      Respond(env, w1, FlatObservationFrame(query, h.observation(w1.trace)))
    case Power =>
      (match DecodePower(body)
       case None => Undecodable(env, w, code, Some(InvalidArgs))
       case Some(op) =>
         var w1 := Note(w, NodePower(op));
         if ExpectsResponse(op) then Respond(env, w1, PowerFrame(h.power(w1.trace)))
         else Continue(w1))
    case Observe =>
      (match DecodeQuery(body)
       case None => Undecodable(env, w, code, None)
       case Some(query) =>
         var w1 := Note(w, NodeObservation(query));
         Respond(env, w1, ObservationFrame(h.observation(w1.trace))))
    case Package =>
      (match env.package(body)
       case None => Undecodable(env, w, code, None)
       case Some(req) => DispatchPackage(h, env, w, req))
    case Unknown => Respond(env, w, Err(UnknownCode(code)))
  }

  /** Serving depends on the entry point only through its route. */
  lemma ServeAgrees(h: Handler, env: Env, w: World, code: U32, body: Bytes)
    requires FullRoute(code) == NodeRoute(code)
    ensures Serve(FullRoute, h, env, w, code, body) == Serve(NodeRoute, h, env, w, code, body)
  {
  }

  // ---- whole runs ----

  datatype Outcome = Outcome(world: World, error: Option<HandlerError>)

  /** Serves requests until the stream ends or an error stops the loop. */
  function Run(table: Table, h: Handler, env: Env, w: World): Outcome
    decreases |w.unread|
  {
    match ReadRequest(env.link, w.unread)
    case NoRequest(kind, rest) =>
      Outcome(w.(unread := rest),
              if kind.UnexpectedEof? then None else Some(RecvError(IoError(kind, None))))
    case Request(code, body, rest) =>
      match Serve(table, h, env, w.(unread := rest), code, body)
      case Stop(w1, e) => Outcome(w1, Some(e))
      case Continue(w1) => Run(table, h, env, w1)
  }
}
