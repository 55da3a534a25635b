/** The handshake: an agent introduces itself in one frame, the manager
    accepts it or names the version range it requires. */
module Handshake {
  import opened Wire
  import opened Codecs
  import opened Bincode
  import opened ConditionalTail
  import opened AgentInfoCodec

  /** The version arithmetic the manager relies on, taken as given. */
  datatype Semver<!V, !R> = Semver(
    parseVersion: Text -> Option<V>,
    parseReq: Text -> Option<R>,
    matches: (R, V) -> bool,
    atMost: (V, V) -> bool,
    showVersion: V -> Text,
    showReq: R -> Text)

  datatype ManagerResult =
    | Accepted(info: AgentInfo)
    | InvalidVersionArgument
    | InvalidMessage
    | ConnectionClosed
    | ReadError(kind: IoKind)
    | IncompatibleProtocol(version: Text, range: Text)
    | MessageTooLarge
    | WriteError

  /** What the manager concludes and the frame it answers with, if any. */
  datatype Verdict = Verdict(result: ManagerResult, reply: Option<Bytes>)

  /** The reply: `Ok` or `Err` with a string. */
  function ReplyCodec(): Codec<Either<Text, Text>> {
    OneOf(TextCodec(), TextCodec())
  }

  /** How a failing receive is reported. */
  function ReceiveError(kind: IoKind): ManagerResult {
    match kind
    case InvalidData => InvalidMessage
    case UnexpectedEof => ConnectionClosed
    case _ => ReadError(kind)
  }

  /** The accepted range as both sides are told it. */
  function RangeText<V, R>(sem: Semver<V, R>, req: R, highest: V): Text {
    sem.showReq(req) + [0x2C, 0x20, 0x3C, 0x3D] + sem.showVersion(highest)  // ", <="
  }

  predicate Speaks<V, R>(sem: Semver<V, R>, req: R, highest: V, version: Text) {
    match sem.parseVersion(version)
    case None => false
    case Some(v) => sem.matches(req, v) && sem.atMost(v, highest)
  }

  function AtAddress(info: AgentInfo, addr: SocketAddr): AgentInfo {
    info.(base := info.base.(addr := addr))
  }

  /** The manager's verdict on what it received, once its own arguments have
      been parsed. */
  function Judge<V, R>(sem: Semver<V, R>, req: R, highest: V, addr: SocketAddr, received: Received): Verdict {
    match received
    case Lost(kind) => Verdict(ReceiveError(kind), None)
    case Got(payload) =>
      match DecodeInfo(payload)
      case BaseError => Verdict(InvalidMessage, None)
      case TailError(_) => Verdict(InvalidMessage, None)
      case Info(info) =>
        if Speaks(sem, req, highest, info.base.protocolVersion) then
          Verdict(Accepted(AtAddress(info, addr)), Some(ReplyCodec().encode(First(sem.showVersion(highest)))))
        else
          var range := RangeText(sem, req, highest);
          Verdict(IncompatibleProtocol(info.base.protocolVersion, range), Some(ReplyCodec().encode(Second(range))))
  }

  datatype AgentResult = Connected | Refused(range: Text) | Broken(kind: IoKind)

  /** What the agent makes of the manager's reply. */
  function Conclude(received: Received): AgentResult {
    match received
    case Lost(kind) => Broken(kind)
    case Got(payload) =>
      match ReplyCodec().decode(payload)
      case Malformed => Broken(InvalidData)
      case Decoded(First(_), _) => Connected
      case Decoded(Second(range), _) => Refused(range)
  }

  // ---- both sides ----

  lemma ReplyArrives(reply: Either<Text, Text>)
    requires ReplyCodec().valid(reply)
    ensures Conclude(Got(ReplyCodec().encode(reply)))
         == match reply case First(_) => Connected case Second(range) => Refused(range)
  {
    TextLawful();
    OneOfLawful(TextCodec(), TextCodec());
    assert RoundTrips(ReplyCodec(), reply);
  }

  lemma AcceptanceArrives(text: Text)
    requires IsText(text)
    ensures Conclude(Got(ReplyCodec().encode(First(text)))) == Connected
  {
    assert ReplyCodec().valid(First(text));
    ReplyArrives(First(text));
  }

  lemma RefusalArrives(range: Text)
    requires IsText(range)
    ensures Conclude(Got(ReplyCodec().encode(Second(range)))) == Refused(range)
  {
    assert ReplyCodec().valid(Second(range));
    ReplyArrives(Second(range));
  }

  /** The manager holds what the agent sent, except for the address. */
  predicate HoldsAt(held: AgentInfo, info: AgentInfo, addr: SocketAddr) {
    && held.base.agentName == info.base.agentName && held.base.agentVersion == info.base.agentVersion
    && held.base.protocolVersion == info.base.protocolVersion && held.base.status == info.base.status
    && held.base.addr == addr
    && held.capabilities == info.capabilities && held.activeTrustEpoch == info.activeTrustEpoch
    && held.manifestFormats == info.manifestFormats
    && held.provisioningFingerprint == info.provisioningFingerprint && held.auditHealth == info.auditHealth
  }

  /** The two sides agree on an introduction read as `info`.  If its version
      parses, meets the requirement and is at most the highest, the manager
      holds it with the address replaced and the agent is connected; otherwise
      both hold the requirement, a comma, and the highest version as an upper
      bound. */
  predicate Agreed<V, R>(sem: Semver<V, R>, req: R, highest: V, addr: SocketAddr, info: AgentInfo,
                         manager: ManagerResult, agent: AgentResult) {
    match sem.parseVersion(info.base.protocolVersion)
    case Some(v) =>
      if sem.matches(req, v) && sem.atMost(v, highest) then
        manager.Accepted? && HoldsAt(manager.info, info, addr) && agent == Connected
      else Refuses(sem, req, highest, info, manager, agent)
    case None => Refuses(sem, req, highest, info, manager, agent)
  }

  predicate Refuses<V, R>(sem: Semver<V, R>, req: R, highest: V, info: AgentInfo,
                          manager: ManagerResult, agent: AgentResult) {
    var range := sem.showReq(req) + [0x2C, 0x20, 0x3C, 0x3D] + sem.showVersion(highest);
    manager == IncompatibleProtocol(info.base.protocolVersion, range) && agent == Refused(range)
  }

  /** The manager accepts if and only if what it received decodes and names a
      version in the window; what does not decode is invalid, and a failure to
      receive is reported by its kind.  Only a decoded introduction is
      answered. */
  lemma AcceptsIff<V, R>(sem: Semver<V, R>, req: R, highest: V, addr: SocketAddr, received: Received)
    ensures var verdict := Judge(sem, req, highest, addr, received);
            && (verdict.result.Accepted?
                <==> && received.Got? && DecodeInfo(received.payload).Info?
                     && var v := sem.parseVersion(DecodeInfo(received.payload).info.base.protocolVersion);
                        v.Some? && sem.matches(req, v.value) && sem.atMost(v.value, highest))
            && (verdict.reply.Some? <==> received.Got? && DecodeInfo(received.payload).Info?)
            && (received.Got? && !DecodeInfo(received.payload).Info? ==> verdict.result == InvalidMessage)
  {
  }

  lemma LostIntroduction<V, R>(sem: Semver<V, R>, req: R, highest: V, addr: SocketAddr, kind: IoKind)
    ensures var verdict := Judge(sem, req, highest, addr, Lost(kind));
            && verdict.reply.None?
            && (verdict.result == InvalidMessage <==> kind == InvalidData)
            && (verdict.result == ConnectionClosed <==> kind == UnexpectedEof)
            && (kind != InvalidData && kind != UnexpectedEof ==> verdict.result == ReadError(kind))
  {
  }

  /** The bytes of the two replies. */
  lemma ReplyBytes(text: Text)
    ensures ReplyCodec().encode(First(text)) == [0] + (EncodeVarInt(|text|) + text)
    ensures ReplyCodec().encode(Second(text)) == [1] + (EncodeVarInt(|text|) + text)
  {
  }

  /** The highest version is the manager's reply to an accepted agent, the
      range its reply to a refused one. */
  lemma RepliesAre<V, R>(sem: Semver<V, R>, req: R, highest: V, addr: SocketAddr, payload: Bytes, info: AgentInfo)
    requires DecodeInfo(payload) == Info(info)
    ensures var verdict := Judge(sem, req, highest, addr, Got(payload));
            verdict.reply
            == Some(if verdict.result.Accepted? then ReplyCodec().encode(First(sem.showVersion(highest)))
                    else ReplyCodec().encode(Second(RangeText(sem, req, highest))))
  {
  }

  /** An agent that gets no reply it can read is not connected. */
  lemma BrokenReply(received: Received)
    requires received.Got? ==> ReplyCodec().decode(received.payload).Malformed?
    ensures Conclude(received) == Broken(match received case Lost(kind) => kind case Got(_) => InvalidData)
  {
  }

  /** Whatever was received, if it was read as `info`. */
  lemma ReadIntroduction<V, R>(sem: Semver<V, R>, req: R, highest: V, addr: SocketAddr, payload: Bytes,
                               info: AgentInfo)
    requires DecodeInfo(payload) == Info(info)
    requires IsText(sem.showVersion(highest)) && IsText(RangeText(sem, req, highest))
    ensures var verdict := Judge(sem, req, highest, addr, Got(payload));
            && verdict.reply.Some?
            && Agreed(sem, req, highest, addr, info, verdict.result, Conclude(Got(verdict.reply.value)))
  {
    if Speaks(sem, req, highest, info.base.protocolVersion) {
      AcceptanceArrives(sem.showVersion(highest));
    } else {
      RefusalArrives(RangeText(sem, req, highest));
    }
  }

  /** Handshake agreement.  An agent of any release is accepted exactly when
      its version is in the window: one that is older and sends its first `i`
      tail fields, and one that is newer and sends more after the five the
      manager knows. */
  lemma HandshakeAgreement<V, R>(sem: Semver<V, R>, req: R, highest: V, addr: SocketAddr, info: AgentInfo, i: nat,
                                 newer: Bytes)
    requires ValidInfo(info) && i <= 5 && (i == 5 || newer == [])
    requires IsText(sem.showVersion(highest)) && IsText(RangeText(sem, req, highest))
    ensures var verdict := Judge(sem, req, highest, addr, Got(EncodeOlder(info, i) + newer));
            && verdict.reply.Some?
            && var agent := Conclude(Got(verdict.reply.value));
            && (verdict.result.Accepted? <==> agent.Connected?)
            && Agreed(sem, req, highest, addr, Forget(info, i), verdict.result, agent)
  {
    InfoVersionSkew(info, i, newer);
    ReadIntroduction(sem, req, highest, addr, EncodeOlder(info, i) + newer, Forget(info, i));
  }

  /** The same over the wire: the introduction and the reply each travel as
      one frame, with anything at all after them. */
  lemma HandshakeOverTheWire<V, R>(sem: Semver<V, R>, req: R, highest: V, addr: SocketAddr, info: AgentInfo, i: nat,
                                   newer: Bytes, end: IoKind, after: Bytes, after': Bytes)
    requires ValidInfo(info) && i <= 5 && (i == 5 || newer == []) && Fits(EncodeOlder(info, i) + newer)
    requires IsText(sem.showVersion(highest)) && IsText(RangeText(sem, req, highest))
    ensures var sent := FrameBytes(EncodeOlder(info, i) + newer);
            var verdict := Judge(sem, req, highest, addr, Receive(sent + after, end));
            && verdict.reply.Some?
            && (Fits(verdict.reply.value) ==>
                  Agreed(sem, req, highest, addr, Forget(info, i), verdict.result,
                         Conclude(Receive(FrameBytes(verdict.reply.value) + after', end))))
  {
    FrameArrives(EncodeOlder(info, i) + newer, after, end);
    HandshakeAgreement(sem, req, highest, addr, info, i, newer);
    var verdict := Judge(sem, req, highest, addr, Got(EncodeOlder(info, i) + newer));
    if Fits(verdict.reply.value) {
      FrameArrives(verdict.reply.value, after', end);
    }
  }

  lemma FrameArrives(payload: Bytes, after: Bytes, end: IoKind)
    requires Fits(payload)
    ensures Receive(FrameBytes(payload) + after, end) == Got(payload)
  {
    FrameRoundTrip(payload, after);
  }

  /** An introduction cut short inside a field is refused as invalid, never
      accepted as one that claims less, and no reply is sent. */
  lemma TruncatedIntroduction<V, R>(sem: Semver<V, R>, req: R, highest: V, addr: SocketAddr, info: AgentInfo, k: nat)
    requires ValidInfo(info) && k < |EncodeInfo(info)|
    requires !AtBoundary(BaseCodec(), TailFields(), info.base, TailOf(info), k)
    ensures Judge(sem, req, highest, addr, Got(EncodeInfo(info)[..k])) == Verdict(InvalidMessage, None)
  {
    var i := TruncationIsNotAbsence(info, k);
  }

  // ---- the two functions as the source has them ----

  /** The part of the manager's handshake between its receive and its send. */
  method JudgeIntroduction<V, R>(sem: Semver<V, R>, req: R, highest: V, addr: SocketAddr, payload: Bytes)
    returns (r: ManagerResult, reply: Option<Bytes>)
    ensures Verdict(r, reply) == Judge(sem, req, highest, addr, Got(payload))
  {
    var decoded := DecodeAgentInfo(payload);
    if !decoded.Info? {
      return InvalidMessage, None;
    }
    var info := AtAddress(decoded.info, addr);
    var version := sem.parseVersion(info.base.protocolVersion);
    if version.Some? && sem.matches(req, version.value) && sem.atMost(version.value, highest) {
      reply := Some(ReplyCodec().encode(First(sem.showVersion(highest))));
      r := Accepted(info);
    } else {
      var range := RangeText(sem, req, highest);
      reply := Some(ReplyCodec().encode(Second(range)));
      r := IncompatibleProtocol(info.base.protocolVersion, range);
    }
  }

  method ManagerHandshake<V, R>(sem: Semver<V, R>, send: SendStream<Bytes>, recv: RecvStream, addr: SocketAddr,
                                versionReq: Text, highestVersion: Text)
    returns (r: ManagerResult)
    modifies send, recv
    ensures sem.parseReq(versionReq).None? || sem.parseVersion(highestVersion).None? ==>
              r == InvalidVersionArgument && recv.unread == old(recv.unread) && send.sent == old(send.sent)
    ensures sem.parseReq(versionReq).Some? && sem.parseVersion(highestVersion).Some? ==>
              var v := Judge(sem, sem.parseReq(versionReq).value, sem.parseVersion(highestVersion).value, addr,
                             Receive(old(recv.unread), recv.end));
              && (v.reply.None? ==> r == v.result && send.sent == old(send.sent))
              && (v.reply.Some? && !Fits(v.reply.value) ==> r == MessageTooLarge && send.sent == old(send.sent))
              && (v.reply.Some? && Fits(v.reply.value) && old(send.room) == 0 ==>
                    r == WriteError && send.sent == old(send.sent))
              && (v.reply.Some? && Fits(v.reply.value) && old(send.room) > 0 ==>
                    r == v.result && send.sent == old(send.sent) + [v.reply.value])
  {
    var req := sem.parseReq(versionReq);
    if req.None? {
      return InvalidVersionArgument;
    }
    var highest := sem.parseVersion(highestVersion);
    if highest.None? {
      return InvalidVersionArgument;
    }
    var received := recv.RecvRaw();
    if received.Lost? {
      return ReceiveError(received.kind);
    }
    var reply;
    r, reply := JudgeIntroduction(sem, req.value, highest.value, addr, received.payload);
    if reply.None? {
      return;
    }
    if !Fits(reply.value) {
      return MessageTooLarge;
    }
    var ok := send.Send(reply.value);
    if !ok {
      return WriteError;
    }
  }

  method AgentHandshake(send: SendStream<Bytes>, recv: RecvStream, info: AgentInfo)
    returns (r: AgentResult)
    modifies send, recv
    ensures !Fits(EncodeInfo(info)) ==> r == Broken(InvalidData) && send.sent == old(send.sent)
    ensures Fits(EncodeInfo(info)) && old(send.room) == 0 ==> r.Broken? && send.sent == old(send.sent)
    ensures Fits(EncodeInfo(info)) && old(send.room) > 0 ==>
              && send.sent == old(send.sent) + [EncodeInfo(info)]
              && r == Conclude(Receive(old(recv.unread), recv.end))
  {
    var frame := EncodeInfo(info);
    if !Fits(frame) {
      return Broken(InvalidData);
    }
    var ok := send.Send(frame);
    if !ok {
      return Broken(OtherKind(0));
    }
    var received := recv.RecvRaw();
    match received
    case Lost(kind) => r := Broken(kind);
    case Got(payload) =>
      var d := ReplyCodec().decode(payload);
      match d
      case Malformed => r := Broken(InvalidData);
      case Decoded(First(_), _) => r := Connected;
      case Decoded(Second(range), _) => r := Refused(range);
  }
}
