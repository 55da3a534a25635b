/** Peer identities, authorization contexts and the services they are asked
    about. */
module Authorization {
  import opened Wire

  datatype PeerContext = PeerContext(name: string, subject: Option<string>, fingerprint: Option<string>)
  {
    static function New(name: string): PeerContext {
      PeerContext(name, None, None)
    }

    function WithSubject(subject: string): PeerContext {
      this.(subject := Some(subject))
    }

    function WithFingerprint(fingerprint: string): PeerContext {
      this.(fingerprint := Some(fingerprint))
    }
  }

  datatype PeerIdentity = PeerIdentity(name: string, subject: Option<string>, fingerprint: Option<string>)

  datatype AgentKind = Agent | Proxy | OtherAgent(kind: string)

  datatype ProtocolMetadata = ProtocolMetadata(version: Option<string>, capabilities: seq<string>)

  datatype AuthorizationContext = AuthorizationContext(
    peerIdentity: PeerIdentity,
    agentKind: Option<AgentKind>,
    roles: Option<seq<string>>,
    protocolMetadata: Option<ProtocolMetadata>,
    attributes: Option<map<string, string>>)

  function IdentityOf(peer: PeerContext): PeerIdentity {
    PeerIdentity(peer.name, peer.subject, peer.fingerprint)
  }

  function FromPeerContext(peer: PeerContext): AuthorizationContext {
    AuthorizationContext(IdentityOf(peer), None, None, None, None)
  }

  function FromAuthenticatedInputs(peer: PeerContext, agentKind: Option<AgentKind>, roles: Option<seq<string>>,
                                   protocolMetadata: Option<ProtocolMetadata>,
                                   attributes: Option<map<string, string>>): AuthorizationContext {
    AuthorizationContext(IdentityOf(peer), agentKind, roles, protocolMetadata, attributes)
  }

  /** A context holds what it was built from. */
  lemma InputsAreKept(peer: PeerContext, agentKind: Option<AgentKind>, roles: Option<seq<string>>,
                      protocolMetadata: Option<ProtocolMetadata>, attributes: Option<map<string, string>>)
    ensures var ctx := FromAuthenticatedInputs(peer, agentKind, roles, protocolMetadata, attributes);
            && PeerOf(ctx) == peer && ctx.agentKind == agentKind && ctx.roles == roles
            && ctx.protocolMetadata == protocolMetadata && ctx.attributes == attributes
    ensures var ctx := FromPeerContext(peer);
            && PeerOf(ctx) == peer && ctx.agentKind.None? && ctx.roles.None? && ctx.protocolMetadata.None?
            && ctx.attributes.None?
  {
  }

  /** The peer a context is about. */
  function PeerOf(ctx: AuthorizationContext): PeerContext {
    PeerContext(ctx.peerIdentity.name, ctx.peerIdentity.subject, ctx.peerIdentity.fingerprint)
  }

  /** `to_peer_context`, built up step by step as the source does. */
  method ToPeerContext(ctx: AuthorizationContext) returns (peer: PeerContext)
    ensures peer == PeerOf(ctx)
  {
    peer := PeerContext.New(ctx.peerIdentity.name);
    if ctx.peerIdentity.subject.Some? {
      peer := peer.WithSubject(ctx.peerIdentity.subject.value);
    }
    if ctx.peerIdentity.fingerprint.Some? {
      peer := peer.WithFingerprint(ctx.peerIdentity.fingerprint.value);
    }
  }

  /** The logical operations of the server surface. */
  datatype ServiceId =
    | DataSourceGet | DataSourceList | DataSourceInsert
    | ModelGet | ModelGetNames | ModelInsert | ModelRemove | ModelUpdate | ModelGetPretrained
    | IndicatorGet
    | EventGetMaxIdNum | EventInsertLabels
    | StatisticsInsertColumn | StatisticsInsertTimeSeries
    | OutlierGet | OutlierRemove | OutlierUpdate
    | ClusterUpdate | LabelGetDbPatterns | CertificateRenew | ConfigGet
    | HostUpdateOpenedPorts | HostUpdateOsAgents
    | ListTrustedDomain | ListTorExitNode | ListInternalNetwork | ListAllowlist | ListBlocklist
    | ListTrustedUserAgent | ListSamplingPolicy
    | CustomerDataDeletionReport
    | RunUploadModel | RunReport | RunReportActive | DetectorReportStatus

  datatype Decision = Allowed | Denied(reason: string)
}
