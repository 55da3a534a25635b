/** The tables of the server's request surface: the codes, the service each
    stands for, and the arms of the two dispatch functions, each transcribed
    from its own match. */
module ServerTables {
  import opened Wire
  import opened Errors
  import opened Authorization

  datatype RequestCode =
    | GetDataSource | GetIndicator | GetMaxEventIdNum | GetModel | GetModelNames | InsertColumnStatistics
    | InsertModel | InsertTimeSeries | RemoveModel | RemoveOutliers | UpdateClusters | UpdateModel
    | UpdateOutliers | InsertEventLabels | GetDataSourceList | GetLabelDbPatterns | InsertDataSource
    | RenewCertificate | GetTrustedDomainList | GetOutliers | GetTorExitNodeList | GetInternalNetworkList
    | GetAllowlist | GetBlocklist | GetPretrainedModel | GetTrustedUserAgentList | GetConfig
    | UpdateHostOpenedPorts | UpdateHostOsAgents | GetSamplingPolicyList | ReportCustomerDataDeletion
    | UploadRunModel | ReportRun | ReportActiveRuns | ReportDetectorStatus | Unknown

  /** The code a number stands for; unassigned numbers are `Unknown`. */
  function FromPrimitive(code: U32): RequestCode {
    match code
    case 0 => GetDataSource
    case 1 => GetIndicator
    case 2 => GetMaxEventIdNum
    case 3 => GetModel
    case 4 => GetModelNames
    case 5 => InsertColumnStatistics
    case 6 => InsertModel
    case 7 => InsertTimeSeries
    case 8 => RemoveModel
    case 9 => RemoveOutliers
    case 10 => UpdateClusters
    case 11 => UpdateModel
    case 12 => UpdateOutliers
    case 13 => InsertEventLabels
    case 14 => GetDataSourceList
    case 15 => GetLabelDbPatterns
    case 20 => InsertDataSource
    case 23 => RenewCertificate
    case 24 => GetTrustedDomainList
    case 25 => GetOutliers
    case 26 => GetTorExitNodeList
    case 31 => GetInternalNetworkList
    case 32 => GetAllowlist
    case 33 => GetBlocklist
    case 34 => GetPretrainedModel
    case 35 => GetTrustedUserAgentList
    case 36 => GetConfig
    case 37 => UpdateHostOpenedPorts
    case 38 => UpdateHostOsAgents
    case 39 => GetSamplingPolicyList
    case 40 => ReportCustomerDataDeletion
    case 41 => UploadRunModel
    case 42 => ReportRun
    case 43 => ReportActiveRuns
    case 44 => ReportDetectorStatus
    case _ => Unknown
  }

  /** The number each code is sent as. */
  function ToPrimitive(req: RequestCode): U32 {
    match req
    case GetDataSource => 0
    case GetIndicator => 1
    case GetMaxEventIdNum => 2
    case GetModel => 3
    case GetModelNames => 4
    case InsertColumnStatistics => 5
    case InsertModel => 6
    case InsertTimeSeries => 7
    case RemoveModel => 8
    case RemoveOutliers => 9
    case UpdateClusters => 10
    case UpdateModel => 11
    case UpdateOutliers => 12
    case InsertEventLabels => 13
    case GetDataSourceList => 14
    case GetLabelDbPatterns => 15
    case InsertDataSource => 20
    case RenewCertificate => 23
    case GetTrustedDomainList => 24
    case GetOutliers => 25
    case GetTorExitNodeList => 26
    case GetInternalNetworkList => 31
    case GetAllowlist => 32
    case GetBlocklist => 33
    case GetPretrainedModel => 34
    case GetTrustedUserAgentList => 35
    case GetConfig => 36
    case UpdateHostOpenedPorts => 37
    case UpdateHostOsAgents => 38
    case GetSamplingPolicyList => 39
    case ReportCustomerDataDeletion => 40
    case UploadRunModel => 41
    case ReportRun => 42
    case ReportActiveRuns => 43
    case ReportDetectorStatus => 44
    case Unknown => 0xFFFF_FFFF
  }

  /** Every code is read back from its number. */
  lemma CodeRoundTrip(req: RequestCode)
    ensures FromPrimitive(ToPrimitive(req)) == req
  {
  }

  /** `from_server_request_code`. */
  function ServiceOf(req: RequestCode): Option<ServiceId> {
    match req
    case GetDataSource => Some(DataSourceGet)
    case GetDataSourceList => Some(DataSourceList)
    case InsertDataSource => Some(DataSourceInsert)
    case GetModel => Some(ModelGet)
    case GetModelNames => Some(ModelGetNames)
    case InsertModel => Some(ModelInsert)
    case RemoveModel => Some(ModelRemove)
    case UpdateModel => Some(ModelUpdate)
    case GetPretrainedModel => Some(ModelGetPretrained)
    case GetIndicator => Some(IndicatorGet)
    case GetMaxEventIdNum => Some(EventGetMaxIdNum)
    case InsertEventLabels => Some(EventInsertLabels)
    case InsertColumnStatistics => Some(StatisticsInsertColumn)
    case InsertTimeSeries => Some(StatisticsInsertTimeSeries)
    case RemoveOutliers => Some(OutlierRemove)
    case UpdateOutliers => Some(OutlierUpdate)
    case GetOutliers => Some(OutlierGet)
    case UpdateClusters => Some(ClusterUpdate)
    case GetLabelDbPatterns => Some(LabelGetDbPatterns)
    case RenewCertificate => Some(CertificateRenew)
    case GetConfig => Some(ConfigGet)
    case UpdateHostOpenedPorts => Some(HostUpdateOpenedPorts)
    case UpdateHostOsAgents => Some(HostUpdateOsAgents)
    case GetTrustedDomainList => Some(ListTrustedDomain)
    case GetTorExitNodeList => Some(ListTorExitNode)
    case GetInternalNetworkList => Some(ListInternalNetwork)
    case GetAllowlist => Some(ListAllowlist)
    case GetBlocklist => Some(ListBlocklist)
    case GetTrustedUserAgentList => Some(ListTrustedUserAgent)
    case GetSamplingPolicyList => Some(ListSamplingPolicy)
    case ReportCustomerDataDeletion => Some(CustomerDataDeletionReport)
    case UploadRunModel => Some(RunUploadModel)
    case ReportRun => Some(RunReport)
    case ReportActiveRuns => Some(RunReportActive)
    case ReportDetectorStatus => Some(DetectorReportStatus)
    case Unknown => None
  }

  /** The operation a service is permission for. */
  function OperationOf(service: ServiceId): RequestCode {
    match service
    case DataSourceGet => GetDataSource
    case DataSourceList => GetDataSourceList
    case DataSourceInsert => InsertDataSource
    case ModelGet => GetModel
    case ModelGetNames => GetModelNames
    case ModelInsert => InsertModel
    case ModelRemove => RemoveModel
    case ModelUpdate => UpdateModel
    case ModelGetPretrained => GetPretrainedModel
    case IndicatorGet => GetIndicator
    case EventGetMaxIdNum => GetMaxEventIdNum
    case EventInsertLabels => InsertEventLabels
    case StatisticsInsertColumn => InsertColumnStatistics
    case StatisticsInsertTimeSeries => InsertTimeSeries
    case OutlierRemove => RemoveOutliers
    case OutlierUpdate => UpdateOutliers
    case OutlierGet => GetOutliers
    case ClusterUpdate => UpdateClusters
    case LabelGetDbPatterns => GetLabelDbPatterns
    case CertificateRenew => RenewCertificate
    case ConfigGet => GetConfig
    case HostUpdateOpenedPorts => UpdateHostOpenedPorts
    case HostUpdateOsAgents => UpdateHostOsAgents
    case ListTrustedDomain => GetTrustedDomainList
    case ListTorExitNode => GetTorExitNodeList
    case ListInternalNetwork => GetInternalNetworkList
    case ListAllowlist => GetAllowlist
    case ListBlocklist => GetBlocklist
    case ListTrustedUserAgent => GetTrustedUserAgentList
    case ListSamplingPolicy => GetSamplingPolicyList
    case CustomerDataDeletionReport => ReportCustomerDataDeletion
    case RunUploadModel => UploadRunModel
    case RunReport => ReportRun
    case RunReportActive => ReportActiveRuns
    case DetectorReportStatus => ReportDetectorStatus
  }

  predicate Reads(req: RequestCode) {
    req.GetDataSource? || req.GetIndicator? || req.GetMaxEventIdNum? || req.GetModel? || req.GetModelNames?
    || req.GetDataSourceList? || req.GetLabelDbPatterns? || req.GetTrustedDomainList? || req.GetOutliers?
    || req.GetTorExitNodeList? || req.GetInternalNetworkList? || req.GetAllowlist? || req.GetBlocklist?
    || req.GetPretrainedModel? || req.GetTrustedUserAgentList? || req.GetConfig?
    || req.GetSamplingPolicyList?
  }

  predicate Writes(req: RequestCode) {
    req.InsertColumnStatistics? || req.InsertModel? || req.InsertTimeSeries? || req.RemoveModel?
    || req.RemoveOutliers? || req.UpdateClusters? || req.UpdateModel? || req.UpdateOutliers?
    || req.InsertEventLabels? || req.InsertDataSource? || req.UpdateHostOpenedPorts?
    || req.UpdateHostOsAgents?
  }

  lemma ReadOperation(req: RequestCode)
    requires Reads(req)
    ensures ServiceOf(req).Some? && OperationOf(ServiceOf(req).value) == req
  {
  }

  lemma WriteOperation(req: RequestCode)
    requires Writes(req)
    ensures ServiceOf(req).Some? && OperationOf(ServiceOf(req).value) == req
  {
  }

  lemma ReportOperation(req: RequestCode)
    requires !Reads(req) && !Writes(req) && req != Unknown
    ensures ServiceOf(req).Some? && OperationOf(ServiceOf(req).value) == req
  {
  }

  /** A known operation is the one its service is permission for. */
  lemma OperationOfService(req: RequestCode)
    requires req != Unknown
    ensures ServiceOf(req).Some? && OperationOf(ServiceOf(req).value) == req
  {
    if Reads(req) {
      ReadOperation(req);
    } else if Writes(req) {
      WriteOperation(req);
    } else {
      ReportOperation(req);
    }
  }

  /** The types an arm may parse a request body as. */
  datatype ArgType =
    | UnitArg | DataSourceKeyArg | TextArg | TextPairsArg | ModelAndTimeArg | ColumnStatisticsArg
    | DataSourceArg | EventLabelsArg | BytesArg | TimeSeriesArg | DeletionReportArg | ClustersArg
    | OutliersArg | HostPortsArg | HostUserAgentsArg | RunModelArg | RunReportArg | RunIdsArg
    | DetectorStatusArg

  datatype Parsing = NoParse | Args(of: ArgType, classify: Option<ProtocolErrorKind>)

  /** What an arm does: it calls a handler method, named here by the request
      it is meant for, with the peer's name or without it; it refuses the
      request; or it hands the request back to the caller. */
  datatype Arm = Calls(operation: RequestCode, parsing: Parsing, named: bool) | Rejected | HandBack

  /** The arms of `handle_authorized_with_context`. */
  function ContextArm(req: RequestCode): Arm {
    match req
    case GetAllowlist => Calls(GetAllowlist, Args(UnitArg, None), true)
    case GetBlocklist => Calls(GetBlocklist, Args(UnitArg, None), true)
    case GetDataSource => Calls(GetDataSource, Args(DataSourceKeyArg, None), false)
    case GetIndicator => Calls(GetIndicator, Args(TextArg, None), false)
    case GetModel => Calls(GetModel, Args(TextArg, Some(InvalidArgs)), false)
    case GetModelNames => Calls(GetModelNames, Args(UnitArg, None), false)
    case GetLabelDbPatterns => Calls(GetLabelDbPatterns, Args(TextPairsArg, None), false)
    case GetTorExitNodeList => Calls(GetTorExitNodeList, Args(UnitArg, None), false)
    case GetTrustedDomainList => Calls(GetTrustedDomainList, Args(UnitArg, None), false)
    case GetTrustedUserAgentList => Calls(GetTrustedUserAgentList, Args(UnitArg, None), false)
    case GetConfig => Calls(GetConfig, Args(UnitArg, None), true)
    case GetInternalNetworkList => Calls(GetInternalNetworkList, Args(UnitArg, None), true)
    case GetOutliers => Calls(GetOutliers, Args(ModelAndTimeArg, Some(InvalidArgs)), false)
    case GetPretrainedModel => Calls(GetPretrainedModel, Args(TextArg, None), false)
    case GetSamplingPolicyList => Calls(GetSamplingPolicyList, Args(UnitArg, None), true)
    case InsertColumnStatistics => Calls(InsertColumnStatistics, Args(ColumnStatisticsArg, None), false)
    case InsertDataSource => Calls(InsertDataSource, Args(DataSourceArg, None), false)
    case InsertEventLabels => Calls(InsertEventLabels, Args(EventLabelsArg, None), false)
    case InsertModel => Calls(InsertModel, Args(BytesArg, None), false)
    case InsertTimeSeries => Calls(InsertTimeSeries, Args(TimeSeriesArg, None), false)
    case RemoveModel => Calls(RemoveModel, Args(TextArg, None), false)
    case RenewCertificate => Calls(RenewCertificate, NoParse, true)
    case ReportCustomerDataDeletion => Calls(ReportCustomerDataDeletion, Args(DeletionReportArg, None), false)
    case UpdateClusters => Calls(UpdateClusters, Args(ClustersArg, None), false)
    case UpdateModel => Calls(UpdateModel, Args(BytesArg, None), false)
    case UpdateOutliers => Calls(UpdateOutliers, Args(OutliersArg, None), false)
    case UpdateHostOpenedPorts => Calls(UpdateHostOpenedPorts, Args(HostPortsArg, None), true)
    case UpdateHostOsAgents => Calls(UpdateHostOsAgents, Args(HostUserAgentsArg, None), true)
    case UploadRunModel => Calls(UploadRunModel, Args(RunModelArg, None), true)
    case ReportRun => Calls(ReportRun, Args(RunReportArg, None), true)
    case ReportActiveRuns => Calls(ReportActiveRuns, Args(RunIdsArg, None), true)
    case ReportDetectorStatus => Calls(ReportDetectorStatus, Args(DetectorStatusArg, None), true)
    case Unknown => Rejected
    case _ => HandBack
  }

  /** The arms of `handle_authorized`. */
  function LegacyArm(req: RequestCode): Arm {
    match req
    case GetAllowlist => Calls(GetAllowlist, Args(UnitArg, None), true)
    case GetBlocklist => Calls(GetBlocklist, Args(UnitArg, None), true)
    case GetDataSource => Calls(GetDataSource, Args(DataSourceKeyArg, None), false)
    case GetIndicator => Calls(GetIndicator, Args(TextArg, None), false)
    case GetModel => Calls(GetModel, Args(TextArg, Some(InvalidArgs)), false)
    case GetModelNames => Calls(GetModelNames, Args(UnitArg, None), false)
    case GetLabelDbPatterns => Calls(GetLabelDbPatterns, Args(TextPairsArg, None), false)
    case GetTorExitNodeList => Calls(GetTorExitNodeList, Args(UnitArg, None), false)
    case GetTrustedDomainList => Calls(GetTrustedDomainList, Args(UnitArg, None), false)
    case GetTrustedUserAgentList => Calls(GetTrustedUserAgentList, Args(UnitArg, None), false)
    case GetConfig => Calls(GetConfig, Args(UnitArg, None), true)
    case GetInternalNetworkList => Calls(GetInternalNetworkList, Args(UnitArg, None), true)
    case GetOutliers => Calls(GetOutliers, Args(ModelAndTimeArg, Some(InvalidArgs)), false)
    case GetPretrainedModel => Calls(GetPretrainedModel, Args(TextArg, None), false)
    case GetSamplingPolicyList => Calls(GetSamplingPolicyList, Args(UnitArg, None), true)
    case InsertColumnStatistics => Calls(InsertColumnStatistics, Args(ColumnStatisticsArg, None), false)
    case InsertDataSource => Calls(InsertDataSource, Args(DataSourceArg, None), false)
    case InsertEventLabels => Calls(InsertEventLabels, Args(EventLabelsArg, None), false)
    case InsertModel => Calls(InsertModel, Args(BytesArg, None), false)
    case InsertTimeSeries => Calls(InsertTimeSeries, Args(TimeSeriesArg, None), false)
    case RemoveModel => Calls(RemoveModel, Args(TextArg, None), false)
    case RenewCertificate => Calls(RenewCertificate, NoParse, true)
    case ReportCustomerDataDeletion => Calls(ReportCustomerDataDeletion, Args(DeletionReportArg, None), false)
    case UpdateClusters => Calls(UpdateClusters, Args(ClustersArg, None), false)
    case UpdateModel => Calls(UpdateModel, Args(BytesArg, None), false)
    case UpdateOutliers => Calls(UpdateOutliers, Args(OutliersArg, None), false)
    case UpdateHostOpenedPorts => Calls(UpdateHostOpenedPorts, Args(HostPortsArg, None), true)
    case UpdateHostOsAgents => Calls(UpdateHostOsAgents, Args(HostUserAgentsArg, None), true)
    case UploadRunModel => Calls(UploadRunModel, Args(RunModelArg, None), true)
    case ReportRun => Calls(ReportRun, Args(RunReportArg, None), true)
    case ReportActiveRuns => Calls(ReportActiveRuns, Args(RunIdsArg, None), true)
    case ReportDetectorStatus => Calls(ReportDetectorStatus, Args(DetectorStatusArg, None), true)
    case Unknown => Rejected
    case _ => HandBack
  }

  datatype Table = Table(
    decode: U32 -> RequestCode,
    service: RequestCode -> Option<ServiceId>,
    arm: RequestCode -> Arm)

  function ContextTable(): Table {
    Table(FromPrimitive, ServiceOf, ContextArm)
  }

  function LegacyTable(): Table {
    Table(FromPrimitive, ServiceOf, LegacyArm)
  }

  // ---- the separately written arms agree ----

  predicate AgreeAt(a: Table, b: Table, code: U32) {
    var req := a.decode(code);
    req == b.decode(code) && a.service(req) == b.service(req) && a.arm(req) == b.arm(req)
  }

  ghost predicate Agree(a: Table, b: Table) {
    forall code: U32 :: AgreeAt(a, b, code)
  }

  lemma SameArm(req: RequestCode)
    ensures LegacyArm(req) == ContextArm(req)
  {
  }

  /** At every code the two dispatch functions have the same arm: the same
      method, argument type, error category and use of the peer's name, and
      they refuse and hand back the same codes. */
  lemma TablesAgree()
    ensures Agree(LegacyTable(), ContextTable())
  {
    forall code: U32
      ensures AgreeAt(LegacyTable(), ContextTable(), code)
    {
      SameArm(FromPrimitive(code));
    }
  }

  // ---- the gate covers the arms ----

  /** A request that can reach a handler or the caller has a service, and the
      only method its arm calls is its own. */
  predicate Gated(table: Table, req: RequestCode) {
    && (table.service(req).None? <==> table.arm(req).Rejected?)
    && (table.arm(req).Calls? ==> table.arm(req).operation == req)
  }

  ghost predicate Coherent(table: Table) {
    forall req: RequestCode :: Gated(table, req)
  }

  lemma ContextGate(req: RequestCode)
    ensures ServiceOf(req).None? <==> ContextArm(req).Rejected?
    ensures ContextArm(req).Calls? ==> ContextArm(req).operation == req
  {
  }

  /** Both tables are covered, and no two codes share a service: permission
      for a service is permission for one operation. */
  lemma TablesGate()
    ensures Coherent(ContextTable()) && Coherent(LegacyTable())
    ensures forall a: U32, b: U32 ::
              ServiceOf(FromPrimitive(a)).Some? && ServiceOf(FromPrimitive(a)) == ServiceOf(FromPrimitive(b)) ==> a == b
  {
    forall req: RequestCode
      ensures Gated(ContextTable(), req) && Gated(LegacyTable(), req)
    {
      ContextGate(req);
      SameArm(req);
    }
    forall a: U32, b: U32
      | ServiceOf(FromPrimitive(a)).Some? && ServiceOf(FromPrimitive(a)) == ServiceOf(FromPrimitive(b))
      ensures a == b
    {
      OperationOfService(FromPrimitive(a));
      OperationOfService(FromPrimitive(b));
      CodesDiffer(a, b);
    }
  }

  lemma CodesDiffer(a: U32, b: U32)
    requires FromPrimitive(a) == FromPrimitive(b) != Unknown
    ensures a == b
  {
  }
}
