/** The handshake's `AgentInfo` frame: five base fields, always present, and
    a conditional tail of five more. */
module AgentInfoCodec {
  import opened Wire
  import opened Codecs
  import opened Bincode
  import opened ConditionalTail

  type Text = Bytes

  datatype SocketAddr = V4(octets: Bytes, port: nat) | V6(octets: Bytes, port: nat)
  datatype Status = Ready | Idle
  datatype FormatRange = FormatRange(min: nat, max: nat)
  datatype Fingerprint = Fingerprint(components: seq<(Text, Text)>, domain: Text)
  datatype Health = Health(belowLowWater: bool, intentWithoutOutcome: nat)

  datatype Base = Base(agentName: Text, agentVersion: Text, protocolVersion: Text,
                       addr: SocketAddr, status: Status)

  /** A set is kept as its elements in order. */
  type TextSet = seq<(Text, ())>

  datatype AgentInfo = AgentInfo(
    base: Base,
    capabilities: TextSet,
    activeTrustEpoch: Option<nat>,
    manifestFormats: Option<FormatRange>,
    provisioningFingerprint: Option<Fingerprint>,
    auditHealth: Option<Health>)

  // ---- the codec of each type ----

  type AddrBody = Either<(Bytes, nat), (Bytes, nat)>

  function ToAddr(e: AddrBody): Option<SocketAddr> {
    Some(match e case First(p) => V4(p.0, p.1) case Second(p) => V6(p.0, p.1))
  }

  function FromAddr(a: SocketAddr): Option<AddrBody> {
    Some(match a case V4(o, p) => First((o, p)) case V6(o, p) => Second((o, p)))
  }

  function AddrCodec(): Codec<SocketAddr> {
    As(OneOf(Pair(Raw(4), VarInt(2)), Pair(Raw(16), VarInt(2))), ToAddr, FromAddr)
  }

  function ToStatus(n: nat): Option<Status> {
    if n == 0 then Some(Ready) else if n == 1 then Some(Idle) else None
  }

  function FromStatus(s: Status): Option<nat> {
    Some(if s.Ready? then 0 else 1)
  }

  function StatusCodec(): Codec<Status> {
    As(VarInt(4), ToStatus, FromStatus)
  }

  type BaseBody = (Text, (Text, (Text, (SocketAddr, Status))))

  function ToBase(b: BaseBody): Option<Base> {
    Some(Base(b.0, b.1.0, b.1.1.0, b.1.1.1.0, b.1.1.1.1))
  }

  function FromBase(b: Base): Option<BaseBody> {
    Some((b.agentName, (b.agentVersion, (b.protocolVersion, (b.addr, b.status)))))
  }

  function BaseCodec(): Codec<Base> {
    As(Pair(TextCodec(), Pair(TextCodec(), Pair(TextCodec(), Pair(AddrCodec(), StatusCodec())))),
       ToBase, FromBase)
  }

  function ToBool(b: Bytes): Option<bool> {
    if b == [0] then Some(false) else if b == [1] then Some(true) else None
  }

  function FromBool(v: bool): Option<Bytes> {
    Some(if v then [1] else [0])
  }

  function ToRange(p: (nat, nat)): Option<FormatRange> {
    Some(FormatRange(p.0, p.1))
  }

  function FromRange(r: FormatRange): Option<(nat, nat)> {
    Some((r.min, r.max))
  }

  function RangeCodec(): Codec<FormatRange> {
    As(Pair(VarInt(4), VarInt(4)), ToRange, FromRange)
  }

  function ToFingerprint(p: (seq<(Text, Text)>, Text)): Option<Fingerprint> {
    Some(Fingerprint(p.0, p.1))
  }

  function FromFingerprint(f: Fingerprint): Option<(seq<(Text, Text)>, Text)> {
    Some((f.components, f.domain))
  }

  function FingerprintCodec(): Codec<Fingerprint> {
    As(Pair(OrderedMap(TextCodec()), TextCodec()), ToFingerprint, FromFingerprint)
  }

  function ToHealth(p: (bool, nat)): Option<Health> {
    Some(Health(p.0, p.1))
  }

  function FromHealth(h: Health): Option<(bool, nat)> {
    Some((h.belowLowWater, h.intentWithoutOutcome))
  }

  function HealthCodec(): Codec<Health> {
    As(Pair(As(Raw(1), ToBool, FromBool), VarInt(8)), ToHealth, FromHealth)
  }

  lemma AddrLawful()
    ensures Lawful(AddrCodec()) && NonEmpty(AddrCodec())
  {
    VarIntLawful(2);
    RawLawful(4);
    RawLawful(16);
    PairLawful(Raw(4), VarInt(2));
    PairLawful(Raw(16), VarInt(2));
    var body := OneOf(Pair(Raw(4), VarInt(2)), Pair(Raw(16), VarInt(2)));
    OneOfLawful(Pair(Raw(4), VarInt(2)), Pair(Raw(16), VarInt(2)));
    assert forall v :: Represents(body, ToAddr, FromAddr, v);
    assert forall a :: Represented(body, ToAddr, FromAddr, a);
    AsLawful(body, ToAddr, FromAddr);
  }

  lemma StatusLawful()
    ensures Lawful(StatusCodec()) && NonEmpty(StatusCodec())
  {
    VarIntLawful(4);
    assert forall v :: Represents(VarInt(4), ToStatus, FromStatus, v);
    assert forall a :: Represented(VarInt(4), ToStatus, FromStatus, a);
    AsLawful(VarInt(4), ToStatus, FromStatus);
  }

  lemma BaseLawful()
    ensures Lawful(BaseCodec()) && NonEmpty(BaseCodec())
  {
    TextLawful();
    AddrLawful();
    StatusLawful();
    var end := Pair(AddrCodec(), StatusCodec());
    PairLawful(AddrCodec(), StatusCodec());
    PairLawful(TextCodec(), end);
    PairLawful(TextCodec(), Pair(TextCodec(), end));
    var body := Pair(TextCodec(), Pair(TextCodec(), Pair(TextCodec(), end)));
    PairLawful(TextCodec(), Pair(TextCodec(), Pair(TextCodec(), end)));
    assert forall v :: Represents(body, ToBase, FromBase, v);
    assert forall a :: Represented(body, ToBase, FromBase, a);
    AsLawful(body, ToBase, FromBase);
  }

  lemma RangeLawful()
    ensures Lawful(RangeCodec())
  {
    VarIntLawful(4);
    PairLawful(VarInt(4), VarInt(4));
    assert forall v :: Represents(Pair(VarInt(4), VarInt(4)), ToRange, FromRange, v);
    assert forall a :: Represented(Pair(VarInt(4), VarInt(4)), ToRange, FromRange, a);
    AsLawful(Pair(VarInt(4), VarInt(4)), ToRange, FromRange);
  }

  lemma FingerprintLawful()
    ensures Lawful(FingerprintCodec())
  {
    TextLawful();
    OrderedMapLawful(TextCodec());
    var body := Pair(OrderedMap(TextCodec()), TextCodec());
    PairLawful(OrderedMap(TextCodec()), TextCodec());
    assert forall v :: Represents(body, ToFingerprint, FromFingerprint, v);
    assert forall a :: Represented(body, ToFingerprint, FromFingerprint, a);
    AsLawful(body, ToFingerprint, FromFingerprint);
  }

  lemma HealthLawful()
    ensures Lawful(HealthCodec())
  {
    RawLawful(1);
    VarIntLawful(8);
    var flag := As(Raw(1), ToBool, FromBool);
    assert forall v :: Represents(Raw(1), ToBool, FromBool, v);
    assert forall a :: Represented(Raw(1), ToBool, FromBool, a);
    AsLawful(Raw(1), ToBool, FromBool);
    PairLawful(flag, VarInt(8));
    assert forall v :: Represents(Pair(flag, VarInt(8)), ToHealth, FromHealth, v);
    assert forall a :: Represented(Pair(flag, VarInt(8)), ToHealth, FromHealth, a);
    AsLawful(Pair(flag, VarInt(8)), ToHealth, FromHealth);
  }

  // ---- the tail ----

  datatype TailValue =
    | Capabilities(capabilities: TextSet)
    | ActiveTrustEpoch(epoch: Option<nat>)
    | ManifestFormats(formats: Option<FormatRange>)
    | ProvisioningFingerprint(fingerprint: Option<Fingerprint>)
    | AuditHealth(health: Option<Health>)

  function ToCapabilities(v: TextSet): Option<TailValue> { Some(Capabilities(v)) }
  function FromCapabilities(t: TailValue): Option<TextSet> {
    if t.Capabilities? then Some(t.capabilities) else None
  }
  function ToEpoch(v: Option<nat>): Option<TailValue> { Some(ActiveTrustEpoch(v)) }
  function FromEpoch(t: TailValue): Option<Option<nat>> {
    if t.ActiveTrustEpoch? then Some(t.epoch) else None
  }
  function ToFormats(v: Option<FormatRange>): Option<TailValue> { Some(ManifestFormats(v)) }
  function FromFormats(t: TailValue): Option<Option<FormatRange>> {
    if t.ManifestFormats? then Some(t.formats) else None
  }
  function ToProvisioning(v: Option<Fingerprint>): Option<TailValue> { Some(ProvisioningFingerprint(v)) }
  function FromProvisioning(t: TailValue): Option<Option<Fingerprint>> {
    if t.ProvisioningFingerprint? then Some(t.fingerprint) else None
  }
  function ToAudit(v: Option<Health>): Option<TailValue> { Some(AuditHealth(v)) }
  function FromAudit(t: TailValue): Option<Option<Health>> {
    if t.AuditHealth? then Some(t.health) else None
  }

  /** The tail fields, in their contractual order. */
  function TailFields(): (fields: seq<Codec<TailValue>>)
    ensures |fields| == 5
  {
    [ As(OrderedMap(UnitCodec()), ToCapabilities, FromCapabilities),
      As(Optional(VarInt(8)), ToEpoch, FromEpoch),
      As(Optional(RangeCodec()), ToFormats, FromFormats),
      As(Optional(FingerprintCodec()), ToProvisioning, FromProvisioning),
      As(Optional(HealthCodec()), ToAudit, FromAudit) ]
  }

  /** The names of the tail fields, as the struct has them in order. */
  const TAIL_NAMES: seq<string> :=
    ["capabilities", "active_trust_epoch", "manifest_formats", "provisioning_fingerprint", "audit_health"]

  function FieldName(i: nat): string {
    match i
    case 0 => "capabilities"
    case 1 => "active_trust_epoch"
    case 2 => "manifest_formats"
    case 3 => "provisioning_fingerprint"
    case _ => "audit_health"
  }

  lemma CapabilitiesLawful()
    ensures Lawful(TailFields()[0]) && NonEmpty(TailFields()[0])
  {
    UnitLawful();
    OrderedMapLawful(UnitCodec());
    assert forall v :: Represents(OrderedMap(UnitCodec()), ToCapabilities, FromCapabilities, v);
    assert forall a :: Represented(OrderedMap(UnitCodec()), ToCapabilities, FromCapabilities, a);
    AsLawful(OrderedMap(UnitCodec()), ToCapabilities, FromCapabilities);
  }

  lemma EpochLawful()
    ensures Lawful(TailFields()[1]) && NonEmpty(TailFields()[1])
  {
    VarIntLawful(8);
    OptionalLawful(VarInt(8));
    assert forall v :: Represents(Optional(VarInt(8)), ToEpoch, FromEpoch, v);
    assert forall a :: Represented(Optional(VarInt(8)), ToEpoch, FromEpoch, a);
    AsLawful(Optional(VarInt(8)), ToEpoch, FromEpoch);
  }

  lemma FormatsLawful()
    ensures Lawful(TailFields()[2]) && NonEmpty(TailFields()[2])
  {
    RangeLawful();
    OptionalLawful(RangeCodec());
    assert forall v :: Represents(Optional(RangeCodec()), ToFormats, FromFormats, v);
    assert forall a :: Represented(Optional(RangeCodec()), ToFormats, FromFormats, a);
    AsLawful(Optional(RangeCodec()), ToFormats, FromFormats);
  }

  lemma ProvisioningLawful()
    ensures Lawful(TailFields()[3]) && NonEmpty(TailFields()[3])
  {
    FingerprintLawful();
    OptionalLawful(FingerprintCodec());
    assert forall v :: Represents(Optional(FingerprintCodec()), ToProvisioning, FromProvisioning, v);
    assert forall a :: Represented(Optional(FingerprintCodec()), ToProvisioning, FromProvisioning, a);
    AsLawful(Optional(FingerprintCodec()), ToProvisioning, FromProvisioning);
  }

  lemma AuditLawful()
    ensures Lawful(TailFields()[4]) && NonEmpty(TailFields()[4])
  {
    HealthLawful();
    OptionalLawful(HealthCodec());
    assert forall v :: Represents(Optional(HealthCodec()), ToAudit, FromAudit, v);
    assert forall a :: Represented(Optional(HealthCodec()), ToAudit, FromAudit, a);
    AsLawful(Optional(HealthCodec()), ToAudit, FromAudit);
  }

  /** The five real fields satisfy what the tail theorems ask for: lawful,
      hence prefix-free, and never empty. */
  lemma TailFieldsLawful()
    ensures AllLawful(TailFields())
  {
    CapabilitiesLawful();
    EpochLawful();
    FormatsLawful();
    ProvisioningLawful();
    AuditLawful();
  }

  // ---- the frame ----

  function TailOf(info: AgentInfo): (values: seq<TailValue>)
    ensures |values| == 5
  {
    [ Capabilities(info.capabilities), ActiveTrustEpoch(info.activeTrustEpoch),
      ManifestFormats(info.manifestFormats), ProvisioningFingerprint(info.provisioningFingerprint),
      AuditHealth(info.auditHealth) ]
  }

  /** What a frame with the given tail readings amounts to: an absent field
      reads as unknown. */
  function Assemble(base: Base, values: seq<Option<TailValue>>): AgentInfo
    requires |values| == 5
  {
    AgentInfo(base,
              match values[0] case Some(Capabilities(v)) => v case _ => [],
              match values[1] case Some(ActiveTrustEpoch(v)) => v case _ => None,
              match values[2] case Some(ManifestFormats(v)) => v case _ => None,
              match values[3] case Some(ProvisioningFingerprint(v)) => v case _ => None,
              match values[4] case Some(AuditHealth(v)) => v case _ => None)
  }

  /** The values `AgentInfo` can hold: UTF-8 strings, integers of their
      width, ordered collections. */
  predicate ValidInfo(info: AgentInfo) {
    BaseCodec().valid(info.base) && AllMatch(TailFields(), TailOf(info))
  }

  /** The derived serialization: the base, then the tail in order. */
  function EncodeInfo(info: AgentInfo): Bytes {
    WholeFrame(BaseCodec(), TailFields(), info.base, TailOf(info))
  }

  /** What a release that knew only the first `i` tail fields sends. */
  function EncodeOlder(info: AgentInfo, i: nat): Bytes
    requires i <= 5
  {
    FrameOf(BaseCodec(), TailFields(), info.base, TailOf(info), i)
  }

  datatype InfoRead = Info(info: AgentInfo) | BaseError | TailError(field: string)

  function DecodeInfo(buf: Bytes): InfoRead {
    Interpret(ReadFrameWith(BaseCodec(), TailFields(), buf))
  }

  function Interpret(r: FrameResult<Base, TailValue>): InfoRead
    requires r.Read? ==> |r.values| == 5
  {
    match r
    case BadBase => BaseError
    case BadField(i) => TailError(FieldName(i))
    case Read(base, values) => Info(Assemble(base, values))
  }

  /** The reading of an agent that sent only its first `i` tail fields. */
  function Forget(info: AgentInfo, i: nat): AgentInfo {
    AgentInfo(info.base,
              if i > 0 then info.capabilities else [],
              if i > 1 then info.activeTrustEpoch else None,
              if i > 2 then info.manifestFormats else None,
              if i > 3 then info.provisioningFingerprint else None,
              if i > 4 then info.auditHealth else None)
  }

  lemma AssembleForgets(info: AgentInfo, i: nat)
    requires i <= 5
    ensures Assemble(info.base, Somes(TailOf(info)[..i]) + Nones(5 - i)) == Forget(info, i)
  {
    var values := Somes(TailOf(info)[..i]) + Nones(5 - i);
    assert forall k :: 0 <= k < 5 ==> values[k] == if k < i then Some(TailOf(info)[k]) else None;
  }

  lemma InfoWritable(info: AgentInfo)
    requires ValidInfo(info)
    ensures Writable(BaseCodec(), TailFields(), info.base, TailOf(info))
  {
    BaseLawful();
    TailFieldsLawful();
  }

  /** Version skew on the real frame: whatever prefix of the tail the agent's
      release sends, the manager reads those fields and unknowns for the
      rest; bytes after the five fields it knows are ignored. */
  lemma InfoVersionSkew(info: AgentInfo, i: nat, junk: Bytes)
    requires ValidInfo(info) && i <= 5 && (i == 5 || junk == [])
    ensures DecodeInfo(EncodeOlder(info, i) + junk) == Info(Forget(info, i))
  {
    InfoWritable(info);
    OlderReading(BaseCodec(), TailFields(), info, i, junk);
  }

  /** The same of any base codec and any five fields. */
  lemma OlderReading(bc: Codec<Base>, fields: seq<Codec<TailValue>>, info: AgentInfo, i: nat, junk: Bytes)
    requires |fields| == 5 && Writable(bc, fields, info.base, TailOf(info))
    requires i <= 5 && (i == 5 || junk == [])
    ensures Interpret(ReadFrameWith(bc, fields, FrameOf(bc, fields, info.base, TailOf(info), i) + junk))
         == Info(Forget(info, i))
  {
    ReadsOlderPeer(bc, fields, info.base, TailOf(info), i, junk);
    AssembleForgets(info, i);
  }

  /** A manager of an older release, knowing only the first `j` tail fields,
      reads a full frame: the base and those fields are the sender's. */
  lemma OlderManagerReads(info: AgentInfo, j: nat)
    requires ValidInfo(info) && j <= 5
    ensures ReadFrameWith(BaseCodec(), TailFields()[..j], EncodeInfo(info))
         == Read(info.base, Somes(TailOf(info)[..j]))
  {
    InfoWritable(info);
    ReadsNewerPeer(BaseCodec(), TailFields(), info.base, TailOf(info), j);
  }

  /** Decoding undoes encoding. */
  lemma InfoRoundTrip(info: AgentInfo)
    requires ValidInfo(info)
    ensures DecodeInfo(EncodeInfo(info)) == Info(info)
  {
    WholeIsFrameOf(BaseCodec(), TailFields(), info.base, TailOf(info));
    assert EncodeInfo(info) + [] == EncodeInfo(info);
    InfoVersionSkew(info, 5, []);
  }

  /** A full tail of empty readings means what no tail at all means. */
  lemma EmptyTailIsNoTail(base: Base)
    requires BaseCodec().valid(base)
    ensures DecodeInfo(EncodeInfo(Bare(base))) == DecodeInfo(BaseCodec().encode(base)) == Info(Bare(base))
  {
    BareIsValid(base);
    InfoRoundTrip(Bare(base));
    InfoVersionSkew(Bare(base), 0, []);
    FrameWithoutTail(BaseCodec(), TailFields(), base, TailOf(Bare(base)));
  }

  function Bare(base: Base): AgentInfo {
    AgentInfo(base, [], None, None, None, None)
  }

  /** The unknown reading of each field is a value of the field. */
  lemma UnknownsAreValid()
    ensures TailFields()[0].valid(Capabilities([]))
    ensures TailFields()[1].valid(ActiveTrustEpoch(None))
    ensures TailFields()[2].valid(ManifestFormats(None))
    ensures TailFields()[3].valid(ProvisioningFingerprint(None))
    ensures TailFields()[4].valid(AuditHealth(None))
  {
    assert OrderedMap(UnitCodec()).valid([]) by {
      assert EntriesOf<()>([]) == Some([]);
      assert List(Pair(TextCodec(), UnitCodec())).valid([]);
    }
    assert FromCapabilities(Capabilities([])) == Some([]);
    assert Optional(VarInt(8)).valid(None) && FromEpoch(ActiveTrustEpoch(None)) == Some(None);
    assert Optional(RangeCodec()).valid(None) && FromFormats(ManifestFormats(None)) == Some(None);
    assert Optional(FingerprintCodec()).valid(None);
    assert FromProvisioning(ProvisioningFingerprint(None)) == Some(None);
    assert Optional(HealthCodec()).valid(None) && FromAudit(AuditHealth(None)) == Some(None);
  }

  lemma BareIsValid(base: Base)
    requires BaseCodec().valid(base)
    ensures ValidInfo(Bare(base))
  {
    UnknownsAreValid();
    FiveMatch(TailFields(), Capabilities([]), ActiveTrustEpoch(None), ManifestFormats(None),
              ProvisioningFingerprint(None), AuditHealth(None));
  }

  // ---- cuts ----

  /** Truncation is never read as absence: a strict prefix of a full frame
      decodes if and only if it ends at a field boundary at or after the
      base, and then to the fields before the cut; a cut in the base is a
      base error; any other cut names exactly the field it falls in. */
  lemma TruncationIsNotAbsence(info: AgentInfo, k: nat) returns (i: nat)
    requires ValidInfo(info) && k < |EncodeInfo(info)|
    ensures i <= 5
    ensures var r := DecodeInfo(EncodeInfo(info)[..k]);
            && (r.Info? <==> AtBoundary(BaseCodec(), TailFields(), info.base, TailOf(info), k))
            && if k < |BaseCodec().encode(info.base)| then r == BaseError
               else if k == |EncodeOlder(info, i)| then r == Info(Forget(info, i))
               else
                 && i < 5 && r == TailError(TAIL_NAMES[i])
                 && |EncodeOlder(info, i)| < k < |EncodeOlder(info, i + 1)|
  {
    InfoWritable(info);
    i := CutReading(BaseCodec(), TailFields(), info, k);
  }

  /** The same of any base codec and any five fields. */
  lemma CutReading(bc: Codec<Base>, fields: seq<Codec<TailValue>>, info: AgentInfo, k: nat) returns (i: nat)
    requires |fields| == 5 && Writable(bc, fields, info.base, TailOf(info))
    requires k < |WholeFrame(bc, fields, info.base, TailOf(info))|
    ensures i <= 5
    ensures var r := Interpret(ReadFrameWith(bc, fields, WholeFrame(bc, fields, info.base, TailOf(info))[..k]));
            && (r.Info? <==> AtBoundary(bc, fields, info.base, TailOf(info), k))
            && if k < |bc.encode(info.base)| then r == BaseError
               else if k == |FrameOf(bc, fields, info.base, TailOf(info), i)| then r == Info(Forget(info, i))
               else
                 && i < 5 && r == TailError(TAIL_NAMES[i])
                 && |FrameOf(bc, fields, info.base, TailOf(info), i)| < k
                 && k < |FrameOf(bc, fields, info.base, TailOf(info), i + 1)|
  {
    TruncationIff(bc, fields, info.base, TailOf(info), k);
    i := FrameTruncation(bc, fields, info.base, TailOf(info), k);
    AssembleForgets(info, i);
  }

  // ---- arbitrary buffers ----

  /** Whatever bytes arrive, a decode that succeeds yields a value `AgentInfo`
      can hold. */
  lemma DecodeIsSound(buf: Bytes)
    ensures DecodeInfo(buf).Info? ==> ValidInfo(DecodeInfo(buf).info)
  {
    var r := ReadFrameWith(BaseCodec(), TailFields(), buf);
    if r.Read? {
      BaseLawful();
      TailFieldsLawful();
      UnknownsAreValid();
      var n := FrameIsSound(BaseCodec(), TailFields(), buf);
      AssembleIsValid(r.base, r.values, n);
    }
  }

  /** A field's codec accepts only its own kind of value. */
  lemma FieldKinds(v: TailValue)
    ensures TailFields()[0].valid(v) ==> v.Capabilities?
    ensures TailFields()[1].valid(v) ==> v.ActiveTrustEpoch?
    ensures TailFields()[2].valid(v) ==> v.ManifestFormats?
    ensures TailFields()[3].valid(v) ==> v.ProvisioningFingerprint?
    ensures TailFields()[4].valid(v) ==> v.AuditHealth?
  {
    AsValid(OrderedMap(UnitCodec()), ToCapabilities, FromCapabilities, v);
    AsValid(Optional(VarInt(8)), ToEpoch, FromEpoch, v);
    AsValid(Optional(RangeCodec()), ToFormats, FromFormats, v);
    AsValid(Optional(FingerprintCodec()), ToProvisioning, FromProvisioning, v);
    AsValid(Optional(HealthCodec()), ToAudit, FromAudit, v);
  }

  lemma AssembleIsValid(base: Base, values: seq<Option<TailValue>>, n: nat)
    requires BaseCodec().valid(base) && |values| == 5
    requires forall i :: 0 <= i < 5 ==>
               if i < n then values[i].Some? && TailFields()[i].valid(values[i].value) else values[i].None?
    ensures ValidInfo(Assemble(base, values))
  {
    var fields, info := TailFields(), Assemble(base, values);
    UnknownsAreValid();
    if values[0].Some? { FieldKinds(values[0].value); }
    if values[1].Some? { FieldKinds(values[1].value); }
    if values[2].Some? { FieldKinds(values[2].value); }
    if values[3].Some? { FieldKinds(values[3].value); }
    if values[4].Some? { FieldKinds(values[4].value); }
    FiveMatch(fields, Capabilities(info.capabilities), ActiveTrustEpoch(info.activeTrustEpoch),
              ManifestFormats(info.manifestFormats), ProvisioningFingerprint(info.provisioningFingerprint),
              AuditHealth(info.auditHealth));
  }

  // ---- the decode as the source has it ----

  method DecodeAgentInfo(buf: Bytes) returns (r: InfoRead)
    ensures r == DecodeInfo(buf)
  {
    var d := BaseCodec().decode(buf);
    if d.Malformed? {
      return BaseError;
    }
    var t := DecodeFiveFields(TailFields(), buf, d.used);
    match t
    case CorruptAt(i) => r := TailError(FieldName(i));
    case TailRead(values, _) => r := Info(Assemble(d.value, values));
  }
}
