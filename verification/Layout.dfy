/** The `AgentInfo` frame byte by byte: where each field lies and what its
    bytes are, and so which field a cut falls in. */
module Layout {
  import opened Wire
  import opened Codecs
  import opened Bincode
  import opened ConditionalTail
  import opened AgentInfoCodec

  /** A string: its length, then its bytes. */
  function Str(s: Text): Bytes {
    EncodeVarInt(|s|) + s
  }

  function AddrBytes(a: SocketAddr): Bytes {
    match a
    case V4(octets, port) => [0] + (octets + EncodeVarInt(port))
    case V6(octets, port) => [1] + (octets + EncodeVarInt(port))
  }

  function StatusBytes(s: Status): Bytes {
    match s case Ready => [0] case Idle => [1]
  }

  /** The base: name, version, protocol version, address, status. */
  function BaseBytes(b: Base): Bytes {
    Str(b.agentName) + (Str(b.agentVersion) + (Str(b.protocolVersion) + (AddrBytes(b.addr) + StatusBytes(b.status))))
  }

  function Keys(m: TextSet): Bytes {
    if m == [] then [] else Str(m[0].0) + Keys(m[1..])
  }

  function Entries(m: seq<(Text, Text)>): Bytes {
    if m == [] then [] else (Str(m[0].0) + Str(m[0].1)) + Entries(m[1..])
  }

  function CapabilitiesBytes(m: TextSet): Bytes {
    EncodeVarInt(|m|) + Keys(m)
  }

  function EpochBytes(epoch: Option<nat>): Bytes {
    match epoch case None => [0] case Some(n) => [1] + EncodeVarInt(n)
  }

  function FormatsBytes(formats: Option<FormatRange>): Bytes {
    match formats
    case None => [0]
    case Some(r) => [1] + (EncodeVarInt(r.min) + EncodeVarInt(r.max))
  }

  function FingerprintBytes(fingerprint: Option<Fingerprint>): Bytes {
    match fingerprint
    case None => [0]
    case Some(f) => [1] + ((EncodeVarInt(|f.components|) + Entries(f.components)) + Str(f.domain))
  }

  function HealthBytes(health: Option<Health>): Bytes {
    match health
    case None => [0]
    case Some(h) => [1] + ((if h.belowLowWater then [1] else [0]) + EncodeVarInt(h.intentWithoutOutcome))
  }

  // ---- the codecs write these bytes ----

  lemma PairEncodes<A, B>(a: Codec<A>, b: Codec<B>, x: A, y: B)
    ensures Pair(a, b).encode((x, y)) == a.encode(x) + b.encode(y)
  {
  }

  lemma AsEncodes<A, B>(c: Codec<A>, to: A -> Option<B>, from: B -> Option<A>, v: B)
    requires from(v).Some?
    ensures As(c, to, from).encode(v) == c.encode(from(v).value)
  {
  }

  lemma StrLayout(s: Text)
    ensures TextCodec().encode(s) == Str(s)
  {
  }

  lemma StatusLayout(s: Status)
    ensures StatusCodec().encode(s) == StatusBytes(s)
  {
    AsEncodes(VarInt(4), ToStatus, FromStatus, s);
  }

  lemma AddrAndStatusLayout(a: SocketAddr, s: Status)
    ensures Pair(AddrCodec(), StatusCodec()).encode((a, s)) == AddrBytes(a) + StatusBytes(s)
  {
    AddrLayout(a);
    StatusLayout(s);
    PairEncodes(AddrCodec(), StatusCodec(), a, s);
  }

  lemma TextThen<B>(b: Codec<B>, s: Text, y: B, bytes: Bytes)
    requires b.encode(y) == bytes
    ensures Pair(TextCodec(), b).encode((s, y)) == Str(s) + bytes
  {
    StrLayout(s);
    PairEncodes(TextCodec(), b, s, y);
  }

  lemma BaseLayout(b: Base)
    ensures BaseCodec().encode(b) == BaseBytes(b)
  {
    var end := Pair(AddrCodec(), StatusCodec());
    AddrAndStatusLayout(b.addr, b.status);
    var bytes := AddrBytes(b.addr) + StatusBytes(b.status);
    TextThen(end, b.protocolVersion, (b.addr, b.status), bytes);
    TextThen(Pair(TextCodec(), end), b.agentVersion, (b.protocolVersion, (b.addr, b.status)),
             Str(b.protocolVersion) + bytes);
    var body := Pair(TextCodec(), Pair(TextCodec(), Pair(TextCodec(), end)));
    TextThen(Pair(TextCodec(), Pair(TextCodec(), end)), b.agentName,
             (b.agentVersion, (b.protocolVersion, (b.addr, b.status))),
             Str(b.agentVersion) + (Str(b.protocolVersion) + bytes));
    AsEncodes(body, ToBase, FromBase, b);
  }

  lemma AddrLayout(a: SocketAddr)
    ensures AddrCodec().encode(a) == AddrBytes(a)
  {
    match a
    case V4(octets, port) => assert FromAddr(a) == Some(First((octets, port)));
    case V6(octets, port) => assert FromAddr(a) == Some(Second((octets, port)));
  }

  lemma KeyLayout(s: Text, u: ())
    ensures Pair(TextCodec(), UnitCodec()).encode((s, u)) == Str(s)
  {
    TextThen(UnitCodec(), s, u, []);
    assert Str(s) + [] == Str(s);
  }

  lemma {:induction false} KeysLayout(m: TextSet)
    ensures EncodeMany(Pair(TextCodec(), UnitCodec()), m) == Keys(m)
  {
    if m == [] {
    } else {
      KeysLayout(m[1..]);
      KeyLayout(m[0].0, m[0].1);
    }
  }

  lemma {:induction false} EntriesLayout(m: seq<(Text, Text)>)
    ensures EncodeMany(Pair(TextCodec(), TextCodec()), m) == Entries(m)
  {
    if m == [] {
    } else {
      EntriesLayout(m[1..]);
      StrLayout(m[0].1);
      TextThen(TextCodec(), m[0].0, m[0].1, Str(m[0].1));
    }
  }

  lemma MapLayout<V>(c: Codec<V>, m: seq<(Text, V)>)
    requires Sorted(m)
    ensures OrderedMap(c).encode(m) == EncodeVarInt(|m|) + EncodeMany(Pair(TextCodec(), c), m)
  {
    assert EntriesOf(m) == Some(m);
  }

  lemma CapabilitiesLayout(m: TextSet)
    requires Sorted(m)
    ensures TailFields()[0].encode(Capabilities(m)) == CapabilitiesBytes(m)
  {
    MapLayout(UnitCodec(), m);
    KeysLayout(m);
    assert FromCapabilities(Capabilities(m)) == Some(m);
  }

  lemma EpochLayout(epoch: Option<nat>)
    ensures TailFields()[1].encode(ActiveTrustEpoch(epoch)) == EpochBytes(epoch)
  {
    assert FromEpoch(ActiveTrustEpoch(epoch)) == Some(epoch);
    assert Optional(VarInt(8)).encode(epoch) == EpochBytes(epoch);
  }

  lemma FormatsLayout(formats: Option<FormatRange>)
    ensures TailFields()[2].encode(ManifestFormats(formats)) == FormatsBytes(formats)
  {
    assert FromFormats(ManifestFormats(formats)) == Some(formats);
    assert formats.Some? ==> FromRange(formats.value) == Some((formats.value.min, formats.value.max));
    assert Optional(RangeCodec()).encode(formats) == FormatsBytes(formats);
  }

  lemma FingerprintLayout(fingerprint: Option<Fingerprint>)
    requires fingerprint.Some? ==> Sorted(fingerprint.value.components)
    ensures TailFields()[3].encode(ProvisioningFingerprint(fingerprint)) == FingerprintBytes(fingerprint)
  {
    assert FromProvisioning(ProvisioningFingerprint(fingerprint)) == Some(fingerprint);
    if fingerprint.Some? {
      var f := fingerprint.value;
      MapLayout(TextCodec(), f.components);
      EntriesLayout(f.components);
      assert FromFingerprint(f) == Some((f.components, f.domain));
    }
    assert Optional(FingerprintCodec()).encode(fingerprint) == FingerprintBytes(fingerprint);
  }

  lemma HealthLayout(health: Option<Health>)
    ensures TailFields()[4].encode(AuditHealth(health)) == HealthBytes(health)
  {
    assert FromAudit(AuditHealth(health)) == Some(health);
    if health.Some? {
      var h := health.value;
      assert FromHealth(h) == Some((h.belowLowWater, h.intentWithoutOutcome));
      assert FromBool(h.belowLowWater) == Some(if h.belowLowWater then [1] else [0]);
    }
    assert Optional(HealthCodec()).encode(health) == HealthBytes(health);
  }

  // ---- the values there are ----

  predicate HoldableAddr(a: SocketAddr) {
    match a
    case V4(octets, port) => |octets| == 4 && port < 0x1_0000
    case V6(octets, port) => |octets| == 16 && port < 0x1_0000
  }

  predicate HoldableBase(b: Base) {
    IsText(b.agentName) && IsText(b.agentVersion) && IsText(b.protocolVersion) && HoldableAddr(b.addr)
  }

  predicate HoldableMap(m: seq<(Text, Text)>) {
    |m| < 0x1_0000_0000_0000_0000 && Sorted(m) && forall i :: 0 <= i < |m| ==> IsText(m[i].0) && IsText(m[i].1)
  }

  predicate HoldableSet(m: TextSet) {
    |m| < 0x1_0000_0000_0000_0000 && Sorted(m) && forall i :: 0 <= i < |m| ==> IsText(m[i].0)
  }

  /** What the fields of `AgentInfo` can hold: well-formed strings, addresses
      of their length, integers of their width, ordered collections. */
  predicate Holdable(info: AgentInfo) {
    && HoldableBase(info.base)
    && HoldableSet(info.capabilities)
    && (info.activeTrustEpoch.Some? ==> info.activeTrustEpoch.value < 0x1_0000_0000_0000_0000)
    && (info.manifestFormats.Some? ==>
          info.manifestFormats.value.min < 0x1_0000_0000 && info.manifestFormats.value.max < 0x1_0000_0000)
    && (info.provisioningFingerprint.Some? ==>
          && HoldableMap(info.provisioningFingerprint.value.components)
          && IsText(info.provisioningFingerprint.value.domain))
    && (info.auditHealth.Some? ==> info.auditHealth.value.intentWithoutOutcome < 0x1_0000_0000_0000_0000)
  }

  lemma PairValid<A, B>(a: Codec<A>, b: Codec<B>, x: A, y: B)
    ensures Pair(a, b).valid((x, y)) <==> a.valid(x) && b.valid(y)
  {
  }

  lemma AddrValid(a: SocketAddr)
    ensures AddrCodec().valid(a) <==> HoldableAddr(a)
  {
    Pow256Values();
    AsValid(OneOf(Pair(Raw(4), VarInt(2)), Pair(Raw(16), VarInt(2))), ToAddr, FromAddr, a);
    match a
    case V4(octets, port) => PairValid(Raw(4), VarInt(2), octets, port);
    case V6(octets, port) => PairValid(Raw(16), VarInt(2), octets, port);
  }

  lemma StatusValid(s: Status)
    ensures StatusCodec().valid(s)
  {
    Pow256Values();
    AsValid(VarInt(4), ToStatus, FromStatus, s);
  }

  lemma BaseValid(b: Base)
    ensures BaseCodec().valid(b) <==> HoldableBase(b)
  {
    AddrValid(b.addr);
    StatusValid(b.status);
    var end := Pair(AddrCodec(), StatusCodec());
    PairValid(AddrCodec(), StatusCodec(), b.addr, b.status);
    PairValid(TextCodec(), end, b.protocolVersion, (b.addr, b.status));
    PairValid(TextCodec(), Pair(TextCodec(), end), b.agentVersion, (b.protocolVersion, (b.addr, b.status)));
    var body := Pair(TextCodec(), Pair(TextCodec(), Pair(TextCodec(), end)));
    PairValid(TextCodec(), Pair(TextCodec(), Pair(TextCodec(), end)), b.agentName,
              (b.agentVersion, (b.protocolVersion, (b.addr, b.status))));
    AsValid(body, ToBase, FromBase, b);
  }

  lemma MapValid<V>(c: Codec<V>, m: seq<(Text, V)>)
    ensures OrderedMap(c).valid(m)
            <==> && |m| < 0x1_0000_0000_0000_0000 && Sorted(m)
                 && forall i :: 0 <= i < |m| ==> IsText(m[i].0) && c.valid(m[i].1)
  {
    Pow256Values();
    var entry := Pair(TextCodec(), c);
    AsValid(List(entry), (e: seq<(Bytes, V)>) => MapOf(e), (m: seq<(Bytes, V)>) => EntriesOf(m), m);
    assert forall i :: 0 <= i < |m| ==> (entry.valid(m[i]) <==> IsText(m[i].0) && c.valid(m[i].1));
  }

  lemma CapabilitiesValid(m: TextSet)
    ensures TailFields()[0].valid(Capabilities(m)) <==> HoldableSet(m)
  {
    AsValid(OrderedMap(UnitCodec()), ToCapabilities, FromCapabilities, Capabilities(m));
    MapValid(UnitCodec(), m);
  }

  lemma EpochValid(epoch: Option<nat>)
    ensures TailFields()[1].valid(ActiveTrustEpoch(epoch))
            <==> (epoch.Some? ==> epoch.value < 0x1_0000_0000_0000_0000)
  {
    Pow256Values();
    AsValid(Optional(VarInt(8)), ToEpoch, FromEpoch, ActiveTrustEpoch(epoch));
  }

  lemma FormatsValid(formats: Option<FormatRange>)
    ensures TailFields()[2].valid(ManifestFormats(formats))
            <==> (formats.Some? ==> formats.value.min < 0x1_0000_0000 && formats.value.max < 0x1_0000_0000)
  {
    Pow256Values();
    AsValid(Optional(RangeCodec()), ToFormats, FromFormats, ManifestFormats(formats));
    if formats.Some? {
      AsValid(Pair(VarInt(4), VarInt(4)), ToRange, FromRange, formats.value);
      PairValid(VarInt(4), VarInt(4), formats.value.min, formats.value.max);
    }
  }

  lemma FingerprintValid(fingerprint: Option<Fingerprint>)
    ensures TailFields()[3].valid(ProvisioningFingerprint(fingerprint))
            <==> (fingerprint.Some? ==>
                    HoldableMap(fingerprint.value.components) && IsText(fingerprint.value.domain))
  {
    AsValid(Optional(FingerprintCodec()), ToProvisioning, FromProvisioning, ProvisioningFingerprint(fingerprint));
    if fingerprint.Some? {
      var f := fingerprint.value;
      AsValid(Pair(OrderedMap(TextCodec()), TextCodec()), ToFingerprint, FromFingerprint, f);
      PairValid(OrderedMap(TextCodec()), TextCodec(), f.components, f.domain);
      MapValid(TextCodec(), f.components);
    }
  }

  lemma HealthValid(health: Option<Health>)
    ensures TailFields()[4].valid(AuditHealth(health))
            <==> (health.Some? ==> health.value.intentWithoutOutcome < 0x1_0000_0000_0000_0000)
  {
    Pow256Values();
    AsValid(Optional(HealthCodec()), ToAudit, FromAudit, AuditHealth(health));
    if health.Some? {
      var h := health.value;
      var flag := As(Raw(1), ToBool, FromBool);
      AsValid(Pair(flag, VarInt(8)), ToHealth, FromHealth, h);
      PairValid(flag, VarInt(8), h.belowLowWater, h.intentWithoutOutcome);
      AsValid(Raw(1), ToBool, FromBool, h.belowLowWater);
    }
  }

  /** The theorems about the frame are about every value the type can hold. */
  lemma ValidIff(info: AgentInfo)
    ensures ValidInfo(info) <==> Holdable(info)
  {
    BaseValid(info.base);
    CapabilitiesValid(info.capabilities);
    EpochValid(info.activeTrustEpoch);
    FormatsValid(info.manifestFormats);
    FingerprintValid(info.provisioningFingerprint);
    HealthValid(info.auditHealth);
    FiveMatchIff(TailFields(), TailOf(info));
  }

  lemma FiveMatchIff(fields: seq<Codec<TailValue>>, values: seq<TailValue>)
    requires |fields| == |values| == 5
    ensures AllMatch(fields, values)
            <==> && fields[0].valid(values[0]) && fields[1].valid(values[1]) && fields[2].valid(values[2])
                 && fields[3].valid(values[3]) && fields[4].valid(values[4])
  {
  }

  // ---- the frame ----

  /** The bytes of tail field `i`. */
  function FieldBytes(info: AgentInfo, i: nat): Bytes
    requires i < 5
  {
    match i
    case 0 => CapabilitiesBytes(info.capabilities)
    case 1 => EpochBytes(info.activeTrustEpoch)
    case 2 => FormatsBytes(info.manifestFormats)
    case 3 => FingerprintBytes(info.provisioningFingerprint)
    case 4 => HealthBytes(info.auditHealth)
  }

  /** Each tail field writes its bytes. */
  lemma FieldLayout(info: AgentInfo, i: nat)
    requires AllMatch(TailFields(), TailOf(info)) && i < 5
    ensures TailFields()[i].encode(TailOf(info)[i]) == FieldBytes(info, i)
  {
    match i
    case 0 =>
      CapabilitiesValid(info.capabilities);
      CapabilitiesLayout(info.capabilities);
    case 1 => EpochLayout(info.activeTrustEpoch);
    case 2 => FormatsLayout(info.manifestFormats);
    case 3 =>
      FingerprintValid(info.provisioningFingerprint);
      FingerprintLayout(info.provisioningFingerprint);
    case 4 => HealthLayout(info.auditHealth);
  }

  lemma FrameGrows(bc: Codec<Base>, fields: seq<Codec<TailValue>>, b: Base, values: seq<TailValue>, i: nat,
                   bytes: Bytes)
    requires |fields| == |values| && i < |fields| && fields[i].encode(values[i]) == bytes
    ensures FrameOf(bc, fields, b, values, i + 1) == FrameOf(bc, fields, b, values, i) + bytes
  {
    PartGrows(bc.encode(b), fields, values, i);
  }

  /** A frame with one field more has that field's bytes at its end. */
  lemma FieldIsAppended(info: AgentInfo, i: nat)
    requires ValidInfo(info) && i < 5
    ensures EncodeOlder(info, i + 1) == EncodeOlder(info, i) + FieldBytes(info, i)
  {
    FieldLayout(info, i);
    FrameGrows(BaseCodec(), TailFields(), info.base, TailOf(info), i, FieldBytes(info, i));
  }

  lemma BaseComesFirst(info: AgentInfo)
    ensures EncodeOlder(info, 0) == BaseBytes(info.base)
  {
    BaseLayout(info.base);
    FrameWithoutTail(BaseCodec(), TailFields(), info.base, TailOf(info));
    assert EncodeOlder(info, 0) + [] == EncodeOlder(info, 0);
  }

  /** The base and the first `i` tail fields. */
  function Upto(info: AgentInfo, i: nat): Bytes
    requires i <= 5
  {
    if i == 0 then BaseBytes(info.base) else Upto(info, i - 1) + FieldBytes(info, i - 1)
  }

  lemma {:induction false} OlderLayout(info: AgentInfo, i: nat)
    requires ValidInfo(info) && i <= 5
    ensures EncodeOlder(info, i) == Upto(info, i)
  {
    if i == 0 {
      BaseComesFirst(info);
    } else {
      OlderLayout(info, i - 1);
      FieldIsAppended(info, i - 1);
    }
  }

  lemma UptoAll(info: AgentInfo)
    ensures Upto(info, 5)
         == BaseBytes(info.base) + CapabilitiesBytes(info.capabilities) + EpochBytes(info.activeTrustEpoch)
            + FormatsBytes(info.manifestFormats) + FingerprintBytes(info.provisioningFingerprint)
            + HealthBytes(info.auditHealth)
  {
    assert Upto(info, 1) == BaseBytes(info.base) + CapabilitiesBytes(info.capabilities);
    assert Upto(info, 2) == Upto(info, 1) + EpochBytes(info.activeTrustEpoch);
    assert Upto(info, 3) == Upto(info, 2) + FormatsBytes(info.manifestFormats);
    assert Upto(info, 4) == Upto(info, 3) + FingerprintBytes(info.provisioningFingerprint);
  }

  lemma WholeIsOlder(info: AgentInfo)
    ensures EncodeInfo(info) == EncodeOlder(info, 5)
  {
    WholeIsFrameOf(BaseCodec(), TailFields(), info.base, TailOf(info));
  }

  /** The whole frame, byte by byte. */
  lemma FrameLayout(info: AgentInfo)
    requires ValidInfo(info)
    ensures EncodeInfo(info)
         == BaseBytes(info.base) + CapabilitiesBytes(info.capabilities) + EpochBytes(info.activeTrustEpoch)
            + FormatsBytes(info.manifestFormats) + FingerprintBytes(info.provisioningFingerprint)
            + HealthBytes(info.auditHealth)
  {
    WholeIsOlder(info);
    OlderLayout(info, 5);
    UptoAll(info);
  }

  /** Where the base and each tail field end, counted in their bytes. */
  function Ends(info: AgentInfo): (ends: seq<nat>)
    ensures |ends| == 6
  {
    var base := |BaseBytes(info.base)|;
    var capabilities := base + |CapabilitiesBytes(info.capabilities)|;
    var epoch := capabilities + |EpochBytes(info.activeTrustEpoch)|;
    var formats := epoch + |FormatsBytes(info.manifestFormats)|;
    var fingerprint := formats + |FingerprintBytes(info.provisioningFingerprint)|;
    var health := fingerprint + |HealthBytes(info.auditHealth)|;
    [base, capabilities, epoch, formats, fingerprint, health]
  }

  lemma EndsGrow(info: AgentInfo, i: nat)
    requires i < 5
    ensures Ends(info)[i + 1] == Ends(info)[i] + |FieldBytes(info, i)|
  {
    match i
    case 0 =>
    case 1 =>
    case 2 =>
    case 3 =>
    case 4 =>
  }

  lemma {:induction false} UptoEnds(info: AgentInfo, i: nat)
    requires i <= 5
    ensures |Upto(info, i)| == Ends(info)[i]
  {
    if i == 0 {
    } else {
      UptoEnds(info, i - 1);
      EndsGrow(info, i - 1);
    }
  }

  lemma BoundaryIs(info: AgentInfo, i: nat)
    requires ValidInfo(info) && i <= 5
    ensures |EncodeOlder(info, i)| == Ends(info)[i]
  {
    OlderLayout(info, i);
    UptoEnds(info, i);
  }

  /** What a cut after `k` bytes reads as, if it is in the base, at an end, or
      behind the end before field `i`. */
  predicate ReadsCut(ends: seq<nat>, k: nat, i: nat, r: InfoRead)
    requires |ends| == 6
  {
    && i <= 5
    && if k < ends[0] then r == BaseError
       else k == ends[i] || (i < 5 && ends[i] < k < ends[i + 1] && r == TailError(TAIL_NAMES[i]))
  }

  lemma CutReads(info: AgentInfo, k: nat) returns (i: nat)
    requires ValidInfo(info) && k < |EncodeInfo(info)|
    ensures ReadsCut(Ends(info), k, i, DecodeInfo(EncodeInfo(info)[..k]))
  {
    i := TruncationIsNotAbsence(info, k);
    BaseLayout(info.base);
    BoundaryIs(info, i);
    if i < 5 {
      BoundaryIs(info, i + 1);
    }
  }

  /** The names of the fields a cut may fall in, given where each ends. */
  predicate NamesCut(ends: seq<nat>, k: nat, r: InfoRead)
    requires |ends| == 6
  {
    && (k < ends[0] ==> r == BaseError)
    && (ends[0] < k < ends[1] ==> r == TailError("capabilities"))
    && (ends[1] < k < ends[2] ==> r == TailError("active_trust_epoch"))
    && (ends[2] < k < ends[3] ==> r == TailError("manifest_formats"))
    && (ends[3] < k < ends[4] ==> r == TailError("provisioning_fingerprint"))
    && (ends[4] < k < ends[5] ==> r == TailError("audit_health"))
  }

  lemma NamesFollow(ends: seq<nat>, k: nat, i: nat, r: InfoRead)
    requires |ends| == 6 && ends[0] <= ends[1] <= ends[2] <= ends[3] <= ends[4] <= ends[5]
    requires ReadsCut(ends, k, i, r)
    ensures NamesCut(ends, k, r)
  {
    match i
    case 0 =>
    case 1 =>
    case 2 =>
    case 3 =>
    case 4 =>
    case 5 =>
  }

  /** A cut inside a field is an error with that field's name: for each of the
      five, a frame that ends among its bytes. */
  lemma CutNamesField(info: AgentInfo, k: nat)
    requires ValidInfo(info) && k < |EncodeInfo(info)|
    ensures NamesCut(Ends(info), k, DecodeInfo(EncodeInfo(info)[..k]))
  {
    var i := CutReads(info, k);
    NamesFollow(Ends(info), k, i, DecodeInfo(EncodeInfo(info)[..k]));
  }
}
