/**
  Signed bootstrap beacons: CreateBootstrapBeaconWrapper of protocol/v0/bootstrap_beacon.go and
  ValidateBranchTextBootstrapBeacon of protocol/v0/bootstrap_beacon_validate.go.
*/
module BootstrapBeacons {
  import opened Bytes
  import opened Sorting
  import opened Cbor
  import opened CborParse
  import opened CborTheorems
  import opened CborFields
  import opened CborNested
  import opened BootstrapLists
  import opened BootstrapEndpoints
  import Base64Url
  import Utf8

  const DEFAULT_LIFETIME := 7 * 24 * 3600
  const MAX_LIFETIME_NS := 7 * 24 * 3600 * 1_000_000_000

  function ProtocolId(): bytes { Lit("branch/connectivity/0") }
  function DevelopmentProfile(): bytes { Lit("uEiCaVLmVxHgth49YdSwXKM") + Lit("201oM4W6PHc61z_1rz-J_xVw") }
  function ForwardRole(): bytes { Lit("relay.forward.live/0") }
  function RouteRole(): bytes { Lit("route.relay.wss/0") }
  function EventType(): bytes { Lit("bootstrap.beacon") }
  function PublicMode(): bytes { Lit("public") }
  function SignatureAlg(): bytes { Lit("ed25519") }
  function WrapperPrefix(): bytes { Lit("BRANCH0.") }
  function SignatureDomain(): bytes { Lit("BRANCH signed event v0") + [10] }

  /** What the model leaves to the environment: URL checks and Ed25519. */
  datatype Env = Env(wssOk: bytes -> bool, verify: (bytes, bytes, bytes) -> bool)

  /** A signer for a public key: what it signs verifies. */
  ghost predicate SignsFor(env: Env, sign: bytes -> Option<bytes>, publicKey: bytes) {
    forall message: bytes :: sign(message).Some? ==> env.verify(publicKey, message, sign(message).value)
  }

  // ---------------------------------------------------------------- records

  datatype Envelope = Envelope(
    protocol: bytes,
    eventId: bytes,
    kind: bytes,
    keyAlg: bytes,
    publicKey: bytes,
    createdAt: uint64,
    expiresAt: uint64,
    payloadMode: bytes,
    payload: bytes,
    signatureAlg: bytes,
    signature: bytes)

  datatype Payload = Payload(
    beaconId: bytes,
    sequence: uint64,
    issuedAt: uint64,
    expiresAt: uint64,
    previous: Option<bytes>,
    versions: seq<bytes>,
    profiles: seq<bytes>,
    capabilities: seq<bytes>,
    endpoints: seq<Endpoint>)

  function SenderFields(e: Envelope): seq<Entry> {
    [Entry(Lit("key_alg"), Text(e.keyAlg)), Entry(Lit("public_key"), Blob(e.publicKey))]
  }

  /** bootstrapBeaconUnsignedEnvelopeEntries */
  function UnsignedFields(e: Envelope): seq<Entry> {
    [Entry(Lit("protocol"), Text(e.protocol)),
     Entry(Lit("event_id"), Blob(e.eventId)),
     Entry(Lit("type"), Text(e.kind)),
     Entry(Lit("sender"), Map(SenderFields(e))),
     Entry(Lit("created_at"), Uint(e.createdAt)),
     Entry(Lit("expires_at"), Uint(e.expiresAt)),
     Entry(Lit("payload_mode"), Text(e.payloadMode)),
     Entry(Lit("payload"), Blob(e.payload)),
     Entry(Lit("signature_alg"), Text(e.signatureAlg))]
  }

  function SignedFields(e: Envelope): seq<Entry> {
    UnsignedFields(e) + [Entry(Lit("signature"), Blob(e.signature))]
  }

  /** The payload that Create writes: no previous beacon and none of the optional lists. */
  function PayloadFields(p: Payload): seq<Entry> {
    [Entry(Lit("beacon_id"), Blob(p.beaconId)),
     Entry(Lit("sequence"), Uint(p.sequence)),
     Entry(Lit("issued_at"), Uint(p.issuedAt)),
     Entry(Lit("expires_at"), Uint(p.expiresAt)),
     Entry(Lit("protocol_versions"), TextArray(p.versions)),
     Entry(Lit("profile_multihashes"), TextArray(p.profiles)),
     Entry(Lit("relay_capabilities"), TextArray(p.capabilities)),
     Entry(Lit("relay_endpoints"), EndpointArray(p.endpoints))]
  }

  // ---------------------------------------------------------------- create

  /** BootstrapBeaconOptions; None for an identifier asks for random bytes. */
  datatype Options = Options(
    now: int,
    expiresAt: int,
    sequence: uint64,
    beaconId: Option<bytes>,
    eventId: Option<bytes>,
    publicKey: bytes,
    endpoints: seq<Endpoint>,
    versions: seq<bytes>,
    profiles: seq<bytes>,
    capabilities: seq<bytes>)

  function Defaulted(values: seq<bytes>, defaults: seq<bytes>): seq<bytes> {
    if values == [] then defaults else values
  }

  function Versions(o: Options): seq<bytes> { Defaulted(o.versions, [ProtocolId()]) }
  function Profiles(o: Options): seq<bytes> { Defaulted(o.profiles, [DevelopmentProfile()]) }
  function Capabilities(o: Options): seq<bytes> { Defaulted(o.capabilities, [ForwardRole(), RouteRole()]) }

  /** Go's int64 arithmetic on time.Duration. */
  function Wrap64(x: int): int {
    (x + 0x8000_0000_0000_0000) % 0x1_0000_0000_0000_0000 - 0x8000_0000_0000_0000
  }

  /** now and expires_at after defaulting; None for the timestamps and lifetimes that Create refuses. */
  function Times(o: Options, clock: int): Option<(uint64, uint64)> {
    var now := if o.now == 0 then clock else o.now;
    var expires := if o.expiresAt == 0 then now + DEFAULT_LIFETIME else o.expiresAt;
    if now < 0 || expires <= now || expires > MAX_TIMESTAMP then None
    else if Wrap64((expires - now) * 1_000_000_000) > MAX_LIFETIME_NS then None
    else Some((now, expires))
  }

  /**
    The cap on lifetimes is a product in 64 bits. It keeps a beacon to seven days exactly if the span, in nanoseconds,
    is below 2^63: a longer span can wrap around to a product that passes.
  */
  lemma {:induction false} LifetimeExact(o: Options, clock: int)
    requires Times(o, clock).Some?
    ensures var (now, expires) := Times(o, clock).value;
            expires - now <= 7 * 24 * 3600 <==> (expires - now) * 1_000_000_000 < 0x8000_0000_0000_0000
  {
    var (now, expires) := Times(o, clock).value;
    if (expires - now) * 1_000_000_000 < 0x8000_0000_0000_0000 {
      assert Wrap64((expires - now) * 1_000_000_000) == (expires - now) * 1_000_000_000;
    }
  }

  /** A span of 9223372037 seconds, more than 292 years, is such a one. */
  lemma {:induction false} LongLifetimePasses(o: Options, clock: int)
    requires o.now == 1 && o.expiresAt == 9_223_372_038
    ensures Times(o, clock) == Some((1, 9_223_372_038))
  {
    assert 9_223_372_037 * 1_000_000_000 + 0x8000_0000_0000_0000 == 0x1_0000_0000_0000_0000 + 145_224_192;
    assert Wrap64(9_223_372_037 * 1_000_000_000) < 0;
  }

  /** fixedOrRandom */
  function FixedOrRandom(value: Option<bytes>, random: bytes): Option<bytes> {
    match value
    case Some(fixed) => if |fixed| == 32 then Some(fixed) else None
    case None => Some(random)
  }

  /** The payload of a beacon, if the options pass. */
  function MakePayload(env: Env, o: Options, clock: int, randomBeaconId: bytes): Option<Payload> {
    match (Times(o, clock), FixedOrRandom(o.beaconId, randomBeaconId), NormalizeEndpoints(o.endpoints, env.wssOk),
           NormalizeTexts(Versions(o)), NormalizeTexts(Profiles(o)), NormalizeTexts(Capabilities(o)))
    case (Some((now, expires)), Some(id), Some(endpoints), Some(versions), Some(profiles), Some(capabilities)) =>
      Some(Payload(id, if o.sequence == 0 then 1 else o.sequence, now, expires, None, versions, profiles, capabilities, endpoints))
    case _ => None
  }

  /** The envelope around an encoded payload, not yet signed. */
  function MakeEnvelope(o: Options, p: Payload, encoded: bytes, eventId: bytes): Envelope {
    Envelope(ProtocolId(), eventId, EventType(), SignatureAlg(), o.publicKey, p.issuedAt, p.expiresAt, PublicMode(), encoded, SignatureAlg(), [])
  }

  function Signed(e: Envelope, sign: bytes -> Option<bytes>): Option<Envelope> {
    match Encode(Map(UnsignedFields(e)))
    case None => None
    case Some(unsigned) =>
      match sign(SignatureDomain() + unsigned)
      case None => None
      case Some(signature) => if |signature| == 64 then Some(e.(signature := signature)) else None
  }

  datatype Created = Created(wrapper: bytes, envelope: Envelope, payload: Payload)

  /** CreateBootstrapBeaconWrapper, with the records it built on the way. */
  function Create(env: Env, o: Options, clock: int, sign: bytes -> Option<bytes>, randomBeaconId: bytes, randomEventId: bytes): Option<Created> {
    if |o.publicKey| != 32 then None
    else
      match (MakePayload(env, o, clock, randomBeaconId), FixedOrRandom(o.eventId, randomEventId))
      case (Some(p), Some(eventId)) => (
        match Encode(Map(PayloadFields(p)))
        case None => None
        case Some(encoded) =>
          match Signed(MakeEnvelope(o, p, encoded, eventId), sign)
          case None => None
          case Some(e) => Finish(env, e, p))
      case _ => None
  }

  function Finish(env: Env, e: Envelope, p: Payload): Option<Created> {
    match Encode(Map(SignedFields(e)))
    case None => None
    case Some(signed) =>
      if |signed| > MAX_ENVELOPE_BYTES then None else Some(Created(WrapperPrefix() + Base64Url.Encode(signed), e, p))
  }

  // ---------------------------------------------------------------- validate

  datatype Reason =
    | MalformedWrapper | EnvelopeOversized | InvalidBase64 | InvalidCbor | NonCanonicalCbor | UnknownField | UnsupportedProtocol
    | UnsupportedEventType | RecipientTagPresent | InvalidPayloadMode | InvalidSender | InvalidSignatureAlg | SignatureInvalid
    | Expired | CreatedInFuture | PayloadOversized | PayloadInvalid | PayloadExpiryMismatch | PayloadIssuedAfterCreate

  datatype Verdict<+T> = Accepted(value: T) | Refused(reason: Reason)

  function EnvelopeNames(): seq<bytes> {
    [Lit("protocol"), Lit("event_id"), Lit("type"), Lit("sender"), Lit("recipient_tag"), Lit("created_at"), Lit("expires_at"),
     Lit("payload_mode"), Lit("payload"), Lit("signature_alg"), Lit("signature")]
  }

  /** readBootstrapBeaconSender */
  function ReadSender(v: Option<Value>): Verdict<(bytes, bytes)> {
    match v
    case Some(Map(entries)) =>
      if !AllKnown(entries, [Lit("key_alg"), Lit("public_key")]) then Refused(InvalidSender)
      else (
        match (ReadText(entries, Lit("key_alg")), ReadBlob(entries, Lit("public_key"), 32))
        case (Some(alg), Some(key)) => if alg == SignatureAlg() then Accepted((alg, key)) else Refused(InvalidSender)
        case _ => Refused(InvalidSender))
    case _ => Refused(InvalidSender)
  }

  /** readBootstrapBeaconEnvelope */
  function ReadEnvelope(entries: seq<Entry>): Verdict<Envelope> {
    if !AllKnown(entries, EnvelopeNames()) then Refused(UnknownField)
    else if Find(entries, Lit("recipient_tag")).Some? then Refused(RecipientTagPresent)
    else if ReadText(entries, Lit("protocol")) != Some(ProtocolId()) then Refused(UnsupportedProtocol)
    else if ReadText(entries, Lit("type")) != Some(EventType()) then Refused(UnsupportedEventType)
    else if ReadText(entries, Lit("payload_mode")) != Some(PublicMode()) then Refused(InvalidPayloadMode)
    else if ReadText(entries, Lit("signature_alg")) != Some(SignatureAlg()) then Refused(InvalidSignatureAlg)
    else
      match ReadSender(Find(entries, Lit("sender")))
      case Refused(reason) => Refused(reason)
      case Accepted((alg, key)) =>
        match (ReadUint(entries, Lit("created_at")), ReadUint(entries, Lit("expires_at")))
        case (Some(created), Some(expires)) =>
          if expires <= created then Refused(Expired)
          else (
            match (ReadBlob(entries, Lit("event_id"), 32), ReadBlob(entries, Lit("payload"), 0), ReadBlob(entries, Lit("signature"), 64))
            case (Some(id), Some(payload), Some(signature)) =>
              Accepted(Envelope(ProtocolId(), id, EventType(), alg, key, created, expires, PublicMode(), payload, SignatureAlg(), signature))
            case _ => Refused(InvalidCbor))
        case _ => Refused(InvalidCbor)
  }

  function PayloadNames(): seq<bytes> {
    [Lit("beacon_id"), Lit("sequence"), Lit("issued_at"), Lit("expires_at"), Lit("previous_beacon_id"), Lit("revokes"), Lit("protocol_versions"),
     Lit("profile_multihashes"), Lit("relay_capabilities"), Lit("relay_endpoints"), Lit("rendezvous_boards"), Lit("mirror_hints"), Lit("proofs")]
  }

  /** isBoundedBootstrapPublicValue */
  predicate Bounded(v: Value, depth: nat)
    decreases v
  {
    depth <= 3
    && match v
       case Uint(number) => number <= MAX_TIMESTAMP
       case Text(text) => text != [] && |text| <= MAX_STRING_BYTES
       case Blob(data) => 0 < |data| <= MAX_BYTES
       case Array(items) => |items| <= 16 && forall i :: 0 <= i < |items| ==> Bounded(items[i], depth + 1)
       case Map(entries) =>
         && |entries| <= 16
         && forall i :: 0 <= i < |entries| ==> 0 < |entries[i].key| <= MAX_STRING_BYTES && Bounded(entries[i].value, depth + 1)
       case Bool(_) => false
  }

  predicate OptionalBounded(entries: seq<Entry>, key: bytes) {
    Find(entries, key).Some? ==> Bounded(Find(entries, key).value, 0)
  }

  predicate OptionalsOk(entries: seq<Entry>) {
    OptionalBounded(entries, Lit("revokes")) && OptionalBounded(entries, Lit("rendezvous_boards"))
    && OptionalBounded(entries, Lit("mirror_hints")) && OptionalBounded(entries, Lit("proofs"))
  }

  function ReadPrevious(entries: seq<Entry>): Option<Option<bytes>> {
    if Find(entries, Lit("previous_beacon_id")).None? then Some(None)
    else
      match ReadBlob(entries, Lit("previous_beacon_id"), 32)
      case None => None
      case Some(id) => Some(Some(id))
  }

  /** hasSupportedBootstrapProfile */
  predicate Supported(profiles: seq<bytes>, supported: seq<bytes>) {
    exists i :: 0 <= i < |profiles| && profiles[i] in supported
  }

  /** The readers of readBootstrapBeaconPayload after its unknown-field test; every refusal has the same reason. */
  ghost function ReadPayloadMap(env: Env, entries: seq<Entry>, supported: seq<bytes>): Option<Payload> {
    match (ReadTexts(Find(entries, Lit("protocol_versions")), 8), ReadTexts(Find(entries, Lit("profile_multihashes")), 8),
           ReadTexts(Find(entries, Lit("relay_capabilities")), 32))
    case (Some(versions), Some(profiles), Some(capabilities)) =>
      if ProtocolId() !in versions || !Supported(profiles, supported) || ForwardRole() !in capabilities then None
      else (
        match (ReadEndpoints(Find(entries, Lit("relay_endpoints")), env.wssOk), ReadBlob(entries, Lit("beacon_id"), 32), ReadUint(entries, Lit("sequence")),
               ReadUint(entries, Lit("issued_at")), ReadUint(entries, Lit("expires_at")), ReadPrevious(entries))
        case (Some(endpoints), Some(id), Some(sequence), Some(issued), Some(expires), Some(previous)) =>
          if OptionalsOk(entries) then Some(Payload(id, sequence, issued, expires, previous, versions, profiles, capabilities, endpoints)) else None
        case _ => None)
    case _ => None
  }

  /** readBootstrapBeaconPayload */
  ghost function ReadPayload(env: Env, data: bytes, supported: seq<bytes>): Verdict<Payload> {
    if |data| > MAX_BYTES then Refused(PayloadOversized)
    else
      match Decode(data, MAX_STRING_BYTES)
      case Failure(NonCanonical) => Refused(NonCanonicalCbor)
      case Failure(Invalid) => Refused(PayloadInvalid)
      case Success(Map(entries)) =>
        if !AllKnown(entries, PayloadNames()) then Refused(UnknownField)
        else (
          match ReadPayloadMap(env, entries, supported)
          case None => Refused(PayloadInvalid)
          case Some(p) => Accepted(p))
      case Success(_) => Refused(PayloadInvalid)
  }

  /** validBootstrapBranchTextWrapper */
  predicate WrapperOk(wrapper: bytes) {
    && WrapperPrefix() <= wrapper
    && |WrapperPrefix()| < |wrapper| <= MAX_ENVELOPE_BYTES
    && forall i :: |WrapperPrefix()| <= i < |wrapper| ==> Base64Url.IsDigit(wrapper[i])
  }

  /** The tests on an envelope that was read, in order. */
  ghost function CheckEnvelope(env: Env, e: Envelope, signed: bytes, now: int, skew: int, supported: seq<bytes>): Verdict<(Envelope, Payload)> {
    if Encode(Map(SignedFields(e))) != Some(signed) then Refused(NonCanonicalCbor)
    else
      match Encode(Map(UnsignedFields(e)))
      case None => Refused(InvalidCbor)
      case Some(unsigned) =>
        if !env.verify(e.publicKey, SignatureDomain() + unsigned, e.signature) then Refused(SignatureInvalid)
        else if e.expiresAt <= now then Refused(Expired)
        else if e.createdAt > now + skew then Refused(CreatedInFuture)
        else
          match ReadPayload(env, e.payload, supported)
          case Refused(reason) => Refused(reason)
          case Accepted(p) =>
            if p.expiresAt != e.expiresAt then Refused(PayloadExpiryMismatch)
            else if p.issuedAt > e.createdAt then Refused(PayloadIssuedAfterCreate)
            else Accepted((e, p))
  }

  /** ValidateBranchTextBootstrapBeacon, after its defaults are filled in; `skew` in seconds. */
  ghost function Validate(env: Env, wrapper: bytes, now: int, skew: int, supported: seq<bytes>): Verdict<(Envelope, Payload)> {
    if !WrapperOk(wrapper) then Refused(MalformedWrapper)
    else
      match Base64Url.Decode(wrapper[|WrapperPrefix()|..])
      case None => Refused(InvalidBase64)
      case Some(signed) =>
        if |signed| > MAX_ENVELOPE_BYTES then Refused(EnvelopeOversized)
        else
          match Decode(signed, MAX_STRING_BYTES)
          case Failure(NonCanonical) => Refused(NonCanonicalCbor)
          case Failure(Invalid) => Refused(InvalidCbor)
          case Success(Map(entries)) => (
            match ReadEnvelope(entries)
            case Refused(reason) => Refused(reason)
            case Accepted(e) => CheckEnvelope(env, e, signed, now, skew, supported))
          case Success(_) => Refused(InvalidCbor)
  }
}
