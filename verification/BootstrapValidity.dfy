/**
  What a beacon is that Validate accepts, told by its bytes and its records: it is well formed, its issuer signed it, it is
  alive, and its payload says what the reader returns.
*/
module BootstrapValidity {
  import opened Bytes
  import opened Sorting
  import opened Cbor
  import opened CborParse
  import opened CborTheorems
  import opened CborFields
  import opened BootstrapLists
  import opened BootstrapEndpoints
  import opened BootstrapBeacons
  import opened BootstrapAcceptance
  import Base64Url

  const LARGEST := 9_007_199_254_740_991

  // ---------------------------------------------------------------- lists of texts

  ghost predicate InOrder(values: seq<bytes>) {
    forall i, j :: 0 <= i < j < |values| ==> Precedes(values[i], values[j])
  }

  lemma {:induction false} InOrderIs(values: seq<bytes>)
    ensures InOrder(values) <==> Ascending(TextLess(), values)
  {
    forall i, j | 0 <= i < j < |values| ensures Precedes(values[i], values[j]) <==> TextLess()(values[i], values[j]) {
      LessExact(values[i], values[j]);
    }
    hide Precedes, Less;
  }

  /** A normalised list holds the same texts in the order of their bytes, and there is one exactly for bounded, distinct texts. */
  lemma {:induction false} NormalizeTextsExact(values: seq<bytes>)
    ensures NormalizeTexts(values).Some? <==>
              (forall i :: 0 <= i < |values| ==> 0 < |values[i]| <= 128) && (forall i, j :: 0 <= i < j < |values| ==> values[i] != values[j])
    ensures NormalizeTexts(values).Some? ==> multiset(NormalizeTexts(values).value) == multiset(values) && InOrder(NormalizeTexts(values).value)
  {
    if NormalizeTexts(values).Some? {
      NormalizedTexts(values);
      InOrderIs(NormalizeTexts(values).value);
    }
    hide Ascending, InOrder, Sort;
  }

  /** The value is a list of these texts, bounded, in order and not too many. */
  ghost predicate SaysTexts(v: Option<Value>, values: seq<bytes>, maxItems: nat) {
    && v.Some? && v.value.Array? && |v.value.items| == |values| && 0 < |values| <= maxItems
    && (forall i :: 0 <= i < |values| ==> v.value.items[i] == Text(values[i]) && 0 < |values[i]| <= 128)
    && InOrder(values)
  }

  lemma {:induction false} ReadTextsExact(v: Option<Value>, values: seq<bytes>, maxItems: nat)
    ensures ReadTexts(v, maxItems) == Some(values) <==> SaysTexts(v, values, maxItems)
  {
    InOrderIs(values);
    hide InOrder, Ascending;
    if SaysTexts(v, values, maxItems) {
      assert TextsOf(v.value.items) == values;
    }
  }

  // ---------------------------------------------------------------- endpoints

  predicate TransportName(t: bytes) {
    && 0 < |t| <= 32 && 97 <= t[0] <= 122
    && forall i :: 0 <= i < |t| ==> 97 <= t[i] <= 122 || 48 <= t[i] <= 57 || t[i] == 46 || t[i] == 43 || t[i] == 45
  }

  predicate Admits(e: Endpoint, wssOk: bytes -> bool) {
    TransportName(e.transport) && 0 < |e.uri| <= 512 && (e.transport == Lit("wss") ==> wssOk(e.uri))
  }

  /** Up to eight endpoints, no two with one transport and address, and one of them over WSS. */
  predicate AdmitsAll(es: seq<Endpoint>, wssOk: bytes -> bool) {
    && 0 < |es| <= 8 && (forall i :: 0 <= i < |es| ==> Admits(es[i], wssOk))
    && (forall i, j :: 0 <= i < j < |es| ==> es[i].transport != es[j].transport || es[i].uri != es[j].uri)
    && exists i :: 0 <= i < |es| && es[i].transport == Lit("wss")
  }

  lemma {:induction false} AdmitsAllIs(es: seq<Endpoint>, wssOk: bytes -> bool)
    ensures AdmitsAll(es, wssOk) <==> EndpointsOk(es, wssOk)
  {
    forall i | 0 <= i < |es| ensures Admits(es[i], wssOk) <==> EndpointOk(es[i], wssOk) {}
    hide Admits, EndpointOk;
  }

  /** The smaller priority first; of one priority the smaller transport, and of one transport the smaller address, by their bytes. */
  ghost predicate Ranked(a: Endpoint, b: Endpoint) {
    || a.priority < b.priority
    || (a.priority == b.priority && Precedes(a.transport, b.transport))
    || (a.priority == b.priority && a.transport == b.transport && Precedes(a.uri, b.uri))
  }

  lemma {:induction false} NormalizeEndpointsExact(es: seq<Endpoint>, wssOk: bytes -> bool)
    ensures NormalizeEndpoints(es, wssOk).Some? <==> AdmitsAll(es, wssOk)
    ensures var ordered := NormalizeEndpoints(es, wssOk);
            ordered.Some? ==>
              && multiset(ordered.value) == multiset(es)
              && forall i, j :: 0 <= i < j < |ordered.value| ==> Ranked(ordered.value[i], ordered.value[j])
  {
    AdmitsAllIs(es, wssOk);
    if NormalizeEndpoints(es, wssOk).Some? {
      SortedEndpoints(es);
      var ordered := NormalizeEndpoints(es, wssOk).value;
      forall i, j | 0 <= i < j < |ordered| ensures Ranked(ordered[i], ordered[j]) {
        assert EndpointLess()(ordered[i], ordered[j]);
        LessExact(ordered[i].transport, ordered[j].transport);
        LessExact(ordered[i].uri, ordered[j].uri);
      }
    }
    hide AdmitsAll, EndpointsOk, Precedes, Less, Sort;
  }

  /** The value is a record of this endpoint and of nothing else. */
  predicate SaysEndpoint(v: Value, e: Endpoint) {
    && v.Map?
    && (forall i :: 0 <= i < |v.entries| ==> v.entries[i].key in [Lit("transport"), Lit("uri"), Lit("priority")])
    && Find(v.entries, Lit("transport")) == Some(Text(e.transport))
    && Find(v.entries, Lit("uri")) == Some(Text(e.uri))
    && Find(v.entries, Lit("priority")) == Some(Uint(e.priority)) && e.priority <= LARGEST
    && TransportName(e.transport) && 0 < |e.uri| <= 512
  }

  ghost predicate SaysEndpoints(v: Option<Value>, es: seq<Endpoint>, wssOk: bytes -> bool) {
    && v.Some? && v.value.Array? && |v.value.items| == |es|
    && (forall i :: 0 <= i < |es| ==> SaysEndpoint(v.value.items[i], es[i]))
    && (forall i :: 0 < i < |es| ==> es[i - 1].priority <= es[i].priority)
    && AdmitsAll(es, wssOk)
  }

  lemma {:induction false} ReadEndpointExact(v: Value, e: Endpoint)
    ensures ReadEndpoint(v) == Some(e) <==> SaysEndpoint(v, e)
  {
    hide Find;
  }

  lemma {:induction false} ReadEndpointsExact(v: Option<Value>, es: seq<Endpoint>, wssOk: bytes -> bool)
    ensures ReadEndpoints(v, wssOk) == Some(es) <==> SaysEndpoints(v, es, wssOk)
  {
    AdmitsAllIs(es, wssOk);
    hide AdmitsAll, EndpointsOk;
    if v.Some? && v.value.Array? && |v.value.items| == |es| {
      var items := v.value.items;
      forall i | 0 <= i < |es| ensures ReadEndpoint(items[i]) == Some(es[i]) <==> SaysEndpoint(items[i], es[i]) {
        ReadEndpointExact(items[i], es[i]);
      }
      hide SaysEndpoint, ReadEndpoint;
      if SaysEndpoints(v, es, wssOk) {
        SizeAdmitted(es, wssOk);
        assert EndpointsOf(items) == es;
      }
    }
  }

  lemma {:induction false} SizeAdmitted(es: seq<Endpoint>, wssOk: bytes -> bool)
    requires AdmitsAll(es, wssOk)
    ensures 0 < |es| <= 8
  {
  }

  // ---------------------------------------------------------------- the payload

  predicate SaysBlob(entries: seq<Entry>, key: bytes, data: bytes, size: nat) {
    Find(entries, key) == Some(Blob(data)) && |data| == size
  }

  predicate SaysUint(entries: seq<Entry>, key: bytes, number: uint64) {
    Find(entries, key) == Some(Uint(number)) && number <= LARGEST
  }

  predicate SaysPrevious(entries: seq<Entry>, previous: Option<bytes>) {
    match previous
    case None => Find(entries, Lit("previous_beacon_id")) == None
    case Some(id) => SaysBlob(entries, Lit("previous_beacon_id"), id, 32)
  }

  /** How deep arrays and maps are nested in a value. */
  function Nesting(v: Value): nat
    decreases v
  {
    match v
    case Array(items) => if items == [] then 0 else 1 + NestingOf(items)
    case Map(entries) => if entries == [] then 0 else 1 + NestingIn(entries)
    case _ => 0
  }

  function NestingOf(items: seq<Value>): nat
    decreases items
  {
    if items == [] then 0
    else
      var rest := NestingOf(items[1..]);
      if Nesting(items[0]) > rest then Nesting(items[0]) else rest
  }

  function NestingIn(entries: seq<Entry>): nat
    decreases entries
  {
    if entries == [] then 0
    else
      var rest := NestingIn(entries[1..]);
      if Nesting(entries[0].value) > rest then Nesting(entries[0].value) else rest
  }

  /** No Boolean, no empty or long text, key or byte string, no large number, and no long list, anywhere in a value. */
  predicate SmallParts(v: Value)
    decreases v
  {
    match v
    case Uint(number) => number <= LARGEST
    case Text(text) => 0 < |text| <= 1024
    case Blob(data) => 0 < |data| <= 49_152
    case Array(items) => |items| <= 16 && forall i :: 0 <= i < |items| ==> SmallParts(items[i])
    case Map(entries) =>
      |entries| <= 16 && forall i :: 0 <= i < |entries| ==> 0 < |entries[i].key| <= 1024 && SmallParts(entries[i].value)
    case Bool(_) => false
  }

  lemma {:induction false} DeepestItem(items: seq<Value>, limit: int)
    ensures (forall i :: 0 <= i < |items| ==> Nesting(items[i]) <= limit) <==> items == [] || NestingOf(items) <= limit
  {
    if items != [] {
      DeepestItem(items[1..], limit);
      if forall i :: 0 <= i < |items[1..]| ==> Nesting(items[1..][i]) <= limit {
        assert forall i :: 0 < i < |items| ==> items[i] == items[1..][i - 1];
      }
      hide Nesting;
    }
  }

  lemma {:induction false} DeepestEntry(entries: seq<Entry>, limit: int)
    ensures (forall i :: 0 <= i < |entries| ==> Nesting(entries[i].value) <= limit) <==> entries == [] || NestingIn(entries) <= limit
  {
    if entries != [] {
      DeepestEntry(entries[1..], limit);
      if forall i :: 0 <= i < |entries[1..]| ==> Nesting(entries[1..][i].value) <= limit {
        assert forall i :: 0 < i < |entries| ==> entries[i] == entries[1..][i - 1];
      }
      hide Nesting;
    }
  }

  /** Values that the reader leaves alone are small in every part and nested at most three deep. */
  lemma {:induction false} BoundedExact(v: Value, depth: nat)
    ensures Bounded(v, depth) <==> depth + Nesting(v) <= 3 && SmallParts(v)
    decreases v
  {
    match v
    case Array(items) =>
      DeepestItem(items, 2 - depth);
      forall i | 0 <= i < |items| ensures Bounded(items[i], depth + 1) <==> depth + 1 + Nesting(items[i]) <= 3 && SmallParts(items[i]) {
        BoundedExact(items[i], depth + 1);
      }
    case Map(entries) =>
      DeepestEntry(entries, 2 - depth);
      forall i | 0 <= i < |entries| ensures Bounded(entries[i].value, depth + 1) <==> depth + 1 + Nesting(entries[i].value) <= 3 && SmallParts(entries[i].value) {
        BoundedExact(entries[i].value, depth + 1);
      }
    case _ =>
  }

  ghost predicate SmallIfThere(entries: seq<Entry>, key: bytes) {
    Find(entries, key).Some? ==> Nesting(Find(entries, key).value) <= 3 && SmallParts(Find(entries, key).value)
  }

  ghost predicate OthersSmall(entries: seq<Entry>) {
    && SmallIfThere(entries, Lit("revokes")) && SmallIfThere(entries, Lit("rendezvous_boards"))
    && SmallIfThere(entries, Lit("mirror_hints")) && SmallIfThere(entries, Lit("proofs"))
  }

  lemma {:induction false} OthersSmallIs(entries: seq<Entry>)
    ensures OthersSmall(entries) <==> OptionalsOk(entries)
  {
    SmallIs(entries, Lit("revokes"));
    SmallIs(entries, Lit("rendezvous_boards"));
    SmallIs(entries, Lit("mirror_hints"));
    SmallIs(entries, Lit("proofs"));
    hide SmallIfThere, OptionalBounded;
  }

  lemma {:induction false} SmallIs(entries: seq<Entry>, key: bytes)
    ensures SmallIfThere(entries, key) <==> OptionalBounded(entries, key)
  {
    if Find(entries, key).Some? {
      BoundedExact(Find(entries, key).value, 0);
    }
    hide Nesting, SmallParts, Bounded, Find;
  }

  /** The payload names this protocol, a supported profile and the role of a forwarding relay. */
  predicate Fitting(p: Payload, supported: seq<bytes>) {
    && Lit("branch/connectivity/0") in p.versions && Lit("relay.forward.live/0") in p.capabilities
    && (exists t :: t in p.profiles && t in supported)
  }

  ghost predicate SaysLists(env: Env, entries: seq<Entry>, p: Payload) {
    && SaysTexts(Find(entries, Lit("protocol_versions")), p.versions, 8)
    && SaysTexts(Find(entries, Lit("profile_multihashes")), p.profiles, 8)
    && SaysTexts(Find(entries, Lit("relay_capabilities")), p.capabilities, 32)
    && SaysEndpoints(Find(entries, Lit("relay_endpoints")), p.endpoints, env.wssOk)
  }

  predicate SaysNumbers(entries: seq<Entry>, p: Payload) {
    && SaysBlob(entries, Lit("beacon_id"), p.beaconId, 32)
    && SaysUint(entries, Lit("sequence"), p.sequence)
    && SaysUint(entries, Lit("issued_at"), p.issuedAt)
    && SaysUint(entries, Lit("expires_at"), p.expiresAt)
    && SaysPrevious(entries, p.previous)
  }

  ghost predicate SaysPayload(env: Env, entries: seq<Entry>, p: Payload, supported: seq<bytes>) {
    SaysLists(env, entries, p) && Fitting(p, supported) && SaysNumbers(entries, p) && OthersSmall(entries)
  }

  lemma {:induction false} ReadBlobIs(entries: seq<Entry>, key: bytes, data: bytes, size: nat)
    requires 0 < size <= MAX_BYTES
    ensures ReadBlob(entries, key, size) == Some(data) <==> SaysBlob(entries, key, data, size)
  {
  }

  lemma {:induction false} ReadUintIs(entries: seq<Entry>, key: bytes, number: uint64)
    ensures ReadUint(entries, key) == Some(number) <==> SaysUint(entries, key, number)
  {
  }

  lemma {:induction false} ReadPreviousIs(entries: seq<Entry>, previous: Option<bytes>)
    ensures ReadPrevious(entries) == Some(previous) <==> SaysPrevious(entries, previous)
  {
    if previous.Some? {
      ReadBlobIs(entries, Lit("previous_beacon_id"), previous.value, 32);
    }
    hide Lit;
  }

  lemma {:induction false} ReadNumbersIs(entries: seq<Entry>, p: Payload)
    ensures SaysNumbers(entries, p)
       <==> ReadBlob(entries, Lit("beacon_id"), 32) == Some(p.beaconId) && ReadUint(entries, Lit("sequence")) == Some(p.sequence)
            && ReadUint(entries, Lit("issued_at")) == Some(p.issuedAt) && ReadUint(entries, Lit("expires_at")) == Some(p.expiresAt)
            && ReadPrevious(entries) == Some(p.previous)
  {
    ReadBlobIs(entries, Lit("beacon_id"), p.beaconId, 32);
    ReadUintIs(entries, Lit("sequence"), p.sequence);
    ReadUintIs(entries, Lit("issued_at"), p.issuedAt);
    ReadUintIs(entries, Lit("expires_at"), p.expiresAt);
    ReadPreviousIs(entries, p.previous);
    hide ReadBlob, ReadUint, ReadPrevious, SaysBlob, SaysUint, SaysPrevious, Lit;
  }

  lemma {:induction false} FittingIs(p: Payload, supported: seq<bytes>)
    ensures Fitting(p, supported) <==> ProtocolId() in p.versions && Supported(p.profiles, supported) && ForwardRole() in p.capabilities
  {
    assert Supported(p.profiles, supported) <==> exists t :: t in p.profiles && t in supported;
    hide Supported, Lit;
  }

  lemma {:induction false} ReadListsIs(env: Env, entries: seq<Entry>, p: Payload)
    ensures SaysLists(env, entries, p)
       <==> ReadTexts(Find(entries, Lit("protocol_versions")), 8) == Some(p.versions)
            && ReadTexts(Find(entries, Lit("profile_multihashes")), 8) == Some(p.profiles)
            && ReadTexts(Find(entries, Lit("relay_capabilities")), 32) == Some(p.capabilities)
            && ReadEndpoints(Find(entries, Lit("relay_endpoints")), env.wssOk) == Some(p.endpoints)
  {
    ReadTextsExact(Find(entries, Lit("protocol_versions")), p.versions, 8);
    ReadTextsExact(Find(entries, Lit("profile_multihashes")), p.profiles, 8);
    ReadTextsExact(Find(entries, Lit("relay_capabilities")), p.capabilities, 32);
    ReadEndpointsExact(Find(entries, Lit("relay_endpoints")), p.endpoints, env.wssOk);
    hide SaysTexts, ReadTexts, SaysEndpoints, ReadEndpoints, Lit, Find;
  }

  lemma {:induction false} ReadPayloadMapExact(env: Env, entries: seq<Entry>, p: Payload, supported: seq<bytes>)
    ensures ReadPayloadMap(env, entries, supported) == Some(p) <==> SaysPayload(env, entries, p, supported)
  {
    ReadListsIs(env, entries, p);
    FittingIs(p, supported);
    ReadNumbersIs(entries, p);
    OthersSmallIs(entries);
    hide SaysLists, Fitting, SaysNumbers, OthersSmall, OptionalsOk, ReadTexts, ReadEndpoints, ReadBlob, ReadUint, ReadPrevious, Supported, Find, Lit, ProtocolId, ForwardRole;
  }

  /** The fields that are read, and those that only have to be small. */
  function FieldKeys(): seq<bytes> {
    [Lit("beacon_id"), Lit("sequence"), Lit("issued_at"), Lit("expires_at"), Lit("protocol_versions"), Lit("profile_multihashes"),
     Lit("relay_capabilities"), Lit("relay_endpoints")]
  }

  function OptionalKeys(): seq<bytes> {
    [Lit("previous_beacon_id"), Lit("revokes"), Lit("rendezvous_boards"), Lit("mirror_hints"), Lit("proofs")]
  }

  predicate PayloadKeys(entries: seq<Entry>) {
    forall i :: 0 <= i < |entries| ==> entries[i].key in FieldKeys() || entries[i].key in OptionalKeys()
  }

  /** The bytes of a payload, which the decoder takes, are a map of what p says and of nothing else that counts. */
  ghost predicate IsPayload(env: Env, data: bytes, p: Payload, supported: seq<bytes>) {
    && |data| <= 49_152
    && DecodeMap(data).Some? && PayloadKeys(DecodeMap(data).value) && SaysPayload(env, DecodeMap(data).value, p, supported)
  }

  lemma {:induction false} PayloadKeysAre(entries: seq<Entry>)
    ensures PayloadKeys(entries) <==> AllKnown(entries, PayloadNames())
  {
    hide Lit;
  }

  lemma {:induction false} ReadPayloadExact(env: Env, data: bytes, p: Payload, supported: seq<bytes>)
    ensures ReadPayload(env, data, supported) == Accepted(p) <==> IsPayload(env, data, p, supported)
  {
    if DecodeMap(data).Some? {
      ReadPayloadMapExact(env, DecodeMap(data).value, p, supported);
      PayloadKeysAre(DecodeMap(data).value);
    }
    hide SaysPayload, ReadPayloadMap, PayloadKeys, AllKnown, Decode;
  }

  // ---------------------------------------------------------------- the envelope

  /** A public beacon of this protocol, under Ed25519. */
  predicate Labelled(e: Envelope) {
    && e.protocol == Lit("branch/connectivity/0") && e.kind == Lit("bootstrap.beacon") && e.payloadMode == Lit("public")
    && e.keyAlg == Lit("ed25519") && e.signatureAlg == Lit("ed25519")
  }

  /** One with a key and a signature that ends after it began. */
  predicate IsEnvelope(e: Envelope) {
    && Labelled(e) && |e.eventId| == 32 && |e.publicKey| == 32 && |e.signature| == 64 && 0 < |e.payload| <= 49_152
    && e.createdAt < e.expiresAt <= LARGEST
  }

  /** What the issuer signs. */
  function Statement(e: Envelope): Value {
    Map([Entry(Lit("protocol"), Text(e.protocol)), Entry(Lit("event_id"), Blob(e.eventId)), Entry(Lit("type"), Text(e.kind)),
         Entry(Lit("sender"), Map([Entry(Lit("key_alg"), Text(e.keyAlg)), Entry(Lit("public_key"), Blob(e.publicKey))])),
         Entry(Lit("created_at"), Uint(e.createdAt)), Entry(Lit("expires_at"), Uint(e.expiresAt)),
         Entry(Lit("payload_mode"), Text(e.payloadMode)), Entry(Lit("payload"), Blob(e.payload)),
         Entry(Lit("signature_alg"), Text(e.signatureAlg))])
  }

  /** The record in the wrapper: the statement with its signature. */
  function Record(e: Envelope): Value {
    Map(Statement(e).entries + [Entry(Lit("signature"), Blob(e.signature))])
  }

  /** The wrapper carries these bytes. */
  predicate Carries(wrapper: bytes, signed: bytes) {
    && 8 < |wrapper| <= 65_536 && wrapper[..8] == Lit("BRANCH0.")
    && (forall i :: 8 <= i < |wrapper| ==> Base64Url.IsDigit(wrapper[i]))
    && Base64Url.Decode(wrapper[8..]) == Some(signed)
  }

  ghost predicate SignedByIssuer(env: Env, e: Envelope) {
    exists statement ::
      Encode(Statement(e)) == Some(statement) && env.verify(e.publicKey, Lit("BRANCH signed event v0") + [10] + statement, e.signature)
  }

  /**
    The wrapper is the one spelling of a well-formed envelope that its issuer signed and that is alive, around a payload of
    the same end that was not issued after the envelope.
  */
  ghost predicate Genuine(env: Env, wrapper: bytes, e: Envelope, p: Payload, now: int, skew: int, supported: seq<bytes>) {
    && (exists signed :: Encode(Record(e)) == Some(signed) && Carries(wrapper, signed) && |signed| <= 65_536)
    && IsEnvelope(e) && SignedByIssuer(env, e)
    && now < e.expiresAt && e.createdAt <= now + skew
    && IsPayload(env, e.payload, p, supported) && p.expiresAt == e.expiresAt && p.issuedAt <= e.createdAt
  }

  lemma {:induction false} RecordIs(e: Envelope)
    ensures Statement(e) == Map(UnsignedFields(e)) && Record(e) == Map(SignedFields(e))
  {
    hide Lit;
  }

  lemma {:induction false} PrefixIs()
    ensures Lit("BRANCH0.") == WrapperPrefix() && |WrapperPrefix()| == 8
  {
  }

  lemma {:induction false} CarriesIs(wrapper: bytes, signed: bytes)
    ensures Carries(wrapper, signed) <==> WrapperOk(wrapper) && Base64Url.Decode(wrapper[|WrapperPrefix()|..]) == Some(signed)
  {
    PrefixIs();
    hide WrapperPrefix, Lit;
  }

  lemma {:induction false} EnvelopeIs(e: Envelope)
    ensures IsEnvelope(e) <==> Sealed(e) && |e.payload| <= MAX_BYTES
  {
    hide Lit;
  }

  lemma {:induction false} SenderSound(v: Option<Value>, alg: bytes, key: bytes)
    requires ReadSender(v) == Accepted((alg, key))
    ensures alg == SignatureAlg() && |key| == 32
  {
    hide SignatureAlg, Lit, Find;
  }

  /** What is read is well formed. */
  lemma {:induction false} ReadEnvelopeSound(entries: seq<Entry>, e: Envelope)
    requires ReadEnvelope(entries) == Accepted(e)
    ensures Sealed(e) && |e.payload| <= MAX_BYTES
  {
    SenderSound(Find(entries, Lit("sender")), e.keyAlg, e.publicKey);
    hide ReadSender, ReadText, Lit, Find, ProtocolId, EventType, PublicMode, SignatureAlg, AllKnown;
  }

  lemma {:induction false} CheckExact(env: Env, e: Envelope, p: Payload, signed: bytes, now: int, skew: int, supported: seq<bytes>)
    ensures CheckEnvelope(env, e, signed, now, skew, supported) == Accepted((e, p))
       <==> Encode(Record(e)) == Some(signed) && SignedByIssuer(env, e) && now < e.expiresAt && e.createdAt <= now + skew
            && IsPayload(env, e.payload, p, supported) && p.expiresAt == e.expiresAt && p.issuedAt <= e.createdAt
  {
    RecordIs(e);
    ReadPayloadExact(env, e.payload, p, supported);
    hide UnsignedFields, SignedFields, Statement, Record, Encode, IsPayload, ReadPayload;
  }

  lemma {:induction false} CheckKeeps(env: Env, e: Envelope, signed: bytes, now: int, skew: int, supported: seq<bytes>)
    ensures CheckEnvelope(env, e, signed, now, skew, supported).Accepted? ==> CheckEnvelope(env, e, signed, now, skew, supported).value.0 == e
  {
    hide ReadPayload, Encode;
  }

  lemma {:induction false} AcceptedParts(env: Env, wrapper: bytes, e: Envelope, p: Payload, now: int, skew: int, supported: seq<bytes>) returns (signed: bytes)
    requires Validate(env, wrapper, now, skew, supported) == Accepted((e, p))
    ensures Carries(wrapper, signed) && |signed| <= 65_536 && DecodeMap(signed).Some? && ReadEnvelope(DecodeMap(signed).value) == Accepted(e)
    ensures CheckEnvelope(env, e, signed, now, skew, supported) == Accepted((e, p))
  {
    hide WrapperPrefix, Base64Url.Decode, Decode, ReadEnvelope, CheckEnvelope, Carries;
    signed := Base64Url.Decode(wrapper[|WrapperPrefix()|..]).value;
    CarriesIs(wrapper, signed);
    CheckKeeps(env, ReadEnvelope(DecodeMap(signed).value).value, signed, now, skew, supported);
  }

  lemma {:induction false} PartsAccepted(env: Env, wrapper: bytes, e: Envelope, p: Payload, signed: bytes, now: int, skew: int, supported: seq<bytes>)
    requires Carries(wrapper, signed) && |signed| <= 65_536 && DecodeMap(signed).Some? && ReadEnvelope(DecodeMap(signed).value) == Accepted(e)
    requires CheckEnvelope(env, e, signed, now, skew, supported) == Accepted((e, p))
    ensures Validate(env, wrapper, now, skew, supported) == Accepted((e, p))
  {
    ValidateChecks(env, wrapper, e, signed, now, skew, supported);
    hide Validate, CheckEnvelope;
  }

  /** A beacon is accepted, as this envelope and this payload, exactly if it is genuine. */
  lemma {:induction false} AcceptedExact(env: Env, wrapper: bytes, e: Envelope, p: Payload, now: int, skew: int, supported: seq<bytes>)
    ensures Validate(env, wrapper, now, skew, supported) == Accepted((e, p)) <==> Genuine(env, wrapper, e, p, now, skew, supported)
  {
    hide Validate, CheckEnvelope, ReadEnvelope, IsEnvelope, Sealed, SignedByIssuer, IsPayload, Carries, Encode, Decode, DecodeMap, Record, SignedFields;
    EnvelopeIs(e);
    RecordIs(e);
    if Validate(env, wrapper, now, skew, supported) == Accepted((e, p)) {
      var signed := AcceptedParts(env, wrapper, e, p, now, skew, supported);
      CheckExact(env, e, p, signed, now, skew, supported);
      ReadEnvelopeSound(DecodeMap(signed).value, e);
    }
    if Genuine(env, wrapper, e, p, now, skew, supported) {
      var signed :| Encode(Record(e)) == Some(signed) && Carries(wrapper, signed) && |signed| <= 65_536;
      CheckExact(env, e, p, signed, now, skew, supported);
      EnvelopeReadBack(e, signed);
      PartsAccepted(env, wrapper, e, p, signed, now, skew, supported);
    }
  }

  /** The first of these tests that fails gives the reason: signature, end, beginning, payload, and how the payload agrees. */
  ghost predicate Judged(env: Env, e: Envelope, now: int, skew: int, supported: seq<bytes>, verdict: Verdict<(Envelope, Payload)>) {
    if !SignedByIssuer(env, e) then verdict == Refused(SignatureInvalid)
    else if e.expiresAt <= now then verdict == Refused(Expired)
    else if e.createdAt > now + skew then verdict == Refused(CreatedInFuture)
    else PayloadJudged(env, e, supported, verdict)
  }

  ghost predicate PayloadJudged(env: Env, e: Envelope, supported: seq<bytes>, verdict: Verdict<(Envelope, Payload)>) {
    || (exists p :: IsPayload(env, e.payload, p, supported) && verdict == Compared(e, p))
    || (NoPayload(env, e.payload, supported) && verdict.Refused? && OfPayload(verdict.reason))
  }

  /** How a payload agrees with its envelope. */
  function Compared(e: Envelope, p: Payload): Verdict<(Envelope, Payload)> {
    if p.expiresAt != e.expiresAt then Refused(PayloadExpiryMismatch)
    else if p.issuedAt > e.createdAt then Refused(PayloadIssuedAfterCreate)
    else Verdict.Accepted((e, p))
  }

  ghost predicate NoPayload(env: Env, data: bytes, supported: seq<bytes>) { forall p :: !IsPayload(env, data, p, supported) }

  predicate OfPayload(reason: Reason) { reason == PayloadInvalid || reason == NonCanonicalCbor || reason == UnknownField }

  lemma {:induction false} PayloadRefused(env: Env, data: bytes, supported: seq<bytes>)
    requires |data| <= 49_152
    ensures match ReadPayload(env, data, supported)
            case Accepted(p) => IsPayload(env, data, p, supported)
            case Refused(reason) => NoPayload(env, data, supported) && OfPayload(reason)
  {
    forall p ensures ReadPayload(env, data, supported) == Accepted(p) <==> IsPayload(env, data, p, supported) {
      ReadPayloadExact(env, data, p, supported);
    }
    hide IsPayload, Decode, ReadPayloadMap, AllKnown;
  }

  lemma {:induction false} CheckedPayload(env: Env, e: Envelope, supported: seq<bytes>)
    requires |e.payload| <= 49_152
    ensures PayloadJudged(env, e, supported,
              match ReadPayload(env, e.payload, supported)
              case Refused(reason) => Refused(reason)
              case Accepted(p) => Compared(e, p))
  {
    PayloadRefused(env, e.payload, supported);
    hide ReadPayload, IsPayload, NoPayload, OfPayload, Compared;
  }

  lemma {:induction false} SignatureIs(env: Env, e: Envelope)
    ensures Encode(Map(UnsignedFields(e))).Some?
    ensures SignedByIssuer(env, e) <==> env.verify(e.publicKey, SignatureDomain() + Encode(Map(UnsignedFields(e))).value, e.signature)
  {
    RecordIs(e);
    EnvelopeEncodes(e);
    hide UnsignedFields, SignedFields, Statement, Record, Encode;
  }

  lemma {:induction false} CheckJudged(env: Env, e: Envelope, signed: bytes, now: int, skew: int, supported: seq<bytes>)
    requires Encode(Record(e)) == Some(signed) && |e.payload| <= 49_152
    ensures Judged(env, e, now, skew, supported, CheckEnvelope(env, e, signed, now, skew, supported))
  {
    RecordIs(e);
    SignatureIs(env, e);
    CheckedPayload(env, e, supported);
    hide Record, Statement, SignedFields, UnsignedFields, SignatureDomain, SignedByIssuer, Encode, ReadPayload, PayloadJudged;
  }

  lemma {:induction false} ValidateChecks(env: Env, wrapper: bytes, e: Envelope, signed: bytes, now: int, skew: int, supported: seq<bytes>)
    requires Carries(wrapper, signed) && |signed| <= 65_536 && DecodeMap(signed).Some? && ReadEnvelope(DecodeMap(signed).value) == Accepted(e)
    ensures Validate(env, wrapper, now, skew, supported) == CheckEnvelope(env, e, signed, now, skew, supported)
  {
    CarriesIs(wrapper, signed);
    hide WrapperOk, WrapperPrefix, Base64Url.Decode, Decode, ReadEnvelope, CheckEnvelope, Carries;
  }

  /** Why a well-formed envelope in its one spelling is refused, if it is. */
  lemma {:induction false} RefusedBecause(env: Env, wrapper: bytes, e: Envelope, signed: bytes, now: int, skew: int, supported: seq<bytes>)
    requires Encode(Record(e)) == Some(signed) && Carries(wrapper, signed) && |signed| <= 65_536 && IsEnvelope(e)
    ensures Judged(env, e, now, skew, supported, Validate(env, wrapper, now, skew, supported))
  {
    EnvelopeIs(e);
    RecordIs(e);
    hide IsEnvelope, Carries, Record, Statement, SignedFields, UnsignedFields, Encode, Validate, CheckEnvelope, Judged, ReadEnvelope, Decode, DecodeMap, Sealed;
    EnvelopeReadBack(e, signed);
    ValidateChecks(env, wrapper, e, signed, now, skew, supported);
    CheckJudged(env, e, signed, now, skew, supported);
  }

  // ---------------------------------------------------------------- what Create writes

  /** The same texts, or the default ones for none, in order. */
  ghost predicate Ordered(values: seq<bytes>, given: seq<bytes>, defaults: seq<bytes>) {
    multiset(values) == multiset(if given == [] then defaults else given) && InOrder(values)
  }

  ghost predicate OrderedEndpoints(es: seq<Endpoint>, given: seq<Endpoint>) {
    multiset(es) == multiset(given) && forall i, j :: 0 <= i < j < |es| ==> Ranked(es[i], es[j])
  }

  /** The payload that options and a clock stand for: seven days from now if they name no end. */
  ghost predicate PayloadOf(p: Payload, o: Options, clock: int, randomId: bytes) {
    && p.issuedAt == (if o.now == 0 then clock else o.now)
    && p.expiresAt == (if o.expiresAt == 0 then p.issuedAt + 604_800 else o.expiresAt)
    && p.issuedAt < p.expiresAt <= LARGEST
    && p.sequence == (if o.sequence == 0 then 1 else o.sequence)
    && p.beaconId == (if o.beaconId.Some? then o.beaconId.value else randomId) && p.previous == None
    && OrderedEndpoints(p.endpoints, o.endpoints)
  }

  ghost predicate ListsOf(p: Payload, o: Options) {
    && Ordered(p.versions, o.versions, [Lit("branch/connectivity/0")])
    && Ordered(p.profiles, o.profiles, [DevelopmentProfile()])
    && Ordered(p.capabilities, o.capabilities, [Lit("relay.forward.live/0"), Lit("route.relay.wss/0")])
  }

  lemma {:induction false} OrderedIs(values: seq<bytes>, given: seq<bytes>, defaults: seq<bytes>)
    requires NormalizeTexts(Defaulted(given, defaults)) == Some(values)
    ensures Ordered(values, given, defaults)
  {
    NormalizeTextsExact(Defaulted(given, defaults));
    hide NormalizeTexts;
  }

  lemma {:induction false} PayloadSays(env: Env, o: Options, clock: int, randomId: bytes, p: Payload)
    requires MakePayload(env, o, clock, randomId) == Some(p)
    ensures PayloadOf(p, o, clock, randomId) && ListsOf(p, o)
  {
    NormalizeEndpointsExact(o.endpoints, env.wssOk);
    OrderedIs(p.versions, o.versions, [ProtocolId()]);
    OrderedIs(p.profiles, o.profiles, [DevelopmentProfile()]);
    OrderedIs(p.capabilities, o.capabilities, [ForwardRole(), RouteRole()]);
    hide NormalizeEndpoints, NormalizeTexts, Ordered, Ranked, DevelopmentProfile, Wrap64, Lit;
  }

  /** The envelope around it: sealed with the signer's key over what the issuer signs. */
  ghost predicate EnvelopeOf(e: Envelope, p: Payload, o: Options, sign: bytes -> Option<bytes>, randomEvent: bytes) {
    && Labelled(e) && e.publicKey == o.publicKey && e.eventId == (if o.eventId.Some? then o.eventId.value else randomEvent)
    && e.createdAt == p.issuedAt && e.expiresAt == p.expiresAt && SignedBy(e, sign)
  }

  ghost predicate SignedBy(e: Envelope, sign: bytes -> Option<bytes>) {
    exists statement ::
      Encode(Statement(e)) == Some(statement) && sign(Lit("BRANCH signed event v0") + [10] + statement) == Some(e.signature)
  }

  lemma {:induction false} SignedSays(o: Options, p: Payload, encoded: bytes, eventId: bytes, sign: bytes -> Option<bytes>, randomEvent: bytes, e: Envelope)
    requires Signed(MakeEnvelope(o, p, encoded, eventId), sign) == Some(e) && FixedOrRandom(o.eventId, randomEvent) == Some(eventId)
    ensures EnvelopeOf(e, p, o, sign, randomEvent) && e.payload == encoded
  {
    var unsigned := MakeEnvelope(o, p, encoded, eventId);
    RecordIs(unsigned);
    RecordIs(e);
    assert Statement(e) == Statement(unsigned);
    hide UnsignedFields, SignedFields, Statement, Encode, Lit;
  }

  /** What Create writes is what its options say, signed by the caller's signer, in the wrapper that Validate reads. */
  lemma {:induction false} CreatedSays(env: Env, o: Options, clock: int, sign: bytes -> Option<bytes>, randomId: bytes, randomEvent: bytes, c: Created)
    requires Create(env, o, clock, sign, randomId, randomEvent) == Some(c)
    ensures PayloadOf(c.payload, o, clock, randomId) && ListsOf(c.payload, o)
    ensures EnvelopeOf(c.envelope, c.payload, o, sign, randomEvent) && Encode(Map(PayloadFields(c.payload))) == Some(c.envelope.payload)
    ensures exists signed :: Encode(Record(c.envelope)) == Some(signed) && c.wrapper == Lit("BRANCH0.") + Base64Url.Encode(signed)
  {
    var p := MakePayload(env, o, clock, randomId).value;
    var eventId, encoded := FixedOrRandom(o.eventId, randomEvent).value, Encode(Map(PayloadFields(p))).value;
    PayloadSays(env, o, clock, randomId, p);
    SignedSays(o, p, encoded, eventId, sign, randomEvent, Signed(MakeEnvelope(o, p, encoded, eventId), sign).value);
    RecordIs(c.envelope);
    PrefixIs();
    hide MakePayload, PayloadOf, ListsOf, EnvelopeOf, Signed, MakeEnvelope, FixedOrRandom, Encode, PayloadFields, SignedFields, Statement, Record, WrapperPrefix, Base64Url.Encode, Lit;
  }
}
