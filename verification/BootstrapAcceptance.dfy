/** Which created beacons validate: the lists, the sizes and the times that make Validate accept what Create made. */
module BootstrapAcceptance {
  import opened Bytes
  import opened Sorting
  import opened Cbor
  import opened CborParse
  import opened CborTheorems
  import opened CborFields
  import opened CborNested
  import opened BootstrapLists
  import opened BootstrapEndpoints
  import opened BootstrapBeacons
  import Base64Url
  import Utf8

  // ---------------------------------------------------------------- the payload record

  /** What Create makes sure of. */
  ghost predicate Made(env: Env, p: Payload) {
    && |p.beaconId| == 32
    && p.issuedAt < p.expiresAt <= MAX_TIMESTAMP
    && p.previous == None
    && p.versions != [] && TextsOk(p.versions) && Ascending(TextLess(), p.versions)
    && p.profiles != [] && TextsOk(p.profiles) && Ascending(TextLess(), p.profiles)
    && p.capabilities != [] && TextsOk(p.capabilities) && Ascending(TextLess(), p.capabilities)
    && EndpointsOk(p.endpoints, env.wssOk) && Ascending(EndpointLess(), p.endpoints)
  }

  lemma {:induction false} PayloadFieldsDistinct(p: Payload)
    ensures DistinctKeys(PayloadFields(p))
  {
    KeysDiffer("protocol_versions", "relay_capabilities");
    KeysDiffer("beacon_id", "issued_at");
  }

  lemma {:induction false} PayloadFieldsEncode(env: Env, p: Payload)
    requires Made(env, p)
    ensures Encode(Map(PayloadFields(p))).Some?
    ensures forall i :: 0 <= i < 8 ==> Encode(PayloadFields(p)[i].value).Some?
  {
    var fields := PayloadFields(p);
    TextArrayNormal(p.versions);
    TextArrayNormal(p.profiles);
    TextArrayNormal(p.capabilities);
    EndpointArraySize(p.endpoints, env.wssOk);
    PayloadFieldsDistinct(p);
    MapEncodes(fields);
  }

  /** The texts of a payload that the decoder wants to be UTF-8; transports are ASCII. */
  ghost predicate PayloadUtf8(p: Payload) {
    && (forall t :: t in p.versions ==> Utf8.Valid(t))
    && (forall t :: t in p.profiles ==> Utf8.Valid(t))
    && (forall t :: t in p.capabilities ==> Utf8.Valid(t))
    && (forall e :: e in p.endpoints ==> Utf8.Valid(e.uri))
  }

  predicate ShortLists(p: Payload) {
    |p.versions| <= MAX_ENTRIES && |p.profiles| <= MAX_ENTRIES && |p.capabilities| <= MAX_ENTRIES
  }

  lemma {:induction false} PayloadKeysInLimits(p: Payload)
    ensures forall i :: 0 <= i < 8 ==> TextInLimits(PayloadFields(p)[i].key, Wire(MAX_STRING_BYTES))
  {
    forall i | 0 <= i < 8 ensures TextInLimits(PayloadFields(p)[i].key, Wire(MAX_STRING_BYTES)) {
      AsciiInLimits(PayloadFields(p)[i].key);
    }
  }

  ghost predicate ValuesInLimits(p: Payload) {
    && InLimits(TextArray(p.versions), 1, Wire(MAX_STRING_BYTES)) && InLimits(TextArray(p.profiles), 1, Wire(MAX_STRING_BYTES))
    && InLimits(TextArray(p.capabilities), 1, Wire(MAX_STRING_BYTES)) && InLimits(EndpointArray(p.endpoints), 1, Wire(MAX_STRING_BYTES))
  }

  lemma {:induction false} PayloadMapInLimits(p: Payload, fields: seq<Entry>)
    requires fields == PayloadFields(p) && |p.beaconId| == 32
    ensures InLimits(Map(fields), 0, Wire(MAX_STRING_BYTES)) <==> ValuesInLimits(p)
  {
    hide TextArray, EndpointArray, TextInLimits;
    PayloadKeysInLimits(p);
    PayloadFieldsDistinct(p);
    if InLimits(Map(fields), 0, Wire(MAX_STRING_BYTES)) {
      assert InLimits(fields[4].value, 1, Wire(MAX_STRING_BYTES)) && InLimits(fields[5].value, 1, Wire(MAX_STRING_BYTES));
      assert InLimits(fields[6].value, 1, Wire(MAX_STRING_BYTES)) && InLimits(fields[7].value, 1, Wire(MAX_STRING_BYTES));
    }
  }

  /** Which payloads the decoder's limits admit. */
  lemma {:induction false} PayloadInLimits(env: Env, p: Payload)
    requires Made(env, p)
    ensures InLimits(Map(PayloadFields(p)), 0, Wire(MAX_STRING_BYTES)) <==> ShortLists(p) && PayloadUtf8(p)
  {
    hide PayloadFields, TextArray, EndpointArray;
    PayloadMapInLimits(p, PayloadFields(p));
    TextArrayInLimits(p.versions);
    TextArrayInLimits(p.profiles);
    TextArrayInLimits(p.capabilities);
    EndpointArrayInLimits(p.endpoints, env.wssOk);
  }

  // ---------------------------------------------------------------- reading the payload

  /** The fields of p, and none of the optional ones. */
  ghost predicate PayloadHolds(entries: seq<Entry>, p: Payload) {
    && Find(entries, Lit("beacon_id")) == Some(Blob(p.beaconId))
    && Find(entries, Lit("sequence")) == Some(Uint(p.sequence))
    && Find(entries, Lit("issued_at")) == Some(Uint(p.issuedAt))
    && Find(entries, Lit("expires_at")) == Some(Uint(p.expiresAt))
    && Find(entries, Lit("protocol_versions")) == Some(TextArray(p.versions))
    && Find(entries, Lit("profile_multihashes")) == Some(TextArray(p.profiles))
    && Find(entries, Lit("relay_capabilities")) == Some(TextArray(p.capabilities))
    && Find(entries, Lit("relay_endpoints")) == Some(Normalize(EndpointArray(p.endpoints)))
  }

  ghost predicate NoOptionals(entries: seq<Entry>) {
    && Find(entries, Lit("previous_beacon_id")) == None
    && Find(entries, Lit("revokes")) == None
    && Find(entries, Lit("rendezvous_boards")) == None
    && Find(entries, Lit("mirror_hints")) == None
    && Find(entries, Lit("proofs")) == None
  }

  lemma {:induction false} FieldFound(fields: seq<Entry>, i: nat)
    requires i < |fields| && DistinctKeys(fields)
    ensures NormalFind(fields, fields[i].key) == Some(Normalize(fields[i].value))
  {
    FindMember(fields, fields[i]);
  }

  lemma {:induction false} PayloadFound(p: Payload, fields: seq<Entry>, entries: seq<Entry>)
    requires fields == PayloadFields(p) && forall key :: Find(entries, key) == NormalFind(fields, key)
    ensures PayloadHolds(entries, p)
  {
    hide Find, NormalFind, TextArray, EndpointArray;
    PayloadFieldsDistinct(p);
    FieldFound(fields, 0);
    FieldFound(fields, 1);
    FieldFound(fields, 2);
    FieldFound(fields, 3);
    FieldFound(fields, 4);
    FieldFound(fields, 5);
    FieldFound(fields, 6);
    FieldFound(fields, 7);
    TextArrayNormal(p.versions);
    TextArrayNormal(p.profiles);
    TextArrayNormal(p.capabilities);
  }

  lemma {:induction false} NotFound(fields: seq<Entry>, key: bytes)
    requires forall i :: 0 <= i < |fields| ==> fields[i].key != key
    ensures NormalFind(fields, key) == None
  {
    if Find(fields, key).Some? {
      FindFound(fields, key);
    }
  }

  lemma {:induction false} OptionalKeys(p: Payload, fields: seq<Entry>)
    requires fields == PayloadFields(p)
    ensures forall i :: 0 <= i < 8 ==> fields[i].key != Lit("previous_beacon_id") && fields[i].key != Lit("revokes")
    ensures forall i :: 0 <= i < 8 ==> fields[i].key != Lit("rendezvous_boards") && fields[i].key != Lit("mirror_hints") && fields[i].key != Lit("proofs")
  {
    KeysDiffer("profile_multihashes", "previous_beacon_id");
    KeysDiffer("relay_capabilities", "previous_beacon_id");
    KeysDiffer("protocol_versions", "rendezvous_boards");
  }

  lemma {:induction false} OptionalsAbsent(p: Payload, fields: seq<Entry>, entries: seq<Entry>)
    requires fields == PayloadFields(p) && forall key :: Find(entries, key) == NormalFind(fields, key)
    ensures NoOptionals(entries)
  {
    OptionalKeys(p, fields);
    hide PayloadFields, NormalFind, Find;
    NotFound(fields, Lit("previous_beacon_id"));
    NotFound(fields, Lit("revokes"));
    NotFound(fields, Lit("rendezvous_boards"));
    NotFound(fields, Lit("mirror_hints"));
    NotFound(fields, Lit("proofs"));
  }

  /** What the reader asks of a payload beyond what Create makes sure of. */
  ghost predicate Readable(p: Payload, supported: seq<bytes>) {
    && |p.versions| <= 8 && |p.profiles| <= 8 && |p.capabilities| <= 32
    && ProtocolId() in p.versions && Supported(p.profiles, supported) && ForwardRole() in p.capabilities
    && SmallPriorities(p.endpoints)
    && p.sequence <= MAX_TIMESTAMP
  }

  lemma {:induction false} ListsRead(env: Env, p: Payload, entries: seq<Entry>)
    requires Made(env, p) && PayloadHolds(entries, p)
    ensures ReadTexts(Find(entries, Lit("protocol_versions")), 8) == if |p.versions| <= 8 then Some(p.versions) else None
    ensures ReadTexts(Find(entries, Lit("profile_multihashes")), 8) == if |p.profiles| <= 8 then Some(p.profiles) else None
    ensures ReadTexts(Find(entries, Lit("relay_capabilities")), 32) == if |p.capabilities| <= 32 then Some(p.capabilities) else None
    ensures ReadEndpoints(Find(entries, Lit("relay_endpoints")), env.wssOk) == if SmallPriorities(p.endpoints) then Some(p.endpoints) else None
  {
    hide Find, TextArray, EndpointArray, ReadTexts, ReadEndpoints;
    OrderedTextsReadBack(p.versions, 8);
    OrderedTextsReadBack(p.profiles, 8);
    OrderedTextsReadBack(p.capabilities, 32);
    AscendingPriorities(p.endpoints);
    ArrayReadBack(p.endpoints, env.wssOk);
  }

  lemma {:induction false} ScalarsRead(env: Env, p: Payload, entries: seq<Entry>)
    requires Made(env, p) && PayloadHolds(entries, p) && NoOptionals(entries)
    ensures ReadBlob(entries, Lit("beacon_id"), 32) == Some(p.beaconId)
    ensures ReadUint(entries, Lit("sequence")) == if p.sequence <= MAX_TIMESTAMP then Some(p.sequence) else None
    ensures ReadUint(entries, Lit("issued_at")) == Some(p.issuedAt) && ReadUint(entries, Lit("expires_at")) == Some(p.expiresAt)
    ensures ReadPrevious(entries) == Some(None) && OptionalsOk(entries)
  {
    hide Find, TextArray, EndpointArray, ReadTexts, ReadEndpoints, TextsOk, EndpointsOk, Bounded;
  }

  lemma {:induction false} PayloadRead(env: Env, p: Payload, entries: seq<Entry>, supported: seq<bytes>)
    requires Made(env, p) && PayloadHolds(entries, p) && NoOptionals(entries)
    ensures ReadPayloadMap(env, entries, supported) == if Readable(p, supported) then Some(p) else None
  {
    hide Find, PayloadHolds, NoOptionals, ReadTexts, ReadEndpoints, ReadUint, ReadBlob, ReadPrevious, OptionalsOk, Supported, SmallPriorities;
    ListsRead(env, p, entries);
    ScalarsRead(env, p, entries);
  }

  // ---------------------------------------------------------------- sizes

  lemma {:induction false} ScalarSizes(p: Payload)
    requires |p.beaconId| == 32
    ensures Size(Blob(p.beaconId)) <= 41 && Size(Uint(p.sequence)) <= 9 && Size(Uint(p.issuedAt)) <= 9 && Size(Uint(p.expiresAt)) <= 9
  {
    HeaderSize(2, 32);
    HeaderSize(0, p.sequence);
    HeaderSize(0, p.issuedAt);
    HeaderSize(0, p.expiresAt);
  }

  lemma {:induction false} PayloadKeySizes(p: Payload, fields: seq<Entry>)
    requires fields == PayloadFields(p)
    ensures forall i :: 0 <= i < 8 ==> |EncodedKey(fields[i].key)| <= 29
  {
    hide TextArray, EndpointArray, Header;
    forall i | 0 <= i < 8 ensures |EncodedKey(fields[i].key)| <= 29 {
      HeaderSize(3, |fields[i].key|);
    }
  }

  lemma {:induction false} PayloadEntrySizes(env: Env, p: Payload, fields: seq<Entry>)
    requires Made(env, p) && fields == PayloadFields(p) && |p.versions| <= 8 && |p.profiles| <= 8 && |p.capabilities| <= 32
    ensures forall i :: 0 <= i < 8 ==> EntrySize(fields[i]) <= 5100
  {
    hide TextArray, EndpointArray, EndpointsOk, Encode, EncodedKey;
    assert Size(TextArray(p.versions)) <= 5049 && Size(TextArray(p.profiles)) <= 5049 && Size(TextArray(p.capabilities)) <= 5049 by {
      TextArrayNormal(p.versions);
      TextArrayNormal(p.profiles);
      TextArrayNormal(p.capabilities);
    }
    EndpointArraySize(p.endpoints, env.wssOk);
    ScalarSizes(p);
    PayloadKeySizes(p, fields);
  }

  lemma {:induction false} PayloadSize(env: Env, p: Payload)
    requires Made(env, p) && |p.versions| <= 8 && |p.profiles| <= 8 && |p.capabilities| <= 32
    ensures Encode(Map(PayloadFields(p))).Some? && Size(Map(PayloadFields(p))) <= 40809
  {
    hide Encode, Size, EntrySize;
    PayloadFieldsEncode(env, p);
    PayloadFieldsDistinct(p);
    PayloadEntrySizes(env, p, PayloadFields(p));
    SizesAtMost(PayloadFields(p), 5100);
    MapSize(PayloadFields(p));
  }

  /** A payload that encodes to less than 2^64 bytes has shorter lists than that. */
  lemma {:induction false} PayloadRepresentable(env: Env, p: Payload)
    requires Made(env, p) && Size(Map(PayloadFields(p))) <= MAX_ENVELOPE_BYTES
    ensures Representable(Map(PayloadFields(p)))
  {
    var fields := PayloadFields(p);
    PayloadFieldsEncode(env, p);
    PayloadFieldsDistinct(p);
    MapSize(fields);
    FieldWithin(fields, 4);
    FieldWithin(fields, 5);
    FieldWithin(fields, 6);
    ArrayAtLeast(TextArray(p.versions).items);
    ArrayAtLeast(TextArray(p.profiles).items);
    ArrayAtLeast(TextArray(p.capabilities).items);
    PayloadValuesRepresentable(env, p, fields);
  }

  lemma {:induction false} TextArrayRepresentable(values: seq<bytes>)
    requires |values| <= MAX_ENVELOPE_BYTES && TextsOk(values)
    ensures Representable(TextArray(values))
  {
  }

  lemma {:induction false} EndpointArrayRepresentable(es: seq<Endpoint>, wssOk: bytes -> bool)
    requires EndpointsOk(es, wssOk)
    ensures Representable(EndpointArray(es))
  {
    var items := EndpointArray(es).items;
    forall i | 0 <= i < |items| ensures Representable(items[i]) {
      var fields := EndpointFields(es[i]);
      assert forall k :: 0 <= k < 3 ==> |fields[k].key| < 0x1_0000_0000_0000_0000 && Representable(fields[k].value);
    }
  }

  lemma {:induction false} PayloadValuesRepresentable(env: Env, p: Payload, fields: seq<Entry>)
    requires Made(env, p) && fields == PayloadFields(p)
    requires |p.versions| <= MAX_ENVELOPE_BYTES && |p.profiles| <= MAX_ENVELOPE_BYTES && |p.capabilities| <= MAX_ENVELOPE_BYTES
    ensures Representable(Map(fields))
  {
    hide TextArray, EndpointArray, EndpointsOk, TextsOk;
    TextArrayRepresentable(p.versions);
    TextArrayRepresentable(p.profiles);
    TextArrayRepresentable(p.capabilities);
    EndpointArrayRepresentable(p.endpoints, env.wssOk);
  }

  lemma {:induction false} PayloadNamesKnown(p: Payload, fields: seq<Entry>)
    requires fields == PayloadFields(p)
    ensures AllKnown(Sort(KeyLess(), NormalizeEntries(fields)), PayloadNames())
  {
    hide Sort, NormalizeEntries, TextArray, EndpointArray;
    var names := [Lit("beacon_id"), Lit("sequence"), Lit("issued_at"), Lit("expires_at"), Lit("protocol_versions"), Lit("profile_multihashes"),
                  Lit("relay_capabilities"), Lit("relay_endpoints")];
    KnownSorted(fields, names);
    KnownMore(Sort(KeyLess(), NormalizeEntries(fields)), names, PayloadNames());
  }

  /** The payload that Create wrote is accepted, and is then this one, exactly if it is readable and its texts are UTF-8. */
  lemma {:induction false} PayloadAccepted(env: Env, p: Payload, data: bytes, supported: seq<bytes>)
    requires Made(env, p) && Encode(Map(PayloadFields(p))) == Some(data) && |data| <= MAX_ENVELOPE_BYTES
    ensures ReadPayload(env, data, supported).Accepted? <==> Readable(p, supported) && PayloadUtf8(p)
    ensures ReadPayload(env, data, supported).Accepted? ==> ReadPayload(env, data, supported).value == p
  {
    hide PayloadFields, Encode, Decode, Made, PayloadHolds, NoOptionals, ReadPayloadMap, AllKnown, PayloadUtf8, InLimits, Sort, NormalizeEntries;
    var fields := PayloadFields(p);
    assert Size(Map(fields)) == |data|;
    PayloadRepresentable(env, p);
    RecordReadBack(fields, data);
    PayloadInLimits(env, p);
    if DecodeMap(data).Some? {
      var entries := DecodeMap(data).value;
      PayloadFound(p, fields, entries);
      OptionalsAbsent(p, fields, entries);
      PayloadNamesKnown(p, fields);
      PayloadRead(env, p, entries, supported);
    }
    if Readable(p, supported) {
      PayloadSize(env, p);
    }
  }

  // ---------------------------------------------------------------- the envelope record

  /** What Create puts into an envelope. */
  ghost predicate Sealed(e: Envelope) {
    && e.protocol == ProtocolId() && e.kind == EventType() && e.keyAlg == SignatureAlg()
    && e.payloadMode == PublicMode() && e.signatureAlg == SignatureAlg()
    && |e.eventId| == 32 && |e.publicKey| == 32 && |e.signature| == 64
    && e.createdAt < e.expiresAt <= MAX_TIMESTAMP
    && e.payload != []
  }

  lemma {:induction false} UnsignedDistinct(e: Envelope)
    ensures DistinctKeys(UnsignedFields(e))
  {
    KeysDiffer("created_at", "expires_at");
    KeysDiffer("protocol", "event_id");
  }

  lemma {:induction false} SignedDistinct(e: Envelope)
    ensures DistinctKeys(SignedFields(e))
  {
    UnsignedDistinct(e);
    var fields := UnsignedFields(e);
    forall i | 0 <= i < 9 ensures fields[i].key != Lit("signature") {
    }
  }

  lemma {:induction false} SenderEncodes(e: Envelope)
    ensures DistinctKeys(SenderFields(e)) && Flat(SenderFields(e)) && Encode(Map(SenderFields(e))).Some?
  {
    FlatEncodes(SenderFields(e));
  }

  lemma {:induction false} EnvelopeEncodes(e: Envelope)
    ensures Encode(Map(UnsignedFields(e))).Some? && Encode(Map(SignedFields(e))).Some?
    ensures forall i :: 0 <= i < 10 ==> Encode(SignedFields(e)[i].value).Some?
  {
    hide SenderFields;
    SenderEncodes(e);
    UnsignedDistinct(e);
    SignedDistinct(e);
    MapEncodes(UnsignedFields(e));
    MapEncodes(SignedFields(e));
  }

  lemma {:induction false} SenderMapInLimits(e: Envelope, fields: seq<Entry>)
    requires fields == SenderFields(e) && |e.publicKey| == 32 && DistinctKeys(fields)
    requires TextInLimits(Lit("key_alg"), Wire(MAX_STRING_BYTES)) && TextInLimits(Lit("public_key"), Wire(MAX_STRING_BYTES))
    requires TextInLimits(e.keyAlg, Wire(MAX_STRING_BYTES))
    ensures InLimits(Map(fields), 1, Wire(MAX_STRING_BYTES))
  {
    hide TextInLimits;
    assert InLimits(fields[0].value, 2, Wire(MAX_STRING_BYTES)) && InLimits(fields[1].value, 2, Wire(MAX_STRING_BYTES));
  }

  lemma {:induction false} SenderInLimits(e: Envelope)
    requires Sealed(e)
    ensures InLimits(Map(SenderFields(e)), 1, Wire(MAX_STRING_BYTES))
  {
    SenderTextsInLimits(e);
    SenderEncodes(e);
    assert |e.publicKey| == 32;
    hide TextInLimits, Sealed, Lit;
    SenderMapInLimits(e, SenderFields(e));
  }

  lemma {:induction false} SenderTextsInLimits(e: Envelope)
    requires Sealed(e)
    ensures TextInLimits(Lit("key_alg"), Wire(MAX_STRING_BYTES)) && TextInLimits(Lit("public_key"), Wire(MAX_STRING_BYTES))
    ensures TextInLimits(e.keyAlg, Wire(MAX_STRING_BYTES))
  {
    AsciiInLimits(Lit("key_alg"));
    AsciiInLimits(Lit("public_key"));
    AsciiInLimits(e.keyAlg);
  }

  lemma {:induction false} EnvelopeKeysInLimits(e: Envelope)
    ensures forall i :: 0 <= i < 10 ==> TextInLimits(SignedFields(e)[i].key, Wire(MAX_STRING_BYTES))
  {
    forall i | 0 <= i < 10 ensures TextInLimits(SignedFields(e)[i].key, Wire(MAX_STRING_BYTES)) {
      AsciiInLimits(SignedFields(e)[i].key);
    }
  }

  ghost predicate TextsInLimits(e: Envelope) {
    && TextInLimits(e.protocol, Wire(MAX_STRING_BYTES)) && TextInLimits(e.kind, Wire(MAX_STRING_BYTES))
    && TextInLimits(e.payloadMode, Wire(MAX_STRING_BYTES)) && TextInLimits(e.signatureAlg, Wire(MAX_STRING_BYTES))
  }

  lemma {:induction false} EnvelopeTextsInLimits(e: Envelope)
    requires Sealed(e)
    ensures TextsInLimits(e)
  {
    AsciiInLimits(e.protocol);
    AsciiInLimits(e.kind);
    AsciiInLimits(e.payloadMode);
    AsciiInLimits(e.signatureAlg);
  }

  lemma {:induction false} EnvelopeMapInLimits(e: Envelope, fields: seq<Entry>)
    requires fields == SignedFields(e) && TextsInLimits(e) && InLimits(Map(SenderFields(e)), 1, Wire(MAX_STRING_BYTES))
    requires |e.eventId| == 32 && |e.signature| == 64
    ensures InLimits(Map(fields), 0, Wire(MAX_STRING_BYTES)) <==> |e.payload| <= MAX_BYTES
  {
    hide SenderFields, TextInLimits;
    EnvelopeKeysInLimits(e);
    SignedDistinct(e);
    if InLimits(Map(fields), 0, Wire(MAX_STRING_BYTES)) {
      assert InLimits(fields[7].value, 1, Wire(MAX_STRING_BYTES));
    }
  }

  /** An envelope is within the decoder's limits exactly if its payload is. */
  lemma {:induction false} EnvelopeInLimits(e: Envelope)
    requires Sealed(e)
    ensures InLimits(Map(SignedFields(e)), 0, Wire(MAX_STRING_BYTES)) <==> |e.payload| <= MAX_BYTES
  {
    assert |e.eventId| == 32 && |e.signature| == 64;
    EnvelopeTextsInLimits(e);
    SenderInLimits(e);
    hide Sealed, TextsInLimits;
    EnvelopeMapInLimits(e, SignedFields(e));
  }

  lemma {:induction false} SenderRepresentable(e: Envelope)
    requires |e.keyAlg| <= 1024 && |e.publicKey| <= 1024
    ensures Representable(Map(SenderFields(e)))
  {
    var fields := SenderFields(e);
    assert forall i :: 0 <= i < 2 ==> |fields[i].key| < 0x1_0000_0000_0000_0000 && Representable(fields[i].value);
  }

  lemma {:induction false} EnvelopeRepresentable(e: Envelope, fields: seq<Entry>)
    requires Sealed(e) && |e.payload| <= MAX_ENVELOPE_BYTES && fields == SignedFields(e)
    ensures Representable(Map(fields))
  {
    hide SenderFields;
    SenderRepresentable(e);
    forall i | 0 <= i < 10 ensures |fields[i].key| < 0x1_0000_0000_0000_0000 && Representable(fields[i].value) {
    }
  }

  // ---------------------------------------------------------------- reading the envelope

  ghost predicate TextsHeld(entries: seq<Entry>, e: Envelope) {
    && Find(entries, Lit("protocol")) == Some(Text(e.protocol))
    && Find(entries, Lit("type")) == Some(Text(e.kind))
    && Find(entries, Lit("payload_mode")) == Some(Text(e.payloadMode))
    && Find(entries, Lit("signature_alg")) == Some(Text(e.signatureAlg))
  }

  ghost predicate BlobsHeld(entries: seq<Entry>, e: Envelope) {
    && Find(entries, Lit("event_id")) == Some(Blob(e.eventId))
    && Find(entries, Lit("payload")) == Some(Blob(e.payload))
    && Find(entries, Lit("signature")) == Some(Blob(e.signature))
  }

  ghost predicate EnvelopeHolds(entries: seq<Entry>, e: Envelope) {
    && TextsHeld(entries, e)
    && BlobsHeld(entries, e)
    && Find(entries, Lit("created_at")) == Some(Uint(e.createdAt))
    && Find(entries, Lit("expires_at")) == Some(Uint(e.expiresAt))
    && Find(entries, Lit("sender")) == Some(Normalize(Map(SenderFields(e))))
  }

  lemma {:induction false} EnvelopeFound(e: Envelope, fields: seq<Entry>, entries: seq<Entry>)
    requires fields == SignedFields(e) && forall key :: Find(entries, key) == NormalFind(fields, key)
    ensures EnvelopeHolds(entries, e)
  {
    hide Find, NormalFind, SenderFields;
    SignedDistinct(e);
    FieldFound(fields, 0);
    FieldFound(fields, 1);
    FieldFound(fields, 2);
    FieldFound(fields, 3);
    FieldFound(fields, 4);
    FieldFound(fields, 5);
    FieldFound(fields, 6);
    FieldFound(fields, 7);
    FieldFound(fields, 8);
    FieldFound(fields, 9);
  }

  lemma {:induction false} NoRecipientTag(e: Envelope, fields: seq<Entry>, entries: seq<Entry>)
    requires fields == SignedFields(e) && forall key :: Find(entries, key) == NormalFind(fields, key)
    ensures Find(entries, Lit("recipient_tag")) == None
  {
    hide Find, NormalFind;
    KeysDiffer("signature_alg", "recipient_tag");
    forall i | 0 <= i < 10 ensures fields[i].key != Lit("recipient_tag") {
    }
    NotFound(fields, Lit("recipient_tag"));
  }

  lemma {:induction false} EnvelopeNamesKnown(e: Envelope, fields: seq<Entry>)
    requires fields == SignedFields(e)
    ensures AllKnown(Sort(KeyLess(), NormalizeEntries(fields)), EnvelopeNames())
  {
    hide Sort, NormalizeEntries, SenderFields;
    var names := [Lit("protocol"), Lit("event_id"), Lit("type"), Lit("sender"), Lit("created_at"), Lit("expires_at"), Lit("payload_mode"),
                  Lit("payload"), Lit("signature_alg"), Lit("signature")];
    KnownSorted(fields, names);
    KnownMore(Sort(KeyLess(), NormalizeEntries(fields)), names, EnvelopeNames());
  }

  lemma {:induction false} SenderHeld(e: Envelope, fields: seq<Entry>, sorted: seq<Entry>)
    requires fields == SenderFields(e) && sorted == Sort(KeyLess(), fields)
    ensures AllKnown(sorted, [Lit("key_alg"), Lit("public_key")])
    ensures Find(sorted, Lit("key_alg")) == Some(Text(e.keyAlg)) && Find(sorted, Lit("public_key")) == Some(Blob(e.publicKey))
  {
    hide Sort, Find;
    SenderEncodes(e);
    assert AllKnown(sorted, [Lit("key_alg"), Lit("public_key")]) by { NamesKnown(sorted, fields, [Lit("key_alg"), Lit("public_key")]); }
    FindMember(fields, fields[0]);
    FindMember(fields, fields[1]);
    FindPermutation(fields, sorted, Lit("key_alg"));
    FindPermutation(fields, sorted, Lit("public_key"));
  }

  lemma {:induction false} SenderRead(e: Envelope)
    requires Sealed(e)
    ensures ReadSender(Some(Normalize(Map(SenderFields(e))))) == Accepted((e.keyAlg, e.publicKey))
  {
    hide Sort, Find, AllKnown, SenderFields;
    SenderEncodes(e);
    FlatNormalize(SenderFields(e));
    SenderHeld(e, SenderFields(e), Sort(KeyLess(), SenderFields(e)));
  }

  lemma {:induction false} EnvelopeTextsRead(e: Envelope, entries: seq<Entry>)
    requires Sealed(e) && EnvelopeHolds(entries, e)
    ensures ReadText(entries, Lit("protocol")) == Some(ProtocolId()) && ReadText(entries, Lit("type")) == Some(EventType())
    ensures ReadText(entries, Lit("payload_mode")) == Some(PublicMode()) && ReadText(entries, Lit("signature_alg")) == Some(SignatureAlg())
  {
    hide Find, SenderFields;
  }

  lemma {:induction false} EnvelopeScalarsRead(e: Envelope, entries: seq<Entry>)
    requires Sealed(e) && EnvelopeHolds(entries, e) && |e.payload| <= MAX_BYTES
    ensures ReadUint(entries, Lit("created_at")) == Some(e.createdAt) && ReadUint(entries, Lit("expires_at")) == Some(e.expiresAt)
    ensures ReadBlob(entries, Lit("event_id"), 32) == Some(e.eventId) && ReadBlob(entries, Lit("payload"), 0) == Some(e.payload)
    ensures ReadBlob(entries, Lit("signature"), 64) == Some(e.signature)
  {
    hide Find, SenderFields;
  }

  lemma {:induction false} EnvelopeRead(e: Envelope, entries: seq<Entry>)
    requires Sealed(e) && EnvelopeHolds(entries, e) && |e.payload| <= MAX_BYTES
    requires AllKnown(entries, EnvelopeNames()) && Find(entries, Lit("recipient_tag")) == None
    ensures ReadEnvelope(entries) == Accepted(e)
  {
    hide Find, AllKnown, EnvelopeNames, EnvelopeHolds, ReadText, ReadUint, ReadBlob, ReadSender, Lit, Normalize, SenderFields;
    hide ProtocolId, EventType, PublicMode, SignatureAlg;
    EnvelopeTextsRead(e, entries);
    EnvelopeScalarsRead(e, entries);
    EnvelopeSenderRead(e, entries);
  }

  lemma {:induction false} EnvelopeSenderRead(e: Envelope, entries: seq<Entry>)
    requires Sealed(e) && EnvelopeHolds(entries, e)
    ensures ReadSender(Find(entries, Lit("sender"))) == Accepted((e.keyAlg, e.publicKey))
  {
    SenderRead(e);
    hide Find, ReadSender, Normalize, SenderFields;
  }

  /** The bytes that Create signed decode and read to the envelope it made, exactly if the payload is within limits. */
  lemma {:induction false} EnvelopeReadBack(e: Envelope, signed: bytes)
    requires Sealed(e) && Encode(Map(SignedFields(e))) == Some(signed) && |signed| <= MAX_ENVELOPE_BYTES
    ensures DecodeMap(signed).Some? <==> |e.payload| <= MAX_BYTES
    ensures DecodeMap(signed).Some? ==> ReadEnvelope(DecodeMap(signed).value) == Accepted(e)
  {
    hide SignedFields, Encode, Decode, Sealed, EnvelopeHolds, ReadEnvelope, AllKnown, InLimits, Sort, NormalizeEntries, Find, NormalFind;
    var fields := SignedFields(e);
    PayloadWithin(e, signed);
    EnvelopeRepresentable(e, fields);
    RecordReadBack(fields, signed);
    EnvelopeInLimits(e);
    if DecodeMap(signed).Some? {
      var entries := DecodeMap(signed).value;
      EnvelopeFound(e, fields, entries);
      NoRecipientTag(e, fields, entries);
      EnvelopeNamesKnown(e, fields);
      EnvelopeRead(e, entries);
    }
  }

  lemma {:induction false} PayloadWithin(e: Envelope, signed: bytes)
    requires Encode(Map(SignedFields(e))) == Some(signed)
    ensures |e.payload| <= |signed|
  {
    var fields := SignedFields(e);
    EnvelopeEncodes(e);
    SignedDistinct(e);
    hide SenderFields;
    MapSize(fields);
    FieldWithin(fields, 7);
    assert Size(fields[7].value) >= |e.payload|;
  }

  // ---------------------------------------------------------------- the wrapper

  lemma {:induction false} SmallEntrySizes(e: Envelope, fields: seq<Entry>)
    requires Sealed(e) && fields == SignedFields(e)
    ensures forall i :: 0 <= i < 10 && i != 7 ==> EntrySize(fields[i]) <= 110
    ensures EntrySize(fields[7]) <= |e.payload| + 40
  {
    hide Header, SenderFields;
    SenderSize(e);
    HeaderSize(2, 32);
    HeaderSize(2, 64);
    HeaderSize(2, |e.payload|);
    HeaderSize(0, e.createdAt);
    HeaderSize(0, e.expiresAt);
    HeaderSize(3, |e.protocol|);
    HeaderSize(3, |e.kind|);
    HeaderSize(3, |e.payloadMode|);
    HeaderSize(3, |e.signatureAlg|);
    forall i | 0 <= i < 10 ensures |EncodedKey(fields[i].key)| <= 22 {
      HeaderSize(3, |fields[i].key|);
    }
    assert Size(fields[0].value) <= 88 && Size(fields[1].value) <= 88 && Size(fields[2].value) <= 88 && Size(fields[3].value) <= 88;
    assert Size(fields[4].value) <= 88 && Size(fields[5].value) <= 88 && Size(fields[6].value) <= 88 && Size(fields[8].value) <= 88;
    assert Size(fields[9].value) <= 88 && Size(fields[7].value) <= |e.payload| + 9;
  }

  lemma {:induction false} SenderSize(e: Envelope)
    requires Sealed(e)
    ensures Size(Map(SenderFields(e))) <= 88
  {
    var fields := SenderFields(e);
    SenderEncodes(e);
    FlatLength(fields);
    TotalLengthCons(fields[1], []);
    TotalLengthCons(fields[0], fields[1..]);
    assert fields[1..] == [fields[1]] + [] && fields == [fields[0]] + fields[1..];
  }

  lemma {:induction false} EnvelopeSizes(e: Envelope, fields: seq<Entry>)
    requires Sealed(e) && fields == SignedFields(e)
    ensures Sizes(fields) <= |e.payload| + 1030
  {
    SmallEntrySizes(e, fields);
    assert fields == fields[..7] + ([fields[7]] + fields[8..]);
    hide EntrySize, SignedFields;
    SizesAppend(fields[..7], [fields[7]] + fields[8..]);
    SizesAppend([fields[7]], fields[8..]);
    SizesAtMost(fields[..7], 110);
    SizesAtMost(fields[8..], 110);
    assert Sizes([fields[7]]) == EntrySize(fields[7]);
  }

  lemma {:induction false} EnvelopeFits(e: Envelope)
    requires Sealed(e) && |e.payload| <= 40809
    ensures Encode(Map(SignedFields(e))).Some? && |Encode(Map(SignedFields(e))).value| <= 41848
  {
    EnvelopeEncodes(e);
    SignedDistinct(e);
    var fields := SignedFields(e);
    assert |fields| == 10;
    hide SignedFields, Sealed, Sizes, Encode;
    EnvelopeSizes(e, fields);
    MapSize(fields);
  }

  /** The wrapper cap follows from the bounds on the fields. */
  lemma {:induction false} WrapperFits(e: Envelope, signed: bytes)
    requires Sealed(e) && Encode(Map(SignedFields(e))) == Some(signed) && |e.payload| <= 40809
    ensures WrapperOk(WrapperPrefix() + Base64Url.Encode(signed))
  {
    EnvelopeFits(e);
    EncodingNotEmpty(Map(SignedFields(e)));
    WrapperText(signed);
  }

  lemma {:induction false} WrapperText(signed: bytes)
    requires 0 < |signed| <= 41848
    ensures WrapperOk(WrapperPrefix() + Base64Url.Encode(signed))
    ensures Base64Url.Decode((WrapperPrefix() + Base64Url.Encode(signed))[|WrapperPrefix()|..]) == Some(signed)
  {
    var text := Base64Url.Encode(signed);
    Base64Url.EncodeLength(signed);
    Base64Url.EncodeDigits(signed);
    Base64Url.DecodeOfEncode(signed);
    assert (WrapperPrefix() + text)[|WrapperPrefix()|..] == text;
  }

  // ---------------------------------------------------------------- created, then validated

  /** What a caller can look at before creating a beacon that these validators will admit. */
  ghost predicate Admissible(o: Options, supported: seq<bytes>) {
    && |Versions(o)| <= 8 && |Profiles(o)| <= 8 && |Capabilities(o)| <= 32
    && ProtocolId() in Versions(o) && Supported(Profiles(o), supported) && ForwardRole() in Capabilities(o)
    && SmallPriorities(o.endpoints) && o.sequence <= MAX_TIMESTAMP
    && AllUtf8(Versions(o)) && AllUtf8(Profiles(o)) && AllUtf8(Capabilities(o))
    && forall e :: e in o.endpoints ==> Utf8.Valid(e.uri)
  }

  ghost predicate AllUtf8(texts: seq<bytes>) {
    forall t :: t in texts ==> Utf8.Valid(t)
  }

  lemma {:induction false} SupportedMembers(a: seq<bytes>, b: seq<bytes>, supported: seq<bytes>)
    requires forall t :: t in a ==> t in b
    ensures Supported(a, supported) ==> Supported(b, supported)
  {
    if i :| 0 <= i < |a| && a[i] in supported {
      assert a[i] in b;
    }
  }

  lemma {:induction false} MadePayload(env: Env, o: Options, clock: int, randomId: bytes, p: Payload)
    requires MakePayload(env, o, clock, randomId) == Some(p) && |randomId| == 32
    ensures Made(env, p)
  {
    hide Ascending, EndpointLess, TextLess, Sort;
    NormalizedTexts(Versions(o));
    NormalizedTexts(Profiles(o));
    NormalizedTexts(Capabilities(o));
    assert NormalizeEndpoints(o.endpoints, env.wssOk) == Some(p.endpoints);
    SortedEndpoints(o.endpoints);
    EndpointsOkPermuted(o.endpoints, p.endpoints, env.wssOk);
  }

  /** Normalising changes the order of the lists only, so what the reader asks of the payload is asked of the options. */
  lemma {:induction false} AdmissiblePayload(env: Env, o: Options, clock: int, randomId: bytes, p: Payload, supported: seq<bytes>)
    requires MakePayload(env, o, clock, randomId) == Some(p)
    ensures Readable(p, supported) && PayloadUtf8(p) <==> Admissible(o, supported)
  {
    hide Ascending, EndpointLess, TextLess, Sort, TextsOk, EndpointsOk, Supported;
    NormalizedTexts(Versions(o));
    NormalizedTexts(Profiles(o));
    NormalizedTexts(Capabilities(o));
    assert NormalizeEndpoints(o.endpoints, env.wssOk) == Some(p.endpoints);
    assert forall e :: e in p.endpoints <==> e in o.endpoints by { SortedMembers(env, o.endpoints); }
    SupportedMembers(p.profiles, Profiles(o), supported);
    SupportedMembers(Profiles(o), p.profiles, supported);
  }

  lemma {:induction false} SortedMembers(env: Env, es: seq<Endpoint>)
    requires NormalizeEndpoints(es, env.wssOk).Some?
    ensures forall e :: e in NormalizeEndpoints(es, env.wssOk).value <==> e in es
  {
    SortedEndpoints(es);
  }

  /** What is known of a created beacon: the records are sealed, nested and signed. */
  ghost predicate WellSealed(env: Env, e: Envelope, p: Payload) {
    && Sealed(e)
    && Encode(Map(PayloadFields(p))) == Some(e.payload)
    && e.createdAt == p.issuedAt && e.expiresAt == p.expiresAt
    && Encode(Map(UnsignedFields(e))).Some?
    && env.verify(e.publicKey, SignatureDomain() + Encode(Map(UnsignedFields(e))).value, e.signature)
  }

  lemma {:induction false} SignedEnvelope(env: Env, unsigned: Envelope, sign: bytes -> Option<bytes>, e: Envelope)
    requires SignsFor(env, sign, unsigned.publicKey) && Signed(unsigned, sign) == Some(e)
    ensures e == unsigned.(signature := e.signature) && |e.signature| == 64 && Encode(Map(UnsignedFields(e))).Some?
    ensures env.verify(e.publicKey, SignatureDomain() + Encode(Map(UnsignedFields(e))).value, e.signature)
  {
    hide Encode;
    assert SenderFields(e) == SenderFields(unsigned);
    assert UnsignedFields(e) == UnsignedFields(unsigned);
  }

  lemma {:induction false} CreatedParts(env: Env, o: Options, clock: int, sign: bytes -> Option<bytes>, randomId: bytes, randomEvent: bytes, c: Created)
    requires SignsFor(env, sign, o.publicKey) && |randomId| == |randomEvent| == 32
    requires Create(env, o, clock, sign, randomId, randomEvent) == Some(c)
    ensures MakePayload(env, o, clock, randomId) == Some(c.payload) && Made(env, c.payload)
    ensures WellSealed(env, c.envelope, c.payload)
    ensures Encode(Map(SignedFields(c.envelope))).Some? && |Encode(Map(SignedFields(c.envelope))).value| <= MAX_ENVELOPE_BYTES
    ensures c.wrapper == WrapperPrefix() + Base64Url.Encode(Encode(Map(SignedFields(c.envelope))).value)
  {
    hide MakePayload, Encode, PayloadFields, UnsignedFields, SignedFields, Signed, SignsFor, Made;
    var p := c.payload;
    MadePayload(env, o, clock, randomId, p);
    var encoded := Encode(Map(PayloadFields(p))).value;
    EncodingNotEmpty(Map(PayloadFields(p)));
    SignedEnvelope(env, MakeEnvelope(o, p, encoded, FixedOrRandom(o.eventId, randomEvent).value), sign, c.envelope);
    assert p.issuedAt < p.expiresAt <= MAX_TIMESTAMP by { MadeTimes(env, p); }
  }

  lemma {:induction false} MadeTimes(env: Env, p: Payload)
    requires Made(env, p)
    ensures p.issuedAt < p.expiresAt <= MAX_TIMESTAMP
  {
  }

  predicate Alive(e: Envelope, now: int, skew: int) {
    now < e.expiresAt && e.createdAt <= now + skew
  }

  lemma {:induction false} Checked(env: Env, e: Envelope, p: Payload, signed: bytes, now: int, skew: int, supported: seq<bytes>)
    requires Made(env, p) && WellSealed(env, e, p)
    requires Encode(Map(SignedFields(e))) == Some(signed) && |signed| <= MAX_ENVELOPE_BYTES
    ensures CheckEnvelope(env, e, signed, now, skew, supported).Accepted? <==> Alive(e, now, skew) && Readable(p, supported) && PayloadUtf8(p)
    ensures CheckEnvelope(env, e, signed, now, skew, supported).Accepted? ==> CheckEnvelope(env, e, signed, now, skew, supported).value == (e, p)
  {
    hide Encode, Made, Sealed, ReadPayload, Readable, PayloadUtf8, PayloadFields, UnsignedFields, SignedFields;
    PayloadWithin(e, signed);
    PayloadAccepted(env, p, e.payload, supported);
  }

  /** Validating what Create made: the answer is decided by the record and the time. */
  lemma {:induction false} SealedAccepted(env: Env, e: Envelope, p: Payload, signed: bytes, now: int, skew: int, supported: seq<bytes>)
    requires Made(env, p) && WellSealed(env, e, p)
    requires Encode(Map(SignedFields(e))) == Some(signed) && |signed| <= MAX_ENVELOPE_BYTES
    ensures var verdict := Validate(env, WrapperPrefix() + Base64Url.Encode(signed), now, skew, supported);
            && (verdict.Accepted? <==> Alive(e, now, skew) && Readable(p, supported) && PayloadUtf8(p))
            && (verdict.Accepted? ==> verdict.value == (e, p))
  {
    hide Made, Encode, Decode, Sealed, CheckEnvelope, ReadEnvelope, Readable, PayloadUtf8, PayloadFields, UnsignedFields, SignedFields, WrapperOk;
    var wrapper := WrapperPrefix() + Base64Url.Encode(signed);
    assert wrapper[|WrapperPrefix()|..] == Base64Url.Encode(signed);
    Base64Url.DecodeOfEncode(signed);
    EnvelopeReadBack(e, signed);
    Checked(env, e, p, signed, now, skew, supported);
    if Readable(p, supported) {
      assert |e.payload| <= 40809 by { ReadableSize(env, p, supported); }
      WrapperFits(e, signed);
    }
  }

  lemma {:induction false} ReadableSize(env: Env, p: Payload, supported: seq<bytes>)
    requires Made(env, p) && Readable(p, supported) && Encode(Map(PayloadFields(p))).Some?
    ensures |Encode(Map(PayloadFields(p))).value| <= 40809
  {
    hide PayloadFields, Encode;
    PayloadSize(env, p);
  }

  /**
    A beacon made by Create is accepted exactly if its options are admissible and the time lies in its lifetime, up to the skew;
    what is accepted is then the record that was made, lists in normal order.
  */
  lemma {:induction false} CreatedIsAccepted(env: Env, o: Options, clock: int, sign: bytes -> Option<bytes>, randomId: bytes, randomEvent: bytes,
                                             c: Created, now: int, skew: int, supported: seq<bytes>)
    requires SignsFor(env, sign, o.publicKey) && |randomId| == |randomEvent| == 32
    requires Create(env, o, clock, sign, randomId, randomEvent) == Some(c)
    ensures var verdict := Validate(env, c.wrapper, now, skew, supported);
            && (verdict.Accepted? <==> Admissible(o, supported) && c.payload.issuedAt <= now + skew && now < c.payload.expiresAt)
            && (verdict.Accepted? ==> verdict.value == (c.envelope, c.payload))
    ensures MakePayload(env, o, clock, randomId) == Some(c.payload)
  {
    hide SignsFor, Create, MakePayload, Validate, Made, Admissible, Readable, PayloadUtf8, Encode, SignedFields;
    CreatedParts(env, o, clock, sign, randomId, randomEvent, c);
    AdmissiblePayload(env, o, clock, randomId, c.payload, supported);
    SealedAccepted(env, c.envelope, c.payload, Encode(Map(SignedFields(c.envelope))).value, now, skew, supported);
  }

  /** A signer that always signs. */
  ghost predicate Signs(sign: bytes -> Option<bytes>) {
    forall message: bytes :: sign(message).Some? && |sign(message).value| == 64
  }

  lemma {:induction false} SignedIs(unsigned: Envelope, sign: bytes -> Option<bytes>)
    requires Signs(sign)
    ensures Signed(unsigned, sign).Some? && |Signed(unsigned, sign).value.signature| == 64
    ensures Signed(unsigned, sign).value == unsigned.(signature := Signed(unsigned, sign).value.signature)
  {
    EnvelopeEncodes(unsigned);
    hide Encode, UnsignedFields, SignedFields;
  }

  /** For options that are admissible Create never runs into the cap on envelopes: with a payload and a signer it succeeds. */
  lemma {:induction false} CreateSucceeds(env: Env, o: Options, clock: int, sign: bytes -> Option<bytes>, randomId: bytes, randomEvent: bytes, supported: seq<bytes>)
    requires |o.publicKey| == 32 && |randomId| == |randomEvent| == 32 && Signs(sign)
    requires MakePayload(env, o, clock, randomId).Some? && FixedOrRandom(o.eventId, randomEvent).Some? && Admissible(o, supported)
    ensures Create(env, o, clock, sign, randomId, randomEvent).Some?
  {
    hide MakePayload, FixedOrRandom, MakeEnvelope, Encode, Made, Admissible, Readable, PayloadUtf8, PayloadFields, SignedFields, UnsignedFields, Signed, Signs, WrapperPrefix;
    hide Base64Url.Encode;
    var p, eventId := MakePayload(env, o, clock, randomId).value, FixedOrRandom(o.eventId, randomEvent).value;
    MadePayload(env, o, clock, randomId, p);
    AdmissiblePayload(env, o, clock, randomId, p, supported);
    PayloadMade(env, p, supported);
    assert |eventId| == 32 by { EventIs(o.eventId, randomEvent); }
    EnvelopeMade(o, p, Encode(Map(PayloadFields(p))).value, eventId, sign);
  }

  lemma {:induction false} EventIs(value: Option<bytes>, random: bytes)
    requires FixedOrRandom(value, random).Some? && |random| == 32
    ensures |FixedOrRandom(value, random).value| == 32
  {
  }

  lemma {:induction false} PayloadMade(env: Env, p: Payload, supported: seq<bytes>)
    requires Made(env, p) && Readable(p, supported)
    ensures Encode(Map(PayloadFields(p))).Some? && 0 < |Encode(Map(PayloadFields(p))).value| <= 40809
    ensures p.issuedAt < p.expiresAt <= MAX_TIMESTAMP
  {
    PayloadFieldsEncode(env, p);
    hide Encode, PayloadFields, Readable;
    EncodingNotEmpty(Map(PayloadFields(p)));
    ReadableSize(env, p, supported);
    MadeTimes(env, p);
  }

  lemma {:induction false} EnvelopeMade(o: Options, p: Payload, encoded: bytes, eventId: bytes, sign: bytes -> Option<bytes>)
    requires |o.publicKey| == 32 && |eventId| == 32 && 0 < |encoded| <= 40809 && p.issuedAt < p.expiresAt <= MAX_TIMESTAMP && Signs(sign)
    ensures var e := Signed(MakeEnvelope(o, p, encoded, eventId), sign);
            e.Some? && Encode(Map(SignedFields(e.value))).Some? && |Encode(Map(SignedFields(e.value))).value| <= MAX_ENVELOPE_BYTES
  {
    var unsigned := MakeEnvelope(o, p, encoded, eventId);
    SignedIs(unsigned, sign);
    var e := Signed(unsigned, sign).value;
    hide Signed, Encode, SignedFields, Sealed;
    SealedIs(o, p, encoded, eventId, e);
    EnvelopeFits(e);
  }

  lemma {:induction false} SealedIs(o: Options, p: Payload, encoded: bytes, eventId: bytes, e: Envelope)
    requires |o.publicKey| == 32 && |eventId| == 32 && encoded != [] && p.issuedAt < p.expiresAt <= MAX_TIMESTAMP
    requires e == MakeEnvelope(o, p, encoded, eventId).(signature := e.signature) && |e.signature| == 64
    ensures Sealed(e) && e.payload == encoded
  {
  }

  function PlainOptions(): Options {
    Options(1, 2, 1, None, None, seq(32, _ => 0), [Endpoint(Wss(), Lit("wss://relay.example:443"), 0)], [], [], [])
  }

  lemma {:induction false} OneText(text: bytes)
    requires TextOk(text)
    ensures NormalizeTexts([text]) == Some([text])
  {
    assert Sort(TextLess(), []) == [];
  }

  lemma {:induction false} TwoTexts(a: bytes, b: bytes)
    requires TextOk(a) && TextOk(b) && a != b
    ensures NormalizeTexts([a, b]).Some?
  {
  }

  lemma {:induction false} PlainEndpoints(wssOk: bytes -> bool)
    requires wssOk(Lit("wss://relay.example:443"))
    ensures NormalizeEndpoints(PlainOptions().endpoints, wssOk).Some?
  {
    var es := PlainOptions().endpoints;
    assert es[0].transport == Wss() && EndpointOk(es[0], wssOk);
  }

  lemma {:induction false} PlainLists()
    ensures NormalizeTexts([ProtocolId()]).Some? && NormalizeTexts([DevelopmentProfile()]).Some? && NormalizeTexts([ForwardRole(), RouteRole()]).Some?
  {
    hide NormalizeTexts;
    OneText(ProtocolId());
    OneText(DevelopmentProfile());
    KeysDiffer("relay.forward.live/0", "route.relay.wss/0");
    TwoTexts(ForwardRole(), RouteRole());
  }

  lemma {:induction false} PlainPayload(env: Env, clock: int, randomId: bytes)
    requires env.wssOk(Lit("wss://relay.example:443"))
    ensures MakePayload(env, PlainOptions(), clock, randomId).Some?
    ensures var p := MakePayload(env, PlainOptions(), clock, randomId).value;
            p.issuedAt == 1 && p.expiresAt == 2
  {
    var o := PlainOptions();
    assert o.beaconId.None? && o.sequence == 1;
    hide Lit, PlainOptions, MakePayload, NormalizeTexts, NormalizeEndpoints, Times, Versions, Profiles, Capabilities, ProtocolId, DevelopmentProfile, ForwardRole, RouteRole;
    PlainEndpoints(env.wssOk);
    PlainLists();
    PlainDefaults(clock);
    PayloadFrom(env, o, clock, randomId);
  }

  lemma {:induction false} PayloadFrom(env: Env, o: Options, clock: int, randomId: bytes)
    requires Times(o, clock).Some? && o.beaconId.None? && NormalizeEndpoints(o.endpoints, env.wssOk).Some?
    requires NormalizeTexts(Versions(o)).Some? && NormalizeTexts(Profiles(o)).Some? && NormalizeTexts(Capabilities(o)).Some?
    ensures var p := MakePayload(env, o, clock, randomId);
            p.Some? && (p.value.issuedAt, p.value.expiresAt) == Times(o, clock).value
  {
    hide NormalizeTexts, NormalizeEndpoints, Times, Versions, Profiles, Capabilities;
  }

  lemma {:induction false} PlainDefaults(clock: int)
    ensures var o := PlainOptions();
            && Times(o, clock) == Some((1, 2))
            && Versions(o) == [ProtocolId()] && Profiles(o) == [DevelopmentProfile()] && Capabilities(o) == [ForwardRole(), RouteRole()]
  {
    hide Lit, ProtocolId, DevelopmentProfile, ForwardRole, RouteRole;
    assert Wrap64(1_000_000_000) == 1_000_000_000;
  }

  lemma {:induction false} AllAscii(texts: seq<bytes>)
    requires forall t :: t in texts ==> forall i :: 0 <= i < |t| ==> t[i] < 128
    ensures AllUtf8(texts)
  {
    forall t | t in texts ensures Utf8.Valid(t) {
      Utf8.AsciiIsValid(t);
    }
  }

  lemma {:induction false} PlainTexts()
    ensures AllUtf8([ProtocolId()]) && AllUtf8([DevelopmentProfile()]) && AllUtf8([ForwardRole(), RouteRole()])
  {
    hide AllUtf8;
    AllAscii([ProtocolId()]);
    AllAscii([DevelopmentProfile()]);
    AllAscii([ForwardRole(), RouteRole()]);
  }

  lemma {:induction false} PlainIsAdmissible()
    ensures Admissible(PlainOptions(), [DevelopmentProfile()])
  {
    var o := PlainOptions();
    PlainTexts();
    Utf8.AsciiIsValid(o.endpoints[0].uri);
    assert Versions(o) == [ProtocolId()] && Profiles(o) == [DevelopmentProfile()] && Capabilities(o) == [ForwardRole(), RouteRole()];
    hide AllUtf8, Lit, ProtocolId, DevelopmentProfile, ForwardRole, RouteRole, Versions, Profiles, Capabilities;
    assert Profiles(o)[0] in [DevelopmentProfile()];
  }

  /** A beacon with the default lists and one endpoint is created, and is accepted while it lasts, whatever else counts as an address. */
  lemma {:induction false} BeaconExists(wssOk: bytes -> bool, randomId: bytes, randomEvent: bytes)
    returns (env: Env, sign: bytes -> Option<bytes>, c: Created)
    requires |randomId| == |randomEvent| == 32 && wssOk(Lit("wss://relay.example:443"))
    ensures env.wssOk == wssOk
    ensures SignsFor(env, sign, PlainOptions().publicKey)
    ensures Create(env, PlainOptions(), 0, sign, randomId, randomEvent) == Some(c)
    ensures Validate(env, c.wrapper, 1, 0, [DevelopmentProfile()]) == Accepted((c.envelope, c.payload))
  {
    var o := PlainOptions();
    env, sign := SignerExists(wssOk, o.publicKey, seq(64, _ => 0));
    PlainPayload(env, 0, randomId);
    PlainIsAdmissible();
    hide PlainOptions, Admissible, MakePayload, Create, Validate, SignsFor;
    CreateSucceeds(env, o, 0, sign, randomId, randomEvent, [DevelopmentProfile()]);
    c := Create(env, o, 0, sign, randomId, randomEvent).value;
    CreatedIsAccepted(env, o, 0, sign, randomId, randomEvent, c, 1, 0, [DevelopmentProfile()]);
  }

  /** There are such surroundings and such a signer for every key. */
  lemma {:induction false} SignerExists(wssOk: bytes -> bool, publicKey: bytes, signature: bytes) returns (env: Env, sign: bytes -> Option<bytes>)
    requires |signature| == 64
    ensures SignsFor(env, sign, publicKey) && Signs(sign) && env.wssOk == wssOk
  {
    env := Env(wssOk, (key: bytes, message: bytes, sig: bytes) => key == publicKey && sig == signature);
    sign := (message: bytes) => Some(signature);
  }
}
