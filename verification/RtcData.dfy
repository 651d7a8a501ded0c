/** The endpoint-to-endpoint frames of protocol/v0/rtc_data.go: DATA and ADMIT. */
module RtcDataFrames {
  import opened Bytes
  import opened Cbor
  import opened CborParse
  import opened CborTheorems
  import opened CborFields
  import Sorting
  import Utf8

  const MAX_CIPHERTEXT_BYTES := 6 * 1024
  const MAX_DATA_FRAME_BYTES := 8 * 1024
  const MAX_ADMIT_FRAME_BYTES := 256

  function Version(): bytes { Lit("branch.rtc.data/0.draft") }

  datatype RtcData = RtcData(
    version: bytes,
    rtcSessionId: bytes,
    originRouteId: bytes,
    pathEpoch: uint64,
    streamId: uint64,
    deliveryId: bytes,
    ackRequested: bool,
    ciphertext: bytes)

  datatype RtcAdmit = RtcAdmit(version: bytes, rtcSessionId: bytes, deliveryId: bytes)

  datatype Frame = DataFrame(data: RtcData) | AdmitFrame(admit: RtcAdmit)

  predicate ValidData(d: RtcData) {
    && d.version == Version()
    && |d.rtcSessionId| == 16
    && |d.originRouteId| == 16
    && d.pathEpoch <= MAX_TIMESTAMP
    && d.streamId <= MAX_TIMESTAMP
    && |d.deliveryId| == 16
    && 0 < |d.ciphertext| <= MAX_CIPHERTEXT_BYTES
  }

  predicate ValidAdmit(a: RtcAdmit) {
    a.version == Version() && |a.rtcSessionId| == 16 && |a.deliveryId| == 16
  }

  function DataFields(d: RtcData): seq<Entry> {
    [Entry(Lit("kind"), Text(Lit("data"))),
     Entry(Lit("version"), Text(d.version)),
     Entry(Lit("rtc_session_id"), Blob(d.rtcSessionId)),
     Entry(Lit("origin_route_id"), Blob(d.originRouteId)),
     Entry(Lit("path_epoch"), Uint(d.pathEpoch)),
     Entry(Lit("stream_id"), Uint(d.streamId)),
     Entry(Lit("delivery_id"), Blob(d.deliveryId)),
     Entry(Lit("ack_requested"), Bool(d.ackRequested)),
     Entry(Lit("ciphertext"), Blob(d.ciphertext))]
  }

  function AdmitFields(a: RtcAdmit): seq<Entry> {
    [Entry(Lit("kind"), Text(Lit("admit"))),
     Entry(Lit("version"), Text(a.version)),
     Entry(Lit("rtc_session_id"), Blob(a.rtcSessionId)),
     Entry(Lit("delivery_id"), Blob(a.deliveryId))]
  }

  function DataNames(): seq<bytes> {
    [Lit("kind"), Lit("version"), Lit("rtc_session_id"), Lit("origin_route_id"), Lit("path_epoch"),
     Lit("stream_id"), Lit("delivery_id"), Lit("ack_requested"), Lit("ciphertext")]
  }

  function AdmitNames(): seq<bytes> {
    [Lit("kind"), Lit("version"), Lit("rtc_session_id"), Lit("delivery_id")]
  }

  /** encodeRTCDataFrame; None is ErrInvalidRTCData. */
  function EncodeFrame(fields: seq<Entry>, maximum: nat): Option<bytes> {
    match Encode(Map(fields))
    case None => None
    case Some(encoded) => if encoded == [] || |encoded| > maximum then None else Some(encoded)
  }

  function EncodeData(d: RtcData): Option<bytes> {
    if ValidData(d) then EncodeFrame(DataFields(d), MAX_DATA_FRAME_BYTES) else None
  }

  function EncodeAdmit(a: RtcAdmit): Option<bytes> {
    if ValidAdmit(a) then EncodeFrame(AdmitFields(a), MAX_ADMIT_FRAME_BYTES) else None
  }

  /** decodeRTCDataMap */
  function DecodeFrameMap(input: bytes, maximum: nat): Option<seq<Entry>> {
    if input == [] || |input| > maximum then None else DecodeMap(input)
  }

  /** decodeRTCDataFromMap */
  function DataFromMap(entries: seq<Entry>): Option<RtcData> {
    if ReadText(entries, Lit("kind")) != Some(Lit("data")) || !AllKnown(entries, DataNames()) then None
    else
      match (ReadText(entries, Lit("version")), ReadBlob(entries, Lit("rtc_session_id"), 16),
             ReadBlob(entries, Lit("origin_route_id"), 16), ReadUint(entries, Lit("path_epoch")),
             ReadUint(entries, Lit("stream_id")), ReadBlob(entries, Lit("delivery_id"), 16),
             ReadBool(entries, Lit("ack_requested")), ReadBlob(entries, Lit("ciphertext"), 0))
      case (Some(version), Some(session), Some(origin), Some(epoch), Some(stream), Some(delivery), Some(ack), Some(ciphertext)) =>
        var d := RtcData(version, session, origin, epoch, stream, delivery, ack, ciphertext);
        if ValidData(d) then Some(d) else None
      case _ => None
  }

  /** decodeRTCAdmitFromMap */
  function AdmitFromMap(entries: seq<Entry>): Option<RtcAdmit> {
    if ReadText(entries, Lit("kind")) != Some(Lit("admit")) || !AllKnown(entries, AdmitNames()) then None
    else
      match (ReadText(entries, Lit("version")), ReadBlob(entries, Lit("rtc_session_id"), 16), ReadBlob(entries, Lit("delivery_id"), 16))
      case (Some(version), Some(session), Some(delivery)) =>
        var a := RtcAdmit(version, session, delivery);
        if ValidAdmit(a) then Some(a) else None
      case _ => None
  }

  function DecodeData(input: bytes): Option<RtcData> {
    match DecodeFrameMap(input, MAX_DATA_FRAME_BYTES)
    case None => None
    case Some(entries) => DataFromMap(entries)
  }

  function DecodeAdmit(input: bytes): Option<RtcAdmit> {
    match DecodeFrameMap(input, MAX_ADMIT_FRAME_BYTES)
    case None => None
    case Some(entries) => AdmitFromMap(entries)
  }

  /** DecodeRTCDataFrame */
  function DecodeFrame(input: bytes): Option<Frame> {
    match DecodeFrameMap(input, MAX_DATA_FRAME_BYTES)
    case None => None
    case Some(entries) =>
      var kind := ReadText(entries, Lit("kind"));
      if kind == Some(Lit("data")) then
        match DataFromMap(entries)
        case Some(d) => Some(DataFrame(d))
        case None => None
      else if kind == Some(Lit("admit")) && |input| <= MAX_ADMIT_FRAME_BYTES then
        match AdmitFromMap(entries)
        case Some(a) => Some(AdmitFrame(a))
        case None => None
      else None
  }

  // ---------------------------------------------------------------- the field lists

  lemma {:induction false} DataFieldsDistinct(d: RtcData)
    ensures DistinctKeys(DataFields(d)) && Flat(DataFields(d))
  {
    KeysDiffer("path_epoch", "ciphertext");
  }

  lemma {:induction false} AdmitFieldsDistinct(a: RtcAdmit)
    ensures DistinctKeys(AdmitFields(a)) && Flat(AdmitFields(a))
  {
  }

  lemma {:induction false} DataInLimits(d: RtcData)
    requires ValidData(d)
    ensures InLimits(Map(DataFields(d)), 0, Wire(MAX_STRING_BYTES))
  {
    DataFieldsDistinct(d);
    forall e | e in DataFields(d) ensures FieldFits(e) {
      AsciiInLimits(e.key);
      if e.value.Text? {
        AsciiInLimits(e.value.text);
      }
    }
    FlatInLimits(DataFields(d));
  }

  lemma {:induction false} AdmitInLimits(a: RtcAdmit)
    requires ValidAdmit(a)
    ensures InLimits(Map(AdmitFields(a)), 0, Wire(MAX_STRING_BYTES))
  {
    AdmitFieldsDistinct(a);
    forall e | e in AdmitFields(a) ensures FieldFits(e) {
      AsciiInLimits(e.key);
      if e.value.Text? {
        AsciiInLimits(e.value.text);
      }
    }
    FlatInLimits(AdmitFields(a));
  }

  /** The frame cap cannot refuse a valid DATA record. */
  lemma {:induction false} DataFits(d: RtcData)
    requires ValidData(d)
    ensures EncodeData(d).Some? && EncodeData(d) == Encode(Map(DataFields(d)))
  {
    DataFieldsDistinct(d);
    FlatLength(DataFields(d));
    DataLengths(d, DataFields(d));
    hide DataFields, TotalLength, EncodedLength;
    TotalLengthOf9(DataFields(d));
    EncodingNotEmpty(Map(DataFields(d)));
  }

  lemma {:induction false} DataLengths(d: RtcData, fields: seq<Entry>)
    requires ValidData(d) && fields == DataFields(d)
    ensures |fields| == 9 && EncodedLength(fields[8]) <= 6200
    ensures forall i :: 0 <= i < 8 ==> EncodedLength(fields[i]) <= 48
  {
  }

  /** What a DATA record is on the wire, and which have one. */
  lemma {:induction false} DataWire(d: RtcData)
    ensures if d.version == Lit("branch.rtc.data/0.draft") && |d.rtcSessionId| == 16 && |d.originRouteId| == 16 && |d.deliveryId| == 16
               && d.pathEpoch <= 9_007_199_254_740_991 && d.streamId <= 9_007_199_254_740_991 && 0 < |d.ciphertext| <= 6144
            then EncodeData(d).Some? && EncodeData(d) == Encode(Map([
              Entry(Lit("kind"), Text(Lit("data"))), Entry(Lit("version"), Text(d.version)), Entry(Lit("rtc_session_id"), Blob(d.rtcSessionId)),
              Entry(Lit("origin_route_id"), Blob(d.originRouteId)), Entry(Lit("path_epoch"), Uint(d.pathEpoch)),
              Entry(Lit("stream_id"), Uint(d.streamId)), Entry(Lit("delivery_id"), Blob(d.deliveryId)),
              Entry(Lit("ack_requested"), Bool(d.ackRequested)), Entry(Lit("ciphertext"), Blob(d.ciphertext))]))
            else EncodeData(d) == None
  {
    if ValidData(d) {
      DataFits(d);
    }
    hide Encode;
  }

  lemma {:induction false} AdmitWire(a: RtcAdmit)
    ensures if a.version == Lit("branch.rtc.data/0.draft") && |a.rtcSessionId| == 16 && |a.deliveryId| == 16
            then EncodeAdmit(a).Some? && EncodeAdmit(a) == Encode(Map([
              Entry(Lit("kind"), Text(Lit("admit"))), Entry(Lit("version"), Text(a.version)),
              Entry(Lit("rtc_session_id"), Blob(a.rtcSessionId)), Entry(Lit("delivery_id"), Blob(a.deliveryId))]))
            else EncodeAdmit(a) == None
  {
    if ValidAdmit(a) {
      AdmitFits(a);
    }
    hide Encode;
  }

  lemma {:induction false} AdmitFits(a: RtcAdmit)
    requires ValidAdmit(a)
    ensures EncodeAdmit(a).Some? && EncodeAdmit(a) == Encode(Map(AdmitFields(a)))
  {
    AdmitFieldsDistinct(a);
    var fields := AdmitFields(a);
    FlatLength(fields);
    TotalLengthOf4(fields);
    EncodingNotEmpty(Map(fields));
  }

  // ---------------------------------------------------------------- exactness

  ghost predicate DataReads(entries: seq<Entry>, d: RtcData) {
    && Find(entries, Lit("kind")) == Some(Text(Lit("data")))
    && Find(entries, Lit("version")) == Some(Text(d.version))
    && Find(entries, Lit("rtc_session_id")) == Some(Blob(d.rtcSessionId))
    && Find(entries, Lit("origin_route_id")) == Some(Blob(d.originRouteId))
    && Find(entries, Lit("path_epoch")) == Some(Uint(d.pathEpoch))
    && Find(entries, Lit("stream_id")) == Some(Uint(d.streamId))
    && Find(entries, Lit("delivery_id")) == Some(Blob(d.deliveryId))
    && Find(entries, Lit("ack_requested")) == Some(Bool(d.ackRequested))
    && Find(entries, Lit("ciphertext")) == Some(Blob(d.ciphertext))
  }

  lemma {:induction false} DataFieldsRead(d: RtcData)
    ensures DataReads(DataFields(d), d)
  {
    DataFieldsDistinct(d);
    var fields := DataFields(d);
    forall i | 0 <= i < |fields| ensures Find(fields, fields[i].key) == Some(fields[i].value) {
      FindMember(fields, fields[i]);
    }
    assert Find(fields, fields[0].key) == Some(fields[0].value);
    assert Find(fields, fields[1].key) == Some(fields[1].value);
    assert Find(fields, fields[2].key) == Some(fields[2].value);
    assert Find(fields, fields[3].key) == Some(fields[3].value);
    assert Find(fields, fields[4].key) == Some(fields[4].value);
    assert Find(fields, fields[5].key) == Some(fields[5].value);
    assert Find(fields, fields[6].key) == Some(fields[6].value);
    assert Find(fields, fields[7].key) == Some(fields[7].value);
    assert Find(fields, fields[8].key) == Some(fields[8].value);
  }

  /** The reader returns d exactly when the entries hold the fields of d and no others, and d is valid. */
  lemma {:induction false} DataFromMapExact(entries: seq<Entry>, d: RtcData)
    ensures DataFromMap(entries) == Some(d) <==> ValidData(d) && AllKnown(entries, DataNames()) && DataReads(entries, d)
  {
  }

  lemma {:induction false} DataNamesKnown(entries: seq<Entry>, d: RtcData)
    requires multiset(entries) == multiset(DataFields(d))
    ensures AllKnown(entries, DataNames())
  {
    hide AllKnown, ValidData;
    var fields, names := DataFields(d), DataNames();
    assert forall i :: 0 <= i < 9 ==> fields[i].key == names[i];
    NamesKnown(entries, fields, names);
  }

  lemma {:induction false} DataFromPermutation(entries: seq<Entry>, d: RtcData)
    requires ValidData(d) && multiset(entries) == multiset(DataFields(d))
    requires forall key :: Find(entries, key) == Find(DataFields(d), key)
    ensures DataFromMap(entries) == Some(d)
  {
    hide Find, DataFromMap, DataNames, ValidData;
    assert AllKnown(entries, DataNames()) by {
      DataNamesKnown(entries, d);
    }
    assert DataReads(entries, d) by {
      DataFieldsRead(d);
    }
    DataFromMapExact(entries, d);
  }

  lemma {:induction false} DataDecodes(d: RtcData)
    requires ValidData(d)
    ensures EncodeData(d).Some? && DecodeData(EncodeData(d).value) == Some(d)
  {
    DataFits(d);
    DataInLimits(d);
    assert Flat(DataFields(d)) by {
      DataFieldsDistinct(d);
    }
    var entries := FlatRoundTrip(DataFields(d));
    DataFromPermutation(entries, d);
    assert DecodeFrameMap(EncodeData(d).value, MAX_DATA_FRAME_BYTES) == Some(entries);
  }

  lemma {:induction false} DataReadsAll(entries: seq<Entry>, d: RtcData, fields: seq<Entry>)
    requires DataReads(entries, d) && fields == DataFields(d)
    ensures forall f :: f in fields ==> Find(entries, f.key) == Some(f.value)
  {
  }

  lemma {:induction false} DataHeld(entries: seq<Entry>, d: RtcData)
    requires DataFromMap(entries) == Some(d)
    ensures ValidData(d) && HoldsExactly(entries, DataFields(d))
  {
    assert ValidData(d) && AllKnown(entries, DataNames()) && DataReads(entries, d) by {
      DataFromMapExact(entries, d);
    }
    DataReadsAll(entries, d, DataFields(d));
    NamesCovered(entries, DataFields(d), DataNames());
  }

  lemma {:induction false} DataReencodes(d: RtcData, input: bytes)
    requires DecodeData(input) == Some(d)
    ensures EncodeData(d) == Some(input)
  {
    DataHeld(DecodeMap(input).value, d);
    assert DistinctKeys(DataFields(d)) by { DataFieldsDistinct(d); }
    Reencodes(input, DataFields(d));
    DataFits(d);
  }

  /**
    DATA frames and byte strings correspond one to one: an input decodes to a record exactly when it is what
    encoding that record gives.
  */
  lemma {:induction false} DataExact(d: RtcData, input: bytes)
    ensures DecodeData(input) == Some(d) <==> EncodeData(d) == Some(input)
  {
    if EncodeData(d) == Some(input) {
      DataDecodes(d);
    }
    if DecodeData(input) == Some(d) {
      DataReencodes(d, input);
    }
  }

  /** Every valid DATA record survives the wire, through either decoder. */
  lemma {:induction false} DataRoundTrip(d: RtcData)
    requires ValidData(d)
    ensures EncodeData(d).Some?
    ensures DecodeData(EncodeData(d).value) == Some(d)
    ensures DecodeFrame(EncodeData(d).value) == Some(DataFrame(d))
  {
    DataFits(d);
    DataExact(d, EncodeData(d).value);
  }

  ghost predicate AdmitReads(entries: seq<Entry>, a: RtcAdmit) {
    && Find(entries, Lit("kind")) == Some(Text(Lit("admit")))
    && Find(entries, Lit("version")) == Some(Text(a.version))
    && Find(entries, Lit("rtc_session_id")) == Some(Blob(a.rtcSessionId))
    && Find(entries, Lit("delivery_id")) == Some(Blob(a.deliveryId))
  }

  lemma {:induction false} AdmitFieldsRead(a: RtcAdmit)
    ensures AdmitReads(AdmitFields(a), a)
  {
    AdmitFieldsDistinct(a);
    var fields := AdmitFields(a);
    FindMember(fields, fields[0]);
    FindMember(fields, fields[1]);
    FindMember(fields, fields[2]);
    FindMember(fields, fields[3]);
  }

  lemma {:induction false} AdmitFromMapExact(entries: seq<Entry>, a: RtcAdmit)
    ensures AdmitFromMap(entries) == Some(a) <==> ValidAdmit(a) && AllKnown(entries, AdmitNames()) && AdmitReads(entries, a)
  {
  }

  lemma {:induction false} AdmitFromPermutation(entries: seq<Entry>, a: RtcAdmit)
    requires ValidAdmit(a) && multiset(entries) == multiset(AdmitFields(a))
    requires forall key :: Find(entries, key) == Find(AdmitFields(a), key)
    ensures AdmitFromMap(entries) == Some(a)
  {
    assert AllKnown(entries, AdmitNames()) by {
      NamesKnown(entries, AdmitFields(a), AdmitNames());
    }
    assert AdmitReads(entries, a) by {
      AdmitFieldsRead(a);
    }
    AdmitFromMapExact(entries, a);
  }

  lemma {:induction false} AdmitDecodes(a: RtcAdmit)
    requires ValidAdmit(a)
    ensures EncodeAdmit(a).Some? && DecodeAdmit(EncodeAdmit(a).value) == Some(a)
  {
    AdmitFits(a);
    AdmitInLimits(a);
    assert Flat(AdmitFields(a)) by {
      AdmitFieldsDistinct(a);
    }
    var entries := FlatRoundTrip(AdmitFields(a));
    AdmitFromPermutation(entries, a);
    assert DecodeFrameMap(EncodeAdmit(a).value, MAX_ADMIT_FRAME_BYTES) == Some(entries);
  }

  lemma {:induction false} AdmitHeld(entries: seq<Entry>, a: RtcAdmit)
    requires AdmitFromMap(entries) == Some(a)
    ensures ValidAdmit(a) && HoldsExactly(entries, AdmitFields(a))
  {
    AdmitFromMapExact(entries, a);
    NamesCovered(entries, AdmitFields(a), AdmitNames());
  }

  lemma {:induction false} AdmitReencodes(a: RtcAdmit, input: bytes)
    requires DecodeAdmit(input) == Some(a)
    ensures EncodeAdmit(a) == Some(input)
  {
    AdmitHeld(DecodeMap(input).value, a);
    assert DistinctKeys(AdmitFields(a)) by { AdmitFieldsDistinct(a); }
    Reencodes(input, AdmitFields(a));
    AdmitFits(a);
  }

  /** ADMIT frames and byte strings correspond one to one. */
  lemma {:induction false} AdmitExact(a: RtcAdmit, input: bytes)
    ensures DecodeAdmit(input) == Some(a) <==> EncodeAdmit(a) == Some(input)
  {
    if EncodeAdmit(a) == Some(input) {
      AdmitDecodes(a);
    }
    if DecodeAdmit(input) == Some(a) {
      AdmitReencodes(a, input);
    }
  }

  lemma {:induction false} AdmitRoundTrip(a: RtcAdmit)
    requires ValidAdmit(a)
    ensures EncodeAdmit(a).Some?
    ensures DecodeAdmit(EncodeAdmit(a).value) == Some(a)
    ensures DecodeFrame(EncodeAdmit(a).value) == Some(AdmitFrame(a))
  {
    AdmitFits(a);
    AdmitExact(a, EncodeAdmit(a).value);
  }

  /** The frame decoder picks the variant that the bytes encode, and accepts nothing that neither decoder accepts. */
  lemma {:induction false} FrameExact(f: Frame, input: bytes)
    ensures DecodeFrame(input) == Some(f) <==>
            match f
            case DataFrame(d) => EncodeData(d) == Some(input)
            case AdmitFrame(a) => EncodeAdmit(a) == Some(input)
  {
    assert Lit("data") != Lit("admit") by { KeysDiffer("data", "admit"); }
    match f
    case DataFrame(d) => DataExact(d, input);
    case AdmitFrame(a) => AdmitExact(a, input);
  }
}
