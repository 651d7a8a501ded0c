/** The signed endpoint-only envelope of protocol/v0/application_control.go. */
module ApplicationControls {
  import opened Bytes
  import opened Cbor
  import opened CborParse
  import opened CborTheorems
  import opened CborFields
  import Sorting
  import Utf8

  const MAX_CONTROL_BYTES := 4096
  const MAX_KIND_BYTES := 96
  const MAX_BODY_BYTES := 2048

  function Version(): bytes { Lit("branch.application-control/0.draft") }

  function SignatureDomain(): bytes { Lit("branch.application-control.signature/0.draft") + [0] }

  datatype Control = Control(
    version: bytes,
    kind: bytes,
    controlId: bytes,
    issuedAt: uint64,
    expiresAt: uint64,
    senderPeerId: bytes,
    recipientPeerId: bytes,
    body: bytes,
    signature: bytes)

  predicate ValidControl(c: Control) {
    && c.version == Version()
    && 0 < |c.kind| <= MAX_KIND_BYTES
    && |c.controlId| == 16
    && c.issuedAt < c.expiresAt <= MAX_TIMESTAMP
    && |c.senderPeerId| == 32
    && |c.recipientPeerId| == 32
    && 0 < |c.body| <= MAX_BODY_BYTES
    && (|c.signature| == 0 || |c.signature| == 64)
  }

  function UnsignedFields(c: Control): seq<Entry> {
    [Entry(Lit("version"), Text(c.version)),
     Entry(Lit("kind"), Text(c.kind)),
     Entry(Lit("control_id"), Blob(c.controlId)),
     Entry(Lit("issued_at"), Uint(c.issuedAt)),
     Entry(Lit("expires_at"), Uint(c.expiresAt)),
     Entry(Lit("sender_peer_id"), Blob(c.senderPeerId)),
     Entry(Lit("recipient_peer_id"), Blob(c.recipientPeerId)),
     Entry(Lit("body"), Blob(c.body))]
  }

  function ControlFields(c: Control): seq<Entry> {
    UnsignedFields(c) + [Entry(Lit("signature"), Blob(c.signature))]
  }

  function ControlNames(): seq<bytes> {
    [Lit("version"), Lit("kind"), Lit("control_id"), Lit("issued_at"), Lit("expires_at"),
     Lit("sender_peer_id"), Lit("recipient_peer_id"), Lit("body"), Lit("signature")]
  }

  function EncodeControl(c: Control): Option<bytes> {
    if !ValidControl(c) then None
    else
      match Encode(Map(ControlFields(c)))
      case None => None
      case Some(encoded) => if |encoded| > MAX_CONTROL_BYTES then None else Some(encoded)
  }

  /** ApplicationControlSigningBytes */
  function SigningBytes(c: Control): Option<bytes> {
    if !ValidControl(c) then None
    else
      match Encode(Map(UnsignedFields(c)))
      case None => None
      case Some(unsigned) => Some(SignatureDomain() + unsigned)
  }

  /** applicationControlSignature: unlike every other byte field it may be empty. */
  function ReadSignature(entries: seq<Entry>): Option<bytes> {
    match Find(entries, Lit("signature"))
    case Some(Blob(data)) => if |data| != 0 && |data| != 64 then None else Some(data)
    case _ => None
  }

  function ControlFromMap(entries: seq<Entry>): Option<Control> {
    if !AllKnown(entries, ControlNames()) then None
    else
      match (ReadText(entries, Lit("version")), ReadText(entries, Lit("kind")), ReadBlob(entries, Lit("control_id"), 16),
             ReadUint(entries, Lit("issued_at")), ReadUint(entries, Lit("expires_at")), ReadBlob(entries, Lit("sender_peer_id"), 32),
             ReadBlob(entries, Lit("recipient_peer_id"), 32), ReadBlob(entries, Lit("body"), 0), ReadSignature(entries))
      case (Some(version), Some(kind), Some(id), Some(issued), Some(expires), Some(sender), Some(recipient), Some(body), Some(signature)) =>
        var c := Control(version, kind, id, issued, expires, sender, recipient, body, signature);
        if ValidControl(c) then Some(c) else None
      case _ => None
  }

  /** DecodeApplicationControl */
  function DecodeControl(input: bytes): Option<Control> {
    if input == [] || |input| > MAX_CONTROL_BYTES then None
    else
      match DecodeMap(input)
      case None => None
      case Some(entries) => ControlFromMap(entries)
  }

  // ---------------------------------------------------------------- the field list

  lemma {:induction false} UnsignedDistinct(c: Control)
    ensures DistinctKeys(UnsignedFields(c)) && Flat(UnsignedFields(c))
  {
    KeysDiffer("kind", "body");
    KeysDiffer("control_id", "expires_at");
  }

  lemma {:induction false} SignatureKeyNew(c: Control)
    ensures forall i :: 0 <= i < 8 ==> UnsignedFields(c)[i].key != Lit("signature")
  {
    KeysDiffer("issued_at", "signature");
  }

  lemma {:induction false} ControlFieldsDistinct(c: Control)
    ensures DistinctKeys(ControlFields(c)) && Flat(ControlFields(c))
    ensures DistinctKeys(UnsignedFields(c)) && Flat(UnsignedFields(c))
  {
    UnsignedDistinct(c);
    SignatureKeyNew(c);
    AppendDistinct(UnsignedFields(c), Entry(Lit("signature"), Blob(c.signature)));
  }

  lemma {:induction false} KeysInLimits(c: Control)
    ensures forall i :: 0 <= i < 9 ==> TextInLimits(ControlFields(c)[i].key, Wire(MAX_STRING_BYTES))
  {
    forall i | 0 <= i < 9 ensures TextInLimits(ControlFields(c)[i].key, Wire(MAX_STRING_BYTES)) {
      AsciiInLimits(ControlFields(c)[i].key);
    }
  }

  lemma {:induction false} ControlFieldsFit(c: Control, fields: seq<Entry>)
    requires fields == ControlFields(c)
    requires TextInLimits(c.version, Wire(MAX_STRING_BYTES)) && TextInLimits(c.kind, Wire(MAX_STRING_BYTES))
    requires |c.controlId| <= 16 && |c.senderPeerId| <= 32 && |c.recipientPeerId| <= 32
    requires |c.body| <= MAX_BODY_BYTES && |c.signature| <= 64
    ensures forall i :: 0 <= i < 9 ==> FieldFits(fields[i])
  {
    KeysInLimits(c);
  }

  lemma {:induction false} ControlInLimits(c: Control)
    requires ValidControl(c) && Utf8.Valid(c.kind)
    ensures InLimits(Map(ControlFields(c)), 0, Wire(MAX_STRING_BYTES))
  {
    assert DistinctKeys(ControlFields(c)) by { ControlFieldsDistinct(c); }
    assert TextInLimits(c.version, Wire(MAX_STRING_BYTES)) by { AsciiInLimits(c.version); }
    ControlFieldsFit(c, ControlFields(c));
    FlatInLimits(ControlFields(c));
  }

  lemma {:induction false} ControlLengths(c: Control, fields: seq<Entry>)
    requires ValidControl(c) && fields == ControlFields(c)
    ensures |fields| == 9 && EncodedLength(fields[7]) <= 2100
    ensures forall i :: 0 <= i < 9 && i != 7 ==> EncodedLength(fields[i]) <= 110
  {
  }

  /** The envelope cap cannot refuse a valid control. */
  lemma {:induction false} ControlFits(c: Control)
    requires ValidControl(c)
    ensures EncodeControl(c).Some? && EncodeControl(c) == Encode(Map(ControlFields(c)))
    ensures EncodeControl(c).value != []
  {
    ControlFieldsDistinct(c);
    FlatLength(ControlFields(c));
    ControlLengths(c, ControlFields(c));
    hide ControlFields, TotalLength, EncodedLength;
    TotalLengthOf9(ControlFields(c));
    EncodingNotEmpty(Map(ControlFields(c)));
  }

  ghost predicate ControlReads(entries: seq<Entry>, c: Control) {
    && UnsignedReads(entries, c)
    && Find(entries, Lit("signature")) == Some(Blob(c.signature))
  }

  ghost predicate UnsignedReads(entries: seq<Entry>, c: Control) {
    && Find(entries, Lit("version")) == Some(Text(c.version))
    && Find(entries, Lit("kind")) == Some(Text(c.kind))
    && Find(entries, Lit("control_id")) == Some(Blob(c.controlId))
    && Find(entries, Lit("issued_at")) == Some(Uint(c.issuedAt))
    && Find(entries, Lit("expires_at")) == Some(Uint(c.expiresAt))
    && Find(entries, Lit("sender_peer_id")) == Some(Blob(c.senderPeerId))
    && Find(entries, Lit("recipient_peer_id")) == Some(Blob(c.recipientPeerId))
    && Find(entries, Lit("body")) == Some(Blob(c.body))
  }

  lemma {:induction false} FieldsRead(fields: seq<Entry>, c: Control)
    requires DistinctKeys(fields) && |fields| >= 8 && fields[..8] == UnsignedFields(c)
    ensures UnsignedReads(fields, c)
  {
    forall i | 0 <= i < 8 ensures Find(fields, UnsignedFields(c)[i].key) == Some(UnsignedFields(c)[i].value) {
      assert fields[i] == UnsignedFields(c)[i];
      FindMember(fields, fields[i]);
    }
    assert Find(fields, UnsignedFields(c)[0].key) == Some(UnsignedFields(c)[0].value);
    assert Find(fields, UnsignedFields(c)[1].key) == Some(UnsignedFields(c)[1].value);
    assert Find(fields, UnsignedFields(c)[2].key) == Some(UnsignedFields(c)[2].value);
    assert Find(fields, UnsignedFields(c)[3].key) == Some(UnsignedFields(c)[3].value);
    assert Find(fields, UnsignedFields(c)[4].key) == Some(UnsignedFields(c)[4].value);
    assert Find(fields, UnsignedFields(c)[5].key) == Some(UnsignedFields(c)[5].value);
    assert Find(fields, UnsignedFields(c)[6].key) == Some(UnsignedFields(c)[6].value);
    assert Find(fields, UnsignedFields(c)[7].key) == Some(UnsignedFields(c)[7].value);
  }

  lemma {:induction false} ControlFieldsRead(c: Control)
    ensures ControlReads(ControlFields(c), c) && UnsignedReads(UnsignedFields(c), c)
  {
    ControlFieldsDistinct(c);
    FieldsRead(ControlFields(c), c);
    FieldsRead(UnsignedFields(c), c);
    FindMember(ControlFields(c), ControlFields(c)[8]);
  }

  /** The reader returns c exactly when the entries hold the fields of c and no others, and c is valid. */
  lemma {:induction false} ControlFromMapExact(entries: seq<Entry>, c: Control)
    ensures ControlFromMap(entries) == Some(c) <==> ValidControl(c) && AllKnown(entries, ControlNames()) && ControlReads(entries, c)
  {
  }

  lemma {:induction false} ReadsAll(entries: seq<Entry>, c: Control, fields: seq<Entry>)
    requires ControlReads(entries, c) && fields == ControlFields(c)
    ensures forall f :: f in fields ==> Find(entries, f.key) == Some(f.value)
  {
  }

  lemma {:induction false} ControlHeld(entries: seq<Entry>, c: Control)
    requires ControlFromMap(entries) == Some(c)
    ensures ValidControl(c) && HoldsExactly(entries, ControlFields(c))
  {
    assert ValidControl(c) && AllKnown(entries, ControlNames()) && ControlReads(entries, c) by {
      ControlFromMapExact(entries, c);
    }
    ReadsAll(entries, c, ControlFields(c));
    NamesCovered(entries, ControlFields(c), ControlNames());
  }

  lemma {:induction false} ControlFromPermutation(entries: seq<Entry>, c: Control)
    requires ValidControl(c) && multiset(entries) == multiset(ControlFields(c))
    requires forall key :: Find(entries, key) == Find(ControlFields(c), key)
    ensures ControlFromMap(entries) == Some(c)
  {
    assert AllKnown(entries, ControlNames()) by {
      NamesKnown(entries, ControlFields(c), ControlNames());
    }
    assert ControlReads(entries, c) by {
      ControlFieldsRead(c);
    }
    assert ControlFromMap(entries) == Some(c) by {
      ControlFromMapExact(entries, c);
    }
  }

  // ---------------------------------------------------------------- exactness

  lemma {:induction false} ControlDecodes(c: Control)
    requires ValidControl(c) && Utf8.Valid(c.kind)
    ensures EncodeControl(c).Some? && DecodeControl(EncodeControl(c).value) == Some(c)
  {
    ControlFits(c);
    ControlInLimits(c);
    assert Flat(ControlFields(c)) by {
      ControlFieldsDistinct(c);
    }
    var entries := FlatRoundTrip(ControlFields(c));
    ControlFromPermutation(entries, c);
  }

  lemma {:induction false} KindIsText(c: Control)
    requires InLimits(Map(ControlFields(c)), 0, Wire(MAX_STRING_BYTES))
    ensures Utf8.Valid(c.kind)
  {
    TextFieldIsUtf8(ControlFields(c), ControlFields(c)[1]);
  }

  lemma {:induction false} ControlReencodes(c: Control, input: bytes)
    requires DecodeControl(input) == Some(c)
    ensures EncodeControl(c) == Some(input) && Utf8.Valid(c.kind)
  {
    assert ValidControl(c) && HoldsExactly(DecodeMap(input).value, ControlFields(c)) by {
      ControlHeld(DecodeMap(input).value, c);
    }
    assert Encode(Map(ControlFields(c))) == Some(input) && InLimits(Map(ControlFields(c)), 0, Wire(MAX_STRING_BYTES)) by {
      assert DistinctKeys(ControlFields(c)) by { ControlFieldsDistinct(c); }
      Reencodes(input, ControlFields(c));
    }
    assert EncodeControl(c) == Some(input) by { ControlFits(c); }
    assert Utf8.Valid(c.kind) by { KindIsText(c); }
  }

  /**
    An input decodes to a control exactly when it is that control's encoding and the kind is UTF-8. Encoding does
    not look at UTF-8, so the encoding of a control with any other kind is refused.
  */
  lemma {:induction false} ControlExact(c: Control, input: bytes)
    ensures DecodeControl(input) == Some(c) <==> EncodeControl(c) == Some(input) && Utf8.Valid(c.kind)
  {
    if EncodeControl(c) == Some(input) && Utf8.Valid(c.kind) {
      ControlDecodes(c);
    }
    if DecodeControl(input) == Some(c) {
      ControlReencodes(c, input);
    }
  }

  /** A valid control survives the wire if and only if its kind is UTF-8. */
  lemma {:induction false} ControlRoundTrip(c: Control)
    requires ValidControl(c)
    ensures EncodeControl(c).Some?
    ensures DecodeControl(EncodeControl(c).value) == Some(c) <==> Utf8.Valid(c.kind)
  {
    ControlFits(c);
    ControlExact(c, EncodeControl(c).value);
  }

  lemma {:induction false} UnsignedRepresentable(c: Control)
    requires ValidControl(c)
    ensures Representable(Map(UnsignedFields(c)))
  {
    forall e | e in UnsignedFields(c) ensures |e.key| < 0x1_0000_0000_0000_0000 && Representable(e.value) {
    }
  }

  lemma {:induction false} ControlRepresentable(c: Control)
    requires ValidControl(c)
    ensures Representable(Map(ControlFields(c)))
  {
    UnsignedRepresentable(c);
    hide UnsignedFields;
    assert Representable(Blob(c.signature)) && |Lit("signature")| < 0x1_0000_0000_0000_0000;
  }

  /** Different valid controls have different encodings. */
  lemma {:induction false} ControlInjective(c: Control, d: Control)
    requires ValidControl(c) && ValidControl(d) && EncodeControl(c) == EncodeControl(d)
    ensures c == d
  {
    ControlFits(c);
    ControlFits(d);
    ControlFieldsDistinct(c);
    ControlFieldsDistinct(d);
    ControlRepresentable(c);
    ControlRepresentable(d);
    ControlFieldsRead(c);
    ControlFieldsRead(d);
    hide ControlFields, EncodeControl, ValidControl;
    FlatInjective(ControlFields(c), ControlFields(d));
  }

  /** A valid control whose kind is not UTF-8: it encodes, and its encoding decodes to nothing. */
  lemma {:induction false} BinaryKindIsRefused() returns (c: Control)
    ensures ValidControl(c) && EncodeControl(c).Some? && DecodeControl(EncodeControl(c).value) == None
  {
    c := Control(Version(), [0xFF], seq(16, _ => 0), 0, 1, seq(32, _ => 0), seq(32, _ => 0), [0], []);
    assert ValidControl(c) && !Utf8.Valid(c.kind);
    ControlRoundTrip(c);
    var input := EncodeControl(c).value;
    if DecodeControl(input).Some? {
      var d := DecodeControl(input).value;
      ControlExact(d, input);
      assert ValidControl(d);
      ControlInjective(c, d);
    }
  }

  // ---------------------------------------------------------------- signing bytes

  /** What a control is on the wire, and what is signed: the same record without the signature, behind its domain and a zero byte. */
  lemma {:induction false} ControlWire(c: Control)
    ensures var unsigned := [
              Entry(Lit("version"), Text(c.version)), Entry(Lit("kind"), Text(c.kind)), Entry(Lit("control_id"), Blob(c.controlId)),
              Entry(Lit("issued_at"), Uint(c.issuedAt)), Entry(Lit("expires_at"), Uint(c.expiresAt)),
              Entry(Lit("sender_peer_id"), Blob(c.senderPeerId)), Entry(Lit("recipient_peer_id"), Blob(c.recipientPeerId)),
              Entry(Lit("body"), Blob(c.body))];
            if WellFormed(c) then
              && EncodeControl(c).Some? && EncodeControl(c) == Encode(Map(unsigned + [Entry(Lit("signature"), Blob(c.signature))]))
              && SigningBytes(c).Some?
              && forall image :: Encode(Map(unsigned)) == Some(image) ==>
                   SigningBytes(c) == Some(Lit("branch.application-control.signature/0.draft") + [0] + image)
            else EncodeControl(c) == None && SigningBytes(c) == None
  {
    if WellFormed(c) {
      ControlFits(c);
      ControlFieldsDistinct(c);
      FlatEncodes(UnsignedFields(c));
    }
    hide Encode;
  }

  predicate WellFormed(c: Control) {
    && c.version == Lit("branch.application-control/0.draft") && 0 < |c.kind| <= 96 && |c.controlId| == 16
    && c.issuedAt < c.expiresAt <= 9_007_199_254_740_991 && |c.senderPeerId| == 32 && |c.recipientPeerId| == 32
    && 0 < |c.body| <= 2048 && (c.signature == [] || |c.signature| == 64)
  }

  /** Two valid controls are signed over the same bytes exactly when they differ at most in the signature. */
  lemma {:induction false} SigningBytesExact(c: Control, d: Control)
    requires ValidControl(c) && ValidControl(d)
    ensures SigningBytes(c).Some? && SigningBytes(d).Some?
    ensures SigningBytes(c) == SigningBytes(d) <==> c.(signature := d.signature) == d
  {
    ControlFieldsDistinct(c);
    ControlFieldsDistinct(d);
    FlatEncodes(UnsignedFields(c));
    FlatEncodes(UnsignedFields(d));
    if SigningBytes(c) == SigningBytes(d) {
      var domain := SignatureDomain();
      assert Encode(Map(UnsignedFields(c))).value == SigningBytes(c).value[|domain|..];
      assert Encode(Map(UnsignedFields(d))).value == SigningBytes(d).value[|domain|..];
      UnsignedRepresentable(c);
      UnsignedRepresentable(d);
      FlatInjective(UnsignedFields(c), UnsignedFields(d));
      UnsignedDetermined(c, d);
    }
  }

  lemma {:induction false} UnsignedDetermined(c: Control, d: Control)
    requires forall key :: Find(UnsignedFields(c), key) == Find(UnsignedFields(d), key)
    ensures c.(signature := d.signature) == d
  {
    ControlFieldsRead(c);
    ControlFieldsRead(d);
  }
}
