/** The application plaintext of protocol/v0/application_payload.go and the geometry of an attachment. */
module ApplicationPayloads {
  import opened Bytes
  import opened Cbor
  import opened CborParse
  import opened CborTheorems
  import opened CborFields
  import Utf8

  const MAX_PAYLOAD_BYTES := 4096
  const MAX_KIND_BYTES := 96

  function Version(): bytes { Lit("branch.application-payload/0.draft") }

  datatype Payload = Payload(version: bytes, kind: bytes, messageId: bytes, body: bytes)

  /** ApplicationPayload.Validate */
  predicate ValidPayload(p: Payload) {
    && p.version == Version()
    && 0 < |p.kind| <= MAX_KIND_BYTES
    && |p.messageId| == 16
    && 0 < |p.body| <= MAX_PAYLOAD_BYTES
  }

  function PayloadFields(p: Payload): seq<Entry> {
    [Entry(Lit("version"), Text(p.version)),
     Entry(Lit("kind"), Text(p.kind)),
     Entry(Lit("message_id"), Blob(p.messageId)),
     Entry(Lit("body"), Blob(p.body))]
  }

  function PayloadNames(): seq<bytes> {
    [Lit("version"), Lit("kind"), Lit("message_id"), Lit("body")]
  }

  /** EncodeApplicationPayload has no cap on the size of the result. */
  function EncodePayload(p: Payload): Option<bytes> {
    if ValidPayload(p) then Encode(Map(PayloadFields(p))) else None
  }

  function PayloadFromMap(entries: seq<Entry>): Option<Payload> {
    if !AllKnown(entries, PayloadNames()) then None
    else
      match (ReadText(entries, Lit("version")), ReadText(entries, Lit("kind")),
             ReadBlob(entries, Lit("message_id"), 16), ReadBlob(entries, Lit("body"), 0))
      case (Some(version), Some(kind), Some(id), Some(body)) =>
        var p := Payload(version, kind, id, body);
        if ValidPayload(p) then Some(p) else None
      case _ => None
  }

  /** DecodeApplicationPayload */
  function DecodePayload(input: bytes): Option<Payload> {
    if input == [] || |input| > MAX_PAYLOAD_BYTES then None
    else
      match DecodeMap(input)
      case None => None
      case Some(entries) => PayloadFromMap(entries)
  }

  lemma {:induction false} PayloadFieldsDistinct(p: Payload)
    ensures DistinctKeys(PayloadFields(p)) && Flat(PayloadFields(p))
  {
    KeysDiffer("kind", "body");
  }

  lemma {:induction false} KeysInLimits(p: Payload)
    ensures forall i :: 0 <= i < 4 ==> TextInLimits(PayloadFields(p)[i].key, Wire(MAX_STRING_BYTES))
  {
    forall i | 0 <= i < 4 ensures TextInLimits(PayloadFields(p)[i].key, Wire(MAX_STRING_BYTES)) {
      AsciiInLimits(PayloadFields(p)[i].key);
    }
  }

  lemma {:induction false} PayloadFieldsFit(p: Payload, fields: seq<Entry>)
    requires fields == PayloadFields(p)
    requires TextInLimits(p.version, Wire(MAX_STRING_BYTES)) && TextInLimits(p.kind, Wire(MAX_STRING_BYTES))
    requires |p.messageId| == 16 && |p.body| <= MAX_PAYLOAD_BYTES
    ensures forall i :: 0 <= i < 4 ==> FieldFits(fields[i])
  {
    KeysInLimits(p);
  }

  lemma {:induction false} PayloadInLimits(p: Payload)
    requires ValidPayload(p) && Utf8.Valid(p.kind)
    ensures InLimits(Map(PayloadFields(p)), 0, Wire(MAX_STRING_BYTES))
  {
    assert DistinctKeys(PayloadFields(p)) by { PayloadFieldsDistinct(p); }
    assert TextInLimits(p.version, Wire(MAX_STRING_BYTES)) by { AsciiInLimits(p.version); }
    PayloadFieldsFit(p, PayloadFields(p));
    FlatInLimits(PayloadFields(p));
  }

  /** The exact size of an encoded payload: 83 bytes of framing, two variable heads, the kind and the body. */
  function PayloadLength(p: Payload): nat {
    83 + (if |p.kind| < 24 then 1 else 2) + |p.kind|
       + (if |p.body| < 24 then 1 else if |p.body| < 256 then 2 else 3) + |p.body|
  }

  lemma {:induction false} PayloadEncodes(p: Payload)
    requires ValidPayload(p)
    ensures EncodePayload(p).Some? && |EncodePayload(p).value| == PayloadLength(p)
  {
    PayloadFieldsDistinct(p);
    FlatLength(PayloadFields(p));
    TotalLengthOf4(PayloadFields(p));
  }

  ghost predicate PayloadReads(entries: seq<Entry>, p: Payload) {
    && Find(entries, Lit("version")) == Some(Text(p.version))
    && Find(entries, Lit("kind")) == Some(Text(p.kind))
    && Find(entries, Lit("message_id")) == Some(Blob(p.messageId))
    && Find(entries, Lit("body")) == Some(Blob(p.body))
  }

  lemma {:induction false} PayloadFieldsRead(p: Payload)
    ensures PayloadReads(PayloadFields(p), p)
  {
    PayloadFieldsDistinct(p);
    var fields := PayloadFields(p);
    FindMember(fields, fields[0]);
    FindMember(fields, fields[1]);
    FindMember(fields, fields[2]);
    FindMember(fields, fields[3]);
  }

  lemma {:induction false} PayloadFromMapExact(entries: seq<Entry>, p: Payload)
    ensures PayloadFromMap(entries) == Some(p) <==> ValidPayload(p) && AllKnown(entries, PayloadNames()) && PayloadReads(entries, p)
  {
  }

  lemma {:induction false} PayloadHeld(entries: seq<Entry>, p: Payload)
    requires PayloadFromMap(entries) == Some(p)
    ensures ValidPayload(p) && HoldsExactly(entries, PayloadFields(p))
  {
    PayloadFromMapExact(entries, p);
    NamesCovered(entries, PayloadFields(p), PayloadNames());
  }

  lemma {:induction false} PayloadFromPermutation(entries: seq<Entry>, p: Payload)
    requires ValidPayload(p) && multiset(entries) == multiset(PayloadFields(p))
    requires forall key :: Find(entries, key) == Find(PayloadFields(p), key)
    ensures PayloadFromMap(entries) == Some(p)
  {
    assert AllKnown(entries, PayloadNames()) by { NamesKnown(entries, PayloadFields(p), PayloadNames()); }
    assert PayloadReads(entries, p) by { PayloadFieldsRead(p); }
    assert PayloadFromMap(entries) == Some(p) by { PayloadFromMapExact(entries, p); }
  }

  lemma {:induction false} PayloadDecodes(p: Payload)
    requires ValidPayload(p) && Utf8.Valid(p.kind) && PayloadLength(p) <= MAX_PAYLOAD_BYTES
    ensures EncodePayload(p).Some? && DecodePayload(EncodePayload(p).value) == Some(p)
  {
    PayloadEncodes(p);
    PayloadInLimits(p);
    assert Flat(PayloadFields(p)) by { PayloadFieldsDistinct(p); }
    var entries := FlatRoundTrip(PayloadFields(p));
    PayloadFromPermutation(entries, p);
  }

  lemma {:induction false} PayloadReencodes(p: Payload, input: bytes)
    requires DecodePayload(input) == Some(p)
    ensures EncodePayload(p) == Some(input) && Utf8.Valid(p.kind)
  {
    assert ValidPayload(p) && HoldsExactly(DecodeMap(input).value, PayloadFields(p)) by {
      PayloadHeld(DecodeMap(input).value, p);
    }
    assert DistinctKeys(PayloadFields(p)) by { PayloadFieldsDistinct(p); }
    Reencodes(input, PayloadFields(p));
    TextFieldIsUtf8(PayloadFields(p), PayloadFields(p)[1]);
  }

  /**
    An input decodes to a payload exactly when it is that payload's encoding, its kind is UTF-8 and it keeps the
    4096-byte cap, which the decoder applies to the whole input and the encoder to the body alone.
  */
  lemma {:induction false} PayloadExact(p: Payload, input: bytes)
    ensures DecodePayload(input) == Some(p)
       <==> EncodePayload(p) == Some(input) && Utf8.Valid(p.kind) && PayloadLength(p) <= MAX_PAYLOAD_BYTES
  {
    if EncodePayload(p) == Some(input) && Utf8.Valid(p.kind) && PayloadLength(p) <= MAX_PAYLOAD_BYTES {
      PayloadDecodes(p);
    }
    if DecodePayload(input) == Some(p) {
      PayloadReencodes(p, input);
      PayloadEncodes(p);
    }
  }

  /** What a payload is on the wire, and which have one; the decoder takes only those of at most 4096 bytes. */
  lemma {:induction false} PayloadWire(p: Payload)
    ensures if p.version == Lit("branch.application-payload/0.draft") && 0 < |p.kind| <= 96 && |p.messageId| == 16 && 0 < |p.body| <= 4096
            then EncodePayload(p).Some? && EncodePayload(p) == Encode(Map([
              Entry(Lit("version"), Text(p.version)), Entry(Lit("kind"), Text(p.kind)),
              Entry(Lit("message_id"), Blob(p.messageId)), Entry(Lit("body"), Blob(p.body))]))
            else EncodePayload(p) == None
  {
    if ValidPayload(p) {
      PayloadEncodes(p);
    }
    hide Encode;
  }

  /** A valid payload with the largest body that Validate admits does not survive the wire. */
  lemma {:induction false} LargestBodyIsRefused(p: Payload)
    requires ValidPayload(p) && |p.body| == MAX_PAYLOAD_BYTES
    ensures EncodePayload(p).Some? && DecodePayload(EncodePayload(p).value) == None
  {
    PayloadEncodes(p);
  }

  lemma {:induction false} LargestBodyExists() returns (p: Payload)
    ensures ValidPayload(p) && EncodePayload(p).Some? && DecodePayload(EncodePayload(p).value) == None
  {
    p := Payload(Version(), [109], seq(16, _ => 0), seq(MAX_PAYLOAD_BYTES, _ => 0));
    LargestBodyIsRefused(p);
  }
}

/** AttachmentManifest.Validate and AttachmentChunk.ValidateFor, as far as sizes and indices go. */
module AttachmentGeometry {
  import opened Bytes

  const MAX_CHUNK_BYTES := 3072
  const MIN_CHUNK_BYTES := 256
  const MAX_ATTACHMENT_BYTES := 16 * 1024 * 1024
  const MAX_CHUNKS := 8192

  datatype Manifest = Manifest(byteCount: uint64, chunkBytes: uint64, chunkCount: uint64)

  predicate ValidManifest(m: Manifest) {
    && 0 < m.byteCount <= MAX_ATTACHMENT_BYTES
    && MIN_CHUNK_BYTES <= m.chunkBytes <= MAX_CHUNK_BYTES
    && 0 < m.chunkCount <= MAX_CHUNKS
    && m.chunkCount == (m.byteCount + m.chunkBytes - 1) / m.chunkBytes
  }

  /** AttachmentChunk.ValidateFor, for a chunk that carries the manifest's identifiers. */
  predicate ChunkFits(m: Manifest, index: uint64, data: bytes) {
    && index < m.chunkCount
    && 0 < |data| <= MAX_CHUNK_BYTES
    && |data| <= m.chunkBytes
    && (index + 1 < m.chunkCount ==> |data| == m.chunkBytes)
  }

  function Min(a: nat, b: nat): nat { if a < b then a else b }

  /** The slice that the sender takes for a chunk: file[index * chunkBytes .. (index + 1) * chunkBytes], clipped. */
  function Slice(file: bytes, chunkBytes: nat, index: nat): bytes {
    file[Min(index * chunkBytes, |file|)..Min((index + 1) * chunkBytes, |file|)]
  }

  /** The first n slices one after the other. */
  function Joined(file: bytes, chunkBytes: nat, n: nat): bytes {
    if n == 0 then [] else Joined(file, chunkBytes, n - 1) + Slice(file, chunkBytes, n - 1)
  }

  /** The number of chunks is the least one that covers the file. */
  lemma {:induction false} CountCovers(m: Manifest)
    requires ValidManifest(m)
    ensures (m.chunkCount - 1) * m.chunkBytes < m.byteCount <= m.chunkCount * m.chunkBytes
  {
    var q := (m.byteCount + m.chunkBytes - 1) / m.chunkBytes;
    assert q * m.chunkBytes + (m.byteCount + m.chunkBytes - 1) % m.chunkBytes == m.byteCount + m.chunkBytes - 1;
    assert (q - 1) * m.chunkBytes == q * m.chunkBytes - m.chunkBytes;
  }

  lemma {:induction false} Multiples(i: nat, n: nat, size: nat)
    requires i <= n
    ensures i * size <= n * size && (i + 1) * size == i * size + size
  {
  }

  lemma {:induction false} JoinedIs(file: bytes, chunkBytes: nat, n: nat)
    ensures Joined(file, chunkBytes, n) == file[..Min(n * chunkBytes, |file|)]
  {
    if n > 0 {
      JoinedIs(file, chunkBytes, n - 1);
      Multiples(n - 1, n, chunkBytes);
    }
  }

  /** Every slice of a file passes ValidateFor, so the receiver's geometry check never refuses the sender. */
  lemma {:induction false} SliceFits(m: Manifest, file: bytes, index: uint64)
    requires ValidManifest(m) && |file| == m.byteCount && index < m.chunkCount
    ensures ChunkFits(m, index, Slice(file, m.chunkBytes, index))
  {
    CountCovers(m);
    Multiples(index, m.chunkCount - 1, m.chunkBytes);
    if index + 1 < m.chunkCount {
      Multiples(index + 1, m.chunkCount - 1, m.chunkBytes);
    }
  }

  /** The slices cover the file in order, with no byte lost or repeated. */
  lemma {:induction false} SlicesReassemble(m: Manifest, file: bytes)
    requires ValidManifest(m) && |file| == m.byteCount
    ensures Joined(file, m.chunkBytes, m.chunkCount) == file
  {
    CountCovers(m);
    JoinedIs(file, m.chunkBytes, m.chunkCount);
  }

  /** The chunks one after the other. */
  function JoinedChunks(chunks: seq<bytes>): bytes {
    if chunks == [] then [] else JoinedChunks(chunks[..|chunks| - 1]) + chunks[|chunks| - 1]
  }

  lemma {:induction false} FullChunks(m: Manifest, chunks: seq<bytes>, n: nat)
    requires n <= |chunks| && n < m.chunkCount
    requires forall i :: 0 <= i < n ==> ChunkFits(m, i, chunks[i])
    ensures |JoinedChunks(chunks[..n])| == n * m.chunkBytes
  {
    if n > 0 {
      FullChunks(m, chunks, n - 1);
      assert chunks[..n][..n - 1] == chunks[..n - 1];
      Multiples(n - 1, n, m.chunkBytes);
    }
  }

  lemma {:induction false} ChunksAreSlices(m: Manifest, file: bytes, chunks: seq<bytes>, n: nat)
    requires ValidManifest(m) && |file| == m.byteCount && n <= |chunks| == m.chunkCount
    requires forall i :: 0 <= i < |chunks| ==> ChunkFits(m, i, chunks[i])
    requires JoinedChunks(chunks[..n]) == file[..Min(n * m.chunkBytes, |file|)]
    ensures forall i :: 0 <= i < n ==> chunks[i] == Slice(file, m.chunkBytes, i)
  {
    if n > 0 {
      var whole := file[..Min(n * m.chunkBytes, |file|)];
      assert chunks[..n][..n - 1] == chunks[..n - 1];
      FullChunks(m, chunks, n - 1);
      CountCovers(m);
      Multiples(n - 1, m.chunkCount - 1, m.chunkBytes);
      var at := (n - 1) * m.chunkBytes;
      assert whole == JoinedChunks(chunks[..n - 1]) + chunks[n - 1];
      assert chunks[n - 1] == whole[at..] && JoinedChunks(chunks[..n - 1]) == whole[..at];
      ChunksAreSlices(m, file, chunks, n - 1);
    }
  }

  /** A receiver that holds a fitting chunk for every index has the file if and only if each is the sender's slice. */
  lemma {:induction false} ReassemblyExact(m: Manifest, file: bytes, chunks: seq<bytes>)
    requires ValidManifest(m) && |file| == m.byteCount && |chunks| == m.chunkCount
    requires forall i :: 0 <= i < |chunks| ==> ChunkFits(m, i, chunks[i])
    ensures JoinedChunks(chunks) == file <==> forall i :: 0 <= i < |chunks| ==> chunks[i] == Slice(file, m.chunkBytes, i)
  {
    assert chunks[..|chunks|] == chunks;
    if JoinedChunks(chunks) == file {
      CountCovers(m);
      ChunksAreSlices(m, file, chunks, |chunks|);
    }
    if forall i :: 0 <= i < |chunks| ==> chunks[i] == Slice(file, m.chunkBytes, i) {
      SlicesJoin(file, m.chunkBytes, chunks, |chunks|);
      SlicesReassemble(m, file);
    }
  }

  lemma {:induction false} SlicesJoin(file: bytes, chunkBytes: nat, chunks: seq<bytes>, n: nat)
    requires n <= |chunks| && forall i :: 0 <= i < n ==> chunks[i] == Slice(file, chunkBytes, i)
    ensures JoinedChunks(chunks[..n]) == Joined(file, chunkBytes, n)
  {
    if n > 0 {
      assert chunks[..n][..n - 1] == chunks[..n - 1];
      SlicesJoin(file, chunkBytes, chunks, n - 1);
    }
  }
}
