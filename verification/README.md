# BRANCH connectivity: a verified model

This project models the parts of the BRANCH connectivity stack that hold nearly all of its state, branching and
arithmetic, and proves what they promise. `dafny verify dfyconfig.toml` checks all of it.

**The deterministic CBOR codec** (`protocol/v0`; RFC 8949, sections 3 and 4.2.1). `Cbor.dfy` is the value model and the
encoder, `CborParse.dfy` the accepted language as a function from input to value and rest, with both directions of
their agreement. `CborTheorems.dfy` draws the conclusions: the decoder accepts exactly the encodings of values in
bounds, decoding undoes encoding up to the order of map entries, no encoding is a prefix of another, and the final
comparison with the re-encoded value is redundant. `CborDecoder.dfy` is the decoder as it runs, with its offset and its
loops, and refines that specification. `CborWire.dfy` ties both to bytes: the examples of the standard, the direction of
the key order, and what is refused. `CborFields.dfy` and `CborNested.dfy` carry the results over to records.

**The records built on it.** `RtcData.dfy` (DATA and ADMIT frames), `ApplicationControl.dfy`, `ApplicationPayload.dfy`
(payloads and the geometry of attachments), and the signed bootstrap beacon in `BootstrapLists.dfy`,
`BootstrapEndpoints.dfy` and `BootstrapBeacon.dfy`, with its text form in `Base64Url.dfy`: each is an exact
correspondence between records and byte strings, with the condition under which a valid record does not survive the wire.
`BootstrapValidity.dfy` says exactly which wrappers are accepted, and `BootstrapAcceptance.dfy` which created ones are.

**The relay hub** (`internal/relay/hub.go`). `HubModel.dfy` has one function for each section that runs under the
mutex; `forward` gives up the mutex while a remote relay is called, so it is two. `HubSystem.dfy` interleaves these
sections freely with calls in flight and receivers waiting. Over every run: the shape of sessions, presence and routes
(`HubStructure.dfy`), usage, inboxes and counters against the history (`HubTraffic.dfy`), the replay window as the
newest deliveries (`ReplayWindow.dfy`, `HubReplay.dfy`), who gets a frame (`HubReceive.dfy`), and whose record is taken
away (`HubPresence.dfy`). `HubOutcomes.dfy` tells what each call does to the maps, and when it refuses. `Hub.dfy` is the hub
as a class whose maps, counters and records change in place. A ghost field holds the run it has been through, every
method extends that run by its own step, and so whatever holds of all runs holds of the object between any two calls.

**Federation discovery** (`internal/relay/wss/discovered_federation.go`). `FederationView.dfy` has the fold that rejects
equivocation and the ranking; `FederationProbe.dfy` the pool of probing workers as steps on channels.

**Contact discovery** (`internal/relay/wss/contact_discovery.go`): the two-way index with its rolling windows.

**WebRTC sessions and direct delivery** (`pwa/src/connectivity`). `RtcSession.dfy` and `RtcController.dfy` are one
peer, `RtcAgreement.dfy` two of them over a network that loses, delays, reorders and repeats; starting and answering
are two steps each, with the browser in between. `RtcConnection.dfy` is about whether they get connected.
`RtcDirectSender.dfy` is the sender that waits for an ADMIT or falls back, `RtcAdmission.dfy` the ledger at the other end, `RtcIngress.dfy` the
runtime around it with its awaits, and `RtcDirectPath.dfy` both ends together.

**The outbox and the attachment window.** `Outbox.dfy` is what one run of the outbox decides and the store behind it,
`OutboxRuns.dfy` when it runs; `Attachment.dfy` is the window of a transfer.

## How it is modelled

Strings are sequences of bytes with a concrete UTF-8 test. Go's fixed-width arithmetic is written out where it can
wrap: usage and counters modulo 2^64, the lifetime of a beacon as a signed 64-bit product, heads as big-endian bytes.
Times are integers. SHA-256 digests are values; Ed25519 is a predicate with "what was signed verifies". A session
object's identity is a token, because the hub compares pointers; its `done` channel and its inbox outlive its
attachment, so the hub's state keeps the closed tokens and the inboxes of detached objects. Concurrency is a run of
steps: a locked section, a channel operation, or the code between two awaits, is one step; the last section names the
awaits that are not told apart. What a call promises is told by the fields it reads and writes, apart from the function that
it refines; `Selections.dfy` has the words for what a filter leaves of a list. Histories are ghost or specification state only. Where the source walks a map, the order
is left open.

## What is not so

Some properties that one might expect do not hold of the code. Each is stated with a run or an input that shows it, and
beside it the condition under which it does hold: the exact one, unless the last section says otherwise.

- A valid application payload with the largest admitted body does not decode again (`LargestBodyExists`; `LargestBodyIsRefused`, `PayloadExact`).
- A valid control whose kind is not UTF-8 encodes but does not decode (`BinaryKindIsRefused`; `ControlRoundTrip`).
- The seven-day cap on beacons does not bind spans above 292 years (`LongLifetimePasses`; `LifetimeExact`).
- Two concurrent deliveries of one key are both forwarded (`ConcurrentDuplicates`, `PendingKeyTwice`), and remembering a
  key twice corrupts the replay window (`RepeatedKeyIsForgotten`; `RememberRefines`). A delivery is safe to begin exactly
  while none of its session and key is in flight (`GuardIsExact`; `RunReplay`).
- When two sessions announce one peer, the earlier one takes the later one's presence record with it when it is detached or
  announces another peer (`SuccessorIsUnseen`). Another session's record goes exactly if it is under the session's own peer
  or the one it announces (`OthersRecord`).
- Receive can take a frame and drop it, and that without any identifier being used twice (`LateCloseLoses`): it does
  exactly if the handle is closed by the time of the second test (`LostExactly`). When an identifier is attached a second
  time, a session that is still open can lose a frame that way (`StaleReceiverLoses`; `OpenSessionsLoseNothing`).
- Whether a contest below the highest sequence bans a relay depends on the order of observations (`LowerContest`; `TrackExact`).
- A candidate that overtakes its answer can be lost to a full staging area (`FullStagingLoses`; `StagingHidesReordering`).
- An attachment can be reported as accepted with its last chunk unsent, and the loop left over then ends the next
  transfer (`AcceptedTooEarly`, `StaleLoopEndsNext`; `AcceptedExact`).
- A read of the file that fails leaves a live transfer with no loop to fill its window (`FailedReadStalls`,
  `StalledForGood`; `NeverStalls`).
- Two peers can disagree about their session although every message was genuine: when the end of a `start` overwrites an
  answer (`StaleStartDisagrees`), or when an offer is repeated while it is being answered (`RepeatedOfferDisagrees`). They
  agree exactly as long as no second half replaces what was answered for while the other side may still hold that offer,
  and none of the smaller side replaces an offer by an answer (`RtcAgreement.GuardIsExact`).
- The smaller identifier does not stay the offerer when its own `start` comes back late (`SeatIsExact`).
- Two starts at once can leave both sides stuck in different sessions (`TwoStartsGetStuck`): when an offer is replaced by
  another one and could still be answered. Otherwise they get connected (`QuietIsConnected`; `QuietIsExact`).
- The cap of 32 RTC sessions is tested before the browser is waited for. It holds if no two calls ever wait at once; if n
  of them did, the bound is 31 + n (`SessionsCapped`), and it is reached (`CapIsExceeded`).
- A pong that interrupts a run of the outbox can leave it with no timer, and with two envelopes in flight
  (`PongPutsToSleep`). A pong does not recall a direct attempt either, so that it can fall back while the next envelope is
  in flight (`PongSendsTwo`). And the outbox does not hear of an ADMIT: it goes on waiting for that delivery, and sends
  nothing more until there is a pong (`AdmitPutsToSleep`, `AdmitStalls`). Nothing else breaks either promise (`PongIsExact`).
- More than one text decodes to the bytes of a beacon (`LooseBits`; `EncodeOfDecode`).
- Rate windows do not survive a new announce (`FiveAtOnce`; `AnnounceForgives`, `RateLimits`).
- The quota test is not the test of the true sums for quotas near 2^64 (`QuotaWraps`; `QuotaTestExact`).

## Model

| member | source | states |
|---|---|---|
| Cbor.EncodedKeyInjective | protocol/v0/bootstrap_beacon.go:319-341 | no two keys have the same encoding, so sorting by encoded key tells distinct keys apart |
| Cbor.EncodePermutation | protocol/v0/bootstrap_beacon.go:289-312 | a map encodes to the same bytes in whatever order its entries are given |
| Cbor.EncodeNormalize | protocol/v0/bootstrap_beacon.go:259-312 | the encoder cannot see the order of entries at any level of nesting |
| Cbor.NormalizeIsNormal | protocol/v0/bootstrap_beacon.go:307-309 | every value that encodes has a form with entries in ascending order of encoded key at every level |
| CborParse.ParseSound | protocol/v0/cbor_decode.go:65-257 | whatever the parser reads off the front of the input is the encoding of what it returns: minimal heads, ascending keys, within all bounds |
| CborParse.ParseComplete | protocol/v0/cbor_decode.go:65-257 | every ordered value within the bounds is read back from its encoding, whatever bytes follow |
| CborTheorems.ParsesExactlyEncodings | protocol/v0/cbor_decode.go:65-228 | the parser returns a value and a rest exactly if the input is the encoding of that value followed by that rest, and the value is ordered and in bounds |
| CborTheorems.ReencodingCheckIsRedundant | protocol/v0/cbor_decode.go:42-57 | the comparison with the re-encoded value never rejects anything: the decoder is the streaming parser plus the end-of-input test |
| CborTheorems.DecodeSound | protocol/v0/cbor_decode.go:34-57 | an accepted input is the encoding of its value, which is ordered and in bounds |
| CborTheorems.DecodeInjective | protocol/v0/cbor_decode.go:26-57 | two accepted inputs that decode to the same value are the same bytes |
| CborTheorems.EncodeThenParse | protocol/v0/cbor_decode.go:65-257 | a value in bounds, followed by any suffix, parses to itself with entries sorted, and exactly the suffix is left |
| CborTheorems.EncodeThenDecode | protocol/v0/cbor_decode.go:34-57 | decoding an encoding of at most 64 KiB returns the value with the entries of every map sorted |
| CborTheorems.AcceptedInputs | protocol/v0/cbor_decode.go:34-57 | the accepted inputs are exactly the encodings, of at most 64 KiB, of values in bounds |
| CborTheorems.PrefixFree | protocol/v0/cbor_decode.go:65-228 | no encoding is a proper prefix of another |
| CborTheorems.EncodeInjective | protocol/v0/bootstrap_beacon.go:259-341 | values of any size with the same encoding differ at most in the order of entries |
| CborTheorems.DecodeOfEncoding | protocol/v0/cbor_decode.go:34-57 | the encoding of any value at all is accepted if and only if the value is in bounds and the encoding is no longer than 64 KiB |
| CborDecoding.CborDecoder.ReadUint | protocol/v0/cbor_decode.go:230-240 | the loop over big-endian bytes agrees with the specification and advances the offset past exactly those bytes |
| CborDecoding.CborDecoder.ReadArgument | protocol/v0/cbor_decode.go:109-152 | the offset-based reader agrees with the specification on value, error and bytes left, including the minimality tests |
| CborDecoding.CborDecoder.ReadTextString | protocol/v0/cbor_decode.go:165-177 | text is bounded, valid UTF-8, and refused with the source's error otherwise |
| CborDecoding.CborDecoder.ReadByteString | protocol/v0/cbor_decode.go:154-163 | byte strings are bounded and leave the offset behind them |
| CborDecoding.CborDecoder.ReadArray | protocol/v0/cbor_decode.go:179-192 | the loop over items agrees with the specification |
| CborDecoding.CborDecoder.ReadEntry | protocol/v0/cbor_decode.go:203-226 | one turn of the map loop: duplicate key before key order before value, with the source's errors |
| CborDecoding.CborDecoder.ReadMap | protocol/v0/cbor_decode.go:194-228 | the loop with its set of seen keys and its previous encoded key agrees with the specification |
| CborDecoding.CborDecoder.ReadValue | protocol/v0/cbor_decode.go:65-107 | depth and head dispatch agree with the specification |
| CborDecoding.DecodeDeterministic | protocol/v0/cbor_decode.go:34-57 | the whole decoder, with size tests, trailing bytes and re-encoding test, equals the specification that the theorems are about |
| CborDecoding.EncodeMapEntries | protocol/v0/bootstrap_beacon.go:290-306 | the loop with its set of seen keys fails exactly on a repeated key or an entry that does not encode |
| CborDecoding.EncodeCborMap | protocol/v0/bootstrap_beacon.go:289-312 | succeeds exactly for distinct keys whose values all encode; the entries then stand in an order in which, of two neighbours, the one whose encoded key is smaller at the first byte that differs comes first |
| Bytes.LessExact | protocol/v0/bootstrap_beacon.go:303-306 | one byte string is before another exactly if it is a proper prefix of it or smaller at the first byte in which they differ |
| CborWire.ScalarExamples | protocol/v0/bootstrap_beacon.go:259-341 | numbers, texts, byte strings and Booleans of appendix A of RFC 8949 encode to the bytes given there |
| CborWire.WideExamples | protocol/v0/bootstrap_beacon.go:319-341 | heads of every width encode to the bytes given there |
| CborWire.NestedExamples | protocol/v0/bootstrap_beacon.go:259-312 | nested arrays and maps encode to the bytes given there |
| CborWire.SmallerFirst | protocol/v0/bootstrap_beacon.go:303-306 | of two entries, in whatever order they are given, the one with the smaller encoded key is written first |
| CborWire.DecodedInOrder | protocol/v0/cbor_decode.go:194-228 | in any accepted input the keys of every map ascend, byte by byte |
| CborWire.ArgumentErrors | protocol/v0/cbor_decode.go:109-152 | which heads are refused as not canonical and which as invalid |
| CborWire.KeyErrors | protocol/v0/cbor_decode.go:203-226 | a key that is repeated, out of order or no text is refused, each with its error |
| CborWire.DecodesExactly | protocol/v0/cbor_decode.go:26-228 | an input decodes exactly if it is, in at most 64 KiB, the encoding of a value of at most eight levels whose texts are plain UTF-8 and whose strings, lists and maps are within their bounds |
| Utf8.ValidExact | protocol/v0/cbor_decode.go:165-177 | a text is valid exactly if it spells a sequence of Unicode scalar values |
| CborDecoding.EncodeCbor | protocol/v0/bootstrap_beacon.go:259-287 | the encoder equals the specification |
| CborFields.SameRecord | protocol/v0/cbor_decode.go:285-296 | entries that hold the named fields and no unknown one are a permutation of the record |
| CborFields.FlatRoundTrip | protocol/v0/cbor_decode.go:259-347 | a record of scalars within bounds decodes to a permutation of its fields, and every lookup gives the original field |
| CborFields.Reencodes | protocol/v0/cbor_decode.go:259-347 | if the fields read from an accepted input are all it holds, encoding them gives that input back |
| CborNested.RecordReadBack | protocol/v0/cbor_decode.go:259-347 | a record with nested values decodes exactly if it is within bounds, and each lookup then finds the field in sorted form |
| CborNested.MapSize | protocol/v0/bootstrap_beacon.go:307-312 | the size of an encoded map is the sum of its entries and a head of at most nine bytes |
| RtcDataFrames.DataFromMapExact | protocol/v0/rtc_data.go:150-194 | the field reader returns a record exactly if the entries hold its fields and no others and it is valid |
| RtcDataFrames.DataFits | protocol/v0/rtc_data.go:222-228 | the frame cap cannot refuse a valid DATA record |
| RtcDataFrames.DataWire | protocol/v0/rtc_data.go:53-67 | which DATA records encode, and to which map of which fields |
| RtcDataFrames.AdmitWire | protocol/v0/rtc_data.go:79-92 | which ADMIT records encode, and to which map of which fields |
| RtcDataFrames.DataExact | protocol/v0/rtc_data.go:53-77 | an input decodes to a DATA record if and only if it is what encoding that record gives |
| RtcDataFrames.DataRoundTrip | protocol/v0/rtc_data.go:53-77 | every valid DATA record survives the wire, through either decoder |
| RtcDataFrames.AdmitExact | protocol/v0/rtc_data.go:79-103 | an input decodes to an ADMIT record if and only if it is what encoding that record gives |
| RtcDataFrames.AdmitRoundTrip | protocol/v0/rtc_data.go:79-103 | every valid ADMIT record survives the wire, through either decoder |
| RtcDataFrames.FrameExact | protocol/v0/rtc_data.go:105-125 | the frame decoder picks the variant that the bytes encode, and accepts nothing else |
| ApplicationControls.ControlFromMapExact | protocol/v0/application_control.go:69-127 | the reader returns a control exactly if the entries hold its fields and no others and it is valid |
| ApplicationControls.ControlWire | protocol/v0/application_control.go:39-67 | which controls encode, to which map of which fields, and that the same map without the signature is signed behind its domain and a zero byte |
| ApplicationControls.ControlFits | protocol/v0/application_control.go:39-54 | the envelope cap cannot refuse a valid control |
| ApplicationControls.ControlExact | protocol/v0/application_control.go:39-127 | an input decodes to a control if and only if it is that control's encoding and its kind is UTF-8 |
| ApplicationControls.ControlRoundTrip | protocol/v0/application_control.go:39-127 | a valid control survives the wire if and only if its kind is UTF-8; encoding does not look |
| ApplicationControls.BinaryKindIsRefused | protocol/v0/application_control.go:39-127 | a valid control with a kind of one byte 0xFF: it encodes, and the encoding decodes to nothing |
| ApplicationControls.ControlInjective | protocol/v0/application_control.go:39-54 | different valid controls have different encodings |
| ApplicationControls.SigningBytesExact | protocol/v0/application_control.go:56-67 | two valid controls are signed over the same bytes if and only if they differ at most in the signature |
| ApplicationPayloads.PayloadEncodes | protocol/v0/application_payload.go:34-39 | every valid payload encodes, to a size known exactly from its fields |
| ApplicationPayloads.PayloadWire | protocol/v0/application_payload.go:34-52 | which payloads encode, and to which map of which fields |
| ApplicationPayloads.PayloadExact | protocol/v0/application_payload.go:34-77 | an input decodes to a payload if and only if it is its encoding, the kind is UTF-8 and the encoding keeps the 4096-byte cap |
| ApplicationPayloads.LargestBodyIsRefused | protocol/v0/application_payload.go:41-44 | no valid payload with a body of the largest admitted size survives the wire: the decoder caps the whole input where Validate caps the body |
| ApplicationPayloads.LargestBodyExists | protocol/v0/application_payload.go:79-86 | such a payload exists |
| AttachmentGeometry.CountCovers | protocol/v0/application_payload.go:96-103 | in a valid manifest the count of chunks is the least one that covers the file |
| AttachmentGeometry.SliceFits | protocol/v0/application_payload.go:111-119 | every slice the sender cuts passes ValidateFor |
| AttachmentGeometry.SlicesReassemble | pwa/src/connectivity/attachment-transfer.ts:456-466 | the slices join to the file, with no byte lost or repeated |
| AttachmentGeometry.ReassemblyExact | protocol/v0/application_payload.go:96-119 | fitting chunks at every index join to the file if and only if each is the sender's slice |
| BootstrapLists.NormalizeOrderedTextSet | protocol/v0/bootstrap_beacon.go:209-223 | the loop over the sorted copy accepts exactly bounded, distinct texts and returns them in order |
| BootstrapLists.NormalizedTexts | protocol/v0/bootstrap_beacon.go:209-223 | what it returns is strictly ascending, bounded, and has the same members and length |
| BootstrapLists.ReadOrderedTextSet | protocol/v0/bootstrap_beacon_validate.go:323-348 | the reader's loop accepts exactly bounded texts in strictly ascending order, not too many |
| BootstrapLists.TextsReadBack | protocol/v0/bootstrap_beacon_validate.go:323-348 | a normalised set is read back as it is if and only if it is not too long |
| BootstrapEndpoints.NormalizeBootstrapEndpoints | protocol/v0/bootstrap_beacon.go:151-194 | accepts exactly up to eight well-formed, distinct endpoints with a wss one among them, and sorts them |
| BootstrapEndpoints.ReadRelayEndpoints | protocol/v0/bootstrap_beacon_validate.go:350-395 | the reader's loop, with its running priority and its set of keys, equals the specification |
| BootstrapEndpoints.EndpointReadBack | protocol/v0/bootstrap_beacon_validate.go:350-395 | one endpoint is read back exactly if its priority is at most 2^53-1 |
| BootstrapEndpoints.EndpointsReadBack | protocol/v0/bootstrap_beacon_validate.go:350-395 | normalised endpoints are read back in order exactly if all priorities are at most 2^53-1 |
| BootstrapBeacons.LifetimeExact | protocol/v0/bootstrap_beacon.go:66-71 | a beacon that passes the lifetime test lives at most seven days if and only if its span in nanoseconds is below 2^63: the product wraps |
| BootstrapBeacons.LongLifetimePasses | protocol/v0/bootstrap_beacon.go:69-71 | a span of 292 years passes |
| BootstrapValidity.NormalizeTextsExact | protocol/v0/bootstrap_beacon.go:209-223 | a text set is normalised exactly if its texts are bounded and distinct; then it holds the same texts in the order of their bytes |
| BootstrapValidity.NormalizeEndpointsExact | protocol/v0/bootstrap_beacon.go:151-194 | endpoints are normalised exactly if they are admissible; then they stand by priority, transport and address, the smaller first |
| BootstrapValidity.ReadEndpointsExact | protocol/v0/bootstrap_beacon_validate.go:350-395 | which values are read as which endpoints |
| BootstrapValidity.BoundedExact | protocol/v0/bootstrap_beacon_validate.go:396-430 | the fields that are not read are nested at most three deep and small in every part |
| BootstrapValidity.ReadPayloadExact | protocol/v0/bootstrap_beacon_validate.go:252-321 | bytes are read as a payload exactly if they decode to a map of what it says, with no other fields than those allowed |
| BootstrapValidity.AcceptedExact | protocol/v0/bootstrap_beacon_validate.go:99-174 | any wrapper at all is accepted, as this envelope and this payload, exactly if it carries the encoding of a well-formed envelope that its key signed, that is alive, and whose payload says so, ends with it and was not issued after it |
| BootstrapValidity.RefusedBecause | protocol/v0/bootstrap_beacon_validate.go:118-174 | why a well-formed envelope in its one spelling is refused: the first of signature, end, beginning, payload and agreement of the two that fails gives the reason |
| BootstrapValidity.CreatedSays | protocol/v0/bootstrap_beacon.go:51-149 | what Create writes has the times, identifiers and ordered lists of its options, or their defaults, and is signed by the caller's signer over the record without the signature |
| BootstrapAcceptance.PayloadInLimits | protocol/v0/bootstrap_beacon_validate.go:252-262 | a created payload is within the decoder's bounds exactly if its lists are short and its texts are UTF-8 |
| BootstrapAcceptance.PayloadAccepted | protocol/v0/bootstrap_beacon_validate.go:252-321 | a created payload is accepted, and is then the one that was made, exactly if the lists, numbers and required entries are admissible |
| BootstrapAcceptance.EnvelopeReadBack | protocol/v0/bootstrap_beacon_validate.go:176-250 | the signed bytes decode and read to the envelope that was made exactly if its payload is within bounds |
| BootstrapAcceptance.WrapperFits | protocol/v0/bootstrap_beacon_validate.go:485-499 | the wrapper cap follows from the bounds on the fields and the length law of base64 |
| BootstrapAcceptance.AdmissiblePayload | protocol/v0/bootstrap_beacon.go:92-108 | normalising reorders only: what the reader asks of the payload can be asked of the options |
| BootstrapAcceptance.SealedAccepted | protocol/v0/bootstrap_beacon_validate.go:99-174 | for a sealed envelope the whole verdict is decided by its payload and the time |
| BootstrapAcceptance.CreatedIsAccepted | protocol/v0/bootstrap_beacon_validate.go:99-174 | a beacon made by Create is accepted if and only if its options are admissible and the time lies in its lifetime (up to the skew), and the record accepted is the record made |
| BootstrapAcceptance.CreateSucceeds | protocol/v0/bootstrap_beacon.go:51-149 | for admissible options, a payload and a signer, Create never runs into its cap on envelopes |
| BootstrapAcceptance.BeaconExists | protocol/v0/bootstrap_beacon_validate.go:99-174 | a beacon with default lists and one endpoint that is created and then accepted, for every test of addresses that takes its address |
| Base64Url.Examples | protocol/v0/bootstrap_beacon.go:148 | the examples of section 10 of RFC 4648, and the two digits of the URL alphabet |
| Base64Url.DecodeOfEncode | protocol/v0/bootstrap_beacon.go:148 | decoding undoes encoding, for any bytes |
| Base64Url.EncodeOfDecode | protocol/v0/bootstrap_beacon_validate.go:116-119 | a text that decodes is what encoding gives back if and only if the unused bits of its last digit are zero |
| Base64Url.LooseBits | protocol/v0/bootstrap_beacon_validate.go:116-119 | sixteen texts that decode to the same byte |
| ReplayWindows.RememberRefines | internal/relay/hub.go:799-815 | given table and ring that stand for the newest deliveries, remembering another keeps that if and only if its key is not held or is held only by the one that is evicted |
| ReplayWindows.LookupExact | internal/relay/hub.go:481-490 | the table answers duplicate or conflict exactly for the newest deliveries |
| ReplayWindows.SpacedAppend | internal/relay/hub.go:806-815 | two deliveries of one key have at least capacity others between them |
| ReplayWindows.RepeatedKeyIsForgotten | internal/relay/hub.go:806-815 | remembering one key twice breaks this: the key is still in the ring but no longer in the table |
| ReplayWindows.ReplayWindow.Remember | internal/relay/hub.go:806-815 | the in-place update of table and ring equals the specification |
| HubStructure.AttachKeeps | internal/relay/hub.go:199-229 | attaching keeps the session cap, open sessions and distinct identities |
| HubStructure.PairKeeps | internal/relay/hub.go:231-264 | pairing keeps the route shape and rebinds nothing |
| HubStructure.AnnounceKeeps | internal/relay/hub.go:627-647 | announcing keeps the structure: no session owns two records, since the one under its former peer goes |
| HubStructure.HeartbeatKeeps | internal/relay/hub.go:649-668 | a heartbeat keeps the structure: the record it writes is under the session's own peer |
| HubStructure.RendezvousKeeps | internal/relay/hub.go:670-717 | a rendezvous adds a route whose left side is a session and whose right side is exactly one of session and forwarder |
| HubStructure.DetachKeeps | internal/relay/hub.go:870-892 | detaching removes every record and route of the session |
| HubStructure.CloseKeeps | internal/relay/hub.go:394-412 | closing empties the hub for good |
| HubStructure.ForwardErrors | internal/relay/hub.go:441-530 | once a forward has passed its tests the only error left is a full inbox: it never meets a route whose other side is gone |
| HubStructure.PresenceIsOpen | internal/relay/hub.go:734-769 | a presence lookup succeeds exactly on an unexpired record: a record never outlives its session |
| HubStructure.SweepExact | internal/relay/hub.go:771-797 | SweepExpired keeps exactly the unexpired records and the live routes and returns the exact number of records dropped |
| HubStructure.SweepAgreesWithForward | internal/relay/hub.go:474-480 | a route survives the sweep exactly if forward would find it live at that time, from either side |
| HubStructure.SweepIdempotent | internal/relay/hub.go:771-797 | a second sweep at the same time changes nothing |
| HubSystem.RunStructure | internal/relay/hub.go:120-146 | in every reachable state: sessions within the cap, open and distinct; presence records one per session; routes well formed |
| HubSystem.ClosedForGood | internal/relay/hub.go:394-412 | after Close all four maps stay empty whatever is called |
| HubSystem.RouteNeverRebound | internal/relay/hub.go:231-264 | a route identifier is never rebound while its route exists |
| HubOutcomes.ForwardExact | internal/relay/hub.go:441-536 | a forward fails exactly if one of ten causes applies, with the error of the first; otherwise the frame is in the inbox of the other side of its route and nowhere else, or on its way to the other side's relay, with the sender charged |
| HubOutcomes.DeliverExact | internal/relay/hub.go:564-611 | a frame from a remote relay fails exactly if one of four causes applies, and otherwise goes to the left session of its route, as the sender it names, and charges nobody |
| HubOutcomes.EndExact | internal/relay/hub.go:537-562 | the end of a remote call changes the counters, the failed route, and the charge and window of its own session only |
| HubOutcomes.LiveExact | internal/relay/hub.go:826-846 | a route is live exactly if both of its sides can be reached |
| HubOutcomes.AttachExact | internal/relay/hub.go:199-229 | a new session object, empty and with an identity of its own, or the error that applies |
| HubOutcomes.PairExact | internal/relay/hub.go:231-264 | a route between two attached sessions, or the error that applies |
| HubOutcomes.AnnounceFederatedExact | internal/relay/hub.go:266-285 | the record of a remote peer lasts for the time to live from now |
| HubOutcomes.AnnounceExact | internal/relay/hub.go:627-647 | the session gets this peer and the record under it, for the time to live from now; the record under its former peer goes; no other changes |
| HubOutcomes.HeartbeatExact | internal/relay/hub.go:649-668 | the record under the session's peer is its own and lasts for the time to live from now; no other changes |
| HubOutcomes.LookupExact | internal/relay/hub.go:719-769 | an unexpired local record, otherwise an unexpired remote one; expired ones are dropped on the way |
| HubOutcomes.RendezvousExact | internal/relay/hub.go:670-717 | the new route leads to the peer that was looked up: to its session, or else to the relay that announced it |
| HubOutcomes.DetachExact | internal/relay/hub.go:870-892 | what goes with a session, and that nothing else does |
| HubPresence.OthersRecord | internal/relay/hub.go:627-668 | in every reachable state: a detach, a heartbeat or an announce takes away or over the record of another session exactly if it is under the session's own peer, or the one it announces |
| HubPresence.SuccessorIsUnseen | internal/relay/hub.go:870-892 | a run in which an earlier session with the same peer is detached: the later one is open, and nobody finds it |
| HubTraffic.QuotaTestExact | internal/relay/hub.go:491-500 | the 64-bit quota test is the test of the true sums for every usage if and only if the quotas leave room for one more frame below 2^64 |
| HubTraffic.QuotaWraps | internal/relay/hub.go:491-500 | with a quota of 2^64 - 1 frames, the run that uses it up can send another frame, and its count starts again at zero |
| HubTraffic.BeginCharges | internal/relay/hub.go:492-530 | the first locked section charges the sender by one frame and its size, and nobody else |
| HubTraffic.RunAccounts | internal/relay/hub.go:441-562 | in every interleaving a session's usage is exactly its successful forwards plus its in-flight reservations, within the quotas |
| HubTraffic.RollbackExact | internal/relay/hub.go:848-861 | a failed federated call is taken back exactly: the saturating branches are unreachable |
| HubTraffic.RunLogs | internal/relay/hub.go:441-562 | every frame in flight is charged to the session object it came from |
| HubTraffic.RunInboxes | internal/relay/hub.go:501-524 | for each session object, attached or not, what was taken followed by its inbox is, in order, what was accepted for it; inboxes are bounded |
| HubTraffic.RunCounted | internal/relay/hub.go:555-558 | ForwardedFrames and ForwardedBytes are the count and the sum of the successes, modulo 2^64 |
| HubReceive.RunReceiving | internal/relay/hub.go:365-386 | a receiver waits on and takes from the session of its handle, or a later one under the same identifier once the handle is closed; a dropped frame means a closed handle |
| HubReceive.LostExactly | internal/relay/hub.go:365-386 | a frame that Receive took is dropped if and only if the handle was closed by the time of its second test |
| HubReceive.ReturnedIsOwn | internal/relay/hub.go:365-386 | what a caller gets is a frame of the very session that its handle belongs to |
| HubReceive.OpenSessionsLoseNothing | internal/relay/hub.go:365-386 | if no identifier is attached twice, only frames of a session that has been closed are dropped |
| HubReceive.EveryFrameOnce | internal/relay/hub.go:365-386 | every accepted frame is in the inbox, in one receiver's hands, returned once or dropped once |
| HubReceive.LateCloseLoses | internal/relay/hub.go:375-385 | with fresh identifiers: the session is detached while a frame is queued, and its waiting receiver takes the frame and drops it |
| HubReceive.StaleReceiverLoses | internal/relay/hub.go:613-625 | with an identifier attached twice a session that is still open loses a frame: a receiver of the first takes and drops it |
| HubReplay.RunReplay | internal/relay/wss/handler.go:268-287 | while no delivery is begun with one of the same session and key in flight, every window is the newest part of its session's history; the read loop keeps to that |
| HubReplay.DeliveredApart | internal/relay/hub.go:550-554 | one key is forwarded twice only with at least maxReplay other deliveries in between |
| HubReplay.ReplayAnswers | internal/relay/hub.go:481-490 | duplicate and conflict answers are exactly those of the newest maxReplay deliveries |
| HubReplay.PendingKeyTwice | internal/relay/hub.go:510-554 | in any state: a delivery begun while its key is in flight is forwarded twice if both are accepted |
| HubReplay.GuardIsExact | internal/relay/hub.go:510-554 | after a guarded run, accepting a newly begun delivery with any call in flight keeps equal keys maxReplay apart if and only if none of its key is in flight |
| HubReplay.ConcurrentDuplicates | internal/relay/hub.go:510-554 | a run in which two concurrent deliveries of one key are both forwarded, whatever the window's size |
| Relay.Hub.Promises | internal/relay/hub.go:120-130 | between any two calls: the structure, the accounts of every session, the inboxes against what was accepted, the counters and, for guarded deliveries, the replay windows |
| Relay.Hub.Attach | internal/relay/hub.go:199-229 | on success the session is open, new and empty, the handle is its own, and the cap on sessions holds; otherwise nothing changes and the error applies |
| Relay.Hub.Pair | internal/relay/hub.go:231-264 | adds a route between the two sessions, with the peers they have announced, and touches no other; or nothing changes and the error applies |
| Relay.Hub.AnnounceFederatedPresence | internal/relay/hub.go:266-285 | writes the record of the remote peer, to last for the time to live from now, and nothing else |
| Relay.Hub.AnnouncePresence | internal/relay/hub.go:627-647 | afterwards the new record, with the time to live from now, is the only one that names the session; no record but it and the one under the former peer changes |
| Relay.Hub.Heartbeat | internal/relay/hub.go:649-668 | the record under the session's peer lasts for the time to live from now; nothing else changes |
| Relay.Hub.LookupLocal | internal/relay/hub.go:311-319 | finds a peer's record exactly if it has not expired, although it also tests the session, and drops it if it has |
| Relay.Hub.Lookup | internal/relay/hub.go:301-309 | a local unexpired record, otherwise a federated one, otherwise nothing |
| Relay.Hub.Rendezvous | internal/relay/hub.go:670-717 | adds a route from the session that asks to the peer that was looked up and touches no other, or keeps the same binding, or refuses for the cause that applies |
| Relay.Hub.EndpointLive | internal/relay/hub.go:826-846 | the liveness test of the specification |
| Relay.Hub.SweepExpired | internal/relay/hub.go:330-337 | the three loops leave exactly the unexpired records and the routes with both sides reachable, and count the records dropped |
| Relay.Hub.Objection | internal/relay/hub.go:441-500 | the tests of forward in the order of the source, each with its error |
| Relay.Hub.ForwardBegin | internal/relay/hub.go:441-536 | what the left session sends extends the inbox of the right one and no other, and the other way round, or is reserved for the other side's relay with no inbox changed; it fails exactly for the first cause that applies; the frame is recorded as sent or in flight |
| Relay.Hub.ForwardEnd | internal/relay/hub.go:537-562 | settles exactly the call in flight and touches no other session; a failure gives back one frame and its bytes without saturating |
| Relay.Hub.DeliverFromFederated | internal/relay/hub.go:564-611 | extends the inbox of the left session of a route to a remote relay, and no other, and charges nobody; it fails exactly for the first cause that applies |
| Relay.Hub.ReceiveBegin | internal/relay/hub.go:365-369 | goes on exactly if the handle is open |
| Relay.Hub.SessionState | internal/relay/hub.go:613-625 | finds the session under the handle's identifier, which is the handle's own unless the handle was closed meanwhile |
| Relay.Hub.TakeFrame | internal/relay/hub.go:375-385 | the oldest frame leaves the inbox, attached or not, and no other inbox changes |
| Relay.Hub.ReceiveEnd | internal/relay/hub.go:381-385 | returns the frame if and only if the handle is open, and then it is one of its own session |
| Relay.Hub.Detach | internal/relay/hub.go:870-892 | the session, its routes and the record under its peer go and nothing else; no inbox is drained |
| Relay.Hub.Close | internal/relay/hub.go:394-412 | the hub is empty and every handle ever given out is closed, and no inbox is drained |
| FederationView.Select | internal/relay/wss/discovered_federation.go:459-479 | after the loop over all observations an identity is rejected exactly if its federating beacons equivocate, and otherwise holds the first of their highest sequence |
| FederationView.QualifyingExact | internal/relay/wss/discovered_federation.go:459-466 | which observations count for an identity: those that validate to a federating beacon of it, in their order |
| FederationView.TrackExact | internal/relay/wss/discovered_federation.go:467-478 | an identity is rejected if and only if its beacons equivocate, and otherwise holds the first beacon of the highest sequence |
| FederationView.KeptIsUncontested | internal/relay/wss/discovered_federation.go:470-478 | a kept beacon has the highest sequence seen, and no beacon of that sequence had another wrapper |
| FederationView.OrderMattersBelow | internal/relay/wss/discovered_federation.go:470-478 | in any order: a contest at the highest sequence rejects, and no contest at all keeps |
| FederationView.LowerContest | internal/relay/wss/discovered_federation.go:470-478 | between those the order decides: the same three beacons reject in one order and keep in another |
| FederationView.FirstUsable | internal/relay/wss/discovered_federation.go:493-510 | the loop with its break takes the first wss endpoint that the policy accepts |
| FederationView.CandidateExact | internal/relay/wss/discovered_federation.go:483-510 | a relay becomes this candidate exactly if it has the profile and this is its first wss endpoint that the policy accepts |
| FederationView.Rank | internal/relay/wss/discovered_federation.go:480-523 | at most eight relays that qualify, the smaller priority first and of one priority the smaller identity; one left out ranks behind all eight; and the local beacon |
| FederationView.RankingUnique | internal/relay/wss/discovered_federation.go:483-520 | there is one ranking, so the order of map iteration does not matter |
| FederationView.CutRanking | internal/relay/wss/discovered_federation.go:512-523 | at most eight candidates with distinct identities, strictly sorted, and nothing left out ranks before one kept |
| FederationProbe.RunInvariant | internal/relay/wss/discovered_federation.go:181-221 | what every schedule of dispatcher, workers, channels and cancellation keeps |
| FederationProbe.AtMostThree | internal/relay/wss/discovered_federation.go:183-202 | at most three probes run at once |
| FederationProbe.ProbedOnce | internal/relay/wss/discovered_federation.go:189-217 | each candidate handed out is in exactly one place, so it is probed at most once |
| FederationProbe.SendNeverBlocks | internal/relay/wss/discovered_federation.go:185-193 | a worker with a result never waits, even after early success |
| FederationProbe.NoDeadlock | internal/relay/wss/discovered_federation.go:197-221 | until it returns some step can be taken without the caller cancelling |
| FederationProbe.Terminates | internal/relay/wss/discovered_federation.go:197-221 | no schedule takes more than six steps a candidate and eight more |
| FederationProbe.NotFoundMeansAllFailed | internal/relay/wss/discovered_federation.go:203-221 | "not found" without cancellation means that every eligible candidate was probed and failed |
| FederationProbe.FoundMeansProbed | internal/relay/wss/discovered_federation.go:206-212 | "found" names a candidate whose probe succeeded |
| FederationProbe.NoneOutlives | internal/relay/wss/discovered_federation.go:168-240 | when the call returns every worker has ended |
| FederationProbe.OneCandidate | internal/relay/wss/discovered_federation.go:168-240 | a run with one candidate, found if its probe succeeds and not found otherwise |
| FederationProbe.SettledIsAnswered | internal/relay/wss/discovered_federation.go:168-240 | a settled result is what a worker found out that was probing this candidate |
| ContactDiscovery.ReserveExact | internal/relay/wss/contact_discovery.go:90-133 | a lookup is admitted exactly if the requester made fewer than four in the last minute, none of them the same, the branch is known and its selected session was probed fewer than four times in it; what is counted and what is forgotten |
| ContactDiscovery.AnnouncedExact | internal/relay/wss/contact_discovery.go:45-59 | an announce lists the session under that branch alone, leaves all others where they are, and forgets what is to its name |
| ContactDiscovery.RemovedExact | internal/relay/wss/contact_discovery.go:61-88 | a removal takes the session out, leaves all others where they are, and forgets what is to its name |
| ContactDiscovery.RunTwoWay | internal/relay/wss/contact_discovery.go:45-88 | in every reachable state a session maps to a branch exactly if the branch lists it, no branch is empty and the selected session is listed |
| ContactDiscovery.RateLimits | internal/relay/wss/contact_discovery.go:90-133 | while the clock does not go back any minute holds at most four lookups by a session and four probes of it since its last announce, and no request twice |
| ContactDiscovery.ReservedIsListed | internal/relay/wss/contact_discovery.go:110-132 | a reservation names the selected live session of exactly the branch asked for |
| ContactDiscovery.AnnounceForgives | internal/relay/wss/contact_discovery.go:45-59 | right after an announce a lookup of that session is refused only for an unknown branch or a target probed too often, whatever it looked up before |
| ContactDiscovery.FiveAtOnce | internal/relay/wss/contact_discovery.go:45-133 | a run in which one session has five lookups admitted at one time, with an announce in between |
| ContactDiscovery.ContactIndex.Promises | internal/relay/wss/contact_discovery.go:31-43 | between any two calls: the index is two-way, and the rate limits hold of the object as long as the clock has not gone back |
| ContactDiscovery.ContactIndex.Announce | internal/relay/wss/contact_discovery.go:45-59 | the session is listed under that branch alone and selected there, with nothing to its name; every other session stays where it is |
| ContactDiscovery.ContactIndex.Remove | internal/relay/wss/contact_discovery.go:61-88 | the session is gone from both directions, every other stays where it is, and every branch left has a listed session selected |
| ContactDiscovery.ContactIndex.Window | internal/relay/wss/contact_discovery.go:90-109 | the requester's window without requests that are a minute old |
| ContactDiscovery.ContactIndex.Reserve | internal/relay/wss/contact_discovery.go:90-133 | a reservation names the session selected for exactly that branch, is made exactly within both limits, and counts for both sessions |
| RtcSessions.OnOfferExact | pwa/src/connectivity/rtc-session.ts:191-206 | when an offer is ignored, a duplicate, refused or answered |
| RtcSessions.OnAnswerExact | pwa/src/connectivity/rtc-session.ts:261-275 | when an answer is installed, a duplicate or refused, and which staged candidates it takes with it |
| RtcSessions.OnCandidateExact | pwa/src/connectivity/rtc-session.ts:277-296 | for either role: a candidate is accepted exactly if it is well formed, of this session, from the other side, not held, with room, and staged or (of the installed description) taken by the browser; when it is a duplicate; and what is left of the session |
| RtcSessions.OnCancelExact | pwa/src/connectivity/rtc-session.ts:298-304 | a cancel removes the session exactly if it names the session, its generation and the description of the other side |
| RtcSessions.OnAnswerSound | pwa/src/connectivity/rtc-session.ts:261-275 | an answer keeps staged candidates to sessions without a remote description, and the sets bounded |
| RtcSessions.OnCandidateSound | pwa/src/connectivity/rtc-session.ts:277-296 | a candidate keeps them so, after the test of its form |
| RtcSessions.StagingHidesReordering | pwa/src/connectivity/rtc-session.ts:261-349 | a candidate that overtakes its answer ends in the same state as one that follows it, if and only if the staging area was not full of others |
| RtcSessions.FullStagingLoses | pwa/src/connectivity/rtc-session.ts:277-349 | an offerer that has accepted 32 well-formed candidates for another description: a good candidate is lost before its answer and applied after it |
| RtcAgreement.RunAgreement | pwa/src/connectivity/rtc-session.ts:119-275 | what every guarded run keeps, with loss, delay, reordering and repetition, and with anything happening while the browser is waited for |
| RtcAgreement.NeverDisagree | pwa/src/connectivity/rtc-session.ts:119-275 | whenever both sides have a remote description they share session and generation, hold opposite roles and each installed the other's description, as long as no second half replaces an answer to an offer that the other side may still hold, or an offer of the smaller side by an answer |
| RtcAgreement.GuardIsExact | pwa/src/connectivity/rtc-session.ts:119-275 | after every run within the guard, an event replaces no answer to an offer that the other side may still hold, and no offer of the smaller side by an answer, if and only if the sides agree from then on |
| RtcAgreement.StaleStartDisagrees | pwa/src/connectivity/rtc-session.ts:127-153 | a run in which the end of a start overwrites the answerer's session, and the repeated offer is answered differently |
| RtcAgreement.RepeatedOfferDisagrees | pwa/src/connectivity/rtc-session.ts:191-234 | a run in which an offer comes again while it is being answered, and is answered twice |
| RtcAgreement.SmallerOffers | pwa/src/connectivity/rtc-session.ts:119-259 | once the smaller identifier has offered it stays the offerer of that session, and a connected other side answers it, whatever the larger side does, as long as no second half of its own unseats it |
| RtcAgreement.SeatIsExact | pwa/src/connectivity/rtc-session.ts:119-259 | after every run within that guard, an event unseats the smaller side's offer if and only if the former fails in some continuation within it |
| RtcAgreement.RunCandidates | pwa/src/connectivity/rtc-session.ts:277-349 | every candidate a side holds was sent by the other for the description it installed |
| RtcConnection.QuietIsConnected | pwa/src/connectivity/rtc-session.ts:119-275 | if someone started, nothing is still to come and nothing that was sent would change its receiver, both sides are connected to each other, as long as no second half replaces an answer or an offer that could still be answered |
| RtcConnection.QuietIsExact | pwa/src/connectivity/rtc-session.ts:119-275 | after every run within both guards, an event breaks neither if and only if in every continuation within them the sides agree, and are connected whenever everything has got through |
| RtcConnection.OneStartConnects | pwa/src/connectivity/rtc-session.ts:119-275 | a single start by the smaller identifier, answered once, is within the guards and ends quiet and connected |
| RtcConnection.TwoStartsGetStuck | pwa/src/connectivity/rtc-session.ts:119-153 | a run with two starts at once: nothing is left to react to, and the sides are in different sessions |
| RtcControllers.LiveExact | pwa/src/connectivity/rtc-session.ts:380-387 | pruning keeps the sessions that have not expired, in their order |
| RtcControllers.CandidateLeaves | pwa/src/connectivity/rtc-session.ts:277-296 | a candidate is judged by the live session of its peer, which it changes in place; expired sessions go and no other changes |
| RtcControllers.AnswerLeaves | pwa/src/connectivity/rtc-session.ts:261-275 | and so is an answer |
| RtcControllers.OfferLeaves | pwa/src/connectivity/rtc-session.ts:191-206 | an offer that is answered leaves no session with its peer, and no more than 31 others, the oldest gone |
| RtcControllers.StoreExact | pwa/src/connectivity/rtc-session.ts:135-153 | a new session stands in the place of the one with its peer, or last |
| RtcControllers.CapIsExceeded | pwa/src/connectivity/rtc-session.ts:119-153 | with room for one session any number can be started at once, and all of them are stored |
| RtcControllers.RTCSessionController.SessionsCapped | pwa/src/connectivity/rtc-session.ts:372-379 | never more than 31 sessions and the largest number of calls that waited for the browser at once; at most 32 if no two did |
| RtcControllers.RTCSessionController.Prune | pwa/src/connectivity/rtc-session.ts:380-387 | drops exactly the expired sessions and capabilities and keeps the order of the others |
| RtcControllers.RTCSessionController.AcceptCapabilities | pwa/src/connectivity/rtc-session.ts:108-117 | the peer's capability is stored in its place or last, and the oldest makes room at 64 |
| RtcControllers.RTCSessionController.StartBegin | pwa/src/connectivity/rtc-session.ts:119-134 | goes to the browser exactly for a peer with an unexpired capability and without an unexpired session; of 32 sessions the oldest goes |
| RtcControllers.RTCSessionController.StartFinish | pwa/src/connectivity/rtc-session.ts:135-153 | stores the offering session in the place of whatever is there by then; the bound on sessions is kept |
| RtcControllers.RTCSessionController.ReceiveOffer | pwa/src/connectivity/rtc-session.ts:191-206 | duplicate, glare and refusal as specified; otherwise the former session is dropped and room made before the answer is waited for |
| RtcControllers.RTCSessionController.AnswerReady | pwa/src/connectivity/rtc-session.ts:215-234 | stores the answering session in the place of whatever is there by then; the bound on sessions is kept |
| RtcControllers.RTCSessionController.ReceiveAnswer | pwa/src/connectivity/rtc-session.ts:261-275 | installs a matching answer with the staged candidates that fit it; no other session changes |
| RtcControllers.RTCSessionController.ApplyPending | pwa/src/connectivity/rtc-session.ts:337-349 | the loop applies exactly the staged candidates of the installed description |
| RtcControllers.RTCSessionController.ReceiveCandidate | pwa/src/connectivity/rtc-session.ts:277-296 | for either role, accepts exactly a well-formed candidate of the peer's live session from the other side that is not held and has room, staged or taken by the browser; the session keeps its place, and no other changes |
| RtcControllers.RTCSessionController.ReceiveCancel | pwa/src/connectivity/rtc-session.ts:298-304 | removes exactly the peer's live session that the cancel names |
| RtcControllers.RTCSessionController.Reset | pwa/src/connectivity/rtc-session.ts:185-189 | empties the tables; what waits for the browser still comes back |
| RtcDirectSending.OneFate | pwa/src/connectivity/rtc-data-runtime.ts:149-199 | each send that returned true is in exactly one state: pending with its timer armed, released, or handed once to the WSS path; at most 32 pending |
| RtcDirectSending.FateIsFinal | pwa/src/connectivity/rtc-data-runtime.ts:149-199 | a fate is final |
| RtcDirectSending.FireSound | pwa/src/connectivity/rtc-data-runtime.ts:155-158 | a timer that fires finds its own attempt, never a later one under the same delivery |
| RtcDirectSending.ResetEmpties | pwa/src/connectivity/rtc-data-runtime.ts:179-181 | reset leaves nothing pending |
| RtcDirectSending.RTCDirectSender.Send | pwa/src/connectivity/rtc-data-runtime.ts:149-168 | takes the send exactly for this session, a delivery not pending, fewer than 32 pending and a frame that encodes; it is then pending with its timer armed, or has fallen back at once if the channel throws |
| RtcDirectSending.RTCDirectSender.Admit | pwa/src/connectivity/rtc-data-runtime.ts:170-177 | releases exactly the attempt that is pending for that delivery and cancels its timer |
| RtcDirectSending.RTCDirectSender.Fallback | pwa/src/connectivity/rtc-data-runtime.ts:187-198 | hands exactly the attempt that is pending for that delivery to the WSS path and cancels its timer |
| RtcDirectSending.RTCDirectSender.ResetAll | pwa/src/connectivity/rtc-data-runtime.ts:179-181 | every attempt that waits falls back, and no timer is armed |
| RtcAdmission.DispatchedAgain | pwa/src/connectivity/rtc-admission-ledger.ts:29-63 | one key is reserved as first twice only after a prune past its expiry, a reset, or maximum other first reservations |
| RtcAdmission.DuplicateAnswers | pwa/src/connectivity/rtc-admission-ledger.ts:43-47 | while a reservation is remembered its key is answered from it: conflict for another ciphertext, otherwise pending or admitted as it was |
| RtcAdmission.Bounded | pwa/src/connectivity/rtc-admission-ledger.ts:48-53 | never more than the maximum, one entry for each key |
| RtcAdmission.RTCAdmissionLedger.PruneAt | pwa/src/connectivity/rtc-admission-ledger.ts:73-75 | keeps exactly the unexpired entries, in their order |
| RtcAdmission.RTCAdmissionLedger.FinishReserve | pwa/src/connectivity/rtc-admission-ledger.ts:42-54 | first exactly if no entry has the key: then it goes last, and the oldest makes room; otherwise the entry gives the answer and nothing changes |
| RtcAdmission.RTCAdmissionLedger.AdmitAt | pwa/src/connectivity/rtc-admission-ledger.ts:57-63 | admits exactly an unexpired entry of that key, after dropping the expired ones |
| RtcAdmission.RTCAdmissionLedger.Reset | pwa/src/connectivity/rtc-admission-ledger.ts:65-67 | empties the ledger |
| RtcIngress.AdmitIsEarned | pwa/src/connectivity/rtc-data-runtime.ts:72-110 | an ADMIT goes out only for a delivery that was handed to dispatch and accepted there, however the asynchronous steps interleave |
| RtcIngress.DispatchedTwice | pwa/src/connectivity/rtc-data-runtime.ts:72-110 | one delivery is dispatched twice in a session only if it was reset or ran out in between, or at least 32 others were dispatched in between |
| RtcIngress.HandedWasOpened | pwa/src/connectivity/rtc-data-runtime.ts:72-101 | whatever was handed to dispatch came in an envelope that opened, before the digest of that very frame was taken |
| RtcIngress.OpenedIsDispatched | pwa/src/connectivity/rtc-data-runtime.ts:76-101 | a frame whose envelope opens is dispatched when its digest is taken, whatever happens in between, exactly if the ledger holds nothing for its delivery by then |
| RtcIngress.UnopenedIsRefused | pwa/src/connectivity/rtc-data-runtime.ts:76-98 | a frame whose envelope does not open is rejected for good and never dispatched |
| RtcIngress.AnsweredForGood | pwa/src/connectivity/rtc-data-runtime.ts:46-110 | an answer is final |
| RtcIngress.HashedExact | pwa/src/connectivity/rtc-data-runtime.ts:99-101 | a delivery the ledger does not hold is dispatched; one it holds is answered from its entry |
| RtcIngress.RTCDataIngressRuntime.Receive | pwa/src/connectivity/rtc-data-runtime.ts:46-66 | a DATA frame joins the frames on their way; past the end of the session the ledger is emptied instead |
| RtcIngress.RTCDataIngressRuntime.EnvelopeOpened | pwa/src/connectivity/rtc-data-runtime.ts:76-98 | an envelope that opens goes on to its digest, after pruning by the time of arrival; one that does not is rejected and nothing else changes |
| RtcIngress.RTCDataIngressRuntime.DigestTaken | pwa/src/connectivity/rtc-data-runtime.ts:99-101 | dispatches exactly a delivery without an entry; an entry answers conflict, pending, or duplicate with another ADMIT |
| RtcIngress.RTCDataIngressRuntime.DispatchReturned | pwa/src/connectivity/rtc-data-runtime.ts:102-110 | admits exactly what dispatch accepted and whose entry has not expired; an ADMIT goes out for nothing else |
| RtcIngress.RTCDataIngressRuntime.Reset | pwa/src/connectivity/rtc-data-runtime.ts:68-70 | empties the ledger and leaves the frames on their way |
| RtcDirectPath.NothingIsLost | pwa/src/connectivity/rtc-data-runtime.ts:72-199 | over both ends and a channel that may lose or repeat ADMITs: each direct send is pending, was handed once to WSS, or its delivery was dispatched and accepted by the peer |
| OutboxRuns.BeginsAndEnds | pwa/src/connectivity/message-outbox-runtime.ts:93-213 | in any run: exactly when a send begins, what ends the wait for a delivery, and exactly what leaves the timer armed |
| OutboxRuns.DrainsOneByOne | pwa/src/connectivity/message-outbox-runtime.ts:174-298 | for either promise, every run within its guard keeps it: a runtime that could send has a timer armed, a run under way or a delivery that something will still answer; at most one envelope is with the relay |
| OutboxRuns.PongIsExact | pwa/src/connectivity/message-outbox-runtime.ts:93-131 | after every run within the guard of a promise, an event breaks the guard if and only if the promise fails in some continuation within it: a pong during a run breaks both, an ADMIT of the delivery waited for the first, a pong during its direct attempt the second |
| OutboxRuns.AdmitStalls | pwa/src/connectivity/message-outbox-runtime.ts:183-189 | once the delivery waited for is admitted on the direct channel, no further one is sent in any continuation without a pong |
| OutboxRuns.PongPutsToSleep | pwa/src/connectivity/message-outbox-runtime.ts:113-131 | a run in which a pong and then the timer come while an envelope is being saved: nothing is armed any more |
| OutboxRuns.AdmitPutsToSleep | pwa/src/connectivity/seal-and-send.ts:203-218 | a run with one direct send that the peer admits: no timer is armed, and the delivery waited for is outstanding nowhere |
| OutboxRuns.PongSendsTwo | pwa/src/connectivity/seal-and-send.ts:194-218 | a run in which a pong does not recall a direct attempt, which falls back while the next delivery is with the relay: two envelopes in flight |
| Outbox.NothingBeforeWake | pwa/src/connectivity/message-outbox-runtime.ts:339-360 | with nothing eligible and expired entries settled, the wake time is in the future and nothing becomes eligible or expires before it |
| Outbox.WakeHasCause | pwa/src/connectivity/message-outbox-runtime.ts:339-360 | and at the wake time there is something to do |
| Outbox.EligibleExact | pwa/src/connectivity/message-outbox-runtime.ts:322-337 | an entry is eligible exactly if it is due, its contact not paused, and it is the earliest by creation time, then identifier, of its contact's entries that are neither delivered nor waiting for a receipt |
| Outbox.HeadOfLine | pwa/src/connectivity/message-outbox-runtime.ts:373-388 | an entry is never eligible while its contact has one with a smaller creation time, or the same and a smaller identifier, that is neither delivered nor waiting for a receipt |
| Outbox.OldestExamined | pwa/src/connectivity/message-outbox-runtime.ts:196-199 | the cut keeps the 128 entries with the smallest creation times, in that order; an entry left out was created no earlier than any that is kept |
| Outbox.SameAnswers | pwa/src/connectivity/message-outbox-runtime.ts:390-412 | dropping pauses and receipt waits that are over changes no answer, now or later |
| Outbox.CutExact | pwa/src/connectivity/message-outbox-runtime.ts:196-199 | the cut to the oldest 128 entries takes entries out of consideration and changes nothing for the others |
| Outbox.NothingCut | pwa/src/connectivity/message-outbox-runtime.ts:196-199 | it takes nothing out if and only if the outbox holds at most 128 |
| Outbox.OutboxStore.constructor | pwa/src/state/slices/message-outbox-slice.ts:16 | the last 128 stored entries |
| Outbox.OutboxStore.Queue | pwa/src/state/slices/message-outbox-slice.ts:17-28 | the entry goes last; the entries written longest ago are evicted, no more than needed |
| Outbox.OutboxStore.MarkDelivered | pwa/src/state/slices/message-outbox-slice.ts:29-40 | only that entry changes, in its place |
| Outbox.OutboxStore.Settle | pwa/src/state/slices/message-outbox-slice.ts:41-44 | exactly the other entries stay, in order |
| Outbox.OutboxStore.AllExamined | pwa/src/state/slices/message-outbox-slice.ts:16-28 | the store never holds more than one run looks at, so every entry is looked at |
| Outbox.OutboxRuntime.IsContactDrainPaused | pwa/src/connectivity/message-outbox-runtime.ts:390-396 | tells exactly whether the contact is paused, dropping a pause that is over |
| Outbox.OutboxRuntime.AdvancedMessageIds | pwa/src/connectivity/message-outbox-runtime.ts:362-371 | exactly the entries that do not block their contact |
| Outbox.OutboxRuntime.ContactHeads | pwa/src/connectivity/message-outbox-runtime.ts:373-383 | the walk over the sorted entries keeps exactly the oldest entry of each contact that is not advanced, in order |
| Outbox.OutboxRuntime.NextEligibleEntry | pwa/src/connectivity/message-outbox-runtime.ts:322-337 | an eligible entry of the preferred contact if there is one, otherwise the eligible entry with the least creation time, ties by the least identifier; the preference lapses if it has none |
| Outbox.OutboxRuntime.NextWakeDelay | pwa/src/connectivity/message-outbox-runtime.ts:339-360 | the distance to the earliest event, at least zero |
| Outbox.OutboxRuntime.PruneAwaitingReceiptRetries | pwa/src/connectivity/message-outbox-runtime.ts:422-427 | drops exactly the receipt waits of entries that are not looked at |
| Outbox.OutboxRuntime.DueOrDelay | pwa/src/connectivity/message-outbox-runtime.ts:208-213 | an entry to send, or a delay that neither spins nor sleeps past an event |
| Outbox.OutboxRuntime.Look | pwa/src/connectivity/message-outbox-runtime.ts:196-213 | of the stored outbox, expired delivered entries to settle, an entry to send, or a delay; among the oldest 128 nothing is missed |
| Outbox.OutboxRuntime.PauseContactDrain | pwa/src/connectivity/message-outbox-runtime.ts:398-404 | a paused contact keeps its place in the order; when 128 are paused the first one entered makes room |
| AttachmentWindow.RunInvariant | pwa/src/connectivity/attachment-transfer.ts:302-324 | the invariant over every interleaving of loop steps, acknowledgements, endings and further offers |
| AttachmentWindow.EndsBecause | pwa/src/connectivity/attachment-transfer.ts:302-324 | in any run, exactly what ends a transfer and with which reason |
| AttachmentWindow.WindowHolds | pwa/src/connectivity/attachment-transfer.ts:451-486 | at most four chunks outstanding; indices go to the transport in order, each once |
| AttachmentWindow.NeverStalls | pwa/src/connectivity/attachment-transfer.ts:451-486 | a live accepted transfer is being filled, has a full window or has taken every index, unless and only unless a failed read ended its loop and no acknowledgement has come since |
| AttachmentWindow.StalledForGood | pwa/src/connectivity/attachment-transfer.ts:451-486 | a stalled transfer with nothing outstanding stays as it is until it is ended |
| AttachmentWindow.FailedReadStalls | pwa/src/connectivity/attachment-transfer.ts:451-486 | a run that reaches such a state by one failed read |
| AttachmentWindow.AcceptedExact | pwa/src/connectivity/attachment-transfer.ts:302-324 | a transfer that ends as accepted sent every chunk if and only if its loop is not still reading one and no read failed |
| AttachmentWindow.AcceptedCarriesFile | pwa/src/connectivity/attachment-transfer.ts:451-486 | and what it sent are fitting chunks that join to the file |
| AttachmentWindow.AcceptedTooEarly | pwa/src/connectivity/attachment-transfer.ts:302-324 | a run in which accepted is reported with a chunk never handed to the transport |
| AttachmentWindow.StaleLoopEndsNext | pwa/src/connectivity/attachment-transfer.ts:467-471 | the loop left over then ends the next transfer of that peer |
| AttachmentWindow.OutboundTransfer.TakeTurn | pwa/src/connectivity/attachment-transfer.ts:455-457 | the loop goes on exactly if the window has room and chunks are left; keeps the invariant |
| AttachmentWindow.OutboundTransfer.FillWindow | pwa/src/connectivity/attachment-transfer.ts:451-457 | one loop at a time; afterwards the transfer is not stalled |
| AttachmentWindow.OutboundTransfer.Accept | pwa/src/connectivity/attachment-transfer.ts:374-379 | acceptance starts the loop; keeps the invariant |
| AttachmentWindow.OutboundTransfer.ChunkReady | pwa/src/connectivity/attachment-transfer.ts:467-475 | the chunk becomes outstanding and its index goes out once; keeps the invariant |
| AttachmentWindow.OutboundTransfer.ReadFails | pwa/src/connectivity/attachment-transfer.ts:464-486 | a failed read ends the loop and stalls the transfer unless it was the last chunk |
| AttachmentWindow.OutboundTransfer.ChunkSent | pwa/src/connectivity/attachment-transfer.ts:477-482 | back to the test of the loop; keeps the invariant |
| AttachmentWindow.OutboundTransfer.End | pwa/src/connectivity/attachment-transfer.ts:540-560 | ends the transfer and clears what is outstanding; keeps the invariant |
| AttachmentWindow.OutboundTransfer.OnForwarded | pwa/src/connectivity/attachment-transfer.ts:302-324 | an acknowledgement ends the transfer exactly if no index and no chunk is left, and otherwise refills the window |

## Left out

- HubTraffic.RunAccounts: for configurations whose quotas leave room for one more frame below 2^64; `QuotaTestExact` says that this is exactly when the source's own test is sound.
- HubReplay.RunReplay: for runs that begin no delivery while one of the same session and key is in flight, which the read loop guarantees; `GuardIsExact` says that no weaker condition on what is begun will do.
- RtcAgreement.NeverDisagree: for runs within the guard that `GuardIsExact` shows to be exact. Sessions neither expire nor are reset, a message that cannot be sent is lost, and receiving an answer or a candidate is one step: the browser takes only one remote description.
- RtcAgreement.SmallerOffers: for runs within the guard that `SeatIsExact` shows to be exact, under the same simplifications.
- RtcConnection.QuietIsConnected: for runs within the guards that `QuietIsExact` shows to be exact, under the same simplifications.
- RtcSessions.OnCandidateSound: for candidates that are handed to the browser one at a time.
- RtcControllers: a session whose offer or answer cannot be sent is not dropped again.
- OutboxRuns.DrainsOneByOne: for runs within the guards that `PongIsExact` shows to be exact, and for one runtime: what an earlier attachment left with the direct sender is not counted. That the relay, the peer or a time limit does answer is for the outside to do.
- ContactDiscovery.RateLimits: for clocks that do not go back.
- BootstrapAcceptance.CreatedIsAccepted: for random identifiers of 32 bytes and a signer whose signatures verify, as `BeaconExists` has them; the optional payload lists, which Create never writes, are only tested for bounds.
- Outbox.NothingBeforeWake: as long as the outbox and the pauses do not change in between, which is when the runtime schedules itself again anyway.
- I/O, sockets, timers, JSON, storage and the user interface; clocks and randomness are parameters.
- Ed25519, SHA-256, HPKE and URL parsing beyond the laws above; line breaks in base64, which the test of the wrapper refuses before it is decoded.
- In the hub: closing of forwarders, contexts ended before or during a forward, Snapshot and Limits, which only report.
- In the WebSocket handler: the sequence tracker, the federation request window and frame dispatch; two hub calls made for one frame are two sections here.
- In federation discovery: backoff, the cached view and its rate of carrier passes, observations for diagnostics.
- In RTC sessions: the contents of descriptions and fingerprints, the data channel's own events, the cap on candidates sent.
- In the admission ledger: the errors for malformed reservations, which no frame that decodes can cause.
- In the direct runtime: the registry of live senders by peer, and the HPKE opening, which is an answer from outside.
- In the outbox: sealing itself, retry back-off, the cap on receipt waits, and the removal of a contact's entries.
- In attachments: manifests, decisions and the inbound side; the transfer registry is an oracle that refuses chunks after an end.
- Admin monitors, metrics and the identity cache, which would only add easy members.
