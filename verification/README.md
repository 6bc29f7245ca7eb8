# Verified model of the psbt-v2 crate

A Dafny model of Partially Signed Bitcoin Transactions as the crate implements them (BIP-174, BIP-370,
BIP-371, BIP-375), with proofs about its four connected parts:

1. **The wire codec.** The one-shot meaning of a PSBT's bytes (`Formats`, `Values`, `ValueCodecs`, `KeyOrigins`,
   `Tables`, `Maps`, `Psbt`), what the encoders write (`MapEncoding`), the in-memory structs (`Input`, `Global`,
   `Output`), and the crate's nested push decoders and chunk encoders as objects that change state
   (`ValueDecoders`, `TapKeyOriginDecoder`, `UnsignedTxDecoder`, `MapDecoder`, `MapsDecoder`, `PsbtDecoder`,
   `V0Decoder`, `MapEncoder`, `MapEncoders`, `PsbtEncoder`). The two sides undo each other, well-formedness is exactly
   what survives the round trip, and how bytes are cut or pairs are ordered plays no part. What the tables mean is said
   without them: the bytes on the wire (`Layout`), the range of every value and field (`Ranges`, `FieldRanges`,
   `InputRanges`, `GlobalRanges`, `OutputRanges`, `WellFormed`) and every refusal (`Refusals`).
2. **Version 2 to version 0 and back, and lock times** (`LockTime`, `Transactions`, `V0`, `Promotion`). Resolution is
   the least solution of BIP-370's constraints, the unsigned transaction survives the detour, and both the PSBTs that
   decode again and the version-0 PSBTs that are well-formed as version 2 are characterised exactly.
3. **The Combiner** (`Combiner`, `CombinedMaps`, `CombinerLimits`). Exactly when combining succeeds, when success is
   symmetric, when results commute and when groupings agree; idempotence, closure of well-formedness, and the inputs on
   which the documented claims fail.
4. **Signing and the roles** (`Flags`, `Scripts`, `Funding`, `Signable`, `Session`, `Signatures`, `Signer`, `Fees`,
   `Extractor`, `Roles`). Evidence makes signing total, sessions sign exactly what is due over the digest the spent
   output asks for, verified signing is closed, the cached transaction outlasts every run, finalizing and extracting
   keep the transaction and put what was found where the network looks for it, and the role protocol keeps its counts
   and never adds inputs or outputs after construction.

A record (`Record`) maps key slots to values; all six map kinds share one parser, one encoder and one set of theorems,
parameterised by the table of key types and their rules (`Tables.RuleOf`). A parsing function returns `More`, `Fail` or
`Ready(value, used)`. The decoder objects keep the bytes they have `seen` as ghost state, and report after every push
what the parsing function says of those bytes.

Types of the bitcoin and secp256k1 crates are the bytes they serialize to, and what those crates decide about the bytes
is a constant record of functions about which only stated laws are known (`Bitcoin.Lawful`, `Scripts.SigningLaws`).
The cap the consensus-encoding crate puts on lengths is a constant known only to lie between 4096 and 2^32.

## Where code and documentation part

- Combining is documented as commutative (src/psbt.rs:379-384, src/map/global.rs:99-101). It is not:
  `CombinerLimits.NotCommutative` is an example and `Combiner.CommutesExactly` the exact condition for all shapes.
- The fuzz target asserts that success does not depend on the order (fuzz/fuzz_targets/deserialize_v2.rs:27-30). That
  holds for lists of equal length (`Combiner.SuccessIsSymmetric`). For lists of any length it holds if and only if the
  two cannot be merged or the lock time resolves in both orders or in neither (`Combiner.SymmetricIff`); two well-formed
  PSBTs on which it does not are in `CombinerLimits.UnequalLengths`.
- Which two of three PSBTs are combined first can decide whether combining succeeds, even for lists of equal length
  (`Combiner.Associative`, `CombinerLimits.GroupingMatters`).
- The comment at src/map/global.rs:128-129 says that equal paths with different fingerprints are an error. The code
  replaces the source (`Combiner.MergeIsLastLongest`), and a shorter path that is no suffix of the existing one makes
  the subtraction at src/map/global.rs:144 underflow before any error is returned (`CombinerLimits.SharedXpub`).
- The subtractions of the tap key origin decoder are safe exactly on well-framed values (`KeyOrigins.OriginVerdict`;
  `KeyOrigins.CountdownUnderflows` is an input on which they are not).
- The tap tree decoder slices by a decoded script length without comparing it to what is left
  (src/encoding/codecs/mod.rs:597). `ValueCodecs.TreeOverruns` says exactly when the slice is out of range, and
  `ValueCodecs.TreeOverrun` gives three bytes on which it is.
- The version-0 decoders refuse preimages and proprietary pairs that the version-0 encoders write, and the version-0
  output encoder leaves the redeem script out (`V0.DecodableIff`, with an example in `EdgeCases.Undecodable`).
- A version-0 map may hold, as unknown pairs, key types only version 2 names, so decoding version 0 does not give a
  well-formed version-2 PSBT by itself (`Promotion.PromotedIff`, `Promotion.DecodedIsNotPromoted`).
- `no_more_inputs` and `no_more_outputs` clear flags but keep the Constructor's type, which alone decides what may be
  added (`Roles.EndingInputsIsAdvice`, `Roles.EndingOutputsIsAdvice`).
- A complete input set is complete up to the declared count only; with a smaller count taproot signing fails an
  `expect` (`Signable.CountBelowLength`, with an example in `EdgeCases.CompleteYetUnsignable`).

## Model

| member | source | states |
|---|---|---|
| `CompactSize.SizeComplete` | src/map/mod.rs:297-306 | a compact size is read back from its shortest form, whatever bytes follow |
| `CompactSize.SizeSound` | src/map/mod.rs:263-276 | only shortest forms are read: the bytes taken are the ones the value is written in |
| `Bytes.LEDigit` | src/sighash_type.rs:177-179 | the byte at position i of a number counts the 256 to the power i: least significant byte first |
| `Layout.SizeLayout` | src/map/mod.rs:297-306 | below 253 a size is one byte; above, a marker of 253, 254 or 255 and two, four or eight bytes |
| `Layout.SizeVerdicts` | src/map/mod.rs:263-276 | a size is refused if and only if its high bytes would fit a shorter form, and a length if and only if it is above the cap besides |
| `Tables.KeyRoundTrip` | src/map/mod.rs:259-306 | a key is read back from its bytes, and a key body that is read is the body of that key |
| `Layout.KeyVerdicts` | src/map/mod.rs:259-295 | a key body is refused if and only if it is empty, or its type is cut short or padded, each with its own error |
| `Tables.ProprietaryWritten` | src/map/mod.rs:154-222 | a proprietary key turned into a raw key turns back into itself |
| `Tables.ProprietaryRead` | src/map/mod.rs:178-222 | a raw key read as proprietary turns back into the same raw key, type included |
| `ValueCodecs.EcdsaRoundTrip` | src/encoding/codecs/ecdsa_signature.rs:132-149 | a signature with a standard type decodes from its DER bytes and type byte; whatever decodes is such a signature |
| `ValueCodecs.TaprootRoundTrip` | src/encoding/codecs/taproot_signature.rs:122-141 | 64 bytes mean the default type, 65 an explicit one; both directions |
| `ValueCodecs.TreeRoundTrip` | src/encoding/codecs/mod.rs:542-606 | leaf lists the tree builder accepts are read back; a tree that is read can be written in no more bytes |
| `ValueCodecs.TreeOverruns` | src/encoding/codecs/mod.rs:587-606 | the slice by a decoded script length is out of range if and only if, after some leaves that are taken, a readable length follows that is more than the bytes left |
| `ValueCodecs.TreeOverrun` | src/encoding/codecs/mod.rs:597 | three bytes on which it is |
| `ValueCodecs.DecEnc` | src/map/framing.rs:35-45 | every value of every codec decodes from what is written for it |
| `ValueCodecs.DecOk` | src/map/framing.rs:153-175 | whatever a codec decodes is a value it can write, within the length cap |
| `ValueCodecs.ValueComplete` | src/map/framing.rs:128-175 | a body behind its length is read as the value it means, whatever follows |
| `ValueCodecs.ValueSound` | src/map/framing.rs:128-175 | what is read is one length-prefixed body, and the value is what that body decodes to |
| `ValueCodecs.BodyExact` | src/map/framing.rs:153-175 | the declared length and the consumed length must agree: nothing past the declared length is read |
| `Layout.LengthVerdicts` | src/encoding/codecs/key_source.rs:64-100 | signatures and key sources are refused at the length prefix for exactly the lengths their formats exclude |
| `Layout.WholeVerdicts` | src/encoding/codecs/taproot_signature.rs:122-141 | what the bytes of signatures and leaf scripts mean, canonical or not: DER before a standard type, 64 bytes or 65 with any valid type, a script before a known version |
| `Layout.NumberVerdict` | src/map/required_height_lock_time.rs:102-107 | a number of its width is a value if and only if it is in range |
| `Layout.DeclaredVerdict` | src/map/framing.rs:153-175 | a decoder that finds its own end is held to the declared length afterwards |
| `Layout.EncLayout` | src/map/v0/unsigned_tx.rs:125-138 | every value of every codec byte by byte: numbers and their widths, lists behind their counts, outpoint before script before sequence, amount before script, and the rest |
| `Layout.PairLayout` | src/map/framing.rs:35-45 | a pair is the length of the key, its type and data, the length of the value, the value as laid out |
| `Layout.HeadLayout` | src/psbt.rs:52-58 | both versions start with 70 73 62 74 FF, and both decoders tell a wrong magic from a wrong separator |
| `KeyOrigins.SourceRoundTrip` | src/encoding/codecs/key_source.rs:31-117 | fingerprint and path of any length, in both directions |
| `KeyOrigins.OriginVerdict` | src/tap_key_origin.rs:105-254 | the countdown stays at or above zero and consumes exactly the declared bytes if and only if the value is well framed; otherwise no value is ever returned |
| `KeyOrigins.CountdownUnderflows` | src/tap_key_origin.rs:129-217 | a declared length of one byte on which the countdown underflows |
| `KeyOrigins.TailSettles` | src/tap_key_origin.rs:129-217 | the exact number of bytes after which the verdict is in, and that an ill-framed value then underflows |
| `KeyOrigins.OriginWritten` | src/tap_key_origin.rs:48-254 | decoding inverts encoding for any number of leaf hashes and any path length |
| `KeyOrigins.OriginRead` | src/tap_key_origin.rs:105-254 | the bytes consumed are the encoding of the value returned |
| `Values.UnsignedTxCanonical` | src/map/v0/unsigned_tx.rs:125-284 | the unsigned transaction is read back exactly, refuses scripts, and every verdict is final |
| `ValueDecoders.WholeDecoder.PushBytes` | src/encoding/codecs/taproot_signature.rs:88-120 | after any push the report is the one-shot parser's verdict on all bytes fed so far, and exactly its bytes are taken |
| `ValueDecoders.WholeDecoder.End` | src/encoding/codecs/taproot_signature.rs:122-141 | a completed decoder returns what the parser returns, value or error |
| `ValueDecoders.EndTree` | src/encoding/codecs/mod.rs:587-606 | the leaf loop computes the tree decoding function, error cases included |
| `ValueDecoders.EcdsaSignatureDecoder.PushBytes` | src/encoding/codecs/ecdsa_signature.rs:90-130 | the same verdict when the bytes are copied into the fixed buffer piece by piece |
| `ValueDecoders.EcdsaSignatureDecoder.Fill` | src/encoding/codecs/ecdsa_signature.rs:90-130 | the copy loop puts the next bytes of the value into the buffer and nothing else |
| `ValueDecoders.EcdsaSignatureDecoder.End` | src/encoding/codecs/ecdsa_signature.rs:132-149 | the buffer's first bytes decode as the whole value does |
| `ValueDecoders.KeySourceDecoder.PushBytes` | src/encoding/codecs/key_source.rs:64-100 | the same verdict for key sources, length errors reported at the prefix |
| `ValueDecoders.KeySourceDecoder.End` | src/encoding/codecs/key_source.rs:102-117 | the fingerprint and path accumulated are those of the value |
| `ValueDecoders.ValueDecoder.PushBytes` | src/map/framing.rs:128-151 | the generic value decoder reports the parser's verdict under any cutting |
| `ValueDecoders.ValueDecoder.End` | src/map/framing.rs:153-175 | a consumed length other than the declared one is an error, found here |
| `TapKeyOriginDecoder.TapKeyOriginDecoder.PushBytes` | src/tap_key_origin.rs:105-240 | the countdown machine reports the one-shot verdict under any cutting |
| `TapKeyOriginDecoder.TapKeyOriginDecoder.Step` | src/tap_key_origin.rs:105-240 | one stage takes at least one byte when there is one, keeps the countdown, and fails only where the value is ill framed |
| `TapKeyOriginDecoder.TapKeyOriginDecoder.End` | src/tap_key_origin.rs:242-254 | the hashes, fingerprint and path accumulated are the value |
| `UnsignedTxDecoder.StagesAreWhole` | src/map/v0/unsigned_tx.rs:210-266 | version, inputs, outputs and lock time read in turn are the transaction format |
| `UnsignedTxDecoder.CompletesAtEnd` | src/map/v0/unsigned_tx.rs:210-266 | a decoder of a canonical value is complete at the very byte that completes it |
| `UnsignedTxDecoder.UnsignedTxDecoder.PushBytes` | src/map/v0/unsigned_tx.rs:210-266 | the staged decoder reports the format's verdict under any cutting, a non-empty script included |
| `UnsignedTxDecoder.CheckScripts` | src/map/v0/unsigned_tx.rs:228-237 | the loop finds a script if there is one |
| `MapDecoder.MapDecoder.PushBytes` | src/map/input.rs:793-1259 | the map decoder reports the one-shot verdict on the map so far, whatever the pieces, splits inside a length, key or value included |
| `MapDecoder.MapDecoder.Round` | src/map/input.rs:793-1259 | every turn of the loop takes a byte or moves to a later stage, and keeps the accumulated fields right |
| `MapDecoder.MapDecoder.Verdict` | src/map/global.rs:273-527 | between pushes an unfinished decoder has seen an unfinished map |
| `MapDecoder.MapDecoder.JudgeKey` | src/map/input.rs:722-781 | the decision on a key: refused at once, or handed to the value decoder of its type |
| `MapDecoder.MapDecoder.EndValue` | src/map/input.rs:933-1257 | a finished value is stored, or refused as a duplicate or for its key data; `InputRanges`, `GlobalRanges` and `OutputRanges` say which keys and values those are |
| `MapsDecoder.MapsDecoder.PushBytes` | src/psbt.rs:121-206 | as many maps as announced are read one after the other, whatever the pieces |
| `PsbtDecoder.PsbtV2Decoder.PushBytes` | src/psbt.rs:121-206 | the nested decoder reports the one-shot verdict on all bytes so far and takes exactly the bytes of the PSBT |
| `PsbtDecoder.DecodeChunks` | src/psbt.rs:121-218 | chunk independence: for every byte string and every cutting the outcome, the PSBT or error and the number of bytes used are those of parsing it at once |
| `V0Decoder.PsbtV0Decoder.PushBytes` | src/v0.rs:236-350 | the same for version 0, stages with nothing to read skipped |
| `V0Decoder.DecodeChunksV0` | src/v0.rs:236-367 | chunk independence of the version-0 decoder |
| `Maps.MapSettled` | src/map/input.rs:793-1259 | more bytes never change a map decoder's verdict, and nothing after the separator is read |
| `Maps.MapComplete` | src/map/input.rs:793-1277 | pairs that can all be stored, then a separator where nothing required is missing, are accepted |
| `Maps.MapSound` | src/map/input.rs:793-1277 | whatever is accepted is such a sequence of pairs and a separator |
| `Maps.CollectExact` | src/map/input.rs:933-1257 | a sequence of pairs is stored if and only if each is sound and no two fill one slot; conservation: as many slots as pairs, each holding its pair's value; which pairs are sound, `InputRanges` and its siblings say field by field |
| `Maps.OrderIndependent` | src/map/output.rs:375-514 | permuting the pairs changes neither acceptance nor result |
| `Maps.FramesUnique` | src/map/framing.rs:35-45 | the bytes of a map up to its separator say which pairs it holds, in which order, and where it ends |
| `Maps.FramesAccepted` | src/map/global.rs:372-525 | the bytes of some pairs are accepted if and only if the pairs can all be stored and the result is complete |
| `Maps.MapOrderIndependent` | src/map/global.rs:372-525 | the same about bytes, for all six kinds of map: of two orders of the same pairs both are accepted or neither is, and with the same record, one slot for every pair |
| `MapEncoding.EncodeMapFrames` | src/map/input.rs:1374-1409 | the encoder writes every slot of the map, each once, then the separator |
| `MapEncoding.MapRoundTrip` | src/map/input.rs:793-1277 | a well-formed complete map is read back from what is written, whatever follows |
| `MapEncoding.MapNormal` | src/map/input.rs:805-852 | every map the decoder accepts can be written: all entries in range, nothing required missing |
| `MapEncoding.MapStable` | src/map/input.rs:793-1277 | decode, encode, decode gives the same map |
| `MapEncoding.MapAcceptedIff` | src/map/v0/input.rs:565-640 | a map written slot by slot is accepted exactly when none of its slots is refused |
| `Refusals.SlotIs` | src/map/input.rs:933-1257 | which types' key data is never looked at: there every key means one field, elsewhere every key a slot of its own |
| `Refusals.RefusedOnSight` | src/map/v0/input.rs:565-640 | a key is refused before its value if and only if it is the embedded transaction in version 2, or has data where version 0 takes none |
| `Refusals.StoredIff` | src/map/global.rs:372-525 | an accepted pair is stored if and only if its key data is right and its slot free, nothing else moves, and the two complaints are told apart |
| `Refusals.ComplaintOrder` | src/map/output.rs:375-514 | a silent payment field of version 2 notices a duplicate before stray key data, version 0's global fields the data first |
| `Refusals.FirstMissing` | src/map/global.rs:285-330 | the complaint at the separator is the first required field missing, in this order, then fields that belong together |
| `Refusals.FirstMissingInput` | src/map/input.rs:805-852 | the same for inputs, with the txid of the spent transaction compared last |
| `Layout.PairOrder` | src/map/input.rs:1374-1409 | the order of key types in which the pairs of all six kinds of map go out |
| `MapEncoder.MapEncoder.Advance` | src/map/input.rs:1677-1724 | one advance drops the current chunk and nothing else; the rank goes strictly down through every hop over empty groups |
| `MapEncoder.MapEncoder.Hop` | src/map/global.rs:707-738 | the hop loop stops at the next state with something to write and loses nothing |
| `MapEncoder.MapEncoder.Drain` | src/map/v0/input.rs:402-441 | draining the machine yields the concatenation of the present fields, then one separator |
| `MapEncoder.MachineWritesMap` | src/map/input.rs:1374-1409 | what the states hand out in order is the plain encoding of the map |
| `MapEncoders.EncodeGlobalMap` | src/map/global.rs:577-759 | the drained encoder machine of a global map, with its own skipped states, has written that map |
| `MapEncoders.EncodeInputMap` | src/map/input.rs:1360-1745 | the drained machine of input i has written input i |
| `MapEncoders.EncodeOutputMap` | src/map/output.rs:575-778 | the drained machine of an output has written it, the script of an underived silent payment left out |
| `MapEncoders.EncodeGlobalMapV0` | src/map/v0/global.rs:41-176 | the same for version 0, which starts with the unsigned transaction |
| `MapEncoders.EncodeInputMapV0` | src/map/v0/input.rs:99-445 | the same for a version-0 input, which starts on its first field that is set |
| `MapEncoders.EncodeOutputMapV0` | src/map/v0/output.rs:65-232 | the same for a version-0 output |
| `PsbtEncoder.StreamEncoder.Advance` | src/psbt.rs:66-92 | one advance of the composed encoder drops its current chunk and nothing else, and gets ahead through magic bytes, lists, maps, states and chunks |
| `PsbtEncoder.StreamEncoder.Drain` | src/psbt.rs:66-92 | draining it ends, and the chunks joined are everything that was to come |
| `PsbtEncoder.EncodePsbt` | src/psbt.rs:77-92 | the drained encoder of a PSBT, each map started when it is reached, has written the serialization |
| `PsbtEncoder.Transmit` | src/psbt.rs:66-92 | fed chunk by chunk from the encoder to the decoder, a well-formed PSBT arrives as it was sent |
| `PsbtEncoder.EncodePsbtV0` | src/v0.rs:173-199 | the drained version-0 encoder has written the version-0 serialization |
| `PsbtEncoder.TransmitV0` | src/v0.rs:173-199 | in version 0 it arrives if and only if nothing is refused and its transaction is within the cap |
| `MapEncoder.ExactLenEncoder.Advance` | src/encoding/mod.rs:240-245 | a length announced right stays right after each chunk |
| `MapEncoder.ExactLenEncoder.DrainExact` | src/encoding/mod.rs:227-250 | a right announcement counts down to zero exactly at the end |
| `MapEncoder.TreeAnnounced` | src/encoding/codecs/mod.rs:494-561 | the tap tree encoder announces exactly the bytes its leaves yield |
| `MapEncoder.EncodeTree` | src/encoding/codecs/mod.rs:509-518 | draining the tap tree encoder gives the leaf list's bytes with the countdown at zero |
| `Input.InputBack` | src/map/input.rs:1261-1277 | building an input from the record its encoder writes gives the input back, all fields and maps |
| `Input.InputForth` | src/map/input.rs:1261-1277 | an accepted record is written back as itself, from a well-formed input |
| `Input.InputWidths` | src/map/input.rs:62-149 | in a well-formed input every transaction field is within its width and each lock time within its kind |
| `Input.InputChecks` | src/map/input.rs:1261-1277 | the spent transaction is the one named, and ECDH shares come with DLEQ proofs |
| `Input.FieldsDemoted` | src/map/v0/input.rs:565-640 | the version-0 map of a well-formed input is accepted exactly if it has no preimages and no proprietary pairs |
| `InputRanges.InputKeys` | src/consts.rs:72-80 | where each transaction field of an input stands on the wire, by the number of its key type |
| `InputRanges.FieldKeys` | src/consts.rs:44-61 | the same for UTXOs, scripts, signature type and final records |
| `InputRanges.MapFieldKeys` | src/consts.rs:48-99 | the same for signatures, derivations, preimages, shares, proofs and proprietary pairs |
| `InputRanges.TapFieldKeys` | src/consts.rs:82-92 | the same for taproot fields |
| `InputRanges.InputWellFormed` | src/map/input.rs:722-1277 | an input is well-formed if and only if every field is in range: 20-byte RIPEMD160 and HASH160, 32-byte SHA256 and HASH256 preimage keys, public keys, control blocks, leaf keys, widths, caps, no unknown of a named type, the named transaction, shares with proofs |
| `InputRanges.FieldsWellFormed` | src/map/v0/input.rs:565-1163 | what version 0 takes of an input, field by field: no preimages and no proprietary pairs, all else in the same ranges |
| `Global.GlobalBack` | src/map/global.rs:529-534 | the same for the global map |
| `Global.GlobalForth` | src/map/global.rs:518-527 | an accepted global record is written back with its flags made explicit |
| `Global.GlobalWidths` | src/map/global.rs:212-240 | version is 2, counts within the cap, lock time and transaction version within 32 bits |
| `Global.GlobalDemoted` | src/map/v0/global.rs:71-173 | the version-0 global map of a well-formed PSBT is well-formed and complete |
| `GlobalRanges.GlobalKeys` | src/consts.rs:20-40 | where each field of a global map stands on the wire, by the number of its key type |
| `GlobalRanges.GlobalWellFormed` | src/map/global.rs:212-534 | a global map is well-formed if and only if every field is in range and shares come with proofs |
| `GlobalRanges.GlobalWellFormedV0` | src/map/v0/global.rs:220-490 | what version 0 takes of a global map, field by field, the embedded transaction included |
| `GlobalRanges.VersionZero` | src/map/v0/global.rs:359-381 | a version-0 global map may name its version, without key data, and it must be zero |
| `Output.OutputBack` | src/map/output.rs:588-635 | an output is read back, an omitted silent payment script included |
| `Output.OutputForth` | src/map/output.rs:518-523 | an accepted output record is written back less an empty silent payment script |
| `Output.OutputWidths` | src/map/output.rs:110-117 | the amount fits 64 bits, and a label comes with the address it labels |
| `Output.FieldsDemoted` | src/map/v0/output.rs:302-341 | the version-0 map of an output is accepted exactly if it has no proprietary pairs |
| `OutputRanges.FieldKeys` | src/consts.rs:101-124 | where each field of an output stands on the wire, by the number of its key type |
| `OutputRanges.OutputWellFormed` | src/map/output.rs:246-530 | an output is well-formed if and only if every field is in range and a label has its address |
| `OutputRanges.OutputWellFormedV0` | src/map/v0/output.rs:302-616 | what version 0 takes of an output, field by field |
| `Psbt.RoundTrip` | src/psbt.rs:80-206 | every well-formed PSBT is read back from its bytes, exactly, and what follows is left alone |
| `Psbt.Normal` | src/psbt.rs:121-218 | every PSBT the decoder can return is well-formed, however odd the bytes |
| `Psbt.DeserializeSerialize` | src/psbt.rs:338-365 | deserializing the serialization returns the PSBT if and only if it is well-formed |
| `WellFormed.SurvivesIff` | src/psbt.rs:338-365 | a PSBT comes back from its bytes if and only if every field is in range and the counts are the lengths, and nothing else is ever decoded |
| `WellFormed.WholeBuffer` | src/psbt.rs:360-365 | a buffer deserializes if and only if it is one PSBT, whole; less, more and a decoder's complaint are told apart |
| `WellFormed.DecodedFitsV0` | src/map/v0/input.rs:753-1163 | every input a version-0 map decodes to is in those ranges |
| `Psbt.Stable` | src/psbt.rs:338-365 | for every accepted byte string, canonical or not, encoding is stable after one pass |
| `Psbt.PsbtSettled` | src/psbt.rs:121-206 | a verdict on a prefix stands whatever follows |
| `Transactions.IdIsStable` | src/psbt.rs:257-264 | the id survives changes of sequences and of silent payment scripts |
| `Transactions.IdCommits` | src/map/output.rs:120-133 | two outputs identify alike if and only if they agree in amount, address, and script where there is no address, or the one without an address has a zero byte and the other's address for its script |
| `Transactions.UnsignedIs` | src/psbt.rs:270-279 | the unsigned transaction field by field: outpoints in order, empty scripts, a missing sequence is 0xFFFFFFFF |
| `Transactions.IdIs` | src/psbt.rs:257-264 | the id is the txid of the one transaction with all inputs in order, each with sequence zero and unsigned, and the identifying outputs |
| `Transactions.IdentifiedAlike` | src/psbt.rs:257-264 | two PSBTs are identified by the same transaction if and only if versions, resolved lock times and ordered outpoints agree and their outputs are pairwise alike |
| `LockTime.FailsIffNothingFits` | src/psbt.rs:284-329 | resolution fails if and only if neither kind of lock time fits all inputs; its `expect`s never fail |
| `LockTime.Optimal` | src/psbt.rs:284-329 | height whenever possible, every requirement met, equal to one of them, and least of its kind |
| `LockTime.OnlyRequirementsMatter` | src/psbt.rs:284-329 | equal requirements resolve equally, whatever else the inputs hold |
| `V0.AssembledTransaction` | src/map/v0/global.rs:263-313 | what version 0 reads stands for the embedded transaction, its lock time in the fallback |
| `V0.EmbeddedIsRead` | src/map/v0/unsigned_tx.rs:125-284 | whatever else the global map holds, the transaction read is the one embedded |
| `V0.TransactionSurvives` | src/v0.rs:44-367 | if the lock time resolves and the version-0 bytes decode, the PSBT that comes back has the same unsigned transaction, with all requirements folded into the fallback |
| `V0.EmbeddedOk` | src/map/v0/unsigned_tx.rs:125-138 | the embedded transaction of a well-formed PSBT is within every width |
| `V0.DecodableIff` | src/v0.rs:179-350 | a well-formed PSBT decodes again from its version-0 bytes if and only if it has no input preimages and no proprietary pairs in inputs and outputs and its unsigned transaction is within the length cap, and then to exactly this PSBT |
| `V0.EmbeddedIs` | src/map/v0/unsigned_tx.rs:125-138 | the embedded transaction field by field |
| `V0.ReadAsVersionTwo` | src/v0.rs:296-350 | everything read as version 0 has version 2, no flags, no lock requirements, explicit sequences, counts that are lengths, and says of the transaction what the embedded one says |
| `V0.DemotedIs` | src/v0.rs:179-350 | what a PSBT comes back as, field by field: only redeem scripts of outputs, flags and lock requirements change |
| `EdgeCases.Undecodable` | src/map/v0/input.rs:587-640 | a well-formed PSBT, with a preimage, whose version-0 bytes do not decode |
| `Promotion.InputPromoted` | src/map/v0/input.rs:681-714 | an input read as version 0 is well-formed exactly under three checks on its fields |
| `Promotion.OutputPromoted` | src/map/v0/output.rs:369-386 | an output read as version 0 is well-formed exactly if it has no unknown of a named type and no bare label |
| `Promotion.GlobalPromoted` | src/map/v0/global.rs:263-484 | a global map read as version 0 is well-formed exactly if it has no unknown of a type version 2 names |
| `Promotion.PromotedIff` | src/v0.rs:236-367 | a PSBT decoded as version 0 is well-formed as version 2 if and only if those checks pass |
| `Promotion.DecodedIsNotPromoted` | src/map/v0/input.rs:565-640 | a map that version 0 accepts and that is not well-formed: an unknown pair of a type only version 2 names |
| `Combiner.MergeIsLastLongest` | src/map/global.rs:137-156 | the merge of two key sources succeeds exactly if one path ends the other, and keeps the longer, the incoming one of two equal; a shorter path that does not end the longer underflows |
| `Combiner.CombineXpubs` | src/map/global.rs:120-160 | the loop succeeds exactly if all shared keys are comparable, and then holds the last longest source of each |
| `Combiner.CombineGlobal` | src/map/global.rs:102-164 | global maps combine exactly if versions match and key sources are comparable |
| `Combiner.CombineWith` | src/psbt.rs:386-401 | the whole method: success and result are those of the merge function; the global map complains first, then the first input that does not match, then the first output, then the lock time, each with the error of its first mismatching field |
| `Combiner.MergedGroups` | src/psbt.rs:386-401 | three equal-shaped PSBTs merge alike in both groupings, or in neither |
| `Combiner.Associative` | src/psbt.rs:386-401 | exactly when each grouping succeeds, that two that succeed are equal, and exactly when the groupings differ: all three resolve but just one of the two pairs combined first |
| `CombinerLimits.GroupingMatters` | src/psbt.rs:386-401 | three well-formed PSBTs of one shape that combine in one grouping only |
| `Combiner.DeterminableBySet` | src/psbt.rs:284-329 | whether a lock time resolves depends on which requirements are set only |
| `Combiner.CombinedIff` | src/psbt.rs:386-401 | for any shapes, combining succeeds if and only if the two can be merged and one kind of lock time suits every common input and every further input of the left one |
| `Combiner.SuccessIsSymmetric` | src/psbt.rs:379-401 | for equal shapes A with B succeeds if and only if B with A does |
| `Combiner.SymmetricIff` | fuzz/fuzz_targets/deserialize_v2.rs:27-30 | for any shapes, success is the same in both orders if and only if, when they can be merged, the lock time resolves in both orders or in neither; the shorter input list on the left succeeds whenever the other order does |
| `Combiner.KeysAreUnited` | src/map/input.rs:472-525 | the combined input writes a key exactly if one of the two does: a field keeps the left value, a map entry takes the right one, nothing is lost or invented |
| `Combiner.OutputKeysAreUnited` | src/map/output.rs:136-162 | the same for outputs |
| `Combiner.GlobalKeysAreUnited` | src/map/global.rs:102-164 | the same for global maps, but for the fallback lock time, which only the left gives, and xpubs, which keep the last longest |
| `Combiner.CommutesIffAgree` | src/psbt.rs:379-401 | A with B equals B with A if and only if what they share, and the global fields kept from the left, agree |
| `Combiner.CommutesExactly` | src/psbt.rs:379-401 | for any shapes, both orders give the same if and only if neither succeeds or the shapes are equal and the two agree |
| `Combiner.Idempotent` | fuzz/fuzz_targets/deserialize_v2.rs:17-30 | combining a PSBT with itself returns it if and only if its lock time is determinable |
| `CombinerLimits.NotCommutative` | src/psbt.rs:379-381 | two well-formed PSBTs that combine both ways to different results, against the documentation |
| `CombinerLimits.UnequalLengths` | fuzz/fuzz_targets/deserialize_v2.rs:27-30 | two well-formed PSBTs with lists of unequal length whose combination succeeds one way only, against the fuzz target's assertion |
| `CombinerLimits.SharedXpub` | src/map/global.rs:137-156 | for any extended key, two well-formed PSBTs that both name it: one order of combining underflows, the other returns the error |
| `CombinedMaps.CombinedInput` | src/map/input.rs:472-525 | well-formed inputs combine to a well-formed input |
| `CombinedMaps.CombinedOutput` | src/map/output.rs:136-162 | well-formed outputs combine to a well-formed output, an omitted script included |
| `CombinedMaps.CombinedGlobal` | src/map/global.rs:102-164 | well-formed global maps combine to a well-formed global map |
| `CombinedMaps.CombinedOk` | src/psbt.rs:386-401 | well-formed PSBTs that combine make a well-formed PSBT, whatever their shapes |
| `CombinedMaps.CombinedRoundTrips` | fuzz/fuzz_targets/deserialize_v2.rs:17-30 | what was decoded and combined is read back from its own bytes |
| `Flags.AppliedBits` | src/tx_modifiable_flags.rs:86-96 | each bit after one signature, and that the other five never move |
| `Flags.AppliedAllBits` | src/tx_modifiable_flags.rs:86-96 | after any signing sequence inputs stay modifiable iff they were and all are ANYONECANPAY, outputs iff they were and all are NONE, SINGLE is noted iff it was or one is |
| `Flags.OrderIndependent` | src/tx_modifiable_flags.rs:86-96 | neither order nor repetition of signatures matters |
| `Flags.OneWay` | src/tx_modifiable_flags.rs:86-96 | permissions only go, the warning only comes, and a second application changes nothing |
| `Flags.Clearing` | src/tx_modifiable_flags.rs:66-69 | clearing one flag leaves all other bits alone |
| `Flags.Setting` | src/tx_modifiable_flags.rs:57-63 | setting one flag leaves all other bits alone |
| `Flags.TxModifiableFlags.ApplySighash` | src/tx_modifiable_flags.rs:86-96 | the three steps compute the applied byte |
| `Scripts.Templates` | src/map/input.rs:201-232 | script templates exclude one another, and each built script is of its own template |
| `Scripts.TemplateBytes` | src/map/input.rs:201-232 | the templates and built scripts byte by byte |
| `Sighash.StandardTypes` | src/sighash_type.rs:98-155 | which numbers are standard, which base type says NONE and SINGLE, and which bit ANYONECANPAY |
| `Funding.FundingIsAttested` | src/map/input.rs:384-430 | the funding output is that of the named transaction or an unattested witness output, never against the other record; the strict accessor takes the latter for taproot only |
| `Funding.FundingExact` | src/map/input.rs:405-430 | exactly when there is a funding output and which, and exactly when each error is returned |
| `Signable.VerifiedMeans` | src/roles/signer.rs:796-859 | after strict verification the script code is the locking script or the preimage it commits to, and the amount that of the named transaction unless the input is taproot |
| `Signable.TypesExact` | src/map/input.rs:201-232 | each output type if and only if its template, whatever the order of the tests; unknown exactly for other witness programs |
| `Signable.VerifiedIff` | src/roles/signer.rs:796-927 | strict verification, by all it asks of an input, passes if and only if the input is within bounds and fit to sign under some funding output and type, the output is attested or taproot, all scripts and keys are committed to and all existing signatures are of the selected type; and it then gives the evidence for that output and type |
| `Signable.CheckedIff` | src/roles/signer.rs:870-927 | the structural check passes if and only if the input is fit to sign, and gives the evidence for it |
| `Signable.CheckComplaint` | src/roles/signer.rs:870-927 | a failing structural check returns the first complaint in the source's order |
| `Signable.StrictComplaint` | src/roles/signer.rs:796-859 | a failing strict check returns the first of its own complaints |
| `Signable.StrictIsChecked` | src/roles/signer.rs:796-868 | the strict path gives the trusting path's evidence or none |
| `Signable.StandaloneInput` | src/roles/signer.rs:279-308 | standalone evidence is given if and only if the check passes and a taproot input is ANYONECANPAY, with the errors of either |
| `Signable.AnyoneCanPayIsOnePrevout` | src/roles/signer.rs:565-573 | the bit test at admission and the match at signing agree on every valid type |
| `Signable.EcdsaIsTotal` | src/roles/signer.rs:599-633 | no `expect` fails on the ECDSA path, whichever evidence is used; which digest it is, `Signatures.DigestIsCovered` says |
| `Signable.TaprootIsTotal` | src/roles/signer.rs:554-585 | on the taproot path no `expect` fails if and only if the type takes one previous output or all are given |
| `Signable.StandaloneIsTotal` | src/roles/signer.rs:347-382 | standalone evidence always takes the one-prevout branch and its digest is defined |
| `Signable.CollectAll` | src/roles/signer.rs:944-973 | succeeds if and only if every input checks; the set is complete and in order, or the errors are exactly those of the failing inputs |
| `Signable.SigningIsTotal` | src/roles/signer.rs:554-633 | with the count equal to the length a complete set holds input i's funding output at i and every digest any key could ask for is defined |
| `Signable.CountBelowLength` | src/roles/signer.rs:944-973 | with a smaller count exactly the taproot inputs that are not ANYONECANPAY cannot be signed |
| `EdgeCases.CompleteYetUnsignable` | src/roles/signer.rs:944-973 | a PSBT whose count is below its length, a complete set, and a taproot digest that is undefined |
| `Session.SigningSession.EcdsaSignatures` | src/roles/signer.rs:517-552 | one entry for every key the input names and the provider holds, each asked for once; `Signatures.EcdsaSignaturesAre` says over which digest and of which type |
| `Session.SigningSession.TaprootSignatures` | src/roles/signer.rs:429-515 | exactly the key path and leaf signatures that are due: held key, unsigned slot, no leaf hashes for the key path; every key once, its path before its leaves as they are listed |
| `Session.SigningSession.GetInputSigs` | src/roles/signer.rs:347-358 | standalone evidence is signed exactly |
| `Session.SigningSession.GetSome` | src/roles/signer.rs:371-382 | a subset of standalone inputs is signed, each exactly |
| `Session.SigningSession.GetAll` | src/roles/signer.rs:391-406 | a complete set is signed, each input exactly and in order |
| `Session.SigningSession.CompleteSuffices` | src/roles/signer.rs:391-406 | exactly when a complete set suffices for one of its inputs |
| `Session.SignedOfType` | src/roles/signer.rs:429-552 | every signature made with evidence has the type the evidence selected |
| `Signatures.DigestIsCovered` | src/roles/signer.rs:599-633 | by the template of the funding output: witness programs, native or wrapped, are signed over the segwit digest of their own script code and the funding value, everything else over the legacy digest |
| `Signatures.EcdsaSignaturesAre` | src/roles/signer.rs:517-552 | a session's ECDSA signatures are exactly those made with each key held by derivation or else by name, over the digest the spent output's template asks for, of the declared type or SIGHASH_ALL |
| `Signatures.TaprootSignaturesAre` | src/roles/signer.rs:429-585 | a session's taproot signatures are exactly those of held keys over no leaf, tweaked, or over their own unsigned leaves, with one previous output or all as the selected type says |
| `Signer.SignInput` | src/roles/signer.rs:648-705 | verify one input and sign exactly what is due for it, or return its error |
| `Signer.SignAll` | src/roles/signer.rs:669-729 | verify every input; return the errors of exactly those that fail, or, if none does, sign exactly what is due for each, unless a taproot input misses previous outputs |
| `Signer.ApplyFrame` | src/roles/signer.rs:136-182 | a successful apply changes only signature fields and flags, and the flags as the signing sequence says |
| `Signer.ApplyFailsIff` | src/roles/signer.rs:136-139 | apply fails if and only if some entry, even an empty one, is out of bounds |
| `Signer.ApplyWrites` | src/roles/signer.rs:144-178 | every signature handed in stands in its input afterwards and none that stood is gone |
| `Signer.InsertEcdsaExact` | src/roles/signer.rs:152-154 | under each key stands the last signature made for it, or what stood before |
| `Signer.InsertTaprootExact` | src/roles/signer.rs:167-176 | the same for the key path slot and every leaf slot |
| `Signer.AppliedInput` | src/roles/signer.rs:136-182 | after applying, each input holds what stood there overwritten in order by all signatures handed in for its index, and by no others |
| `Signer.AppliedEcdsa` | src/roles/signer.rs:144-156 | under each key of each input stands the last signature handed in for both, or what stood before |
| `Signer.AppliedTaproot` | src/roles/signer.rs:157-178 | the same for the key path slot and every leaf slot |
| `Signer.AppliedFlags` | src/roles/signer.rs:136-182 | each flag afterwards, from the types of the first signatures handed in for each input |
| `Signer.SignedTransaction` | src/psbt.rs:257-279 | PSBTs that differ in signatures and flags only have the same unsigned transaction and id |
| `Signer.VerifiedStays` | src/roles/signer.rs:796-859 | verified signing is closed: every strictly verified input stays verified with the same evidence, all its signatures of the selected type |
| `Signer.CheckPartialSigsSighashType` | src/psbt.rs:456-485 | the loops accept exactly if every input's partial signatures are of its standard target type, and otherwise name the first input that fails and how |
| `Signer.VerifiedPassesCheck` | src/psbt.rs:456-485 | with every input verified the check passes if and only if every declared type is ECDSA-standard or absent |
| `Signer.SignedPassesCheck` | src/psbt.rs:456-485 | after verified signing of a fully verified PSBT the check passes |
| `Signer.Signer.New` | src/roles/signer.rs:49-52 | succeeds exactly if the lock time is determinable, with the cache holding the unsigned transaction |
| `Signer.Signer.GetId` | src/roles/signer.rs:55-57 | the `expect` holds over any run, and the id is that of the original PSBT |
| `Signer.Signer.UnsignedTx` | src/roles/signer.rs:60-62 | over any run the unsigned transaction is the cached one and the original one |
| `Signer.Signer.BeginSession` | src/roles/signer.rs:126-128 | a session sees the PSBT and a cache that is its transaction |
| `Signer.Signer.EcdsaClearTxModifiable` | src/roles/signer.rs:188-190 | moves only the flags and keeps the cache valid |
| `Signer.Signer.Apply` | src/roles/signer.rs:136-182 | the loops compute the applied PSBT; transaction and id are kept |
| `Extractor.NewFinalizer` | src/roles/finalizer/role.rs:37-46 | accepts exactly if all inputs are funded, the lock time is determinable and the partial signatures agree |
| `Extractor.FinalizeAll` | src/roles/finalizer/role.rs:59-79 | for any satisfier: what was found for each unfinished input stands where the template of its funding output puts it, all that served to make it is cleared, the rest kept; final inputs are untouched; the error names the first input that is stuck |
| `Extractor.FinalizedIsPlaced` | src/roles/finalizer/role.rs:107-142 | native witness outputs get the found witness alone, wrapped ones witness and script, all others the script alone, every cleared field is empty, and unknown witness programs have no place |
| `Extractor.FinalFormKeeps` | src/map/input.rs:247-299 | finalizing keeps the place in the transaction, the funding output, silent payment data, proprietary and unknown pairs |
| `Extractor.FinalizeKeeps` | src/map/input.rs:247-299 | finalizing changes neither the transaction, nor the id, nor the fee |
| `Extractor.FirstUncomputedExact` | src/roles/extractor.rs:154-158 | the position found is the first silent payment output without a script |
| `Extractor.ExtractedIsUnsigned` | src/roles/extractor.rs:45-142 | extraction succeeds exactly for what `Extractor::new` accepts, and but for scripts and witnesses, which `Extractor.ExtractedTransaction` gives, the result is the unsigned transaction |
| `Extractor.ExtractedTransaction` | src/map/input.rs:345-359 | a PSBT extracts if and only if every input has a final record, the lock time resolves and no silent payment output is bare; input k of the result has its outpoint, sequence, final script and final witness |
| `Extractor.FoundIsExtracted` | src/roles/extractor.rs:122-142 | what the satisfier found for an input stands in that input of the extracted transaction, as the template of the spent output demands |
| `Extractor.ExtractComplaint` | src/roles/extractor.rs:122-158 | an unfinished input is reported first, then the lock time, then the first bare output |
| `Extractor.FinalizedExtracts` | src/roles/extractor.rs:122-142 | from what a finalizer made extraction fails only for an uncomputed output, and gives the transaction before finalizing |
| `Extractor.SignedIsAccepted` | src/roles/finalizer/role.rs:37-46 | what verified signing hands on, the finalizer accepts |
| `Extractor.SignedFinalizedExtracted` | src/roles/extractor.rs:122-142 | from signing through finalizing to extracting the transaction and the id stay what they were |
| `Extractor.LimitedExtraction` | src/roles/extractor.rs:99-115 | limited extraction succeeds if and only if the fee is known, the transaction extracts and a thousand times the fee, saturating, is below the next rate up times the weight |
| `Extractor.SaturationLetsThrough` | src/roles/extractor.rs:109-113 | where a limit lets a whole 64-bit amount through, saturation lets every fee through |
| `Extractor.TrueRate` | src/roles/extractor.rs:99-115 | everywhere else limited extraction succeeds if and only if the true rate, rounded down, is within the limit |
| `Extractor.DefaultExtraction` | src/roles/extractor.rs:69-79 | at the default limit no transaction that fits a block is extracted above 25000 satoshis per virtual byte, rounded |
| `Fees.Fee` | src/psbt.rs:435-450 | the two loops compute the checked sums and their difference, with the source's errors |
| `Fees.FeeConserves` | src/psbt.rs:435-450 | defined if and only if all inputs are funded, both sums fit 64 bits and inputs cover outputs; then outputs plus fee are the inputs |
| `Fees.FeeUnmoved` | src/psbt.rs:435-450 | equal funding records give equal sums |
| `Roles.Constructor.New` | src/roles/constructor.rs:79-152 | admits a PSBT exactly if bit 0 is set for a type that adds inputs and bit 1 for one that adds outputs |
| `Roles.BuildConstructor` | src/roles/creator.rs:93-152 | whatever the Creator set, the flags of the Constructor it builds say exactly what its type may add |
| `Roles.CreatorSettles` | src/roles/creator.rs:41-73 | whatever a Creator is told in whatever order, the last version and fallback stand, each permission stands if ever given, nothing else moves |
| `Roles.BlankIs` | src/roles/creator.rs:31-38 | a new PSBT is of version 2, transaction version 2, without flags, inputs or outputs |
| `Roles.Clear` | src/roles/signer.rs:188-190 | a Signer clearing flags is the protocol's step, as are all methods of the Constructor and Updater by their own contracts |
| `Roles.Write` | src/roles/signer.rs:136-182 | a Signer applying signatures is the protocol's step, success and failure alike |
| `Roles.Constructor.AddInput` | src/roles/constructor.rs:90-132 | appends the input and counts it |
| `Roles.Constructor.AddOutput` | src/roles/constructor.rs:101-164 | appends and counts an output unless it has a label without an address, which changes nothing |
| `Roles.Constructor.IntoUpdater` | src/roles/constructor.rs:58-60 | both permissions are gone from what comes out |
| `Roles.Updater.Update` | src/roles/updater.rs:123-138 | any change through the view leaves counts, versions, fallback and flags alone |
| `Roles.Updater.IntoSigner` | src/roles/updater.rs:142-148 | the lock time is checked again before signing |
| `Roles.RunSound` | src/roles/constructor.rs:46-106 | every run of the roles keeps the counts equal to the list lengths and a Signer's cache equal to its transaction |
| `Roles.FromCreator` | src/roles/creator.rs:31-151 | the same for every run from a new Creator |
| `Roles.NothingIsAdded` | src/roles/constructor.rs:58-87 | once a Constructor has become an Updater no run of any roles adds an input or output or regains a permission |
| `Roles.ClosingIsPast` | src/roles/constructor.rs:46-60 | turning a Constructor into an Updater fails only for the lock time and takes both permissions |
| `Roles.EndingInputsIsAdvice` | src/roles/constructor.rs:46-94 | within the Constructor an input goes in after `no_more_inputs` exactly as before |
| `Roles.EndingOutputsIsAdvice` | src/roles/constructor.rs:46-118 | an output goes in, or is refused, after `no_more_outputs` exactly as before |
| `Roles.SignersKeep` | src/roles/signer.rs:136-190 | over every run of signing steps transaction and id are kept and only signatures and flags move |

## Left out

- Crate features: `silent-payments` and `miniscript` are taken to be on; serde, base64, hex, `Display`, error sources, reader and writer I/O and `read_limit` are not modelled.
- Hashing, txids, elliptic curve operations, taproot tweaking, BIP-32 derivation and the exact sighash bytes are opaque functions; the sighash cache is the transaction it holds.
- Random auxiliary data of Schnorr signatures: a signature is a function of digest and key.
- Key providers are arbitrary pure functions; a provider's error counts as not having the key, as in the source.
- Session ids: lifetimes that bind evidence to a session become the requirement that evidence is about the session's PSBT.
- Collection order: entries of one collection are written in an order the model leaves open, so nothing depends on the order of keys in a `BTreeMap`.
- Proprietary pairs are keyed by the data of their raw key; `Tables.ProprietaryWritten` and `Tables.ProprietaryRead` relate that data to `ProprietaryKey`.
- When a version-0 unsigned transaction has both key data (or a duplicate) and a wrong declared length, the source reports the key first; the model, which decodes a value before it stores it, reports the length.
- Error payloads and the layers that wrap them are reduced to the kind of error.
- Decoders and encoders of the consensus-encoding crate are known by their formats: a decoder takes bytes until it has its verdict. `UnsignedTxDecoder` stands on its own and is used by the value decoder through its format.
- `Encoder4` and `IterEncoder` belong to the consensus-encoding crate; `PsbtEncoder.StreamEncoder` is their composition as one object: a part is started when the one before it has ended, and an empty list hands out one empty chunk.
- Integer widths: counts and lengths are below the cap, so additions in `usize` do not wrap; sums of amounts are bounded by 64 bits explicitly.
- The satisfier, descriptor inference and the interpreter check of the Finalizer are arbitrary functions; only the use of their results is modelled.
- The Creator and the hand-over between roles are steps of the protocol, without objects of their own.
- `PsbtV0::degraded`, which counts the silent payment fields of a PSBT, and the builder types for inputs and outputs, which set one field each: no other part of the crate relies on anything about them.
- Combiner.CombineXpubs: does not say which of several inconsistent keys is reported, because the order of the loop is left open.
- Signer.SignAll: says nothing of the run in which every input checks and a taproot input misses previous outputs; whether it fails an `expect` depends on the keys held (`Signable.CountBelowLength` is the exact condition for the digest).
- Signer.Signer.Apply: says nothing of the PSBT after a failure, because the Signer is consumed.
- Extractor.FinalizeAll: does not say that final scripts are valid, because that is decided by the satisfier and the interpreter.
- Extractor.LimitedExtraction: the weight of a transaction is an unknown positive number.
