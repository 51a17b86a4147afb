# rs-algorand-sdk: checksummed addresses and the canonical record schema, in Dafny

This project models the core of `rs-algorand-sdk`, a Rust SDK for Algorand, and proves properties of that model. The core has two parts.

**Checksummed address codec** (`src/types/address.rs`).
- An address is 32 bytes. Its text form is those bytes followed by a 4-byte checksum, written in base32 without padding (RFC 4648, section 6, with the padding dropped as section 3.2 allows).
- The checksum is the last 4 bytes of the SHA-512/256 hash of the 32 bytes.
- Parsing checks three things, in this order: the base32 is canonical, at least 32 bytes decode, and the checksum matches.
- Base32 is modelled concretely, bit by bit (module `Base32`).
- SHA-512/256 is a parameter: any function that returns 32-byte digests.
- `Fmt` and `FromStr` are methods that fill byte buffers in place, as the Rust code does. Each is proved equal to a specification function (`ToString`, `Parse`).

**Canonical record schema** (`src/types/transaction.rs`, `block.rs`, `applications.rs`, `asset.rs`, `signature.rs`, `src/util.rs`).
- Every record serialises to a sequence of `(tag, value)` entries. Each entry holds a generic `Value` (module `Schema`).
- A field marked `skip_serializing_if = "is_default"` is left out exactly when it equals its type's default (`OmitIfDefault`).
- Records are entry *sequences* rather than maps, so the two duplicated tags stay visible:
  - `ApplyData` writes `ca` twice.
  - `LogicSig` writes `sig` twice.
- Decoding follows the derived deserialisers:
  - A field is looked up by its tag.
  - An absent field takes its default when it is declared `default`. It is refused when it is not, except that an `Option` field reads as `None`.
  - A repeated known tag is refused.
  - Unknown tags are ignored.
  - When two fields share a tag, that tag names the first of them.
- `#[serde(flatten)]` is modelled by concatenating entry sequences. On decoding, each part claims the entries whose tags it declares (`Claimed`/`Unclaimed`).
- `TxFields` is an internally tagged union: its discriminator is the entry `type`.
- For each record the model proves:
  - its tag set, and that its tags are distinct;
  - the omission rule, field by field;
  - that `type` is exclusive;
  - that list fields keep their order;
  - decode∘encode = id wherever the code supports it.
- Where the code does not support that round trip, the model proves the exact failure instead.

Points where the code's behaviour is easy to misread:
- **Field order.** Fields are written in declaration order. The encoding is not sorted by tag.
- **The `human_readable` test literal.** It has 58 characters: 36 bytes in base32 without padding.
- **Public keys.** `MultisigSubsig.pk`, `votekey` and `selkey` carry `skip_serializing_if = "is_default"`. The default `PublicKey` of ed25519-dalek is the identity point: a 1 followed by 31 zero bytes. So that key is omitted, an all-zero key is written, and an absent key decodes to the identity point (`Basics.DefaultPublicKey`).
- **Declared bounds.** The allocation bounds (`ENCODED_MAX_*`), the asset bounds (`ASSET_*_MAX_LEN`) and the decimals bound are constants that nothing checks. The model states them as predicates and proves that decoding ignores them.

## Model

| member | source | states |
|---|---|---|
| AddressCodec.Checksum | src/types/address.rs:31-34 | the checksum is 4 bytes and is exactly the tail of the 32-byte digest of the address bytes |
| AddressCodec.IsZeroIffAllBytesZero | src/types/address.rs:36-39 | `is_zero` holds exactly when all 32 bytes are zero, i.e. of the derived default |
| AddressCodec.ToStringLength | src/types/address.rs:44-49 | every address text has 58 characters (36 bytes in base32 without padding) |
| AddressCodec.Fmt | src/types/address.rs:44-49 | filling the 36-byte buffer with the bytes and then the checksum, and encoding it, gives `ToString` |
| AddressCodec.WithChecksum | src/types/address.rs:45-47 | the zeroed buffer after both `copy_from_slice` calls holds the address bytes followed by the checksum |
| AddressCodec.Parse | src/types/address.rs:58-86 | `Ok(a)` is returned only for the text `ToString(a)` |
| AddressCodec.FromStr | src/types/address.rs:58-86 | the in-place parse returns exactly what `Parse` specifies, including the panic outcome |
| AddressCodec.CopyPrefix | src/types/address.rs:66-71 | the `short` buffer holds the first 32 decoded bytes |
| AddressCodec.ParseToString | src/types/address.rs:94-100 | round trip: every address parses back from its text |
| AddressCodec.ParseOkIffCanonical | src/types/address.rs:80-85 | a parse succeeds exactly on the canonical texts of addresses |
| AddressCodec.ParseOkDecodes36 | src/types/address.rs:80-85 | a successful parse decoded exactly 36 bytes |
| AddressCodec.ParseErrors | src/types/address.rs:59-78 | InvalidBase32 iff base32 fails; WrongLength iff fewer than 32 bytes decode; InvalidChecksum iff the last 4 bytes differ from the checksum of the first 32; in that order |
| AddressCodec.ParsePanics | src/types/address.rs:80-83 | the `unreachable!()` branch is taken exactly when at least 32 bytes decode, the checksum matches, and the length is not 36 |
| AddressCodec.ForeignCharacterIsInvalidBase32 | src/types/address.rs:59-64 | a character outside the alphabet gives InvalidBase32 |
| AddressCodec.BadLengthIsInvalidBase32 | src/types/address.rs:59-64 | a length that base32 cannot produce gives InvalidBase32 |
| AddressCodec.EmptyIsWrongLength | src/types/address.rs:102-106 | the empty text gives WrongLength |
| AddressCodec.LastCharacterReplaced | src/types/address.rs:108-130 | replacing the last character by `1` or by a space gives InvalidBase32 |
| AddressCodec.CharacterPrepended | src/types/address.rs:132-141 | a character put in front of an address text gives InvalidBase32 |
| AddressCodec.FirstCharacterReplaced | src/types/address.rs:143-154 | replacing the first character by another symbol gives InvalidChecksum or a different parse, never the original address |
| AddressCodec.NonCanonicalLiteral | src/types/address.rs:174-184 | the test literal ending in `ELV` has non-zero trailing bits and gives InvalidBase32 |
| AddressCodec.PanicOnOverlongInput | src/types/address.rs:80-83 | the 37-byte text `a ++ [x] ++ checksum(a)` reaches the panic |
| AddressCodec.ParseCheckedSound | src/types/address.rs:58-86 | the corrected parse accepts exactly the canonical texts and agrees with `Parse` wherever `Parse` succeeds |
| AddressCodec.ParseCheckedNeverPanics | src/types/address.rs:80-85 | the corrected parse fails exactly where the original does not succeed |
| Base32.EncodeLength | src/types/address.rs:48 | n bytes encode to ceil(8n/5) characters |
| Base32.DecodeEncode | src/types/address.rs:48 | every byte string survives an encode-then-decode round trip |
| Base32.EncodeDecode | src/types/address.rs:59 | a text that decodes is the encoding of what it decodes to, so decoding accepts only canonical text |
| Base32.RejectsForeignCharacter | src/types/address.rs:59-64 | a character outside `A-Z2-7` makes decoding fail |
| Base32.RejectsLength | src/types/address.rs:59-64 | a length that leaves five or more bits after the last byte makes decoding fail |
| Base32.RejectsTrailingBits | src/types/address.rs:174-184 | with 8q+2 characters, non-zero unused bits in the last symbol make decoding fail |
| Base32.DecodesWithTwoTrailingBits | src/types/address.rs:167-172 | with 8q+2 symbols whose last leaves its two unused bits zero, decoding gives 5q+1 bytes |
| Base32.DecodedWithTwoTrailingBits | src/types/address.rs:174-184 | a text of 8q+2 characters that decodes has zero unused bits in its last symbol |
| Util.IsZeroIffAllBytesZero | src/util.rs:8-10 | `is_zero` holds exactly when all 64 signature bytes are zero |
| Schema.EmitSound | src/util.rs:4-6 | every written entry is some non-skipped field, under its own tag and value |
| Schema.EmitAllSkipped | src/util.rs:4-6 | a record whose fields are all at their defaults writes nothing |
| Schema.EmitNoneSkipped | src/util.rs:4-6 | a record with no default field writes every field, in declaration order |
| Schema.FieldRoundTrip | src/util.rs:4-6 | a field omitted exactly when default, among distinct tags, reads back as its value |
| Schema.SharedTagPair | src/types/signature.rs:44-50 | two fields sharing a tag: missing when both are skipped, the one written when only one is, repeated when both are |
| Schema.Collect | src/types/transaction.rs:189-190 | decoding a list succeeds exactly when every item decodes, giving the items in order |
| Schema.DecodeMap | src/types/block.rs:234-237 | decoding a map succeeds exactly when every value decodes, keeping the keys |
| Schema.DecodeEncodeMap | src/types/block.rs:234-237 | a map whose values round-trip reads back whole |
| Signatures.DefaultSignatureIsZero | src/types/signature.rs:57-61 | `Signature::default()` is the all-zero signature, which `is_zero` accepts |
| Signatures.SubsigOmission | src/types/signature.rs:13-20 | `pk` is written unless the key is the default key (the identity point); `s` is written exactly when a signature is present |
| Signatures.ZeroKeyWritten | src/types/signature.rs:16-17 | an all-zero key is written under `pk`, and a record without `pk` or `s` decodes to the default key with no signature |
| Signatures.SubsigRoundTrip | src/types/signature.rs:13-20 | a subsignature reads back as written |
| Signatures.MultisigOmission | src/types/signature.rs:22-31 | `v`, `thr` and `subsig` are written exactly when non-zero or non-empty |
| Signatures.DefaultMultisigIsEmpty | src/types/signature.rs:23-31 | the default multisignature is an empty record |
| Signatures.SubsigOrder | src/types/signature.rs:29-30 | `subsig` has one item per subsignature, in order, each decoding to its subsignature |
| Signatures.SubsigListRoundTrip | src/types/signature.rs:29-30 | the subsignature list reads back in order |
| Signatures.MultisigRoundTrip | src/types/signature.rs:22-31 | a multisignature reads back as written |
| Signatures.LogicSigOmission | src/types/signature.rs:38-55 | `l` and `arg` are written exactly when non-empty, and `arg` keeps the arguments in order |
| Signatures.LogicSigSharedTag | src/types/signature.rs:44-50 | with both a signature and a multisignature, `sig` occurs twice and holds both |
| Signatures.LogicSigSingleSig | src/types/signature.rs:44-50 | with at most one of them set, `sig` holds the one that is set, or is absent |
| Signatures.LogicSigRoundTrip | src/types/signature.rs:38-55 | a logic signature without a multisignature reads back as written |
| Signatures.LogicSigMultisigLost | src/types/signature.rs:48-50 | a logic signature with a multisignature does not decode |
| Assets.Utf8Len | src/types/asset.rs:9-16 | the byte length of a string is between its length in characters and four times that |
| Assets.Utf8LenAscii | src/types/asset.rs:9-16 | an ASCII string has as many bytes as characters |
| Assets.AssetParamsTagsDistinct | src/types/asset.rs:29-79 | the eleven tags t, dc, df, un, an, au, am, m, r, f, c are in declaration order and all different |
| Assets.AssetParamsOmission | src/types/asset.rs:29-79 | each field is written under its tag exactly when it differs from its default; the four addresses are omitted exactly when zero |
| Assets.DefaultAssetParamsIsEmpty | src/types/asset.rs:29 | the default parameters are an empty record |
| Assets.AssetParamsRoundTrip | src/types/asset.rs:29-79 | asset parameters read back as written |
| Assets.DefaultWithinBounds | src/types/asset.rs:9-22 | the default parameters meet the declared length and decimals bounds |
| Assets.DecodeIgnoresBounds | src/types/asset.rs:21-22 | a record with 20 decimals still decodes: the bound is not enforced |
| Applications.AsOnCompletion | src/types/applications.rs:56-82 | a completion is read only from its own name |
| Applications.OnCompletionNames | src/types/applications.rs:56-82 | the six completions have six distinct names, and each reads back |
| Applications.StateSchemaOmission | src/types/applications.rs:84-91 | `nui` and `nbs` are written exactly when non-zero; the zero schema is an empty record |
| Applications.StateSchemaRoundTrip | src/types/applications.rs:84-91 | a schema reads back as written |
| Applications.AppCallTagsDistinct | src/types/applications.rs:28-53 | the eleven tags apid … apep are in declaration order and all different |
| Applications.AppCallOmission | src/types/applications.rs:28-53 | scalars and schemas are written exactly when non-default; a `NoOpOC` call has no `apan` |
| Applications.AppCallListsOmission | src/types/applications.rs:35-50 | the four lists and two programs are written exactly when non-empty, and the lists keep their order |
| Applications.DefaultAppCallIsEmpty | src/types/applications.rs:28-53 | the default call fields write nothing |
| Applications.AppCallRoundTrip | src/types/applications.rs:28-53 | call fields read back as written |
| Applications.DecodeIgnoresAllocationBounds | src/types/applications.rs:11-25 | a call with more than 32 foreign apps still decodes: the bound is not enforced |
| Transactions.HeaderTagsDistinct | src/types/transaction.rs:21-55 | the header tags snd, fee, fv, lv, note, gen, gh, grp, lx, rekey are all different |
| Transactions.HeaderOmission1 | src/types/transaction.rs:21-35 | snd, fee, fv, lv and note are each written exactly when non-default |
| Transactions.HeaderOmission2 | src/types/transaction.rs:32-54 | gen, gh, grp, lx and rekey are each written exactly when non-default |
| Transactions.HeaderRoundTrip | src/types/transaction.rs:21-55 | a header reads back as written |
| Transactions.SenderOnlyHeader | src/types/transaction.rs:21-55 | a header that is default except for its sender is the single entry `snd` |
| Transactions.DefaultHeaderIsEmpty | src/types/transaction.rs:20-55 | the default header writes nothing |
| Transactions.KeyregTagsDistinct | src/types/transaction.rs:95-109 | the key-registration tags are all different |
| Transactions.KeyregOmission | src/types/transaction.rs:95-109 | each key-registration field is written exactly when non-default; `votekey` and `selkey` are compared with the default key, the identity point |
| Transactions.KeyregRoundTrip | src/types/transaction.rs:95-109 | key-registration fields read back as written |
| Transactions.PaymentTagsDistinct | src/types/transaction.rs:112-123 | rcv, amt and close are all different |
| Transactions.PaymentOmission | src/types/transaction.rs:112-123 | rcv and amt are written when non-default; close is written exactly when `Some`, even `Some(zero address)` |
| Transactions.PaymentRoundTrip | src/types/transaction.rs:112-123 | payment fields read back as written |
| Transactions.AssetConfigTagsDistinct | src/types/transaction.rs:126-137 | caid and apar are different |
| Transactions.AssetConfigOmission | src/types/transaction.rs:126-137 | caid is omitted when 0 (creation); apar is omitted when default |
| Transactions.AssetConfigRoundTrip | src/types/transaction.rs:126-137 | asset-configuration fields read back as written |
| Transactions.AssetDestroyEntries | src/types/transaction.rs:126-137 | destroying an asset (default parameters, non-zero id) is the single entry `caid` |
| Transactions.AssetTransferTagsDistinct | src/types/transaction.rs:140-165 | xaid, aamt, asnd, arcv and aclose are all different |
| Transactions.AssetTransferOmission | src/types/transaction.rs:140-165 | each asset-transfer field is written exactly when non-default |
| Transactions.AssetTransferRoundTrip | src/types/transaction.rs:140-165 | asset-transfer fields read back as written |
| Transactions.AssetFreezeTagsDistinct | src/types/transaction.rs:168-181 | fadd, faid and afrz are all different |
| Transactions.AssetFreezeOmission | src/types/transaction.rs:168-181 | each asset-freeze field is written exactly when non-default |
| Transactions.AssetFreezeRoundTrip | src/types/transaction.rs:168-181 | asset-freeze fields read back as written |
| Transactions.TypeNamesDistinct | src/types/transaction.rs:57-74 | the discriminators keyreg, pay, acfg, axfer, afrz, appl are pairwise different, and each variant has its own |
| Transactions.TagSetsDisjoint | src/types/transaction.rs:57-74 | `type`, the header tags and each variant's tags are pairwise disjoint |
| Transactions.VariantEntryTags | src/types/transaction.rs:57-74 | every entry of a variant carries one of that variant's tags |
| Transactions.TxFieldsRoundTrip | src/types/transaction.rs:57-74 | a body holds `type` exactly once, with its variant's name, and reads back as written |
| Transactions.BodyForeignToHeader | src/types/transaction.rs:10-17 | no body entry carries a header tag, so flattening cannot mix them |
| Transactions.HeaderTagsForeign | src/types/transaction.rs:10-74 | `type` is no header tag, and no variant shares a tag with the header or with `type` |
| Transactions.TransactionTags | src/types/transaction.rs:10-17 | a transaction's entries carry header tags, `type`, or its own variant's tags, and no other variant's |
| Transactions.TransactionParts | src/types/transaction.rs:10-17 | the header claims exactly the header's entries; the body gets exactly `type` and the variant's entries |
| Transactions.TransactionRoundTrip | src/types/transaction.rs:10-74 | a transaction reads back as written |
| Transactions.MissingTypeRejected | src/types/transaction.rs:57-59 | a record without `type`, or with it twice, is refused |
| Transactions.UnknownKindRejected | src/types/transaction.rs:57-74 | a body whose `type` names none of the six kinds is refused |
| Transactions.UnknownTypeRejected | src/types/transaction.rs:57-74 | a `type` naming none of the six kinds is refused |
| Transactions.SignedTxTagsDistinct | src/types/transaction.rs:80-92 | sig, msig, lsig, txn and sgnr are all different |
| Transactions.SignedTxOmission | src/types/transaction.rs:80-92 | `txn` is always written; sig, msig, lsig and sgnr are written exactly when non-default |
| Transactions.SignedTxRoundTrip | src/types/transaction.rs:80-92 | a signed transaction whose logic signature has no multisignature reads back as written |
| Transactions.MissingTxnRejected | src/types/transaction.rs:88-89 | a signed transaction without `txn` is refused |
| Transactions.LogicSigFieldLost | src/types/transaction.rs:86-87 | a logic signature with a multisignature makes `lsig` unreadable |
| Transactions.LogicSigMultisigLost | src/types/transaction.rs:86-87 | such a signed transaction does not decode |
| Transactions.DigestListRoundTrip | src/types/transaction.rs:189-190 | a list of digests reads back in order |
| Transactions.TxGroupTagsDistinct | src/types/transaction.rs:184-191 | the group's tags are distinct |
| Transactions.TxGroupOmission | src/types/transaction.rs:184-191 | `txlist` is written exactly when the group is non-empty |
| Transactions.TxGroupRoundTrip | src/types/transaction.rs:184-191 | a group reads back as written |
| Transactions.TxGroupOrder | src/types/transaction.rs:189-190 | `txlist` has one item per hash, in order |
| Blocks.RewardsStateTagsDistinct | src/types/block.rs:113-136 | the six rewards tags are the plain field names, all different |
| Blocks.RewardsStateWritten | src/types/block.rs:113-136 | every rewards field is always written, with its value |
| Blocks.RewardsStateAllWritten | src/types/block.rs:113-136 | the entries' tags are exactly the field names, in declaration order |
| Blocks.RewardsStateRoundTrip | src/types/block.rs:113-136 | a rewards state reads back as written |
| Blocks.UpgradeVoteTagsDistinct | src/types/block.rs:139-149 | upgrade_propose, upgrade_delay and upgrade_approve are all different |
| Blocks.UpgradeVoteWritten | src/types/block.rs:139-149 | every vote field is always written |
| Blocks.UpgradeVoteRoundTrip | src/types/block.rs:139-149 | a vote reads back as written |
| Blocks.UpgradeStateTagsDistinct | src/types/block.rs:155-167 | proto, nextproto, nextyes, nextbefore and nextswitch are all different |
| Blocks.UpgradeStateWritten | src/types/block.rs:155-167 | every field is always written; an absent next protocol is written as nil |
| Blocks.UpgradeStateRoundTrip | src/types/block.rs:155-167 | an upgrade state reads back as written |
| Blocks.NextProtocolMayBeAbsent | src/types/block.rs:159-160 | a record without `nextproto` reads it as `None` |
| Blocks.BlockHeaderTagsDistinct | src/types/block.rs:23-104 | the header's ten written tags are plain field names, all different |
| Blocks.BlockHeaderWritten1 | src/types/block.rs:24-38 | round, branch, seed, tx_root and timestamp are always written, with their values |
| Blocks.BlockHeaderWritten2 | src/types/block.rs:40-103 | genesis_id, genesis_hash, rewards_state, upgrade_vote and tx_counter are always written, with their values |
| Blocks.BlockHeaderAllWritten | src/types/block.rs:23-104 | the entries' tags are exactly the ten field names in order; `upgrade_state` never appears and does not affect the entries |
| Blocks.BlockHeaderRoundTrip | src/types/block.rs:23-104 | a header reads back with its upgrade state reset to the default |
| Blocks.AsDeltaAction | src/types/block.rs:250-260 | an action is read only from its own name |
| Blocks.DeltaActionNames | src/types/block.rs:250-266 | the four actions have distinct names, and each reads back |
| Blocks.ValueDeltaTagsDistinct | src/types/block.rs:239-248 | at, bs and ui are all different |
| Blocks.ValueDeltaOmission | src/types/block.rs:239-248 | at, bs and ui are each written exactly when non-default |
| Blocks.ValueDeltaRoundTrip | src/types/block.rs:239-248 | a value delta reads back as written |
| Blocks.InvalidNeverWritten | src/types/block.rs:240-266 | no entry of a value delta is `at = Invalid`, because Invalid is the default |
| Blocks.AsStateDelta | src/types/block.rs:234-237 | a decoded state delta has exactly the keys of the map it was read from |
| Blocks.StateDeltaRoundTrip | src/types/block.rs:234-237 | a state delta reads back key by key |
| Blocks.AsLocalDeltas | src/types/block.rs:222-225 | decoded local deltas have exactly the keys read; keys beyond `u64` are refused |
| Blocks.LocalDeltasRoundTrip | src/types/block.rs:222-225 | local deltas read back key by key |
| Blocks.EvalDeltaTagsDistinct | src/types/block.rs:217-232 | gd, ld, lg and itx are all different |
| Blocks.EvalDeltaOmission | src/types/block.rs:217-232 | gd, ld, lg and itx are each written exactly when non-empty; lg and itx keep their order |
| Blocks.DefaultEvalDeltaIsEmpty | src/types/block.rs:217-218 | the default evaluation delta is an empty record |
| Blocks.ClosingAmountTag | src/types/block.rs:193-199 | `ca` is missing when both closing amounts are zero, holds the non-zero one when only one is non-zero, and is repeated when both are non-zero |
| Blocks.ApplyDataOmission | src/types/block.rs:200-214 | rs, rr, rc, dt, caid and apid are each written exactly when non-default |
| Blocks.SignedTxWithADParts | src/types/block.rs:181-188 | on reading the flattened pair, the signed transaction claims exactly its own entries and the apply data gets the rest |
| Blocks.SignedTxWithADTagsOf | src/types/block.rs:181-188 | every entry carries a signed-transaction tag or an apply-data tag |
| Blocks.ClosingAmountRead | src/types/block.rs:193-199 | when one closing amount is zero, `ca` reads back as the other one, into `closing_amount` |
| Blocks.ApplyDataRoundTrip | src/types/block.rs:191-215 | apply data reads back, with an asset closing amount moved into the closing amount when that is zero |
| Blocks.BothClosingAmountsRejected | src/types/block.rs:193-199 | apply data with both closing amounts non-zero does not decode |
| Blocks.EvalDeltaRoundTrip | src/types/block.rs:217-232 | an evaluation delta, inner transactions included, reads back as written |
| Blocks.InnerTxsRoundTrip | src/types/block.rs:230-231 | the inner transactions read back in order |
| Blocks.SignedTxWithADRoundTrip | src/types/block.rs:181-188 | a faithful signed transaction with apply data reads back as written, recursively through its inner transactions |
| Blocks.InBlockParts | src/types/block.rs:169-179 | `hgi` and `hgh` are claimed by name; every other entry goes to the flattened transaction |
| Blocks.InBlockOmission | src/types/block.rs:175-178 | `hgi` and `hgh` are written only when true |
| Blocks.SignedTxInBlockRoundTrip | src/types/block.rs:169-179 | a signed transaction in a block reads back as written |
| Blocks.AsPayset | src/types/block.rs:106-110 | a payset is read as a bare array with one transaction per item |
| Blocks.PaysetRoundTrip | src/types/block.rs:106-110 | a payset reads back in its order and length |

## Left out

- SHA-512/256 and Ed25519 internals. The hash is a parameter that returns 32 bytes. Public keys and signatures are opaque 32- and 64-byte values.
- The msgpack byte layout and the serde machinery. Records are modelled at the level of tagged entries, so byte arrays, `Digest` and `Vec<u8>` are all `Bytes`. serde's distinction between a tuple of bytes and a byte string is not modelled.
- Byte-level determinism of `HashMap` fields (`StateDelta`, local deltas). They are Dafny maps, with unique keys and no order. What happens when a key repeats on the wire is not modelled.
- `MicroAlgos::to_algos` and `from_algos`: these are floating point. `MicroAlgos`, `Round` and `Digest` are plain `u64` and 32-byte values.
- `Block` itself (src/types/block.rs:15-19): it has no `Serialize`, so it has no encoding of its own. Its `Payset` and `BlockHeader` are modelled.
- Consensus semantics described only in comments: rewards accrual, upgrade-state derivation, leases, rekeying and group hashing.
- src/types/auction.rs is not part of the compiled crate. src/types/mod.rs only re-exports.
- Public-key validity. ed25519-dalek refuses to deserialise 32 bytes that are not a valid compressed Edwards point. The model reads any 32 bytes as a key (`AsBytes32` in `Signatures.DecodeSubsig` and `Transactions.DecodeKeyreg`), because curve arithmetic is out of scope.
- Unit enum variants (`OnCompletion`, `DeltaAction`) and the `type` discriminator of `TxFields` are represented by their variant name. serde hands a serializer both the name and the index of a unit variant, and which one the msgpack encoder writes depends on its configuration.
  - The derived variant identifier also reads a variant index (an integer) or a byte string.
  - `Transactions.DecodeTxFields`, `Applications.AsOnCompletion` and `Blocks.AsDeltaAction` accept only the text name. They refuse the index and byte-string forms that the derived deserialiser accepts.
- Signature validity. `Signatures.AsSignature` accepts any 64 bytes as a signature. The `ed25519` crate's `Signature` conversion may refuse a last byte with any of its top three bits set, depending on the crate version. That check is not modelled.
- `Fmt` and `FromStr` return the text and the outcome. The `fmt::Formatter` they write to is not modelled.
- The declared bounds are not enforced anywhere in the code:
  - `ENCODED_MAX_*` (src/types/applications.rs:11-25);
  - `ASSET_*` (src/types/asset.rs:9-22).
  So they are predicates (`Applications.WithinAllocationBounds`, `Assets.WithinBounds`) that no decoder checks.
- Signatures.LogicSigRoundTrip: round trip holds only without a multisignature. With one, the duplicate `sig` makes the derived decoder refuse the record (`Signatures.LogicSigMultisigLost`).
- Transactions.SignedTxRoundTrip: holds only when the logic signature, if any, has no multisignature, for the same reason (`Transactions.LogicSigMultisigLost`).
- Blocks.ApplyDataRoundTrip: `asset_closing_amount` never survives, because the shared tag `ca` names the first field.
  - With only the asset amount set, it is read back as the closing amount.
  - With both set, decoding fails.
  - `Blocks.Faithful` names the transactions, nested ones included, for which the round trip is exact.
- Blocks.BlockHeaderRoundTrip: `upgrade_state` is `#[serde(skip)]`, so it always reads back as its default.

## Findings

| source | as written | input that shows it | evidently intended | confidence | as-written member | corrected member |
|---|---|---|---|---|---|---|
| src/types/address.rs:80-83 | after the checksum check, a text that does not re-encode to itself hits `unreachable!()`, but it is reachable: the length is only checked to be at least 32, and the checksum is taken from the last 4 decoded bytes | the base32 text of `a ++ [x] ++ checksum(a)`, 37 bytes and 60 characters, for any address `a` and byte `x` | a decoded length other than 36 is refused with `WrongLength`, so only canonical 58-character texts parse and nothing panics | not executed | AddressCodec.PanicOnOverlongInput | AddressCodec.ParseChecked |
