/**
  Transactions (src/types/transaction.rs): the header every transaction carries,
  the six kinds of transaction body, the signed transaction, and the group of
  transaction hashes.

  A `Transaction` flattens its header and its body into one record. The body is
  an internally tagged enum: its entries follow a "type" entry naming the kind.
  Decoding mirrors serde: the header claims the entries with its own tags, the
  body decodes from what is left, reading "type" first and the variant's fields
  from the rest.
 */
module Transactions {
  import opened Wrappers
  import opened Basics
  import opened Schema
  import AddressCodec
  import Signatures
  import Assets
  import Applications

  type Address = AddressCodec.Address

  const ZeroAddress: Address := AddressCodec.ZeroAddress

  type AssetIndex = u64

  /** The fields common to every transaction. */
  datatype Header = Header(
    sender: Address,
    fee: MicroAlgos,
    firstValid: Round,
    lastValid: Round,
    note: seq<byte>,
    genesisId: string,
    genesisHash: Digest,
    group: Digest,
    lease: Bytes32,
    rekeyTo: Address)

  const DefaultHeader: Header :=
    Header(ZeroAddress, 0, 0, 0, [], "", Zero32, Zero32, Zero32, ZeroAddress)

  function HeaderSpecs(h: Header): seq<FieldSpec>
  {
    [ OmitIfDefault("snd", h.sender, ZeroAddress, AddressValue(h.sender)),
      OmitIfDefault("fee", h.fee, 0, UInt(h.fee)),
      OmitIfDefault("fv", h.firstValid, 0, UInt(h.firstValid)),
      OmitIfDefault("lv", h.lastValid, 0, UInt(h.lastValid)),
      OmitIfDefault("note", h.note, [], Bytes(h.note)),
      OmitIfDefault("gen", h.genesisId, "", Text(h.genesisId)),
      OmitIfDefault("gh", h.genesisHash, Zero32, Bytes(h.genesisHash)),
      OmitIfDefault("grp", h.group, Zero32, Bytes(h.group)),
      OmitIfDefault("lx", h.lease, Zero32, Bytes(h.lease)),
      OmitIfDefault("rekey", h.rekeyTo, ZeroAddress, AddressValue(h.rekeyTo)) ]
  }

  const HeaderTags: seq<Tag> := ["snd", "fee", "fv", "lv", "note", "gen", "gh", "grp", "lx", "rekey"]

  function HeaderEntries(h: Header): seq<Entry>
  {
    Emit(HeaderSpecs(h))
  }

  function DecodeHeader(es: seq<Entry>): Option<Header>
  {
    var sender :- OptionalField(es, "snd", ZeroAddress, AsAddress);
    var fee :- OptionalField(es, "fee", 0, AsU64);
    var firstValid :- OptionalField(es, "fv", 0, AsU64);
    var lastValid :- OptionalField(es, "lv", 0, AsU64);
    var note :- OptionalField(es, "note", [], AsBytes);
    var genesisId :- OptionalField(es, "gen", "", AsText);
    var genesisHash :- OptionalField(es, "gh", Zero32, AsBytes32);
    var group :- OptionalField(es, "grp", Zero32, AsBytes32);
    var lease :- OptionalField(es, "lx", Zero32, AsBytes32);
    var rekeyTo :- OptionalField(es, "rekey", ZeroAddress, AsAddress);
    Some(Header(sender, fee, firstValid, lastValid, note, genesisId, genesisHash, group, lease, rekeyTo))
  }

  /** The 10 tags are all different. */
  lemma HeaderTagsDistinct()
    ensures Distinct(HeaderTags)
  {
  }

  /** The fields carry these tags, in declaration order. */
  lemma HeaderSpecsTags(h: Header)
    ensures Tags(HeaderSpecs(h)) == HeaderTags
  {
  }

  /** Each of these fields is written exactly when it differs from its default. */
  lemma HeaderOmission1(h: Header)
    ensures var es := HeaderEntries(h);
            && Get(es, "snd") == (if h.sender == ZeroAddress then None else Some(AddressValue(h.sender)))
            && Get(es, "fee") == (if h.fee == 0 then None else Some(UInt(h.fee)))
            && Get(es, "fv") == (if h.firstValid == 0 then None else Some(UInt(h.firstValid)))
            && Get(es, "lv") == (if h.lastValid == 0 then None else Some(UInt(h.lastValid)))
            && Get(es, "note") == (if h.note == [] then None else Some(Bytes(h.note)))
  {
    var fs := HeaderSpecs(h);
    HeaderSpecsTags(h);
    HeaderTagsDistinct();
    GetEmit(fs, 0);
    GetEmit(fs, 1);
    GetEmit(fs, 2);
    GetEmit(fs, 3);
    GetEmit(fs, 4);
  }

  /** Each of these fields is written exactly when it differs from its default. */
  lemma HeaderOmission2(h: Header)
    ensures var es := HeaderEntries(h);
            && Get(es, "gen") == (if h.genesisId == "" then None else Some(Text(h.genesisId)))
            && Get(es, "gh") == (if h.genesisHash == Zero32 then None else Some(Bytes(h.genesisHash)))
            && Get(es, "grp") == (if h.group == Zero32 then None else Some(Bytes(h.group)))
            && Get(es, "lx") == (if h.lease == Zero32 then None else Some(Bytes(h.lease)))
            && Get(es, "rekey") == (if h.rekeyTo == ZeroAddress then None else Some(AddressValue(h.rekeyTo)))
  {
    var fs := HeaderSpecs(h);
    HeaderSpecsTags(h);
    HeaderTagsDistinct();
    GetEmit(fs, 5);
    GetEmit(fs, 6);
    GetEmit(fs, 7);
    GetEmit(fs, 8);
    GetEmit(fs, 9);
  }

  lemma HeaderRoundTrip(h: Header)
    ensures DecodeHeader(HeaderEntries(h)) == Some(h)
  {
    HeaderDecode1(h);
    HeaderDecode2(h);
    HeaderDecode3(h);
    DecodeHeaderOf(HeaderEntries(h), h);
  }

  lemma HeaderDecode1(h: Header)
    ensures var es := HeaderEntries(h);
            && OptionalField(es, "snd", ZeroAddress, AsAddress) == Some(h.sender)
            && OptionalField(es, "fee", 0, AsU64) == Some(h.fee)
            && OptionalField(es, "fv", 0, AsU64) == Some(h.firstValid)
            && OptionalField(es, "lv", 0, AsU64) == Some(h.lastValid)
  {
    var fs := HeaderSpecs(h);
    HeaderSpecsTags(h);
    HeaderTagsDistinct();
    FieldRoundTrip(fs, 0, h.sender, ZeroAddress, AsAddress);
    FieldRoundTrip(fs, 1, h.fee, 0, AsU64);
    FieldRoundTrip(fs, 2, h.firstValid, 0, AsU64);
    FieldRoundTrip(fs, 3, h.lastValid, 0, AsU64);
  }

  lemma HeaderDecode2(h: Header)
    ensures var es := HeaderEntries(h);
            && OptionalField(es, "note", [], AsBytes) == Some(h.note)
            && OptionalField(es, "gen", "", AsText) == Some(h.genesisId)
            && OptionalField(es, "gh", Zero32, AsBytes32) == Some(h.genesisHash)
            && OptionalField(es, "grp", Zero32, AsBytes32) == Some(h.group)
  {
    var fs := HeaderSpecs(h);
    HeaderSpecsTags(h);
    HeaderTagsDistinct();
    FieldRoundTrip(fs, 4, h.note, [], AsBytes);
    FieldRoundTrip(fs, 5, h.genesisId, "", AsText);
    FieldRoundTrip(fs, 6, h.genesisHash, Zero32, AsBytes32);
    FieldRoundTrip(fs, 7, h.group, Zero32, AsBytes32);
  }

  lemma HeaderDecode3(h: Header)
    ensures var es := HeaderEntries(h);
            && OptionalField(es, "lx", Zero32, AsBytes32) == Some(h.lease)
            && OptionalField(es, "rekey", ZeroAddress, AsAddress) == Some(h.rekeyTo)
  {
    var fs := HeaderSpecs(h);
    HeaderSpecsTags(h);
    HeaderTagsDistinct();
    FieldRoundTrip(fs, 8, h.lease, Zero32, AsBytes32);
    FieldRoundTrip(fs, 9, h.rekeyTo, ZeroAddress, AsAddress);
  }

  /** The decoder assembles the record from what each tag reads as. */
  lemma DecodeHeaderOf(es: seq<Entry>, h: Header)
    requires OptionalField(es, "snd", ZeroAddress, AsAddress) == Some(h.sender)
    requires OptionalField(es, "fee", 0, AsU64) == Some(h.fee)
    requires OptionalField(es, "fv", 0, AsU64) == Some(h.firstValid)
    requires OptionalField(es, "lv", 0, AsU64) == Some(h.lastValid)
    requires OptionalField(es, "note", [], AsBytes) == Some(h.note)
    requires OptionalField(es, "gen", "", AsText) == Some(h.genesisId)
    requires OptionalField(es, "gh", Zero32, AsBytes32) == Some(h.genesisHash)
    requires OptionalField(es, "grp", Zero32, AsBytes32) == Some(h.group)
    requires OptionalField(es, "lx", Zero32, AsBytes32) == Some(h.lease)
    requires OptionalField(es, "rekey", ZeroAddress, AsAddress) == Some(h.rekeyTo)
    ensures DecodeHeader(es) == Some(h)
  {
  }

  /** A header whose only non-default field is the sender is the single entry `snd`. */
  lemma SenderOnlyHeader(sender: Address)
    requires sender != ZeroAddress
    ensures HeaderEntries(DefaultHeader.(sender := sender)) == [Entry("snd", AddressValue(sender))]
  {
    var fs := HeaderSpecs(DefaultHeader.(sender := sender));
    assert fs == fs[..1] + fs[1..];
    EmitAppend(fs[..1], fs[1..]);
    EmitAllSkipped(fs[1..]);
    assert Emit(fs[..1]) == Head(fs[0]) + Emit([]) by {
      assert fs[..1][1..] == [];
    }
  }

  lemma DefaultHeaderIsEmpty()
    ensures HeaderEntries(DefaultHeader) == []
  {
    var fs := HeaderSpecs(DefaultHeader);
    assert fs[0].skip && fs[1].skip && fs[2].skip && fs[3].skip && fs[4].skip;
    assert fs[5].skip && fs[6].skip && fs[7].skip && fs[8].skip && fs[9].skip;
    EmitAllSkipped(fs);
  }

  // The bodies of the six kinds of transaction.

  /** The body of a key registration. */
  datatype KeyregFields = KeyregFields(
    votePk: PublicKey,
    selectionPk: PublicKey,
    voteFirst: Round,
    voteLast: Round,
    voteKeyDilution: u64,
    nonparticipation: bool)

  function KeyregSpecs(k: KeyregFields): seq<FieldSpec>
  {
    [ OmitIfDefault("votekey", k.votePk, DefaultPublicKey, Bytes(k.votePk)),
      OmitIfDefault("selkey", k.selectionPk, DefaultPublicKey, Bytes(k.selectionPk)),
      OmitIfDefault("votefst", k.voteFirst, 0, UInt(k.voteFirst)),
      OmitIfDefault("votelst", k.voteLast, 0, UInt(k.voteLast)),
      OmitIfDefault("votekd", k.voteKeyDilution, 0, UInt(k.voteKeyDilution)),
      OmitIfDefault("nonpart", k.nonparticipation, false, Bool(k.nonparticipation)) ]
  }

  const KeyregTags: seq<Tag> := ["votekey", "selkey", "votefst", "votelst", "votekd", "nonpart"]

  function KeyregEntries(k: KeyregFields): seq<Entry>
  {
    Emit(KeyregSpecs(k))
  }

  function DecodeKeyreg(es: seq<Entry>): Option<KeyregFields>
  {
    var votePk :- OptionalField(es, "votekey", DefaultPublicKey, AsBytes32);
    var selectionPk :- OptionalField(es, "selkey", DefaultPublicKey, AsBytes32);
    var voteFirst :- OptionalField(es, "votefst", 0, AsU64);
    var voteLast :- OptionalField(es, "votelst", 0, AsU64);
    var voteKeyDilution :- OptionalField(es, "votekd", 0, AsU64);
    var nonparticipation :- OptionalField(es, "nonpart", false, AsBool);
    Some(KeyregFields(votePk, selectionPk, voteFirst, voteLast, voteKeyDilution, nonparticipation))
  }

  /** The 6 tags are all different. */
  lemma KeyregTagsDistinct()
    ensures Distinct(KeyregTags)
  {
  }

  /** The fields carry these tags, in declaration order. */
  lemma KeyregSpecsTags(k: KeyregFields)
    ensures Tags(KeyregSpecs(k)) == KeyregTags
  {
  }

  /** Each of these fields is written exactly when it differs from its default. */
  lemma KeyregOmission(k: KeyregFields)
    ensures var es := KeyregEntries(k);
            && Get(es, "votekey") == (if k.votePk == DefaultPublicKey then None else Some(Bytes(k.votePk)))
            && Get(es, "selkey") == (if k.selectionPk == DefaultPublicKey then None else Some(Bytes(k.selectionPk)))
            && Get(es, "votefst") == (if k.voteFirst == 0 then None else Some(UInt(k.voteFirst)))
            && Get(es, "votelst") == (if k.voteLast == 0 then None else Some(UInt(k.voteLast)))
            && Get(es, "votekd") == (if k.voteKeyDilution == 0 then None else Some(UInt(k.voteKeyDilution)))
            && Get(es, "nonpart") == (if k.nonparticipation == false then None else Some(Bool(k.nonparticipation)))
  {
    var fs := KeyregSpecs(k);
    KeyregSpecsTags(k);
    KeyregTagsDistinct();
    GetEmit(fs, 0);
    GetEmit(fs, 1);
    GetEmit(fs, 2);
    GetEmit(fs, 3);
    GetEmit(fs, 4);
    GetEmit(fs, 5);
  }

  lemma KeyregRoundTrip(k: KeyregFields)
    ensures DecodeKeyreg(KeyregEntries(k)) == Some(k)
  {
    KeyregDecode1(k);
    KeyregDecode2(k);
    DecodeKeyregOf(KeyregEntries(k), k);
  }

  lemma KeyregDecode1(k: KeyregFields)
    ensures var es := KeyregEntries(k);
            && OptionalField(es, "votekey", DefaultPublicKey, AsBytes32) == Some(k.votePk)
            && OptionalField(es, "selkey", DefaultPublicKey, AsBytes32) == Some(k.selectionPk)
            && OptionalField(es, "votefst", 0, AsU64) == Some(k.voteFirst)
  {
    var fs := KeyregSpecs(k);
    KeyregSpecsTags(k);
    KeyregTagsDistinct();
    FieldRoundTrip(fs, 0, k.votePk, DefaultPublicKey, AsBytes32);
    FieldRoundTrip(fs, 1, k.selectionPk, DefaultPublicKey, AsBytes32);
    FieldRoundTrip(fs, 2, k.voteFirst, 0, AsU64);
  }

  lemma KeyregDecode2(k: KeyregFields)
    ensures var es := KeyregEntries(k);
            && OptionalField(es, "votelst", 0, AsU64) == Some(k.voteLast)
            && OptionalField(es, "votekd", 0, AsU64) == Some(k.voteKeyDilution)
            && OptionalField(es, "nonpart", false, AsBool) == Some(k.nonparticipation)
  {
    var fs := KeyregSpecs(k);
    KeyregSpecsTags(k);
    KeyregTagsDistinct();
    FieldRoundTrip(fs, 3, k.voteLast, 0, AsU64);
    FieldRoundTrip(fs, 4, k.voteKeyDilution, 0, AsU64);
    FieldRoundTrip(fs, 5, k.nonparticipation, false, AsBool);
  }

  /** The decoder assembles the record from what each tag reads as. */
  lemma DecodeKeyregOf(es: seq<Entry>, k: KeyregFields)
    requires OptionalField(es, "votekey", DefaultPublicKey, AsBytes32) == Some(k.votePk)
    requires OptionalField(es, "selkey", DefaultPublicKey, AsBytes32) == Some(k.selectionPk)
    requires OptionalField(es, "votefst", 0, AsU64) == Some(k.voteFirst)
    requires OptionalField(es, "votelst", 0, AsU64) == Some(k.voteLast)
    requires OptionalField(es, "votekd", 0, AsU64) == Some(k.voteKeyDilution)
    requires OptionalField(es, "nonpart", false, AsBool) == Some(k.nonparticipation)
    ensures DecodeKeyreg(es) == Some(k)
  {
  }

  /** The body of a payment; `closeRemainderTo` asks to close the account to that address, even the zero address. */
  datatype PaymentFields = PaymentFields(
    receiver: Address,
    amount: MicroAlgos,
    closeRemainderTo: Option<Address>)

  const DefaultPayment: PaymentFields :=
    PaymentFields(ZeroAddress, 0, None)

  function PaymentSpecs(p: PaymentFields): seq<FieldSpec>
  {
    [ OmitIfDefault("rcv", p.receiver, ZeroAddress, AddressValue(p.receiver)),
      OmitIfDefault("amt", p.amount, 0, UInt(p.amount)),
      OmitIfDefault("close", p.closeRemainderTo, None, OptionValue(p.closeRemainderTo, AddressValue)) ]
  }

  const PaymentTags: seq<Tag> := ["rcv", "amt", "close"]

  function PaymentEntries(p: PaymentFields): seq<Entry>
  {
    Emit(PaymentSpecs(p))
  }

  function DecodePayment(es: seq<Entry>): Option<PaymentFields>
  {
    var receiver :- OptionalField(es, "rcv", ZeroAddress, AsAddress);
    var amount :- OptionalField(es, "amt", 0, AsU64);
    var closeRemainderTo :- OptionalField(es, "close", None, (w: Value) => AsOption(w, AsAddress));
    Some(PaymentFields(receiver, amount, closeRemainderTo))
  }

  /** The 3 tags are all different. */
  lemma PaymentTagsDistinct()
    ensures Distinct(PaymentTags)
  {
  }

  /** The fields carry these tags, in declaration order. */
  lemma PaymentSpecsTags(p: PaymentFields)
    ensures Tags(PaymentSpecs(p)) == PaymentTags
  {
  }

  /** Each of these fields is written exactly when it differs from its default. */
  lemma PaymentOmission(p: PaymentFields)
    ensures var es := PaymentEntries(p);
            && Get(es, "rcv") == (if p.receiver == ZeroAddress then None else Some(AddressValue(p.receiver)))
            && Get(es, "amt") == (if p.amount == 0 then None else Some(UInt(p.amount)))
            && Get(es, "close") == (if p.closeRemainderTo == None then None else Some(AddressValue(p.closeRemainderTo.value)))
  {
    var fs := PaymentSpecs(p);
    PaymentSpecsTags(p);
    PaymentTagsDistinct();
    GetEmit(fs, 0);
    GetEmit(fs, 1);
    GetEmit(fs, 2);
  }

  lemma PaymentRoundTrip(p: PaymentFields)
    ensures DecodePayment(PaymentEntries(p)) == Some(p)
  {
    var fs := PaymentSpecs(p);
    PaymentSpecsTags(p);
    PaymentTagsDistinct();
    AsOptionValue(p.closeRemainderTo, AddressValue, AsAddress);
    FieldRoundTrip(fs, 0, p.receiver, ZeroAddress, AsAddress);
    FieldRoundTrip(fs, 1, p.amount, 0, AsU64);
    FieldRoundTrip(fs, 2, p.closeRemainderTo, None, (w: Value) => AsOption(w, AsAddress));
  }

  /** The body of an asset configuration: asset 0 creates, default parameters destroy. */
  datatype AssetConfigFields = AssetConfigFields(
    configAsset: AssetIndex,
    assetParams: Assets.AssetParams)

  function AssetConfigSpecs(c: AssetConfigFields): seq<FieldSpec>
  {
    [ OmitIfDefault("caid", c.configAsset, 0, UInt(c.configAsset)),
      OmitIfDefault("apar", c.assetParams, Assets.DefaultAssetParams, Assets.EncodeAssetParams(c.assetParams)) ]
  }

  const AssetConfigTags: seq<Tag> := ["caid", "apar"]

  function AssetConfigEntries(c: AssetConfigFields): seq<Entry>
  {
    Emit(AssetConfigSpecs(c))
  }

  function DecodeAssetConfig(es: seq<Entry>): Option<AssetConfigFields>
  {
    var configAsset :- OptionalField(es, "caid", 0, AsU64);
    var assetParams :- OptionalField(es, "apar", Assets.DefaultAssetParams, Assets.DecodeAssetParams);
    Some(AssetConfigFields(configAsset, assetParams))
  }

  /** The 2 tags are all different. */
  lemma AssetConfigTagsDistinct()
    ensures Distinct(AssetConfigTags)
  {
  }

  /** The fields carry these tags, in declaration order. */
  lemma AssetConfigSpecsTags(c: AssetConfigFields)
    ensures Tags(AssetConfigSpecs(c)) == AssetConfigTags
  {
  }

  /** Each of these fields is written exactly when it differs from its default. */
  lemma AssetConfigOmission(c: AssetConfigFields)
    ensures var es := AssetConfigEntries(c);
            && Get(es, "caid") == (if c.configAsset == 0 then None else Some(UInt(c.configAsset)))
            && Get(es, "apar") == (if c.assetParams == Assets.DefaultAssetParams then None else Some(Assets.EncodeAssetParams(c.assetParams)))
  {
    var fs := AssetConfigSpecs(c);
    AssetConfigSpecsTags(c);
    AssetConfigTagsDistinct();
    GetEmit(fs, 0);
    GetEmit(fs, 1);
  }

  lemma AssetConfigRoundTrip(c: AssetConfigFields)
    ensures DecodeAssetConfig(AssetConfigEntries(c)) == Some(c)
  {
    var fs := AssetConfigSpecs(c);
    AssetConfigSpecsTags(c);
    AssetConfigTagsDistinct();
    Assets.AssetParamsRoundTrip(c.assetParams);
    FieldRoundTrip(fs, 0, c.configAsset, 0, AsU64);
    FieldRoundTrip(fs, 1, c.assetParams, Assets.DefaultAssetParams, Assets.DecodeAssetParams);
  }

  /** Destroying an asset (default parameters) is the single entry `caid`. */
  lemma AssetDestroyEntries(c: AssetConfigFields)
    requires c.configAsset != 0 && c.assetParams == Assets.DefaultAssetParams
    ensures AssetConfigEntries(c) == [Entry("caid", UInt(c.configAsset))]
  {
    var fs := AssetConfigSpecs(c);
    assert fs[0] == Field("caid", UInt(c.configAsset), false);
    assert fs[1].skip;
    EmitPair(fs[0], fs[1]);
    assert fs == [fs[0], fs[1]];
  }

  /** The body of an asset transfer. */
  datatype AssetTransferFields = AssetTransferFields(
    transferAsset: AssetIndex,
    assetAmount: u64,
    assetSender: Address,
    assetReceiver: Address,
    assetCloseTo: Address)

  function AssetTransferSpecs(x: AssetTransferFields): seq<FieldSpec>
  {
    [ OmitIfDefault("xaid", x.transferAsset, 0, UInt(x.transferAsset)),
      OmitIfDefault("aamt", x.assetAmount, 0, UInt(x.assetAmount)),
      OmitIfDefault("asnd", x.assetSender, ZeroAddress, AddressValue(x.assetSender)),
      OmitIfDefault("arcv", x.assetReceiver, ZeroAddress, AddressValue(x.assetReceiver)),
      OmitIfDefault("aclose", x.assetCloseTo, ZeroAddress, AddressValue(x.assetCloseTo)) ]
  }

  const AssetTransferTags: seq<Tag> := ["xaid", "aamt", "asnd", "arcv", "aclose"]

  function AssetTransferEntries(x: AssetTransferFields): seq<Entry>
  {
    Emit(AssetTransferSpecs(x))
  }

  function DecodeAssetTransfer(es: seq<Entry>): Option<AssetTransferFields>
  {
    var transferAsset :- OptionalField(es, "xaid", 0, AsU64);
    var assetAmount :- OptionalField(es, "aamt", 0, AsU64);
    var assetSender :- OptionalField(es, "asnd", ZeroAddress, AsAddress);
    var assetReceiver :- OptionalField(es, "arcv", ZeroAddress, AsAddress);
    var assetCloseTo :- OptionalField(es, "aclose", ZeroAddress, AsAddress);
    Some(AssetTransferFields(transferAsset, assetAmount, assetSender, assetReceiver, assetCloseTo))
  }

  /** The 5 tags are all different. */
  lemma AssetTransferTagsDistinct()
    ensures Distinct(AssetTransferTags)
  {
  }

  /** The fields carry these tags, in declaration order. */
  lemma AssetTransferSpecsTags(x: AssetTransferFields)
    ensures Tags(AssetTransferSpecs(x)) == AssetTransferTags
  {
  }

  /** Each of these fields is written exactly when it differs from its default. */
  lemma AssetTransferOmission(x: AssetTransferFields)
    ensures var es := AssetTransferEntries(x);
            && Get(es, "xaid") == (if x.transferAsset == 0 then None else Some(UInt(x.transferAsset)))
            && Get(es, "aamt") == (if x.assetAmount == 0 then None else Some(UInt(x.assetAmount)))
            && Get(es, "asnd") == (if x.assetSender == ZeroAddress then None else Some(AddressValue(x.assetSender)))
            && Get(es, "arcv") == (if x.assetReceiver == ZeroAddress then None else Some(AddressValue(x.assetReceiver)))
            && Get(es, "aclose") == (if x.assetCloseTo == ZeroAddress then None else Some(AddressValue(x.assetCloseTo)))
  {
    var fs := AssetTransferSpecs(x);
    AssetTransferSpecsTags(x);
    AssetTransferTagsDistinct();
    GetEmit(fs, 0);
    GetEmit(fs, 1);
    GetEmit(fs, 2);
    GetEmit(fs, 3);
    GetEmit(fs, 4);
  }

  lemma AssetTransferRoundTrip(x: AssetTransferFields)
    ensures DecodeAssetTransfer(AssetTransferEntries(x)) == Some(x)
  {
    AssetTransferDecode1(x);
    AssetTransferDecode2(x);
    DecodeAssetTransferOf(AssetTransferEntries(x), x);
  }

  lemma AssetTransferDecode1(x: AssetTransferFields)
    ensures var es := AssetTransferEntries(x);
            && OptionalField(es, "xaid", 0, AsU64) == Some(x.transferAsset)
            && OptionalField(es, "aamt", 0, AsU64) == Some(x.assetAmount)
            && OptionalField(es, "asnd", ZeroAddress, AsAddress) == Some(x.assetSender)
  {
    var fs := AssetTransferSpecs(x);
    AssetTransferSpecsTags(x);
    AssetTransferTagsDistinct();
    FieldRoundTrip(fs, 0, x.transferAsset, 0, AsU64);
    FieldRoundTrip(fs, 1, x.assetAmount, 0, AsU64);
    FieldRoundTrip(fs, 2, x.assetSender, ZeroAddress, AsAddress);
  }

  lemma AssetTransferDecode2(x: AssetTransferFields)
    ensures var es := AssetTransferEntries(x);
            && OptionalField(es, "arcv", ZeroAddress, AsAddress) == Some(x.assetReceiver)
            && OptionalField(es, "aclose", ZeroAddress, AsAddress) == Some(x.assetCloseTo)
  {
    var fs := AssetTransferSpecs(x);
    AssetTransferSpecsTags(x);
    AssetTransferTagsDistinct();
    FieldRoundTrip(fs, 3, x.assetReceiver, ZeroAddress, AsAddress);
    FieldRoundTrip(fs, 4, x.assetCloseTo, ZeroAddress, AsAddress);
  }

  /** The decoder assembles the record from what each tag reads as. */
  lemma DecodeAssetTransferOf(es: seq<Entry>, x: AssetTransferFields)
    requires OptionalField(es, "xaid", 0, AsU64) == Some(x.transferAsset)
    requires OptionalField(es, "aamt", 0, AsU64) == Some(x.assetAmount)
    requires OptionalField(es, "asnd", ZeroAddress, AsAddress) == Some(x.assetSender)
    requires OptionalField(es, "arcv", ZeroAddress, AsAddress) == Some(x.assetReceiver)
    requires OptionalField(es, "aclose", ZeroAddress, AsAddress) == Some(x.assetCloseTo)
    ensures DecodeAssetTransfer(es) == Some(x)
  {
  }

  /** The body of an asset freeze. */
  datatype AssetFreezeFields = AssetFreezeFields(
    freezeAccount: Address,
    freezeAsset: AssetIndex,
    assetFrozen: bool)

  function AssetFreezeSpecs(z: AssetFreezeFields): seq<FieldSpec>
  {
    [ OmitIfDefault("fadd", z.freezeAccount, ZeroAddress, AddressValue(z.freezeAccount)),
      OmitIfDefault("faid", z.freezeAsset, 0, UInt(z.freezeAsset)),
      OmitIfDefault("afrz", z.assetFrozen, false, Bool(z.assetFrozen)) ]
  }

  const AssetFreezeTags: seq<Tag> := ["fadd", "faid", "afrz"]

  function AssetFreezeEntries(z: AssetFreezeFields): seq<Entry>
  {
    Emit(AssetFreezeSpecs(z))
  }

  function DecodeAssetFreeze(es: seq<Entry>): Option<AssetFreezeFields>
  {
    var freezeAccount :- OptionalField(es, "fadd", ZeroAddress, AsAddress);
    var freezeAsset :- OptionalField(es, "faid", 0, AsU64);
    var assetFrozen :- OptionalField(es, "afrz", false, AsBool);
    Some(AssetFreezeFields(freezeAccount, freezeAsset, assetFrozen))
  }

  /** The 3 tags are all different. */
  lemma AssetFreezeTagsDistinct()
    ensures Distinct(AssetFreezeTags)
  {
  }

  /** The fields carry these tags, in declaration order. */
  lemma AssetFreezeSpecsTags(z: AssetFreezeFields)
    ensures Tags(AssetFreezeSpecs(z)) == AssetFreezeTags
  {
  }

  /** Each of these fields is written exactly when it differs from its default. */
  lemma AssetFreezeOmission(z: AssetFreezeFields)
    ensures var es := AssetFreezeEntries(z);
            && Get(es, "fadd") == (if z.freezeAccount == ZeroAddress then None else Some(AddressValue(z.freezeAccount)))
            && Get(es, "faid") == (if z.freezeAsset == 0 then None else Some(UInt(z.freezeAsset)))
            && Get(es, "afrz") == (if z.assetFrozen == false then None else Some(Bool(z.assetFrozen)))
  {
    var fs := AssetFreezeSpecs(z);
    AssetFreezeSpecsTags(z);
    AssetFreezeTagsDistinct();
    GetEmit(fs, 0);
    GetEmit(fs, 1);
    GetEmit(fs, 2);
  }

  lemma AssetFreezeRoundTrip(z: AssetFreezeFields)
    ensures DecodeAssetFreeze(AssetFreezeEntries(z)) == Some(z)
  {
    var fs := AssetFreezeSpecs(z);
    AssetFreezeSpecsTags(z);
    AssetFreezeTagsDistinct();
    FieldRoundTrip(fs, 0, z.freezeAccount, ZeroAddress, AsAddress);
    FieldRoundTrip(fs, 1, z.freezeAsset, 0, AsU64);
    FieldRoundTrip(fs, 2, z.assetFrozen, false, AsBool);
  }

  // The body: an internally tagged enum.

  datatype TxFields =
    | Keyreg(keyreg: KeyregFields)
    | Payment(payment: PaymentFields)
    | AssetConfig(assetConfig: AssetConfigFields)
    | AssetTransfer(assetTransfer: AssetTransferFields)
    | AssetFreeze(assetFreeze: AssetFreezeFields)
    | AppCall(appCall: Applications.AppCallFields)

  /** The variant's name, written under "type". */
  function TypeName(f: TxFields): string
  {
    match f
    case Keyreg(_) => "keyreg"
    case Payment(_) => "pay"
    case AssetConfig(_) => "acfg"
    case AssetTransfer(_) => "axfer"
    case AssetFreeze(_) => "afrz"
    case AppCall(_) => "appl"
  }

  const TypeNames: seq<string> := ["keyreg", "pay", "acfg", "axfer", "afrz", "appl"]

  /** The tags of the variant's own fields. */
  function VariantTags(f: TxFields): seq<Tag>
  {
    match f
    case Keyreg(_) => KeyregTags
    case Payment(_) => PaymentTags
    case AssetConfig(_) => AssetConfigTags
    case AssetTransfer(_) => AssetTransferTags
    case AssetFreeze(_) => AssetFreezeTags
    case AppCall(_) => Applications.AppCallTags
  }

  function VariantEntries(f: TxFields): seq<Entry>
  {
    match f
    case Keyreg(k) => KeyregEntries(k)
    case Payment(p) => PaymentEntries(p)
    case AssetConfig(c) => AssetConfigEntries(c)
    case AssetTransfer(x) => AssetTransferEntries(x)
    case AssetFreeze(z) => AssetFreezeEntries(z)
    case AppCall(a) => Applications.AppCallEntries(a)
  }

  /** The "type" entry, then the variant's own entries. */
  function TxFieldsEntries(f: TxFields): seq<Entry>
  {
    [Entry("type", Text(TypeName(f)))] + VariantEntries(f)
  }

  /** "type" is required and names the variant; the variant decodes from the
      entries other than "type". */
  function DecodeTxFields(es: seq<Entry>): Option<TxFields>
  {
    var kind :- RequiredField(es, "type", AsText);
    var body := Unclaimed(es, ["type"]);
    if kind == "keyreg" then (var k :- DecodeKeyreg(body); Some(Keyreg(k)))
    else if kind == "pay" then (var p :- DecodePayment(body); Some(Payment(p)))
    else if kind == "acfg" then (var c :- DecodeAssetConfig(body); Some(AssetConfig(c)))
    else if kind == "axfer" then (var x :- DecodeAssetTransfer(body); Some(AssetTransfer(x)))
    else if kind == "afrz" then (var z :- DecodeAssetFreeze(body); Some(AssetFreeze(z)))
    else if kind == "appl" then (var a :- Applications.DecodeAppCallFields(body); Some(AppCall(a)))
    else None
  }

  /** The six names are different, and each variant's name is its own. */
  lemma TypeNamesDistinct(f: TxFields)
    ensures Distinct(TypeNames)
    ensures TypeName(f) in TypeNames
  {
  }

  /** "type" and the header's tags are not among any body's tags, nor each other's. */
  lemma HeaderTagsForeign()
    ensures Disjoint(["type"], HeaderTags)
    ensures Disjoint(["type"], KeyregTags) && Disjoint(KeyregTags, HeaderTags)
    ensures Disjoint(["type"], PaymentTags) && Disjoint(PaymentTags, HeaderTags)
    ensures Disjoint(["type"], AssetConfigTags) && Disjoint(AssetConfigTags, HeaderTags)
    ensures Disjoint(["type"], AssetTransferTags) && Disjoint(AssetTransferTags, HeaderTags)
    ensures Disjoint(["type"], AssetFreezeTags) && Disjoint(AssetFreezeTags, HeaderTags)
    ensures Disjoint(["type"], Applications.AppCallTags) && Disjoint(Applications.AppCallTags, HeaderTags)
  {
  }

  /** No two bodies share a tag: those of key registrations and payments with the rest. */
  lemma BodyTagsForeign1()
    ensures Disjoint(KeyregTags, PaymentTags) && Disjoint(KeyregTags, AssetConfigTags)
    ensures Disjoint(KeyregTags, AssetTransferTags) && Disjoint(KeyregTags, AssetFreezeTags)
    ensures Disjoint(KeyregTags, Applications.AppCallTags)
    ensures Disjoint(PaymentTags, AssetConfigTags) && Disjoint(PaymentTags, AssetTransferTags)
    ensures Disjoint(PaymentTags, AssetFreezeTags) && Disjoint(PaymentTags, Applications.AppCallTags)
  {
  }

  /** No two bodies share a tag: those of the asset operations with the rest. */
  lemma BodyTagsForeign2()
    ensures Disjoint(AssetConfigTags, AssetTransferTags) && Disjoint(AssetConfigTags, AssetFreezeTags)
    ensures Disjoint(AssetConfigTags, Applications.AppCallTags)
    ensures Disjoint(AssetTransferTags, AssetFreezeTags) && Disjoint(AssetTransferTags, Applications.AppCallTags)
    ensures Disjoint(AssetFreezeTags, Applications.AppCallTags)
  {
  }

  /** The tags of the header, "type" and the six bodies are pairwise disjoint. */
  lemma TagSetsDisjoint(f: TxFields, g: TxFields)
    ensures "type" !in HeaderTags && "type" !in VariantTags(f)
    ensures Disjoint(VariantTags(f), HeaderTags)
    ensures TypeName(f) != TypeName(g) ==> Disjoint(VariantTags(f), VariantTags(g))
  {
    HeaderTagsForeign();
    BodyTagsForeign1();
    BodyTagsForeign2();
    DisjointNotIn("type", HeaderTags);
    DisjointNotIn("type", VariantTags(f));
    if TypeName(f) != TypeName(g) && KindIndex(g) < KindIndex(f) {
      DisjointSymmetric(VariantTags(g), VariantTags(f));
    }
  }

  /** The position of the variant in the declaration. */
  function KindIndex(f: TxFields): nat
  {
    match f
    case Keyreg(_) => 0
    case Payment(_) => 1
    case AssetConfig(_) => 2
    case AssetTransfer(_) => 3
    case AssetFreeze(_) => 4
    case AppCall(_) => 5
  }

  /** Every entry of a variant carries one of the variant's tags. */
  lemma VariantEntryTags(f: TxFields)
    ensures forall e :: e in VariantEntries(f) ==> e.tag in VariantTags(f)
  {
    match f
    case Keyreg(k) => KeyregSpecsTags(k); EmitTags(KeyregSpecs(k));
    case Payment(p) => PaymentSpecsTags(p); EmitTags(PaymentSpecs(p));
    case AssetConfig(c) => AssetConfigSpecsTags(c); EmitTags(AssetConfigSpecs(c));
    case AssetTransfer(x) => AssetTransferSpecsTags(x); EmitTags(AssetTransferSpecs(x));
    case AssetFreeze(z) => AssetFreezeSpecsTags(z); EmitTags(AssetFreezeSpecs(z));
    case AppCall(a) => Applications.AppCallTagsDistinct(a); EmitTags(Applications.AppCallSpecs(a));
  }

  /** What the decoder of the variant's kind reads from a body. */
  predicate BodyDecodes(f: TxFields, body: seq<Entry>)
  {
    match f
    case Keyreg(k) => DecodeKeyreg(body) == Some(k)
    case Payment(p) => DecodePayment(body) == Some(p)
    case AssetConfig(c) => DecodeAssetConfig(body) == Some(c)
    case AssetTransfer(x) => DecodeAssetTransfer(body) == Some(x)
    case AssetFreeze(z) => DecodeAssetFreeze(body) == Some(z)
    case AppCall(a) => Applications.DecodeAppCallFields(body) == Some(a)
  }

  /** Each variant's fields read back from its own entries. */
  lemma VariantRoundTrip(f: TxFields)
    ensures BodyDecodes(f, VariantEntries(f))
  {
    match f
    case Keyreg(k) => KeyregRoundTrip(k);
    case Payment(p) => PaymentRoundTrip(p);
    case AssetConfig(c) => AssetConfigRoundTrip(c);
    case AssetTransfer(x) => AssetTransferRoundTrip(x);
    case AssetFreeze(z) => AssetFreezeRoundTrip(z);
    case AppCall(a) => Applications.AppCallRoundTrip(a);
  }

  /** The body decoder gives the variant that "type" names, read from the other entries. */
  lemma DecodeTxFieldsOf(es: seq<Entry>, f: TxFields)
    requires RequiredField(es, "type", AsText) == Some(TypeName(f))
    requires BodyDecodes(f, Unclaimed(es, ["type"]))
    ensures DecodeTxFields(es) == Some(f)
  {
  }

  /** "type" occurs once in a body, with the variant's name, and the variant's
      fields read back from what follows it. */
  lemma TxFieldsRoundTrip(f: TxFields)
    ensures Find(TxFieldsEntries(f), "type") == Found(Text(TypeName(f)))
    ensures DecodeTxFields(TxFieldsEntries(f)) == Some(f)
  {
    var v := VariantEntries(f);
    TagSetsDisjoint(f, f);
    VariantEntryTags(f);
    TaggedBody("type", TypeName(f), v);
    VariantRoundTrip(f);
    DecodeTxFieldsOf(TxFieldsEntries(f), f);
  }

  // The transaction: header and body flattened into one record.

  datatype Transaction = Transaction(header: Header, fields: TxFields)

  function TransactionEntries(t: Transaction): seq<Entry>
  {
    HeaderEntries(t.header) + TxFieldsEntries(t.fields)
  }

  function EncodeTransaction(t: Transaction): Value
  {
    Record(TransactionEntries(t))
  }

  /** The header claims its own tags; the body decodes from the entries left. */
  function DecodeTransaction(es: seq<Entry>): Option<Transaction>
  {
    var header :- DecodeHeader(Claimed(es, HeaderTags));
    var fields :- DecodeTxFields(Unclaimed(es, HeaderTags));
    Some(Transaction(header, fields))
  }

  function AsTransaction(v: Value): Option<Transaction>
  {
    if v.Record? then DecodeTransaction(v.entries) else None
  }

  /** No entry of a body carries a header tag. */
  lemma BodyForeignToHeader(f: TxFields)
    ensures forall e :: e in TxFieldsEntries(f) ==> e.tag !in HeaderTags
  {
    TagSetsDisjoint(f, f);
    VariantEntryTags(f);
    forall e | e in TxFieldsEntries(f)
      ensures e.tag !in HeaderTags
    {
      if e in VariantEntries(f) {
        assert e.tag in VariantTags(f);
      }
    }
  }

  /** The header's entries come first, then "type", then the variant's: every entry
      carries a header tag, "type", or a tag of the transaction's own kind, and no
      tag of any other kind. */
  lemma TransactionTags(t: Transaction, other: TxFields)
    ensures forall e :: e in TransactionEntries(t) ==>
              e.tag in HeaderTags || e.tag == "type" || e.tag in VariantTags(t.fields)
    ensures TypeName(other) != TypeName(t.fields) ==>
              forall e :: e in TransactionEntries(t) ==> e.tag !in VariantTags(other)
  {
    HeaderSpecsTags(t.header);
    EmitTags(HeaderSpecs(t.header));
    VariantEntryTags(t.fields);
    TagSetsDisjoint(other, t.fields);
    TagSetsDisjoint(t.fields, other);
    forall e | e in TransactionEntries(t)
      ensures e.tag in HeaderTags || e.tag == "type" || e.tag in VariantTags(t.fields)
    {
      assert e in HeaderEntries(t.header) || e == Entry("type", Text(TypeName(t.fields))) || e in VariantEntries(t.fields);
    }
  }

  /** The header claims exactly its own entries, and leaves exactly the body's. */
  lemma TransactionParts(t: Transaction)
    ensures Claimed(TransactionEntries(t), HeaderTags) == HeaderEntries(t.header)
    ensures Unclaimed(TransactionEntries(t), HeaderTags) == TxFieldsEntries(t.fields)
  {
    var h := HeaderEntries(t.header);
    var b := TxFieldsEntries(t.fields);
    HeaderSpecsTags(t.header);
    EmitTags(HeaderSpecs(t.header));
    ClaimedAll(h, HeaderTags);
    BodyForeignToHeader(t.fields);
    ClaimedNone(b, HeaderTags);
    ClaimedAppend(h, b, HeaderTags);
  }

  lemma TransactionRoundTrip(t: Transaction)
    ensures AsTransaction(EncodeTransaction(t)) == Some(t)
  {
    TransactionParts(t);
    HeaderRoundTrip(t.header);
    TxFieldsRoundTrip(t.fields);
  }

  lemma TypeNotHeaderTag()
    ensures "type" !in HeaderTags
  {
    HeaderTagsForeign();
    DisjointNotIn("type", HeaderTags);
  }

  /** A record without a "type" entry, or with two, is refused. */
  lemma MissingTypeRejected(es: seq<Entry>)
    requires !Find(es, "type").Found?
    ensures DecodeTransaction(es) == None
  {
    TypeNotHeaderTag();
    FindUnclaimed(es, HeaderTags, "type");
  }

  /** A body whose "type" names none of the six kinds is refused. */
  lemma UnknownKindRejected(es: seq<Entry>, kind: string)
    requires Find(es, "type") == Found(Text(kind)) && kind !in TypeNames
    ensures DecodeTxFields(es) == None
  {
  }

  /** A "type" naming none of the six kinds is refused. */
  lemma UnknownTypeRejected(es: seq<Entry>, kind: string)
    requires Find(es, "type") == Found(Text(kind)) && kind !in TypeNames
    ensures DecodeTransaction(es) == None
  {
    TypeNotHeaderTag();
    FindUnclaimed(es, HeaderTags, "type");
    UnknownKindRejected(Unclaimed(es, HeaderTags), kind);
  }

  // Signed transactions.

  /** A transaction with its single, multiple or logic signature; `authAddr` names the signer when it is not the sender. */
  datatype SignedTx = SignedTx(
    sig: Signatures.Signature,
    msig: Option<Signatures.MultisigSignature>,
    lsig: Option<Signatures.LogicSig>,
    tx: Transaction,
    authAddr: Address)

  function SignedTxSpecs(s: SignedTx): seq<FieldSpec>
  {
    [ OmitIfDefault("sig", s.sig, Signatures.DefaultSignature, Signatures.SignatureValue(s.sig)),
      OmitIfDefault("msig", s.msig, None, OptionValue(s.msig, Signatures.EncodeMultisig)),
      OmitIfDefault("lsig", s.lsig, None, OptionValue(s.lsig, Signatures.EncodeLogicSig)),
      Always("txn", EncodeTransaction(s.tx)),
      OmitIfDefault("sgnr", s.authAddr, ZeroAddress, AddressValue(s.authAddr)) ]
  }

  const SignedTxTags: seq<Tag> := ["sig", "msig", "lsig", "txn", "sgnr"]

  function SignedTxEntries(s: SignedTx): seq<Entry>
  {
    Emit(SignedTxSpecs(s))
  }

  function DecodeSignedTx(es: seq<Entry>): Option<SignedTx>
  {
    var sig :- OptionalField(es, "sig", Signatures.DefaultSignature, Signatures.AsSignature);
    var msig :- OptionalField(es, "msig", None, (w: Value) => AsOption(w, Signatures.DecodeMultisig));
    var lsig :- OptionalField(es, "lsig", None, (w: Value) => AsOption(w, Signatures.DecodeLogicSig));
    var tx :- RequiredField(es, "txn", AsTransaction);
    var authAddr :- OptionalField(es, "sgnr", ZeroAddress, AsAddress);
    Some(SignedTx(sig, msig, lsig, tx, authAddr))
  }

  /** The 5 tags are all different. */
  lemma SignedTxTagsDistinct()
    ensures Distinct(SignedTxTags)
  {
  }

  /** The fields carry these tags, in declaration order. */
  lemma SignedTxSpecsTags(s: SignedTx)
    ensures Tags(SignedTxSpecs(s)) == SignedTxTags
  {
  }

  /** Each of these fields is written exactly when it differs from its default. */
  lemma SignedTxOmission(s: SignedTx)
    ensures var es := SignedTxEntries(s);
            && Get(es, "sig") == (if s.sig == Signatures.DefaultSignature then None else Some(Signatures.SignatureValue(s.sig)))
            && Get(es, "msig") == (if s.msig == None then None else Some(Signatures.EncodeMultisig(s.msig.value)))
            && Get(es, "lsig") == (if s.lsig == None then None else Some(Signatures.EncodeLogicSig(s.lsig.value)))
            && Get(es, "txn") == Some(EncodeTransaction(s.tx))
            && Get(es, "sgnr") == (if s.authAddr == ZeroAddress then None else Some(AddressValue(s.authAddr)))
  {
    var fs := SignedTxSpecs(s);
    SignedTxSpecsTags(s);
    SignedTxTagsDistinct();
    GetEmit(fs, 0);
    GetEmit(fs, 1);
    GetEmit(fs, 2);
    GetEmit(fs, 3);
    GetEmit(fs, 4);
  }

  lemma SignedTxRoundTrip(s: SignedTx)
    requires s.lsig.None? || s.lsig.value.msig == Signatures.DefaultMultisig
    ensures DecodeSignedTx(SignedTxEntries(s)) == Some(s)
  {
    SignedTxDecode1(s);
    SignedTxDecode2(s);
    DecodeSignedTxOf(SignedTxEntries(s), s);
  }

  lemma SignedTxDecode1(s: SignedTx)
    requires s.lsig.None? || s.lsig.value.msig == Signatures.DefaultMultisig
    ensures var es := SignedTxEntries(s);
            && OptionalField(es, "sig", Signatures.DefaultSignature, Signatures.AsSignature) == Some(s.sig)
            && OptionalField(es, "msig", None, (w: Value) => AsOption(w, Signatures.DecodeMultisig)) == Some(s.msig)
            && OptionalField(es, "lsig", None, (w: Value) => AsOption(w, Signatures.DecodeLogicSig)) == Some(s.lsig)
  {
    var fs := SignedTxSpecs(s);
    SignedTxSpecsTags(s);
    SignedTxTagsDistinct();
    if s.msig.Some? { Signatures.MultisigRoundTrip(s.msig.value); }
    AsOptionValue(s.msig, Signatures.EncodeMultisig, Signatures.DecodeMultisig);
    if s.lsig.Some? { Signatures.LogicSigRoundTrip(s.lsig.value); }
    AsOptionValue(s.lsig, Signatures.EncodeLogicSig, Signatures.DecodeLogicSig);
    FieldRoundTrip(fs, 0, s.sig, Signatures.DefaultSignature, Signatures.AsSignature);
    FieldRoundTrip(fs, 1, s.msig, None, (w: Value) => AsOption(w, Signatures.DecodeMultisig));
    FieldRoundTrip(fs, 2, s.lsig, None, (w: Value) => AsOption(w, Signatures.DecodeLogicSig));
  }

  lemma SignedTxDecode2(s: SignedTx)
    ensures var es := SignedTxEntries(s);
            && RequiredField(es, "txn", AsTransaction) == Some(s.tx)
            && OptionalField(es, "sgnr", ZeroAddress, AsAddress) == Some(s.authAddr)
  {
    var fs := SignedTxSpecs(s);
    SignedTxSpecsTags(s);
    SignedTxTagsDistinct();
    TransactionRoundTrip(s.tx);
    RequiredRoundTrip(fs, 3, s.tx, AsTransaction);
    FieldRoundTrip(fs, 4, s.authAddr, ZeroAddress, AsAddress);
  }

  /** The decoder assembles the record from what each tag reads as. */
  lemma DecodeSignedTxOf(es: seq<Entry>, s: SignedTx)
    requires OptionalField(es, "sig", Signatures.DefaultSignature, Signatures.AsSignature) == Some(s.sig)
    requires OptionalField(es, "msig", None, (w: Value) => AsOption(w, Signatures.DecodeMultisig)) == Some(s.msig)
    requires OptionalField(es, "lsig", None, (w: Value) => AsOption(w, Signatures.DecodeLogicSig)) == Some(s.lsig)
    requires RequiredField(es, "txn", AsTransaction) == Some(s.tx)
    requires OptionalField(es, "sgnr", ZeroAddress, AsAddress) == Some(s.authAddr)
    ensures DecodeSignedTx(es) == Some(s)
  {
  }

  /** A signed transaction without "txn" is refused. */
  lemma MissingTxnRejected(es: seq<Entry>)
    requires Find(es, "txn").Missing?
    ensures DecodeSignedTx(es) == None
  {
  }

  /** A logic signature that carries a multisignature does not read back. */
  lemma LogicSigFieldLost(s: SignedTx)
    requires s.lsig.Some? && s.lsig.value.msig != Signatures.DefaultMultisig
    ensures OptionalField(SignedTxEntries(s), "lsig", None, (w: Value) => AsOption(w, Signatures.DecodeLogicSig)) == None
  {
    var fs := SignedTxSpecs(s);
    SignedTxSpecsTags(s);
    SignedTxTagsDistinct();
    LocateEmit(fs, 2);
    DistinctUnique(fs, 2);
    Signatures.LogicSigMultisigLost(s.lsig.value);
  }

  /** A signed transaction whose logic signature carries a multisignature does not
      survive the trip. */
  lemma LogicSigMultisigLost(s: SignedTx)
    requires s.lsig.Some? && s.lsig.value.msig != Signatures.DefaultMultisig
    ensures DecodeSignedTx(SignedTxEntries(s)) == None
  {
    LogicSigFieldLost(s);
  }

  // Transaction groups.

  function DigestList(ds: seq<Digest>): Value
  {
    Array(EncodeEach(ds, (d: Digest) => Bytes(d)))
  }

  function AsDigestList(v: Value): Option<seq<Digest>>
  {
    AsArrayOf(v, AsBytes32)
  }

  lemma DigestListRoundTrip(ds: seq<Digest>)
    ensures AsDigestList(DigestList(ds)) == Some(ds)
  {
    DecodeEncodeEach(ds, (d: Digest) => Bytes(d), AsBytes32);
  }

  /** The hashes of transactions that must appear together, in this order, in a block. */
  datatype TxGroup = TxGroup(
    txGroupHashes: seq<Digest>)

  function TxGroupSpecs(g: TxGroup): seq<FieldSpec>
  {
    [ OmitIfDefault("txlist", g.txGroupHashes, [], DigestList(g.txGroupHashes)) ]
  }

  const TxGroupTags: seq<Tag> := ["txlist"]

  function TxGroupEntries(g: TxGroup): seq<Entry>
  {
    Emit(TxGroupSpecs(g))
  }

  function DecodeTxGroup(es: seq<Entry>): Option<TxGroup>
  {
    var txGroupHashes :- OptionalField(es, "txlist", [], AsDigestList);
    Some(TxGroup(txGroupHashes))
  }

  /** The single tag is trivially distinct. */
  lemma TxGroupTagsDistinct()
    ensures Distinct(TxGroupTags)
  {
  }

  /** The fields carry these tags, in declaration order. */
  lemma TxGroupSpecsTags(g: TxGroup)
    ensures Tags(TxGroupSpecs(g)) == TxGroupTags
  {
  }

  /** Each of these fields is written exactly when it differs from its default. */
  lemma TxGroupOmission(g: TxGroup)
    ensures var es := TxGroupEntries(g);
            && Get(es, "txlist") == (if g.txGroupHashes == [] then None else Some(DigestList(g.txGroupHashes)))
  {
    var fs := TxGroupSpecs(g);
    TxGroupSpecsTags(g);
    TxGroupTagsDistinct();
    GetEmit(fs, 0);
  }

  lemma TxGroupRoundTrip(g: TxGroup)
    ensures DecodeTxGroup(TxGroupEntries(g)) == Some(g)
  {
    var fs := TxGroupSpecs(g);
    TxGroupSpecsTags(g);
    TxGroupTagsDistinct();
    DigestListRoundTrip(g.txGroupHashes);
    FieldRoundTrip(fs, 0, g.txGroupHashes, [], AsDigestList);
  }

  /** The hashes of a group are written in their order. */
  lemma TxGroupOrder(g: TxGroup)
    requires g.txGroupHashes != []
    ensures var items := DigestList(g.txGroupHashes).items;
            && Get(TxGroupEntries(g), "txlist") == Some(DigestList(g.txGroupHashes))
            && |items| == |g.txGroupHashes|
            && forall i :: 0 <= i < |items| ==> items[i] == Bytes(g.txGroupHashes[i])
  {
    TxGroupOmission(g);
  }
}
