/**
  Asset parameters (src/types/asset.rs): the record an asset-configuration
  transaction carries, and the size bounds the module declares for it.
 */
module Assets {
  import opened Wrappers
  import opened Basics
  import opened Schema
  import AddressCodec

  /** Maximum length, in bytes, of the asset name. */
  const ASSET_NAME_MAX_LEN: nat := 32
  /** Maximum length, in bytes, of the unit name. */
  const ASSET_UNIT_NAME_MAX_LEN: nat := 8
  /** Maximum length, in bytes, of the URL. */
  const ASSET_URL_MAX_LEN: nat := 96
  /** Length of the metadata hash. */
  const ASSET_METADATA_HASH_LEN: nat := 32
  /** Largest allowed number of decimals. */
  const ASSET_MAX_NUMBER_OF_DECIMALS: nat := 19

  type AssetIndex = u64

  datatype AssetParams = AssetParams(
    total: u64,
    decimals: u32,
    defaultFrozen: bool,
    unitName: string,
    assetName: string,
    url: string,
    metadataHash: Bytes32,
    manager: AddressCodec.Address,
    reserve: AddressCodec.Address,
    freeze: AddressCodec.Address,
    clawback: AddressCodec.Address)

  /** The derived `Default`: zeros, `false`, empty strings and zero addresses. */
  const DefaultAssetParams: AssetParams :=
    AssetParams(0, 0, false, "", "", "", Zero32, AddressCodec.ZeroAddress, AddressCodec.ZeroAddress,
                AddressCodec.ZeroAddress, AddressCodec.ZeroAddress)

  /** Number of bytes the UTF-8 encoding of a Unicode scalar value takes. */
  function Utf8Width(c: char): (n: nat)
    ensures 1 <= n <= 4
    ensures n == 1 <==> (c as int) < 0x80
  {
    if (c as int) < 0x80 then 1
    else if (c as int) < 0x800 then 2
    else if (c as int) < 0x1_0000 then 3
    else 4
  }

  /** Length in bytes of a Rust `String` holding `s`. */
  function Utf8Len(s: string): (n: nat)
    ensures |s| <= n <= 4 * |s|
  {
    if s == [] then 0 else Utf8Width(s[0]) + Utf8Len(s[1..])
  }

  lemma {:induction false} Utf8LenAscii(s: string)
    requires forall i :: 0 <= i < |s| ==> (s[i] as int) < 0x80
    ensures Utf8Len(s) == |s|
  {
    if s != [] {
      Utf8LenAscii(s[1..]);
    }
  }

  /** The bounds the module's constants state for asset parameters. */
  predicate WithinBounds(p: AssetParams)
  {
    && p.decimals as nat <= ASSET_MAX_NUMBER_OF_DECIMALS
    && Utf8Len(p.unitName) <= ASSET_UNIT_NAME_MAX_LEN
    && Utf8Len(p.assetName) <= ASSET_NAME_MAX_LEN
    && Utf8Len(p.url) <= ASSET_URL_MAX_LEN
  }

  function AssetParamsSpecs(p: AssetParams): seq<FieldSpec>
  {
    [ OmitIfDefault("t", p.total, 0, UInt(p.total)),
      OmitIfDefault("dc", p.decimals, 0, UInt(p.decimals)),
      OmitIfDefault("df", p.defaultFrozen, false, Bool(p.defaultFrozen)),
      OmitIfDefault("un", p.unitName, "", Text(p.unitName)),
      OmitIfDefault("an", p.assetName, "", Text(p.assetName)),
      OmitIfDefault("au", p.url, "", Text(p.url)),
      OmitIfDefault("am", p.metadataHash, Zero32, Bytes(p.metadataHash)),
      OmitIfDefault("m", p.manager, AddressCodec.ZeroAddress, AddressValue(p.manager)),
      OmitIfDefault("r", p.reserve, AddressCodec.ZeroAddress, AddressValue(p.reserve)),
      OmitIfDefault("f", p.freeze, AddressCodec.ZeroAddress, AddressValue(p.freeze)),
      OmitIfDefault("c", p.clawback, AddressCodec.ZeroAddress, AddressValue(p.clawback)) ]
  }

  const AssetParamsTags: seq<Tag> := ["t", "dc", "df", "un", "an", "au", "am", "m", "r", "f", "c"]

  function EncodeAssetParams(p: AssetParams): Value
  {
    Record(Emit(AssetParamsSpecs(p)))
  }

  function DecodeAssetParams(v: Value): Option<AssetParams>
  {
    if !v.Record? then None
    else
      var es := v.entries;
      var total :- OptionalField(es, "t", 0, AsU64);
      var decimals :- OptionalField(es, "dc", 0, AsU32);
      var defaultFrozen :- OptionalField(es, "df", false, AsBool);
      var unitName :- OptionalField(es, "un", "", AsText);
      var assetName :- OptionalField(es, "an", "", AsText);
      var url :- OptionalField(es, "au", "", AsText);
      var metadataHash :- OptionalField(es, "am", Zero32, AsBytes32);
      var manager :- OptionalField(es, "m", AddressCodec.ZeroAddress, AsAddress);
      var reserve :- OptionalField(es, "r", AddressCodec.ZeroAddress, AsAddress);
      var freeze :- OptionalField(es, "f", AddressCodec.ZeroAddress, AsAddress);
      var clawback :- OptionalField(es, "c", AddressCodec.ZeroAddress, AsAddress);
      Some(AssetParams(total, decimals, defaultFrozen, unitName, assetName, url, metadataHash,
                       manager, reserve, freeze, clawback))
  }

  /** The eleven tags, in declaration order, all different. */
  lemma AssetParamsTagsDistinct(p: AssetParams)
    ensures Tags(AssetParamsSpecs(p)) == AssetParamsTags
    ensures Distinct(AssetParamsTags)
  {
  }

  /** Each field is written exactly when it differs from its default. */
  lemma AssetParamsOmission(p: AssetParams)
    ensures var es := Emit(AssetParamsSpecs(p));
            && Get(es, "t") == (if p.total == 0 then None else Some(UInt(p.total)))
            && Get(es, "dc") == (if p.decimals == 0 then None else Some(UInt(p.decimals)))
            && Get(es, "df") == (if !p.defaultFrozen then None else Some(Bool(true)))
            && Get(es, "un") == (if p.unitName == "" then None else Some(Text(p.unitName)))
            && Get(es, "an") == (if p.assetName == "" then None else Some(Text(p.assetName)))
            && Get(es, "au") == (if p.url == "" then None else Some(Text(p.url)))
            && Get(es, "am") == (if p.metadataHash == Zero32 then None else Some(Bytes(p.metadataHash)))
            && Get(es, "m") == (if p.manager == AddressCodec.ZeroAddress then None else Some(AddressValue(p.manager)))
            && Get(es, "r") == (if p.reserve == AddressCodec.ZeroAddress then None else Some(AddressValue(p.reserve)))
            && Get(es, "f") == (if p.freeze == AddressCodec.ZeroAddress then None else Some(AddressValue(p.freeze)))
            && Get(es, "c") == (if p.clawback == AddressCodec.ZeroAddress then None else Some(AddressValue(p.clawback)))
  {
    var fs := AssetParamsSpecs(p);
    AssetParamsTagsDistinct(p);
    GetEmit(fs, 0);
    GetEmit(fs, 1);
    GetEmit(fs, 2);
    GetEmit(fs, 3);
    GetEmit(fs, 4);
    GetEmit(fs, 5);
    GetEmit(fs, 6);
    GetEmit(fs, 7);
    GetEmit(fs, 8);
    GetEmit(fs, 9);
    GetEmit(fs, 10);
  }

  /** The default parameters are written as an empty record. */
  lemma DefaultAssetParamsIsEmpty()
    ensures EncodeAssetParams(DefaultAssetParams) == Record([])
  {
    EmitAllSkipped(AssetParamsSpecs(DefaultAssetParams));
  }

  lemma AssetParamsRoundTrip(p: AssetParams)
    ensures DecodeAssetParams(EncodeAssetParams(p)) == Some(p)
  {
    var es := Emit(AssetParamsSpecs(p));
    AssetParamsNumbersDecode(p);
    AssetParamsTextsDecode(p);
    AssetParamsAddressesDecode(p);
    DecodeAssetParamsOf(es, p);
  }

  /** The numeric and boolean fields read back as written. */
  lemma AssetParamsNumbersDecode(p: AssetParams)
    ensures var es := Emit(AssetParamsSpecs(p));
            && OptionalField(es, "t", 0, AsU64) == Some(p.total)
            && OptionalField(es, "dc", 0, AsU32) == Some(p.decimals)
            && OptionalField(es, "df", false, AsBool) == Some(p.defaultFrozen)
  {
    var fs := AssetParamsSpecs(p);
    AssetParamsTagsDistinct(p);
    FieldRoundTrip(fs, 0, p.total, 0, AsU64);
    FieldRoundTrip(fs, 1, p.decimals, 0, AsU32);
    FieldRoundTrip(fs, 2, p.defaultFrozen, false, AsBool);
  }

  /** The three names and the metadata hash read back as written. */
  lemma AssetParamsTextsDecode(p: AssetParams)
    ensures var es := Emit(AssetParamsSpecs(p));
            && OptionalField(es, "un", "", AsText) == Some(p.unitName)
            && OptionalField(es, "an", "", AsText) == Some(p.assetName)
            && OptionalField(es, "au", "", AsText) == Some(p.url)
            && OptionalField(es, "am", Zero32, AsBytes32) == Some(p.metadataHash)
  {
    var fs := AssetParamsSpecs(p);
    AssetParamsTagsDistinct(p);
    FieldRoundTrip(fs, 3, p.unitName, "", AsText);
    FieldRoundTrip(fs, 4, p.assetName, "", AsText);
    FieldRoundTrip(fs, 5, p.url, "", AsText);
    FieldRoundTrip(fs, 6, p.metadataHash, Zero32, AsBytes32);
  }

  /** The four role addresses read back as written. */
  lemma AssetParamsAddressesDecode(p: AssetParams)
    ensures var es := Emit(AssetParamsSpecs(p));
            && OptionalField(es, "m", AddressCodec.ZeroAddress, AsAddress) == Some(p.manager)
            && OptionalField(es, "r", AddressCodec.ZeroAddress, AsAddress) == Some(p.reserve)
            && OptionalField(es, "f", AddressCodec.ZeroAddress, AsAddress) == Some(p.freeze)
            && OptionalField(es, "c", AddressCodec.ZeroAddress, AsAddress) == Some(p.clawback)
  {
    var fs := AssetParamsSpecs(p);
    AssetParamsTagsDistinct(p);
    FieldRoundTrip(fs, 7, p.manager, AddressCodec.ZeroAddress, AsAddress);
    FieldRoundTrip(fs, 8, p.reserve, AddressCodec.ZeroAddress, AsAddress);
    FieldRoundTrip(fs, 9, p.freeze, AddressCodec.ZeroAddress, AsAddress);
    FieldRoundTrip(fs, 10, p.clawback, AddressCodec.ZeroAddress, AsAddress);
  }

  /** The decoder assembles the record from what each tag reads as. */
  lemma DecodeAssetParamsOf(es: seq<Entry>, p: AssetParams)
    requires OptionalField(es, "t", 0, AsU64) == Some(p.total)
    requires OptionalField(es, "dc", 0, AsU32) == Some(p.decimals)
    requires OptionalField(es, "df", false, AsBool) == Some(p.defaultFrozen)
    requires OptionalField(es, "un", "", AsText) == Some(p.unitName)
    requires OptionalField(es, "an", "", AsText) == Some(p.assetName)
    requires OptionalField(es, "au", "", AsText) == Some(p.url)
    requires OptionalField(es, "am", Zero32, AsBytes32) == Some(p.metadataHash)
    requires OptionalField(es, "m", AddressCodec.ZeroAddress, AsAddress) == Some(p.manager)
    requires OptionalField(es, "r", AddressCodec.ZeroAddress, AsAddress) == Some(p.reserve)
    requires OptionalField(es, "f", AddressCodec.ZeroAddress, AsAddress) == Some(p.freeze)
    requires OptionalField(es, "c", AddressCodec.ZeroAddress, AsAddress) == Some(p.clawback)
    ensures DecodeAssetParams(Record(es)) == Some(p)
  {
  }

  lemma DefaultWithinBounds()
    ensures WithinBounds(DefaultAssetParams)
  {
  }

  /** The bounds are declared but not enforced: a record with twenty decimals decodes. */
  lemma DecodeIgnoresBounds()
    ensures var r := DecodeAssetParams(Record([Entry("dc", UInt(20))]));
            r.Some? && r.value.decimals == 20 && !WithinBounds(r.value)
  {
  }
}
