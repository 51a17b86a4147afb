/**
  Application-call fields (src/types/applications.rs): the part of a transaction
  that calls a smart-contract application, what the call does to the sender's
  local state (`OnCompletion`), and the storage bounds of an application.
 */
module Applications {
  import opened Wrappers
  import opened Basics
  import opened Schema
  import AddressCodec

  type AppIndex = u64
  type AssetIndex = u64

  /** Allocation bounds on the lists of a call decoded off the wire. */
  const ENCODED_MAX_APPLICATION_ARGS: nat := 32
  const ENCODED_MAX_ACCOUNTS: nat := 32
  const ENCODED_MAX_FOREIGN_APPS: nat := 32
  const ENCODED_MAX_FOREIGN_ASSETS: nat := 32

  /** The layer-1 side effect of an application call. */
  datatype OnCompletion =
    | NoOpOC
    | OptInOC
    | CloseOutOC
    | ClearStateOC
    | UpdateApplicationOC
    | DeleteApplicationOC

  /** `OnCompletion::default()`. */
  const DefaultOnCompletion: OnCompletion := NoOpOC

  /** A unit variant is written as its name. */
  function OnCompletionName(oc: OnCompletion): string
  {
    match oc
    case NoOpOC => "NoOpOC"
    case OptInOC => "OptInOC"
    case CloseOutOC => "CloseOutOC"
    case ClearStateOC => "ClearStateOC"
    case UpdateApplicationOC => "UpdateApplicationOC"
    case DeleteApplicationOC => "DeleteApplicationOC"
  }

  function AsOnCompletion(v: Value): (r: Option<OnCompletion>)
    ensures r.Some? ==> v == Text(OnCompletionName(r.value))
  {
    if !v.Text? then None
    else if v.text == "NoOpOC" then Some(NoOpOC)
    else if v.text == "OptInOC" then Some(OptInOC)
    else if v.text == "CloseOutOC" then Some(CloseOutOC)
    else if v.text == "ClearStateOC" then Some(ClearStateOC)
    else if v.text == "UpdateApplicationOC" then Some(UpdateApplicationOC)
    else if v.text == "DeleteApplicationOC" then Some(DeleteApplicationOC)
    else None
  }

  /** Every variant reads back from its name, and no two variants share a name. */
  lemma OnCompletionNames(oc: OnCompletion, other: OnCompletion)
    ensures AsOnCompletion(Text(OnCompletionName(oc))) == Some(oc)
    ensures oc != other ==> OnCompletionName(oc) != OnCompletionName(other)
  {
  }

  /** Maximum numbers of integer and byte-slice values an application may store. */
  datatype StateSchema = StateSchema(numUint: u64, numByteSlice: u64)

  const DefaultStateSchema: StateSchema := StateSchema(0, 0)

  function StateSchemaSpecs(s: StateSchema): seq<FieldSpec>
  {
    [ OmitIfDefault("nui", s.numUint, 0, UInt(s.numUint)),
      OmitIfDefault("nbs", s.numByteSlice, 0, UInt(s.numByteSlice)) ]
  }

  function EncodeStateSchema(s: StateSchema): Value
  {
    Record(Emit(StateSchemaSpecs(s)))
  }

  function DecodeStateSchema(v: Value): Option<StateSchema>
  {
    if !v.Record? then None
    else
      var numUint :- OptionalField(v.entries, "nui", 0, AsU64);
      var numByteSlice :- OptionalField(v.entries, "nbs", 0, AsU64);
      Some(StateSchema(numUint, numByteSlice))
  }

  /** `nui` and `nbs` are written exactly when not zero; the zero schema is empty. */
  lemma StateSchemaOmission(s: StateSchema)
    ensures var es := Emit(StateSchemaSpecs(s));
            && Get(es, "nui") == (if s.numUint == 0 then None else Some(UInt(s.numUint)))
            && Get(es, "nbs") == (if s.numByteSlice == 0 then None else Some(UInt(s.numByteSlice)))
            && (s == DefaultStateSchema <==> es == [])
  {
    var fs := StateSchemaSpecs(s);
    GetEmit(fs, 0);
    GetEmit(fs, 1);
  }

  lemma StateSchemaRoundTrip(s: StateSchema)
    ensures DecodeStateSchema(EncodeStateSchema(s)) == Some(s)
  {
    var fs := StateSchemaSpecs(s);
    FieldRoundTrip(fs, 0, s.numUint, 0, AsU64);
    FieldRoundTrip(fs, 1, s.numByteSlice, 0, AsU64);
  }

  datatype AppCallFields = AppCallFields(
    applicationId: AppIndex,
    onCompletion: OnCompletion,
    applicationArgs: seq<seq<byte>>,
    accounts: seq<AddressCodec.Address>,
    foreignApps: seq<AppIndex>,
    foreignAssets: seq<AssetIndex>,
    localStateSchema: StateSchema,
    globalStateSchema: StateSchema,
    approvalProgram: seq<byte>,
    clearStateProgram: seq<byte>,
    extraProgramPages: u32)

  const DefaultAppCallFields: AppCallFields :=
    AppCallFields(0, DefaultOnCompletion, [], [], [], [], DefaultStateSchema, DefaultStateSchema, [], [], 0)

  /** The allocation bounds the module declares for the four lists of a call. */
  predicate WithinAllocationBounds(a: AppCallFields)
  {
    && |a.applicationArgs| <= ENCODED_MAX_APPLICATION_ARGS
    && |a.accounts| <= ENCODED_MAX_ACCOUNTS
    && |a.foreignApps| <= ENCODED_MAX_FOREIGN_APPS
    && |a.foreignAssets| <= ENCODED_MAX_FOREIGN_ASSETS
  }

  function OnCompletionValue(oc: OnCompletion): Value
  {
    Text(OnCompletionName(oc))
  }

  function AppCallSpecs(a: AppCallFields): seq<FieldSpec>
  {
    [ OmitIfDefault("apid", a.applicationId, 0, UInt(a.applicationId)),
      OmitIfDefault("apan", a.onCompletion, DefaultOnCompletion, OnCompletionValue(a.onCompletion)),
      OmitIfDefault("apaa", a.applicationArgs, [], BytesList(a.applicationArgs)),
      OmitIfDefault("apat", a.accounts, [], AddressList(a.accounts)),
      OmitIfDefault("apfa", a.foreignApps, [], UIntList(a.foreignApps)),
      OmitIfDefault("apas", a.foreignAssets, [], UIntList(a.foreignAssets)),
      OmitIfDefault("apls", a.localStateSchema, DefaultStateSchema, EncodeStateSchema(a.localStateSchema)),
      OmitIfDefault("apgs", a.globalStateSchema, DefaultStateSchema, EncodeStateSchema(a.globalStateSchema)),
      OmitIfDefault("apap", a.approvalProgram, [], Bytes(a.approvalProgram)),
      OmitIfDefault("apsu", a.clearStateProgram, [], Bytes(a.clearStateProgram)),
      OmitIfDefault("apep", a.extraProgramPages, 0, UInt(a.extraProgramPages)) ]
  }

  const AppCallTags: seq<Tag> :=
    ["apid", "apan", "apaa", "apat", "apfa", "apas", "apls", "apgs", "apap", "apsu", "apep"]

  function AppCallEntries(a: AppCallFields): seq<Entry>
  {
    Emit(AppCallSpecs(a))
  }

  function DecodeAppCallFields(es: seq<Entry>): Option<AppCallFields>
  {
    var applicationId :- OptionalField(es, "apid", 0, AsU64);
    var onCompletion :- OptionalField(es, "apan", DefaultOnCompletion, AsOnCompletion);
    var applicationArgs :- OptionalField(es, "apaa", [], AsBytesList);
    var accounts :- OptionalField(es, "apat", [], AsAddressList);
    var foreignApps :- OptionalField(es, "apfa", [], AsUIntList);
    var foreignAssets :- OptionalField(es, "apas", [], AsUIntList);
    var localStateSchema :- OptionalField(es, "apls", DefaultStateSchema, DecodeStateSchema);
    var globalStateSchema :- OptionalField(es, "apgs", DefaultStateSchema, DecodeStateSchema);
    var approvalProgram :- OptionalField(es, "apap", [], AsBytes);
    var clearStateProgram :- OptionalField(es, "apsu", [], AsBytes);
    var extraProgramPages :- OptionalField(es, "apep", 0, AsU32);
    Some(AppCallFields(applicationId, onCompletion, applicationArgs, accounts, foreignApps, foreignAssets,
                       localStateSchema, globalStateSchema, approvalProgram, clearStateProgram, extraProgramPages))
  }

  /** The eleven tags, in declaration order, all different. */
  lemma AppCallTagsDistinct(a: AppCallFields)
    ensures Tags(AppCallSpecs(a)) == AppCallTags
    ensures Distinct(AppCallTags)
  {
  }

  /** A plain call (`NoOpOC`) carries no `apan`; every other completion carries its
      name; the schemas are written only when not zero. */
  lemma AppCallOmission(a: AppCallFields)
    ensures var es := AppCallEntries(a);
            && Get(es, "apid") == (if a.applicationId == 0 then None else Some(UInt(a.applicationId)))
            && Get(es, "apan") == (if a.onCompletion == NoOpOC then None else Some(Text(OnCompletionName(a.onCompletion))))
            && Get(es, "apls") == (if a.localStateSchema == DefaultStateSchema then None
                                   else Some(EncodeStateSchema(a.localStateSchema)))
            && Get(es, "apgs") == (if a.globalStateSchema == DefaultStateSchema then None
                                   else Some(EncodeStateSchema(a.globalStateSchema)))
            && Get(es, "apep") == (if a.extraProgramPages == 0 then None else Some(UInt(a.extraProgramPages)))
  {
    var fs := AppCallSpecs(a);
    AppCallTagsDistinct(a);
    GetEmit(fs, 0);
    GetEmit(fs, 1);
    GetEmit(fs, 6);
    GetEmit(fs, 7);
    GetEmit(fs, 10);
  }

  /** The four lists and two programs are written exactly when not empty, each list
      with its elements in order. */
  lemma AppCallListsOmission(a: AppCallFields)
    ensures var es := AppCallEntries(a);
            && Get(es, "apaa") == (if a.applicationArgs == [] then None else Some(BytesList(a.applicationArgs)))
            && Get(es, "apat") == (if a.accounts == [] then None else Some(AddressList(a.accounts)))
            && Get(es, "apfa") == (if a.foreignApps == [] then None else Some(UIntList(a.foreignApps)))
            && Get(es, "apas") == (if a.foreignAssets == [] then None else Some(UIntList(a.foreignAssets)))
            && Get(es, "apap") == (if a.approvalProgram == [] then None else Some(Bytes(a.approvalProgram)))
            && Get(es, "apsu") == (if a.clearStateProgram == [] then None else Some(Bytes(a.clearStateProgram)))
  {
    var fs := AppCallSpecs(a);
    AppCallTagsDistinct(a);
    GetEmit(fs, 2);
    GetEmit(fs, 3);
    GetEmit(fs, 4);
    GetEmit(fs, 5);
    GetEmit(fs, 8);
    GetEmit(fs, 9);
  }

  lemma DefaultAppCallIsEmpty()
    ensures AppCallEntries(DefaultAppCallFields) == []
  {
    EmitAllSkipped(AppCallSpecs(DefaultAppCallFields));
  }

  lemma AppCallRoundTrip(a: AppCallFields)
    ensures DecodeAppCallFields(AppCallEntries(a)) == Some(a)
  {
    AppCallScalarsDecode(a);
    AppCallListsDecode(a);
    AppCallProgramsDecode(a);
    DecodeAppCallFieldsOf(AppCallEntries(a), a);
  }

  /** The decoder assembles the fields from what each tag reads as. */
  lemma DecodeAppCallFieldsOf(es: seq<Entry>, a: AppCallFields)
    requires OptionalField(es, "apid", 0, AsU64) == Some(a.applicationId)
    requires OptionalField(es, "apan", DefaultOnCompletion, AsOnCompletion) == Some(a.onCompletion)
    requires OptionalField(es, "apaa", [], AsBytesList) == Some(a.applicationArgs)
    requires OptionalField(es, "apat", [], AsAddressList) == Some(a.accounts)
    requires OptionalField(es, "apfa", [], AsUIntList) == Some(a.foreignApps)
    requires OptionalField(es, "apas", [], AsUIntList) == Some(a.foreignAssets)
    requires OptionalField(es, "apls", DefaultStateSchema, DecodeStateSchema) == Some(a.localStateSchema)
    requires OptionalField(es, "apgs", DefaultStateSchema, DecodeStateSchema) == Some(a.globalStateSchema)
    requires OptionalField(es, "apap", [], AsBytes) == Some(a.approvalProgram)
    requires OptionalField(es, "apsu", [], AsBytes) == Some(a.clearStateProgram)
    requires OptionalField(es, "apep", 0, AsU32) == Some(a.extraProgramPages)
    ensures DecodeAppCallFields(es) == Some(a)
  {
  }

  /** The id, completion and page count read back as written. */
  lemma AppCallScalarsDecode(a: AppCallFields)
    ensures var es := AppCallEntries(a);
            && OptionalField(es, "apid", 0, AsU64) == Some(a.applicationId)
            && OptionalField(es, "apan", DefaultOnCompletion, AsOnCompletion) == Some(a.onCompletion)
            && OptionalField(es, "apep", 0, AsU32) == Some(a.extraProgramPages)
  {
    var fs := AppCallSpecs(a);
    AppCallTagsDistinct(a);
    OnCompletionNames(a.onCompletion, a.onCompletion);
    FieldRoundTrip(fs, 0, a.applicationId, 0, AsU64);
    FieldRoundTrip(fs, 1, a.onCompletion, DefaultOnCompletion, AsOnCompletion);
    FieldRoundTrip(fs, 10, a.extraProgramPages, 0, AsU32);
  }

  /** The four lists read back as written, in order. */
  lemma AppCallListsDecode(a: AppCallFields)
    ensures var es := AppCallEntries(a);
            && OptionalField(es, "apaa", [], AsBytesList) == Some(a.applicationArgs)
            && OptionalField(es, "apat", [], AsAddressList) == Some(a.accounts)
            && OptionalField(es, "apfa", [], AsUIntList) == Some(a.foreignApps)
            && OptionalField(es, "apas", [], AsUIntList) == Some(a.foreignAssets)
  {
    var fs := AppCallSpecs(a);
    AppCallTagsDistinct(a);
    BytesListRoundTrip(a.applicationArgs);
    AddressListRoundTrip(a.accounts);
    UIntListRoundTrip(a.foreignApps);
    UIntListRoundTrip(a.foreignAssets);
    FieldRoundTrip(fs, 2, a.applicationArgs, [], AsBytesList);
    FieldRoundTrip(fs, 3, a.accounts, [], AsAddressList);
    FieldRoundTrip(fs, 4, a.foreignApps, [], AsUIntList);
    FieldRoundTrip(fs, 5, a.foreignAssets, [], AsUIntList);
  }

  /** The two schemas and the two programs read back as written. */
  lemma AppCallProgramsDecode(a: AppCallFields)
    ensures var es := AppCallEntries(a);
            && OptionalField(es, "apls", DefaultStateSchema, DecodeStateSchema) == Some(a.localStateSchema)
            && OptionalField(es, "apgs", DefaultStateSchema, DecodeStateSchema) == Some(a.globalStateSchema)
            && OptionalField(es, "apap", [], AsBytes) == Some(a.approvalProgram)
            && OptionalField(es, "apsu", [], AsBytes) == Some(a.clearStateProgram)
  {
    var fs := AppCallSpecs(a);
    AppCallTagsDistinct(a);
    StateSchemaRoundTrip(a.localStateSchema);
    StateSchemaRoundTrip(a.globalStateSchema);
    FieldRoundTrip(fs, 6, a.localStateSchema, DefaultStateSchema, DecodeStateSchema);
    FieldRoundTrip(fs, 7, a.globalStateSchema, DefaultStateSchema, DecodeStateSchema);
    FieldRoundTrip(fs, 8, a.approvalProgram, [], AsBytes);
    FieldRoundTrip(fs, 9, a.clearStateProgram, [], AsBytes);
  }

  /** The allocation bounds are declared but not enforced: a call naming more than
      32 foreign applications decodes. */
  lemma DecodeIgnoresAllocationBounds(apps: seq<AppIndex>)
    requires |apps| > ENCODED_MAX_FOREIGN_APPS
    ensures var r := DecodeAppCallFields([Entry("apfa", UIntList(apps))]);
            r.Some? && r.value.foreignApps == apps && !WithinAllocationBounds(r.value)
  {
    var es := [Entry("apfa", UIntList(apps))];
    forall t: Tag ensures Locate(es, t) == if t == "apfa" then At(0) else Absent {
      LocateSingle(es[0], t);
    }
    UIntListRoundTrip(apps);
    DecodeAppCallFieldsOf(es, DefaultAppCallFields.(foreignApps := apps));
  }
}
