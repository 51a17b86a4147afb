/**
  Blocks (src/types/block.rs): the block header with its rewards state and upgrade
  vote, the payset, and the signed transactions a block carries together with the
  data of their application (`ApplyData`), whose evaluation deltas nest inner
  transactions of the same kind.

  The block header, the rewards state, the upgrade vote and the upgrade state use
  their field names as tags and write every field; the header never writes its
  upgrade state. The other records leave out every field that holds its default.
  Maps from keys to deltas are Dafny maps: they carry no order.
 */
module Blocks {
  import opened Wrappers
  import opened Basics
  import opened Schema
  import AddressCodec
  import Signatures
  import Transactions

  type Address = AddressCodec.Address

  const ZeroAddress: Address := AddressCodec.ZeroAddress

  type SignedTx = Transactions.SignedTx

  // Rewards and protocol upgrades.

  /** The parameters of reward accrual: the fee sink, the rewards pool and the reward counters. */
  datatype RewardsState = RewardsState(
    feeSink: Address,
    rewardsPool: Address,
    rewardsLevel: u64,
    rewardsRate: u64,
    rewardsResidue: u64,
    rewardsRecalculationRound: Round)

  const DefaultRewardsState: RewardsState :=
    RewardsState(ZeroAddress, ZeroAddress, 0, 0, 0, 0)

  function RewardsStateSpecs(r: RewardsState): seq<FieldSpec>
  {
    [ Always("fee_sink", AddressValue(r.feeSink)),
      Always("rewards_pool", AddressValue(r.rewardsPool)),
      Always("rewards_level", UInt(r.rewardsLevel)),
      Always("rewards_rate", UInt(r.rewardsRate)),
      Always("rewards_residue", UInt(r.rewardsResidue)),
      Always("rewards_recalculation_round", UInt(r.rewardsRecalculationRound)) ]
  }

  const RewardsStateTags: seq<Tag> := ["fee_sink", "rewards_pool", "rewards_level", "rewards_rate", "rewards_residue", "rewards_recalculation_round"]

  function RewardsStateEntries(r: RewardsState): seq<Entry>
  {
    Emit(RewardsStateSpecs(r))
  }

  function DecodeRewardsState(es: seq<Entry>): Option<RewardsState>
  {
    var feeSink :- RequiredField(es, "fee_sink", AsAddress);
    var rewardsPool :- RequiredField(es, "rewards_pool", AsAddress);
    var rewardsLevel :- RequiredField(es, "rewards_level", AsU64);
    var rewardsRate :- RequiredField(es, "rewards_rate", AsU64);
    var rewardsResidue :- RequiredField(es, "rewards_residue", AsU64);
    var rewardsRecalculationRound :- RequiredField(es, "rewards_recalculation_round", AsU64);
    Some(RewardsState(feeSink, rewardsPool, rewardsLevel, rewardsRate, rewardsResidue, rewardsRecalculationRound))
  }

  /** The 6 tags are all different. */
  lemma RewardsStateTagsDistinct()
    ensures Distinct(RewardsStateTags)
  {
  }

  /** The fields carry these tags, in declaration order. */
  lemma RewardsStateSpecsTags(r: RewardsState)
    ensures Tags(RewardsStateSpecs(r)) == RewardsStateTags
  {
  }

  /** Each of these fields is always written, with its value. */
  lemma RewardsStateWritten(r: RewardsState)
    ensures var es := RewardsStateEntries(r);
            && Get(es, "fee_sink") == Some(AddressValue(r.feeSink))
            && Get(es, "rewards_pool") == Some(AddressValue(r.rewardsPool))
            && Get(es, "rewards_level") == Some(UInt(r.rewardsLevel))
            && Get(es, "rewards_rate") == Some(UInt(r.rewardsRate))
            && Get(es, "rewards_residue") == Some(UInt(r.rewardsResidue))
            && Get(es, "rewards_recalculation_round") == Some(UInt(r.rewardsRecalculationRound))
  {
    var fs := RewardsStateSpecs(r);
    RewardsStateSpecsTags(r);
    RewardsStateTagsDistinct();
    GetEmit(fs, 0);
    GetEmit(fs, 1);
    GetEmit(fs, 2);
    GetEmit(fs, 3);
    GetEmit(fs, 4);
    GetEmit(fs, 5);
  }

  lemma RewardsStateRoundTrip(r: RewardsState)
    ensures DecodeRewardsState(RewardsStateEntries(r)) == Some(r)
  {
    RewardsStateDecode1(r);
    RewardsStateDecode2(r);
    DecodeRewardsStateOf(RewardsStateEntries(r), r);
  }

  lemma RewardsStateDecode1(r: RewardsState)
    ensures var es := RewardsStateEntries(r);
            && RequiredField(es, "fee_sink", AsAddress) == Some(r.feeSink)
            && RequiredField(es, "rewards_pool", AsAddress) == Some(r.rewardsPool)
            && RequiredField(es, "rewards_level", AsU64) == Some(r.rewardsLevel)
  {
    var fs := RewardsStateSpecs(r);
    RewardsStateSpecsTags(r);
    RewardsStateTagsDistinct();
    RequiredRoundTrip(fs, 0, r.feeSink, AsAddress);
    RequiredRoundTrip(fs, 1, r.rewardsPool, AsAddress);
    RequiredRoundTrip(fs, 2, r.rewardsLevel, AsU64);
  }

  lemma RewardsStateDecode2(r: RewardsState)
    ensures var es := RewardsStateEntries(r);
            && RequiredField(es, "rewards_rate", AsU64) == Some(r.rewardsRate)
            && RequiredField(es, "rewards_residue", AsU64) == Some(r.rewardsResidue)
            && RequiredField(es, "rewards_recalculation_round", AsU64) == Some(r.rewardsRecalculationRound)
  {
    var fs := RewardsStateSpecs(r);
    RewardsStateSpecsTags(r);
    RewardsStateTagsDistinct();
    RequiredRoundTrip(fs, 3, r.rewardsRate, AsU64);
    RequiredRoundTrip(fs, 4, r.rewardsResidue, AsU64);
    RequiredRoundTrip(fs, 5, r.rewardsRecalculationRound, AsU64);
  }

  /** The decoder assembles the record from what each tag reads as. */
  lemma DecodeRewardsStateOf(es: seq<Entry>, r: RewardsState)
    requires RequiredField(es, "fee_sink", AsAddress) == Some(r.feeSink)
    requires RequiredField(es, "rewards_pool", AsAddress) == Some(r.rewardsPool)
    requires RequiredField(es, "rewards_level", AsU64) == Some(r.rewardsLevel)
    requires RequiredField(es, "rewards_rate", AsU64) == Some(r.rewardsRate)
    requires RequiredField(es, "rewards_residue", AsU64) == Some(r.rewardsResidue)
    requires RequiredField(es, "rewards_recalculation_round", AsU64) == Some(r.rewardsRecalculationRound)
    ensures DecodeRewardsState(es) == Some(r)
  {
  }

  function EncodeRewardsState(r: RewardsState): Value
  {
    Record(RewardsStateEntries(r))
  }

  function AsRewardsState(v: Value): Option<RewardsState>
  {
    if v.Record? then DecodeRewardsState(v.entries) else None
  }

  /** Every field is written, under its own name, in declaration order. */
  lemma RewardsStateAllWritten(r: RewardsState)
    ensures EntryTags(RewardsStateEntries(r)) == RewardsStateTags
  {
    var fs := RewardsStateSpecs(r);
    RewardsStateSpecsTags(r);
    EmitNoneSkipped(fs);
    assert EntryTags(Emit(fs)) == Tags(fs);
  }

  /** The block proposer's vote on protocol upgrades. */
  datatype UpgradeVote = UpgradeVote(
    upgradePropose: string,
    upgradeDelay: Round,
    upgradeApprove: bool)

  const DefaultUpgradeVote: UpgradeVote :=
    UpgradeVote("", 0, false)

  function UpgradeVoteSpecs(u: UpgradeVote): seq<FieldSpec>
  {
    [ Always("upgrade_propose", Text(u.upgradePropose)),
      Always("upgrade_delay", UInt(u.upgradeDelay)),
      Always("upgrade_approve", Bool(u.upgradeApprove)) ]
  }

  const UpgradeVoteTags: seq<Tag> := ["upgrade_propose", "upgrade_delay", "upgrade_approve"]

  function UpgradeVoteEntries(u: UpgradeVote): seq<Entry>
  {
    Emit(UpgradeVoteSpecs(u))
  }

  function DecodeUpgradeVote(es: seq<Entry>): Option<UpgradeVote>
  {
    var upgradePropose :- RequiredField(es, "upgrade_propose", AsText);
    var upgradeDelay :- RequiredField(es, "upgrade_delay", AsU64);
    var upgradeApprove :- RequiredField(es, "upgrade_approve", AsBool);
    Some(UpgradeVote(upgradePropose, upgradeDelay, upgradeApprove))
  }

  /** The 3 tags are all different. */
  lemma UpgradeVoteTagsDistinct()
    ensures Distinct(UpgradeVoteTags)
  {
  }

  /** The fields carry these tags, in declaration order. */
  lemma UpgradeVoteSpecsTags(u: UpgradeVote)
    ensures Tags(UpgradeVoteSpecs(u)) == UpgradeVoteTags
  {
  }

  /** Each of these fields is always written, with its value. */
  lemma UpgradeVoteWritten(u: UpgradeVote)
    ensures var es := UpgradeVoteEntries(u);
            && Get(es, "upgrade_propose") == Some(Text(u.upgradePropose))
            && Get(es, "upgrade_delay") == Some(UInt(u.upgradeDelay))
            && Get(es, "upgrade_approve") == Some(Bool(u.upgradeApprove))
  {
    var fs := UpgradeVoteSpecs(u);
    UpgradeVoteSpecsTags(u);
    UpgradeVoteTagsDistinct();
    GetEmit(fs, 0);
    GetEmit(fs, 1);
    GetEmit(fs, 2);
  }

  lemma UpgradeVoteRoundTrip(u: UpgradeVote)
    ensures DecodeUpgradeVote(UpgradeVoteEntries(u)) == Some(u)
  {
    var fs := UpgradeVoteSpecs(u);
    UpgradeVoteSpecsTags(u);
    UpgradeVoteTagsDistinct();
    RequiredRoundTrip(fs, 0, u.upgradePropose, AsText);
    RequiredRoundTrip(fs, 1, u.upgradeDelay, AsU64);
    RequiredRoundTrip(fs, 2, u.upgradeApprove, AsBool);
  }

  function EncodeUpgradeVote(u: UpgradeVote): Value
  {
    Record(UpgradeVoteEntries(u))
  }

  function AsUpgradeVote(v: Value): Option<UpgradeVote>
  {
    if v.Record? then DecodeUpgradeVote(v.entries) else None
  }

  /** The state of the protocol upgrade machinery; `nextProtocol` is written as nil when absent. */
  datatype UpgradeState = UpgradeState(
    currentProtocol: string,
    nextProtocol: Option<string>,
    nextProtocolApprovals: u64,
    nextProtocolVoteBefore: Round,
    nextProtocolSwitchOn: Round)

  const DefaultUpgradeState: UpgradeState :=
    UpgradeState("", None, 0, 0, 0)

  function UpgradeStateSpecs(s: UpgradeState): seq<FieldSpec>
  {
    [ Always("proto", Text(s.currentProtocol)),
      Always("nextproto", OptionValue(s.nextProtocol, TextValue)),
      Always("nextyes", UInt(s.nextProtocolApprovals)),
      Always("nextbefore", UInt(s.nextProtocolVoteBefore)),
      Always("nextswitch", UInt(s.nextProtocolSwitchOn)) ]
  }

  const UpgradeStateTags: seq<Tag> := ["proto", "nextproto", "nextyes", "nextbefore", "nextswitch"]

  function UpgradeStateEntries(s: UpgradeState): seq<Entry>
  {
    Emit(UpgradeStateSpecs(s))
  }

  function DecodeUpgradeState(es: seq<Entry>): Option<UpgradeState>
  {
    var currentProtocol :- RequiredField(es, "proto", AsText);
    var nextProtocol :- OptionalField(es, "nextproto", None, (w: Value) => AsOption(w, AsText));
    var nextProtocolApprovals :- RequiredField(es, "nextyes", AsU64);
    var nextProtocolVoteBefore :- RequiredField(es, "nextbefore", AsU64);
    var nextProtocolSwitchOn :- RequiredField(es, "nextswitch", AsU64);
    Some(UpgradeState(currentProtocol, nextProtocol, nextProtocolApprovals, nextProtocolVoteBefore, nextProtocolSwitchOn))
  }

  /** The 5 tags are all different. */
  lemma UpgradeStateTagsDistinct()
    ensures Distinct(UpgradeStateTags)
  {
  }

  /** The fields carry these tags, in declaration order. */
  lemma UpgradeStateSpecsTags(s: UpgradeState)
    ensures Tags(UpgradeStateSpecs(s)) == UpgradeStateTags
  {
  }

  /** Each of these fields is always written, with its value. */
  lemma UpgradeStateWritten(s: UpgradeState)
    ensures var es := UpgradeStateEntries(s);
            && Get(es, "proto") == Some(Text(s.currentProtocol))
            && Get(es, "nextproto") == Some(OptionValue(s.nextProtocol, TextValue))
            && Get(es, "nextyes") == Some(UInt(s.nextProtocolApprovals))
            && Get(es, "nextbefore") == Some(UInt(s.nextProtocolVoteBefore))
            && Get(es, "nextswitch") == Some(UInt(s.nextProtocolSwitchOn))
  {
    var fs := UpgradeStateSpecs(s);
    UpgradeStateSpecsTags(s);
    UpgradeStateTagsDistinct();
    GetEmit(fs, 0);
    GetEmit(fs, 1);
    GetEmit(fs, 2);
    GetEmit(fs, 3);
    GetEmit(fs, 4);
  }

  lemma UpgradeStateRoundTrip(s: UpgradeState)
    ensures DecodeUpgradeState(UpgradeStateEntries(s)) == Some(s)
  {
    UpgradeStateDecode1(s);
    UpgradeStateDecode2(s);
    DecodeUpgradeStateOf(UpgradeStateEntries(s), s);
  }

  lemma UpgradeStateDecode1(s: UpgradeState)
    ensures var es := UpgradeStateEntries(s);
            && RequiredField(es, "proto", AsText) == Some(s.currentProtocol)
            && OptionalField(es, "nextproto", None, (w: Value) => AsOption(w, AsText)) == Some(s.nextProtocol)
            && RequiredField(es, "nextyes", AsU64) == Some(s.nextProtocolApprovals)
  {
    var fs := UpgradeStateSpecs(s);
    UpgradeStateSpecsTags(s);
    UpgradeStateTagsDistinct();
    AsOptionValue(s.nextProtocol, TextValue, AsText);
    RequiredRoundTrip(fs, 0, s.currentProtocol, AsText);
    EmittedRoundTrip(fs, 1, s.nextProtocol, None, (w: Value) => AsOption(w, AsText));
    RequiredRoundTrip(fs, 2, s.nextProtocolApprovals, AsU64);
  }

  lemma UpgradeStateDecode2(s: UpgradeState)
    ensures var es := UpgradeStateEntries(s);
            && RequiredField(es, "nextbefore", AsU64) == Some(s.nextProtocolVoteBefore)
            && RequiredField(es, "nextswitch", AsU64) == Some(s.nextProtocolSwitchOn)
  {
    var fs := UpgradeStateSpecs(s);
    UpgradeStateSpecsTags(s);
    UpgradeStateTagsDistinct();
    RequiredRoundTrip(fs, 3, s.nextProtocolVoteBefore, AsU64);
    RequiredRoundTrip(fs, 4, s.nextProtocolSwitchOn, AsU64);
  }

  /** The decoder assembles the record from what each tag reads as. */
  lemma DecodeUpgradeStateOf(es: seq<Entry>, s: UpgradeState)
    requires RequiredField(es, "proto", AsText) == Some(s.currentProtocol)
    requires OptionalField(es, "nextproto", None, (w: Value) => AsOption(w, AsText)) == Some(s.nextProtocol)
    requires RequiredField(es, "nextyes", AsU64) == Some(s.nextProtocolApprovals)
    requires RequiredField(es, "nextbefore", AsU64) == Some(s.nextProtocolVoteBefore)
    requires RequiredField(es, "nextswitch", AsU64) == Some(s.nextProtocolSwitchOn)
    ensures DecodeUpgradeState(es) == Some(s)
  {
  }

  /** A record written without "nextproto" still reads, with no next protocol. */
  lemma NextProtocolMayBeAbsent(es: seq<Entry>)
    requires Find(es, "nextproto").Missing?
    ensures OptionalField(es, "nextproto", None, (w: Value) => AsOption(w, AsText)) == Some(None)
  {
  }

  // The block header.

  /** The metadata of a block and its commitments to the state; `upgradeState` is never serialised. */
  datatype BlockHeader = BlockHeader(
    round: Round,
    branch: Digest,
    seed: Bytes32,
    txRoot: Digest,
    timestamp: u64,
    genesisId: string,
    genesisHash: Digest,
    rewardsState: RewardsState,
    upgradeState: UpgradeState,
    upgradeVote: UpgradeVote,
    txCounter: u64)

  const DefaultBlockHeader: BlockHeader :=
    BlockHeader(0, Zero32, Zero32, Zero32, 0, "", Zero32, DefaultRewardsState, DefaultUpgradeState, DefaultUpgradeVote, 0)

  function BlockHeaderSpecs(b: BlockHeader): seq<FieldSpec>
  {
    [ Always("round", UInt(b.round)),
      Always("branch", Bytes(b.branch)),
      Always("seed", Bytes(b.seed)),
      Always("tx_root", Bytes(b.txRoot)),
      Always("timestamp", UInt(b.timestamp)),
      Always("genesis_id", Text(b.genesisId)),
      Always("genesis_hash", Bytes(b.genesisHash)),
      Always("rewards_state", EncodeRewardsState(b.rewardsState)),
      Always("upgrade_vote", EncodeUpgradeVote(b.upgradeVote)),
      Always("tx_counter", UInt(b.txCounter)) ]
  }

  const BlockHeaderTags: seq<Tag> := ["round", "branch", "seed", "tx_root", "timestamp", "genesis_id", "genesis_hash", "rewards_state", "upgrade_vote", "tx_counter"]

  function BlockHeaderEntries(b: BlockHeader): seq<Entry>
  {
    Emit(BlockHeaderSpecs(b))
  }

  function DecodeBlockHeader(es: seq<Entry>): Option<BlockHeader>
  {
    var round :- RequiredField(es, "round", AsU64);
    var branch :- RequiredField(es, "branch", AsBytes32);
    var seed :- RequiredField(es, "seed", AsBytes32);
    var txRoot :- RequiredField(es, "tx_root", AsBytes32);
    var timestamp :- RequiredField(es, "timestamp", AsU64);
    var genesisId :- RequiredField(es, "genesis_id", AsText);
    var genesisHash :- RequiredField(es, "genesis_hash", AsBytes32);
    var rewardsState :- RequiredField(es, "rewards_state", AsRewardsState);
    var upgradeVote :- RequiredField(es, "upgrade_vote", AsUpgradeVote);
    var txCounter :- RequiredField(es, "tx_counter", AsU64);
    Some(BlockHeader(round, branch, seed, txRoot, timestamp, genesisId, genesisHash, rewardsState, DefaultUpgradeState, upgradeVote, txCounter))
  }

  /** The 10 tags are all different. */
  lemma BlockHeaderTagsDistinct()
    ensures Distinct(BlockHeaderTags)
  {
  }

  /** The fields carry these tags, in declaration order. */
  lemma BlockHeaderSpecsTags(b: BlockHeader)
    ensures Tags(BlockHeaderSpecs(b)) == BlockHeaderTags
  {
  }

  /** Each of these fields is always written, with its value. */
  lemma BlockHeaderWritten1(b: BlockHeader)
    ensures var es := BlockHeaderEntries(b);
            && Get(es, "round") == Some(UInt(b.round))
            && Get(es, "branch") == Some(Bytes(b.branch))
            && Get(es, "seed") == Some(Bytes(b.seed))
            && Get(es, "tx_root") == Some(Bytes(b.txRoot))
            && Get(es, "timestamp") == Some(UInt(b.timestamp))
  {
    var fs := BlockHeaderSpecs(b);
    BlockHeaderSpecsTags(b);
    BlockHeaderTagsDistinct();
    GetEmit(fs, 0);
    GetEmit(fs, 1);
    GetEmit(fs, 2);
    GetEmit(fs, 3);
    GetEmit(fs, 4);
  }

  /** Each of these fields is always written, with its value. */
  lemma BlockHeaderWritten2(b: BlockHeader)
    ensures var es := BlockHeaderEntries(b);
            && Get(es, "genesis_id") == Some(Text(b.genesisId))
            && Get(es, "genesis_hash") == Some(Bytes(b.genesisHash))
            && Get(es, "rewards_state") == Some(EncodeRewardsState(b.rewardsState))
            && Get(es, "upgrade_vote") == Some(EncodeUpgradeVote(b.upgradeVote))
            && Get(es, "tx_counter") == Some(UInt(b.txCounter))
  {
    var fs := BlockHeaderSpecs(b);
    BlockHeaderSpecsTags(b);
    BlockHeaderTagsDistinct();
    GetEmit(fs, 5);
    GetEmit(fs, 6);
    GetEmit(fs, 7);
    GetEmit(fs, 8);
    GetEmit(fs, 9);
  }

  lemma BlockHeaderRoundTrip(b: BlockHeader)
    ensures DecodeBlockHeader(BlockHeaderEntries(b)) == Some(b.(upgradeState := DefaultUpgradeState))
  {
    BlockHeaderDecode1(b);
    BlockHeaderDecode2(b);
    BlockHeaderDecode3(b);
    BlockHeaderDecode4(b);
    DecodeBlockHeaderOf(BlockHeaderEntries(b), b);
  }

  lemma BlockHeaderDecode1(b: BlockHeader)
    ensures var es := BlockHeaderEntries(b);
            && RequiredField(es, "round", AsU64) == Some(b.round)
            && RequiredField(es, "branch", AsBytes32) == Some(b.branch)
            && RequiredField(es, "seed", AsBytes32) == Some(b.seed)
  {
    var fs := BlockHeaderSpecs(b);
    BlockHeaderSpecsTags(b);
    BlockHeaderTagsDistinct();
    RequiredRoundTrip(fs, 0, b.round, AsU64);
    RequiredRoundTrip(fs, 1, b.branch, AsBytes32);
    RequiredRoundTrip(fs, 2, b.seed, AsBytes32);
  }

  lemma BlockHeaderDecode2(b: BlockHeader)
    ensures var es := BlockHeaderEntries(b);
            && RequiredField(es, "tx_root", AsBytes32) == Some(b.txRoot)
            && RequiredField(es, "timestamp", AsU64) == Some(b.timestamp)
            && RequiredField(es, "genesis_id", AsText) == Some(b.genesisId)
  {
    var fs := BlockHeaderSpecs(b);
    BlockHeaderSpecsTags(b);
    BlockHeaderTagsDistinct();
    RequiredRoundTrip(fs, 3, b.txRoot, AsBytes32);
    RequiredRoundTrip(fs, 4, b.timestamp, AsU64);
    RequiredRoundTrip(fs, 5, b.genesisId, AsText);
  }

  lemma BlockHeaderDecode3(b: BlockHeader)
    ensures var es := BlockHeaderEntries(b);
            && RequiredField(es, "genesis_hash", AsBytes32) == Some(b.genesisHash)
            && RequiredField(es, "rewards_state", AsRewardsState) == Some(b.rewardsState)
            && RequiredField(es, "upgrade_vote", AsUpgradeVote) == Some(b.upgradeVote)
  {
    var fs := BlockHeaderSpecs(b);
    BlockHeaderSpecsTags(b);
    BlockHeaderTagsDistinct();
    RewardsStateRoundTrip(b.rewardsState);
    UpgradeVoteRoundTrip(b.upgradeVote);
    RequiredRoundTrip(fs, 6, b.genesisHash, AsBytes32);
    RequiredRoundTrip(fs, 7, b.rewardsState, AsRewardsState);
    RequiredRoundTrip(fs, 8, b.upgradeVote, AsUpgradeVote);
  }

  lemma BlockHeaderDecode4(b: BlockHeader)
    ensures var es := BlockHeaderEntries(b);
            && RequiredField(es, "tx_counter", AsU64) == Some(b.txCounter)
  {
    var fs := BlockHeaderSpecs(b);
    BlockHeaderSpecsTags(b);
    BlockHeaderTagsDistinct();
    RequiredRoundTrip(fs, 9, b.txCounter, AsU64);
  }

  /** The decoder assembles the record from what each tag reads as. */
  lemma DecodeBlockHeaderOf(es: seq<Entry>, b: BlockHeader)
    requires RequiredField(es, "round", AsU64) == Some(b.round)
    requires RequiredField(es, "branch", AsBytes32) == Some(b.branch)
    requires RequiredField(es, "seed", AsBytes32) == Some(b.seed)
    requires RequiredField(es, "tx_root", AsBytes32) == Some(b.txRoot)
    requires RequiredField(es, "timestamp", AsU64) == Some(b.timestamp)
    requires RequiredField(es, "genesis_id", AsText) == Some(b.genesisId)
    requires RequiredField(es, "genesis_hash", AsBytes32) == Some(b.genesisHash)
    requires RequiredField(es, "rewards_state", AsRewardsState) == Some(b.rewardsState)
    requires RequiredField(es, "upgrade_vote", AsUpgradeVote) == Some(b.upgradeVote)
    requires RequiredField(es, "tx_counter", AsU64) == Some(b.txCounter)
    ensures DecodeBlockHeader(es) == Some(b.(upgradeState := DefaultUpgradeState))
  {
  }

  /** Every field but the upgrade state is written, under its own name, in
      declaration order; the upgrade state never appears and has no effect. */
  lemma BlockHeaderAllWritten(b: BlockHeader, other: UpgradeState)
    ensures EntryTags(BlockHeaderEntries(b)) == BlockHeaderTags
    ensures "upgrade_state" !in BlockHeaderTags
    ensures BlockHeaderEntries(b.(upgradeState := other)) == BlockHeaderEntries(b)
  {
    var fs := BlockHeaderSpecs(b);
    BlockHeaderSpecsTags(b);
    EmitNoneSkipped(fs);
    assert EntryTags(Emit(fs)) == Tags(fs);
    assert BlockHeaderSpecs(b.(upgradeState := other)) == fs;
  }

  // Key/value deltas.

  /** What an evaluation does to one key. */
  datatype DeltaAction = Invalid | SetBytes | SetUint | Delete

  /** `DeltaAction::default()`. */
  const DefaultDeltaAction: DeltaAction := Invalid

  /** A unit variant is written as its name. */
  function DeltaActionName(a: DeltaAction): string
  {
    match a
    case Invalid => "Invalid"
    case SetBytes => "SetBytes"
    case SetUint => "SetUint"
    case Delete => "Delete"
  }

  function AsDeltaAction(v: Value): (r: Option<DeltaAction>)
    ensures r.Some? ==> v == Text(DeltaActionName(r.value))
  {
    if !v.Text? then None
    else if v.text == "Invalid" then Some(Invalid)
    else if v.text == "SetBytes" then Some(SetBytes)
    else if v.text == "SetUint" then Some(SetUint)
    else if v.text == "Delete" then Some(Delete)
    else None
  }

  /** Every action reads back from its name, and no two actions share a name. */
  lemma DeltaActionNames(a: DeltaAction, other: DeltaAction)
    ensures AsDeltaAction(Text(DeltaActionName(a))) == Some(a)
    ensures a != other ==> DeltaActionName(a) != DeltaActionName(other)
  {
  }

  /** What to do with one key of a key/value store, and the value to store. */
  datatype ValueDelta = ValueDelta(
    action: DeltaAction,
    bytes: string,
    uint: u64)

  function ValueDeltaSpecs(d: ValueDelta): seq<FieldSpec>
  {
    [ OmitIfDefault("at", d.action, DefaultDeltaAction, Text(DeltaActionName(d.action))),
      OmitIfDefault("bs", d.bytes, "", Text(d.bytes)),
      OmitIfDefault("ui", d.uint, 0, UInt(d.uint)) ]
  }

  const ValueDeltaTags: seq<Tag> := ["at", "bs", "ui"]

  function ValueDeltaEntries(d: ValueDelta): seq<Entry>
  {
    Emit(ValueDeltaSpecs(d))
  }

  function DecodeValueDelta(es: seq<Entry>): Option<ValueDelta>
  {
    var action :- OptionalField(es, "at", DefaultDeltaAction, AsDeltaAction);
    var bytes :- OptionalField(es, "bs", "", AsText);
    var uint :- OptionalField(es, "ui", 0, AsU64);
    Some(ValueDelta(action, bytes, uint))
  }

  /** The 3 tags are all different. */
  lemma ValueDeltaTagsDistinct()
    ensures Distinct(ValueDeltaTags)
  {
  }

  /** The fields carry these tags, in declaration order. */
  lemma ValueDeltaSpecsTags(d: ValueDelta)
    ensures Tags(ValueDeltaSpecs(d)) == ValueDeltaTags
  {
  }

  /** Each of these fields is written exactly when it differs from its default. */
  lemma ValueDeltaOmission(d: ValueDelta)
    ensures var es := ValueDeltaEntries(d);
            && Get(es, "at") == (if d.action == DefaultDeltaAction then None else Some(Text(DeltaActionName(d.action))))
            && Get(es, "bs") == (if d.bytes == "" then None else Some(Text(d.bytes)))
            && Get(es, "ui") == (if d.uint == 0 then None else Some(UInt(d.uint)))
  {
    var fs := ValueDeltaSpecs(d);
    ValueDeltaSpecsTags(d);
    ValueDeltaTagsDistinct();
    GetEmit(fs, 0);
    GetEmit(fs, 1);
    GetEmit(fs, 2);
  }

  lemma ValueDeltaRoundTrip(d: ValueDelta)
    ensures DecodeValueDelta(ValueDeltaEntries(d)) == Some(d)
  {
    var fs := ValueDeltaSpecs(d);
    ValueDeltaSpecsTags(d);
    ValueDeltaTagsDistinct();
    DeltaActionNames(d.action, d.action);
    FieldRoundTrip(fs, 0, d.action, DefaultDeltaAction, AsDeltaAction);
    FieldRoundTrip(fs, 1, d.bytes, "", AsText);
    FieldRoundTrip(fs, 2, d.uint, 0, AsU64);
  }

  /** The default action is never written: no entry of a delta names `Invalid`. */
  lemma InvalidNeverWritten(d: ValueDelta)
    ensures Entry("at", Text("Invalid")) !in ValueDeltaEntries(d)
  {
    var fs := ValueDeltaSpecs(d);
    if Entry("at", Text("Invalid")) in Emit(fs) {
      var k :| 0 <= k < |Emit(fs)| && Emit(fs)[k] == Entry("at", Text("Invalid"));
      EmitSound(fs, k);
      assert false;
    }
  }

  function EncodeValueDelta(d: ValueDelta): Value
  {
    Record(ValueDeltaEntries(d))
  }

  function AsValueDelta(v: Value): Option<ValueDelta>
  {
    if v.Record? then DecodeValueDelta(v.entries) else None
  }

  /** `StateDelta`: a map from keys to deltas; a key occurs at most once. */
  type StateDelta = map<string, ValueDelta>

  function StateDeltaValue(m: StateDelta): Value
  {
    TextMap(EncodeMap(m, EncodeValueDelta))
  }

  function AsStateDelta(v: Value): (r: Option<StateDelta>)
    ensures r.Some? ==> v.TextMap? && r.value.Keys == v.byText.Keys
  {
    if v.TextMap? then DecodeMap(v.byText, AsValueDelta) else None
  }

  /** Each key's delta reads back, under the same key. */
  lemma StateDeltaRoundTrip(m: StateDelta)
    ensures AsStateDelta(StateDeltaValue(m)) == Some(m)
  {
    forall k | k in m
      ensures AsValueDelta(EncodeValueDelta(m[k])) == Some(m[k])
    {
      ValueDeltaRoundTrip(m[k]);
    }
    DecodeEncodeMap(m, EncodeValueDelta, AsValueDelta);
  }

  /** The local deltas: a state delta per account offset, keyed by a `u64`. */
  function LocalDeltasValue(m: map<u64, StateDelta>): Value
  {
    UIntMap(map k: nat | k in m :: StateDeltaValue(m[k]))
  }

  /** A key beyond the range of `u64` is refused. */
  function AsLocalDeltas(v: Value): (r: Option<map<u64, StateDelta>>)
    ensures r.Some? ==> v.UIntMap? && r.value.Keys == v.byUInt.Keys
  {
    if !v.UIntMap? || exists k :: k in v.byUInt && k >= 0x1_0000_0000_0000_0000 then None
    else
      var m :- DecodeMap(v.byUInt, AsStateDelta);
      Some(map k: u64 | k in m :: m[k])
  }

  lemma LocalDeltasRoundTrip(m: map<u64, StateDelta>)
    ensures AsLocalDeltas(LocalDeltasValue(m)) == Some(m)
  {
    var w := map k: nat | k in m :: StateDeltaValue(m[k]);
    var wide := map k: nat | k in m :: m[k];
    assert w == EncodeMap(wide, StateDeltaValue);
    forall k | k in wide
      ensures AsStateDelta(StateDeltaValue(wide[k])) == Some(wide[k])
    {
      StateDeltaRoundTrip(wide[k]);
    }
    DecodeEncodeMap(wide, StateDeltaValue, AsStateDelta);
    var r := AsLocalDeltas(LocalDeltasValue(m));
    assert r.Some?;
    assert r.value == m;
  }

  // Apply data, evaluation deltas, and signed transactions with apply data: three
  // records that nest one another through the inner transactions.

  /** What evaluating an application call changed: global and per-account state,
      the logs, and the inner transactions it issued. */
  datatype EvalDelta = EvalDelta(
    globalDelta: StateDelta,
    localDeltas: map<u64, StateDelta>,
    logs: seq<string>,
    innerTxs: seq<SignedTxWithAD>)

  const DefaultEvalDelta: EvalDelta := EvalDelta(map[], map[], [], [])

  /** The result of applying a transaction. `closingAmount` and `assetClosingAmount`
      are both tagged "ca". */
  datatype ApplyData = ApplyData(
    closingAmount: MicroAlgos,
    assetClosingAmount: u64,
    senderRewards: MicroAlgos,
    receiverRewards: MicroAlgos,
    closeRewards: MicroAlgos,
    evalDelta: EvalDelta,
    configAsset: u64,
    applicationId: u64)

  /** A signed transaction with its apply data, both flattened into one record. */
  datatype SignedTxWithAD = SignedTxWithAD(tx: SignedTx, ad: ApplyData)

  const EvalDeltaTags: seq<Tag> := ["gd", "ld", "lg", "itx"]

  const ApplyDataTags: seq<Tag> := ["ca", "ca", "rs", "rr", "rc", "dt", "caid", "apid"]

  function InnerTxValues(d: EvalDelta): seq<Value>
    decreases d, 0
  {
    seq(|d.innerTxs|, i requires 0 <= i < |d.innerTxs| => EncodeSignedTxWithAD(d.innerTxs[i]))
  }

  function EvalDeltaSpecs(d: EvalDelta): seq<FieldSpec>
    decreases d, 1
  {
    [ OmitIfDefault("gd", d.globalDelta, map[], StateDeltaValue(d.globalDelta)),
      OmitIfDefault("ld", d.localDeltas, map[], LocalDeltasValue(d.localDeltas)),
      OmitIfDefault("lg", d.logs, [], TextList(d.logs)),
      OmitIfDefault("itx", d.innerTxs, [], Array(InnerTxValues(d))) ]
  }

  function EncodeEvalDelta(d: EvalDelta): Value
    decreases d, 2
  {
    Record(Emit(EvalDeltaSpecs(d)))
  }

  function ApplyDataSpecs(a: ApplyData): seq<FieldSpec>
    decreases a, 0
  {
    [ OmitIfDefault("ca", a.closingAmount, 0, UInt(a.closingAmount)),
      OmitIfDefault("ca", a.assetClosingAmount, 0, UInt(a.assetClosingAmount)),
      OmitIfDefault("rs", a.senderRewards, 0, UInt(a.senderRewards)),
      OmitIfDefault("rr", a.receiverRewards, 0, UInt(a.receiverRewards)),
      OmitIfDefault("rc", a.closeRewards, 0, UInt(a.closeRewards)),
      OmitIfDefault("dt", a.evalDelta, DefaultEvalDelta, EncodeEvalDelta(a.evalDelta)),
      OmitIfDefault("caid", a.configAsset, 0, UInt(a.configAsset)),
      OmitIfDefault("apid", a.applicationId, 0, UInt(a.applicationId)) ]
  }

  function ApplyDataEntries(a: ApplyData): seq<Entry>
    decreases a, 1
  {
    Emit(ApplyDataSpecs(a))
  }

  /** The signed transaction's entries, then the apply data's. */
  function SignedTxWithADEntries(w: SignedTxWithAD): seq<Entry>
    decreases w, 0
  {
    Transactions.SignedTxEntries(w.tx) + ApplyDataEntries(w.ad)
  }

  function EncodeSignedTxWithAD(w: SignedTxWithAD): Value
    decreases w, 1
  {
    Record(SignedTxWithADEntries(w))
  }

  /** An evaluation delta; "itx" holds the inner transactions in order. */
  function AsEvalDelta(v: Value): Option<EvalDelta>
    decreases v, 0
  {
    if !v.Record? then None
    else
      var es := v.entries;
      var globalDelta :- OptionalField(es, "gd", map[], AsStateDelta);
      var localDeltas :- OptionalField(es, "ld", map[], AsLocalDeltas);
      var logs :- OptionalField(es, "lg", [], AsTextList);
      var innerTxs :- match Locate(es, "itx")
                      case Absent => Some([])
                      case Duplicated => None
                      case At(k) => AsInnerTxs(es[k].value);
      Some(EvalDelta(globalDelta, localDeltas, logs, innerTxs))
  }

  function AsInnerTxs(v: Value): Option<seq<SignedTxWithAD>>
    decreases v, 0
  {
    if !v.Array? then None
    else Collect(seq(|v.items|, i requires 0 <= i < |v.items| => AsSignedTxWithAD(v.items[i])))
  }

  /** The apply data read from the entries of record `v` that the signed transaction
      does not claim. Two "ca" entries are refused; a single one is the closing
      amount, and the asset closing amount is never read. */
  function DecodeApplyData(v: Value): Option<ApplyData>
    requires v.Record?
    decreases v, 1
  {
    var es := Unclaimed(v.entries, Transactions.SignedTxTags);
    var closingAmount :- OptionalField(es, "ca", 0, AsU64);
    var senderRewards :- OptionalField(es, "rs", 0, AsU64);
    var receiverRewards :- OptionalField(es, "rr", 0, AsU64);
    var closeRewards :- OptionalField(es, "rc", 0, AsU64);
    var evalDelta :- match Locate(es, "dt")
                     case Absent => Some(DefaultEvalDelta)
                     case Duplicated => None
                     case At(k) => assert es[k] in v.entries; AsEvalDelta(es[k].value);
    var configAsset :- OptionalField(es, "caid", 0, AsU64);
    var applicationId :- OptionalField(es, "apid", 0, AsU64);
    Some(ApplyData(closingAmount, 0, senderRewards, receiverRewards, closeRewards, evalDelta, configAsset, applicationId))
  }

  /** The signed transaction claims its own tags; the apply data reads the rest. */
  function AsSignedTxWithAD(v: Value): Option<SignedTxWithAD>
    decreases v, 2
  {
    if !v.Record? then None
    else
      var tx :- Transactions.DecodeSignedTx(Claimed(v.entries, Transactions.SignedTxTags));
      var ad :- DecodeApplyData(v);
      Some(SignedTxWithAD(tx, ad))
  }

  // What the apply data and evaluation deltas write.

  lemma ApplyDataSpecsTags(a: ApplyData)
    ensures Tags(ApplyDataSpecs(a)) == ApplyDataTags
  {
  }

  lemma EvalDeltaTagsDistinct()
    ensures Distinct(EvalDeltaTags)
  {
  }

  lemma EvalDeltaSpecsTags(d: EvalDelta)
    ensures Tags(EvalDeltaSpecs(d)) == EvalDeltaTags
  {
  }

  /** Each field of an evaluation delta is written exactly when it is not empty. */
  lemma EvalDeltaOmission(d: EvalDelta)
    ensures var es := Emit(EvalDeltaSpecs(d));
            && Get(es, "gd") == (if d.globalDelta == map[] then None else Some(StateDeltaValue(d.globalDelta)))
            && Get(es, "ld") == (if d.localDeltas == map[] then None else Some(LocalDeltasValue(d.localDeltas)))
            && Get(es, "lg") == (if d.logs == [] then None else Some(TextList(d.logs)))
            && Get(es, "itx") == (if d.innerTxs == [] then None else Some(Array(InnerTxValues(d))))
  {
    var fs := EvalDeltaSpecs(d);
    EvalDeltaSpecsTags(d);
    EvalDeltaTagsDistinct();
    GetEmit(fs, 0);
    GetEmit(fs, 1);
    GetEmit(fs, 2);
    GetEmit(fs, 3);
  }

  /** The default evaluation delta is an empty record. */
  lemma DefaultEvalDeltaIsEmpty()
    ensures EncodeEvalDelta(DefaultEvalDelta) == Record([])
  {
    var fs := EvalDeltaSpecs(DefaultEvalDelta);
    assert fs[0].skip && fs[1].skip && fs[2].skip && fs[3].skip;
    EmitAllSkipped(fs);
  }

  /** What the apply data holds under "ca": nothing when both closing amounts are
      zero, the one that is not zero when the other is, and the tag twice when
      neither is. */
  lemma ClosingAmountTag(a: ApplyData)
    ensures Find(ApplyDataEntries(a), "ca") ==
              if a.closingAmount == 0 && a.assetClosingAmount == 0 then Missing
              else if a.assetClosingAmount == 0 then Found(UInt(a.closingAmount))
              else if a.closingAmount == 0 then Found(UInt(a.assetClosingAmount))
              else Repeated
  {
    var fs := ApplyDataSpecs(a);
    ClosingAmountPrefix(a);
    SharedTagPair(fs[0], fs[1], "ca");
  }

  /** Only the first two fields of the apply data carry "ca". */
  lemma ClosingAmountPrefix(a: ApplyData)
    ensures var fs := ApplyDataSpecs(a);
            Locate(Emit(fs), "ca") == Locate(Head(fs[0]) + Head(fs[1]), "ca")
  {
    var fs := ApplyDataSpecs(a);
    var rest := fs[2..];
    assert forall j :: 0 <= j < |rest| ==> rest[j].tag != "ca";
    LocateEmitAbsent(rest, "ca");
    assert fs[1..] == [fs[1]] + rest;
    assert Emit(fs) == Head(fs[0]) + (Head(fs[1]) + Emit(rest));
    assert Emit(fs) == (Head(fs[0]) + Head(fs[1])) + Emit(rest);
    LocateAppendAbsent(Head(fs[0]) + Head(fs[1]), Emit(rest), "ca");
  }

  /** Every tag of the apply data but "ca" occurs once among its fields. */
  lemma ApplyDataUnique(a: ApplyData, i: nat)
    requires 2 <= i < 8
    ensures Unique(ApplyDataSpecs(a), i)
  {
    ApplyDataSpecsTags(a);
    ApplyDataTagsUnique(i);
    UniqueByTags(ApplyDataSpecs(a), ApplyDataTags, i);
  }

  lemma ApplyDataTagsUnique(i: nat)
    requires 2 <= i < 8
    ensures forall j :: 0 <= j < |ApplyDataTags| && j != i ==> ApplyDataTags[j] != ApplyDataTags[i]
  {
  }

  /** The other fields of the apply data are written exactly when not default. */
  lemma ApplyDataOmission(a: ApplyData)
    ensures var es := ApplyDataEntries(a);
            && Get(es, "rs") == (if a.senderRewards == 0 then None else Some(UInt(a.senderRewards)))
            && Get(es, "rr") == (if a.receiverRewards == 0 then None else Some(UInt(a.receiverRewards)))
            && Get(es, "rc") == (if a.closeRewards == 0 then None else Some(UInt(a.closeRewards)))
            && Get(es, "dt") == (if a.evalDelta == DefaultEvalDelta then None else Some(EncodeEvalDelta(a.evalDelta)))
            && Get(es, "caid") == (if a.configAsset == 0 then None else Some(UInt(a.configAsset)))
            && Get(es, "apid") == (if a.applicationId == 0 then None else Some(UInt(a.applicationId)))
  {
    ApplyDataGet(a, 2);
    ApplyDataGet(a, 3);
    ApplyDataGet(a, 4);
    ApplyDataGet(a, 5);
    ApplyDataGet(a, 6);
    ApplyDataGet(a, 7);
  }

  lemma ApplyDataGet(a: ApplyData, i: nat)
    requires 2 <= i < 8
    ensures var fs := ApplyDataSpecs(a);
            Get(Emit(fs), fs[i].tag) == if fs[i].skip then None else Some(fs[i].value)
  {
    ApplyDataUnique(a, i);
    LocateEmit(ApplyDataSpecs(a), i);
  }

  /** No entry of the apply data uses a tag of the signed transaction, so flattening
      both into one record keeps them apart. */
  lemma ApplyDataForeign(a: ApplyData)
    ensures forall e :: e in ApplyDataEntries(a) ==> e.tag in ApplyDataTags && e.tag !in Transactions.SignedTxTags
  {
    ApplyDataSpecsTags(a);
    EmitTags(ApplyDataSpecs(a));
  }

  /** The signed transaction claims exactly its own entries; the apply data gets the rest. */
  lemma SignedTxWithADParts(w: SignedTxWithAD)
    ensures Claimed(SignedTxWithADEntries(w), Transactions.SignedTxTags) == Transactions.SignedTxEntries(w.tx)
    ensures Unclaimed(SignedTxWithADEntries(w), Transactions.SignedTxTags) == ApplyDataEntries(w.ad)
  {
    var t := Transactions.SignedTxEntries(w.tx);
    var d := ApplyDataEntries(w.ad);
    Transactions.SignedTxSpecsTags(w.tx);
    EmitTags(Transactions.SignedTxSpecs(w.tx));
    ClaimedAll(t, Transactions.SignedTxTags);
    ApplyDataForeign(w.ad);
    ClaimedNone(d, Transactions.SignedTxTags);
    ClaimedAppend(t, d, Transactions.SignedTxTags);
  }

  /** The tags of a signed transaction with apply data: the transaction's, then the apply data's. */
  const SignedTxWithADTags: seq<Tag> := Transactions.SignedTxTags + ApplyDataTags

  /** Every entry of a signed transaction with apply data carries a tag of one of the two. */
  lemma SignedTxWithADTagsOf(w: SignedTxWithAD)
    ensures forall e :: e in SignedTxWithADEntries(w) ==> e.tag in SignedTxWithADTags
  {
    Transactions.SignedTxSpecsTags(w.tx);
    EmitTags(Transactions.SignedTxSpecs(w.tx));
    ApplyDataForeign(w.ad);
  }

  // Reading back.

  /** A transaction, with its inner transactions, survives the trip when no logic
      signature carries a multisignature and no asset closing amount is recorded. */
  predicate Faithful(w: SignedTxWithAD)
    decreases w
  {
    && (w.tx.lsig.None? || w.tx.lsig.value.msig == Signatures.DefaultMultisig)
    && w.ad.assetClosingAmount == 0
    && forall i :: 0 <= i < |w.ad.evalDelta.innerTxs| ==> Faithful(w.ad.evalDelta.innerTxs[i])
  }

  /** The apply data as read back: an asset closing amount written without a
      closing amount is read as the closing amount. */
  function ReadBack(a: ApplyData): ApplyData
  {
    a.(closingAmount := if a.closingAmount == 0 then a.assetClosingAmount else a.closingAmount, assetClosingAmount := 0)
  }

  lemma ClosingAmountRead(a: ApplyData)
    requires a.closingAmount == 0 || a.assetClosingAmount == 0
    ensures OptionalField(ApplyDataEntries(a), "ca", 0, AsU64) == Some(ReadBack(a).closingAmount)
  {
    ClosingAmountTag(a);
  }

  lemma ApplyDataRewardsRead(a: ApplyData)
    ensures var es := ApplyDataEntries(a);
            && OptionalField(es, "rs", 0, AsU64) == Some(a.senderRewards)
            && OptionalField(es, "rr", 0, AsU64) == Some(a.receiverRewards)
            && OptionalField(es, "rc", 0, AsU64) == Some(a.closeRewards)
            && OptionalField(es, "caid", 0, AsU64) == Some(a.configAsset)
            && OptionalField(es, "apid", 0, AsU64) == Some(a.applicationId)
  {
    var fs := ApplyDataSpecs(a);
    ApplyDataUnique(a, 2);
    ApplyDataUnique(a, 3);
    ApplyDataUnique(a, 4);
    ApplyDataUnique(a, 6);
    ApplyDataUnique(a, 7);
    OptionalFieldOfEmit(fs, 2, a.senderRewards, 0, AsU64);
    OptionalFieldOfEmit(fs, 3, a.receiverRewards, 0, AsU64);
    OptionalFieldOfEmit(fs, 4, a.closeRewards, 0, AsU64);
    OptionalFieldOfEmit(fs, 6, a.configAsset, 0, AsU64);
    OptionalFieldOfEmit(fs, 7, a.applicationId, 0, AsU64);
  }

  lemma EvalDeltaSlot(a: ApplyData)
    ensures var es := ApplyDataEntries(a);
            var r := Locate(es, "dt");
            if a.evalDelta == DefaultEvalDelta then r.Absent?
            else r.At? && es[r.index].value == EncodeEvalDelta(a.evalDelta)
  {
    ApplyDataUnique(a, 5);
    LocateEmit(ApplyDataSpecs(a), 5);
  }

  lemma {:induction false} SignedTxWithADRoundTrip(w: SignedTxWithAD)
    requires Faithful(w)
    ensures AsSignedTxWithAD(EncodeSignedTxWithAD(w)) == Some(w)
    decreases w, 2
  {
    var v := EncodeSignedTxWithAD(w);
    SignedTxWithADParts(w);
    Transactions.SignedTxRoundTrip(w.tx);
    ApplyDataRoundTrip(v, w.ad);
    assert ReadBack(w.ad) == w.ad;
    AsSignedTxWithADOf(v, w);
  }

  /** The reader assembles the pair from what each part reads as. */
  lemma AsSignedTxWithADOf(v: Value, w: SignedTxWithAD)
    requires v.Record?
    requires Transactions.DecodeSignedTx(Claimed(v.entries, Transactions.SignedTxTags)) == Some(w.tx)
    requires DecodeApplyData(v) == Some(w.ad)
    ensures AsSignedTxWithAD(v) == Some(w)
  {
  }

  /** The apply data reads back from whatever record it was flattened into, with an
      asset closing amount moved to the closing amount when that is zero. */
  lemma {:induction false} ApplyDataRoundTrip(v: Value, a: ApplyData)
    requires v.Record? && Unclaimed(v.entries, Transactions.SignedTxTags) == ApplyDataEntries(a)
    requires a.closingAmount == 0 || a.assetClosingAmount == 0
    requires forall i :: 0 <= i < |a.evalDelta.innerTxs| ==> Faithful(a.evalDelta.innerTxs[i])
    ensures DecodeApplyData(v) == Some(ReadBack(a))
    decreases a, 1
  {
    ClosingAmountRead(a);
    ApplyDataRewardsRead(a);
    EvalDeltaSlot(a);
    if a.evalDelta != DefaultEvalDelta {
      EvalDeltaRoundTrip(a.evalDelta);
    }
  }

  lemma {:induction false} EvalDeltaRoundTrip(d: EvalDelta)
    requires forall i :: 0 <= i < |d.innerTxs| ==> Faithful(d.innerTxs[i])
    ensures AsEvalDelta(EncodeEvalDelta(d)) == Some(d)
    decreases d, 1
  {
    var fs := EvalDeltaSpecs(d);
    EvalDeltaSpecsTags(d);
    EvalDeltaTagsDistinct();
    StateDeltaRoundTrip(d.globalDelta);
    FieldRoundTrip(fs, 0, d.globalDelta, map[], AsStateDelta);
    LocalDeltasRoundTrip(d.localDeltas);
    FieldRoundTrip(fs, 1, d.localDeltas, map[], AsLocalDeltas);
    TextListRoundTrip(d.logs);
    FieldRoundTrip(fs, 2, d.logs, [], AsTextList);
    DistinctUnique(fs, 3);
    LocateEmit(fs, 3);
    if d.innerTxs != [] {
      InnerTxsRoundTrip(d);
    }
  }

  lemma {:induction false} InnerTxsRoundTrip(d: EvalDelta)
    requires forall i :: 0 <= i < |d.innerTxs| ==> Faithful(d.innerTxs[i])
    ensures AsInnerTxs(Array(InnerTxValues(d))) == Some(d.innerTxs)
    decreases d, 0
  {
    var items := InnerTxValues(d);
    forall i | 0 <= i < |d.innerTxs|
      ensures AsSignedTxWithAD(items[i]) == Some(d.innerTxs[i])
    {
      SignedTxWithADRoundTrip(d.innerTxs[i]);
    }
    var rs := seq(|items|, i requires 0 <= i < |items| => AsSignedTxWithAD(items[i]));
    var r := Collect(rs);
    assert r.Some?;
    assert r.value == d.innerTxs;
  }

  /** Two closing amounts, neither zero, put "ca" in the record twice, and the
      apply data is refused. */
  lemma BothClosingAmountsRejected(v: Value, a: ApplyData)
    requires v.Record? && Unclaimed(v.entries, Transactions.SignedTxTags) == ApplyDataEntries(a)
    requires a.closingAmount != 0 && a.assetClosingAmount != 0
    ensures DecodeApplyData(v) == None
  {
    ClosingAmountTag(a);
  }

  // Signed transactions in a block.

  /** A signed transaction with apply data, and whether the genesis ID and hash were
      stripped from it (they are then implied by the block). */
  datatype SignedTxInBlock = SignedTxInBlock(sigTxad: SignedTxWithAD, hasGenesisId: bool, hasGenesisHash: bool)

  const InBlockTags: seq<Tag> := ["hgi", "hgh"]

  function InBlockSpecs(b: SignedTxInBlock): seq<FieldSpec>
  {
    [ OmitIfDefault("hgi", b.hasGenesisId, false, Bool(b.hasGenesisId)),
      OmitIfDefault("hgh", b.hasGenesisHash, false, Bool(b.hasGenesisHash)) ]
  }

  /** The flattened transaction's entries first, then "hgi" and "hgh". */
  function SignedTxInBlockEntries(b: SignedTxInBlock): seq<Entry>
  {
    SignedTxWithADEntries(b.sigTxad) + Emit(InBlockSpecs(b))
  }

  function EncodeSignedTxInBlock(b: SignedTxInBlock): Value
  {
    Record(SignedTxInBlockEntries(b))
  }

  /** "hgi" and "hgh" are read by name; every other entry goes to the flattened
      transaction. */
  function AsSignedTxInBlock(v: Value): Option<SignedTxInBlock>
  {
    if !v.Record? then None
    else
      var es := v.entries;
      var hasGenesisId :- OptionalField(es, "hgi", false, AsBool);
      var hasGenesisHash :- OptionalField(es, "hgh", false, AsBool);
      var sigTxad :- AsSignedTxWithAD(Record(Unclaimed(es, InBlockTags)));
      Some(SignedTxInBlock(sigTxad, hasGenesisId, hasGenesisHash))
  }

  /** "hgi" and "hgh" are written only when true. */
  lemma InBlockOmission(b: SignedTxInBlock)
    ensures var es := SignedTxInBlockEntries(b);
            && Find(es, "hgi") == (if b.hasGenesisId then Found(Bool(true)) else Missing)
            && Find(es, "hgh") == (if b.hasGenesisHash then Found(Bool(true)) else Missing)
  {
    var es := SignedTxInBlockEntries(b);
    InBlockParts(b);
    FindClaimed(es, InBlockTags, "hgi");
    FindClaimed(es, InBlockTags, "hgh");
    InBlockFlags(b);
  }

  lemma InBlockFlags(b: SignedTxInBlock)
    ensures var hs := Emit(InBlockSpecs(b));
            && Find(hs, "hgi") == (if b.hasGenesisId then Found(Bool(true)) else Missing)
            && Find(hs, "hgh") == (if b.hasGenesisHash then Found(Bool(true)) else Missing)
            && OptionalField(hs, "hgi", false, AsBool) == Some(b.hasGenesisId)
            && OptionalField(hs, "hgh", false, AsBool) == Some(b.hasGenesisHash)
  {
    var fs := InBlockSpecs(b);
    assert Distinct(Tags(fs));
    LocateEmit(fs, 0);
    LocateEmit(fs, 1);
  }

  /** "hgi" and "hgh" are not tags of a signed transaction with apply data. */
  lemma InBlockTagsForeign()
    ensures Disjoint(SignedTxWithADTags, InBlockTags)
  {
  }

  lemma InBlockParts(b: SignedTxInBlock)
    ensures Claimed(SignedTxInBlockEntries(b), InBlockTags) == Emit(InBlockSpecs(b))
    ensures Unclaimed(SignedTxInBlockEntries(b), InBlockTags) == SignedTxWithADEntries(b.sigTxad)
  {
    var w := SignedTxWithADEntries(b.sigTxad);
    var h := Emit(InBlockSpecs(b));
    SignedTxWithADTagsOf(b.sigTxad);
    InBlockTagsForeign();
    ClaimedNoneDisjoint(w, SignedTxWithADTags, InBlockTags);
    EmitTags(InBlockSpecs(b));
    ClaimedAll(h, InBlockTags);
    ClaimedAppend(w, h, InBlockTags);
  }

  lemma SignedTxInBlockRoundTrip(b: SignedTxInBlock)
    requires Faithful(b.sigTxad)
    ensures AsSignedTxInBlock(EncodeSignedTxInBlock(b)) == Some(b)
  {
    var es := SignedTxInBlockEntries(b);
    var hs := Emit(InBlockSpecs(b));
    InBlockParts(b);
    FindClaimed(es, InBlockTags, "hgi");
    FindClaimed(es, InBlockTags, "hgh");
    FieldsOfFind(es, hs, "hgi", false, AsBool);
    FieldsOfFind(es, hs, "hgh", false, AsBool);
    InBlockFlags(b);
    SignedTxWithADRoundTrip(b.sigTxad);
  }

  // The payset.

  /** The transactions of a block, in order; written as a plain array. */
  datatype Payset = Payset(txns: seq<SignedTxInBlock>)

  function EncodePayset(p: Payset): Value
  {
    Array(EncodeEach(p.txns, EncodeSignedTxInBlock))
  }

  function AsPayset(v: Value): (r: Option<Payset>)
    ensures r.Some? ==> v.Array? && |r.value.txns| == |v.items|
  {
    var txns :- AsArrayOf(v, AsSignedTxInBlock);
    Some(Payset(txns))
  }

  /** The payset reads back in the same order. */
  lemma PaysetRoundTrip(p: Payset)
    requires forall i :: 0 <= i < |p.txns| ==> Faithful(p.txns[i].sigTxad)
    ensures AsPayset(EncodePayset(p)) == Some(p)
  {
    forall i | 0 <= i < |p.txns|
      ensures AsSignedTxInBlock(EncodeSignedTxInBlock(p.txns[i])) == Some(p.txns[i])
    {
      SignedTxInBlockRoundTrip(p.txns[i]);
    }
    DecodeEncodeEach(p.txns, EncodeSignedTxInBlock, AsSignedTxInBlock);
  }
}
