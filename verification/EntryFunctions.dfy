/** Calls of the framework's entry functions as transaction payloads: the schema-driven encoder and decoder. */
module EntryFunctions {
  import opened Base
  import Bcs
  import Hex

  // Argument types and values ------------------------------------------------------------------------

  datatype Type = U8 | U64 | Bool | Address | Bytes | List(elem: Type)

  datatype Value =
    | U8Value(byte: Byte)
    | U64Value(n: Base.U64)
    | BoolValue(flag: bool)
    | AddressValue(address: seq<Byte>)
    | BytesValue(bytes: seq<Byte>)
    | ListValue(items: seq<Value>)

  /** Values of a type that can be serialized: sequences have at most 2^31 - 1 elements. */
  predicate HasType(v: Value, t: Type)
    decreases t
  {
    match t
    case U8 => v.U8Value?
    case U64 => v.U64Value?
    case Bool => v.BoolValue?
    case Address => v.AddressValue? && |v.address| == 32
    case Bytes => v.BytesValue? && Bcs.FitsLen(|v.bytes|)
    case List(elem) => v.ListValue? && Bcs.FitsLen(|v.items|) && forall i :: 0 <= i < |v.items| ==> HasType(v.items[i], elem)
  }

  /** `bcs::to_bytes` of an argument. */
  function ToBytes(v: Value): seq<Byte>
    decreases v
  {
    match v
    case U8Value(b) => [b]
    case U64Value(n) => Hex.LittleEndian(n, 8)
    case BoolValue(flag) => [if flag then 1 else 0]
    case AddressValue(address) => address
    case BytesValue(bytes) => Bcs.BytesEnc(bytes)
    case ListValue(items) => Bcs.Uleb(|items|) + AllBytes(items)
  }

  function AllBytes(items: seq<Value>): seq<Byte>
    decreases items
  {
    if items == [] then [] else ToBytes(items[0]) + AllBytes(items[1..])
  }

  function Read(bs: seq<Byte>, t: Type): (r: Bcs.Parse<Value>)
    ensures r.Ok? ==> HasType(r.value.0, t) && bs == ToBytes(r.value.0) + r.value.1
    decreases t, 0
  {
    match t
    case U8 =>
      if bs == [] then Err(Bcs.UnexpectedEof) else Ok((U8Value(bs[0]), bs[1..]))
    case U64 =>
      var (le, rest) :- Bcs.ReadFixed(bs, 8);
      Hex.U64Capacity();
      Hex.FromLittleEndianRoundTrip(le);
      Ok((U64Value(Hex.FromLittleEndian(le)), rest))
    case Bool =>
      if bs == [] then Err(Bcs.UnexpectedEof)
      else if bs[0] > 1 then Err(Bcs.InvalidBool)
      else Ok((BoolValue(bs[0] == 1), bs[1..]))
    case Address =>
      var (address, rest) :- Bcs.ReadFixed(bs, 32);
      Ok((AddressValue(address), rest))
    case Bytes =>
      var (bytes, rest) :- Bcs.ReadBytes(bs);
      Ok((BytesValue(bytes), rest))
    case List(elem) =>
      var (n, r1) :- Bcs.ReadLen(bs);
      var (items, r2) :- ReadItems(r1, elem, n);
      Assoc(Bcs.Uleb(n), AllBytes(items), r2);
      Ok((ListValue(items), r2))
  }

  function ReadItems(bs: seq<Byte>, elem: Type, n: nat): (r: Bcs.Parse<seq<Value>>)
    ensures r.Ok? ==> |r.value.0| == n && forall i :: 0 <= i < n ==> HasType(r.value.0[i], elem)
    ensures r.Ok? ==> bs == AllBytes(r.value.0) + r.value.1
    decreases elem, n
  {
    if n == 0 then Ok(([], bs))
    else
      var (first, r1) :- Read(bs, elem);
      var (more, r2) :- ReadItems(r1, elem, n - 1);
      Assoc(ToBytes(first), AllBytes(more), r2);
      assert ([first] + more)[1..] == more;
      Ok(([first] + more, r2))
  }

  // Reading back --------------------------------------------------------------------------------------------

  lemma {:induction false} RoundTrip(v: Value, t: Type, rest: seq<Byte>)
    requires HasType(v, t)
    ensures Read(ToBytes(v) + rest, t) == Ok((v, rest))
    decreases v
  {
    match v
    case U8Value(b) => assert ([b] + rest)[1..] == rest;
    case U64Value(n) =>
      Hex.U64Capacity();
      Hex.LittleEndianRoundTrip(n, 8);
      Bcs.FixedRoundTrip(Hex.LittleEndian(n, 8), rest);
    case BoolValue(flag) => assert ([if flag then 1 else 0] + rest)[1..] == rest;
    case AddressValue(address) => Bcs.FixedRoundTrip(address, rest);
    case BytesValue(bytes) => Bcs.BytesRoundTrip(bytes, rest);
    case ListValue(items) =>
      Assoc(Bcs.Uleb(|items|), AllBytes(items), rest);
      Bcs.UlebRoundTrip(|items|, AllBytes(items) + rest);
      ItemsRoundTrip(items, t.elem, rest);
  }

  lemma {:induction false} ItemsRoundTrip(items: seq<Value>, elem: Type, rest: seq<Byte>)
    requires forall i :: 0 <= i < |items| ==> HasType(items[i], elem)
    ensures ReadItems(AllBytes(items) + rest, elem, |items|) == Ok((items, rest))
    decreases items
  {
    if items == [] {
      assert [] + rest == rest;
    } else {
      Assoc(ToBytes(items[0]), AllBytes(items[1..]), rest);
      RoundTrip(items[0], elem, AllBytes(items[1..]) + rest);
      ItemsRoundTrip(items[1..], elem, rest);
      assert [items[0]] + items[1..] == items;
    }
  }

  /** `bcs::from_bytes` of one argument succeeds on the encoding of a value of the type and on nothing else. */
  function FromBytes(bs: seq<Byte>, t: Type): Option<Value> {
    var r := Bcs.Whole(Read(bs, t));
    if r.Ok? then Some(r.value) else None
  }

  lemma FromBytesExactly(bs: seq<Byte>, t: Type, v: Value)
    ensures FromBytes(bs, t) == Some(v) <==> HasType(v, t) && bs == ToBytes(v)
  {
    hide Read, ToBytes, HasType;
    if HasType(v, t) {
      RoundTrip(v, t, []);
      assert ToBytes(v) + [] == ToBytes(v);
    }
    if FromBytes(bs, t) == Some(v) {
      assert bs == ToBytes(v) + [] == ToBytes(v);
    }
  }

  // The table --------------------------------------------------------------------------------------------

  /** The variants of `EntryFunctionCall`. */
  datatype Function =
    | AccountOfferRotationCapability
    | AccountRevokeRotationCapability
    | AccountRotateAuthenticationKey
    | AccountRotateAuthenticationKeyWithRotationCapability
    | ActivityMaybeFixMalformed
    | BurnSetSendCommunity
    | CodePublishPackageTxn
    | CommunityWalletInitChangeSignerCommunityMultisig
    | CommunityWalletInitFinalizeAndCage
    | CommunityWalletInitInitCommunity
    | CommunityWalletInitProposeOffer
    | DiemGovernanceOlCreateProposalV2
    | DiemGovernanceOlVote
    | DiemGovernanceSmokeTriggerEpoch
    | DiemGovernanceTriggerEpoch
    | DonorVoiceTxsMaybeCloseReauth
    | DonorVoiceTxsProposeLiquidateTx
    | DonorVoiceTxsProposePaymentTx
    | DonorVoiceTxsProposeVetoTx
    | DonorVoiceTxsVoteLiquidationTx
    | DonorVoiceTxsVoteReauthTx
    | EpochBoundarySmokeEnableTrigger
    | EpochBoundarySmokeTriggerEpoch
    | FiloMigrationMaybeMigrate
    | JailUnjailByVoucher
    | LibraCoinMintToImpl
    | MultiActionClaimOffer
    | MultiActionInitGovDeprecated
    | MultisigAccountAddOwner
    | MultisigAccountAddOwners
    | MultisigAccountRemoveOwner
    | MultisigAccountRemoveOwners
    | MultisigAccountUpdateMetadata
    | MultisigAccountUpdateSignaturesRequired
    | OlAccountCreateAccount
    | OlAccountTransfer
    | PageRankLazyRefreshCache
    | ProofOfFeePofRetractBid
    | ProofOfFeePofUpdateBid
    | ProofOfFeePofUpdateBidNetReward
    | SlowWalletSmokeTestVmUnlock
    | SlowWalletUserSetSlow
    | StakeInitializeValidator
    | StakeUpdateNetworkAndFullnodeAddresses
    | ValidatorUniverseRegisterValidator
    | VouchTxsCleanExpired
    | VouchTxsRevoke
    | VouchTxsVouchFor

  /** Where a call goes and what it takes. */
  datatype Signature = Signature(moduleName: string, name: string, params: seq<Type>)

  // The table, in six parts of eight: what is proved about one part need not look at the others.

  predicate PartA(f: Function) {
    || f.AccountOfferRotationCapability? || f.AccountRevokeRotationCapability?
    || f.AccountRotateAuthenticationKey? || f.AccountRotateAuthenticationKeyWithRotationCapability?
    || f.ActivityMaybeFixMalformed? || f.BurnSetSendCommunity?
    || f.CodePublishPackageTxn? || f.CommunityWalletInitChangeSignerCommunityMultisig?
  }

  function SigA(f: Function): Signature
    requires PartA(f)
  {
    match f
    case AccountOfferRotationCapability =>
      Signature("account", "offer_rotation_capability", [Bytes, U8, Bytes, Address])
    case AccountRevokeRotationCapability => Signature("account", "revoke_rotation_capability", [Address])
    case AccountRotateAuthenticationKey =>
      Signature("account", "rotate_authentication_key", [U8, Bytes, U8, Bytes, Bytes, Bytes])
    case AccountRotateAuthenticationKeyWithRotationCapability =>
      Signature("account", "rotate_authentication_key_with_rotation_capability", [Address, U8, Bytes, Bytes])
    case ActivityMaybeFixMalformed => Signature("activity", "maybe_fix_malformed", [])
    case BurnSetSendCommunity => Signature("burn", "set_send_community", [Bool])
    case CodePublishPackageTxn => Signature("code", "publish_package_txn", [Bytes, List(Bytes)])
    case CommunityWalletInitChangeSignerCommunityMultisig =>
      Signature("community_wallet_init", "change_signer_community_multisig", [Address, Address, Bool, U64, U64])
  }

  predicate PartB(f: Function) {
    || f.CommunityWalletInitFinalizeAndCage? || f.CommunityWalletInitInitCommunity?
    || f.CommunityWalletInitProposeOffer? || f.DiemGovernanceOlCreateProposalV2?
    || f.DiemGovernanceOlVote? || f.DiemGovernanceSmokeTriggerEpoch?
    || f.DiemGovernanceTriggerEpoch? || f.DonorVoiceTxsMaybeCloseReauth?
  }

  function SigB(f: Function): Signature
    requires PartB(f)
  {
    match f
    case CommunityWalletInitFinalizeAndCage => Signature("community_wallet_init", "finalize_and_cage", [U64])
    case CommunityWalletInitInitCommunity =>
      Signature("community_wallet_init", "init_community", [List(Address), U64])
    case CommunityWalletInitProposeOffer => Signature("community_wallet_init", "propose_offer", [List(Address), U64])
    case DiemGovernanceOlCreateProposalV2 =>
      Signature("diem_governance", "ol_create_proposal_v2", [Bytes, Bytes, Bytes, Bool])
    case DiemGovernanceOlVote => Signature("diem_governance", "ol_vote", [U64, Bool])
    case DiemGovernanceSmokeTriggerEpoch => Signature("diem_governance", "smoke_trigger_epoch", [])
    case DiemGovernanceTriggerEpoch => Signature("diem_governance", "trigger_epoch", [])
    case DonorVoiceTxsMaybeCloseReauth => Signature("donor_voice_txs", "maybe_close_reauth", [Address])
  }

  predicate PartC(f: Function) {
    || f.DonorVoiceTxsProposeLiquidateTx? || f.DonorVoiceTxsProposePaymentTx?
    || f.DonorVoiceTxsProposeVetoTx? || f.DonorVoiceTxsVoteLiquidationTx?
    || f.DonorVoiceTxsVoteReauthTx? || f.EpochBoundarySmokeEnableTrigger?
    || f.EpochBoundarySmokeTriggerEpoch? || f.FiloMigrationMaybeMigrate?
  }

  function SigC(f: Function): Signature
    requires PartC(f)
  {
    match f
    case DonorVoiceTxsProposeLiquidateTx => Signature("donor_voice_txs", "propose_liquidate_tx", [Address])
    case DonorVoiceTxsProposePaymentTx =>
      Signature("donor_voice_txs", "propose_payment_tx", [Address, Address, U64, Bytes, Bool])
    case DonorVoiceTxsProposeVetoTx => Signature("donor_voice_txs", "propose_veto_tx", [Address, U64])
    case DonorVoiceTxsVoteLiquidationTx => Signature("donor_voice_txs", "vote_liquidation_tx", [Address])
    case DonorVoiceTxsVoteReauthTx => Signature("donor_voice_txs", "vote_reauth_tx", [Address])
    case EpochBoundarySmokeEnableTrigger => Signature("epoch_boundary", "smoke_enable_trigger", [])
    case EpochBoundarySmokeTriggerEpoch => Signature("epoch_boundary", "smoke_trigger_epoch", [])
    case FiloMigrationMaybeMigrate => Signature("filo_migration", "maybe_migrate", [])
  }

  predicate PartD(f: Function) {
    || f.JailUnjailByVoucher? || f.LibraCoinMintToImpl?
    || f.MultiActionClaimOffer? || f.MultiActionInitGovDeprecated?
    || f.MultisigAccountAddOwner? || f.MultisigAccountAddOwners?
    || f.MultisigAccountRemoveOwner? || f.MultisigAccountRemoveOwners?
  }

  function SigD(f: Function): Signature
    requires PartD(f)
  {
    match f
    case JailUnjailByVoucher => Signature("jail", "unjail_by_voucher", [Address])
    case LibraCoinMintToImpl => Signature("libra_coin", "mint_to_impl", [Address, U64])
    case MultiActionClaimOffer => Signature("multi_action", "claim_offer", [Address])
    case MultiActionInitGovDeprecated => Signature("multi_action", "init_gov_deprecated", [])
    case MultisigAccountAddOwner => Signature("multisig_account", "add_owner", [Address])
    case MultisigAccountAddOwners => Signature("multisig_account", "add_owners", [List(Address)])
    case MultisigAccountRemoveOwner => Signature("multisig_account", "remove_owner", [Address])
    case MultisigAccountRemoveOwners => Signature("multisig_account", "remove_owners", [List(Address)])
  }

  predicate PartE(f: Function) {
    || f.MultisigAccountUpdateMetadata? || f.MultisigAccountUpdateSignaturesRequired?
    || f.OlAccountCreateAccount? || f.OlAccountTransfer?
    || f.PageRankLazyRefreshCache? || f.ProofOfFeePofRetractBid?
    || f.ProofOfFeePofUpdateBid? || f.ProofOfFeePofUpdateBidNetReward?
  }

  function SigE(f: Function): Signature
    requires PartE(f)
  {
    match f
    case MultisigAccountUpdateMetadata => Signature("multisig_account", "update_metadata", [List(Bytes), List(Bytes)])
    case MultisigAccountUpdateSignaturesRequired => Signature("multisig_account", "update_signatures_required", [U64])
    case OlAccountCreateAccount => Signature("ol_account", "create_account", [Address])
    case OlAccountTransfer => Signature("ol_account", "transfer", [Address, U64])
    case PageRankLazyRefreshCache => Signature("page_rank_lazy", "refresh_cache", [Address])
    case ProofOfFeePofRetractBid => Signature("proof_of_fee", "pof_retract_bid", [])
    case ProofOfFeePofUpdateBid => Signature("proof_of_fee", "pof_update_bid", [U64, U64])
    case ProofOfFeePofUpdateBidNetReward => Signature("proof_of_fee", "pof_update_bid_net_reward", [U64, U64])
  }

  function SigF(f: Function): Signature
    requires !PartA(f) && !PartB(f) && !PartC(f) && !PartD(f) && !PartE(f)
  {
    match f
    case SlowWalletSmokeTestVmUnlock => Signature("slow_wallet", "smoke_test_vm_unlock", [Address, U64, U64])
    case SlowWalletUserSetSlow => Signature("slow_wallet", "user_set_slow", [])
    case StakeInitializeValidator => Signature("stake", "initialize_validator", [Bytes, Bytes, Bytes, Bytes])
    case StakeUpdateNetworkAndFullnodeAddresses =>
      Signature("stake", "update_network_and_fullnode_addresses", [Address, Bytes, Bytes])
    case ValidatorUniverseRegisterValidator =>
      Signature("validator_universe", "register_validator", [Bytes, Bytes, Bytes, Bytes])
    case VouchTxsCleanExpired => Signature("vouch_txs", "clean_expired", [])
    case VouchTxsRevoke => Signature("vouch_txs", "revoke", [Address])
    case VouchTxsVouchFor => Signature("vouch_txs", "vouch_for", [Address])
  }

  function Sig(f: Function): Signature {
    if PartA(f) then SigA(f)
    else if PartB(f) then SigB(f)
    else if PartC(f) then SigC(f)
    else if PartD(f) then SigD(f)
    else if PartE(f) then SigE(f)
    else SigF(f)
  }

  /** The fields of a variant, as `EntryFunctionCall` declares them. */
  function Fields(f: Function): seq<Type> {
    match f
    case AccountOfferRotationCapability => [Bytes, U8, Bytes, Address]
    case AccountRevokeRotationCapability | DonorVoiceTxsMaybeCloseReauth | DonorVoiceTxsProposeLiquidateTx
        | DonorVoiceTxsVoteLiquidationTx | DonorVoiceTxsVoteReauthTx | JailUnjailByVoucher
        | MultiActionClaimOffer | MultisigAccountAddOwner | MultisigAccountRemoveOwner
        | OlAccountCreateAccount | PageRankLazyRefreshCache | VouchTxsRevoke | VouchTxsVouchFor => [Address]
    case AccountRotateAuthenticationKey => [U8, Bytes, U8, Bytes, Bytes, Bytes]
    case AccountRotateAuthenticationKeyWithRotationCapability => [Address, U8, Bytes, Bytes]
    case BurnSetSendCommunity => [Bool]
    case CodePublishPackageTxn => [Bytes, List(Bytes)]
    case CommunityWalletInitChangeSignerCommunityMultisig => [Address, Address, Bool, U64, U64]
    case CommunityWalletInitFinalizeAndCage | MultisigAccountUpdateSignaturesRequired => [U64]
    case CommunityWalletInitInitCommunity | CommunityWalletInitProposeOffer => [List(Address), U64]
    case DiemGovernanceOlCreateProposalV2 => [Bytes, Bytes, Bytes, Bool]
    case DiemGovernanceOlVote => [U64, Bool]
    case DonorVoiceTxsProposePaymentTx => [Address, Address, U64, Bytes, Bool]
    case DonorVoiceTxsProposeVetoTx | LibraCoinMintToImpl | OlAccountTransfer => [Address, U64]
    case MultisigAccountAddOwners | MultisigAccountRemoveOwners => [List(Address)]
    case MultisigAccountUpdateMetadata => [List(Bytes), List(Bytes)]
    case ProofOfFeePofUpdateBid | ProofOfFeePofUpdateBidNetReward => [U64, U64]
    case SlowWalletSmokeTestVmUnlock => [Address, U64, U64]
    case StakeInitializeValidator | ValidatorUniverseRegisterValidator => [Bytes, Bytes, Bytes, Bytes]
    case StakeUpdateNetworkAndFullnodeAddresses => [Address, Bytes, Bytes]
    case _ => []
  }

  /** Every variant has a field for each parameter of the function it is encoded by. */
  lemma ParamsAreFields(f: Function)
    ensures Sig(f).params == Fields(f)
  {
    hide SigA, SigB, SigC, SigD, SigE, SigF, Fields;
    if PartA(f) {
      ParamsOfPartA(f);
    } else if PartB(f) {
      ParamsOfPartB(f);
    } else if PartC(f) {
      ParamsOfPartC(f);
    } else if PartD(f) {
      ParamsOfPartD(f);
    } else if PartE(f) {
      ParamsOfPartE(f);
    } else {
      ParamsOfPartF(f);
    }
  }

  lemma ParamsOfPartA(f: Function)
    requires PartA(f)
    ensures Sig(f).params == Fields(f)
  {
    hide SigB, SigC, SigD, SigE, SigF;
  }

  lemma ParamsOfPartB(f: Function)
    requires PartB(f)
    ensures Sig(f).params == Fields(f)
  {
    hide SigA, SigC, SigD, SigE, SigF;
  }

  lemma ParamsOfPartC(f: Function)
    requires PartC(f)
    ensures Sig(f).params == Fields(f)
  {
    hide SigA, SigB, SigD, SigE, SigF;
  }

  lemma ParamsOfPartD(f: Function)
    requires PartD(f)
    ensures Sig(f).params == Fields(f)
  {
    hide SigA, SigB, SigC, SigE, SigF;
  }

  lemma ParamsOfPartE(f: Function)
    requires PartE(f)
    ensures Sig(f).params == Fields(f)
  {
    hide SigA, SigB, SigC, SigD, SigF;
  }

  lemma ParamsOfPartF(f: Function)
    requires !PartA(f) && !PartB(f) && !PartC(f) && !PartD(f) && !PartE(f)
    ensures Sig(f).params == Fields(f)
  {
    hide SigA, SigB, SigC, SigD, SigE;
  }

  /** The variants in the order in which the decoder map is filled. */
  const INSERTED: seq<Function> :=
    [
      AccountOfferRotationCapability,
      AccountRevokeRotationCapability,
      AccountRotateAuthenticationKey,
      AccountRotateAuthenticationKeyWithRotationCapability,
      ActivityMaybeFixMalformed,
      BurnSetSendCommunity,
      CodePublishPackageTxn,
      CommunityWalletInitChangeSignerCommunityMultisig,
      CommunityWalletInitFinalizeAndCage,
      CommunityWalletInitInitCommunity,
      CommunityWalletInitProposeOffer,
      DiemGovernanceOlCreateProposalV2
    ] +
    [
      DiemGovernanceOlVote,
      DiemGovernanceSmokeTriggerEpoch,
      DiemGovernanceTriggerEpoch,
      DonorVoiceTxsMaybeCloseReauth,
      DonorVoiceTxsProposeLiquidateTx,
      DonorVoiceTxsProposePaymentTx,
      DonorVoiceTxsProposeVetoTx,
      DonorVoiceTxsVoteLiquidationTx,
      DonorVoiceTxsVoteReauthTx,
      EpochBoundarySmokeEnableTrigger,
      EpochBoundarySmokeTriggerEpoch,
      FiloMigrationMaybeMigrate
    ] +
    [
      JailUnjailByVoucher,
      LibraCoinMintToImpl,
      MultiActionClaimOffer,
      MultiActionInitGovDeprecated,
      MultisigAccountAddOwner,
      MultisigAccountAddOwners,
      MultisigAccountRemoveOwner,
      MultisigAccountRemoveOwners,
      MultisigAccountUpdateMetadata,
      MultisigAccountUpdateSignaturesRequired,
      OlAccountCreateAccount,
      OlAccountTransfer
    ] +
    [
      PageRankLazyRefreshCache,
      ProofOfFeePofRetractBid,
      ProofOfFeePofUpdateBid,
      ProofOfFeePofUpdateBidNetReward,
      SlowWalletSmokeTestVmUnlock,
      SlowWalletUserSetSlow,
      StakeInitializeValidator,
      StakeUpdateNetworkAndFullnodeAddresses,
      ValidatorUniverseRegisterValidator,
      VouchTxsCleanExpired,
      VouchTxsRevoke,
      VouchTxsVouchFor
    ]

  // Dispatch ------------------------------------------------------------------------------------------------

  /** The key of the decoder map: the module's name and the function's, joined. */
  function Join(moduleName: string, name: string): string {
    moduleName + ("_" + name)
  }

  function Key(f: Function): string {
    Join(Sig(f).moduleName, Sig(f).name)
  }

  function DecoderMap(inserted: seq<Function>): map<string, Function> {
    if inserted == [] then map[]
    else DecoderMap(inserted[..|inserted| - 1])[Key(inserted[|inserted| - 1]) := inserted[|inserted| - 1]]
  }

  lemma AllInserted(f: Function)
    ensures f in INSERTED
  {
  }

  /** Which variant a key can belong to, by its length and the letters before the last one. */
  ghost function Slot(len: nat, a: char, b: char): Function {
    if len == 16 then VouchTxsRevoke
    else if len == 19 then (if b == 'e' then OlAccountTransfer else VouchTxsVouchFor)
    else if len == 22 then JailUnjailByVoucher
    else if len == 23 then (if a == 'i' then BurnSetSendCommunity else if a == 'o' then DiemGovernanceOlVote
      else if a == 'm' then LibraCoinMintToImpl else VouchTxsCleanExpired)
    else if len == 24 then (if b == 'x' then CodePublishPackageTxn else MultiActionClaimOffer)
    else if len == 25 then (if b == 'n' then OlAccountCreateAccount else SlowWalletUserSetSlow)
    else if len == 26 then (if b == 'e' then MultisigAccountAddOwner else StakeInitializeValidator)
    else if len == 27 then (if b == 'r' then MultisigAccountAddOwners else ProofOfFeePofUpdateBid)
    else if len == 28 then (if b == 'e' then ActivityMaybeFixMalformed
      else if b == 't' then FiloMigrationMaybeMigrate else if b == 'h' then PageRankLazyRefreshCache
      else ProofOfFeePofRetractBid)
    else if len == 29 then (if b == 'c' then DiemGovernanceTriggerEpoch else MultisigAccountRemoveOwner)
    else if len == 30 then (if b == 't' then DonorVoiceTxsVoteReauthTx else MultisigAccountRemoveOwners)
    else if len == 31 then DonorVoiceTxsProposeVetoTx
    else if len == 32 then (if b == 'e' then MultiActionInitGovDeprecated
      else if b == 't' then MultisigAccountUpdateMetadata else SlowWalletSmokeTestVmUnlock)
    else if len == 33 then (if b == 't' then AccountOfferRotationCapability else AccountRotateAuthenticationKey)
    else if len == 34 then (if a == 'i' then AccountRevokeRotationCapability
      else if a == 'u' then DonorVoiceTxsMaybeCloseReauth else if a == '_' then DonorVoiceTxsProposePaymentTx
      else EpochBoundarySmokeTriggerEpoch)
    else if len == 35 then (if a == 'f' then CommunityWalletInitProposeOffer
      else if a == 'o' then DiemGovernanceSmokeTriggerEpoch else if a == '_' then DonorVoiceTxsVoteLiquidationTx
      else EpochBoundarySmokeEnableTrigger)
    else if len == 36 then (if a == 'i' then CommunityWalletInitInitCommunity else DonorVoiceTxsProposeLiquidateTx)
    else if len == 37 then (if b == 'v' then DiemGovernanceOlCreateProposalV2 else ValidatorUniverseRegisterValidator)
    else if len == 38 then ProofOfFeePofUpdateBidNetReward
    else if len == 39 then CommunityWalletInitFinalizeAndCage
    else if len == 43 then (if a == 'r' then MultisigAccountUpdateSignaturesRequired
      else StakeUpdateNetworkAndFullnodeAddresses)
    else if len == 54 then CommunityWalletInitChangeSignerCommunityMultisig
    else if len == 58 then AccountRotateAuthenticationKeyWithRotationCapability
    else AccountOfferRotationCapability
  }

  ghost function SlotOf(key: string): Function {
    if |key| < 3 then AccountOfferRotationCapability else Slot(|key|, key[|key| - 3], key[|key| - 2])
  }

  lemma SlotOfJoin(moduleName: string, name: string, len: nat, a: char, b: char)
    requires |moduleName| + |name| + 1 == len && |name| >= 3
    requires name[|name| - 3] == a && name[|name| - 2] == b
    ensures SlotOf(Join(moduleName, name)) == Slot(len, a, b)
  {
    hide Slot;
    var key := Join(moduleName, name);
    assert key[|key| - 3] == a && key[|key| - 2] == b;
  }

  lemma SlotOfKeyA(f: Function)
    requires PartA(f)
    ensures SlotOf(Key(f)) == f
  {
    hide SlotOf, Join, SigB, SigC, SigD, SigE, SigF;
    match f
    case AccountOfferRotationCapability => SlotOfJoin("account", "offer_rotation_capability", 33, 'i', 't');
    case AccountRevokeRotationCapability => SlotOfJoin("account", "revoke_rotation_capability", 34, 'i', 't');
    case AccountRotateAuthenticationKey => SlotOfJoin("account", "rotate_authentication_key", 33, 'k', 'e');
    case AccountRotateAuthenticationKeyWithRotationCapability =>
      SlotOfJoin("account", "rotate_authentication_key_with_rotation_capability", 58, 'i', 't');
    case ActivityMaybeFixMalformed => SlotOfJoin("activity", "maybe_fix_malformed", 28, 'm', 'e');
    case BurnSetSendCommunity => SlotOfJoin("burn", "set_send_community", 23, 'i', 't');
    case CodePublishPackageTxn => SlotOfJoin("code", "publish_package_txn", 24, 't', 'x');
    case CommunityWalletInitChangeSignerCommunityMultisig =>
      SlotOfJoin("community_wallet_init", "change_signer_community_multisig", 54, 's', 'i');
  }

  lemma {:induction false} SlotOfKeyB(f: Function)
    requires PartB(f)
    ensures SlotOf(Key(f)) == f
  {
    hide SlotOf, Join, SigA, SigC, SigD, SigE, SigF;
    match f
    case CommunityWalletInitFinalizeAndCage => SlotOfJoin("community_wallet_init", "finalize_and_cage", 39, 'a', 'g');
    case CommunityWalletInitInitCommunity => SlotOfJoin("community_wallet_init", "init_community", 36, 'i', 't');
    case CommunityWalletInitProposeOffer => SlotOfJoin("community_wallet_init", "propose_offer", 35, 'f', 'e');
    case DiemGovernanceOlCreateProposalV2 => SlotOfJoin("diem_governance", "ol_create_proposal_v2", 37, '_', 'v');
    case DiemGovernanceOlVote => SlotOfJoin("diem_governance", "ol_vote", 23, 'o', 't');
    case DiemGovernanceSmokeTriggerEpoch => SlotOfJoin("diem_governance", "smoke_trigger_epoch", 35, 'o', 'c');
    case DiemGovernanceTriggerEpoch => SlotOfJoin("diem_governance", "trigger_epoch", 29, 'o', 'c');
    case DonorVoiceTxsMaybeCloseReauth => SlotOfJoin("donor_voice_txs", "maybe_close_reauth", 34, 'u', 't');
  }

  lemma SlotOfKeyC(f: Function)
    requires PartC(f)
    ensures SlotOf(Key(f)) == f
  {
    hide SlotOf, Join, SigA, SigB, SigD, SigE, SigF;
    match f
    case DonorVoiceTxsProposeLiquidateTx => SlotOfJoin("donor_voice_txs", "propose_liquidate_tx", 36, '_', 't');
    case DonorVoiceTxsProposePaymentTx => SlotOfJoin("donor_voice_txs", "propose_payment_tx", 34, '_', 't');
    case DonorVoiceTxsProposeVetoTx => SlotOfJoin("donor_voice_txs", "propose_veto_tx", 31, '_', 't');
    case DonorVoiceTxsVoteLiquidationTx => SlotOfJoin("donor_voice_txs", "vote_liquidation_tx", 35, '_', 't');
    case DonorVoiceTxsVoteReauthTx => SlotOfJoin("donor_voice_txs", "vote_reauth_tx", 30, '_', 't');
    case EpochBoundarySmokeEnableTrigger => SlotOfJoin("epoch_boundary", "smoke_enable_trigger", 35, 'g', 'e');
    case EpochBoundarySmokeTriggerEpoch => SlotOfJoin("epoch_boundary", "smoke_trigger_epoch", 34, 'o', 'c');
    case FiloMigrationMaybeMigrate => SlotOfJoin("filo_migration", "maybe_migrate", 28, 'a', 't');
  }

  lemma SlotOfKeyD(f: Function)
    requires PartD(f)
    ensures SlotOf(Key(f)) == f
  {
    hide SlotOf, Join, SigA, SigB, SigC, SigE, SigF;
    match f
    case JailUnjailByVoucher => SlotOfJoin("jail", "unjail_by_voucher", 22, 'h', 'e');
    case LibraCoinMintToImpl => SlotOfJoin("libra_coin", "mint_to_impl", 23, 'm', 'p');
    case MultiActionClaimOffer => SlotOfJoin("multi_action", "claim_offer", 24, 'f', 'e');
    case MultiActionInitGovDeprecated => SlotOfJoin("multi_action", "init_gov_deprecated", 32, 't', 'e');
    case MultisigAccountAddOwner => SlotOfJoin("multisig_account", "add_owner", 26, 'n', 'e');
    case MultisigAccountAddOwners => SlotOfJoin("multisig_account", "add_owners", 27, 'e', 'r');
    case MultisigAccountRemoveOwner => SlotOfJoin("multisig_account", "remove_owner", 29, 'n', 'e');
    case MultisigAccountRemoveOwners => SlotOfJoin("multisig_account", "remove_owners", 30, 'e', 'r');
  }

  lemma {:induction false} SlotOfKeyE(f: Function)
    requires PartE(f)
    ensures SlotOf(Key(f)) == f
  {
    hide SlotOf, Join, SigA, SigB, SigC, SigD, SigF;
    match f
    case MultisigAccountUpdateMetadata => SlotOfJoin("multisig_account", "update_metadata", 32, 'a', 't');
    case MultisigAccountUpdateSignaturesRequired =>
      SlotOfJoin("multisig_account", "update_signatures_required", 43, 'r', 'e');
    case OlAccountCreateAccount => SlotOfJoin("ol_account", "create_account", 25, 'u', 'n');
    case OlAccountTransfer => SlotOfJoin("ol_account", "transfer", 19, 'f', 'e');
    case PageRankLazyRefreshCache => SlotOfJoin("page_rank_lazy", "refresh_cache", 28, 'c', 'h');
    case ProofOfFeePofRetractBid => SlotOfJoin("proof_of_fee", "pof_retract_bid", 28, 'b', 'i');
    case ProofOfFeePofUpdateBid => SlotOfJoin("proof_of_fee", "pof_update_bid", 27, 'b', 'i');
    case ProofOfFeePofUpdateBidNetReward => SlotOfJoin("proof_of_fee", "pof_update_bid_net_reward", 38, 'a', 'r');
  }

  lemma {:induction false} SlotOfKeyF(f: Function)
    requires !PartA(f) && !PartB(f) && !PartC(f) && !PartD(f) && !PartE(f)
    ensures SlotOf(Key(f)) == f
  {
    hide SlotOf, Join, SigA, SigB, SigC, SigD, SigE;
    match f
    case SlowWalletSmokeTestVmUnlock => SlotOfJoin("slow_wallet", "smoke_test_vm_unlock", 32, 'o', 'c');
    case SlowWalletUserSetSlow => SlotOfJoin("slow_wallet", "user_set_slow", 25, 'l', 'o');
    case StakeInitializeValidator => SlotOfJoin("stake", "initialize_validator", 26, 't', 'o');
    case StakeUpdateNetworkAndFullnodeAddresses =>
      SlotOfJoin("stake", "update_network_and_fullnode_addresses", 43, 's', 'e');
    case ValidatorUniverseRegisterValidator => SlotOfJoin("validator_universe", "register_validator", 37, 't', 'o');
    case VouchTxsCleanExpired => SlotOfJoin("vouch_txs", "clean_expired", 23, 'r', 'e');
    case VouchTxsRevoke => SlotOfJoin("vouch_txs", "revoke", 16, 'o', 'k');
    case VouchTxsVouchFor => SlotOfJoin("vouch_txs", "vouch_for", 19, 'f', 'o');
  }

  lemma {:induction false} SlotOfKey(f: Function)
    ensures SlotOf(Key(f)) == f
  {
    hide SlotOf, Key;
    if PartA(f) {
      SlotOfKeyA(f);
    } else if PartB(f) {
      SlotOfKeyB(f);
    } else if PartC(f) {
      SlotOfKeyC(f);
    } else if PartD(f) {
      SlotOfKeyD(f);
    } else if PartE(f) {
      SlotOfKeyE(f);
    } else {
      SlotOfKeyF(f);
    }
  }

  lemma KeysUnique(f: Function, g: Function)
    requires Key(f) == Key(g)
    ensures f == g
  {
    hide Key, SlotOf;
    SlotOfKey(f);
    SlotOfKey(g);
  }

  /** The map holds every inserted variant under its key, and nothing else. */
  lemma {:induction false} MapExactly(inserted: seq<Function>, key: string)
    ensures key in DecoderMap(inserted) ==> DecoderMap(inserted)[key] in inserted && Key(DecoderMap(inserted)[key]) == key
    ensures forall f :: f in inserted && Key(f) == key ==> key in DecoderMap(inserted) && DecoderMap(inserted)[key] == f
  {
    hide Key;
    if inserted != [] {
      var (front, last) := (inserted[..|inserted| - 1], inserted[|inserted| - 1]);
      MapExactly(front, key);
      forall f | f in inserted && Key(f) == key ensures key in DecoderMap(inserted) && DecoderMap(inserted)[key] == f {
        if Key(last) == key {
          KeysUnique(f, last);
        } else {
          assert f in front;
        }
      }
    }
  }

  function Dispatch(key: string): Option<Function> {
    var decoders := DecoderMap(INSERTED);
    if key in decoders then Some(decoders[key]) else None
  }

  /** Looking up a joined name finds a variant exactly when the name is that variant's key. */
  lemma DispatchExactly(key: string, f: Function)
    ensures Dispatch(key) == Some(f) <==> Key(f) == key
  {
    hide Key, DecoderMap, INSERTED;
    AllInserted(f);
    MapExactly(INSERTED, key);
  }

  // Calls and payloads ----------------------------------------------------------------------------------------

  datatype Call = Call(function_: Function, args: seq<Value>)

  /** A call with the arguments its variant has fields for. */
  predicate IsCall(c: Call) {
    && |c.args| == |Fields(c.function_)|
    && forall i :: 0 <= i < |c.args| ==> HasType(c.args[i], Fields(c.function_)[i])
  }

  datatype Payload =
    | EntryFunction(address: seq<Byte>, moduleName: string, name: string, tyArgs: seq<string>, args: seq<seq<Byte>>)
    | OtherPayload

  const CORE_ADDRESS: seq<Byte> :=
    [0, 0, 0, 0, 0, 0, 0, 0, 0, 0, 0, 0, 0, 0, 0, 0] + [0, 0, 0, 0, 0, 0, 0, 0, 0, 0, 0, 0, 0, 0, 0, 1]

  function Encoded(args: seq<Value>): (r: seq<seq<Byte>>)
    ensures |r| == |args| && forall i :: 0 <= i < |r| ==> r[i] == ToBytes(args[i])
  {
    seq(|args|, i requires 0 <= i < |args| => ToBytes(args[i]))
  }

  function Encode(c: Call): Payload
    requires IsCall(c)
  {
    EntryFunction(CORE_ADDRESS, Sig(c.function_).moduleName, Sig(c.function_).name, [], Encoded(c.args))
  }

  /** The arguments a decoder picks from the front of the payload's; surplus ones are not looked at. */
  function DecodeArgs(args: seq<seq<Byte>>, params: seq<Type>): Option<seq<Value>> {
    if params == [] then Some([])
    else if args == [] then None
    else
      var first :- FromBytes(args[0], params[0]);
      var more :- DecodeArgs(args[1..], params[1..]);
      Some([first] + more)
  }

  function Decode(p: Payload): Option<Call> {
    if p.OtherPayload? then None
    else
      var f :- Dispatch(Join(p.moduleName, p.name));
      var args :- DecodeArgs(p.args, Fields(f));
      Some(Call(f, args))
  }

  predicate ArgsMatch(args: seq<seq<Byte>>, params: seq<Type>, values: seq<Value>) {
    && |values| == |params| <= |args|
    && forall i :: 0 <= i < |values| ==> HasType(values[i], params[i]) && args[i] == ToBytes(values[i])
  }

  lemma ArgsMatchCons(args: seq<seq<Byte>>, params: seq<Type>, values: seq<Value>)
    requires args != [] && params != [] && values != []
    ensures ArgsMatch(args, params, values)
       <==> HasType(values[0], params[0]) && args[0] == ToBytes(values[0]) && ArgsMatch(args[1..], params[1..], values[1..])
  {
    hide HasType, ToBytes;
    if ArgsMatch(args[1..], params[1..], values[1..]) && HasType(values[0], params[0]) && args[0] == ToBytes(values[0]) {
      forall i | 0 <= i < |values| ensures HasType(values[i], params[i]) && args[i] == ToBytes(values[i]) {
        if i > 0 {
          assert HasType(values[1..][i - 1], params[1..][i - 1]) && args[1..][i - 1] == ToBytes(values[1..][i - 1]);
        }
      }
    }
  }

  lemma {:induction false} DecodeArgsExactly(args: seq<seq<Byte>>, params: seq<Type>, values: seq<Value>)
    ensures DecodeArgs(args, params) == Some(values) <==> ArgsMatch(args, params, values)
  {
    if params == [] || args == [] || values == [] {
      hide FromBytes, HasType, ToBytes;
    } else {
      hide FromBytes, HasType, ToBytes, ArgsMatch;
      FromBytesExactly(args[0], params[0], values[0]);
      DecodeArgsExactly(args[1..], params[1..], values[1..]);
      ArgsMatchCons(args, params, values);
      assert values == [values[0]] + values[1..];
    }
  }

  /**
   * What decodes to a call: the payloads whose joined name is the call's key and whose arguments start with
   * the call's, whatever the address, the split of the name, the type arguments and further arguments are.
   */
  lemma DecodeExactly(p: Payload, c: Call)
    ensures Decode(p) == Some(c)
       <==> IsCall(c) && p.EntryFunction? && Join(p.moduleName, p.name) == Key(c.function_) && Encoded(c.args) <= p.args
  {
    hide Dispatch, DecodeArgs, Key, Sig, Fields, HasType, ToBytes, Join;
    if p.EntryFunction? {
      DispatchExactly(Join(p.moduleName, p.name), c.function_);
      DecodeArgsExactly(p.args, Fields(c.function_), c.args);
    }
  }

  /** Decoding an encoded call returns the call. */
  lemma {:induction false} DecodeEncode(c: Call)
    requires IsCall(c)
    ensures Decode(Encode(c)) == Some(c)
  {
    hide Decode, Sig, IsCall;
    DecodeExactly(Encode(c), c);
  }

  /**
   * Encoding what was decoded gives the payload back exactly when it used the framework's address, the
   * generated split of the name, no type arguments and no surplus arguments.
   */
  lemma {:induction false} ReencodeExactly(p: Payload, c: Call)
    requires Decode(p) == Some(c)
    ensures IsCall(c)
    ensures Encode(c) == p
       <==> p.address == CORE_ADDRESS && p.tyArgs == [] && |p.args| == |Fields(c.function_)|
            && p.moduleName == Sig(c.function_).moduleName && p.name == Sig(c.function_).name
  {
    hide Decode, Sig, Fields, Key, Join, HasType, ToBytes;
    DecodeExactly(p, c);
    if |p.args| == |c.args| {
      assert Encoded(c.args) == p.args;
    }
  }

  lemma OtherSplit()
    ensures Join("account_revoke", "rotation_capability") == Key(AccountRevokeRotationCapability)
  {
    hide SigB, SigC, SigD, SigE, SigF;
    var sig := Sig(AccountRevokeRotationCapability);
    assert sig.moduleName == "account" && sig.name == "revoke_rotation_capability";
    assert "account_revoke" == "account" + ("_" + "revoke");
    assert sig.name == "revoke" + ("_" + "rotation_capability");
    Resplit("account", "revoke", "rotation_capability");
  }

  lemma Resplit(a: string, b: string, c: string)
    ensures Join(a + ("_" + b), c) == Join(a, b + ("_" + c))
  {
  }

  /** Another split of a key is not told apart: a function that is in no module of the framework decodes. */
  lemma OtherSplitDecodes(address: seq<Byte>, user: seq<Byte>)
    requires |user| == 32
    ensures Decode(EntryFunction(address, "account_revoke", "rotation_capability", [], [user]))
         == Some(Call(AccountRevokeRotationCapability, [AddressValue(user)]))
  {
    hide Decode, Join, Key, SigB, SigC, SigD, SigE, SigF;
    var c := Call(AccountRevokeRotationCapability, [AddressValue(user)]);
    OtherSplit();
    DecodeExactly(EntryFunction(address, "account_revoke", "rotation_capability", [], [user]), c);
  }

  /** The bytes of the argument types, in the terms of the BCS specification. */
  lemma ArgumentBytes(b: Byte, address: seq<Byte>, bytes: seq<Byte>)
    ensures ToBytes(BoolValue(false)) == [0] && ToBytes(BoolValue(true)) == [1] && ToBytes(U8Value(b)) == [b]
    ensures ToBytes(AddressValue(address)) == address
    ensures |bytes| < 128 ==> ToBytes(BytesValue(bytes)) == [|bytes|] + bytes
  {
    assert |bytes| < 128 ==> Bcs.Uleb(|bytes|) == [|bytes|];
  }

  lemma U64Bytes()
    ensures ToBytes(U64Value(0x0102)) == [2, 1, 0, 0, 0, 0, 0, 0]
  {
    Hex.LittleEndianZero(6);
    assert Hex.LittleEndian(1, 7) == [1] + Hex.LittleEndian(0, 6);
    assert Hex.LittleEndian(0x0102, 8) == [2] + ([1] + Hex.LittleEndian(0, 6));
  }

  /** A list is its length and its elements, in order. */
  lemma PairBytes(v: Value, w: Value)
    ensures ToBytes(ListValue([v, w])) == [2] + (ToBytes(v) + ToBytes(w))
  {
    assert [v, w][1..] == [w] && [w][1..] == [];
    assert AllBytes([w]) == ToBytes(w) + [] == ToBytes(w);
    assert Bcs.Uleb(2) == [2];
  }

  lemma CoreAddress(i: nat)
    requires i < 32
    ensures |CORE_ADDRESS| == 32 && CORE_ADDRESS[i] == if i == 31 then 1 else 0
  {
  }
}
