/** The genesis migration of user records, as the trace of Move calls it issues. */
module Migration {
  import opened Base
  import opened Recovery
  import opened ParseJson
  import opened Supply
  import opened CommWallet

  datatype MoveValue =
    | Signer(addr: Account)
    | Address(addr: Account)
    | VectorU8(bytes: seq<Byte>)
    | U64(n: nat)
    | VectorAddress(addrs: seq<Account>)
    | VectorU64(ns: seq<nat>)

  datatype Call = Call(moduleName: string, functionName: string, args: seq<MoveValue>)

  const ZERO: Account := 0
  const CORE_CODE_ADDRESS: Account := 1

  /** The VM session; a call that aborts ends the program, so a completed run holds every call made. */
  class Session {
    var trace: seq<Call>

    constructor ()
      ensures trace == []
    {
      trace := [];
    }

    method ExecFunction(moduleName: string, functionName: string, args: seq<MoveValue>)
      modifies this
      ensures trace == old(trace) + [Call(moduleName, functionName, args)]
    {
      trace := trace + [Call(moduleName, functionName, args)];
    }
  }

  // The calls ----------------------------------------------------------------------------------------

  function TombstoneCall(a: Account): Call {
    Call("account", "set_tombstone", [Signer(ZERO), Address(a)])
  }

  function UserCall(a: Account, key: AuthKey, balance: nat): Call {
    Call("genesis_migration", "migrate_legacy_user", [Signer(CORE_CODE_ADDRESS), Signer(a), VectorU8(key), U64(balance)])
  }

  function SlowWalletCall(a: Account, s: SlowWallet): Call {
    Call("slow_wallet", "set_slow_wallet_state", [Signer(CORE_CODE_ADDRESS), Signer(a), U64(s.unlocked), U64(s.transferred)])
  }

  function CommunityWalletCall(a: Account): Call {
    Call("community_wallet_init", "migrate_community_wallet_account", [Signer(CORE_CODE_ADDRESS), Signer(a)])
  }

  function AncestryCall(a: Account, tree: seq<Account>): Call {
    Call("ancestry", "fork_migrate", [Signer(CORE_CODE_ADDRESS), Signer(a), VectorAddress(tree)])
  }

  function ReceiptsCall(a: Account, r: Receipts): Call {
    Call("receipts", "genesis_migrate_user",
         [Signer(ZERO), Signer(a), VectorAddress(r.destination), VectorU64(r.cumulative),
          VectorU64(r.lastPaymentTimestamp), VectorU64(r.lastPaymentValue)])
  }

  function EscrowCall(a: Account, p: Pledge): Call {
    Call("genesis_migration", "fork_escrow_init",
         [Signer(CORE_CODE_ADDRESS), Signer(a), U64(p.pledge), U64(p.lifetimePledged), U64(p.lifetimeWithdrawn)])
  }

  function CumulativeCall(a: Account, w: WalletState): Call {
    Call("cumulative_deposits", "genesis_migrate_cumulative_deposits",
         [Signer(CORE_CODE_ADDRESS), Signer(a), U64(w.cumulativeValue), U64(w.cumulativeIndex), VectorAddress(w.depositors)])
  }

  // The calls of one record ----------------------------------------------------------------------------

  predicate IsTombstoned(r: LegacyRecovery) {
    r.account.Some? && r.role == Drop
  }

  /** The record has what a user migration needs. */
  predicate HasUser(r: LegacyRecovery) {
    r.account.Some? && r.authKey.Some? && r.balance.Some?
  }

  function UserCalls(r: LegacyRecovery): seq<Call> {
    if HasUser(r) then [UserCall(r.account.value, r.authKey.value, r.balance.value)] else []
  }

  function SlowWalletCalls(r: LegacyRecovery): seq<Call> {
    if HasUser(r) && r.slowWallet.Some? then [SlowWalletCall(r.account.value, r.slowWallet.value)] else []
  }

  function CommunityWalletCalls(r: LegacyRecovery): seq<Call> {
    if r.commWallet && r.account.Some? then [CommunityWalletCall(r.account.value)] else []
  }

  function AncestryCalls(r: LegacyRecovery): seq<Call> {
    if HasUser(r) && r.ancestry.Some? then [AncestryCall(r.account.value, r.ancestry.value)] else []
  }

  function ReceiptsCalls(r: LegacyRecovery): seq<Call> {
    if HasUser(r) && r.receipts.Some? then [ReceiptsCall(r.account.value, r.receipts.value)] else []
  }

  function EscrowCalls(r: LegacyRecovery): seq<Call> {
    if r.account.Some? && r.authKey.Some? && r.myPledge.Some? then
      seq(|r.myPledge.value|, i requires 0 <= i < |r.myPledge.value| => EscrowCall(r.account.value, r.myPledge.value[i]))
    else []
  }

  function RecordCalls(r: LegacyRecovery): seq<Call> {
    if IsTombstoned(r) then [TombstoneCall(r.account.value)]
    else
      UserCalls(r) + (SlowWalletCalls(r) + (CommunityWalletCalls(r)
        + (AncestryCalls(r) + (ReceiptsCalls(r) + EscrowCalls(r)))))
  }

  function Trace(rs: seq<LegacyRecovery>): seq<Call> {
    if rs == [] then [] else RecordCalls(rs[0]) + Trace(rs[1..])
  }

  // The migrators ----------------------------------------------------------------------------------------

  datatype Outcome = Done | Missing

  method MigrateOneUser(session: Session, r: LegacyRecovery) returns (o: Outcome)
    modifies session
    ensures session.trace == old(session.trace) + UserCalls(r)
    ensures o.Done? <==> HasUser(r)
  {
    if r.account.None? || r.authKey.None? || r.balance.None? {
      return Missing;
    }
    session.ExecFunction("genesis_migration", "migrate_legacy_user",
      [Signer(CORE_CODE_ADDRESS), Signer(r.account.value), VectorU8(r.authKey.value), U64(r.balance.value)]);
    o := Done;
  }

  method MigrateSlowWallet(session: Session, r: LegacyRecovery) returns (o: Outcome)
    modifies session
    ensures session.trace == old(session.trace) + SlowWalletCalls(r)
    ensures o.Done? <==> HasUser(r) && r.slowWallet.Some?
  {
    if r.account.None? || r.authKey.None? || r.balance.None? || r.slowWallet.None? {
      return Missing;
    }
    var slow := r.slowWallet.value;
    session.ExecFunction("slow_wallet", "set_slow_wallet_state",
      [Signer(CORE_CODE_ADDRESS), Signer(r.account.value), U64(slow.unlocked), U64(slow.transferred)]);
    o := Done;
  }

  method MigrateInfraEscrow(session: Session, r: LegacyRecovery) returns (o: Outcome)
    modifies session
    ensures session.trace == old(session.trace) + EscrowCalls(r)
    ensures o.Done? <==> r.account.Some? && r.authKey.Some? && r.myPledge.Some?
  {
    if r.account.None? || r.authKey.None? || r.myPledge.None? {
      return Missing;
    }
    var list := r.myPledge.value;
    for i := 0 to |list|
      invariant session.trace == old(session.trace) + EscrowCalls(r)[..i]
    {
      var p := list[i];
      session.ExecFunction("genesis_migration", "fork_escrow_init",
        [Signer(CORE_CODE_ADDRESS), Signer(r.account.value), U64(p.pledge), U64(p.lifetimePledged), U64(p.lifetimeWithdrawn)]);
      assert EscrowCalls(r)[..i + 1] == EscrowCalls(r)[..i] + [EscrowCall(r.account.value, p)];
    }
    assert EscrowCalls(r)[..|list|] == EscrowCalls(r);
    o := Done;
  }

  method MigrateReceipts(session: Session, r: LegacyRecovery) returns (o: Outcome)
    modifies session
    ensures session.trace == old(session.trace) + ReceiptsCalls(r)
    ensures o.Done? <==> HasUser(r)
  {
    if r.account.None? || r.authKey.None? || r.balance.None? {
      return Missing;
    }
    if r.receipts.Some? {
      var v := r.receipts.value;
      session.ExecFunction("receipts", "genesis_migrate_user",
        [Signer(ZERO), Signer(r.account.value), VectorAddress(v.destination), VectorU64(v.cumulative),
         VectorU64(v.lastPaymentTimestamp), VectorU64(v.lastPaymentValue)]);
    }
    o := Done;
  }

  method MigrateAncestry(session: Session, r: LegacyRecovery) returns (o: Outcome)
    modifies session
    ensures session.trace == old(session.trace) + AncestryCalls(r)
    ensures o.Done? <==> HasUser(r) && r.ancestry.Some?
  {
    if r.account.None? || r.authKey.None? || r.balance.None? || r.ancestry.None? {
      return Missing;
    }
    session.ExecFunction("ancestry", "fork_migrate",
      [Signer(CORE_CODE_ADDRESS), Signer(r.account.value), VectorAddress(r.ancestry.value)]);
    o := Done;
  }

  /** Unwraps the account: a community wallet without one ends the program. */
  method MigrateCommunityWallet(session: Session, r: LegacyRecovery)
    requires r.account.Some?
    modifies session
    ensures session.trace == old(session.trace) + [CommunityWalletCall(r.account.value)]
  {
    session.ExecFunction("community_wallet_init", "migrate_community_wallet_account",
      [Signer(CORE_CODE_ADDRESS), Signer(r.account.value)]);
  }

  method SetTombstone(session: Session, user: Account)
    modifies session
    ensures session.trace == old(session.trace) + [TombstoneCall(user)]
  {
    session.ExecFunction("account", "set_tombstone", [Signer(ZERO), Address(user)]);
  }

  /** The loop body of `genesis_migrate_all_users`. */
  method MigrateRecord(session: Session, a: LegacyRecovery)
    requires a.commWallet ==> a.account.Some?
    modifies session
    ensures session.trace == old(session.trace) + RecordCalls(a)
  {
    hide UserCalls, SlowWalletCalls, AncestryCalls, ReceiptsCalls, EscrowCalls;
    ghost var before := session.trace;
    if a.account.Some? && a.role == Drop {
      SetTombstone(session, a.account.value);
      return;
    }
    var o := MigrateOneUser(session, a);
    if a.slowWallet.Some? {
      o := MigrateSlowWallet(session, a);
    }
    assert session.trace == before + UserCalls(a) + SlowWalletCalls(a) by { SkippedCalls(a); }
    if a.commWallet {
      MigrateCommunityWallet(session, a);
    }
    if a.ancestry.Some? {
      o := MigrateAncestry(session, a);
    }
    assert session.trace == before + UserCalls(a) + SlowWalletCalls(a) + CommunityWalletCalls(a) + AncestryCalls(a) by {
      SkippedCalls(a);
    }
    if a.receipts.Some? {
      o := MigrateReceipts(session, a);
    }
    if a.myPledge.Some? {
      o := MigrateInfraEscrow(session, a);
    }
    SkippedCalls(a);
    JoinCalls(before, UserCalls(a), SlowWalletCalls(a), CommunityWalletCalls(a), AncestryCalls(a), ReceiptsCalls(a), EscrowCalls(a));
  }

  lemma SkippedCalls(a: LegacyRecovery)
    ensures a.slowWallet.None? ==> SlowWalletCalls(a) == []
    ensures a.ancestry.None? ==> AncestryCalls(a) == []
    ensures a.receipts.None? ==> ReceiptsCalls(a) == []
    ensures a.myPledge.None? ==> EscrowCalls(a) == []
  {
  }

  lemma JoinCalls(t: seq<Call>, a: seq<Call>, b: seq<Call>, c: seq<Call>, d: seq<Call>, e: seq<Call>, f: seq<Call>)
    ensures t + a + b + c + d + e + f == t + (a + (b + (c + (d + (e + f)))))
  {
  }

  /** `genesis_migrate_all_users`: the records in order, each with its own calls. */
  method MigrateAllUsers(session: Session, rs: seq<LegacyRecovery>)
    requires forall r :: r in rs && r.commWallet ==> r.account.Some?
    modifies session
    ensures session.trace == old(session.trace) + Trace(rs)
  {
    for i := 0 to |rs|
      invariant session.trace + Trace(rs[i..]) == old(session.trace) + Trace(rs)
    {
      assert rs[i] in rs && rs[i..][0] == rs[i] && rs[i..][1..] == rs[i + 1..];
      Assoc(session.trace, RecordCalls(rs[i]), Trace(rs[i + 1..]));
      MigrateRecord(session, rs[i]);
    }
  }

  function CumulativeCalls(wallets: Wallets, ks: seq<Account>): seq<Call>
    requires forall k :: k in ks ==> k in wallets
  {
    if ks == [] then [] else [CumulativeCall(ks[0], wallets[ks[0]])] + CumulativeCalls(wallets, ks[1..])
  }

  method EmitCumulativeCalls(session: Session, wallets: Wallets)
    modifies session
    ensures session.trace == old(session.trace) + CumulativeCalls(wallets, SortedKeys(wallets.Keys))
  {
    hide CommWallet.SortedKeys, CommWallet.StrictlyAscending;
    var ks := SortedKeys(wallets.Keys);
    ghost var calls := CumulativeCalls(wallets, ks);
    for i := 0 to |ks|
      invariant session.trace + CumulativeCalls(wallets, ks[i..]) == old(session.trace) + calls
    {
      assert ks[i..][0] == ks[i] && ks[i..][1..] == ks[i + 1..];
      var w := wallets[ks[i]];
      Assoc(session.trace, [CumulativeCall(ks[i], w)], CumulativeCalls(wallets, ks[i + 1..]));
      session.ExecFunction("cumulative_deposits", "genesis_migrate_cumulative_deposits",
        [Signer(CORE_CODE_ADDRESS), Signer(ks[i]), U64(w.cumulativeValue), U64(w.cumulativeIndex), VectorAddress(w.depositors)]);
    }
  }

  /** `genesis_migrate_cumu_deposits`: one call for each rebuilt wallet, in the order of the accounts. */
  method MigrateCumuDeposits(session: Session, rs: seq<LegacyRecovery>)
    requires Named(rs)
    requires forall d :: d in DonorMap(rs) ==> Priced(DonorMap(rs)[d].receipts, WalletMap(rs).Keys)
    modifies session
    ensures var wallets := UpdatedWallets(WalletMap(rs), DonorMap(rs));
            session.trace == old(session.trace) + CumulativeCalls(wallets, SortedKeys(wallets.Keys))
  {
    hide Named, Priced, UpdatedWallets, DonorMap, WalletMap, SortedKeys, CumulativeCalls;
    var dr, cw := PrepareCwAndReceipts(rs);
    EmitCumulativeCalls(session, cw.list);
  }
}
