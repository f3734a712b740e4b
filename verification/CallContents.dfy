/** What the calls of a migration trace carry, position by position. */
module CallContents {
  import opened Base
  import opened Recovery
  import opened ParseJson
  import opened CommWallet
  import opened Migration
  import opened MigrationLaws

  /** A migrated user: account, key and balance are there, and the record is not dropped. */
  predicate IsMigrated(r: LegacyRecovery) {
    r.account.Some? && r.authKey.Some? && r.balance.Some? && r.role != Drop
  }

  /**
   * Every call a record makes, by module, function and arguments, and when it makes it: nothing else is called,
   * and nothing of this is left out.
   */
  lemma RecordCallsExactly(r: LegacyRecovery, c: Call)
    ensures c in RecordCalls(r) <==>
      r.account.Some? && var a := r.account.value;
        || (r.role == Drop && c == Call("account", "set_tombstone", [Signer(0), Address(a)]))
        || (IsMigrated(r)
            && c == Call("genesis_migration", "migrate_legacy_user",
                         [Signer(1), Signer(a), VectorU8(r.authKey.value), U64(r.balance.value)]))
        || (IsMigrated(r) && r.slowWallet.Some?
            && c == Call("slow_wallet", "set_slow_wallet_state",
                         [Signer(1), Signer(a), U64(r.slowWallet.value.unlocked), U64(r.slowWallet.value.transferred)]))
        || (r.role != Drop && r.commWallet
            && c == Call("community_wallet_init", "migrate_community_wallet_account", [Signer(1), Signer(a)]))
        || (IsMigrated(r) && r.ancestry.Some?
            && c == Call("ancestry", "fork_migrate", [Signer(1), Signer(a), VectorAddress(r.ancestry.value)]))
        || (IsMigrated(r) && r.receipts.Some? && var rs := r.receipts.value;
            c == Call("receipts", "genesis_migrate_user",
                      [Signer(0), Signer(a), VectorAddress(rs.destination), VectorU64(rs.cumulative),
                       VectorU64(rs.lastPaymentTimestamp), VectorU64(rs.lastPaymentValue)]))
        || (r.role != Drop && r.authKey.Some? && r.myPledge.Some? && exists p :: p in r.myPledge.value && IsEscrow(c, a, p))
  {
    hide EscrowCall;
    if r.account.Some? {
      EscrowCallIs(r, c);
    }
  }

  predicate IsEscrow(c: Call, a: Account, p: Pledge) {
    c == EscrowCall(a, p)
  }

  /** Spelled out. */
  lemma EscrowContents(a: Account, p: Pledge)
    ensures EscrowCall(a, p)
         == Call("genesis_migration", "fork_escrow_init",
                 [Signer(1), Signer(a), U64(p.pledge), U64(p.lifetimePledged), U64(p.lifetimeWithdrawn)])
  {
  }

  lemma EscrowCallIs(r: LegacyRecovery, c: Call)
    requires r.account.Some?
    ensures c in EscrowCalls(r) <==>
      r.authKey.Some? && r.myPledge.Some? && exists p :: p in r.myPledge.value && IsEscrow(c, r.account.value, p)
  {
    if c in EscrowCalls(r) {
      var i :| 0 <= i < |EscrowCalls(r)| && EscrowCalls(r)[i] == c;
      assert r.myPledge.value[i] in r.myPledge.value && IsEscrow(c, r.account.value, r.myPledge.value[i]);
    }
    if r.authKey.Some? && r.myPledge.Some? {
      if p :| p in r.myPledge.value && IsEscrow(c, r.account.value, p) {
        var i :| 0 <= i < |r.myPledge.value| && r.myPledge.value[i] == p;
        assert EscrowCalls(r)[i] == c;
      }
    }
  }

  /** How many calls a record makes, and that its pledges are passed on last, in their order. */
  lemma RecordCallsCount(r: LegacyRecovery, i: nat)
    requires r.account.Some? && r.role != Drop
    ensures var escrows := if r.authKey.Some? && r.myPledge.Some? then |r.myPledge.value| else 0;
      var others := if !IsMigrated(r) then 0
                    else 1 + (if r.slowWallet.Some? then 1 else 0) + (if r.ancestry.Some? then 1 else 0)
                           + (if r.receipts.Some? then 1 else 0);
      && |RecordCalls(r)| == others + (if r.commWallet then 1 else 0) + escrows
      && (i < escrows ==> IsEscrow(RecordCalls(r)[|RecordCalls(r)| - escrows + i], r.account.value, r.myPledge.value[i]))
  {
    PartsCount(r, i);
    hide UserCalls, SlowWalletCalls, CommunityWalletCalls, AncestryCalls, ReceiptsCalls, EscrowCalls, IsEscrow;
    var front := UserCalls(r) + (SlowWalletCalls(r) + (CommunityWalletCalls(r) + (AncestryCalls(r) + ReceiptsCalls(r))));
    assert RecordCalls(r) == front + EscrowCalls(r);
  }

  lemma PartsCount(r: LegacyRecovery, i: nat)
    requires r.account.Some? && r.role != Drop
    ensures |UserCalls(r)| == (if IsMigrated(r) then 1 else 0)
    ensures |SlowWalletCalls(r)| == (if IsMigrated(r) && r.slowWallet.Some? then 1 else 0)
    ensures |CommunityWalletCalls(r)| == (if r.commWallet then 1 else 0)
    ensures |AncestryCalls(r)| == (if IsMigrated(r) && r.ancestry.Some? then 1 else 0)
    ensures |ReceiptsCalls(r)| == (if IsMigrated(r) && r.receipts.Some? then 1 else 0)
    ensures |EscrowCalls(r)| == (if r.authKey.Some? && r.myPledge.Some? then |r.myPledge.value| else 0)
    ensures i < |EscrowCalls(r)| ==> IsEscrow(EscrowCalls(r)[i], r.account.value, r.myPledge.value[i])
  {
    hide UserCall, SlowWalletCall, CommunityWalletCall, AncestryCall, ReceiptsCall;
  }

  /** The position of a kind of call among the calls of one record. */
  function Rank(c: Call): nat {
    if c.functionName == "migrate_legacy_user" then 0
    else if c.functionName == "set_slow_wallet_state" then 1
    else if c.functionName == "migrate_community_wallet_account" then 2
    else if c.functionName == "fork_migrate" then 3
    else if c.functionName == "genesis_migrate_user" then 4
    else 5
  }

  predicate Ranked(t: seq<Call>, low: nat, high: nat) {
    && (forall i :: 0 <= i < |t| ==> low <= Rank(t[i]) <= high)
    && (forall i, j :: 0 <= i < j < |t| ==> Rank(t[i]) <= Rank(t[j]))
  }

  lemma RankedAppend(s: seq<Call>, t: seq<Call>, low: nat, middle: nat, high: nat)
    requires Ranked(s, low, middle) && Ranked(t, middle + 1, high) && low <= middle < high
    ensures Ranked(s + t, low, high)
  {
  }

  /** The calls of a record come in this order: user, slow wallet, community wallet, ancestry, receipts, escrow. */
  lemma RecordCallsRanked(r: LegacyRecovery)
    requires !IsTombstoned(r)
    ensures Ranked(RecordCalls(r), 0, 5)
  {
    var r5 := EscrowCalls(r);
    var r4 := ReceiptsCalls(r) + r5;
    var r3 := AncestryCalls(r) + r4;
    var r2 := CommunityWalletCalls(r) + r3;
    var r1 := SlowWalletCalls(r) + r2;
    RanksOfParts(r);
    hide Ranked, UserCalls, SlowWalletCalls, CommunityWalletCalls, AncestryCalls, ReceiptsCalls, EscrowCalls;
    RankedAppend(ReceiptsCalls(r), r5, 4, 4, 5);
    RankedAppend(AncestryCalls(r), r4, 3, 3, 5);
    RankedAppend(CommunityWalletCalls(r), r3, 2, 2, 5);
    RankedAppend(SlowWalletCalls(r), r2, 1, 1, 5);
    RankedAppend(UserCalls(r), r1, 0, 0, 5);
  }

  lemma RanksOfParts(r: LegacyRecovery)
    ensures Ranked(UserCalls(r), 0, 0) && Ranked(SlowWalletCalls(r), 1, 1) && Ranked(CommunityWalletCalls(r), 2, 2)
    ensures Ranked(AncestryCalls(r), 3, 3) && Ranked(ReceiptsCalls(r), 4, 4) && Ranked(EscrowCalls(r), 5, 5)
  {
    RanksOfCalls();
    hide Rank, UserCall, SlowWalletCall, CommunityWalletCall, AncestryCall, ReceiptsCall, EscrowCall;
  }

  lemma RanksOfCalls()
    ensures forall a, k, n :: Rank(UserCall(a, k, n)) == 0
    ensures forall a, s :: Rank(SlowWalletCall(a, s)) == 1
    ensures forall a :: Rank(CommunityWalletCall(a)) == 2
    ensures forall a, t :: Rank(AncestryCall(a, t)) == 3
    ensures forall a, r :: Rank(ReceiptsCall(a, r)) == 4
    ensures forall a, p :: Rank(EscrowCall(a, p)) == 5
  {
  }

  /** The records' calls follow each other in the order of the records. */
  lemma {:induction false} TraceAppend(a: seq<LegacyRecovery>, b: seq<LegacyRecovery>)
    ensures Trace(a + b) == Trace(a) + Trace(b)
  {
    hide RecordCalls;
    if a == [] {
      assert a + b == b && [] + Trace(b) == Trace(b);
    } else {
      TraceAppend(a[1..], b);
      assert (a + b)[0] == a[0] && (a + b)[1..] == a[1..] + b;
      Assoc(RecordCalls(a[0]), Trace(a[1..]), Trace(b));
    }
  }

  // Amounts over the trace ----------------------------------------------------------------------------------

  function AmountAt(c: Call, name: string, k: nat): int {
    if c.functionName == name && k < |c.args| && c.args[k].U64? then c.args[k].n else 0
  }

  /** The amounts at one position of the calls of one function. */
  function Amounts(t: seq<Call>, name: string, k: nat): int {
    if t == [] then 0 else AmountAt(t[0], name, k) + Amounts(t[1..], name, k)
  }

  lemma {:induction false} AmountsAppend(s: seq<Call>, t: seq<Call>, name: string, k: nat)
    ensures Amounts(s + t, name, k) == Amounts(s, name, k) + Amounts(t, name, k)
  {
    if s == [] {
      assert s + t == t;
    } else {
      assert (s + t)[1..] == s[1..] + t;
      AmountsAppend(s[1..], t, name, k);
    }
  }

  lemma {:induction false} NoAmounts(t: seq<Call>, name: string, k: nat)
    requires forall i :: 0 <= i < |t| ==> t[i].functionName != name
    ensures Amounts(t, name, k) == 0
  {
    if t != [] { NoAmounts(t[1..], name, k); }
  }

  function Unlocked(r: LegacyRecovery): int {
    if IsMigrated(r) && r.slowWallet.Some? then r.slowWallet.value.unlocked else 0
  }

  function Transferred(r: LegacyRecovery): int {
    if IsMigrated(r) && r.slowWallet.Some? then r.slowWallet.value.transferred else 0
  }

  lemma SlowWalletAmounts(r: LegacyRecovery)
    ensures Amounts(RecordCalls(r), "set_slow_wallet_state", 2) == Unlocked(r)
    ensures Amounts(RecordCalls(r), "set_slow_wallet_state", 3) == Transferred(r)
  {
    if !IsTombstoned(r) {
      var others := CommunityWalletCalls(r) + (AncestryCalls(r) + (ReceiptsCalls(r) + EscrowCalls(r)));
      NotSlow(r);
      SlowCallAmounts(r);
      hide UserCalls, SlowWalletCalls, CommunityWalletCalls, AncestryCalls, ReceiptsCalls, EscrowCalls, Amounts;
      forall k: nat
        ensures Amounts(RecordCalls(r), "set_slow_wallet_state", k) == Amounts(SlowWalletCalls(r), "set_slow_wallet_state", k)
      {
        NoAmounts(UserCalls(r), "set_slow_wallet_state", k);
        NoAmounts(others, "set_slow_wallet_state", k);
        AmountsAppend(SlowWalletCalls(r), others, "set_slow_wallet_state", k);
        AmountsAppend(UserCalls(r), SlowWalletCalls(r) + others, "set_slow_wallet_state", k);
      }
    } else {
      NoAmounts(RecordCalls(r), "set_slow_wallet_state", 2);
      NoAmounts(RecordCalls(r), "set_slow_wallet_state", 3);
    }
  }

  lemma NotSlow(r: LegacyRecovery)
    ensures forall i :: 0 <= i < |UserCalls(r)| ==> UserCalls(r)[i].functionName != "set_slow_wallet_state"
    ensures var others := CommunityWalletCalls(r) + (AncestryCalls(r) + (ReceiptsCalls(r) + EscrowCalls(r)));
      forall i :: 0 <= i < |others| ==> others[i].functionName != "set_slow_wallet_state"
  {
    assert forall c :: c in CommunityWalletCalls(r) ==> c.functionName != "set_slow_wallet_state";
    assert forall c :: c in AncestryCalls(r) ==> c.functionName != "set_slow_wallet_state";
    assert forall c :: c in ReceiptsCalls(r) ==> c.functionName != "set_slow_wallet_state";
    assert forall c :: c in EscrowCalls(r) ==> c.functionName != "set_slow_wallet_state";
    var others := CommunityWalletCalls(r) + (AncestryCalls(r) + (ReceiptsCalls(r) + EscrowCalls(r)));
    forall i | 0 <= i < |others|
      ensures others[i].functionName != "set_slow_wallet_state"
    {
      assert others[i] in others;
    }
  }

  lemma SlowCallAmounts(r: LegacyRecovery)
    requires !IsTombstoned(r)
    ensures Amounts(SlowWalletCalls(r), "set_slow_wallet_state", 2) == Unlocked(r)
    ensures Amounts(SlowWalletCalls(r), "set_slow_wallet_state", 3) == Transferred(r)
  {
    if HasUser(r) && r.slowWallet.Some? {
      assert SlowWalletCalls(r)[1..] == [];
    }
  }

  /** Conservation: what the trace unlocks and transfers is what the migrated slow wallets have unlocked and transferred. */
  lemma {:induction false} SlowWalletsConserved(rs: seq<LegacyRecovery>)
    ensures Amounts(Trace(rs), "set_slow_wallet_state", 2) == Sum(rs, Unlocked)
    ensures Amounts(Trace(rs), "set_slow_wallet_state", 3) == Sum(rs, Transferred)
  {
    hide RecordCalls, Unlocked, Transferred;
    if rs == [] {
      NoAmounts([], "set_slow_wallet_state", 2);
      NoAmounts([], "set_slow_wallet_state", 3);
    } else {
      SlowWalletAmounts(rs[0]);
      SlowWalletsConserved(rs[1..]);
      AmountsAppend(RecordCalls(rs[0]), Trace(rs[1..]), "set_slow_wallet_state", 2);
      AmountsAppend(RecordCalls(rs[0]), Trace(rs[1..]), "set_slow_wallet_state", 3);
    }
  }

  /** The calls for the rebuilt wallets: one for each account listed, in that order, with the wallet's fields. */
  lemma {:induction false} CumulativeCallsExactly(wallets: Wallets, ks: seq<Account>, i: nat)
    requires i < |ks| && forall k :: k in ks ==> k in wallets
    ensures var (calls, w) := (CumulativeCalls(wallets, ks), wallets[ks[i]]);
      && |calls| == |ks|
      && calls[i] == Call("cumulative_deposits", "genesis_migrate_cumulative_deposits",
                          [Signer(1), Signer(ks[i]), U64(w.cumulativeValue), U64(w.cumulativeIndex), VectorAddress(w.depositors)])
  {
    CumulativeCallsLength(wallets, ks);
    if i > 0 {
      CumulativeCallsExactly(wallets, ks[1..], i - 1);
    }
  }

  lemma {:induction false} CumulativeCallsLength(wallets: Wallets, ks: seq<Account>)
    requires forall k :: k in ks ==> k in wallets
    ensures |CumulativeCalls(wallets, ks)| == |ks|
  {
    hide CumulativeCall;
    if ks != [] { CumulativeCallsLength(wallets, ks[1..]); }
  }
}
