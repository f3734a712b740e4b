/** Where the deposits of the records go: into the wallets, and from there into the migration's calls. */
module DepositLaws {
  import opened Base
  import opened Recovery
  import opened CommWallet
  import opened CommWalletLaws
  import opened KeySums
  import opened Migration

  function ValueAt(list: Wallets, k: Account): int {
    if k in list then list[k].cumulativeValue else 0
  }

  function ValueIn(list: Wallets): Account -> int {
    (k: Account) => ValueAt(list, k)
  }

  /** The cumulative values of the wallets together. */
  function TotalValue(list: Wallets): int {
    SumOver(ValueIn(list), list.Keys)
  }

  lemma TotalInsert(list: Wallets, k: Account, w: WalletState)
    ensures TotalValue(list[k := w]) == TotalValue(list) - ValueAt(list, k) + w.cumulativeValue
  {
    assert list[k := w].Keys == list.Keys + {k};
    SumOverUpdate(ValueIn(list), ValueIn(list[k := w]), list.Keys, k);
  }

  /** The value of the deposits that a later record of the same account replaces. */
  function Replaced(rs: seq<LegacyRecovery>): int {
    if rs == [] then 0
    else
      var (r, front) := (rs[|rs| - 1], rs[..|rs| - 1]);
      Replaced(front)
      + (if r.cumulativeDeposits.Some? && r.account.Some? then ValueAt(WalletMap(front), r.account.value) else 0)
  }

  /** The deposit total is the value of the rebuilt wallets and of the entries they replaced. */
  lemma {:induction false} DepositsConserved(rs: seq<LegacyRecovery>)
    requires Named(rs)
    ensures Sum(rs, DepositedValue) == TotalValue(WalletMap(rs)) + Replaced(rs)
    decreases |rs|
  {
    hide TotalValue, ValueAt;
    if rs == [] {
      NoValue();
    } else {
      var (r, front) := (rs[|rs| - 1], rs[..|rs| - 1]);
      DepositsConserved(front);
      SumPrefix(rs, |rs| - 1, DepositedValue);
      assert rs[..|rs|] == rs && r in rs;
      if r.cumulativeDeposits.Some? {
        TotalInsert(WalletMap(front), r.account.value, WalletEntry(r));
      }
    }
  }

  lemma NoValue()
    ensures TotalValue(map[]) == 0
  {
  }

  /** Records of distinct accounts replace nothing. */
  lemma {:induction false} NothingReplaced(rs: seq<LegacyRecovery>)
    requires DistinctAccounts(rs)
    ensures Replaced(rs) == 0
    decreases |rs|
  {
    if rs != [] {
      var (r, front) := (rs[|rs| - 1], rs[..|rs| - 1]);
      NothingReplaced(front);
      if r.cumulativeDeposits.Some? && r.account.Some? {
        WalletMapMeaning(front, r.account.value);
        forall e | e in front
          ensures !HasDeposits(e, r.account.value)
        {
          var i :| 0 <= i < |front| && front[i] == e;
          assert rs[i] == e;
        }
      }
    }
  }

  /** What calls hand to the chain as cumulative values. */
  function CallsValue(calls: seq<Call>): int {
    if calls == [] then 0
    else
      var args := calls[0].args;
      (if |args| > 2 && args[2].U64? then args[2].n else 0) + CallsValue(calls[1..])
  }

  lemma CallCarriesValue(k: Account, w: WalletState, calls: seq<Call>)
    ensures CallsValue([CumulativeCall(k, w)] + calls) == w.cumulativeValue + CallsValue(calls)
  {
    assert ([CumulativeCall(k, w)] + calls)[1..] == calls;
  }

  lemma FirstCall(wallets: Wallets, k: Account, ks: seq<Account>)
    requires k in wallets && forall j :: j in ks ==> j in wallets
    ensures CumulativeCalls(wallets, [k] + ks) == [CumulativeCall(k, wallets[k])] + CumulativeCalls(wallets, ks)
  {
    hide CumulativeCall;
    assert ([k] + ks)[1..] == ks;
  }

  lemma {:induction false} CallsCarryValue(wallets: Wallets, ks: seq<Account>)
    requires forall k :: k in ks ==> k in wallets
    ensures CallsValue(CumulativeCalls(wallets, ks)) == SumSeq(ValueIn(wallets), ks)
  {
    hide CumulativeCall, CumulativeCalls, CallsValue;
    if ks == [] {
      NoCalls(wallets);
    } else {
      CallsCarryValue(wallets, ks[1..]);
      FirstCall(wallets, ks[0], ks[1..]);
      CallCarriesValue(ks[0], wallets[ks[0]], CumulativeCalls(wallets, ks[1..]));
      assert [ks[0]] + ks[1..] == ks;
    }
  }

  lemma NoCalls(wallets: Wallets)
    ensures CallsValue(CumulativeCalls(wallets, [])) == 0
  {
  }

  /** Updating the wallets with the donors keeps their value. */
  lemma UpdateKeepsValue(list: Wallets, donors: Donors)
    ensures TotalValue(UpdatedWallets(list, donors)) == TotalValue(list)
  {
    hide UpdatedWallets;
    AuditConserved(list, donors);
    SumOverSame(ValueIn(UpdatedWallets(list, donors)), ValueIn(list), list.Keys);
  }

  /**
   * The cumulative values the migration passes on are the deposits of the records, less those that a later
   * record of the same account replaced, hence all of them for records of distinct accounts.
   */
  lemma DepositsMigrated(rs: seq<LegacyRecovery>)
    requires Named(rs)
    ensures var wallets := UpdatedWallets(WalletMap(rs), DonorMap(rs));
      var passedOn := CallsValue(CumulativeCalls(wallets, SortedKeys(wallets.Keys)));
      && passedOn + Replaced(rs) == Sum(rs, DepositedValue)
      && (DistinctAccounts(rs) ==> passedOn == Sum(rs, DepositedValue))
  {
    hide UpdatedWallets, WalletMap, DonorMap, Replaced, CallsValue, CumulativeCalls;
    var wallets := UpdatedWallets(WalletMap(rs), DonorMap(rs));
    CallsCarryValue(wallets, SortedKeys(wallets.Keys));
    SumSorted(ValueIn(wallets), wallets.Keys);
    UpdateKeepsValue(WalletMap(rs), DonorMap(rs));
    DepositsConserved(rs);
    if DistinctAccounts(rs) {
      NothingReplaced(rs);
    }
  }
}
