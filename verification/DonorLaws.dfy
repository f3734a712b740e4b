/** From the receipts of the records to the wallets: who deposits where, and how much. */
module DonorLaws {
  import opened Base
  import opened Recovery
  import opened CommWallet
  import opened CommWalletLaws
  import opened KeySums

  /** The values at the entries that name an account; entries without a value count nothing. */
  function PaidAt(destination: seq<Account>, cumulative: seq<U64>, w: Account): int {
    if destination == [] then 0
    else
      (if destination[0] == w && cumulative != [] then cumulative[0] else 0)
      + PaidAt(destination[1..], if cumulative == [] then [] else cumulative[1..], w)
  }

  lemma {:induction false} PaidAtSnoc(destination: seq<Account>, cumulative: seq<U64>, w: Account)
    requires destination != []
    ensures var n := |destination| - 1;
            PaidAt(destination, cumulative, w) == PaidAt(destination[..n], cumulative, w)
              + (if destination[n] == w && n < |cumulative| then cumulative[n] else 0)
  {
    var n := |destination| - 1;
    if n > 0 {
      var rest := if cumulative == [] then [] else cumulative[1..];
      PaidAtSnoc(destination[1..], rest, w);
      assert destination[..n][1..] == destination[1..][..n - 1];
    } else {
      assert destination[1..] == [] && destination[..0] == [];
    }
  }

  lemma {:induction false} PaidExactly(r: Receipts, w: Account, n: nat)
    requires n <= |r.destination|
    ensures Paid(r, w, n) == PaidAt(r.destination[..n], r.cumulative, w)
  {
    if n > 0 {
      PaidExactly(r, w, n - 1);
      PaidAtSnoc(r.destination[..n], r.cumulative, w);
      assert r.destination[..n][..n - 1] == r.destination[..n - 1];
    }
  }

  /** What a record's receipts paid to an account. */
  function PaidByRecord(r: LegacyRecovery, w: Account): int {
    if r.receipts.Some? then PaidAt(r.receipts.value.destination, r.receipts.value.cumulative, w) else 0
  }

  function PaidTo(w: Account): LegacyRecovery -> int {
    r => PaidByRecord(r, w)
  }

  function PaidByDonor(donors: Donors, k: Account, w: Account): int {
    if k in donors then Paid(donors[k].receipts, w, Entries(donors[k].receipts)) else 0
  }

  function PaidBy(donors: Donors, w: Account): Account -> int {
    (k: Account) => PaidByDonor(donors, k, w)
  }

  lemma {:induction false} PaidByAllIsSum(donors: Donors, ks: seq<Account>, n: nat, w: Account)
    requires n <= |ks| && forall k :: k in ks ==> k in donors
    ensures PaidByAll(donors, ks, n, w) == SumSeq(PaidBy(donors, w), ks[..n])
  {
    hide Paid;
    if n > 0 {
      PaidByAllIsSum(donors, ks, n - 1, w);
      SumSnoc(PaidBy(donors, w), ks[..n - 1], ks[n - 1]);
      assert ks[..n] == ks[..n - 1] + [ks[n - 1]];
    }
  }

  lemma EntryPays(r: LegacyRecovery, w: Account)
    requires r.receipts.Some?
    ensures Paid(ReceiptEntry(r).receipts, w, Entries(ReceiptEntry(r).receipts)) == PaidByRecord(r, w)
  {
    hide Paid, PaidAt;
    var receipts := ReceiptEntry(r).receipts;
    PaidExactly(receipts, w, |receipts.destination|);
    assert receipts.destination[..|receipts.destination|] == receipts.destination;
  }

  /** Summed over the donors, what was paid to an account is what the records say was paid to it. */
  lemma {:induction false} DonorsPayForRecords(rs: seq<LegacyRecovery>, w: Account)
    requires Named(rs) && DistinctAccounts(rs)
    ensures SumOver(PaidBy(DonorMap(rs), w), DonorMap(rs).Keys) == Sum(rs, PaidTo(w))
    decreases |rs|
  {
    hide Paid, PaidAt, ReceiptEntry;
    if rs != [] {
      var (r, front) := (rs[|rs| - 1], rs[..|rs| - 1]);
      DonorsPayForRecords(front, w);
      SumPrefix(rs, |rs| - 1, PaidTo(w));
      assert rs[..|rs|] == rs && r in rs;
      if r.receipts.Some? {
        var k := r.account.value;
        NewDonor(rs);
        EntryPays(r, w);
        assert DonorMap(rs).Keys == DonorMap(front).Keys + {k};
        SumOverUpdate(PaidBy(DonorMap(front), w), PaidBy(DonorMap(rs), w), DonorMap(front).Keys, k);
      }
    }
  }

  /** The account of the last record is not yet a donor. */
  lemma NewDonor(rs: seq<LegacyRecovery>)
    requires rs != [] && DistinctAccounts(rs) && rs[|rs| - 1].account.Some?
    ensures rs[|rs| - 1].account.value !in DonorMap(rs[..|rs| - 1])
  {
    var (k, front) := (rs[|rs| - 1].account.value, rs[..|rs| - 1]);
    DonorMapMeaning(front, k);
    forall e | e in front
      ensures !HasReceipts(e, k)
    {
      var i :| 0 <= i < |front| && front[i] == e;
      assert rs[i] == e;
    }
  }

  /** A record of these says that this account deposited into that one. */
  predicate SaysDeposit(r: LegacyRecovery, d: Account, w: Account) {
    r.account == Some(d) && r.receipts.Some? && w in r.receipts.value.destination
  }

  /**
   * The wallets in terms of the records, for distinct accounts. A wallet has the value and the index its own
   * record has; its depositors are exactly the accounts whose records have receipts that name it; and its
   * audit total is what all records say was paid to it.
   */
  lemma WalletFromRecords(rs: seq<LegacyRecovery>, r: LegacyRecovery, w: Account, d: Account)
    requires Named(rs) && DistinctAccounts(rs)
    requires r in rs && r.account == Some(w) && r.cumulativeDeposits.Some?
    ensures var wallets := UpdatedWallets(WalletMap(rs), DonorMap(rs));
            && w in wallets
            && wallets[w].cumulativeValue == r.cumulativeDeposits.value.value
            && wallets[w].cumulativeIndex == r.cumulativeDeposits.value.index
            && (d in wallets[w].depositors <==> exists e :: e in rs && SaysDeposit(e, d, w))
            && wallets[w].auditDepositsWithReceipts == Sum(rs, PaidTo(w))
  {
    hide UpdatedWallets, Paid, PaidAt, WalletMap, DonorMap, PaidTo;
    var (list, donors) := (WalletMap(rs), DonorMap(rs));
    WalletMapMeaning(rs, w);
    assert HasDeposits(r, w);
    WalletsStartEmpty(rs, w);
    AuditConserved(list, donors);
    AuditOfWallet(list, donors, w);
    AuditFromRecords(rs, w);
    DepositorsExact(list, donors, w);
    DonorSaysDeposit(rs, d, w);
  }

  lemma AuditFromRecords(rs: seq<LegacyRecovery>, w: Account)
    requires Named(rs) && DistinctAccounts(rs)
    ensures var donors := DonorMap(rs);
            PaidByAll(donors, SortedKeys(donors.Keys), |SortedKeys(donors.Keys)|, w) == Sum(rs, PaidTo(w))
  {
    hide Paid, PaidAt, DonorMap, PaidByAll;
    var donors := DonorMap(rs);
    var ks := SortedKeys(donors.Keys);
    PaidByAllIsSum(donors, ks, |ks|, w);
    assert ks[..|ks|] == ks;
    SumSorted(PaidBy(donors, w), donors.Keys);
    DonorsPayForRecords(rs, w);
  }

  lemma AuditOfWallet(list: Wallets, donors: Donors, w: Account)
    requires w in list && list[w].auditDepositsWithReceipts == 0
    ensures var ks := SortedKeys(donors.Keys);
            w in UpdatedWallets(list, donors)
            && UpdatedWallets(list, donors)[w].auditDepositsWithReceipts == PaidByAll(donors, ks, |ks|, w)
  {
    hide PaidByAll, Paid, Names;
    var ks := SortedKeys(donors.Keys);
    AuditAfter(list, donors, ks, |ks|, w);
  }

  lemma DonorSaysDeposit(rs: seq<LegacyRecovery>, d: Account, w: Account)
    requires DistinctAccounts(rs)
    ensures (d in DonorMap(rs) && w in DonorMap(rs)[d].receipts.destination) <==> exists e :: e in rs && SaysDeposit(e, d, w)
  {
    hide DonorMap;
    DonorMapMeaning(rs, d);
    if d in DonorMap(rs) && w in DonorMap(rs)[d].receipts.destination {
      var e :| e in rs && HasReceipts(e, d);
      assert SaysDeposit(e, d, w);
    }
    if e :| e in rs && SaysDeposit(e, d, w) {
      assert HasReceipts(e, d);
    }
  }

  /** A donor keeps the receipts of its record, beside the destinations that are no wallet. */
  lemma DonorFromRecord(rs: seq<LegacyRecovery>, r: LegacyRecovery, d: Account)
    requires DistinctAccounts(rs) && r in rs && r.account == Some(d) && r.receipts.Some?
    ensures var donors := UpdatedDonors(WalletMap(rs).Keys, DonorMap(rs));
            && d in donors && donors[d].receipts == r.receipts.value
            && donors[d].auditNotFound == NotWallets(r.receipts.value.destination, WalletMap(rs).Keys)
  {
    hide DonorMap, WalletMap;
    DonorMapMeaning(rs, d);
    assert HasReceipts(r, d);
    var destination := r.receipts.value.destination;
    UnmatchedInOrder(destination, WalletMap(rs).Keys, |destination|);
    assert destination[..|destination|] == destination;
  }

  /** The destinations that are no wallet, from the first to the last. */
  function NotWallets(destination: seq<Account>, wallets: set<Account>): seq<Account> {
    if destination == [] then []
    else (if destination[0] in wallets then [] else [destination[0]]) + NotWallets(destination[1..], wallets)
  }

  lemma {:induction false} NotWalletsAppend(a: seq<Account>, b: seq<Account>, wallets: set<Account>)
    ensures NotWallets(a + b, wallets) == NotWallets(a, wallets) + NotWallets(b, wallets)
  {
    if a == [] {
      assert a + b == b;
    } else {
      NotWalletsAppend(a[1..], b, wallets);
      assert (a + b)[1..] == a[1..] + b;
      Assoc(if a[0] in wallets then [] else [a[0]], NotWallets(a[1..], wallets), NotWallets(b, wallets));
    }
  }

  lemma {:induction false} UnmatchedInOrder(destination: seq<Account>, wallets: set<Account>, n: nat)
    requires n <= |destination|
    ensures Unmatched(destination, wallets, n) == NotWallets(destination[..n], wallets)
  {
    if n > 0 {
      UnmatchedInOrder(destination, wallets, n - 1);
      NotWalletsAppend(destination[..n - 1], [destination[n - 1]], wallets);
      assert destination[..n] == destination[..n - 1] + [destination[n - 1]];
      assert [destination[n - 1]][1..] == [];
    }
  }

  /** Unmatched destinations are noted in the order in which they first come up. */
  lemma {:induction false} NotedInOrder(noted: seq<Account>, xs: seq<Account>, n: nat)
    requires n <= |xs|
    ensures AddNew(noted, xs[..n]) <= AddNew(noted, xs)
    decreases |xs| - n
  {
    if n < |xs| {
      NotedInOrder(noted, xs, n + 1);
      AddNewStep(noted, xs[..n], xs[n]);
      assert xs[..n + 1] == xs[..n] + [xs[n]];
    } else {
      assert xs[..n] == xs;
    }
  }
}
