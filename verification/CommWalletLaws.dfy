/** What the rebuilt community wallets and donor receipts mean. */
module CommWalletLaws {
  import opened Base
  import opened Recovery
  import opened ParseJson
  import opened CommWallet

  function Entries(r: Receipts): nat {
    |r.destination|
  }

  lemma {:induction false} NamesMeaning(destination: seq<Account>, w: Account, n: nat)
    requires n <= |destination|
    ensures Names(destination, w, n) <==> w in destination[..n]
  {
    if n > 0 {
      NamesMeaning(destination, w, n - 1);
      assert destination[..n] == destination[..n - 1] + [destination[n - 1]];
    }
  }

  // Depositors ---------------------------------------------------------------------------------------

  predicate NamesWallet(donors: Donors, d: Account, w: Account) {
    d in donors && Names(donors[d].receipts.destination, w, Entries(donors[d].receipts))
  }

  /** Of the first `n` donors listed those that name the wallet. */
  function NamingDonors(donors: Donors, ks: seq<Account>, n: nat, w: Account): seq<Account>
    requires n <= |ks|
  {
    if n == 0 then []
    else
      var before := NamingDonors(donors, ks, n - 1, w);
      if NamesWallet(donors, ks[n - 1], w) then before + [ks[n - 1]] else before
  }

  lemma {:induction false} NamingDonorsMember(donors: Donors, ks: seq<Account>, n: nat, w: Account, d: Account)
    requires n <= |ks|
    ensures d in NamingDonors(donors, ks, n, w) <==> NamesWallet(donors, d, w) && exists j :: 0 <= j < n && ks[j] == d
  {
    hide NamesWallet;
    if n > 0 {
      NamingDonorsMember(donors, ks, n - 1, w, d);
    }
  }

  lemma {:induction false} NamingDonorsAscending(donors: Donors, ks: seq<Account>, n: nat, w: Account)
    requires n <= |ks| && StrictlyAscending(ks)
    ensures StrictlyAscending(NamingDonors(donors, ks, n, w))
    ensures forall d, j :: d in NamingDonors(donors, ks, n, w) && n <= j < |ks| ==> d < ks[j]
  {
    hide NamesWallet;
    if n > 0 {
      NamingDonorsAscending(donors, ks, n - 1, w);
      var before := NamingDonors(donors, ks, n - 1, w);
      assert forall i :: 0 <= i < |before| ==> before[i] in before;
    }
  }

  lemma {:induction false} DepositorsAfter(list: Wallets, donors: Donors, ks: seq<Account>, n: nat, w: Account)
    requires w in list && list[w].depositors == []
    requires n <= |ks| && StrictlyAscending(ks) && forall k :: k in ks ==> k in donors
    ensures w in CreditAll(list, donors, ks, n)
    ensures CreditAll(list, donors, ks, n)[w].depositors == NamingDonors(donors, ks, n, w)
    decreases n
  {
    hide CommWallet.StrictlyAscending, CommWallet.Names, CommWallet.Paid, CommWallet.Credited;
    if n > 0 {
      DepositorsAfter(list, donors, ks, n - 1, w);
      OneMoreDonor(list, donors, ks, n, w);
    }
  }

  /** One donor more becomes a depositor if it names the wallet; it is not one yet. */
  lemma OneMoreDonor(list: Wallets, donors: Donors, ks: seq<Account>, n: nat, w: Account)
    requires 0 < n <= |ks| && StrictlyAscending(ks) && forall k :: k in ks ==> k in donors
    requires w in CreditAll(list, donors, ks, n - 1)
    requires CreditAll(list, donors, ks, n - 1)[w].depositors == NamingDonors(donors, ks, n - 1, w)
    ensures w in CreditAll(list, donors, ks, n)
    ensures CreditAll(list, donors, ks, n)[w].depositors == NamingDonors(donors, ks, n, w)
  {
    hide CommWallet.StrictlyAscending, CommWallet.Names, CommWallet.Paid, CommWallet.CreditAll;
    NamingDonorsAscending(donors, ks, n - 1, w);
    assert ks[n - 1] !in NamingDonors(donors, ks, n - 1, w);
    assert ks[n - 1] in ks;
    CreditAllAt(list, donors, ks, n, w);
  }

  lemma CreditAllAt(list: Wallets, donors: Donors, ks: seq<Account>, n: nat, w: Account)
    requires 0 < n <= |ks| && forall k :: k in ks ==> k in donors
    requires w in CreditAll(list, donors, ks, n - 1)
    ensures w in CreditAll(list, donors, ks, n)
    ensures var (k, r) := (ks[n - 1], donors[ks[n - 1]].receipts);
            CreditAll(list, donors, ks, n)[w] == CreditWallet(CreditAll(list, donors, ks, n - 1)[w], w, k, r, Entries(r))
  {
  }

  /**
   * The depositors of a rebuilt wallet are strictly ascending, and they are exactly the donors whose
   * receipts name the wallet.
   */
  lemma DepositorsExact(list: Wallets, donors: Donors, w: Account)
    requires w in list && list[w].depositors == []
    ensures w in UpdatedWallets(list, donors)
    ensures var ds := UpdatedWallets(list, donors)[w].depositors;
            && StrictlyAscending(ds)
            && forall d :: d in ds <==> d in donors && w in donors[d].receipts.destination
  {
    hide CommWallet.CreditAll, NamingDonors, NamesWallet;
    var ks := SortedKeys(donors.Keys);
    DepositorsAfter(list, donors, ks, |ks|, w);
    NamingDonorsAscending(donors, ks, |ks|, w);
    forall d
      ensures d in NamingDonors(donors, ks, |ks|, w) <==> d in donors && w in donors[d].receipts.destination
    {
      NamingDonorsMember(donors, ks, |ks|, w, d);
      NamesWalletMeaning(donors, d, w);
      assert d in donors ==> d in ks;
    }
  }

  lemma NamesWalletMeaning(donors: Donors, d: Account, w: Account)
    ensures NamesWallet(donors, d, w) <==> d in donors && w in donors[d].receipts.destination
  {
    if d in donors {
      var destination := donors[d].receipts.destination;
      NamesMeaning(destination, w, |destination|);
      assert destination[..|destination|] == destination;
    }
  }

  // Audit totals ---------------------------------------------------------------------------------------

  /** What the first `n` donors listed paid to a wallet. */
  function PaidByAll(donors: Donors, ks: seq<Account>, n: nat, w: Account): nat
    requires n <= |ks| && forall k :: k in ks ==> k in donors
  {
    if n == 0 then 0
    else PaidByAll(donors, ks, n - 1, w) + Paid(donors[ks[n - 1]].receipts, w, Entries(donors[ks[n - 1]].receipts))
  }

  lemma {:induction false} AuditAfter(list: Wallets, donors: Donors, ks: seq<Account>, n: nat, w: Account)
    requires w in list && n <= |ks| && forall k :: k in ks ==> k in donors
    ensures w in CreditAll(list, donors, ks, n)
    ensures var s := CreditAll(list, donors, ks, n)[w];
            && s.auditDepositsWithReceipts == list[w].auditDepositsWithReceipts + PaidByAll(donors, ks, n, w)
            && s.cumulativeValue == list[w].cumulativeValue && s.cumulativeIndex == list[w].cumulativeIndex
    decreases n
  {
    hide CommWallet.Names, CommWallet.Paid, CommWallet.Credited;
    if n > 0 {
      AuditAfter(list, donors, ks, n - 1, w);
      CreditAllAt(list, donors, ks, n, w);
    }
  }

  /** The audit total over the listed wallets. */
  function TotalAudit(list: Wallets, ws: seq<Account>): nat
    requires forall w :: w in ws ==> w in list
  {
    if ws == [] then 0 else list[ws[0]].auditDepositsWithReceipts + TotalAudit(list, ws[1..])
  }

  /** The cumulative values of the first `n` entries that name a wallet. */
  function CreditedValue(r: Receipts, wallets: set<Account>, n: nat): nat
    requires n <= |r.destination|
  {
    if n == 0 then 0
    else CreditedValue(r, wallets, n - 1)
         + (if r.destination[n - 1] in wallets && n <= |r.cumulative| then r.cumulative[n - 1] else 0)
  }

  function AllCreditedValue(donors: Donors, wallets: set<Account>, ks: seq<Account>, n: nat): nat
    requires n <= |ks| && forall k :: k in ks ==> k in donors
  {
    if n == 0 then 0
    else AllCreditedValue(donors, wallets, ks, n - 1)
         + CreditedValue(donors[ks[n - 1]].receipts, wallets, Entries(donors[ks[n - 1]].receipts))
  }

  /** Summed over distinct wallets, what the entries paid is the value of the entries that name one of them. */
  function PaidTotal(r: Receipts, ws: seq<Account>, n: nat): nat
    requires n <= |r.destination|
  {
    if ws == [] then 0 else Paid(r, ws[0], n) + PaidTotal(r, ws[1..], n)
  }

  lemma {:induction false} PaidTotalStep(r: Receipts, ws: seq<Account>, n: nat)
    requires 0 < n <= |r.destination| && StrictlyAscending(ws)
    ensures PaidTotal(r, ws, n) == PaidTotal(r, ws, n - 1)
              + (if r.destination[n - 1] in ws && n <= |r.cumulative| then r.cumulative[n - 1] else 0)
    decreases |ws|
  {
    if ws != [] {
      PaidTotalStep(r, ws[1..], n);
      assert r.destination[n - 1] in ws <==> r.destination[n - 1] == ws[0] || r.destination[n - 1] in ws[1..];
      assert r.destination[n - 1] in ws[1..] ==> r.destination[n - 1] > ws[0];
    }
  }

  lemma {:induction false} PaidTotalIsCredited(r: Receipts, ws: seq<Account>, wallets: set<Account>, n: nat)
    requires n <= |r.destination| && StrictlyAscending(ws) && forall w :: w in ws <==> w in wallets
    ensures PaidTotal(r, ws, n) == CreditedValue(r, wallets, n)
    decreases n
  {
    if n == 0 {
      PaidTotalZero(r, ws);
    } else {
      PaidTotalIsCredited(r, ws, wallets, n - 1);
      PaidTotalStep(r, ws, n);
    }
  }

  lemma {:induction false} PaidTotalZero(r: Receipts, ws: seq<Account>)
    ensures PaidTotal(r, ws, 0) == 0
  {
    if ws != [] { PaidTotalZero(r, ws[1..]); }
  }

  lemma {:induction false} TotalAuditCredited(list: Wallets, donor: Account, r: Receipts, ws: seq<Account>)
    requires forall w :: w in ws ==> w in list
    ensures TotalAudit(Credited(list, donor, r, Entries(r)), ws) == TotalAudit(list, ws) + PaidTotal(r, ws, Entries(r))
  {
    if ws != [] {
      TotalAuditCredited(list, donor, r, ws[1..]);
    }
  }

  lemma {:induction false} TotalAuditAfter(list: Wallets, donors: Donors, ks: seq<Account>, n: nat, ws: seq<Account>)
    requires n <= |ks| && (forall k :: k in ks ==> k in donors)
    requires StrictlyAscending(ws) && (forall w :: w in ws <==> w in list)
    ensures CreditAll(list, donors, ks, n).Keys == list.Keys
    ensures TotalAudit(CreditAll(list, donors, ks, n), ws)
         == TotalAudit(list, ws) + AllCreditedValue(donors, list.Keys, ks, n)
    decreases n
  {
    hide Credited, StrictlyAscending, CreditedValue;
    CreditAllKeys(list, donors, ks, n);
    if n > 0 {
      CreditAllKeys(list, donors, ks, n - 1);
      TotalAuditAfter(list, donors, ks, n - 1, ws);
      var r := donors[ks[n - 1]].receipts;
      TotalAuditCredited(CreditAll(list, donors, ks, n - 1), ks[n - 1], r, ws);
      PaidTotalIsCredited(r, ws, list.Keys, Entries(r));
    }
  }

  /**
   * The wallets' audit totals grow by exactly the cumulative values of the credited entries; the
   * wallets themselves, their values and their indexes stay.
   */
  lemma {:induction false} AuditConserved(list: Wallets, donors: Donors)
    ensures UpdatedWallets(list, donors).Keys == list.Keys
    ensures var (ws, ks) := (SortedKeys(list.Keys), SortedKeys(donors.Keys));
            TotalAudit(UpdatedWallets(list, donors), ws) ==
            TotalAudit(list, ws) + AllCreditedValue(donors, list.Keys, ks, |ks|)
    ensures forall w :: w in list ==>
              && UpdatedWallets(list, donors)[w].cumulativeValue == list[w].cumulativeValue
              && UpdatedWallets(list, donors)[w].cumulativeIndex == list[w].cumulativeIndex
  {
    var (ws, ks) := (SortedKeys(list.Keys), SortedKeys(donors.Keys));
    TotalAuditAfter(list, donors, ks, |ks|, ws);
    forall w | w in list
      ensures UpdatedWallets(list, donors)[w].cumulativeValue == list[w].cumulativeValue
      ensures UpdatedWallets(list, donors)[w].cumulativeIndex == list[w].cumulativeIndex
    {
      AuditAfter(list, donors, ks, |ks|, w);
    }
  }

  // Running totals ---------------------------------------------------------------------------------------

  lemma {:induction false} PaidGrows(r: Receipts, w: Account, i: nat, n: nat)
    requires i <= n <= |r.destination|
    ensures Paid(r, w, i) <= Paid(r, w, n)
  {
    if i < n {
      PaidGrows(r, w, i, n - 1);
    }
  }

  lemma {:induction false} PaidByAllGrows(donors: Donors, ks: seq<Account>, j: nat, n: nat, w: Account)
    requires j <= n <= |ks| && forall k :: k in ks ==> k in donors
    ensures PaidByAll(donors, ks, j, w) <= PaidByAll(donors, ks, n, w)
  {
    if j < n {
      PaidByAllGrows(donors, ks, j, n - 1, w);
    }
  }

  /**
   * While the entries are gone through, no audit total exceeds its final value: the 64-bit additions of the
   * code overflow exactly when a final total does not fit.
   */
  lemma {:induction false} AuditTotalsGrow(list: Wallets, donors: Donors, j: nat, i: nat, w: Account)
    requires w in list && j < |donors.Keys|
    requires i <= Entries(donors[SortedKeys(donors.Keys)[j]].receipts)
    ensures var (ks, final) := (SortedKeys(donors.Keys), UpdatedWallets(list, donors));
      w in CreditAll(list, donors, ks, j) && w in final
      && Credited(CreditAll(list, donors, ks, j), ks[j], donors[ks[j]].receipts, i)[w].auditDepositsWithReceipts
         <= final[w].auditDepositsWithReceipts
  {
    hide CommWallet.Names, CommWallet.Paid, CommWallet.CreditAll, CommWallet.StrictlyAscending, PaidByAll;
    var ks := SortedKeys(donors.Keys);
    AuditAfter(list, donors, ks, j, w);
    AuditAfter(list, donors, ks, |ks|, w);
    PaidGrows(donors[ks[j]].receipts, w, i, Entries(donors[ks[j]].receipts));
    PaidByAllGrows(donors, ks, j + 1, |ks|, w);
    PaidByAllStep(donors, ks, j, w);
  }

  lemma PaidByAllStep(donors: Donors, ks: seq<Account>, j: nat, w: Account)
    requires j < |ks| && forall k :: k in ks ==> k in donors
    ensures PaidByAll(donors, ks, j + 1, w)
         == PaidByAll(donors, ks, j, w) + Paid(donors[ks[j]].receipts, w, Entries(donors[ks[j]].receipts))
  {
  }

  /** The same for the running total of the deposits. */
  lemma DepositTotalGrows(rs: seq<LegacyRecovery>, i: nat)
    requires i <= |rs|
    ensures Sum(rs[..i], DepositedValue) <= Sum(rs, DepositedValue)
  {
    assert rs == rs[..i] + rs[i..];
    SumAppend(rs[..i], rs[i..], DepositedValue);
    DepositsNatural(rs[i..]);
  }

  lemma {:induction false} DepositsNatural(rs: seq<LegacyRecovery>)
    ensures Sum(rs, DepositedValue) >= 0
  {
    if rs != [] {
      DepositsNatural(rs[1..]);
    }
  }

  // Every entry once ------------------------------------------------------------------------------------

  /** An entry that names a wallet, with the value it is credited. */
  datatype Credit = Credit(wallet: Account, value: nat)

  /** Of the first `n` entries those that name a wallet, in order. */
  function Matched(r: Receipts, wallets: set<Account>, n: nat): seq<Credit>
    requires n <= |r.destination| && Priced(r, wallets)
  {
    if n == 0 then []
    else
      var before := Matched(r, wallets, n - 1);
      var w := r.destination[n - 1];
      if w in wallets then before + [Credit(w, r.cumulative[n - 1])] else before
  }

  function WalletsOf(credits: seq<Credit>): (ws: seq<Account>)
    ensures |ws| == |credits| && forall i :: 0 <= i < |ws| ==> ws[i] == credits[i].wallet
  {
    seq(|credits|, i requires 0 <= i < |credits| => credits[i].wallet)
  }

  /** What credits are worth together, and to one wallet. */
  function ValueOf(credits: seq<Credit>): nat {
    if credits == [] then 0 else ValueOf(credits[..|credits| - 1]) + credits[|credits| - 1].value
  }

  function ValueTo(credits: seq<Credit>, w: Account): nat {
    if credits == [] then 0
    else
      ValueTo(credits[..|credits| - 1], w)
      + (if credits[|credits| - 1].wallet == w then credits[|credits| - 1].value else 0)
  }

  lemma CreditSnoc(credits: seq<Credit>, c: Credit, w: Account)
    ensures ValueOf(credits + [c]) == ValueOf(credits) + c.value
    ensures ValueTo(credits + [c], w) == ValueTo(credits, w) + (if c.wallet == w then c.value else 0)
    ensures WalletsOf(credits + [c]) == WalletsOf(credits) + [c.wallet]
  {
    assert (credits + [c])[..|credits + [c]| - 1] == credits;
  }

  /** The credits are worth what the audit totals grow by, and to each wallet what it is paid. */
  lemma {:induction false} MatchedValues(r: Receipts, wallets: set<Account>, n: nat, w: Account)
    requires n <= |r.destination| && Priced(r, wallets)
    ensures ValueOf(Matched(r, wallets, n)) == CreditedValue(r, wallets, n)
    ensures w in wallets ==> ValueTo(Matched(r, wallets, n), w) == Paid(r, w, n)
  {
    hide ValueOf, ValueTo;
    if n == 0 {
      NoCredits(w);
    } else {
      MatchedValues(r, wallets, n - 1, w);
      if r.destination[n - 1] in wallets {
        CreditSnoc(Matched(r, wallets, n - 1), Credit(r.destination[n - 1], r.cumulative[n - 1]), w);
      }
    }
  }

  lemma NoCredits(w: Account)
    ensures ValueOf([]) == 0 && ValueTo([], w) == 0
  {
  }

  /** Credited and not-found entries together are all entries, each once. */
  lemma {:induction false} EntriesPartition(r: Receipts, wallets: set<Account>, n: nat)
    requires n <= |r.destination| && Priced(r, wallets)
    ensures multiset(WalletsOf(Matched(r, wallets, n))) + multiset(Unmatched(r.destination, wallets, n))
         == multiset(r.destination[..n])
  {
    hide WalletsOf;
    if n == 0 {
      NoWallets();
      assert r.destination[..0] == [];
    } else {
      EntriesPartition(r, wallets, n - 1);
      var (before, x) := (Matched(r, wallets, n - 1), r.destination[n - 1]);
      assert r.destination[..n] == r.destination[..n - 1] + [x];
      if x in wallets {
        CreditSnoc(before, Credit(x, r.cumulative[n - 1]), x);
      }
    }
  }

  /**
   * What one donor's entries come to: each is either listed as not found, or adds exactly its value to the
   * wallet it names. The wallets' audit totals grow by the credits that name them, the credits are worth the
   * credited value, and credits and not-found entries are all entries, each once.
   */
  lemma EntriesAccounted(list: Wallets, donor: Account, r: ReceiptsV7)
    requires Priced(r.receipts, list.Keys)
    ensures var credits := Matched(r.receipts, list.Keys, Entries(r.receipts));
      && (forall w :: w in list ==>
            Credited(list, donor, r.receipts, Entries(r.receipts))[w].auditDepositsWithReceipts
            == list[w].auditDepositsWithReceipts + ValueTo(credits, w))
      && ValueOf(credits) == CreditedValue(r.receipts, list.Keys, Entries(r.receipts))
      && multiset(WalletsOf(credits)) + multiset(Audited(list.Keys, r).auditNotFound) == multiset(r.receipts.destination)
  {
    hide Matched, ValueOf, ValueTo, WalletsOf, CommWallet.Unmatched, CommWallet.Paid, CommWallet.Names, CreditedValue;
    var n := Entries(r.receipts);
    forall w | w in list
      ensures ValueTo(Matched(r.receipts, list.Keys, n), w) == Paid(r.receipts, w, n)
    {
      MatchedValues(r.receipts, list.Keys, n, w);
    }
    MatchedValues(r.receipts, list.Keys, n, donor);
    EntriesPartition(r.receipts, list.Keys, n);
    assert r.receipts.destination[..n] == r.receipts.destination;
  }

  lemma {:induction false} UnmatchedMeaning(destination: seq<Account>, wallets: set<Account>, n: nat, x: Account)
    requires n <= |destination|
    ensures x in Unmatched(destination, wallets, n) <==> x !in wallets && Names(destination, x, n)
  {
    if n > 0 {
      UnmatchedMeaning(destination, wallets, n - 1, x);
    }
  }

  /** Credits go to wallets that are named, and the other entries name none: no entry is both. */
  lemma {:induction false} EntriesSeparated(r: Receipts, wallets: set<Account>, n: nat, x: Account)
    requires n <= |r.destination| && Priced(r, wallets)
    ensures x in WalletsOf(Matched(r, wallets, n)) <==> x in wallets && Names(r.destination, x, n)
    ensures x in Unmatched(r.destination, wallets, n) <==> x !in wallets && Names(r.destination, x, n)
  {
    hide WalletsOf;
    UnmatchedMeaning(r.destination, wallets, n, x);
    if n == 0 {
      NoWallets();
    } else {
      EntriesSeparated(r, wallets, n - 1, x);
      if r.destination[n - 1] in wallets {
        CreditSnoc(Matched(r, wallets, n - 1), Credit(r.destination[n - 1], r.cumulative[n - 1]), x);
      }
    }
  }

  lemma NoWallets()
    ensures WalletsOf([]) == []
  {
  }

  predicate NoDuplicates(xs: seq<Account>) {
    forall i, j :: 0 <= i < j < |xs| ==> xs[i] != xs[j]
  }

  lemma {:induction false} AddNewMeaning(acc: seq<Account>, xs: seq<Account>)
    ensures NoDuplicates(acc) ==> NoDuplicates(AddNew(acc, xs))
    ensures forall x :: x in AddNew(acc, xs) <==> x in acc || x in xs
  {
    if xs != [] {
      var n := |xs| - 1;
      AddNewMeaning(acc, xs[..n]);
      assert xs == xs[..n] + [xs[n]];
    }
  }

  lemma {:induction false} AllUnmatchedMeaning(wallets: set<Account>, donors: Donors, ks: seq<Account>, n: nat, x: Account)
    requires n <= |ks| && forall k :: k in ks ==> k in donors
    ensures x in AllUnmatched(wallets, donors, ks, n)
       <==> exists j :: 0 <= j < n && x in NotFound(wallets, donors[ks[j]])
    decreases n
  {
    hide NotFound;
    if n > 0 {
      AllUnmatchedMeaning(wallets, donors, ks, n - 1, x);
    }
  }

  lemma NotFoundMeaning(wallets: set<Account>, r: ReceiptsV7, x: Account)
    ensures x in NotFound(wallets, r) <==> x !in wallets && x in r.receipts.destination
  {
    var destination := r.receipts.destination;
    UnmatchedMeaning(destination, wallets, |destination|, x);
    NamesMeaning(destination, x, |destination|);
    assert destination[..|destination|] == destination;
  }

  /** `audit_not_cw` is the duplicate-free list of the destinations that are no wallet. */
  lemma NotCwExact(wallets: set<Account>, donors: Donors)
    ensures NoDuplicates(UpdatedNotCw([], wallets, donors))
    ensures forall x :: x in UpdatedNotCw([], wallets, donors)
                   <==> x !in wallets && exists d :: d in donors && x in donors[d].receipts.destination
  {
    var ks := SortedKeys(donors.Keys);
    var unmatched := AllUnmatched(wallets, donors, ks, |ks|);
    AddNewMeaning([], unmatched);
    forall x
      ensures x in unmatched <==> x !in wallets && exists d :: d in donors && x in donors[d].receipts.destination
    {
      AllUnmatchedMeaning(wallets, donors, ks, |ks|, x);
      forall d | d in donors
        ensures x in NotFound(wallets, donors[d]) <==> x !in wallets && x in donors[d].receipts.destination
      {
        NotFoundMeaning(wallets, donors[d], x);
      }
      assert forall j :: 0 <= j < |ks| ==> ks[j] in donors;
      if d :| d in donors && x in donors[d].receipts.destination && x !in wallets {
        assert d in ks;
        var j :| 0 <= j < |ks| && ks[j] == d;
        assert x in NotFound(wallets, donors[ks[j]]);
      }
    }
  }

  // Order of the records ----------------------------------------------------------------------------------

  predicate HasReceipts(r: LegacyRecovery, k: Account) {
    r.account == Some(k) && r.receipts.Some?
  }

  predicate HasDeposits(r: LegacyRecovery, k: Account) {
    r.account == Some(k) && r.cumulativeDeposits.Some?
  }

  lemma {:induction false} DonorMapMeaning(rs: seq<LegacyRecovery>, k: Account)
    requires DistinctAccounts(rs)
    ensures k in DonorMap(rs) <==> exists r :: r in rs && HasReceipts(r, k)
    ensures forall r :: r in rs && HasReceipts(r, k) ==> DonorMap(rs)[k] == ReceiptEntry(r)
    decreases |rs|
  {
    if rs != [] {
      var n := |rs| - 1;
      DonorMapMeaning(rs[..n], k);
      assert rs == rs[..n] + [rs[n]];
      assert rs[n] in rs && forall r :: r in rs <==> r in rs[..n] || r == rs[n];
      forall r | r in rs[..n] && HasReceipts(r, k)
        ensures rs[n].account != Some(k)
      {
        var i :| 0 <= i < n && rs[i] == r;
      }
    }
  }

  lemma {:induction false} WalletMapMeaning(rs: seq<LegacyRecovery>, k: Account)
    requires DistinctAccounts(rs)
    ensures k in WalletMap(rs) <==> exists r :: r in rs && HasDeposits(r, k)
    ensures forall r :: r in rs && HasDeposits(r, k) ==> WalletMap(rs)[k] == WalletEntry(r)
    decreases |rs|
  {
    if rs != [] {
      var n := |rs| - 1;
      WalletMapMeaning(rs[..n], k);
      assert rs == rs[..n] + [rs[n]];
      assert rs[n] in rs && forall r :: r in rs <==> r in rs[..n] || r == rs[n];
      forall r | r in rs[..n] && HasDeposits(r, k)
        ensures rs[n].account != Some(k)
      {
        var i :| 0 <= i < n && rs[i] == r;
      }
    }
  }

  lemma DonorMapPermutation(a: seq<LegacyRecovery>, b: seq<LegacyRecovery>, k: Account)
    requires multiset(a) == multiset(b) && DistinctAccounts(a) && DistinctAccounts(b)
    ensures k in DonorMap(a) <==> k in DonorMap(b)
    ensures k in DonorMap(a) ==> DonorMap(a)[k] == DonorMap(b)[k]
  {
    hide CommWallet.DonorMap, Recovery.DistinctAccounts;
    forall r
      ensures r in a <==> r in b
    {
      SameMembers(a, b, r);
    }
    DonorMapMeaning(a, k);
    DonorMapMeaning(b, k);
  }

  lemma WalletMapPermutation(a: seq<LegacyRecovery>, b: seq<LegacyRecovery>, k: Account)
    requires multiset(a) == multiset(b) && DistinctAccounts(a) && DistinctAccounts(b)
    ensures k in WalletMap(a) <==> k in WalletMap(b)
    ensures k in WalletMap(a) ==> WalletMap(a)[k] == WalletMap(b)[k]
  {
    hide CommWallet.WalletMap, Recovery.DistinctAccounts;
    forall r
      ensures r in a <==> r in b
    {
      SameMembers(a, b, r);
    }
    WalletMapMeaning(a, k);
    WalletMapMeaning(b, k);
  }

  /**
   * For distinct accounts the order of the records does not matter: both maps, hence everything
   * computed from them, and the deposit total are the same for every permutation.
   */
  lemma PreparationPermutation(a: seq<LegacyRecovery>, b: seq<LegacyRecovery>)
    requires multiset(a) == multiset(b) && DistinctAccounts(a)
    ensures DonorMap(a) == DonorMap(b) && WalletMap(a) == WalletMap(b)
    ensures Sum(a, DepositedValue) == Sum(b, DepositedValue)
  {
    hide CommWallet.DonorMap, CommWallet.WalletMap, Recovery.DistinctAccounts;
    DistinctPermutation(a, b);
    forall k
      ensures k in DonorMap(a) <==> k in DonorMap(b)
      ensures k in DonorMap(a) ==> DonorMap(a)[k] == DonorMap(b)[k]
    {
      DonorMapPermutation(a, b, k);
    }
    forall k
      ensures k in WalletMap(a) <==> k in WalletMap(b)
      ensures k in WalletMap(a) ==> WalletMap(a)[k] == WalletMap(b)[k]
    {
      WalletMapPermutation(a, b, k);
    }
    SumPermutation(a, b, DepositedValue);
  }

  lemma {:induction false} WalletsStartEmpty(rs: seq<LegacyRecovery>, w: Account)
    requires w in WalletMap(rs)
    ensures WalletMap(rs)[w].depositors == [] && WalletMap(rs)[w].auditDepositsWithReceipts == 0
    decreases |rs|
  {
    var n := |rs| - 1;
    if !HasDeposits(rs[n], w) { WalletsStartEmpty(rs[..n], w); }
  }

  // Dropped accounts -----------------------------------------------------------------------------------------

  lemma {:induction false} DroppedLeaveMaps(rs: seq<LegacyRecovery>, drops: seq<Account>, a: Account)
    requires a in drops
    ensures a !in WalletMap(AllBuried(rs, drops)) && a !in DonorMap(AllBuried(rs, drops))
    decreases |rs|
  {
    if rs != [] {
      var n := |rs| - 1;
      DroppedLeaveMaps(rs[..n], drops, a);
      assert AllBuried(rs, drops)[..n] == AllBuried(rs[..n], drops);
    }
  }

  /** After accounts are dropped, none of them is a wallet, and none is a depositor of any wallet. */
  lemma DroppedNeitherWalletNorDepositor(rs: seq<LegacyRecovery>, drops: seq<Account>, a: Account)
    requires a in drops
    ensures var after := AllBuried(rs, drops);
            var wallets := UpdatedWallets(WalletMap(after), DonorMap(after));
            a !in wallets && forall w :: w in wallets ==> a !in wallets[w].depositors
  {
    var after := AllBuried(rs, drops);
    DroppedLeaveMaps(rs, drops, a);
    var wallets := UpdatedWallets(WalletMap(after), DonorMap(after));
    var ks := SortedKeys(DonorMap(after).Keys);
    CreditAllKeys(WalletMap(after), DonorMap(after), ks, |ks|);
    forall w | w in wallets
      ensures a !in wallets[w].depositors
    {
      WalletsStartEmpty(after, w);
      DepositorsExact(WalletMap(after), DonorMap(after), w);
    }
  }
}
