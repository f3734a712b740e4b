/** Community wallets and donor receipts: the depositor lists rebuilt from what donors report. */
module CommWallet {
  import opened Base
  import opened Recovery

  /** `audit_deposits_with_receipts` and `total_deposits` are exact sums. */
  datatype WalletState = WalletState(
    cumulativeValue: U64, cumulativeIndex: U64, depositors: seq<Account>, auditDepositsWithReceipts: nat)

  datatype ReceiptsV7 = ReceiptsV7(receipts: Receipts, auditNotFound: seq<Account>)

  type Wallets = map<Account, WalletState>
  type Donors = map<Account, ReceiptsV7>

  class AllCommWallets {
    var list: Wallets
    var totalDeposits: nat

    constructor (list: Wallets, totalDeposits: nat)
      ensures this.list == list && this.totalDeposits == totalDeposits
    {
      this.list, this.totalDeposits := list, totalDeposits;
    }
  }

  class DonorReceipts {
    var list: Donors
    var totalCumu: nat
    var auditNotCw: seq<Account>

    constructor (list: Donors)
      ensures this.list == list && totalCumu == 0 && auditNotCw == []
    {
      this.list, totalCumu, auditNotCw := list, 0, [];
    }
  }

  // Ascending keys: the iteration order of a `BTreeMap` ------------------------------------------------

  predicate StrictlyAscending(s: seq<Account>) {
    forall i, j :: 0 <= i < j < |s| ==> s[i] < s[j]
  }

  predicate IsMinimum(k: Account, s: set<Account>) {
    k in s && forall j :: j in s ==> k <= j
  }

  lemma {:induction false} HasMinimum(s: set<Account>)
    requires s != {}
    ensures exists k :: IsMinimum(k, s)
    decreases |s|
  {
    var k :| k in s;
    var rest := s - {k};
    if rest == {} {
      assert s == {k};
      assert IsMinimum(k, s);
    } else {
      HasMinimum(rest);
      var l :| IsMinimum(l, rest);
      assert s == rest + {k};
      assert IsMinimum(if k < l then k else l, s);
    }
  }

  function Minimum(s: set<Account>): (k: Account)
    requires s != {}
    ensures IsMinimum(k, s)
  {
    HasMinimum(s);
    var k :| IsMinimum(k, s);
    k
  }

  function SortedKeys(s: set<Account>): (r: seq<Account>)
    ensures StrictlyAscending(r) && |r| == |s|
    ensures forall k :: k in r <==> k in s
  {
    if s == {} then []
    else
      var k := Minimum(s);
      [k] + SortedKeys(s - {k})
  }

  // Rebuilding the two maps ---------------------------------------------------------------------------

  function ReceiptEntry(r: LegacyRecovery): ReceiptsV7
    requires r.receipts.Some?
  {
    ReceiptsV7(r.receipts.value, [])
  }

  function WalletEntry(r: LegacyRecovery): WalletState
    requires r.cumulativeDeposits.Some?
  {
    WalletState(r.cumulativeDeposits.value.value, r.cumulativeDeposits.value.index, [], 0)
  }

  /** The later of two records of one account wins. */
  function DonorMap(rs: seq<LegacyRecovery>): Donors {
    if rs == [] then map[]
    else
      var r := rs[|rs| - 1];
      var m := DonorMap(rs[..|rs| - 1]);
      if r.receipts.Some? && r.account.Some? then m[r.account.value := ReceiptEntry(r)] else m
  }

  function WalletMap(rs: seq<LegacyRecovery>): Wallets {
    if rs == [] then map[]
    else
      var r := rs[|rs| - 1];
      var m := WalletMap(rs[..|rs| - 1]);
      if r.cumulativeDeposits.Some? && r.account.Some? then m[r.account.value := WalletEntry(r)] else m
  }

  function DepositedValue(r: LegacyRecovery): (v: int)
    ensures v >= 0
  {
    if r.cumulativeDeposits.Some? then r.cumulativeDeposits.value.value else 0
  }

  /** The `unwrap`s of the two rebuilding loops do not fire. */
  predicate Named(rs: seq<LegacyRecovery>) {
    forall r :: r in rs && (r.receipts.Some? || r.cumulativeDeposits.Some?) ==> r.account.Some?
  }

  method RebuildDonorReceipts(rs: seq<LegacyRecovery>) returns (dr: DonorReceipts)
    requires Named(rs)
    ensures fresh(dr) && dr.list == DonorMap(rs) && dr.totalCumu == 0 && dr.auditNotCw == []
  {
    var list: Donors := map[];
    for i := 0 to |rs|
      invariant list == DonorMap(rs[..i])
    {
      assert rs[..i + 1][..i] == rs[..i] && rs[i] in rs;
      if rs[i].receipts.Some? {
        list := list[rs[i].account.value := ReceiptsV7(rs[i].receipts.value, [])];
      }
    }
    assert rs[..|rs|] == rs;
    dr := new DonorReceipts(list);
  }

  method RebuildCwCumuDeposits(rs: seq<LegacyRecovery>) returns (cw: AllCommWallets)
    requires Named(rs)
    ensures fresh(cw) && cw.list == WalletMap(rs) && cw.totalDeposits == Sum(rs, DepositedValue)
  {
    var totalCumu := 0;
    var list: Wallets := map[];
    for i := 0 to |rs|
      invariant list == WalletMap(rs[..i]) && totalCumu == Sum(rs[..i], DepositedValue) >= 0
    {
      assert rs[..i + 1][..i] == rs[..i] && rs[i] in rs;
      SumPrefix(rs, i, DepositedValue);
      if rs[i].cumulativeDeposits.Some? {
        var cd := rs[i].cumulativeDeposits.value;
        totalCumu := totalCumu + cd.value;
        list := list[rs[i].account.value := WalletState(cd.value, cd.index, [], 0)];
      }
    }
    assert rs[..|rs|] == rs;
    cw := new AllCommWallets(list, totalCumu);
  }

  // Crediting donors ------------------------------------------------------------------------------------

  /** One of the first `n` entries names the account. */
  predicate Names(destination: seq<Account>, w: Account, n: nat)
    requires n <= |destination|
  {
    n > 0 && (destination[n - 1] == w || Names(destination, w, n - 1))
  }

  /** What the first `n` entries of the receipts paid to the account. */
  function Paid(r: Receipts, w: Account, n: nat): nat
    requires n <= |r.destination|
  {
    if n == 0 then 0
    else Paid(r, w, n - 1)
         + (if r.destination[n - 1] == w && n <= |r.cumulative| then r.cumulative[n - 1] else 0)
  }

  /** A wallet after the first `n` entries of one donor. */
  function CreditWallet(s: WalletState, w: Account, donor: Account, r: Receipts, n: nat): WalletState
    requires n <= |r.destination|
  {
    WalletState(
      s.cumulativeValue, s.cumulativeIndex,
      if Names(r.destination, w, n) && donor !in s.depositors then s.depositors + [donor] else s.depositors,
      s.auditDepositsWithReceipts + Paid(r, w, n))
  }

  function Credited(list: Wallets, donor: Account, r: Receipts, n: nat): Wallets
    requires n <= |r.destination|
  {
    map w | w in list :: CreditWallet(list[w], w, donor, r, n)
  }

  /** Of the first `n` destinations those that are no wallet, in order, with repetitions. */
  function Unmatched(destination: seq<Account>, wallets: set<Account>, n: nat): seq<Account>
    requires n <= |destination|
  {
    if n == 0 then []
    else
      var before := Unmatched(destination, wallets, n - 1);
      if destination[n - 1] in wallets then before else before + [destination[n - 1]]
  }

  /** Appends what is not there yet. */
  function AddNew(acc: seq<Account>, xs: seq<Account>): seq<Account> {
    if xs == [] then acc
    else
      var n := |xs| - 1;
      var a := AddNew(acc, xs[..n]);
      if xs[n] in a then a else a + [xs[n]]
  }

  lemma AddNewStep(acc: seq<Account>, xs: seq<Account>, x: Account)
    ensures var a := AddNew(acc, xs);
            AddNew(acc, xs + [x]) == if x in a then a else a + [x]
  {
    assert (xs + [x])[..|xs + [x]| - 1] == xs;
  }

  lemma {:induction false} AddNewAppend(acc: seq<Account>, xs: seq<Account>, ys: seq<Account>)
    ensures AddNew(AddNew(acc, xs), ys) == AddNew(acc, xs + ys)
  {
    if ys == [] {
      assert xs + ys == xs;
    } else {
      var n := |ys| - 1;
      AddNewAppend(acc, xs, ys[..n]);
      assert (xs + ys)[..|xs + ys| - 1] == xs + ys[..n];
    }
  }

  /** The `expect` on the cumulative values does not fire: every entry that names a wallet has one. */
  predicate Priced(r: Receipts, wallets: set<Account>) {
    forall i :: 0 <= i < |r.destination| && r.destination[i] in wallets ==> i < |r.cumulative|
  }

  lemma CreditOther(s: WalletState, w: Account, donor: Account, r: Receipts, i: nat)
    requires i < |r.destination| && w != r.destination[i]
    ensures CreditWallet(s, w, donor, r, i + 1) == CreditWallet(s, w, donor, r, i)
  {
    assert Names(r.destination, w, i + 1) == Names(r.destination, w, i) && Paid(r, w, i + 1) == Paid(r, w, i);
  }

  /** The loop body on the wallet that entry `i` names. */
  function PaidInto(s: WalletState, donor: Account, value: nat): WalletState {
    WalletState(
      s.cumulativeValue, s.cumulativeIndex,
      if donor in s.depositors then s.depositors else s.depositors + [donor],
      s.auditDepositsWithReceipts + value)
  }

  lemma CreditNamed(s: WalletState, donor: Account, r: Receipts, i: nat)
    requires i < |r.destination| && i < |r.cumulative|
    ensures var w := r.destination[i];
            CreditWallet(s, w, donor, r, i + 1) == PaidInto(CreditWallet(s, w, donor, r, i), donor, r.cumulative[i])
  {
    var w := r.destination[i];
    assert Names(r.destination, w, i + 1) && Paid(r, w, i + 1) == Paid(r, w, i) + r.cumulative[i];
  }

  /** One entry changes the wallet it names as the loop body does, and no other wallet. */
  lemma CreditStep(list: Wallets, donor: Account, r: Receipts, i: nat)
    requires i < |r.destination| && (r.destination[i] in list ==> i < |r.cumulative|)
    ensures var (w, before) := (r.destination[i], Credited(list, donor, r, i));
            Credited(list, donor, r, i + 1) ==
            if w in list then before[w := PaidInto(before[w], donor, r.cumulative[i])] else before
  {
    hide CreditWallet, PaidInto;
    forall w | w in list && w != r.destination[i]
      ensures CreditWallet(list[w], w, donor, r, i + 1) == CreditWallet(list[w], w, donor, r, i)
    {
      CreditOther(list[w], w, donor, r, i);
    }
    if r.destination[i] in list {
      CreditNamed(list[r.destination[i]], donor, r, i);
    }
  }

  /** The inner closure of `update_cw_with_donor`, over the entries of one donor. */
  method ProcessDonor(cw: AllCommWallets, donors: DonorReceipts, donor: Account, r: Receipts)
    returns (notFound: seq<Account>)
    requires Priced(r, cw.list.Keys)
    modifies cw`list, donors`auditNotCw
    ensures cw.list == Credited(old(cw.list), donor, r, |r.destination|)
    ensures notFound == Unmatched(r.destination, old(cw.list.Keys), |r.destination|)
    ensures donors.auditNotCw == AddNew(old(donors.auditNotCw), notFound)
  {
    hide CreditWallet, AddNew;
    notFound := [];
    ghost var before := cw.list;
    CreditNothing(before, donor, r);
    AddNothing(donors.auditNotCw);
    for i := 0 to |r.destination|
      invariant cw.list == Credited(before, donor, r, i)
      invariant notFound == Unmatched(r.destination, before.Keys, i)
      invariant donors.auditNotCw == AddNew(old(donors.auditNotCw), notFound)
    {
      var maybeCw := r.destination[i];
      CreditStep(before, donor, r, i);
      if maybeCw in cw.list {
        var w := cw.list[maybeCw];
        var value := r.cumulative[i];
        w := w.(auditDepositsWithReceipts := w.auditDepositsWithReceipts + value);
        if donor !in w.depositors {
          w := w.(depositors := w.depositors + [donor]);
        }
        cw.list := cw.list[maybeCw := w];
      } else {
        AddNewStep(old(donors.auditNotCw), notFound, maybeCw);
        if maybeCw !in donors.auditNotCw {
          donors.auditNotCw := donors.auditNotCw + [maybeCw];
        }
        notFound := notFound + [maybeCw];
      }
    }
  }

  lemma CreditNothing(list: Wallets, donor: Account, r: Receipts)
    ensures Credited(list, donor, r, 0) == list
  {
  }

  lemma AddNothing(acc: seq<Account>)
    ensures AddNew(acc, []) == acc
  {
  }

  /** The wallets after all entries of the first `n` donors listed. */
  function CreditAll(list: Wallets, donors: Donors, ks: seq<Account>, n: nat): Wallets
    requires n <= |ks| && forall k :: k in ks ==> k in donors
  {
    if n == 0 then list
    else
      var r := donors[ks[n - 1]].receipts;
      Credited(CreditAll(list, donors, ks, n - 1), ks[n - 1], r, |r.destination|)
  }

  /** The unmatched destinations of the first `n` donors listed, in the order they come up. */
  function AllUnmatched(wallets: set<Account>, donors: Donors, ks: seq<Account>, n: nat): seq<Account>
    requires n <= |ks| && forall k :: k in ks ==> k in donors
  {
    if n == 0 then []
    else AllUnmatched(wallets, donors, ks, n - 1) + NotFound(wallets, donors[ks[n - 1]])
  }

  function NotFound(wallets: set<Account>, r: ReceiptsV7): seq<Account> {
    Unmatched(r.receipts.destination, wallets, |r.receipts.destination|)
  }

  function Audited(wallets: set<Account>, r: ReceiptsV7): ReceiptsV7 {
    r.(auditNotFound := NotFound(wallets, r))
  }

  /** What `update_cw_with_donor` leaves behind, in terms of the maps it starts with. */
  function UpdatedWallets(list: Wallets, donors: Donors): Wallets {
    CreditAll(list, donors, SortedKeys(donors.Keys), |donors.Keys|)
  }

  function UpdatedDonors(wallets: set<Account>, donors: Donors): Donors {
    map d | d in donors :: Audited(wallets, donors[d])
  }

  function UpdatedNotCw(noted: seq<Account>, wallets: set<Account>, donors: Donors): seq<Account> {
    AddNew(noted, AllUnmatched(wallets, donors, SortedKeys(donors.Keys), |donors.Keys|))
  }

  /** The outer closure of `update_cw_with_donor`, on one donor. */
  method UpdateOneDonor(cw: AllCommWallets, donors: DonorReceipts, donor: Account)
    requires donor in donors.list && Priced(donors.list[donor].receipts, cw.list.Keys)
    modifies cw`list, donors`list, donors`auditNotCw
    ensures var r := old(donors.list)[donor];
            && cw.list == Credited(old(cw.list), donor, r.receipts, |r.receipts.destination|)
            && donors.list == old(donors.list)[donor := Audited(old(cw.list.Keys), r)]
            && donors.auditNotCw == AddNew(old(donors.auditNotCw), NotFound(old(cw.list.Keys), r))
  {
    var receipt := donors.list[donor];
    var notFound := ProcessDonor(cw, donors, donor, receipt.receipts);
    donors.list := donors.list[donor := receipt.(auditNotFound := notFound)];
  }

  function AuditedFirst(wallets: set<Account>, donors: Donors, ks: seq<Account>, n: nat): Donors
    requires n <= |ks| && forall k :: k in ks ==> k in donors
  {
    if n == 0 then donors
    else AuditedFirst(wallets, donors, ks, n - 1)[ks[n - 1] := Audited(wallets, donors[ks[n - 1]])]
  }

  lemma {:induction false} AuditedFirstAt(wallets: set<Account>, donors: Donors, ks: seq<Account>, n: nat, j: nat)
    requires j < |ks| && n <= |ks| && StrictlyAscending(ks) && forall k :: k in ks ==> k in donors
    ensures AuditedFirst(wallets, donors, ks, n).Keys == donors.Keys
    ensures AuditedFirst(wallets, donors, ks, n)[ks[j]]
         == if j < n then Audited(wallets, donors[ks[j]]) else donors[ks[j]]
    decreases n
  {
    hide Audited;
    if n > 0 {
      AuditedFirstAt(wallets, donors, ks, n - 1, j);
    }
  }

  lemma {:induction false} AuditedFirstAll(wallets: set<Account>, donors: Donors, ks: seq<Account>)
    requires ks == SortedKeys(donors.Keys)
    ensures AuditedFirst(wallets, donors, ks, |ks|) == UpdatedDonors(wallets, donors)
  {
    hide Audited;
    var r := AuditedFirst(wallets, donors, ks, |ks|);
    forall d | d in donors
      ensures d in r && r[d] == Audited(wallets, donors[d])
    {
      var j :| 0 <= j < |ks| && ks[j] == d;
      AuditedFirstAt(wallets, donors, ks, |ks|, j);
    }
    if ks != [] { AuditedFirstAt(wallets, donors, ks, |ks|, 0); }
  }

  lemma CreditedKeys(list: Wallets, donor: Account, r: Receipts)
    ensures Credited(list, donor, r, |r.destination|).Keys == list.Keys
  {
  }

  lemma {:induction false} CreditAllKeys(list: Wallets, donors: Donors, ks: seq<Account>, n: nat)
    requires n <= |ks| && forall k :: k in ks ==> k in donors
    ensures CreditAll(list, donors, ks, n).Keys == list.Keys
  {
    hide Credited;
    if n > 0 {
      CreditAllKeys(list, donors, ks, n - 1);
      CreditedKeys(CreditAll(list, donors, ks, n - 1), ks[n - 1], donors[ks[n - 1]].receipts);
    }
  }

  lemma NoDonorYet(list: Wallets, donors: Donors, ks: seq<Account>, noted: seq<Account>)
    requires forall k :: k in ks ==> k in donors
    ensures CreditAll(list, donors, ks, 0) == list && AuditedFirst(list.Keys, donors, ks, 0) == donors
    ensures AddNew(noted, AllUnmatched(list.Keys, donors, ks, 0)) == noted
  {
    AddNothing(noted);
  }

  /** What the loop over the donors does in one iteration, to each of the three lists. */
  lemma OneDonorMore(list: Wallets, donors: Donors, ks: seq<Account>, n: nat, noted: seq<Account>)
    requires n < |ks| && StrictlyAscending(ks) && forall k :: k in ks ==> k in donors
    ensures CreditAll(list, donors, ks, n).Keys == list.Keys
    ensures AuditedFirst(list.Keys, donors, ks, n).Keys == donors.Keys
    ensures AuditedFirst(list.Keys, donors, ks, n)[ks[n]] == donors[ks[n]]
    ensures var r := donors[ks[n]];
      && CreditAll(list, donors, ks, n + 1) == Credited(CreditAll(list, donors, ks, n), ks[n], r.receipts, |r.receipts.destination|)
      && AuditedFirst(list.Keys, donors, ks, n + 1) == AuditedFirst(list.Keys, donors, ks, n)[ks[n] := Audited(list.Keys, r)]
      && AddNew(noted, AllUnmatched(list.Keys, donors, ks, n + 1))
         == AddNew(AddNew(noted, AllUnmatched(list.Keys, donors, ks, n)), NotFound(list.Keys, r))
  {
    hide Credited, AddNew, Audited, NotFound;
    CreditAllKeys(list, donors, ks, n);
    AuditedFirstAt(list.Keys, donors, ks, n, n);
    AddNewAppend(noted, AllUnmatched(list.Keys, donors, ks, n), NotFound(list.Keys, donors[ks[n]]));
  }

  method UpdateCwWithDonor(cw: AllCommWallets, donors: DonorReceipts)
    requires forall d :: d in donors.list ==> Priced(donors.list[d].receipts, cw.list.Keys)
    modifies cw`list, donors`list, donors`auditNotCw
    ensures cw.list == UpdatedWallets(old(cw.list), old(donors.list))
    ensures donors.list == UpdatedDonors(old(cw.list.Keys), old(donors.list))
    ensures donors.auditNotCw == UpdatedNotCw(old(donors.auditNotCw), old(cw.list.Keys), old(donors.list))
  {
    hide Credited, AddNew, Audited, NotFound, Priced, CreditAll, AuditedFirst, AllUnmatched;
    var ks := SortedKeys(donors.list.Keys);
    ghost var (wallets, list) := (cw.list.Keys, donors.list);
    NoDonorYet(cw.list, list, ks, donors.auditNotCw);
    for i := 0 to |ks|
      invariant cw.list == CreditAll(old(cw.list), list, ks, i)
      invariant donors.list == AuditedFirst(wallets, list, ks, i)
      invariant donors.auditNotCw == AddNew(old(donors.auditNotCw), AllUnmatched(wallets, list, ks, i))
    {
      OneDonorMore(old(cw.list), list, ks, i, old(donors.auditNotCw));
      UpdateOneDonor(cw, donors, ks[i]);
    }
    AuditedFirstAll(wallets, list, ks);
  }

  /** `prepare_cw_and_receipts`. */
  method PrepareCwAndReceipts(rs: seq<LegacyRecovery>) returns (dr: DonorReceipts, cw: AllCommWallets)
    requires Named(rs)
    requires forall d :: d in DonorMap(rs) ==> Priced(DonorMap(rs)[d].receipts, WalletMap(rs).Keys)
    ensures fresh(dr) && fresh(cw)
    ensures cw.list == UpdatedWallets(WalletMap(rs), DonorMap(rs))
    ensures cw.totalDeposits == Sum(rs, DepositedValue)
    ensures dr.list == UpdatedDonors(WalletMap(rs).Keys, DonorMap(rs)) && dr.totalCumu == 0
    ensures dr.auditNotCw == UpdatedNotCw([], WalletMap(rs).Keys, DonorMap(rs))
  {
    dr := RebuildDonorReceipts(rs);
    cw := RebuildCwCumuDeposits(rs);
    UpdateCwWithDonor(cw, dr);
  }
}
