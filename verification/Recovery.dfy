/** Legacy recovery records, with the fields that the genesis migration looks at. */
module Recovery {
  import opened Base

  /** An account address, as the number its 32 bytes denote; the order is that of the bytes. */
  type Account = nat
  type AuthKey = seq<Byte>

  datatype Role = System | Validator | Operator | EndUser | Drop

  datatype SlowWallet = SlowWallet(unlocked: U64, transferred: U64)

  datatype CumulativeDeposits = CumulativeDeposits(value: U64, index: U64)

  datatype Receipts = Receipts(
    destination: seq<Account>,
    cumulative: seq<U64>,
    lastPaymentTimestamp: seq<U64>,
    lastPaymentValue: seq<U64>)

  datatype Pledge = Pledge(pledge: U64, lifetimePledged: U64, lifetimeWithdrawn: U64)

  datatype LegacyRecovery = LegacyRecovery(
    account: Option<Account>,
    authKey: Option<AuthKey>,
    role: Role,
    balance: Option<U64>,
    valCfg: bool,
    commWallet: bool,
    ancestry: Option<seq<Account>>,
    receipts: Option<Receipts>,
    cumulativeDeposits: Option<CumulativeDeposits>,
    slowWallet: Option<SlowWallet>,
    myPledge: Option<seq<Pledge>>)

  const DEFAULT: LegacyRecovery :=
    LegacyRecovery(None, None, EndUser, None, false, false, None, None, None, None, None)

  /** No two records are of the same account. */
  predicate DistinctAccounts(rs: seq<LegacyRecovery>) {
    forall i, j :: 0 <= i < j < |rs| && rs[i].account.Some? ==> rs[i].account != rs[j].account
  }

  // Sums over record lists -------------------------------------------------------------------------

  function Sum(rs: seq<LegacyRecovery>, f: LegacyRecovery -> int): int {
    if rs == [] then 0 else f(rs[0]) + Sum(rs[1..], f)
  }

  lemma {:induction false} SumAppend(a: seq<LegacyRecovery>, b: seq<LegacyRecovery>, f: LegacyRecovery -> int)
    ensures Sum(a + b, f) == Sum(a, f) + Sum(b, f)
  {
    if a == [] {
      assert a + b == b;
    } else {
      assert (a + b)[1..] == a[1..] + b;
      SumAppend(a[1..], b, f);
    }
  }

  lemma SumPrefix(rs: seq<LegacyRecovery>, i: nat, f: LegacyRecovery -> int)
    requires i < |rs|
    ensures Sum(rs[..i + 1], f) == Sum(rs[..i], f) + f(rs[i])
  {
    assert rs[..i + 1] == rs[..i] + [rs[i]];
    SumAppend(rs[..i], [rs[i]], f);
    assert Sum([rs[i]], f) == f(rs[i]) + Sum([], f);
  }

  function Without(rs: seq<LegacyRecovery>, i: nat): seq<LegacyRecovery>
    requires i < |rs|
  {
    rs[..i] + rs[i + 1..]
  }

  lemma {:induction false} SumWithout(rs: seq<LegacyRecovery>, i: nat, f: LegacyRecovery -> int)
    requires i < |rs|
    ensures Sum(rs, f) == f(rs[i]) + Sum(Without(rs, i), f)
  {
    var tail := rs[i..];
    assert rs == rs[..i] + tail && tail[0] == rs[i] && tail[1..] == rs[i + 1..];
    SumAppend(rs[..i], tail, f);
    SumAppend(rs[..i], rs[i + 1..], f);
  }

  lemma MultisetWithout(rs: seq<LegacyRecovery>, i: nat)
    requires i < |rs|
    ensures multiset(Without(rs, i)) == multiset(rs) - multiset{rs[i]}
  {
    assert rs == rs[..i] + ([rs[i]] + rs[i + 1..]);
  }

  /** A sum does not depend on the order of the records. */
  lemma {:induction false} SumPermutation(a: seq<LegacyRecovery>, b: seq<LegacyRecovery>, f: LegacyRecovery -> int)
    requires multiset(a) == multiset(b)
    ensures Sum(a, f) == Sum(b, f)
    decreases |a|
  {
    hide Without;
    if a == [] {
      assert |multiset(b)| == 0;
    } else {
      assert a[0] in multiset(a);
      var i :| 0 <= i < |b| && b[i] == a[0];
      MultisetWithout(a, 0);
      MultisetWithout(b, i);
      SumWithout(a, 0, f);
      SumWithout(b, i, f);
      assert |Without(a, 0)| < |a| by { ShorterWithout(a, 0); }
      SumPermutation(Without(a, 0), Without(b, i), f);
    }
  }

  lemma ShorterWithout(rs: seq<LegacyRecovery>, i: nat)
    requires i < |rs|
    ensures |Without(rs, i)| == |rs| - 1
  {
  }

  function IsOf(k: Account): LegacyRecovery -> int {
    (r: LegacyRecovery) => if r.account == Some(k) then 1 else 0
  }

  /** How many records the account has. */
  function Count(rs: seq<LegacyRecovery>, k: Account): int {
    Sum(rs, IsOf(k))
  }

  lemma {:induction false} CountOnce(rs: seq<LegacyRecovery>, k: Account, i: nat)
    requires i < |rs| && rs[i].account == Some(k)
    ensures Count(rs, k) >= 1
  {
    CountNatural(rs[1..], k);
    if i > 0 { CountOnce(rs[1..], k, i - 1); }
  }

  lemma {:induction false} CountTwice(rs: seq<LegacyRecovery>, k: Account, i: nat, j: nat)
    requires i < j < |rs| && rs[i].account == rs[j].account == Some(k)
    ensures Count(rs, k) >= 2
  {
    if i == 0 {
      CountOnce(rs[1..], k, j - 1);
    } else {
      CountTwice(rs[1..], k, i - 1, j - 1);
    }
  }

  lemma {:induction false} CountNatural(rs: seq<LegacyRecovery>, k: Account)
    ensures Count(rs, k) >= 0
    ensures Count(rs, k) > 0 ==> exists i :: 0 <= i < |rs| && rs[i].account == Some(k)
  {
    if rs != [] {
      CountNatural(rs[1..], k);
      assert rs[0].account == Some(k) ==> 0 < |rs|;
      assert forall i :: 0 <= i < |rs| - 1 ==> rs[1..][i] == rs[i + 1];
    }
  }

  lemma {:induction false} CountDistinct(rs: seq<LegacyRecovery>, k: Account)
    requires DistinctAccounts(rs)
    ensures Count(rs, k) <= 1
  {
    if rs != [] {
      CountDistinct(rs[1..], k);
      CountNatural(rs[1..], k);
      assert forall i :: 0 <= i < |rs| - 1 ==> rs[1..][i] == rs[i + 1];
    }
  }

  /** Permuting records keeps their accounts distinct. */
  lemma DistinctPermutation(a: seq<LegacyRecovery>, b: seq<LegacyRecovery>)
    requires multiset(a) == multiset(b) && DistinctAccounts(a)
    ensures DistinctAccounts(b)
  {
    forall i, j | 0 <= i < j < |b| && b[i].account.Some?
      ensures b[i].account != b[j].account
    {
      var k := b[i].account.value;
      CountDistinct(a, k);
      SumPermutation(a, b, IsOf(k));
      assert Count(b, k) <= 1;
      if b[j].account == b[i].account { CountTwice(b, k, i, j); }
    }
  }

  lemma SameMembers(a: seq<LegacyRecovery>, b: seq<LegacyRecovery>, r: LegacyRecovery)
    requires multiset(a) == multiset(b)
    ensures r in a <==> r in b
  {
    assert r in a <==> r in multiset(a);
    assert r in b <==> r in multiset(b);
  }
}
