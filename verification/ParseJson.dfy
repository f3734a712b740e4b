/** Repairs of the recovery list: unlocked amounts above the balance, and dropped accounts. */
module ParseJson {
  import opened Base
  import opened Recovery

  // Slow wallets -------------------------------------------------------------------------------------

  /** The record claims more unlocked coins than its account holds. */
  predicate Overdrawn(r: LegacyRecovery) {
    r.account.Some? && r.balance.Some? && r.slowWallet.Some? && r.slowWallet.value.unlocked > r.balance.value
  }

  function Repaired(r: LegacyRecovery): LegacyRecovery {
    if Overdrawn(r) then r.(slowWallet := Some(r.slowWallet.value.(unlocked := r.balance.value))) else r
  }

  function AllRepaired(rs: seq<LegacyRecovery>): seq<LegacyRecovery> {
    seq(|rs|, i requires 0 <= i < |rs| => Repaired(rs[i]))
  }

  function OverdrawnAccounts(rs: seq<LegacyRecovery>): seq<Account> {
    if rs == [] then []
    else (if Overdrawn(rs[0]) then [rs[0].account.value] else []) + OverdrawnAccounts(rs[1..])
  }

  /** `fix_slow_wallet`: repairs the records in place and lists the accounts it touched. */
  method FixSlowWallet(rs: array<LegacyRecovery>) returns (errs: seq<Account>)
    modifies rs
    ensures rs[..] == AllRepaired(old(rs[..]))
    ensures errs == OverdrawnAccounts(old(rs[..]))
  {
    errs := [];
    ghost var before := rs[..];
    for i := 0 to rs.Length
      invariant forall k :: 0 <= k < i ==> rs[k] == Repaired(before[k])
      invariant forall k :: i <= k < rs.Length ==> rs[k] == before[k]
      invariant errs + OverdrawnAccounts(before[i..]) == OverdrawnAccounts(before)
    {
      var e := rs[i];
      ghost var (prior, more) := (errs, OverdrawnAccounts(before[i + 1..]));
      assert before[i..][0] == e && before[i..][1..] == before[i + 1..];
      if e.account.Some? && e.balance.Some? {
        if e.slowWallet.Some? {
          var balance := e.balance.value;
          if e.slowWallet.value.unlocked > balance {
            rs[i] := e.(slowWallet := Some(e.slowWallet.value.(unlocked := balance)));
            errs := errs + [e.account.value];
          }
        }
      }
      assert rs[i] == Repaired(e);
      assert errs + more == prior + ((if Overdrawn(e) then [e.account.value] else []) + more);
    }
  }

  /** A repaired list needs no repair: repairing is idempotent and a second pass reports nothing. */
  lemma {:induction false} RepairIdempotent(rs: seq<LegacyRecovery>)
    ensures AllRepaired(AllRepaired(rs)) == AllRepaired(rs)
    ensures OverdrawnAccounts(AllRepaired(rs)) == []
  {
    if rs != [] {
      RepairIdempotent(rs[1..]);
      assert AllRepaired(rs)[1..] == AllRepaired(rs[1..]);
    }
  }

  /** Repairing bounds what an account with a balance can have unlocked, and touches nothing else. */
  lemma RepairBounds(r: LegacyRecovery)
    ensures var f := Repaired(r);
            && (f.account.Some? && f.balance.Some? && f.slowWallet.Some? ==>
                  f.slowWallet.value.unlocked <= f.balance.value)
            && f == r.(slowWallet := f.slowWallet)
            && (f.slowWallet.Some? <==> r.slowWallet.Some?)
            && (f.slowWallet.Some? ==> f.slowWallet.value.transferred == r.slowWallet.value.transferred
                                       && f.slowWallet.value.unlocked <= r.slowWallet.value.unlocked)
  {
  }

  // Dropped accounts -----------------------------------------------------------------------------------

  const TOMBSTONE: AuthKey :=
    [9, 9, 9, 9, 9, 9, 9, 9, 9, 9, 9, 9, 9, 9, 9, 9, 9, 9, 9, 9, 9, 9, 9, 9, 9, 9, 9, 9, 9, 9, 9, 9]

  predicate IsDropped(r: LegacyRecovery, drops: seq<Account>) {
    r.account.Some? && r.account.value in drops
  }

  function Buried(r: LegacyRecovery, drops: seq<Account>): LegacyRecovery {
    if IsDropped(r, drops) then DEFAULT.(account := r.account, authKey := Some(TOMBSTONE), role := Drop) else r
  }

  function AllBuried(rs: seq<LegacyRecovery>, drops: seq<Account>): seq<LegacyRecovery> {
    seq(|rs|, i requires 0 <= i < |rs| => Buried(rs[i], drops))
  }

  /** `drop_accounts`: replaces every dropped record in place by a default one that keeps the account only. */
  method DropAccounts(rs: array<LegacyRecovery>, drops: seq<Account>)
    modifies rs
    ensures rs[..] == AllBuried(old(rs[..]), drops)
  {
    ghost var before := rs[..];
    for i := 0 to rs.Length
      invariant rs[..i] == AllBuried(before, drops)[..i]
      invariant rs[i..] == before[i..]
    {
      var e := rs[i];
      assert e == before[i];
      if e.account.Some? {
        if e.account.value in drops {
          var dead := DEFAULT;
          dead := dead.(account := Some(e.account.value));
          dead := dead.(authKey := Some(TOMBSTONE));
          dead := dead.(role := Drop);
          rs[i] := dead;
        }
      }
      assert rs[i] == Buried(e, drops);
    }
  }

  // The same, field by field ----------------------------------------------------------------------------

  /** With account, balance and slow wallet there, the unlocked amount becomes the smaller of itself and the balance. */
  lemma RepairedExactly(r: LegacyRecovery)
    ensures r.account.Some? && r.balance.Some? && r.slowWallet.Some? ==>
              var (s, balance) := (r.slowWallet.value, r.balance.value);
              Repaired(r) == r.(slowWallet := Some(SlowWallet(if s.unlocked < balance then s.unlocked else balance, s.transferred)))
    ensures r.account.None? || r.balance.None? || r.slowWallet.None? ==> Repaired(r) == r
  {
  }

  /** The accounts of the records that differ, in the order of the records. */
  function ChangedAccounts(before: seq<LegacyRecovery>, after: seq<LegacyRecovery>): seq<Account>
    requires |before| == |after|
  {
    if before == [] then []
    else
      (if before[0] != after[0] && before[0].account.Some? then [before[0].account.value] else [])
      + ChangedAccounts(before[1..], after[1..])
  }

  /** The reported accounts are exactly those of the records that the repair changes. */
  lemma {:induction false} ReportedExactly(rs: seq<LegacyRecovery>)
    ensures OverdrawnAccounts(rs) == ChangedAccounts(rs, AllRepaired(rs))
    ensures forall i :: 0 <= i < |rs| && rs[i] != Repaired(rs[i]) ==> rs[i].account.Some?
  {
    if rs != [] {
      ReportedExactly(rs[1..]);
      assert AllRepaired(rs)[1..] == AllRepaired(rs[1..]);
      assert forall i :: 1 <= i < |rs| ==> rs[i] == rs[1..][i - 1];
    }
  }

  /** A dropped record keeps its account only, with the drop role and an unusable key. */
  lemma BuriedExactly(r: LegacyRecovery, drops: seq<Account>)
    ensures var b := Buried(r, drops);
      if r.account.Some? && r.account.value in drops then
        && b.account == r.account && b.role == Drop
        && b.authKey.Some? && |b.authKey.value| == 32 && (forall i :: 0 <= i < 32 ==> b.authKey.value[i] == 9)
        && b.balance.None? && !b.valCfg && !b.commWallet && b.ancestry.None? && b.receipts.None?
        && b.cumulativeDeposits.None? && b.slowWallet.None? && b.myPledge.None?
      else b == r
  {
  }
}
