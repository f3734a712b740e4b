/** Laws of completed migration traces. */
module MigrationLaws {
  import opened Base
  import opened Recovery
  import opened ParseJson
  import opened Supply
  import opened Migration

  /** The account a call is about: its second argument. */
  function Target(c: Call): Account {
    if |c.args| > 1 && (c.args[1].Signer? || c.args[1].Address?) then c.args[1].addr else ZERO
  }

  function CallsOn(t: seq<Call>, a: Account): seq<Call> {
    if t == [] then []
    else if Target(t[0]) == a then [t[0]] + CallsOn(t[1..], a)
    else CallsOn(t[1..], a)
  }

  lemma {:induction false} CallsOnAppend(s: seq<Call>, t: seq<Call>, a: Account)
    ensures CallsOn(s + t, a) == CallsOn(s, a) + CallsOn(t, a)
  {
    if s == [] {
      assert s + t == t;
    } else {
      assert (s + t)[1..] == s[1..] + t;
      CallsOnAppend(s[1..], t, a);
    }
  }

  predicate AllOn(t: seq<Call>, a: Account) {
    forall i :: 0 <= i < |t| ==> Target(t[i]) == a
  }

  lemma {:induction false} CallsOnAll(t: seq<Call>, a: Account, b: Account)
    requires AllOn(t, a)
    ensures CallsOn(t, b) == if a == b then t else []
  {
    if t != [] {
      CallsOnAll(t[1..], a, b);
      assert t == [t[0]] + t[1..];
    }
  }

  /** Every call of a record is about the record's own account; a record without account makes none. */
  lemma {:induction false} RecordCallsTarget(r: LegacyRecovery)
    ensures r.account.Some? ==> AllOn(RecordCalls(r), r.account.value)
    ensures r.account.None? ==> RecordCalls(r) == []
  {
    if r.account.Some? {
      var a := r.account.value;
      assert AllOn(UserCalls(r), a) && AllOn(SlowWalletCalls(r), a) && AllOn(CommunityWalletCalls(r), a);
      assert AllOn(AncestryCalls(r), a) && AllOn(ReceiptsCalls(r), a) && AllOn(EscrowCalls(r), a);
    }
  }

  lemma RecordCallsOn(r: LegacyRecovery, a: Account)
    ensures CallsOn(RecordCalls(r), a) == if r.account == Some(a) then RecordCalls(r) else []
  {
    RecordCallsTarget(r);
    if r.account.Some? {
      CallsOnAll(RecordCalls(r), r.account.value, a);
    }
  }

  predicate Mentions(rs: seq<LegacyRecovery>, a: Account) {
    exists i :: 0 <= i < |rs| && rs[i].account == Some(a)
  }

  lemma {:induction false} Unmentioned(rs: seq<LegacyRecovery>, a: Account)
    requires !Mentions(rs, a)
    ensures CallsOn(Trace(rs), a) == []
  {
    if rs != [] {
      assert rs[0].account != Some(a);
      RecordCallsOn(rs[0], a);
      CallsOnAppend(RecordCalls(rs[0]), Trace(rs[1..]), a);
      assert forall j :: 0 <= j < |rs| - 1 ==> rs[1..][j] == rs[j + 1];
      Unmentioned(rs[1..], a);
    }
  }

  /** With distinct accounts, the calls on an account are exactly those of its one record. */
  lemma {:induction false} CallsOfAccount(rs: seq<LegacyRecovery>, i: nat)
    requires DistinctAccounts(rs) && i < |rs| && rs[i].account.Some?
    ensures CallsOn(Trace(rs), rs[i].account.value) == RecordCalls(rs[i])
    decreases |rs|
  {
    hide RecordCalls, CallsOn;
    var a := rs[i].account.value;
    RecordCallsOn(rs[0], a);
    CallsOnAppend(RecordCalls(rs[0]), Trace(rs[1..]), a);
    if i == 0 {
      Unmentioned(rs[1..], a);
    } else {
      CallsOfAccount(rs[1..], i - 1);
    }
  }

  // One record -----------------------------------------------------------------------------------------

  predicate IsUserCall(c: Call) {
    c.functionName == "migrate_legacy_user"
  }

  /** The calls that need a migrated user. */
  predicate NeedsUser(c: Call) {
    c.functionName == "set_slow_wallet_state" || c.functionName == "fork_migrate" || c.functionName == "genesis_migrate_user"
  }

  function CountUserCalls(t: seq<Call>): nat {
    if t == [] then 0 else (if IsUserCall(t[0]) then 1 else 0) + CountUserCalls(t[1..])
  }

  lemma {:induction false} CountAppend(s: seq<Call>, t: seq<Call>)
    ensures CountUserCalls(s + t) == CountUserCalls(s) + CountUserCalls(t)
  {
    if s == [] {
      assert s + t == t;
    } else {
      assert (s + t)[1..] == s[1..] + t;
      CountAppend(s[1..], t);
    }
  }

  lemma {:induction false} CountNone(t: seq<Call>)
    requires forall i :: 0 <= i < |t| ==> !IsUserCall(t[i])
    ensures CountUserCalls(t) == 0
  {
    if t != [] { CountNone(t[1..]); }
  }

  function OtherCalls(r: LegacyRecovery): seq<Call> {
    SlowWalletCalls(r) + (CommunityWalletCalls(r) + (AncestryCalls(r) + (ReceiptsCalls(r) + EscrowCalls(r))))
  }

  lemma OtherCallsKinds(r: LegacyRecovery)
    ensures forall i :: 0 <= i < |OtherCalls(r)| ==> !IsUserCall(OtherCalls(r)[i])
    ensures !HasUser(r) ==> forall i :: 0 <= i < |OtherCalls(r)| ==> !NeedsUser(OtherCalls(r)[i])
  {
    hide HasUser;
    assert forall c :: c in SlowWalletCalls(r) ==> !IsUserCall(c) && HasUser(r);
    assert forall c :: c in CommunityWalletCalls(r) ==> !IsUserCall(c) && !NeedsUser(c);
    assert forall c :: c in AncestryCalls(r) ==> !IsUserCall(c) && HasUser(r);
    assert forall c :: c in ReceiptsCalls(r) ==> !IsUserCall(c) && HasUser(r);
    assert forall c :: c in EscrowCalls(r) ==> !IsUserCall(c) && !NeedsUser(c);
    forall i | 0 <= i < |OtherCalls(r)|
      ensures !IsUserCall(OtherCalls(r)[i]) && (!HasUser(r) ==> !NeedsUser(OtherCalls(r)[i]))
    {
      assert OtherCalls(r)[i] in OtherCalls(r);
    }
  }

  /**
   * A dropped account gets one tombstone and nothing else. Any other record with account, key and
   * balance gets exactly one user migration, first of all its calls; without them it gets none.
   */
  lemma RecordShape(r: LegacyRecovery)
    ensures IsTombstoned(r) ==> RecordCalls(r) == [TombstoneCall(r.account.value)]
    ensures !IsTombstoned(r) && HasUser(r) ==>
              && RecordCalls(r) == [UserCall(r.account.value, r.authKey.value, r.balance.value)] + OtherCalls(r)
              && CountUserCalls(RecordCalls(r)) == 1
    ensures IsTombstoned(r) || !HasUser(r) ==> CountUserCalls(RecordCalls(r)) == 0
  {
    OtherCallsKinds(r);
    CountNone(OtherCalls(r));
    if !IsTombstoned(r) {
      assert RecordCalls(r) == UserCalls(r) + OtherCalls(r);
      CountAppend(UserCalls(r), OtherCalls(r));
    }
  }

  /** In the trace of a list with distinct accounts, what one account receives. */
  lemma {:induction false} AccountShape(rs: seq<LegacyRecovery>, i: nat)
    requires DistinctAccounts(rs) && i < |rs| && rs[i].account.Some?
    ensures var calls := CallsOn(Trace(rs), rs[i].account.value);
            if IsTombstoned(rs[i]) then calls == [TombstoneCall(rs[i].account.value)]
            else CountUserCalls(calls) == (if HasUser(rs[i]) then 1 else 0)
  {
    CallsOfAccount(rs, i);
    RecordShape(rs[i]);
  }

  /** Dropping accounts before the migration leaves them nothing but their tombstones. */
  lemma DroppedGetTombstones(rs: seq<LegacyRecovery>, drops: seq<Account>, i: nat)
    requires DistinctAccounts(rs) && i < |rs| && IsDropped(rs[i], drops)
    ensures var a := rs[i].account.value;
            CallsOn(Trace(AllBuried(rs, drops)), a) == [TombstoneCall(a)]
  {
    var after := AllBuried(rs, drops);
    assert forall j :: 0 <= j < |rs| ==> after[j].account == rs[j].account;
    AccountShape(after, i);
  }

  // Order in the trace -----------------------------------------------------------------------------------

  /** An earlier call of the trace migrated this account. */
  predicate MigratedBefore(t: seq<Call>, i: nat, a: Account)
    requires i <= |t|
  {
    exists j :: 0 <= j < i && IsUserCall(t[j]) && Target(t[j]) == a
  }

  predicate UsersFirst(t: seq<Call>) {
    forall i: nat :: i < |t| && NeedsUser(t[i]) ==> MigratedBefore(t, i, Target(t[i]))
  }

  lemma UsersFirstAppend(s: seq<Call>, t: seq<Call>)
    requires UsersFirst(s) && UsersFirst(t)
    ensures UsersFirst(s + t)
  {
    forall i: nat | i < |s + t| && NeedsUser((s + t)[i])
      ensures MigratedBefore(s + t, i, Target((s + t)[i]))
    {
      var a := Target((s + t)[i]);
      if i < |s| {
        assert MigratedBefore(s, i, a);
        var j :| 0 <= j < i && IsUserCall(s[j]) && Target(s[j]) == a;
        assert (s + t)[j] == s[j];
      } else {
        assert MigratedBefore(t, i - |s|, a);
        var j :| 0 <= j < i - |s| && IsUserCall(t[j]) && Target(t[j]) == a;
        assert (s + t)[|s| + j] == t[j];
      }
    }
  }

  lemma RecordUsersFirst(r: LegacyRecovery)
    ensures UsersFirst(RecordCalls(r))
  {
    RecordShape(r);
    OtherCallsKinds(r);
    RecordCallsTarget(r);
    var t := RecordCalls(r);
    if !IsTombstoned(r) && HasUser(r) {
      forall i: nat | i < |t| && NeedsUser(t[i])
        ensures MigratedBefore(t, i, Target(t[i]))
      {
        assert IsUserCall(t[0]) && !NeedsUser(t[0]) && Target(t[0]) == r.account.value == Target(t[i]);
      }
    } else if !IsTombstoned(r) {
      assert t == UserCalls(r) + OtherCalls(r) == OtherCalls(r);
    }
  }

  /** Every slow-wallet, ancestry or receipts call follows the user migration of the same account. */
  lemma {:induction false} TraceUsersFirst(rs: seq<LegacyRecovery>)
    ensures UsersFirst(Trace(rs))
  {
    if rs != [] {
      RecordUsersFirst(rs[0]);
      TraceUsersFirst(rs[1..]);
      UsersFirstAppend(RecordCalls(rs[0]), Trace(rs[1..]));
    }
  }

  // Balances -----------------------------------------------------------------------------------------------

  function CallBalance(c: Call): nat {
    if IsUserCall(c) && |c.args| == 4 && c.args[3].U64? then c.args[3].n else 0
  }

  /** The balances passed to user migrations. */
  function MigratedBalance(t: seq<Call>): nat {
    if t == [] then 0 else CallBalance(t[0]) + MigratedBalance(t[1..])
  }

  lemma {:induction false} MigratedAppend(s: seq<Call>, t: seq<Call>)
    ensures MigratedBalance(s + t) == MigratedBalance(s) + MigratedBalance(t)
  {
    if s == [] {
      assert s + t == t;
    } else {
      assert (s + t)[1..] == s[1..] + t;
      MigratedAppend(s[1..], t);
    }
  }

  lemma {:induction false} MigratedNone(t: seq<Call>)
    requires forall i :: 0 <= i < |t| ==> !IsUserCall(t[i])
    ensures MigratedBalance(t) == 0
  {
    if t != [] { MigratedNone(t[1..]); }
  }

  /** A balance that no user migration carries over: the record is dropped or lacks an account or a key. */
  function StrandedBalance(r: LegacyRecovery): int {
    if IsTombstoned(r) || r.account.None? || r.authKey.None? then BalanceOf(r) else 0
  }

  lemma RecordBalance(r: LegacyRecovery)
    ensures MigratedBalance(RecordCalls(r)) + StrandedBalance(r) == BalanceOf(r)
  {
    RecordShape(r);
    OtherCallsKinds(r);
    MigratedNone(OtherCalls(r));
    if !IsTombstoned(r) {
      assert RecordCalls(r) == UserCalls(r) + OtherCalls(r);
      MigratedAppend(UserCalls(r), OtherCalls(r));
    }
  }

  /** Conservation: the total supply is what the trace migrates plus what it strands. */
  lemma {:induction false} BalancesConserved(rs: seq<LegacyRecovery>)
    ensures MigratedBalance(Trace(rs)) + Sum(rs, StrandedBalance) == StatsOf(rs).total
  {
    if rs != [] {
      RecordBalance(rs[0]);
      BalancesConserved(rs[1..]);
      MigratedAppend(RecordCalls(rs[0]), Trace(rs[1..]));
    }
  }

  lemma {:induction false} StrandedZero(rs: seq<LegacyRecovery>)
    ensures Sum(rs, StrandedBalance) >= 0
    ensures Sum(rs, StrandedBalance) == 0 <==> forall r :: r in rs ==> StrandedBalance(r) == 0
  {
    if rs != [] {
      StrandedZero(rs[1..]);
      assert StrandedBalance(rs[0]) >= 0 && rs == [rs[0]] + rs[1..];
    }
  }

  /**
   * The migrated balances are the whole supply exactly when every record that holds coins has an
   * account and a key and is not dropped.
   */
  lemma {:induction false} WholeSupplyMigrated(rs: seq<LegacyRecovery>)
    ensures MigratedBalance(Trace(rs)) == StatsOf(rs).total
       <==> forall r :: r in rs && BalanceOf(r) > 0 ==> r.account.Some? && r.authKey.Some? && r.role != Drop
  {
    hide Sum, MigratedBalance, Trace;
    BalancesConserved(rs);
    StrandedZero(rs);
    assert forall r :: StrandedBalance(r) == 0 <==>
             (BalanceOf(r) > 0 ==> r.account.Some? && r.authKey.Some? && r.role != Drop);
  }
}
