/** Supply statistics of a recovery list, in exact arithmetic. */
module Supply {
  import opened Base
  import opened Recovery
  import opened ParseJson

  function BalanceOf(r: LegacyRecovery): int {
    if r.balance.Some? then r.balance.value else 0
  }

  datatype Stats = Stats(
    total: int, normal: int, validator: int,
    slowTotal: int, slowLocked: int, slowValidatorLocked: int, slowUnlocked: int)

  class Supply {
    var total: int
    var normal: int
    var validator: int
    var slowTotal: int
    var slowLocked: int
    var slowValidatorLocked: int
    var slowUnlocked: int

    ghost function Snapshot(): Stats
      reads this
    {
      Stats(total, normal, validator, slowTotal, slowLocked, slowValidatorLocked, slowUnlocked)
    }

    constructor ()
      ensures Snapshot() == Stats(0, 0, 0, 0, 0, 0, 0)
    {
      total, normal, validator := 0, 0, 0;
      slowTotal, slowLocked, slowValidatorLocked, slowUnlocked := 0, 0, 0, 0;
    }

    /** `inc_supply`: each field grows by what the record contributes to it. */
    method IncSupply(r: LegacyRecovery)
      modifies this
      ensures Snapshot() == Plus(old(Snapshot()), r)
    {
      var userTotal := if r.balance.Some? then r.balance.value else 0;
      total := total + userTotal;
      if r.slowWallet.Some? {
        var sl := r.slowWallet.value;
        slowTotal := slowTotal + userTotal;
        if sl.unlocked > 0 {
          if userTotal > sl.unlocked {
            slowUnlocked := slowUnlocked + sl.unlocked;
            var locked := userTotal - sl.unlocked;
            slowLocked := slowLocked + locked;
            if r.valCfg {
              validator := validator + userTotal;
              slowValidatorLocked := slowValidatorLocked + locked;
            }
          } else {
            slowUnlocked := slowUnlocked + userTotal;
          }
        }
      } else if r.cumulativeDeposits.Some? {
        slowLocked := slowLocked + userTotal;
        slowTotal := slowTotal + userTotal;
      } else {
        normal := normal + userTotal;
      }
    }
  }

  // What a record contributes to each field ------------------------------------------------------------

  predicate IsSlow(r: LegacyRecovery) {
    r.slowWallet.Some? || r.cumulativeDeposits.Some?
  }

  function NormalPart(r: LegacyRecovery): int {
    if IsSlow(r) then 0 else BalanceOf(r)
  }

  function SlowPart(r: LegacyRecovery): int {
    if IsSlow(r) then BalanceOf(r) else 0
  }

  /** The smaller of the unlocked amount and the balance. */
  function UnlockedPart(r: LegacyRecovery): int {
    if r.slowWallet.None? then 0
    else if r.slowWallet.value.unlocked < BalanceOf(r) then r.slowWallet.value.unlocked
    else BalanceOf(r)
  }

  /** The balance of a slow wallet that has unlocked nothing yet: counted neither as locked nor as unlocked. */
  function IdlePart(r: LegacyRecovery): int {
    if r.slowWallet.Some? && r.slowWallet.value.unlocked == 0 then BalanceOf(r) else 0
  }

  function LockedPart(r: LegacyRecovery): int {
    SlowPart(r) - UnlockedPart(r) - IdlePart(r)
  }

  /** Only a validator with something unlocked and something locked. */
  predicate IsSlowValidator(r: LegacyRecovery) {
    r.slowWallet.Some? && r.valCfg && 0 < r.slowWallet.value.unlocked < BalanceOf(r)
  }

  function ValidatorPart(r: LegacyRecovery): int {
    if IsSlowValidator(r) then BalanceOf(r) else 0
  }

  function ValidatorLockedPart(r: LegacyRecovery): int {
    if IsSlowValidator(r) then LockedPart(r) else 0
  }

  ghost function Plus(s: Stats, r: LegacyRecovery): Stats {
    Stats(
      s.total + BalanceOf(r), s.normal + NormalPart(r), s.validator + ValidatorPart(r),
      s.slowTotal + SlowPart(r), s.slowLocked + LockedPart(r),
      s.slowValidatorLocked + ValidatorLockedPart(r), s.slowUnlocked + UnlockedPart(r))
  }

  ghost function StatsOf(rs: seq<LegacyRecovery>): Stats {
    Stats(
      Sum(rs, BalanceOf), Sum(rs, NormalPart), Sum(rs, ValidatorPart),
      Sum(rs, SlowPart), Sum(rs, LockedPart), Sum(rs, ValidatorLockedPart), Sum(rs, UnlockedPart))
  }

  lemma StatsStep(rs: seq<LegacyRecovery>, i: nat)
    requires i < |rs|
    ensures StatsOf(rs[..i + 1]) == Plus(StatsOf(rs[..i]), rs[i])
  {
    SumPrefix(rs, i, BalanceOf);
    SumPrefix(rs, i, NormalPart);
    SumPrefix(rs, i, ValidatorPart);
    SumPrefix(rs, i, SlowPart);
    SumPrefix(rs, i, LockedPart);
    SumPrefix(rs, i, ValidatorLockedPart);
    SumPrefix(rs, i, UnlockedPart);
  }

  /** `populate_supply_stats_from_legacy`. */
  method PopulateSupplyStats(rs: seq<LegacyRecovery>) returns (supply: Supply)
    ensures fresh(supply) && supply.Snapshot() == StatsOf(rs)
  {
    supply := new Supply();
    for i := 0 to |rs|
      invariant fresh(supply) && supply.Snapshot() == StatsOf(rs[..i])
    {
      StatsStep(rs, i);
      supply.IncSupply(rs[i]);
    }
    assert rs[..|rs|] == rs;
  }

  // Identities ------------------------------------------------------------------------------------------

  lemma {:induction false} SumIdentity(rs: seq<LegacyRecovery>)
    ensures Sum(rs, BalanceOf) == Sum(rs, NormalPart) + Sum(rs, SlowPart)
    ensures Sum(rs, SlowPart) == Sum(rs, LockedPart) + Sum(rs, UnlockedPart) + Sum(rs, IdlePart)
    ensures 0 <= Sum(rs, ValidatorLockedPart) <= Sum(rs, LockedPart)
    ensures Sum(rs, ValidatorLockedPart) <= Sum(rs, ValidatorPart) <= Sum(rs, SlowPart)
    ensures 0 <= Sum(rs, UnlockedPart) && 0 <= Sum(rs, IdlePart) && 0 <= Sum(rs, NormalPart)
  {
    if rs != [] {
      SumIdentity(rs[1..]);
    }
  }

  /**
   * Every coin is in exactly one class: normal, locked, unlocked or idle; the validator figures are
   * parts of the slow ones.
   */
  lemma {:induction false} SupplySplits(rs: seq<LegacyRecovery>)
    ensures var s := StatsOf(rs);
            && s.total == s.normal + s.slowTotal
            && s.slowTotal == s.slowLocked + s.slowUnlocked + Sum(rs, IdlePart)
            && 0 <= s.slowValidatorLocked <= s.slowLocked && s.slowValidatorLocked <= s.validator <= s.slowTotal
  {
    SumIdentity(rs);
  }

  /** The statistics do not depend on the order of the records. */
  lemma StatsPermutation(a: seq<LegacyRecovery>, b: seq<LegacyRecovery>)
    requires multiset(a) == multiset(b)
    ensures StatsOf(a) == StatsOf(b)
  {
    SumPermutation(a, b, BalanceOf);
    SumPermutation(a, b, NormalPart);
    SumPermutation(a, b, ValidatorPart);
    SumPermutation(a, b, SlowPart);
    SumPermutation(a, b, LockedPart);
    SumPermutation(a, b, ValidatorLockedPart);
    SumPermutation(a, b, UnlockedPart);
  }

  /** Repairing slow wallets changes no statistic. */
  lemma {:induction false} RepairKeepsStats(rs: seq<LegacyRecovery>)
    ensures StatsOf(AllRepaired(rs)) == StatsOf(rs)
  {
    if rs != [] {
      RepairKeepsStats(rs[1..]);
      assert AllRepaired(rs)[1..] == AllRepaired(rs[1..]);
      RepairKeepsParts(rs[0]);
    }
  }

  lemma RepairKeepsParts(r: LegacyRecovery)
    ensures Plus(Stats(0, 0, 0, 0, 0, 0, 0), Repaired(r)) == Plus(Stats(0, 0, 0, 0, 0, 0, 0), r)
  {
  }

  /** Dropping accounts removes exactly their balances from the total. */
  lemma {:induction false} DropLowersTotal(rs: seq<LegacyRecovery>, drops: seq<Account>)
    ensures Sum(AllBuried(rs, drops), BalanceOf)
         == Sum(rs, BalanceOf) - Sum(rs, r => if IsDropped(r, drops) then BalanceOf(r) else 0)
  {
    if rs != [] {
      DropLowersTotal(rs[1..], drops);
      assert AllBuried(rs, drops)[1..] == AllBuried(rs[1..], drops);
    }
  }

  /** What one record adds, case by case, in the order total, normal, validator and the four slow figures. */
  lemma OneRecord(r: LegacyRecovery)
    ensures var balance := if r.balance.Some? then r.balance.value else 0;
      StatsOf([r]) ==
        if r.slowWallet.None? then
          if r.cumulativeDeposits.None? then Stats(balance, balance, 0, 0, 0, 0, 0)
          else Stats(balance, 0, 0, balance, balance, 0, 0)
        else
          var unlocked := r.slowWallet.value.unlocked;
          if unlocked == 0 then Stats(balance, 0, 0, balance, 0, 0, 0)
          else if unlocked >= balance then Stats(balance, 0, 0, balance, 0, 0, balance)
          else if r.valCfg then
            Stats(balance, 0, balance, balance, balance - unlocked, balance - unlocked, unlocked)
          else Stats(balance, 0, 0, balance, balance - unlocked, 0, unlocked)
  {
    assert forall f :: Sum([r], f) == f(r) by {
      forall f: LegacyRecovery -> int
        ensures Sum([r], f) == f(r)
      {
        assert [r][1..] == [];
      }
    }
  }

  /** Lists add up. */
  lemma StatsAppend(a: seq<LegacyRecovery>, b: seq<LegacyRecovery>)
    ensures var (s, t) := (StatsOf(a), StatsOf(b));
      StatsOf(a + b) == Stats(s.total + t.total, s.normal + t.normal, s.validator + t.validator, s.slowTotal + t.slowTotal,
        s.slowLocked + t.slowLocked, s.slowValidatorLocked + t.slowValidatorLocked, s.slowUnlocked + t.slowUnlocked)
  {
    SumAppend(a, b, BalanceOf);
    SumAppend(a, b, NormalPart);
    SumAppend(a, b, ValidatorPart);
    SumAppend(a, b, SlowPart);
    SumAppend(a, b, LockedPart);
    SumAppend(a, b, ValidatorLockedPart);
    SumAppend(a, b, UnlockedPart);
  }
}
