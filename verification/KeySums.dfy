/** Sums over the keys of a map, which do not depend on the order in which the keys are taken. */
module KeySums {
  import opened Base
  import opened Recovery
  import opened CommWallet

  function SumOver(f: Account -> int, s: set<Account>): int {
    if s == {} then 0
    else
      var k := Minimum(s);
      f(k) + SumOver(f, s - {k})
  }

  /** Any of the keys may be counted first. */
  lemma {:induction false} SumOverAny(f: Account -> int, s: set<Account>, x: Account)
    requires x in s
    ensures SumOver(f, s) == f(x) + SumOver(f, s - {x})
    decreases |s|
  {
    var k := Minimum(s);
    if x != k {
      SumOverAny(f, s - {k}, x);
      SumOverAny(f, s - {x}, k);
      assert s - {k} - {x} == s - {x} - {k};
    }
  }

  lemma {:induction false} SumOverSame(f: Account -> int, g: Account -> int, s: set<Account>)
    requires forall k :: k in s ==> f(k) == g(k)
    ensures SumOver(f, s) == SumOver(g, s)
    decreases |s|
  {
    if s != {} {
      SumOverSame(f, g, s - {Minimum(s)});
    }
  }

  /** One key more, or a key whose value changes. */
  lemma SumOverUpdate(f: Account -> int, g: Account -> int, s: set<Account>, x: Account)
    requires forall k :: k in s && k != x ==> f(k) == g(k)
    ensures SumOver(g, s + {x}) == SumOver(f, s) - (if x in s then f(x) else 0) + g(x)
  {
    var others := s - {x};
    SumOverAny(g, s + {x}, x);
    assert (s + {x}) - {x} == others;
    SumOverSame(f, g, others);
    if x in s {
      SumOverAny(f, s, x);
    } else {
      assert others == s;
    }
  }

  function SumSeq(f: Account -> int, ks: seq<Account>): int {
    if ks == [] then 0 else f(ks[0]) + SumSeq(f, ks[1..])
  }

  lemma {:induction false} SumSorted(f: Account -> int, s: set<Account>)
    ensures SumSeq(f, SortedKeys(s)) == SumOver(f, s)
    decreases |s|
  {
    hide StrictlyAscending;
    if s != {} {
      var k := Minimum(s);
      SumSorted(f, s - {k});
      assert ([k] + SortedKeys(s - {k}))[1..] == SortedKeys(s - {k});
    }
  }

  lemma {:induction false} SumSnoc(f: Account -> int, ks: seq<Account>, k: Account)
    ensures SumSeq(f, ks + [k]) == SumSeq(f, ks) + f(k)
  {
    if ks == [] {
      assert [] + [k] == [k] && [k][1..] == [];
    } else {
      SumSnoc(f, ks[1..], k);
      assert (ks + [k])[1..] == ks[1..] + [k];
    }
  }
}
