/** The manifest of a transaction backup: chunks of version ranges, inclusive on both sides. */
module TransactionManifest {
  import opened Base

  datatype Chunk = Chunk(first: U64, last: U64)

  datatype TransactionBackup = TransactionBackup(first: U64, last: U64, chunks: seq<Chunk>)

  datatype Problem =
    | BadVersionRange
    | NoChunks
    | NotContinuous(index: nat)
    | InvalidRange(index: nat)
    | Overflow(index: nat)
    | LastMismatch

  predicate Contains(c: Chunk, v: int) {
    c.first <= v <= c.last
  }

  /** The first `n` chunks are non-empty and each starts right behind the one before, from `start` on. */
  predicate Chained(chunks: seq<Chunk>, n: nat, start: int)
    requires n <= |chunks|
  {
    forall i :: 0 <= i < n ==> Links(chunks, i, start)
  }

  predicate Links(chunks: seq<Chunk>, i: nat, start: int)
    requires i < |chunks|
  {
    chunks[i].first <= chunks[i].last && chunks[i].first == Expected(chunks, i, start)
  }

  function Expected(chunks: seq<Chunk>, i: nat, start: int): int
    requires i <= |chunks|
  {
    if i == 0 then start else chunks[i - 1].last + 1
  }

  predicate Tiles(m: TransactionBackup) {
    && m.first <= m.last && m.chunks != []
    && Chained(m.chunks, |m.chunks|, m.first)
    && m.chunks[|m.chunks| - 1].last == m.last
  }

  // The check as it is computed, in 64 bits -----------------------------------------------------------------

  /** `last_version + 1` in a build that does not check for overflow. */
  function Successor(n: U64): U64 {
    if n == U64_MAX then 0 else n + 1
  }

  function NextVersion(chunks: seq<Chunk>, i: nat, start: U64): U64
    requires i <= |chunks|
  {
    if i == 0 then start else Successor(chunks[i - 1].last)
  }

  predicate Passes(chunks: seq<Chunk>, i: nat, start: U64)
    requires i < |chunks|
  {
    chunks[i].first == NextVersion(chunks, i, start) && chunks[i].first <= chunks[i].last
  }

  predicate PassesUpTo(chunks: seq<Chunk>, n: nat, start: U64)
    requires n <= |chunks|
  {
    forall i :: 0 <= i < n ==> Passes(chunks, i, start)
  }

  /** What the loop and the checks around it accept when 64-bit additions wrap around. */
  predicate Accepted(m: TransactionBackup) {
    && m.first <= m.last && m.chunks != []
    && PassesUpTo(m.chunks, |m.chunks|, m.first)
    && m.chunks[|m.chunks| - 1].last == m.last
  }

  /** None of the first `n` chunks ends at the largest version. */
  predicate Below(chunks: seq<Chunk>, n: nat)
    requires n <= |chunks|
  {
    forall i :: 0 <= i < n ==> chunks[i].last < U64_MAX
  }

  /** The loop has got past the first `n` chunks. */
  predicate Reaches(m: TransactionBackup, n: nat, checked: bool)
    requires n <= |m.chunks|
  {
    m.first <= m.last && PassesUpTo(m.chunks, n, m.first) && (checked ==> Below(m.chunks, n))
  }

  /** What each reported problem says about the manifest; earlier checks have passed. */
  ghost predicate Explains(p: Problem, m: TransactionBackup, checked: bool) {
    match p
    case BadVersionRange => m.first > m.last
    case NoChunks => m.first <= m.last && m.chunks == []
    case NotContinuous(i) =>
      i < |m.chunks| && Reaches(m, i, checked) && m.chunks[i].first != NextVersion(m.chunks, i, m.first)
    case InvalidRange(i) =>
      i < |m.chunks| && Reaches(m, i, checked)
      && m.chunks[i].first == NextVersion(m.chunks, i, m.first) && m.chunks[i].last < m.chunks[i].first
    case Overflow(i) =>
      checked && i < |m.chunks| && Reaches(m, i, checked) && Passes(m.chunks, i, m.first) && m.chunks[i].last == U64_MAX
    case LastMismatch =>
      m.chunks != [] && Reaches(m, |m.chunks|, checked) && m.chunks[|m.chunks| - 1].last != m.last
  }

  /**
   * `verify`. In a build that checks arithmetic, `last_version + 1` panics at the largest version, which is
   * the problem `Overflow`; in one that does not, both that addition and the subtraction that undoes it wrap.
   */
  method Verify(m: TransactionBackup, checked: bool) returns (r: Result<(), Problem>)
    ensures r.Ok? <==> Accepted(m) && (checked ==> Below(m.chunks, |m.chunks|))
    ensures r.Err? ==> Explains(r.error, m, checked)
  {
    if m.first > m.last {
      return Err(BadVersionRange);
    }
    if m.chunks == [] {
      return Err(NoChunks);
    }
    var nextVersion: U64 := m.first;
    for i := 0 to |m.chunks|
      invariant PassesUpTo(m.chunks, i, m.first) && (checked ==> Below(m.chunks, i))
      invariant nextVersion == NextVersion(m.chunks, i, m.first)
    {
      var chunk := m.chunks[i];
      if chunk.first != nextVersion {
        assert !Passes(m.chunks, i, m.first);
        return Err(NotContinuous(i));
      }
      if chunk.last < chunk.first {
        assert !Passes(m.chunks, i, m.first);
        return Err(InvalidRange(i));
      }
      if checked && chunk.last == U64_MAX {
        return Err(Overflow(i));
      }
      nextVersion := Successor(chunk.last);
    }
    var covered: U64 := if nextVersion == 0 then U64_MAX else nextVersion - 1;
    if covered != m.last {
      return Err(LastMismatch);
    }
    r := Ok(());
  }

  /** At most one problem explains a refusal, and none an accepted manifest: the report names the first check that fails. */
  lemma ExplainedOnce(m: TransactionBackup, checked: bool, p: Problem, q: Problem)
    requires Explains(p, m, checked)
    ensures Explains(q, m, checked) ==> p == q
    ensures !(Accepted(m) && (checked ==> Below(m.chunks, |m.chunks|)))
  {
    var i := At(p, m);
    var j := At(q, m);
    if Explains(q, m, checked) && i < |m.chunks| {
      assert i < j ==> Passes(m.chunks, i, m.first);
    }
    if Explains(q, m, checked) && j < |m.chunks| {
      assert j < i ==> Passes(m.chunks, j, m.first);
    }
    if Accepted(m) && i < |m.chunks| {
      assert Passes(m.chunks, i, m.first);
    }
  }

  /** The chunk at which a problem is found; their number for one that concerns the whole manifest. */
  function At(p: Problem, m: TransactionBackup): nat {
    match p
    case NotContinuous(i) => i
    case InvalidRange(i) => i
    case Overflow(i) => i
    case _ => |m.chunks|
  }

  /** A manifest is a tiling exactly when the wrapping check accepts it and no chunk but the last ends at the largest version. */
  lemma TilesExactly(m: TransactionBackup)
    ensures Tiles(m) <==> Accepted(m) && (m.chunks != [] ==> Below(m.chunks, |m.chunks| - 1))
  {
    if Tiles(m) {
      forall i | 0 <= i < |m.chunks|
        ensures Passes(m.chunks, i, m.first) && (i < |m.chunks| - 1 ==> m.chunks[i].last < U64_MAX)
      {
        assert Links(m.chunks, i, m.first);
        if i > 0 {
          assert Links(m.chunks, i - 1, m.first);
        }
        if i < |m.chunks| - 1 {
          assert Links(m.chunks, i + 1, m.first);
        }
      }
    }
    if Accepted(m) && Below(m.chunks, |m.chunks| - 1) {
      forall i | 0 <= i < |m.chunks|
        ensures Links(m.chunks, i, m.first)
      {
        assert Passes(m.chunks, i, m.first);
      }
    }
  }

  /** A build that checks arithmetic accepts exactly the tilings that end below the largest version. */
  lemma CheckedTilesExactly(m: TransactionBackup)
    ensures Accepted(m) && Below(m.chunks, |m.chunks|) <==> Tiles(m) && m.last < U64_MAX
  {
    TilesExactly(m);
  }

  /** One that does not accepts more: behind a chunk that ends at the largest version, another starts from zero. */
  lemma WrappedManifest()
    ensures var m := TransactionBackup(5, 7, [Chunk(5, U64_MAX), Chunk(0, 7)]);
      Accepted(m) && !Tiles(m)
  {
    var m := TransactionBackup(5, 7, [Chunk(5, U64_MAX), Chunk(0, 7)]);
    assert !Links(m.chunks, 1, m.first);
  }

  // What a passing manifest means ----------------------------------------------------------------------

  predicate Ascending(chunks: seq<Chunk>) {
    && (forall i :: 0 <= i < |chunks| ==> chunks[i].first <= chunks[i].last)
    && (forall i, j :: 0 <= i < j < |chunks| ==> chunks[i].last < chunks[j].first)
  }

  predicate Covered(chunks: seq<Chunk>, v: int) {
    exists i :: 0 <= i < |chunks| && Contains(chunks[i], v)
  }

  /** Ascending, disjoint, non-empty chunks whose union is the manifest's range. */
  ghost predicate Partition(m: TransactionBackup) {
    && m.first <= m.last && Ascending(m.chunks)
    && forall v :: Covered(m.chunks, v) <==> m.first <= v <= m.last
  }

  lemma {:induction false} ChainedFrom(chunks: seq<Chunk>, n: nat, start: int, i: nat)
    requires i < n <= |chunks| && Chained(chunks, n, start)
    ensures start <= chunks[i].first
  {
    assert Links(chunks, i, start);
    if i > 0 {
      assert Links(chunks, i - 1, start);
      ChainedFrom(chunks, n, start, i - 1);
    }
  }

  lemma {:induction false} ChainedAscending(chunks: seq<Chunk>, n: nat, start: int, i: nat, j: nat)
    requires n <= |chunks| && Chained(chunks, n, start) && i < j < n
    ensures chunks[i].last < chunks[j].first
    decreases j
  {
    assert Links(chunks, j, start) && Links(chunks, j - 1, start);
    if i < j - 1 {
      ChainedAscending(chunks, n, start, i, j - 1);
    }
  }

  lemma {:induction false} ChainedCovers(chunks: seq<Chunk>, n: nat, start: int, v: int)
    requires 0 < n <= |chunks| && Chained(chunks, n, start)
    requires start <= v <= chunks[n - 1].last
    ensures exists i :: 0 <= i < n && Contains(chunks[i], v)
    decreases n
  {
    assert Links(chunks, n - 1, start);
    if v >= chunks[n - 1].first {
      assert Contains(chunks[n - 1], v);
    } else {
      assert n > 1;
      ChainedCovers(chunks, n - 1, start, v);
    }
  }

  lemma TilesAscending(m: TransactionBackup)
    requires Tiles(m)
    ensures Ascending(m.chunks)
  {
    forall i: nat | i < |m.chunks|
      ensures m.chunks[i].first <= m.chunks[i].last
    {
      assert Links(m.chunks, i, m.first);
    }
    forall i: nat, j: nat | i < j < |m.chunks|
      ensures m.chunks[i].last < m.chunks[j].first
    {
      ChainedAscending(m.chunks, |m.chunks|, m.first, i, j);
    }
  }

  lemma TilesInside(m: TransactionBackup, i: nat)
    requires Tiles(m) && i < |m.chunks|
    ensures m.first <= m.chunks[i].first && m.chunks[i].last <= m.last
  {
    var z := |m.chunks| - 1;
    ChainedFrom(m.chunks, |m.chunks|, m.first, i);
    assert Links(m.chunks, z, m.first);
    if i < z {
      ChainedAscending(m.chunks, |m.chunks|, m.first, i, z);
    }
  }

  lemma TilesPartition(m: TransactionBackup)
    requires Tiles(m)
    ensures Partition(m)
  {
    TilesAscending(m);
    forall v
      ensures Covered(m.chunks, v) <==> m.first <= v <= m.last
    {
      if m.first <= v <= m.last {
        ChainedCovers(m.chunks, |m.chunks|, m.first, v);
      }
      if Covered(m.chunks, v) {
        var i :| 0 <= i < |m.chunks| && Contains(m.chunks[i], v);
        TilesInside(m, i);
      }
    }
  }

  lemma CoveredByEnds(m: TransactionBackup, i: nat)
    requires Partition(m) && i < |m.chunks|
    ensures m.first <= m.chunks[i].first && m.chunks[i].last <= m.last
  {
    assert Contains(m.chunks[i], m.chunks[i].first) && Contains(m.chunks[i], m.chunks[i].last);
    assert Covered(m.chunks, m.chunks[i].first) && Covered(m.chunks, m.chunks[i].last);
  }

  lemma PartitionHasNoGap(m: TransactionBackup, i: nat)
    requires Partition(m) && 0 < i < |m.chunks|
    ensures m.chunks[i].first == m.chunks[i - 1].last + 1
  {
    var v := m.chunks[i - 1].last + 1;
    CoveredByEnds(m, i - 1);
    CoveredByEnds(m, i);
    assert m.chunks[i - 1].last < m.chunks[i].first;
    assert Covered(m.chunks, v);
    var j :| 0 <= j < |m.chunks| && Contains(m.chunks[j], v);
  }

  lemma PartitionEnds(m: TransactionBackup)
    requires Partition(m)
    ensures m.chunks != [] && m.chunks[0].first == m.first && m.chunks[|m.chunks| - 1].last == m.last
  {
    var n := |m.chunks|;
    assert Covered(m.chunks, m.first) && Covered(m.chunks, m.last);
    var a :| 0 <= a < n && Contains(m.chunks[a], m.first);
    var z :| 0 <= z < n && Contains(m.chunks[z], m.last);
    CoveredByEnds(m, 0);
    CoveredByEnds(m, n - 1);
  }

  lemma PartitionTiles(m: TransactionBackup)
    requires Partition(m)
    ensures Tiles(m)
  {
    PartitionEnds(m);
    forall i: nat | i < |m.chunks|
      ensures Links(m.chunks, i, m.first)
    {
      if i > 0 { PartitionHasNoGap(m, i); }
    }
  }

  /** Tilings are exactly the ordered partitions of the range. */
  lemma TilesIffPartition(m: TransactionBackup)
    ensures Tiles(m) <==> Partition(m)
  {
    if Tiles(m) { TilesPartition(m); }
    if Partition(m) { PartitionTiles(m); }
  }

  /** In an accepted manifest every version of the range is in exactly one chunk. */
  lemma OneChunkPerVersion(m: TransactionBackup, v: int) returns (i: nat)
    requires Tiles(m) && m.first <= v <= m.last
    ensures i < |m.chunks| && Contains(m.chunks[i], v)
    ensures forall j :: 0 <= j < |m.chunks| && Contains(m.chunks[j], v) ==> j == i
  {
    TilesPartition(m);
    assert Covered(m.chunks, v);
    i :| 0 <= i < |m.chunks| && Contains(m.chunks[i], v);
  }

  function TotalSize(chunks: seq<Chunk>, n: nat): int
    requires n <= |chunks|
  {
    if n == 0 then 0 else TotalSize(chunks, n - 1) + (chunks[n - 1].last - chunks[n - 1].first + 1)
  }

  lemma {:induction false} ChainedSize(chunks: seq<Chunk>, n: nat, start: int)
    requires n <= |chunks| && Chained(chunks, n, start)
    ensures TotalSize(chunks, n) == Expected(chunks, n, start) - start
  {
    if n > 0 {
      ChainedSize(chunks, n - 1, start);
      assert Links(chunks, n - 1, start);
    }
  }

  /** The chunk sizes of an accepted manifest add up to the size of its range. */
  lemma SizesAddUp(m: TransactionBackup)
    requires Tiles(m)
    ensures TotalSize(m.chunks, |m.chunks|) == m.last - m.first + 1
  {
    ChainedSize(m.chunks, |m.chunks|, m.first);
  }
}
