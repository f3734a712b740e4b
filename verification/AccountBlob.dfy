/** Account states: BCS maps from access vectors to resource bytes. */
module AccountBlob {
  import opened Base
  import opened Bcs
  import opened LanguageStorage
  import SafeSerialize

  type Key = seq<Byte>
  type AccountState = map<Key, seq<Byte>>

  datatype Entry = Entry(key: Key, value: seq<Byte>)

  /** BCS specification, "Maps (Key / Value Stores)": entries ascend by the encoding of their keys. */
  predicate Before(a: Key, b: Key) {
    LexLess(BytesEnc(a), BytesEnc(b))
  }

  predicate FitsEntry(e: Entry) {
    FitsLen(|e.key|) && FitsLen(|e.value|)
  }

  predicate FitsState(m: AccountState) {
    FitsLen(|m|) && forall k :: k in m ==> FitsEntry(Entry(k, m[k]))
  }

  lemma BeforeTotal(a: Key, b: Key)
    requires FitsLen(|a|) && FitsLen(|b|)
    ensures a == b || Before(a, b) || Before(b, a)
  {
    LexTotal(BytesEnc(a), BytesEnc(b));
    if BytesEnc(a) == BytesEnc(b) {
      BytesRoundTrip(a, []);
      BytesRoundTrip(b, []);
      assert BytesEnc(a) + [] == BytesEnc(b) + [];
    }
  }

  lemma BeforeTransitive(a: Key, b: Key, c: Key)
    requires Before(a, b) && Before(b, c)
    ensures Before(a, c)
  {
    LexTransitive(BytesEnc(a), BytesEnc(b), BytesEnc(c));
  }

  // Entry lists --------------------------------------------------------------------------------------

  function EntryBytes(e: Entry): seq<Byte> {
    BytesEnc(e.key) + BytesEnc(e.value)
  }

  function EntriesBytes(es: seq<Entry>): seq<Byte> {
    if es == [] then [] else EntryBytes(es[0]) + EntriesBytes(es[1..])
  }

  predicate Follows(previous: Option<Key>, k: Key) {
    previous.Some? ==> Before(previous.value, k)
  }

  /** Ascending keys, all after the previous one, and no length out of range. */
  predicate Sorted(previous: Option<Key>, es: seq<Entry>)
    decreases |es|
  {
    es == [] || (FitsEntry(es[0]) && Follows(previous, es[0].key) && Sorted(Some(es[0].key), es[1..]))
  }

  function ReadEntry(bs: seq<Byte>, previous: Option<Key>): (r: Parse<Entry>)
    ensures r.Ok? ==> var (e, rest) := r.value;
                      FitsEntry(e) && Follows(previous, e.key) && bs == EntryBytes(e) + rest
  {
    var (k, r1) :- ReadBytes(bs);
    if !Follows(previous, k) then Err(NonCanonicalMap)
    else
      var (v, r2) :- ReadBytes(r1);
      Assoc(BytesEnc(k), BytesEnc(v), r2);
      Ok((Entry(k, v), r2))
  }

  function ReadEntries(bs: seq<Byte>, n: nat, previous: Option<Key>): (r: Parse<seq<Entry>>)
    ensures r.Ok? ==> var (es, rest) := r.value;
                      |es| == n && Sorted(previous, es) && bs == EntriesBytes(es) + rest
    decreases n
  {
    if n == 0 then Ok(([], bs))
    else
      var (e, r1) :- ReadEntry(bs, previous);
      var (es, r2) :- ReadEntries(r1, n - 1, Some(e.key));
      Assoc(EntryBytes(e), EntriesBytes(es), r2);
      assert ([e] + es)[1..] == es;
      Ok(([e] + es, r2))
  }

  lemma EntryRoundTrip(e: Entry, previous: Option<Key>, rest: seq<Byte>)
    requires FitsEntry(e) && Follows(previous, e.key)
    ensures ReadEntry(EntryBytes(e) + rest, previous) == Ok((e, rest))
  {
    hide Bcs.BytesEnc, Bcs.ReadBytes, Before;
    Assoc(BytesEnc(e.key), BytesEnc(e.value), rest);
    BytesRoundTrip(e.key, BytesEnc(e.value) + rest);
    BytesRoundTrip(e.value, rest);
  }

  lemma {:induction false} EntriesRoundTrip(es: seq<Entry>, previous: Option<Key>, rest: seq<Byte>)
    requires Sorted(previous, es)
    ensures ReadEntries(EntriesBytes(es) + rest, |es|, previous) == Ok((es, rest))
    decreases |es|
  {
    hide ReadEntry, EntryBytes, Before;
    if es == [] {
      assert EntriesBytes(es) + rest == rest;
    } else {
      Assoc(EntryBytes(es[0]), EntriesBytes(es[1..]), rest);
      EntryRoundTrip(es[0], previous, EntriesBytes(es[1..]) + rest);
      EntriesRoundTrip(es[1..], Some(es[0].key), rest);
      assert [es[0]] + es[1..] == es;
    }
  }

  // Maps and their canonical listing -----------------------------------------------------------------------

  function MapOf(es: seq<Entry>): (m: AccountState)
    ensures forall e :: e in es ==> e.key in m
  {
    if es == [] then map[] else MapOf(es[1..])[es[0].key := es[0].value]
  }

  predicate IsLeast(k: Key, m: AccountState) {
    k in m && forall j :: j in m && j != k ==> Before(k, j)
  }

  lemma {:induction false} HasLeast(m: AccountState)
    requires m != map[] && forall k :: k in m ==> FitsEntry(Entry(k, m[k]))
    ensures exists k :: IsLeast(k, m)
    decreases |m|
  {
    hide Before;
    var k :| k in m;
    var others := m - {k};
    if others == map[] {
      assert IsLeast(k, m) by { assert forall j :: j in m && j != k ==> j in others; }
    } else {
      HasLeast(others);
      var l :| IsLeast(l, others);
      BeforeTotal(k, l);
      if Before(k, l) {
        forall j | j in m && j != k
          ensures Before(k, j)
        {
          assert j in others;
          if j != l { BeforeTransitive(k, l, j); }
        }
        assert IsLeast(k, m);
      } else {
        assert forall j :: j in m && j != k ==> j in others;
        assert IsLeast(l, m);
      }
    }
  }

  predicate Lists(es: seq<Entry>, m: AccountState) {
    Sorted(None, es) && |es| == |m| && MapOf(es) == m
  }

  lemma ListsCons(k: Key, m: AccountState, es: seq<Entry>)
    requires IsLeast(k, m) && FitsEntry(Entry(k, m[k])) && Lists(es, m - {k})
    ensures Lists([Entry(k, m[k])] + es, m)
  {
    hide Before, FitsEntry;
    var r := [Entry(k, m[k])] + es;
    assert r[0] == Entry(k, m[k]) && r[1..] == es;
    assert es != [] ==> es[0] in es && es[0].key in m - {k};
    assert es != [] ==> Before(k, es[0].key);
    assert Sorted(Some(k), es);
    assert (m - {k})[k := m[k]] == m;
    assert (m - {k}).Keys == m.Keys - {k} && |m - {k}| == |m| - 1;
  }

  ghost function Listing(m: AccountState): (es: seq<Entry>)
    requires forall k :: k in m ==> FitsEntry(Entry(k, m[k]))
    ensures Lists(es, m)
    decreases |m|
  {
    hide Before, IsLeast, FitsEntry;
    if m == map[] then []
    else
      HasLeast(m);
      var k :| k in m && IsLeast(k, m);
      ListsCons(k, m, Listing(m - {k}));
      [Entry(k, m[k])] + Listing(m - {k})
  }

  lemma {:induction false} SortedAfter(k: Key, es: seq<Entry>, j: Key)
    requires Sorted(Some(k), es) && j in MapOf(es)
    ensures Before(k, j) && j != k
    decreases |es|
  {
    hide Before;
    if j == es[0].key {
      NotBeforeItself(k);
    } else {
      SortedAfter(es[0].key, es[1..], j);
      BeforeTransitive(k, es[0].key, j);
      NotBeforeItself(k);
    }
  }

  lemma NotBeforeItself(k: Key)
    ensures !Before(k, k)
  {
    LexIrreflexive(BytesEnc(k));
  }

  lemma HeadIsLeast(p: Option<Key>, es: seq<Entry>)
    requires es != [] && Sorted(p, es)
    ensures IsLeast(es[0].key, MapOf(es))
    ensures MapOf(es[1..]) == MapOf(es) - {es[0].key}
  {
    hide Before;
    forall j | j in MapOf(es[1..])
      ensures Before(es[0].key, j) && j != es[0].key
    {
      SortedAfter(es[0].key, es[1..], j);
    }
  }

  /** A state has only one ascending listing. */
  lemma {:induction false} ListingUnique(p: Option<Key>, a: seq<Entry>, q: Option<Key>, b: seq<Entry>)
    requires Sorted(p, a) && Sorted(q, b) && MapOf(a) == MapOf(b)
    ensures a == b
    decreases |a|
  {
    hide Before, IsLeast;
    assert (a == [] ==> MapOf(a) == map[]) && (b == [] ==> MapOf(b) == map[]);
    assert (a != [] ==> a[0].key in MapOf(a)) && (b != [] ==> b[0].key in MapOf(b));
    if a != [] {
      HeadIsLeast(p, a);
      HeadIsLeast(q, b);
      LeastUnique(a[0].key, b[0].key, MapOf(a));
      ListingUnique(Some(a[0].key), a[1..], Some(b[0].key), b[1..]);
      assert a[0].value == MapOf(a)[a[0].key] == b[0].value;
      assert a == [a[0]] + a[1..] && b == [b[0]] + b[1..];
    }
  }

  lemma LeastUnique(k: Key, j: Key, m: AccountState)
    requires IsLeast(k, m) && IsLeast(j, m)
    ensures k == j
  {
    hide Before;
    if k != j {
      BeforeTransitive(k, j, k);
      NotBeforeItself(k);
    }
  }

  // Whole states ------------------------------------------------------------------------------------------

  /** `bcs::to_bytes` of the map. */
  ghost function StateBytes(m: AccountState): seq<Byte>
    requires FitsState(m)
  {
    Uleb(|m|) + EntriesBytes(Listing(m))
  }

  /** `to_account_state`: the blob is one whole encoded map. */
  function ToAccountState(blob: seq<Byte>): Result<AccountState, Error> {
    var (n, rest) :- ReadLen(blob);
    var es :- Whole(ReadEntries(rest, n, None));
    Ok(MapOf(es))
  }

  lemma StateRoundTrip(m: AccountState)
    requires FitsState(m)
    ensures ToAccountState(StateBytes(m)) == Ok(m)
  {
    hide Bcs.ReadU32, Bcs.Uleb, ReadEntries, EntriesBytes, Sorted;
    var es := Listing(m);
    var body := EntriesBytes(es);
    UlebRoundTrip(|m|, body);
    EntriesRoundTrip(es, None, []);
    assert body + [] == body;
  }

  lemma {:induction false} SortedFits(p: Option<Key>, es: seq<Entry>, k: Key)
    requires Sorted(p, es) && k in MapOf(es)
    ensures FitsEntry(Entry(k, MapOf(es)[k]))
    decreases |es|
  {
    hide Before;
    if k != es[0].key { SortedFits(Some(es[0].key), es[1..], k); }
  }

  lemma {:induction false} SortedSize(p: Option<Key>, es: seq<Entry>)
    requires Sorted(p, es)
    ensures |MapOf(es)| == |es|
    decreases |es|
  {
    hide Before;
    if es != [] {
      SortedSize(Some(es[0].key), es[1..]);
      HeadIsLeast(p, es);
    }
  }

  lemma {:induction false} StateReadCanonical(blob: seq<Byte>, m: AccountState)
    requires ToAccountState(blob) == Ok(m)
    ensures FitsState(m) && blob == StateBytes(m)
  {
    hide Sorted, EntriesBytes, FitsEntry;
    var (n, rest) := ReadLen(blob).value;
    var es := ReadEntries(rest, n, None).value.0;
    assert m == MapOf(es) && rest == EntriesBytes(es) + [] == EntriesBytes(es);
    SortedSize(None, es);
    forall k | k in m
      ensures FitsEntry(Entry(k, m[k]))
    {
      SortedFits(None, es, k);
    }
    ListingUnique(None, es, None, Listing(m));
  }

  /** A blob decodes to a state exactly when it is the canonical encoding of that state. */
  lemma StateDecodesExactly(blob: seq<Byte>, m: AccountState)
    ensures ToAccountState(blob) == Ok(m) <==> FitsState(m) && blob == StateBytes(m)
  {
    hide ToAccountState, StateBytes;
    if ToAccountState(blob) == Ok(m) {
      StateReadCanonical(blob, m);
    }
    if FitsState(m) && blob == StateBytes(m) {
      StateRoundTrip(m);
    }
  }

  // Keyed lookup ---------------------------------------------------------------------------------------

  /** The account state that holds the given resources; only tags that have a key can be stored. */
  ghost function StateOf(resources: map<StructTag, seq<Byte>>): AccountState
    requires forall t :: t in resources ==> Encodable(t)
  {
    AccessVectorsDistinct(resources.Keys);
    map t | t in resources :: AccessVector(t) := resources[t]
  }

  lemma AccessVectorsDistinct(tags: set<StructTag>)
    requires forall t :: t in tags ==> Encodable(t)
    ensures forall a, b :: a in tags && b in tags && AccessVector(a) == AccessVector(b) ==> a == b
  {
    forall a, b | a in tags && b in tags && AccessVector(a) == AccessVector(b)
      ensures a == b
    {
      AccessVectorInjective(a, b);
    }
  }

  /** What a lookup comes to; `Panicked` is the `unwrap` in `access_vector`. */
  datatype Lookup = Found(bytes: seq<Byte>) | NotFound | Panicked

  /** `find_bytes_legacy_struct_tag_v5` and `get_resource_data`, on a fresh thread. */
  function FindBytes(state: AccountState, t: StructTag): Lookup {
    if !Encodable(t) then Panicked
    else
      var key := AccessVector(t);
      if key in state then Found(state[key]) else NotFound
  }

  /** The lookup with the serializer behind it, which counts from zero and back to zero. */
  method FindBytesLegacyStructTag(cell: SafeSerialize.DepthCell, state: AccountState, t: StructTag) returns (r: Lookup)
    requires cell.depth == 0
    modifies cell
    ensures cell.depth == 0 && r == FindBytes(state, t)
  {
    var key := SafeSerialize.AccessVectorOf(cell, t);
    r := if key.None? then Panicked else if key.value in state then Found(state[key.value]) else NotFound;
  }

  /** What looking up a tag should come to. */
  function Expected(resources: map<StructTag, seq<Byte>>, t: StructTag): Lookup {
    if !Encodable(t) then Panicked else if t in resources then Found(resources[t]) else NotFound
  }

  lemma KeyedLookup(resources: map<StructTag, seq<Byte>>, t: StructTag, m: ModuleId)
    requires forall r :: r in resources ==> Encodable(r)
    ensures FindBytes(StateOf(resources), t) == Expected(resources, t)
    ensures ModuleAccessVector(m) !in StateOf(resources)
  {
    hide LanguageStorage.AccessVector, LanguageStorage.ModuleAccessVector;
    if Encodable(t) {
      AccessVectorsDistinct(resources.Keys + {t});
    }
    assert forall r :: r in resources ==> AccessVector(r) != ModuleAccessVector(m) by {
      forall r | r in resources
        ensures AccessVector(r) != ModuleAccessVector(m)
      {
        KeyPrefixes(r, m);
      }
    }
  }

  lemma KeyPrefixes(t: StructTag, m: ModuleId)
    ensures AccessVector(t) != ModuleAccessVector(m)
  {
    assert AccessVector(t)[0] == RESOURCE_TAG && ModuleAccessVector(m)[0] == CODE_TAG;
  }

  /**
   * From resources to a blob, back to a state, and to lookups: every stored resource is found with its
   * own bytes, no other tag finds anything, a tag that has no key makes the lookup panic, and no code key
   * is there.
   */
  lemma {:induction false} LookupAfterDecoding(resources: map<StructTag, seq<Byte>>, t: StructTag, m: ModuleId)
    requires forall r :: r in resources ==> Encodable(r)
    requires FitsState(StateOf(resources))
    ensures ToAccountState(StateBytes(StateOf(resources))) == Ok(StateOf(resources))
    ensures FindBytes(StateOf(resources), t) == Expected(resources, t)
    ensures ModuleAccessVector(m) !in StateOf(resources)
  {
    StateRoundTrip(StateOf(resources));
    KeyedLookup(resources, t, m);
  }

  // The order of the keys, and the format, spelled out ------------------------------------------------------

  /** At the first position where they differ the first string has the smaller byte, or it ends there. */
  predicate SmallerAt(a: seq<int>, b: seq<int>, q: nat) {
    q <= |a| && q < |b| && a[..q] == b[..q] && (q == |a| || a[q] < b[q])
  }

  lemma {:induction false} SmallerSomewhere(a: seq<int>, b: seq<int>) returns (q: nat)
    requires LexLess(a, b)
    ensures SmallerAt(a, b, q)
  {
    if a == [] || a[0] < b[0] {
      q := 0;
    } else {
      var p := SmallerSomewhere(a[1..], b[1..]);
      q := p + 1;
      assert a[..q] == [a[0]] + a[1..][..p] && b[..q] == [b[0]] + b[1..][..p];
    }
  }

  ghost predicate SmallerBytes(a: seq<int>, b: seq<int>) {
    exists q :: SmallerAt(a, b, q)
  }

  /** Neighbouring entries ascend by the bytes their keys are encoded in. */
  ghost predicate KeysAscend(es: seq<Entry>) {
    forall i :: 0 <= i < |es| - 1 ==> Ascends(es, i)
  }

  ghost predicate Ascends(es: seq<Entry>, i: nat)
    requires i + 1 < |es|
  {
    SmallerBytes(BytesEnc(es[i].key), BytesEnc(es[i + 1].key))
  }

  lemma {:induction false} SortedAscends(p: Option<Key>, es: seq<Entry>)
    requires Sorted(p, es)
    ensures KeysAscend(es)
    decreases |es|
  {
    hide Bcs.BytesEnc, SmallerAt;
    if |es| > 1 {
      SortedAscends(Some(es[0].key), es[1..]);
      assert Before(es[0].key, es[1].key);
      var q := SmallerSomewhere(BytesEnc(es[0].key), BytesEnc(es[1].key));
      forall i | 0 <= i < |es| - 1
        ensures Ascends(es, i)
      {
        if i > 0 {
          assert Ascends(es[1..], i - 1);
        }
      }
    }
  }

  /** What is read and what is written ascends. */
  lemma ListsAscend(bs: seq<Byte>, n: nat, m: AccountState)
    requires FitsState(m)
    ensures var r := ReadEntries(bs, n, None); r.Ok? ==> KeysAscend(r.value.0)
    ensures KeysAscend(Listing(m)) && |Listing(m)| == |m| && forall k :: k in m ==> Entry(k, m[k]) in Listing(m)
  {
    hide KeysAscend;
    var r := ReadEntries(bs, n, None);
    if r.Ok? {
      SortedAscends(None, r.value.0);
    }
    SortedAscends(None, Listing(m));
    forall k | k in m
      ensures Entry(k, m[k]) in Listing(m)
    {
      ListedEntry(Listing(m), k);
    }
  }

  lemma {:induction false} ListedEntry(es: seq<Entry>, k: Key)
    requires k in MapOf(es)
    ensures Entry(k, MapOf(es)[k]) in es
  {
    if k != es[0].key {
      ListedEntry(es[1..], k);
    }
  }

  lemma KeyOrder()
    ensures Before([7], [8]) && !Before([8], [7])
  {
    assert BytesEnc([7]) == [1, 7] && BytesEnc([8]) == [1, 8];
    assert [1, 7][1..] == [7] && [1, 8][1..] == [8];
    assert LexLess([7], [8]) && !LexLess([8], [7]);
  }

  lemma TwoEntriesBytes(a: Entry, b: Entry)
    ensures EntriesBytes([a, b]) == EntryBytes(a) + EntryBytes(b)
    ensures MapOf([a, b]) == map[b.key := b.value][a.key := a.value]
  {
    assert [a, b][1..] == [b] && [b][1..] == [];
    assert EntriesBytes([b]) == EntryBytes(b) + [] == EntryBytes(b);
    assert MapOf([]) == map[] && MapOf([b]) == map[][b.key := b.value];
  }

  lemma TwoAccepted(a: Entry, b: Entry)
    requires FitsEntry(a) && FitsEntry(b) && Before(a.key, b.key)
    ensures ToAccountState([2] + (EntryBytes(a) + EntryBytes(b))) == Ok(map[b.key := b.value][a.key := a.value])
  {
    hide EntryBytes, ReadEntries, Before, MapOf;
    var body := EntriesBytes([a, b]);
    TwoEntriesBytes(a, b);
    assert [a, b][1..] == [b] && [b][1..] == [];
    assert Sorted(Some(b.key), []) && Sorted(Some(a.key), [b]) && Sorted(None, [a, b]);
    UlebRoundTrip(2, body);
    assert Uleb(2) == [2];
    EntriesRoundTrip([a, b], None, []);
    assert body + [] == body;
  }

  lemma TwoRefused(a: Entry, b: Entry)
    requires FitsEntry(a) && FitsEntry(b) && !Before(a.key, b.key)
    ensures ToAccountState([2] + (EntryBytes(a) + EntryBytes(b))) == Err(NonCanonicalMap)
  {
    hide Bcs.ReadBytes, Bcs.BytesEnc, Bcs.ReadU32, Before;
    var body := EntryBytes(a) + EntryBytes(b);
    UlebRoundTrip(2, body);
    assert Uleb(2) == [2];
    EntryRoundTrip(a, None, EntryBytes(b));
    BytesRoundTrip(b.key, BytesEnc(b.value));
    assert ReadEntry(EntryBytes(b), Some(a.key)) == Err(NonCanonicalMap);
    assert ReadEntries(EntryBytes(b), 1, Some(a.key)) == Err(NonCanonicalMap);
    assert ReadEntries(body, 2, None) == Err(NonCanonicalMap);
  }

  /** A blob of two entries, key before value; with its entries exchanged it is refused. */
  lemma TwoEntryBlob()
    ensures ToAccountState([2, 1, 7, 1, 10, 1, 8, 2, 11, 12]) == Ok(map[[7] := [10], [8] := [11, 12]])
    ensures ToAccountState([2, 1, 8, 2, 11, 12, 1, 7, 1, 10]) == Err(NonCanonicalMap)
  {
    var (a, b) := (Entry([7], [10]), Entry([8], [11, 12]));
    ShortEntry(a);
    ShortEntry(b);
    assert EntryBytes(a) == [1, 7, 1, 10] && EntryBytes(b) == [1, 8, 2, 11, 12];
    hide ToAccountState, EntryBytes, Before;
    KeyOrder();
    TwoAccepted(a, b);
    TwoRefused(b, a);
    SampleEntryBytes(a, b);
    MapPair(a, b);
  }

  lemma SampleEntryBytes(a: Entry, b: Entry)
    requires EntryBytes(a) == [1, 7, 1, 10] && EntryBytes(b) == [1, 8, 2, 11, 12]
    ensures [2] + (EntryBytes(a) + EntryBytes(b)) == [2, 1, 7, 1, 10, 1, 8, 2, 11, 12]
    ensures [2] + (EntryBytes(b) + EntryBytes(a)) == [2, 1, 8, 2, 11, 12, 1, 7, 1, 10]
  {
    hide EntryBytes;
  }

  lemma MapPair(a: Entry, b: Entry)
    requires a.key != b.key
    ensures map[b.key := b.value][a.key := a.value] == map[a.key := a.value, b.key := b.value]
  {
  }

  /** Short byte strings stand behind one byte of length. */
  lemma ShortEntry(e: Entry)
    requires |e.key| < 128 && |e.value| < 128
    ensures EntryBytes(e) == [|e.key|] + e.key + ([|e.value|] + e.value)
  {
  }
}
