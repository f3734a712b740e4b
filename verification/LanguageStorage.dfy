/** Legacy type tags and their BCS form, at a given budget of nesting levels. */
module LanguageStorage {
  import opened Base
  import opened Bcs

  const ADDRESS_LENGTH: nat := 16
  const CODE_TAG: Byte := 0
  const RESOURCE_TAG: Byte := 1

  type Address = a: seq<Byte> | |a| == ADDRESS_LENGTH
    witness [0, 0, 0, 0, 0, 0, 0, 0, 0, 0, 0, 0, 0, 0, 0, 0]

  datatype TypeTag =
    | Bool
    | U8
    | U64
    | U128
    | Address
    | Signer
    | Vector(elem: TypeTag)
    | Struct(tag: StructTag)

  datatype StructTag = StructTag(address: Address, moduleName: Utf8, name: Utf8, typeParams: seq<TypeTag>)

  datatype ModuleId = ModuleId(address: Address, name: Utf8)

  // Nesting and size limits --------------------------------------------------------------------

  /** The number of `Vector` and `Struct` boxes on the deepest path. */
  function Nesting(t: TypeTag): nat
    decreases t, 0
  {
    match t
    case Vector(e) => 1 + Nesting(e)
    case Struct(s) => 1 + StructNesting(s)
    case _ => 0
  }

  function StructNesting(s: StructTag): nat
    decreases s, 0
  {
    ListNesting(s.typeParams)
  }

  function ListNesting(ts: seq<TypeTag>): nat
    decreases ts, 0
  {
    if ts == [] then 0
    else
      var (head, tail) := (Nesting(ts[0]), ListNesting(ts[1..]));
      if head > tail then head else tail
  }

  /** Every identifier and every parameter list is short enough for a BCS length. */
  predicate Fits(t: TypeTag)
    decreases t, 0
  {
    match t
    case Vector(e) => Fits(e)
    case Struct(s) => StructFits(s)
    case _ => true
  }

  predicate StructFits(s: StructTag)
    decreases s, 0
  {
    FitsLen(|s.moduleName|) && FitsLen(|s.name|) && FitsLen(|s.typeParams|) && ListFits(s.typeParams)
  }

  predicate ListFits(ts: seq<TypeTag>)
    decreases ts, 0
  {
    ts == [] || (Fits(ts[0]) && ListFits(ts[1..]))
  }

  // Bytes ---------------------------------------------------------------------------------------

  function TagBytes(t: TypeTag): seq<Byte>
    decreases t, 0
  {
    match t
    case Bool => [0]
    case U8 => [1]
    case U64 => [2]
    case U128 => [3]
    case Address => [4]
    case Signer => [5]
    case Vector(e) => [6] + TagBytes(e)
    case Struct(s) => [7] + StructBytes(s)
  }

  function StructBytes(s: StructTag): seq<Byte>
    decreases s, 0
  {
    s.address + BytesEnc(s.moduleName) + BytesEnc(s.name) + Uleb(|s.typeParams|) + ListBytes(s.typeParams)
  }

  function ListBytes(ts: seq<TypeTag>): seq<Byte>
    decreases ts, 0
  {
    if ts == [] then [] else TagBytes(ts[0]) + ListBytes(ts[1..])
  }

  lemma StructBytesSplit(s: StructTag, rest: seq<Byte>)
    ensures StructBytes(s) + rest
         == s.address + (BytesEnc(s.moduleName) + (BytesEnc(s.name)
            + (Uleb(|s.typeParams|) + (ListBytes(s.typeParams) + rest))))
  {
  }

  // Reading, with `levels` nested boxes still allowed ----------------------------------------------

  function ReadTag(bs: seq<Byte>, levels: nat): (r: Parse<TypeTag>)
    ensures r.Ok? ==> bs == TagBytes(r.value.0) + r.value.1
    ensures r.Ok? ==> Fits(r.value.0) && Nesting(r.value.0) <= levels
    decreases levels, 0, 0
  {
    var (variant, rest) :- ReadU32(bs);
    assert bs == Uleb(variant) + rest;
    match variant
    case 0 => Ok((Bool, rest))
    case 1 => Ok((U8, rest))
    case 2 => Ok((U64, rest))
    case 3 => Ok((U128, rest))
    case 4 => Ok((TypeTag.Address, rest))
    case 5 => Ok((Signer, rest))
    case 6 =>
      if levels == 0 then Err(NestingExceeded)
      else
        var (e, rest') :- ReadTag(rest, levels - 1);
        Assoc([6], TagBytes(e), rest');
        Ok((Vector(e), rest'))
    case 7 =>
      if levels == 0 then Err(NestingExceeded)
      else
        var (s, rest') :- ReadStruct(rest, levels - 1);
        Assoc([7], StructBytes(s), rest');
        Ok((Struct(s), rest'))
    case _ => Err(UnknownVariant)
  }

  function ReadStruct(bs: seq<Byte>, levels: nat): (r: Parse<StructTag>)
    ensures r.Ok? ==> bs == StructBytes(r.value.0) + r.value.1
    ensures r.Ok? ==> StructFits(r.value.0) && StructNesting(r.value.0) <= levels
    decreases levels, 2, 0
  {
    var (address, r1) :- ReadFixed(bs, ADDRESS_LENGTH);
    var (moduleName, r2) :- ReadString(r1);
    var (name, r3) :- ReadString(r2);
    var (n, r4) :- ReadLen(r3);
    var (typeParams, r5) :- ReadList(r4, n, levels);
    var s := StructTag(address, moduleName, name, typeParams);
    StructBytesSplit(s, r5);
    Ok((s, r5))
  }

  function ReadList(bs: seq<Byte>, n: nat, levels: nat): (r: Parse<seq<TypeTag>>)
    ensures r.Ok? ==> bs == ListBytes(r.value.0) + r.value.1
    ensures r.Ok? ==> |r.value.0| == n && ListFits(r.value.0) && ListNesting(r.value.0) <= levels
    decreases levels, 1, n
  {
    if n == 0 then Ok(([], bs))
    else
      var (head, r1) :- ReadTag(bs, levels);
      var (tail, r2) :- ReadList(r1, n - 1, levels);
      assert ([head] + tail)[1..] == tail;
      Assoc(TagBytes(head), ListBytes(tail), r2);
      Ok(([head] + tail, r2))
  }

  /** What reading an encoding at `levels` must give: the value when it nests no deeper, else an error. */
  ghost predicate ReadsBack<T>(r: Parse<T>, v: T, rest: seq<Byte>, nesting: nat, levels: nat) {
    r == if nesting <= levels then Ok((v, rest)) else Err(NestingExceeded)
  }

  lemma VariantRoundTrip(variant: Byte, body: seq<Byte>, rest: seq<Byte>)
    requires variant < 128
    ensures ReadU32(([variant] + body) + rest) == Ok((variant, body + rest))
  {
    UlebRoundTrip(variant, body + rest);
    Assoc([variant], body, rest);
  }

  lemma {:induction false} PrimitiveRoundTrip(t: TypeTag, rest: seq<Byte>, levels: nat)
    requires !t.Vector? && !t.Struct?
    ensures ReadTag(TagBytes(t) + rest, levels) == Ok((t, rest))
  {
    var variant := TagBytes(t)[0];
    assert TagBytes(t) == [variant] + [] && [] + rest == rest;
    VariantRoundTrip(variant, [], rest);
  }

  lemma {:induction false} TagRoundTrip(t: TypeTag, rest: seq<Byte>, levels: nat)
    requires Fits(t)
    ensures ReadsBack(ReadTag(TagBytes(t) + rest, levels), t, rest, Nesting(t), levels)
    decreases t, 0
  {
    hide Bcs.ReadU32, Bcs.ReadDigits, Bcs.Uleb;
    match t
    case Vector(e) =>
      VariantRoundTrip(6, TagBytes(e), rest);
      if levels > 0 { TagRoundTrip(e, rest, levels - 1); }
    case Struct(s) =>
      VariantRoundTrip(7, StructBytes(s), rest);
      if levels > 0 { StructRoundTrip(s, rest, levels - 1); }
    case _ =>
      PrimitiveRoundTrip(t, rest, levels);
  }

  lemma {:induction false} StructRoundTrip(s: StructTag, rest: seq<Byte>, levels: nat)
    requires StructFits(s)
    ensures ReadsBack(ReadStruct(StructBytes(s) + rest, levels), s, rest, StructNesting(s), levels)
    decreases s, 0
  {
    var r4 := ListBytes(s.typeParams) + rest;
    var r3 := Uleb(|s.typeParams|) + r4;
    var r2 := BytesEnc(s.name) + r3;
    StructBytesSplit(s, rest);
    FixedRoundTrip(s.address, BytesEnc(s.moduleName) + r2);
    StringRoundTrip(s.moduleName, r2);
    StringRoundTrip(s.name, r3);
    UlebRoundTrip(|s.typeParams|, r4);
    ListRoundTrip(s.typeParams, rest, levels);
  }

  lemma {:induction false} ListRoundTrip(ts: seq<TypeTag>, rest: seq<Byte>, levels: nat)
    requires ListFits(ts)
    ensures ReadsBack(ReadList(ListBytes(ts) + rest, |ts|, levels), ts, rest, ListNesting(ts), levels)
    decreases ts, 0
  {
    if ts == [] {
      assert ListBytes(ts) + rest == rest;
    } else {
      var more := ListBytes(ts[1..]) + rest;
      Assoc(TagBytes(ts[0]), ListBytes(ts[1..]), rest);
      TagRoundTrip(ts[0], more, levels);
      ListRoundTrip(ts[1..], rest, levels);
      assert ts == [ts[0]] + ts[1..];
    }
  }

  /** No encoding is a proper prefix of another one, and no two tags share an encoding. */
  lemma TagPrefixFree(a: TypeTag, b: TypeTag, restA: seq<Byte>, restB: seq<Byte>)
    requires Fits(a) && Fits(b)
    requires TagBytes(a) + restA == TagBytes(b) + restB
    ensures a == b && restA == restB
  {
    var levels := Nesting(a) + Nesting(b);
    TagRoundTrip(a, restA, levels);
    TagRoundTrip(b, restB, levels);
  }

  lemma StructPrefixFree(a: StructTag, b: StructTag, restA: seq<Byte>, restB: seq<Byte>)
    requires StructFits(a) && StructFits(b)
    requires StructBytes(a) + restA == StructBytes(b) + restB
    ensures a == b && restA == restB
  {
    var levels := StructNesting(a) + StructNesting(b);
    StructRoundTrip(a, restA, levels);
    StructRoundTrip(b, restB, levels);
  }

  /** The reader accepts exactly the encodings: whatever it returns, encoding it gives the input back. */
  lemma {:induction false} TagReadExactly(bs: seq<Byte>, levels: nat, t: TypeTag, rest: seq<Byte>)
    ensures ReadTag(bs, levels) == Ok((t, rest))
       <==> Fits(t) && Nesting(t) <= levels && bs == TagBytes(t) + rest
  {
    if Fits(t) && Nesting(t) <= levels && bs == TagBytes(t) + rest {
      TagRoundTrip(t, rest, levels);
    }
  }

  // Storage keys ----------------------------------------------------------------------------------

  /** The nesting that `SafeSerialize` lets a fresh encoder write. */
  const MAX_TYPE_TAG_NESTING: nat := 9

  /** `bcs::to_bytes` succeeds on these; on any other tag the `unwrap` in `access_vector` panics. */
  predicate Encodable(s: StructTag) {
    StructFits(s) && StructNesting(s) <= MAX_TYPE_TAG_NESTING
  }

  function AccessVector(s: StructTag): seq<Byte> {
    [RESOURCE_TAG] + StructBytes(s)
  }

  function ModuleAccessVector(m: ModuleId): seq<Byte> {
    [CODE_TAG] + (m.address + BytesEnc(m.name))
  }

  /** Resource keys are injective. */
  lemma AccessVectorInjective(a: StructTag, b: StructTag)
    requires StructFits(a) && StructFits(b)
    requires AccessVector(a) == AccessVector(b)
    ensures a == b
  {
    assert AccessVector(a)[1..] == StructBytes(a) && AccessVector(b)[1..] == StructBytes(b);
    assert StructBytes(a) + [] == StructBytes(b) + [];
    StructPrefixFree(a, b, [], []);
  }

  /** Code keys are injective, and no code key is a resource key. */
  lemma ModuleAccessVectorInjective(a: ModuleId, b: ModuleId, s: StructTag)
    requires FitsLen(|a.name|) && FitsLen(|b.name|)
    ensures ModuleAccessVector(a) == ModuleAccessVector(b) ==> a == b
    ensures ModuleAccessVector(a) != AccessVector(s)
  {
    assert ModuleAccessVector(a)[0] == CODE_TAG && AccessVector(s)[0] == RESOURCE_TAG;
    if ModuleAccessVector(a) == ModuleAccessVector(b) {
      var (bodyA, bodyB) := (ModuleAccessVector(a)[1..], ModuleAccessVector(b)[1..]);
      assert bodyA == a.address + BytesEnc(a.name) && bodyB == b.address + BytesEnc(b.name);
      FixedRoundTrip(a.address, BytesEnc(a.name));
      FixedRoundTrip(b.address, BytesEnc(b.name));
      assert BytesEnc(a.name) + [] == BytesEnc(b.name) + [];
      StringRoundTrip(a.name, []);
      StringRoundTrip(b.name, []);
    }
  }

  // Fixed points of the format -----------------------------------------------------------------------

  const CORE_CODE_ADDRESS: Address := [0, 0, 0, 0, 0, 0, 0, 0, 0, 0, 0, 0, 0, 0, 0, 1]

  lemma ShortName(name: Utf8)
    requires |name| < 128
    ensures BytesEnc(name) == [|name|] + name
  {
  }

  /** A tag without type parameters: the address, the two names behind their lengths, a zero count. */
  lemma PlainStructBytes(address: Address, moduleName: Utf8, name: Utf8)
    requires |moduleName| < 128 && |name| < 128
    ensures StructBytes(StructTag(address, moduleName, name, []))
         == address + ([|moduleName|] + moduleName) + ([|name|] + name) + [0]
  {
    ShortName(moduleName);
    ShortName(name);
    assert Uleb(0) == [0] && ListBytes([]) == [];
  }

  /** The resource key of `0x1::DiemAccount::DiemAccount` that the snapshot tests expect. */
  lemma DiemAccountKey(diemAccount: Utf8)
    requires diemAccount == [0x44, 0x69, 0x65, 0x6d, 0x41, 0x63, 0x63, 0x6f, 0x75, 0x6e, 0x74]
    ensures AccessVector(StructTag(CORE_CODE_ADDRESS, diemAccount, diemAccount, []))
         == [0x01] + [0, 0, 0, 0, 0, 0, 0, 0, 0, 0, 0, 0, 0, 0, 0, 1] + [0x0b] + diemAccount + [0x0b] + diemAccount + [0x00]
  {
    PlainStructBytes(CORE_CODE_ADDRESS, diemAccount, diemAccount);
  }

  /** The resource key of `0x1::DiemAccount::Balance<0x1::GAS::GAS>` that the snapshot tests expect. */
  lemma BalanceKey(diemAccount: Utf8, balance: Utf8, gas: Utf8)
    requires diemAccount == [0x44, 0x69, 0x65, 0x6d, 0x41, 0x63, 0x63, 0x6f, 0x75, 0x6e, 0x74]
    requires balance == [0x42, 0x61, 0x6c, 0x61, 0x6e, 0x63, 0x65] && gas == [0x47, 0x41, 0x53]
    ensures AccessVector(StructTag(CORE_CODE_ADDRESS, diemAccount, balance,
                                   [Struct(StructTag(CORE_CODE_ADDRESS, gas, gas, []))]))
         == [0x01] + [0, 0, 0, 0, 0, 0, 0, 0, 0, 0, 0, 0, 0, 0, 0, 1] + [0x0b] + diemAccount + [0x07] + balance
            + [0x01, 0x07] + [0, 0, 0, 0, 0, 0, 0, 0, 0, 0, 0, 0, 0, 0, 0, 1] + [0x03] + gas + [0x03] + gas + [0x00]
  {
    var gasTag := StructTag(CORE_CODE_ADDRESS, gas, gas, []);
    PlainStructBytes(CORE_CODE_ADDRESS, gas, gas);
    SingleParameterBytes(CORE_CODE_ADDRESS, diemAccount, balance, gasTag);
  }

  lemma SingleParameterBytes(address: Address, moduleName: Utf8, name: Utf8, param: StructTag)
    requires |moduleName| < 128 && |name| < 128
    ensures StructBytes(StructTag(address, moduleName, name, [Struct(param)]))
         == address + ([|moduleName|] + moduleName) + ([|name|] + name) + [1, 7] + StructBytes(param)
  {
    ShortName(moduleName);
    ShortName(name);
    var ts := [Struct(param)];
    assert Uleb(1) == [1];
    assert ListBytes(ts[1..]) == [];
    assert ListBytes(ts) == [7] + StructBytes(param);
  }

  /** The key of a module: the zero prefix, the address, the name behind its length. */
  lemma ModuleKeyBytes(address: Address, name: Utf8)
    requires |name| < 128
    ensures ModuleAccessVector(ModuleId(address, name)) == [0x00] + address + [|name|] + name
  {
    ShortName(name);
  }

  /** The variants are numbered by their positions in the enumeration. */
  lemma VariantNumbers(e: TypeTag, s: StructTag)
    ensures TagBytes(Bool) == [0] && TagBytes(U8) == [1] && TagBytes(U64) == [2] && TagBytes(U128) == [3]
    ensures TagBytes(TypeTag.Address) == [4] && TagBytes(Signer) == [5]
    ensures TagBytes(Vector(e)) == [6] + TagBytes(e) && TagBytes(Struct(s)) == [7] + StructBytes(s)
  {
  }

  lemma ListBytesCons(t: TypeTag, ts: seq<TypeTag>)
    ensures ListBytes([t] + ts) == TagBytes(t) + ListBytes(ts)
  {
    assert ([t] + ts)[1..] == ts;
  }

  /** The resource key of `0x1::A::B<bool, u8, u64, u128, address, signer, vector<u8>>`. */
  lemma AllKindsKey()
    ensures IsUtf8([0x41]) && IsUtf8([0x42])
    ensures AccessVector(StructTag(CORE_CODE_ADDRESS, [0x41], [0x42],
                                   [Bool, U8, U64, U128, TypeTag.Address, Signer, Vector(U8)]))
         == [0x01] + [0, 0, 0, 0, 0, 0, 0, 0, 0, 0, 0, 0, 0, 0, 0, 1] + [0x01, 0x41] + [0x01, 0x42]
            + [0x07] + [0x00, 0x01, 0x02, 0x03, 0x04, 0x05, 0x06, 0x01]
  {
    AsciiIsUtf8([0x41]);
    AsciiIsUtf8([0x42]);
    ShortName([0x41]);
    ShortName([0x42]);
    var s := StructTag(CORE_CODE_ADDRESS, [0x41], [0x42], [Bool, U8, U64, U128, TypeTag.Address, Signer, Vector(U8)]);
    VariantNumbers(U8, s);
    KindsBytes();
    assert Uleb(7) == [7];
  }

  lemma KindsBytes()
    ensures ListBytes([Bool, U8, U64, U128, TypeTag.Address, Signer, Vector(U8)]) == [0, 1, 2, 3, 4, 5, 6, 1]
  {
    hide ListBytes;
    assert ListBytes([]) == [] by { NoTags(); }
    ListBytesCons(Vector(U8), []);
    assert TagBytes(Vector(U8)) == [6, 1];
    ListBytesCons(Signer, [Vector(U8)]);
    ListBytesCons(TypeTag.Address, [Signer, Vector(U8)]);
    ListBytesCons(U128, [TypeTag.Address, Signer, Vector(U8)]);
    ListBytesCons(U64, [U128, TypeTag.Address, Signer, Vector(U8)]);
    ListBytesCons(U8, [U64, U128, TypeTag.Address, Signer, Vector(U8)]);
    ListBytesCons(Bool, [U8, U64, U128, TypeTag.Address, Signer, Vector(U8)]);
    assert [Vector(U8)] + [] == [Vector(U8)];
    assert [Signer] + [Vector(U8)] == [Signer, Vector(U8)];
    assert [TypeTag.Address] + [Signer, Vector(U8)] == [TypeTag.Address, Signer, Vector(U8)];
    assert [U128] + [TypeTag.Address, Signer, Vector(U8)] == [U128, TypeTag.Address, Signer, Vector(U8)];
    assert [U64] + [U128, TypeTag.Address, Signer, Vector(U8)] == [U64, U128, TypeTag.Address, Signer, Vector(U8)];
    assert [U8] + [U64, U128, TypeTag.Address, Signer, Vector(U8)] == [U8, U64, U128, TypeTag.Address, Signer, Vector(U8)];
    assert [Bool] + [U8, U64, U128, TypeTag.Address, Signer, Vector(U8)]
        == [Bool, U8, U64, U128, TypeTag.Address, Signer, Vector(U8)];
  }

  lemma NoTags()
    ensures ListBytes([]) == []
  {
  }
}
