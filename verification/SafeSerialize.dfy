/**
 * The recursive tag serializers with their shared nesting counter. `DepthCell` is the thread-local
 * counter; `Output` and `Input` are the buffers behind the BCS serializer and deserializer.
 */
module SafeSerialize {
  import opened Base
  import opened Bcs
  import opened LanguageStorage

  newtype U8Int = n: int | 0 <= n < 256

  const MAX_NESTING: U8Int := 9

  class DepthCell {
    var depth: U8Int

    constructor ()
      ensures depth == 0
    {
      depth := 0;
    }
  }

  class Output {
    var bytes: seq<Byte>

    constructor ()
      ensures bytes == []
    {
      bytes := [];
    }
  }

  class Input {
    var bytes: seq<Byte>

    constructor (bytes: seq<Byte>)
      ensures this.bytes == bytes
    {
      this.bytes := bytes;
    }
  }

  /** How many more boxes may be written, respectively read, at a given counter value. */
  function WriteLevels(depth: U8Int): nat {
    if depth < MAX_NESTING then (MAX_NESTING - depth) as nat else 0
  }

  function ReadLevels(depth: U8Int): nat {
    if depth < MAX_NESTING - 1 then (MAX_NESTING - 1 - depth) as nat else 0
  }

  /** A write succeeds exactly on values that fit and nest at most `levels` deep, and names the reason if not. */
  ghost predicate WriteOutcome(r: Result<(), Error>, fits: bool, nesting: nat, levels: nat) {
    && (r.Ok? <==> fits && nesting <= levels)
    && (r.Err? ==> (r.error == NestingExceeded && nesting > levels) || (r.error == ExceededMaxLen && !fits))
  }

  // Serialization ---------------------------------------------------------------------------------

  method WriteLen(out: Output, n: nat) returns (r: Result<(), Error>)
    modifies out
    ensures r == if FitsLen(n) then Ok(()) else Err(ExceededMaxLen)
    ensures out.bytes == old(out.bytes) + (if FitsLen(n) then Uleb(n) else [])
  {
    if n > MAX_SEQUENCE_LENGTH {
      return Err(ExceededMaxLen);
    }
    var value := n;
    while value >= 128
      invariant out.bytes + Uleb(value) == old(out.bytes) + Uleb(n)
    {
      out.bytes := out.bytes + [value % 128 + 128];
      value := value / 128;
    }
    out.bytes := out.bytes + [value];
    r := Ok(());
  }

  method WriteBytes(out: Output, data: seq<Byte>) returns (r: Result<(), Error>)
    modifies out
    ensures r == if FitsLen(|data|) then Ok(()) else Err(ExceededMaxLen)
    ensures r.Ok? ==> out.bytes == old(out.bytes) + BytesEnc(data)
  {
    r := WriteLen(out, |data|);
    if r.Ok? {
      out.bytes := out.bytes + data;
    }
  }

  method SerializeTag(cell: DepthCell, out: Output, t: TypeTag) returns (r: Result<(), Error>)
    modifies cell, out
    ensures cell.depth == old(cell.depth)
    ensures WriteOutcome(r, Fits(t), Nesting(t), WriteLevels(cell.depth))
    ensures r.Ok? ==> out.bytes == old(out.bytes) + TagBytes(t)
    decreases t, 1
  {
    hide LanguageStorage.StructBytes, LanguageStorage.StructFits, LanguageStorage.StructNesting;
    ghost var before := out.bytes;
    r := Ok(());
    match t
    case Bool => out.bytes := out.bytes + [0];
    case U8 => out.bytes := out.bytes + [1];
    case U64 => out.bytes := out.bytes + [2];
    case U128 => out.bytes := out.bytes + [3];
    case Address => out.bytes := out.bytes + [4];
    case Signer => out.bytes := out.bytes + [5];
    case Vector(e) =>
      out.bytes := out.bytes + [6];
      r := RecursiveSerializeTag(cell, out, e);
      Assoc(before, [6], TagBytes(e));
    case Struct(s) =>
      out.bytes := out.bytes + [7];
      r := RecursiveSerializeStruct(cell, out, s);
      Assoc(before, [7], StructBytes(s));
  }

  method RecursiveSerializeTag(cell: DepthCell, out: Output, t: TypeTag) returns (r: Result<(), Error>)
    modifies cell, out
    ensures cell.depth == old(cell.depth)
    ensures WriteOutcome(r, Fits(t), 1 + Nesting(t), WriteLevels(cell.depth))
    ensures r.Ok? ==> out.bytes == old(out.bytes) + TagBytes(t)
    decreases t, 2
  {
    if cell.depth >= MAX_NESTING {
      return Err(NestingExceeded);
    }
    cell.depth := cell.depth + 1;
    r := SerializeTag(cell, out, t);
    cell.depth := cell.depth - 1;
  }

  method RecursiveSerializeStruct(cell: DepthCell, out: Output, s: StructTag) returns (r: Result<(), Error>)
    modifies cell, out
    ensures cell.depth == old(cell.depth)
    ensures WriteOutcome(r, StructFits(s), 1 + StructNesting(s), WriteLevels(cell.depth))
    ensures r.Ok? ==> out.bytes == old(out.bytes) + StructBytes(s)
    decreases s, 2
  {
    if cell.depth >= MAX_NESTING {
      return Err(NestingExceeded);
    }
    cell.depth := cell.depth + 1;
    r := SerializeStruct(cell, out, s);
    cell.depth := cell.depth - 1;
  }

  method SerializeStruct(cell: DepthCell, out: Output, s: StructTag) returns (r: Result<(), Error>)
    modifies cell, out
    ensures cell.depth == old(cell.depth)
    ensures WriteOutcome(r, StructFits(s), StructNesting(s), WriteLevels(cell.depth))
    ensures r.Ok? ==> out.bytes == old(out.bytes) + StructBytes(s)
    decreases s, 1
  {
    ghost var before := out.bytes;
    out.bytes := out.bytes + s.address;
    r := WriteBytes(out, s.moduleName);
    if r.Err? { return; }
    r := WriteBytes(out, s.name);
    if r.Err? { return; }
    r := WriteLen(out, |s.typeParams|);
    if r.Err? { return; }
    r := SerializeList(cell, out, s.typeParams);
    if r.Ok? {
      AppendStruct(before, s);
    }
  }

  lemma AppendStruct(before: seq<Byte>, s: StructTag)
    ensures before + s.address + BytesEnc(s.moduleName) + BytesEnc(s.name)
            + Uleb(|s.typeParams|) + ListBytes(s.typeParams)
         == before + StructBytes(s)
  {
  }

  method SerializeList(cell: DepthCell, out: Output, ts: seq<TypeTag>) returns (r: Result<(), Error>)
    modifies cell, out
    ensures cell.depth == old(cell.depth)
    ensures WriteOutcome(r, ListFits(ts), ListNesting(ts), WriteLevels(cell.depth))
    ensures r.Ok? ==> out.bytes == old(out.bytes) + ListBytes(ts)
    decreases ts, 1
  {
    var i := 0;
    assert ts[0..] == ts;
    while i < |ts|
      invariant i <= |ts|
      invariant cell.depth == old(cell.depth)
      invariant ListFits(ts) == ListFits(ts[i..])
      invariant ListNesting(ts) <= WriteLevels(cell.depth) <==> ListNesting(ts[i..]) <= WriteLevels(cell.depth)
      invariant out.bytes + ListBytes(ts[i..]) == old(out.bytes) + ListBytes(ts)
    {
      assert ts[i..][0] == ts[i] && ts[i..][1..] == ts[i + 1..];
      ghost var before := out.bytes;
      r := SerializeTag(cell, out, ts[i]);
      if r.Err? { return; }
      Assoc(before, TagBytes(ts[i]), ListBytes(ts[i + 1..]));
      i := i + 1;
    }
    r := Ok(());
  }

  // Deserialization -------------------------------------------------------------------------------

  /** The method consumed the input as the specification reads it, or failed as the specification does. */
  ghost predicate ReadOutcome<T>(spec: Parse<T>, r: Result<T, Error>, after: seq<Byte>) {
    match spec
    case Ok(parsed) => r == Ok(parsed.0) && after == parsed.1
    case Err(e) => r == Err(e)
  }

  method DeserializeTag(cell: DepthCell, input: Input) returns (r: Result<TypeTag, Error>)
    modifies cell, input
    ensures cell.depth == old(cell.depth)
    ensures ReadOutcome(ReadTag(old(input.bytes), ReadLevels(cell.depth)), r, input.bytes)
    decreases ReadLevels(cell.depth), 0, 0
  {
    var v := ReadU32(input.bytes);
    if v.Err? { return Err(v.error); }
    input.bytes := v.value.1;
    match v.value.0
    case 0 => r := Ok(Bool);
    case 1 => r := Ok(U8);
    case 2 => r := Ok(U64);
    case 3 => r := Ok(U128);
    case 4 => r := Ok(TypeTag.Address);
    case 5 => r := Ok(Signer);
    case 6 =>
      if cell.depth >= MAX_NESTING - 1 { return Err(NestingExceeded); }
      cell.depth := cell.depth + 1;
      var e := DeserializeTag(cell, input);
      cell.depth := cell.depth - 1;
      r := if e.Ok? then Ok(Vector(e.value)) else Err(e.error);
    case 7 =>
      if cell.depth >= MAX_NESTING - 1 { return Err(NestingExceeded); }
      cell.depth := cell.depth + 1;
      var s := DeserializeStruct(cell, input);
      cell.depth := cell.depth - 1;
      r := if s.Ok? then Ok(Struct(s.value)) else Err(s.error);
    case _ => r := Err(UnknownVariant);
  }

  method DeserializeStruct(cell: DepthCell, input: Input) returns (r: Result<StructTag, Error>)
    modifies cell, input
    ensures cell.depth == old(cell.depth)
    ensures ReadOutcome(ReadStruct(old(input.bytes), ReadLevels(cell.depth)), r, input.bytes)
    decreases ReadLevels(cell.depth), 2, 0
  {
    var address := ReadFixed(input.bytes, ADDRESS_LENGTH);
    if address.Err? { return Err(address.error); }
    input.bytes := address.value.1;
    var moduleName := ReadString(input.bytes);
    if moduleName.Err? { return Err(moduleName.error); }
    input.bytes := moduleName.value.1;
    var name := ReadString(input.bytes);
    if name.Err? { return Err(name.error); }
    input.bytes := name.value.1;
    var n := ReadLen(input.bytes);
    if n.Err? { return Err(n.error); }
    input.bytes := n.value.1;
    var typeParams := DeserializeList(cell, input, n.value.0);
    if typeParams.Err? { return Err(typeParams.error); }
    r := Ok(StructTag(address.value.0, moduleName.value.0, name.value.0, typeParams.value));
  }

  method DeserializeList(cell: DepthCell, input: Input, n: nat) returns (r: Result<seq<TypeTag>, Error>)
    modifies cell, input
    ensures cell.depth == old(cell.depth)
    ensures ReadOutcome(ReadList(old(input.bytes), n, ReadLevels(cell.depth)), r, input.bytes)
    decreases ReadLevels(cell.depth), 1, n
  {
    hide LanguageStorage.ReadTag, LanguageStorage.ReadStruct, LanguageStorage.TagBytes, LanguageStorage.ListBytes;
    hide LanguageStorage.Fits, LanguageStorage.ListFits, LanguageStorage.Nesting, LanguageStorage.ListNesting;
    var ts: seq<TypeTag> := [];
    ghost var levels := ReadLevels(cell.depth);
    ghost var whole := ReadList(input.bytes, n, levels);
    assert whole.Ok? ==> [] + whole.value.0 == whole.value.0;
    var i := 0;
    while i < n
      invariant i <= n
      invariant cell.depth == old(cell.depth)
      invariant match ReadList(input.bytes, n - i, levels)
                case Ok(tail) => whole == Ok((ts + tail.0, tail.1))
                case Err(e) => whole == Err(e)
    {
      ghost var rest := ReadList(input.bytes, n - i, levels);
      var t := DeserializeTag(cell, input);
      if t.Err? { return Err(t.error); }
      if rest.Ok? {
        assert rest.value.0 == [t.value] + rest.value.0[1..];
        Assoc(ts, [t.value], rest.value.0[1..]);
      }
      ts := ts + [t.value];
      i := i + 1;
    }
    assert ts + [] == ts;
    r := Ok(ts);
  }

  // Whole values ------------------------------------------------------------------------------------

  /** `bcs::to_bytes` on a tag, from a thread whose counter stands at any value. */
  method ToBytes(cell: DepthCell, s: StructTag) returns (r: Result<seq<Byte>, Error>)
    modifies cell
    ensures cell.depth == old(cell.depth)
    ensures r.Ok? <==> StructFits(s) && StructNesting(s) <= WriteLevels(cell.depth)
    ensures r.Ok? ==> r.value == StructBytes(s)
  {
    var out := new Output();
    var w := SerializeStruct(cell, out, s);
    r := if w.Ok? then Ok(out.bytes) else Err(w.error);
  }

  /** `bcs::from_bytes` on a tag. */
  method FromBytes(cell: DepthCell, bytes: seq<Byte>) returns (r: Result<StructTag, Error>)
    modifies cell
    ensures cell.depth == old(cell.depth)
    ensures r == Whole(ReadStruct(bytes, ReadLevels(cell.depth)))
  {
    var input := new Input(bytes);
    var s := DeserializeStruct(cell, input);
    if s.Ok? && input.bytes != [] { return Err(RemainingInput); }
    r := s;
  }

  /**
   * `access_vector` on a fresh thread: the key is the resource prefix and the encoding; `None` is
   * the panic of its `unwrap`.
   */
  method AccessVectorOf(cell: DepthCell, s: StructTag) returns (key: Option<seq<Byte>>)
    requires cell.depth == 0
    modifies cell
    ensures cell.depth == 0
    ensures key == if Encodable(s) then Some(AccessVector(s)) else None
  {
    var bytes := ToBytes(cell, s);
    key := if bytes.Ok? then Some([RESOURCE_TAG] + bytes.value) else None;
  }

  /**
   * Written and read back from the same counter value: the tag returns exactly when it nests within
   * the reading limit, which is one level short of the writing limit.
   */
  lemma {:induction false} WrittenThenRead(depth: U8Int, s: StructTag)
    requires StructFits(s) && StructNesting(s) <= WriteLevels(depth)
    ensures Whole(ReadStruct(StructBytes(s), ReadLevels(depth)))
         == if StructNesting(s) <= ReadLevels(depth) then Ok(s) else Err(NestingExceeded)
    ensures StructNesting(s) > ReadLevels(depth) <==> StructNesting(s) == WriteLevels(depth) && depth < MAX_NESTING
  {
    assert StructBytes(s) + [] == StructBytes(s);
    StructRoundTrip(s, [], ReadLevels(depth));
  }

  /** A tag that nests `n` vectors: the ninth level can be written on a fresh thread, but not read. */
  function VectorTower(n: nat): (t: TypeTag)
    ensures Nesting(t) == n && Fits(t)
  {
    if n == 0 then U8 else Vector(VectorTower(n - 1))
  }

  lemma NinthLevelIsWriteOnly()
    ensures Nesting(VectorTower(9)) <= WriteLevels(0)
    ensures ReadTag(TagBytes(VectorTower(9)), ReadLevels(0)) == Err(NestingExceeded)
    ensures ReadTag(TagBytes(VectorTower(8)), ReadLevels(0)) == Ok((VectorTower(8), []))
  {
    var (nine, eight) := (VectorTower(9), VectorTower(8));
    assert TagBytes(nine) + [] == TagBytes(nine) && TagBytes(eight) + [] == TagBytes(eight);
    TagRoundTrip(nine, [], ReadLevels(0));
    TagRoundTrip(eight, [], ReadLevels(0));
  }
}
