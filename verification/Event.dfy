/** Event keys: a little-endian creation number in front of the creator's address. */
module Event {
  import opened Base
  import opened Hex
  import opened LanguageStorage

  const KEY_LENGTH: nat := ADDRESS_LENGTH + 8

  type EventKey = k: seq<Byte> | |k| == KEY_LENGTH
    witness [0, 0, 0, 0, 0, 0, 0, 0, 0, 0, 0, 0, 0, 0, 0, 0, 0, 0, 0, 0, 0, 0, 0, 0]

  datatype EventHandle = EventHandle(count: U64, key: EventKey)

  function CreatorAddress(k: EventKey): Address {
    k[8..]
  }

  function CreationNumber(k: EventKey): U64 {
    FromLittleEndianRoundTrip(k[..8]);
    U64Capacity();
    FromLittleEndian(k[..8])
  }

  function KeyOf(addr: Address, salt: U64): EventKey {
    LittleEndian(salt, 8) + addr
  }

  /** `new_from_address`: fills the two halves of a zeroed array. */
  method NewFromAddress(addr: Address, salt: U64) returns (k: EventKey)
    ensures k == KeyOf(addr, salt)
  {
    var output := new Byte[KEY_LENGTH](_ => 0);
    var saltBytes := LittleEndian(salt, 8);
    for i := 0 to 8
      invariant output[..i] == saltBytes[..i]
    {
      output[i] := saltBytes[i];
    }
    for i := 0 to ADDRESS_LENGTH
      invariant output[..8] == saltBytes[..8]
      invariant output[8..8 + i] == addr[..i]
    {
      output[8 + i] := addr[i];
    }
    k := output[..];
    assert k == output[..8] + output[8..KEY_LENGTH];
    assert saltBytes[..8] == saltBytes && addr[..ADDRESS_LENGTH] == addr;
  }

  /** Keys are in bijection with pairs of an address and a creation number. */
  lemma KeyBijection(addr: Address, salt: U64, k: EventKey)
    ensures CreatorAddress(KeyOf(addr, salt)) == addr && CreationNumber(KeyOf(addr, salt)) == salt
    ensures KeyOf(CreatorAddress(k), CreationNumber(k)) == k
  {
    U64Capacity();
    assert KeyOf(addr, salt)[..8] == LittleEndian(salt, 8);
    LittleEndianRoundTrip(salt, 8);
    FromLittleEndianRoundTrip(k[..8]);
    assert k == k[..8] + k[8..];
  }

  lemma SaltBytes()
    ensures LittleEndian(16, 8) == [0x10, 0, 0, 0, 0, 0, 0, 0]
  {
    LittleEndianZero(7);
    assert LittleEndian(16, 8) == [16] + LittleEndian(0, 7);
  }

  /** The key the display tests use: salt 16 and address ca84...a3d0. */
  lemma KeyExample(addr: Address)
    requires addr == [0xca, 0x84, 0x32, 0x79, 0xe3, 0x42, 0x71, 0x44, 0xce, 0xad, 0x5e, 0x4d, 0x59, 0x99, 0xa3, 0xd0]
    ensures KeyOf(addr, 16) == [0x10, 0, 0, 0, 0, 0, 0, 0] + addr
  {
    SaltBytes();
  }
}

module DiemAccount {
  import opened Base
  import opened Hex
  import opened LanguageStorage
  import opened LegacyAddress
  import opened Event

  datatype DiemAccountResource = DiemAccountResource(
    authenticationKey: seq<Byte>,
    withdrawalCapability: Option<Address>,
    keyRotationCapability: Option<Address>,
    receivedEvents: EventHandle,
    sentEvents: EventHandle,
    sequenceNumber: U64)

  /** The cast of the sent-event creator through its text form; its `expect` never fires. */
  function AccountAddress(r: DiemAccountResource): (a: Address)
    ensures forall addr, salt :: r.sentEvents.key == KeyOf(addr, salt) ==> a == addr
  {
    var creator := CreatorAddress(r.sentEvents.key);
    LiteralRoundTrip(creator);
    FromLiteral(ToHexLiteral(creator)).value
  }
}
