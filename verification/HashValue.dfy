/** 256-bit hash values: their bits, nibbles, hexadecimal text, order and common prefixes. */
module HashValue {
  import opened Base
  import Hex

  const LENGTH: nat := 32
  const LENGTH_IN_BITS: nat := 256

  type HashValue = h: seq<bv8> | |h| == LENGTH
    witness [0, 0, 0, 0, 0, 0, 0, 0, 0, 0, 0, 0, 0, 0, 0, 0,
             0, 0, 0, 0, 0, 0, 0, 0, 0, 0, 0, 0, 0, 0, 0, 0]

  /** Bit `i` of a byte, counted from the most significant one. */
  predicate ByteBit(b: bv8, i: nat)
    requires i < 8
  {
    (b >> (7 - i)) & 1 != 0
  }

  predicate Bit(h: HashValue, index: nat)
    requires index < LENGTH_IN_BITS
  {
    ByteBit(h[index / 8], index % 8)
  }

  function Nibble(h: HashValue, index: nat): bv8
    requires index < 2 * LENGTH
  {
    (h[index / 2] >> (if index % 2 == 0 then 4 else 0)) & 0x0f
  }

  function Bits(h: HashValue): (bits: seq<bool>)
    ensures |bits| == LENGTH_IN_BITS == 256
  {
    seq(LENGTH_IN_BITS, i requires 0 <= i < LENGTH_IN_BITS => Bit(h, i))
  }

  /** `HashValueBitIterator`, forward direction. */
  class BitIterator {
    const hashBytes: HashValue
    var pos: nat
    const end: nat

    ghost predicate Valid()
      reads this
    {
      pos <= end == LENGTH_IN_BITS
    }

    ghost function Remaining(): seq<bool>
      reads this
      requires Valid()
    {
      Bits(hashBytes)[pos..]
    }

    constructor (h: HashValue)
      ensures Valid() && pos == 0 && hashBytes == h && Remaining() == Bits(h)
    {
      hashBytes := h;
      pos := 0;
      end := LENGTH_IN_BITS;
    }

    method Next() returns (r: Option<bool>)
      requires Valid()
      modifies this
      ensures Valid()
      ensures if old(Remaining()) == [] then r == None && Remaining() == []
              else r == Some(old(Remaining())[0]) && Remaining() == old(Remaining())[1..]
    {
      if pos == end {
        return None;
      }
      r := Some(Bit(hashBytes, pos));
      pos := pos + 1;
    }
  }

  /** The bit a step has yielded but that is not collected yet. */
  function Ahead(next: Option<bool>): seq<bool> {
    if next.Some? then [next.value] else []
  }

  lemma AheadStep(bits: seq<bool>, remaining: seq<bool>)
    ensures remaining != [] ==> bits + [remaining[0]] + remaining[1..] == bits + remaining
    ensures remaining == [] ==> bits + [] + remaining == bits
  {
  }

  /** `iter_bits` run to its end. */
  method CollectBits(h: HashValue) returns (bits: seq<bool>)
    ensures bits == Bits(h)
  {
    hide Bits;
    var iter := new BitIterator(h);
    bits := [];
    AheadStep([], iter.Remaining());
    var next := iter.Next();
    assert [] + Bits(h) == Bits(h);
    while next.Some?
      invariant iter.Valid()
      invariant bits + Ahead(next) + iter.Remaining() == Bits(h)
      invariant next == None ==> iter.Remaining() == []
      decreases |iter.Remaining()|, next.Some?
    {
      bits := bits + [next.value];
      AheadStep(bits, iter.Remaining());
      next := iter.Next();
    }
  }

  // Building from bits ---------------------------------------------------------------------------

  /** The byte with only bit `i` set. */
  function Mask(i: nat): bv8
    requires i < 8
  {
    match i
    case 0 => 128
    case 1 => 64
    case 2 => 32
    case 3 => 16
    case 4 => 8
    case 5 => 4
    case 6 => 2
    case _ => 1
  }

  lemma BitByMask(b: bv8, i: nat)
    requires i < 8
    ensures ByteBit(b, i) <==> b & Mask(i) != 0
    ensures 1 << (7 - i) == Mask(i)
  {
  }

  lemma OrMask(b: bv8, i: nat, j: nat)
    requires i < 8 && j < 8
    ensures (b | Mask(i)) & Mask(j) != 0 <==> i == j || b & Mask(j) != 0
  {
  }

  lemma SetBitAt(b: bv8, i: nat, j: nat)
    requires i < 8 && j < 8
    ensures ByteBit(b | (1 << (7 - i)), j) == (i == j || ByteBit(b, j))
  {
    hide ByteBit, Mask;
    BitByMask(b, i);
    BitByMask(b, j);
    BitByMask(b | Mask(i), j);
    OrMask(b, i, j);
  }

  lemma SetBit(b: bv8, i: nat)
    requires i < 8
    ensures forall j: nat :: j < 8 ==> ByteBit(b | (1 << (7 - i)), j) == (i == j || ByteBit(b, j))
  {
    hide ByteBit;
    forall j: nat | j < 8
      ensures ByteBit(b | (1 << (7 - i)), j) == (i == j || ByteBit(b, j))
    {
      SetBitAt(b, i, j);
    }
  }

  /** `from_bit_iter`: ORs every set bit into a zeroed buffer. */
  method FromBitIter(bits: seq<bool>) returns (r: Option<HashValue>)
    ensures r.Some? <==> |bits| == LENGTH_IN_BITS
    ensures r.Some? ==> Bits(r.value) == bits
  {
    if |bits| != LENGTH_IN_BITS {
      return None;
    }
    hide ByteBit;
    NoBits();
    var buf := new bv8[LENGTH](_ => 0);
    for i := 0 to LENGTH_IN_BITS
      invariant forall k: nat :: k < LENGTH_IN_BITS ==> ByteBit(buf[k / 8], k % 8) == (k < i && bits[k])
    {
      if bits[i] {
        SetBit(buf[i / 8], i % 8);
        ghost var before := buf[..];
        buf[i / 8] := buf[i / 8] | (1 << (7 - i % 8));
        forall k: nat | k < LENGTH_IN_BITS
          ensures ByteBit(buf[k / 8], k % 8) == (k < i + 1 && bits[k])
        {
          assert ByteBit(before[k / 8], k % 8) == (k < i && bits[k]);
          if k / 8 == i / 8 && k % 8 == i % 8 { assert k == i; }
        }
      }
    }
    r := Some(buf[..]);
  }

  lemma NoBits()
    ensures forall j: nat :: j < 8 ==> !ByteBit(0, j)
  {
  }

  lemma ByteFromBits(a: bv8, b: bv8)
    requires forall i: nat :: i < 8 ==> ByteBit(a, i) == ByteBit(b, i)
    ensures a == b
  {
    assert ByteBit(a, 0) == ByteBit(b, 0) && ByteBit(a, 1) == ByteBit(b, 1);
    assert ByteBit(a, 2) == ByteBit(b, 2) && ByteBit(a, 3) == ByteBit(b, 3);
    assert ByteBit(a, 4) == ByteBit(b, 4) && ByteBit(a, 5) == ByteBit(b, 5);
    assert ByteBit(a, 6) == ByteBit(b, 6) && ByteBit(a, 7) == ByteBit(b, 7);
  }

  /** Values that agree on their first `p` bits agree on the bytes those bits fill, and on the bits left over. */
  lemma SameBytesBefore(a: HashValue, b: HashValue, p: nat)
    requires p <= LENGTH_IN_BITS
    requires forall i :: 0 <= i < p ==> Bits(a)[i] == Bits(b)[i]
    ensures forall k: nat :: k < p / 8 ==> a[k] == b[k]
    ensures p < LENGTH_IN_BITS ==>
              forall i: nat :: i < p % 8 ==> ByteBit(a[p / 8], i) == ByteBit(b[p / 8], i)
  {
    hide ByteBit;
    forall k: nat | k < p / 8
      ensures a[k] == b[k]
    {
      forall i: nat | i < 8
        ensures ByteBit(a[k], i) == ByteBit(b[k], i)
      {
        assert Bits(a)[8 * k + i] == Bits(b)[8 * k + i];
      }
      ByteFromBits(a[k], b[k]);
    }
    if p < LENGTH_IN_BITS {
      var q := p / 8;
      forall i: nat | i < p % 8
        ensures ByteBit(a[q], i) == ByteBit(b[q], i)
      {
        assert Bits(a)[8 * q + i] == Bits(b)[8 * q + i];
      }
    }
  }

  lemma BitsInjective(a: HashValue, b: HashValue)
    requires Bits(a) == Bits(b)
    ensures a == b
  {
    SameBytesBefore(a, b, LENGTH_IN_BITS);
  }

  /** Building from the bits of a value gives that value back: `FromBitIter` inverts the iteration. */
  method RebuildFromBits(h: HashValue) returns (r: Option<HashValue>)
    ensures r == Some(h)
  {
    var bits := CollectBits(h);
    r := FromBitIter(bits);
    BitsInjective(r.value, h);
  }

  // Common prefixes and order ----------------------------------------------------------------------

  /** `zip`, `take_while` equal, `count`. */
  function PrefixLen(x: seq<bool>, y: seq<bool>): nat {
    if x == [] || y == [] || x[0] != y[0] then 0 else 1 + PrefixLen(x[1..], y[1..])
  }

  function CommonPrefixBitsLen(a: HashValue, b: HashValue): nat {
    PrefixLen(Bits(a), Bits(b))
  }

  /** Agreement up to the prefix length, and no further. */
  lemma {:induction false} PrefixLenMeaning(x: seq<bool>, y: seq<bool>, n: nat)
    requires |x| == |y|
    ensures PrefixLen(x, y) == n
       <==> n <= |x| && (forall i :: 0 <= i < n ==> x[i] == y[i]) && (n < |x| ==> x[n] != y[n])
  {
    if x != [] && x[0] == y[0] {
      if n > 0 {
        PrefixLenMeaning(x[1..], y[1..], n - 1);
        if forall i :: 0 <= i < n - 1 && i < |x[1..]| ==> x[1..][i] == y[1..][i] {
          assert forall i :: 1 <= i < n && i < |x| ==> x[i] == x[1..][i - 1] && y[i] == y[1..][i - 1];
        }
      }
    }
  }

  /** The derived order of the byte arrays. */
  predicate Less(a: seq<bv8>, b: seq<bv8>) {
    if b == [] then false
    else if a == [] then true
    else a[0] < b[0] || (a[0] == b[0] && Less(a[1..], b[1..]))
  }

  lemma {:induction false} FirstDifferenceDecides(a: seq<bv8>, b: seq<bv8>, q: nat)
    requires q < |a| && q < |b| && a[q] != b[q]
    requires forall k :: 0 <= k < q ==> a[k] == b[k]
    ensures Less(a, b) <==> a[q] < b[q]
  {
    if q > 0 {
      FirstDifferenceDecides(a[1..], b[1..], q - 1);
    }
  }

  lemma FirstBitDecides(x: bv8, y: bv8, i: nat)
    requires i < 8 && ByteBit(x, i) != ByteBit(y, i)
    requires forall j: nat :: j < i ==> ByteBit(x, j) == ByteBit(y, j)
    ensures x < y <==> !ByteBit(x, i)
  {
    hide ByteBit;
    if i < 4 {
      FirstBitDecidesHigh(x, y, i);
    } else {
      FirstBitDecidesLow(x, y, i);
    }
  }

  lemma FirstBitDecidesHigh(x: bv8, y: bv8, i: nat)
    requires i < 4 && ByteBit(x, i) != ByteBit(y, i)
    requires forall j: nat :: j < i ==> ByteBit(x, j) == ByteBit(y, j)
    ensures x < y <==> !ByteBit(x, i)
  {
    assert i > 0 ==> ByteBit(x, 0) == ByteBit(y, 0);
    assert i > 1 ==> ByteBit(x, 1) == ByteBit(y, 1);
    assert i > 2 ==> ByteBit(x, 2) == ByteBit(y, 2);
    assert i == 0 || i == 1 || i == 2 || i == 3;
  }

  lemma FirstBitDecidesLow(x: bv8, y: bv8, i: nat)
    requires 4 <= i < 8 && ByteBit(x, i) != ByteBit(y, i)
    requires forall j: nat :: j < i ==> ByteBit(x, j) == ByteBit(y, j)
    ensures x < y <==> !ByteBit(x, i)
  {
    assert ByteBit(x, 0) == ByteBit(y, 0) && ByteBit(x, 1) == ByteBit(y, 1);
    assert ByteBit(x, 2) == ByteBit(y, 2) && ByteBit(x, 3) == ByteBit(y, 3);
    assert i > 4 ==> ByteBit(x, 4) == ByteBit(y, 4);
    assert i > 5 ==> ByteBit(x, 5) == ByteBit(y, 5);
    assert i > 6 ==> ByteBit(x, 6) == ByteBit(y, 6);
    assert i == 4 || i == 5 || i == 6 || i == 7;
  }

  /** The prefix length is symmetric and reaches 256 exactly on equal values. */
  lemma PrefixSymmetric(a: HashValue, b: HashValue)
    ensures CommonPrefixBitsLen(a, b) == CommonPrefixBitsLen(b, a) <= LENGTH_IN_BITS
    ensures CommonPrefixBitsLen(a, b) == LENGTH_IN_BITS <==> a == b
  {
    var p := CommonPrefixBitsLen(a, b);
    PrefixLenMeaning(Bits(a), Bits(b), p);
    PrefixLenMeaning(Bits(b), Bits(a), p);
    if p == LENGTH_IN_BITS {
      BitsInjective(a, b);
    } else {
      assert Bits(a)[p] != Bits(b)[p];
    }
  }

  /** The first differing bit decides the byte-wise order. */
  lemma PrefixDecidesOrder(a: HashValue, b: HashValue)
    requires a != b
    ensures var p := CommonPrefixBitsLen(a, b);
            p < LENGTH_IN_BITS && (Less(a, b) <==> !Bit(a, p))
  {
    hide ByteBit, Less, PrefixLen;
    var p := CommonPrefixBitsLen(a, b);
    PrefixSymmetric(a, b);
    PrefixLenMeaning(Bits(a), Bits(b), p);
    SameBytesBefore(a, b, p);
    assert Bits(a)[p] != Bits(b)[p];
    FirstBitDecides(a[p / 8], b[p / 8], p % 8);
    FirstDifferenceDecides(a, b, p / 8);
  }

  /** Common prefixes form an ultrametric. */
  lemma PrefixUltrametric(a: HashValue, b: HashValue, c: HashValue)
    ensures CommonPrefixBitsLen(a, c) >= CommonPrefixBitsLen(a, b)
         || CommonPrefixBitsLen(a, c) >= CommonPrefixBitsLen(b, c)
  {
    var (ab, bc, ac) := (CommonPrefixBitsLen(a, b), CommonPrefixBitsLen(b, c), CommonPrefixBitsLen(a, c));
    PrefixLenMeaning(Bits(a), Bits(b), ab);
    PrefixLenMeaning(Bits(b), Bits(c), bc);
    PrefixLenMeaning(Bits(a), Bits(c), ac);
    if ac < ab {
      assert Bits(a)[ac] == Bits(b)[ac] && Bits(a)[ac] != Bits(c)[ac];
    }
  }

  // Nibbles and hexadecimal text ---------------------------------------------------------------------

  function Ints(h: HashValue): (bs: seq<Byte>)
    ensures |bs| == LENGTH
  {
    seq(LENGTH, i requires 0 <= i < LENGTH => h[i] as int)
  }

  /** `{:x}`: two lower-case digits for each byte. */
  function ToHex(h: HashValue): (s: string)
    ensures |s| == 2 * LENGTH == 64
  {
    Hex.Encode(Ints(h))
  }

  function FromHex(s: string): Option<HashValue> {
    var bs :- Hex.DecodeFixed(s, LENGTH);
    Some(seq(LENGTH, i requires 0 <= i < LENGTH => bs[i] as bv8))
  }

  lemma HexRoundTrip(h: HashValue)
    ensures FromHex(ToHex(h)) == Some(h)
  {
    Hex.EncodeRoundTrip(Ints(h));
    assert Hex.DecodeFixed(ToHex(h), LENGTH) == Some(Ints(h));
    var r := FromHex(ToHex(h)).value;
    forall i: nat | i < LENGTH
      ensures r[i] == h[i]
    {
      CastRoundTrip(h[i]);
      assert r[i] == Ints(h)[i] as bv8;
    }
    assert r == h;
  }

  lemma CastRoundTrip(b: bv8)
    ensures (b as int) as bv8 == b
  {
  }

  /** A nibble holds four consecutive bits of the value. */
  lemma NibbleIsFourBits(h: HashValue, index: nat, k: nat)
    requires index < 2 * LENGTH && k < 4
    ensures (Nibble(h, index) >> (3 - k)) & 1 != 0 <==> Bit(h, 4 * index + k)
  {
    var b := h[index / 2];
    assert (4 * index + k) / 8 == index / 2;
    if index % 2 == 0 {
      assert (4 * index + k) % 8 == k;
      NibbleBit(b, k);
    } else {
      assert (4 * index + k) % 8 == 4 + k;
      NibbleBit(b, k);
    }
  }

  lemma NibbleBit(b: bv8, k: nat)
    requires k < 4
    ensures (((b >> 4) & 0x0f) >> (3 - k)) & 1 != 0 <==> ByteBit(b, k)
    ensures (((b >> 0) & 0x0f) >> (3 - k)) & 1 != 0 <==> ByteBit(b, 4 + k)
  {
    assert k == 0 || k == 1 || k == 2 || k == 3;
  }

  /** The printed digit at every position is the digit of that nibble. */
  lemma HexDigitIsNibble(h: HashValue, index: nat)
    requires index < 2 * LENGTH
    ensures Nibble(h, index) < 16 && ToHex(h)[index] == Hex.Digit(Nibble(h, index) as int)
  {
    var b := h[index / 2];
    NibbleValue(b);
    EncodeAt(Ints(h), index / 2);
    assert Ints(h)[index / 2] == b as int;
  }

  lemma NibbleValue(b: bv8)
    ensures ((b >> 4) & 0x0f) < 16 && ((b >> 4) & 0x0f) as int == b as int / 16
    ensures ((b >> 0) & 0x0f) < 16 && ((b >> 0) & 0x0f) as int == b as int % 16
  {
    assert (b >> 4) & 0x0f == b / 16 && (b >> 0) & 0x0f == b % 16;
  }

  lemma {:induction false} EncodeAt(bs: seq<Byte>, k: nat)
    requires k < |bs|
    ensures Hex.Encode(bs)[2 * k] == Hex.Digit(bs[k] / 16)
    ensures Hex.Encode(bs)[2 * k + 1] == Hex.Digit(bs[k] % 16)
  {
    if k > 0 {
      EncodeAt(bs[1..], k - 1);
    }
  }
}
