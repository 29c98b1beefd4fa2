/** Shared vocabulary: optional values, socket addresses and the clock. */
module Base {
  import opened Wire

  datatype Option<+T> = None | Some(value: T)

  lemma ConcatAssoc<T>(a: seq<T>, b: seq<T>, c: seq<T>)
    ensures (a + b) + c == a + (b + c)
  {
  }

  /** Instants and durations are counted in nanoseconds on a clock that never runs backwards. */
  const MILLI: nat := 1_000_000
  const SECOND: nat := 1_000_000_000

  type Ip4 = s: Bytes | |s| == 4 witness [0, 0, 0, 0]
  type Ip6 = s: Bytes | |s| == 16 witness [0, 0, 0, 0, 0, 0, 0, 0, 0, 0, 0, 0, 0, 0, 0, 0]

  datatype Addr = V4(ip4: Ip4, port: u16) | V6(ip6: Ip6, port: u16)
}

/** Machine integers, big-endian fields and the bitwise operators the codecs use. */
module Wire {
  type u8 = x: int | 0 <= x < 0x100
  type u16 = x: int | 0 <= x < 0x1_0000
  type u32 = x: int | 0 <= x < 0x1_0000_0000
  type Bytes = seq<u8>

  const U16: nat := 0x1_0000
  const U32: nat := 0x1_0000_0000

  function ReadU16(b: Bytes, i: nat): u16
    requires i + 2 <= |b|
  {
    var high: int, low: int := b[i], b[i + 1];
    high * 0x100 + low
  }

  function ReadU32(b: Bytes, i: nat): u32
    requires i + 4 <= |b|
  {
    var high: int, low: int := ReadU16(b, i), ReadU16(b, i + 2);
    high * 0x1_0000 + low
  }

  function PutU16(v: u16): (r: Bytes)
    ensures |r| == 2 && ReadU16(r, 0) == v
  {
    [v / 0x100, v % 0x100]
  }

  function PutU32(v: u32): (r: Bytes)
    ensures |r| == 4 && ReadU32(r, 0) == v
  {
    PutU16(v / 0x1_0000) + PutU16(v % 0x1_0000)
  }

  /** The number a string of bytes stands for, most significant byte first. */
  function BigEndian(b: Bytes): nat {
    if b == [] then 0 else BigEndian(b[..|b| - 1]) * 0x100 + b[|b| - 1]
  }

  /** Both readers, and so both writers, use network byte order. */
  lemma FieldsAreBigEndian(b: Bytes, i: nat)
    requires i + 2 <= |b|
    ensures ReadU16(b, i) == BigEndian(b[i..i + 2])
    ensures i + 4 <= |b| ==> ReadU32(b, i) == BigEndian(b[i..i + 4])
  {
    BigEndianOfTwo(b[i..i + 2]);
    if i + 4 <= |b| {
      BigEndianOfFour(b[i..i + 4]);
    }
  }

  lemma BigEndianOfTwo(b: Bytes)
    requires |b| == 2
    ensures BigEndian(b) == b[0] as int * 0x100 + b[1]
  {
    assert b[..1] == [b[0]] && [b[0]][..0] == [];
    assert BigEndian([b[0]]) == b[0];
  }

  lemma BigEndianOfFour(b: Bytes)
    requires |b| == 4
    ensures BigEndian(b) == ((b[0] as int * 0x100 + b[1]) * 0x100 + b[2]) * 0x100 + b[3]
  {
    assert b[..3][..2] == b[..2];
    BigEndianOfTwo(b[..2]);
    assert BigEndian(b[..3]) == BigEndian(b[..2]) * 0x100 + b[2];
  }

  lemma PutOfRead(b: Bytes, i: nat)
    requires i + 2 <= |b|
    ensures PutU16(ReadU16(b, i)) == b[i..i + 2]
  {
  }

  lemma PutOfRead32(b: Bytes, i: nat)
    requires i + 4 <= |b|
    ensures PutU32(ReadU32(b, i)) == b[i..i + 4]
  {
    PutOfRead(b, i);
    PutOfRead(b, i + 2);
    assert b[i..i + 4] == b[i..i + 2] + b[i + 2..i + 4];
  }

  /** `s` with the bytes from `i` on replaced by `t`. */
  function Splice(s: Bytes, i: nat, t: Bytes): (r: Bytes)
    requires i + |t| <= |s|
    ensures |r| == |s|
  {
    s[..i] + t + s[i + |t|..]
  }

  // ---------------------------------------------------------------------
  // Bitwise operators on the low `n` bits
  // ---------------------------------------------------------------------

  function Pow2(n: nat): (r: nat)
    ensures r >= 1
  {
    if n == 0 then 1 else 2 * Pow2(n - 1)
  }

  function BitXor(a: nat, b: nat): nat {
    if a == 0 && b == 0 then 0
    else (if a % 2 == b % 2 then 0 else 1) + 2 * BitXor(a / 2, b / 2)
  }

  function BitAnd(a: nat, b: nat): nat {
    if a == 0 || b == 0 then 0
    else (if a % 2 == 1 && b % 2 == 1 then 1 else 0) + 2 * BitAnd(a / 2, b / 2)
  }

  /** Bit k of a number. */
  function Bit(x: nat, k: nat): nat {
    x / Pow2(k) % 2
  }

  lemma HalfBit(x: nat, k: nat)
    requires k > 0
    ensures Bit(x, k) == Bit(x / 2, k - 1)
  {
    DivDiv(x, Pow2(k - 1));
  }

  lemma DivDiv(x: nat, m: nat)
    requires m > 0
    ensures x / (2 * m) == x / 2 / m
  {
    var q, r := x / 2 / m, x / 2 % m;
    assert x / 2 == q * m + r && x == 2 * (x / 2) + x % 2;
    assert x == (2 * m) * q + (2 * r + x % 2);
    QuotientUnique(x, 2 * m, q, 2 * r + x % 2);
  }

  lemma QuotientUnique(x: nat, m: nat, q: nat, r: nat)
    requires x == m * q + r && r < m
    ensures x / m == q
  {
    var p := x / m;
    assert x == m * p + x % m;
    assert p >= q + 1 ==> m * p >= m * (q + 1) == m * q + m;
    assert q >= p + 1 ==> m * q >= m * (p + 1) == m * p + m;
  }

  /** Exclusive or, bit by bit: a bit is set exactly if it is set in one of the two and not in the
      other. */
  lemma {:induction false} BitXorBits(a: nat, b: nat, k: nat)
    ensures Bit(BitXor(a, b), k) == 1 <==> Bit(a, k) != Bit(b, k)
  {
    XorHalves(a, b);
    if k == 0 {
      LowBit(a);
      LowBit(b);
      LowBit(BitXor(a, b));
    } else {
      HalfBit(a, k);
      HalfBit(b, k);
      HalfBit(BitXor(a, b), k);
      BitXorBits(a / 2, b / 2, k - 1);
    }
  }

  lemma LowBit(x: nat)
    ensures Bit(x, 0) == x % 2
  {
  }

  lemma XorHalves(a: nat, b: nat)
    ensures BitXor(a, b) / 2 == BitXor(a / 2, b / 2)
    ensures BitXor(a, b) % 2 == (if a % 2 == b % 2 then 0 else 1)
  {
  }

  lemma AndHalves(a: nat, b: nat)
    ensures BitAnd(a, b) / 2 == BitAnd(a / 2, b / 2)
    ensures BitAnd(a, b) % 2 == (if a % 2 == 1 && b % 2 == 1 then 1 else 0)
  {
  }

  /** And, bit by bit. */
  lemma {:induction false} BitAndBits(a: nat, b: nat, k: nat)
    ensures Bit(BitAnd(a, b), k) == 1 <==> Bit(a, k) == 1 && Bit(b, k) == 1
  {
    AndHalves(a, b);
    if k == 0 {
      LowBit(a);
      LowBit(b);
      LowBit(BitAnd(a, b));
    } else {
      HalfBit(a, k);
      HalfBit(b, k);
      HalfBit(BitAnd(a, b), k);
      BitAndBits(a / 2, b / 2, k - 1);
    }
  }

  lemma {:induction false} BitXorRange(a: nat, b: nat, n: nat)
    requires a < Pow2(n) && b < Pow2(n)
    ensures BitXor(a, b) < Pow2(n)
  {
    if n > 0 && (a > 0 || b > 0) {
      BitXorRange(a / 2, b / 2, n - 1);
    }
  }

  function Xor8(a: u8, b: u8): u8 {
    assert Pow2(8) == 0x100;
    BitXorRange(a, b, 8);
    BitXor(a, b)
  }

  function Xor32(a: u32, b: u32): u32 {
    Pow2Is32();
    BitXorRange(a, b, 32);
    BitXor(a, b)
  }

  lemma Pow2Byte(n: nat)
    ensures Pow2(n + 8) == 0x100 * Pow2(n)
  {
    assert Pow2(n + 1) == 2 * Pow2(n);
    assert Pow2(n + 2) == 2 * Pow2(n + 1);
    assert Pow2(n + 3) == 2 * Pow2(n + 2);
    assert Pow2(n + 4) == 2 * Pow2(n + 3);
    assert Pow2(n + 5) == 2 * Pow2(n + 4);
    assert Pow2(n + 6) == 2 * Pow2(n + 5);
    assert Pow2(n + 7) == 2 * Pow2(n + 6);
    assert Pow2(n + 8) == 2 * Pow2(n + 7);
  }

  lemma Pow2Is32()
    ensures Pow2(32) == 0x1_0000_0000
  {
    Pow2Byte(0);
    Pow2Byte(8);
    Pow2Byte(16);
    Pow2Byte(24);
  }

  /** XOR-ing twice with the same key gives the value back. */
  lemma {:induction false} BitXorInvolution(a: nat, b: nat)
    ensures BitXor(BitXor(a, b), b) == a
  {
    if a > 0 || b > 0 {
      var x, y := BitXor(a, b), BitXor(a / 2, b / 2);
      var bit := if a % 2 == b % 2 then 0 else 1;
      assert x == bit + 2 * y;
      assert x % 2 == bit && x / 2 == y;
      BitXorInvolution(a / 2, b / 2);
      assert a == a % 2 + 2 * (a / 2);
    }
  }

  lemma {:induction false} BitAndOnes(a: nat, n: nat)
    requires a < Pow2(n)
    ensures BitAnd(a, Pow2(n) - 1) == a
  {
    if n > 0 && a > 0 {
      BitAndOnes(a / 2, n - 1);
      assert (Pow2(n) - 1) / 2 == Pow2(n - 1) - 1;
    }
  }

  /** Clearing the two low bits rounds down to a multiple of four. */
  lemma BitAndClearsTwoBits(a: nat, n: nat)
    requires n >= 2 && a < Pow2(n)
    ensures Pow2(n) >= 4 && BitAnd(a, Pow2(n) - 4) == a - a % 4
  {
    var m := Pow2(n - 2);
    assert Pow2(n) == 4 * m;
    assert a / 2 / 2 == a / 4 && (4 * m - 4) / 2 == 2 * m - 2 && (2 * m - 2) / 2 == m - 1;
    BitAndOnes(a / 4, n - 2);
    assert BitAnd(a / 2, 2 * m - 2) == 2 * (a / 4);
    assert BitAnd(a, 4 * m - 4) == 4 * (a / 4);
  }

  /** `key` XOR-ed into the first |s| bytes. */
  function XorBytes(s: Bytes, key: Bytes): (r: Bytes)
    requires |s| <= |key|
    ensures |r| == |s|
    ensures forall i | 0 <= i < |s| :: r[i] == Xor8(s[i], key[i])
  {
    seq(|s|, i requires 0 <= i < |s| => Xor8(s[i], key[i]))
  }

  lemma XorBytesInvolution(s: Bytes, key: Bytes)
    requires |s| <= |key|
    ensures XorBytes(XorBytes(s, key), key) == s
  {
    forall i | 0 <= i < |s|
      ensures XorBytes(XorBytes(s, key), key)[i] == s[i]
    {
      BitXorInvolution(s[i], key[i]);
    }
  }
}
