/**
 * Fixed-width little-endian codecs of util/util.go.
 *
 * Bytes and `uint32` values are integers in their ranges. A Go `float32` is
 * identified with its IEEE-754 bit pattern, so `math.Float32bits` and
 * `math.Float32frombits` are the identity here and a round trip is
 * bit-exact, NaN payloads included.
 */
module Util {

  newtype Byte = x: int | 0 <= x < 0x100

  newtype Uint32 = x: int | 0 <= x < 0x1_0000_0000

  /** A float32 value, represented by its 32-bit IEEE-754 pattern. */
  type Float32 = Uint32

  /** 256 to the power `n`. */
  function Pow256(n: nat): (p: nat)
    ensures p >= 1
  {
    if n == 0 then 1 else 0x100 * Pow256(n - 1)
  }

  /** `x >> 8k` for a non-negative `x`: `k` successive divisions by 256. */
  function ShiftBytes(x: nat, k: nat): nat
  {
    if k == 0 then x else ShiftBytes(x / 0x100, k - 1)
  }

  /** The `n` low bytes of `x`, least significant first. */
  function LittleEndian(x: nat, n: nat): (r: seq<Byte>)
    ensures |r| == n
  {
    if n == 0 then [] else [(x % 0x100) as Byte] + LittleEndian(x / 0x100, n - 1)
  }

  /** The number whose little-endian bytes are `b`: the sum of `b[k] * 256^k`. */
  function ValueOf(b: seq<Byte>): (x: nat)
    ensures x < Pow256(|b|)
  {
    if b == [] then 0 else b[0] as nat + 0x100 * ValueOf(b[1..])
  }

  /** `x == r + 256 y` with `r` a byte: `r` and `y` are the remainder and quotient by 256. */
  lemma DivideByte(x: int, y: int, r: int)
    requires 0 <= r < 0x100 && x == r + 0x100 * y
    ensures x % 0x100 == r && x / 0x100 == y
  {
  }

  /** Byte `k` of the little-endian form is `(x >> 8k) & 0xFF`. */
  lemma {:induction false} LittleEndianAt(x: nat, n: nat, k: nat)
    requires k < n
    ensures LittleEndian(x, n)[k] as int == ShiftBytes(x, k) % 0x100
  {
    if k > 0 {
      LittleEndianAt(x / 0x100, n - 1, k - 1);
    }
  }

  /** Reading back `n` bytes written from a number below `256^n` gives the number. */
  lemma {:induction false} ValueOfLittleEndian(x: nat, n: nat)
    requires x < Pow256(n)
    ensures ValueOf(LittleEndian(x, n)) == x
  {
    if n > 0 {
      ValueOfLittleEndian(x / 0x100, n - 1);
      assert LittleEndian(x, n)[1..] == LittleEndian(x / 0x100, n - 1);
    }
  }

  /** Writing back the value of `b` in `|b|` bytes gives `b`. */
  lemma {:induction false} LittleEndianValueOf(b: seq<Byte>)
    ensures LittleEndian(ValueOf(b), |b|) == b
  {
    if b != [] {
      LittleEndianValueOf(b[1..]);
      DivideByte(ValueOf(b), ValueOf(b[1..]), b[0] as int);
    }
  }

  /**
   * `Uint32bytes` (`binary.LittleEndian.PutUint32` into a fresh 4-byte
   * slice): the least significant byte first.
   */
  function Uint32Bytes(value: Uint32): (r: seq<Byte>)
    ensures |r| == 4
  {
    LittleEndian(value as nat, 4)
  }

  /**
   * `Uint32frombytes` (`binary.LittleEndian.Uint32`): Go panics on fewer
   * than four bytes; only bytes 0..3 are read.
   */
  function Uint32FromBytes(b: seq<Byte>): (x: Uint32)
    requires |b| >= 4
    ensures Uint32Bytes(x) == b[..4]
  {
    assert Pow256(4) == 0x1_0000_0000;
    LittleEndianValueOf(b[..4]);
    ValueOf(b[..4]) as Uint32
  }

  /**
   * `Float32bytes`: an 8-byte slice; `PutUint32` fills bytes 0..3 with the
   * bit pattern and bytes 4..7 keep the zero of `make`.
   */
  function Float32Bytes(f: Float32): (r: seq<Byte>)
    ensures |r| == 8
    ensures r[..4] == Uint32Bytes(f)
    ensures r[4..] == [0, 0, 0, 0]
  {
    Uint32Bytes(f) + [0, 0, 0, 0]
  }

  /** `Float32frombytes`: the bit pattern held little-endian in bytes 0..3. */
  function Float32FromBytes(b: seq<Byte>): (f: Float32)
    requires |b| >= 4
    ensures Float32Bytes(f)[..4] == b[..4]
  {
    Uint32FromBytes(b)
  }

  /** Byte `k` of `Uint32bytes(value)` is `(value >> 8k) & 0xFF`. */
  lemma Uint32BytesLittleEndian(value: Uint32, k: nat)
    requires k < 4
    ensures Uint32Bytes(value)[k] as int == ShiftBytes(value as nat, k) % 0x100
  {
    LittleEndianAt(value as nat, 4, k);
  }

  /** `Uint32frombytes` is the sum of `b[k] * 256^k` over bytes 0..3. */
  lemma Uint32FromBytesValue(b: seq<Byte>)
    requires |b| >= 4
    ensures Uint32FromBytes(b) as int
         == b[0] as int + 0x100 * b[1] as int + 0x1_0000 * b[2] as int + 0x100_0000 * b[3] as int
  {
    var c := b[..4];
    assert ValueOf(c[1..][1..][1..]) == b[3] as int;
    assert ValueOf(c[1..][1..]) == b[2] as int + 0x100 * b[3] as int;
    assert ValueOf(c[1..]) == b[1] as int + 0x100 * (b[2] as int + 0x100 * b[3] as int);
  }

  /** Decoding an encoded id gives the id back. */
  lemma Uint32RoundTrip(x: Uint32)
    ensures Uint32FromBytes(Uint32Bytes(x)) == x
  {
    assert Pow256(4) == 0x1_0000_0000;
    ValueOfLittleEndian(x as nat, 4);
    assert Uint32Bytes(x)[..4] == Uint32Bytes(x);
  }

  /** Only bytes 0..3 are read: whatever follows them does not change the result. */
  lemma Uint32FromBytesPrefix(b: seq<Byte>, c: seq<Byte>)
    requires |b| >= 4 && |c| >= 4 && b[..4] == c[..4]
    ensures Uint32FromBytes(b) == Uint32FromBytes(c)
  {
    Uint32Injective(Uint32FromBytes(b), Uint32FromBytes(c));
  }

  /** Distinct ids give distinct 4-byte keys. */
  lemma Uint32Injective(x: Uint32, y: Uint32)
    requires Uint32Bytes(x) == Uint32Bytes(y)
    ensures x == y
  {
    Uint32RoundTrip(x);
    Uint32RoundTrip(y);
  }

  /** A float survives `Float32bytes` then `Float32frombytes` bit for bit. */
  lemma Float32RoundTrip(f: Float32)
    ensures Float32FromBytes(Float32Bytes(f)) == f
  {
    Uint32Injective(Float32FromBytes(Float32Bytes(f)), f);
  }

  /** 2^32: `uint32(n)` keeps `n` modulo this. */
  const TwoTo32: int := 0x1_0000_0000

  /**
   * The key `Uint32bytes(uint32(id))`: `uint32` keeps the low 32 bits, which
   * are then written little-endian (see `IdKeyIsUint32Bytes`).
   */
  function IdKey(id: int): seq<Byte>
  {
    LittleEndian(id % TwoTo32, 4)
  }

  /** The key is exactly `Uint32bytes` of the truncated id. */
  lemma IdKeyIsUint32Bytes(id: int)
    ensures IdKey(id) == Uint32Bytes((id % TwoTo32) as Uint32)
  {
  }

  /** Ids below 2^32 get distinct keys. */
  lemma IdKeyInjective(a: int, b: int)
    requires 0 <= a < TwoTo32 && 0 <= b < TwoTo32 && IdKey(a) == IdKey(b)
    ensures a == b
  {
    assert Pow256(4) == TwoTo32;
    assert a % TwoTo32 == a && b % TwoTo32 == b;
    ValueOfLittleEndian(a % TwoTo32, 4);
    ValueOfLittleEndian(b % TwoTo32, 4);
  }

  /** `uint32(id)` wraps: id `2^32 + j` is written under the same key as id `j`. */
  lemma IdKeyWraps(j: nat)
    ensures IdKey(TwoTo32 + j) == IdKey(j)
  {
    assert (TwoTo32 + j) % TwoTo32 == j % TwoTo32;
  }
}
