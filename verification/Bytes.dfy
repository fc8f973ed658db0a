/** Byte strings, fixed-width little-endian integers and the readers that undo them. */
module Bytes {

  type Byte = x: int | 0 <= x < 256
  type Bytes = seq<Byte>

  // Rust strings are kept as their UTF-8 bytes.
  type Str = Bytes

  function Zeros(n: nat): (b: Bytes)
    ensures |b| == n
  {
    seq(n, _ => 0)
  }

  type Uuid = b: Bytes | |b| == 16 witness Zeros(16)

  datatype Option<+T> = None | Some(value: T)

  const TWO_32: nat := 0x1_0000_0000
  const TWO_63: nat := 0x8000_0000_0000_0000
  const TWO_64: nat := 0x1_0000_0000_0000_0000

  const NIL_UUID: Uuid := Zeros(16)

  function Utf8(s: string): (b: Str)
    ensures |b| == |s|
  {
    seq(|s|, i requires 0 <= i < |s| => (s[i] as int) % 256)
  }

  function HexDigit(n: nat): (d: Byte)
    requires n < 16
  {
    if n < 10 then 48 + n else 87 + n
  }

  /** Lower-case hexadecimal text of a byte string. */
  function Hex(b: Bytes): (s: Str)
    ensures |s| == 2 * |b|
  {
    if b == [] then [] else [HexDigit(b[0] / 16), HexDigit(b[0] % 16)] + Hex(b[1..])
  }

  lemma {:induction false} HexInjective(a: Bytes, b: Bytes)
    requires Hex(a) == Hex(b)
    ensures a == b
  {
    assert |a| == |b|;
    if a == [] {
    } else {
      var ha, hb := Hex(a), Hex(b);
      assert ha[0] == hb[0] && ha[1] == hb[1];
      assert Hex(a[1..]) == ha[2..] == hb[2..] == Hex(b[1..]);
      HexInjective(a[1..], b[1..]);
      assert a == [a[0]] + a[1..] && b == [b[0]] + b[1..];
    }
  }

  /** The hyphenated 8-4-4-4-12 text of a UUID. */
  function UuidText(id: Uuid): (s: Str) {
    var t := Hex(id);
    t[..8] + [45] + t[8..12] + [45] + t[12..16] + [45] + t[16..20] + [45] + t[20..]
  }

  /** Digits are the sixteen lower-case ones, high half first. */
  lemma {:induction false} HexAt(b: Bytes, i: nat)
    requires i < |b|
    ensures Hex(b)[2 * i] == "0123456789abcdef"[b[i] / 16] as int
    ensures Hex(b)[2 * i + 1] == "0123456789abcdef"[b[i] % 16] as int
  {
    if i == 0 {
    } else {
      HexAt(b[1..], i - 1);
    }
  }

  /** Thirty-six characters: the digits, with hyphens at 8, 13, 18 and 23. */
  lemma {:induction false} UuidTextLayout(id: Uuid)
    ensures
      var s, digits := UuidText(id), Hex(id);
      && |s| == 36 && s[8] == s[13] == s[18] == s[23] == '-' as int
      && s[..8] == digits[..8] && s[9..13] == digits[8..12] && s[14..18] == digits[12..16]
      && s[19..23] == digits[16..20] && s[24..] == digits[20..]
  {
  }

  // ---- Little-endian integers ----

  function Pow256(n: nat): (r: nat)
    ensures r > 0
  {
    if n == 0 then 1 else 256 * Pow256(n - 1)
  }

  /** An unsigned integer cut to `n` bytes, least significant first. */
  function Unsigned(x: nat, n: nat): (b: Bytes)
    ensures |b| == n
  {
    seq(n, i requires 0 <= i < n => (x / Pow256(i)) % 256)
  }

  function FromLittleEndian(b: Bytes): (x: nat) {
    if b == [] then 0 else b[0] + 256 * FromLittleEndian(b[1..])
  }

  lemma {:induction false} QuotientIsUnique(x: nat, d: nat, q: nat, r: nat)
    requires x == d * q + r && r < d
    ensures x / d == q && x % d == r
  {
    var q', r' := x / d, x % d;
    assert x == d * q' + r';
    assert q' <= q ==> d * q' <= d * q;
    assert q' < q ==> d * (q' + 1) <= d * q;
    assert q < q' ==> d * (q + 1) <= d * q';
  }

  /** Dropping the low byte commutes with dividing by, and reducing modulo, a power. */
  lemma {:induction false} ShiftByte(x: nat, p: nat)
    requires p > 0
    ensures x / (256 * p) == (x / 256) / p
    ensures x % (256 * p) == x % 256 + 256 * ((x / 256) % p)
  {
    var q, r := (x / 256) / p, (x / 256) % p;
    calc {
      x;
      256 * (x / 256) + x % 256;
      256 * (p * q + r) + x % 256;
      (256 * p) * q + (256 * r + x % 256);
    }
    assert 256 * r + x % 256 < 256 * p;
    QuotientIsUnique(x, 256 * p, q, 256 * r + x % 256);
  }

  lemma {:induction false} UnsignedRoundTrip(x: nat, n: nat)
    ensures FromLittleEndian(Unsigned(x, n)) == x % Pow256(n)
    decreases n
  {
    if n == 0 {
    } else {
      var b := Unsigned(x, n);
      forall i | 0 <= i < n - 1 ensures b[1..][i] == Unsigned(x / 256, n - 1)[i] {
        ShiftByte(x, Pow256(i));
      }
      assert b[1..] == Unsigned(x / 256, n - 1);
      assert b[0] == (x / Pow256(0)) % 256 == x % 256;
      UnsignedRoundTrip(x / 256, n - 1);
      ShiftByte(x, Pow256(n - 1));
    }
  }

  lemma {:induction false} Widths()
    ensures Pow256(4) == TWO_32 && Pow256(8) == TWO_64
  {
    assert Pow256(2) == 65536;
    assert Pow256(4) == 256 * Pow256(3) == 65536 * Pow256(2);
    assert Pow256(6) == 256 * Pow256(5) == 65536 * Pow256(4);
    assert Pow256(8) == 256 * Pow256(7) == 65536 * Pow256(6);
  }

  /** `(x as u32).to_le_bytes()`: a length of 2^32 or more is truncated. */
  function U32(x: nat): (b: Bytes)
    ensures |b| == 4
  {
    Unsigned(x, 4)
  }

  function U64(x: nat): (b: Bytes)
    ensures |b| == 8
  {
    Unsigned(x, 8)
  }

  /** `x.to_le_bytes()` of an i64 in two's complement. */
  function I64(x: int): (b: Bytes)
    ensures |b| == 8
  {
    U64(x % TWO_64)
  }

  function FromI64(b: Bytes): (x: int) {
    var n := FromLittleEndian(b);
    if n < TWO_63 then n else n - TWO_64
  }

  predicate FitsI64(x: int) {
    -(TWO_63 as int) <= x < TWO_63
  }

  /** Rust's `x as i64` on a u64. */
  function AsI64(x: nat): (r: int) {
    var low := x % TWO_64;
    if low < TWO_63 then low else low - TWO_64
  }

  lemma {:induction false} AsI64Small(x: nat)
    ensures AsI64(x) <= x && (x < TWO_63 ==> AsI64(x) == x) && (TWO_63 <= x < TWO_64 ==> AsI64(x) < 0)
  {
  }

  lemma {:induction false} U32RoundTrip(x: nat)
    ensures FromLittleEndian(U32(x)) == x % TWO_32
  {
    Widths();
    UnsignedRoundTrip(x, 4);
  }

  lemma {:induction false} U64RoundTrip(x: nat)
    ensures FromLittleEndian(U64(x)) == x % TWO_64
  {
    Widths();
    UnsignedRoundTrip(x, 8);
  }

  lemma {:induction false} I64RoundTrip(x: int)
    requires FitsI64(x)
    ensures FromI64(I64(x)) == x
  {
    var low := x % TWO_64;
    assert low == if x < 0 then x + TWO_64 else x;
    U64RoundTrip(low);
    assert low % TWO_64 == low;
  }
}
