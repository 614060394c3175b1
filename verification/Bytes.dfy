/**
 Bytes, Go's fixed-width integers, and the big-endian encoding shared by the
 frame header and the payload codecs.
 */
module Bytes {

  type byte = bv8
  type bytes = seq<byte>

  type uint8 = n: int | 0 <= n < 0x100
  type uint16 = n: int | 0 <= n < 0x1_0000
  type uint32 = n: int | 0 <= n < 0x1_0000_0000
  type uint64 = n: int | 0 <= n < 0x1_0000_0000_0000_0000
  type int64 = n: int | -0x8000_0000_0000_0000 <= n < 0x8000_0000_0000_0000

  /** Go's `byte(n)`: keeps the low eight bits. */
  function ToByte(n: nat): (b: byte)
    ensures b as int == n % 256
  {
    ToByteFits(n % 256);
    (n % 256) as bv8
  }

  lemma ToByteFits(n: nat)
    requires n < 256
    ensures (n as bv8) as int == n
  {
    var b := SomeByte(n);
    ByteBack(b);
  }

  lemma {:induction false} SomeByte(n: nat) returns (b: byte)
    requires n < 256
    ensures b as int == n
  {
    if n == 0 {
      b := 0;
    } else {
      var c := SomeByte(n - 1);
      NextByte(c);
      b := c + 1;
    }
  }

  lemma NextByte(b: byte)
    requires b as int < 255
    ensures (b + 1) as int == b as int + 1
  {}

  lemma ByteBack(b: byte)
    ensures b as int < 256 && (b as int) as bv8 == b
  {}

  lemma ToByteOf(n: nat, b: byte)
    requires n % 256 == b as int
    ensures ToByte(n) == b
  {}

  lemma ToByteExact(n: nat, b: byte)
    requires n == b as int
    ensures ToByte(n) == b
  {
    ByteBack(b);
    ToByteOf(n, b);
  }

  function Pow256(k: nat): (p: nat)
    ensures p > 0
  {
    if k == 0 then 1 else 256 * Pow256(k - 1)
  }

  lemma Powers()
    ensures Pow256(1) == 0x100
    ensures Pow256(2) == 0x1_0000
    ensures Pow256(4) == 0x1_0000_0000
    ensures Pow256(8) == 0x1_0000_0000_0000_0000
  {
    assert Pow256(3) == 0x100_0000;
    assert Pow256(4) == 256 * Pow256(3);
    assert Pow256(5) == 256 * Pow256(4);
    assert Pow256(6) == 256 * Pow256(5);
    assert Pow256(7) == 256 * Pow256(6);
    assert Pow256(8) == 256 * Pow256(7);
  }

  /** The low `k` base-256 digits of `n`, most significant first. */
  function PutBE(n: nat, k: nat): (s: bytes)
    ensures |s| == k
    decreases k
  {
    if k == 0 then [] else PutBE(n / 256, k - 1) + [ToByte(n)]
  }

  lemma GetOne(b: byte)
    ensures GetBE([b]) == b as int
  {
    assert [b][..0] == [];
  }

  /** The number a big-endian byte string denotes. */
  function GetBE(s: bytes): (n: nat)
    ensures n < Pow256(|s|)
  {
    if s == [] then 0 else GetBE(s[..|s| - 1]) * 256 + s[|s| - 1] as int
  }

  lemma ModStep(n: nat, p: nat)
    requires p > 0
    ensures n % (256 * p) == (n / 256) % p * 256 + n % 256
  {
    var a, b := n / 256, n % 256;
    var c, d := a / p, a % p;
    assert a == p * c + d;
    assert n == (256 * p) * c + (256 * d + b) by {
      assert n == 256 * a + b;
    }
    DivModUnique(n, 256 * p, c, 256 * d + b);
  }

  lemma DivModUnique(n: nat, m: nat, q: nat, r: nat)
    requires 0 <= r < m && n == m * q + r
    ensures n / m == q && n % m == r
  {
    if n / m > q {
      MulGap(m, q, n / m);
    } else if n / m < q {
      MulGap(m, n / m, q);
    }
  }

  lemma MulGap(m: nat, lo: nat, hi: nat)
    requires lo < hi
    ensures m * lo + m <= m * hi
  {
    assert m * hi == m * lo + m * (hi - lo);
    var d := hi - lo - 1;
    assert m * (d + 1) == m * d + m;
    assert m * d >= 0;
  }

  /** Encoding truncates to `k` bytes; decoding returns what was kept. */
  lemma {:induction false} GetPut(n: nat, k: nat)
    ensures GetBE(PutBE(n, k)) == n % Pow256(k)
    decreases k
  {
    if k > 0 {
      var s := PutBE(n, k);
      assert s[..|s| - 1] == PutBE(n / 256, k - 1);
      GetPut(n / 256, k - 1);
      ModStep(n, Pow256(k - 1));
    }
  }

  /** Every byte string is the encoding of the number it denotes. */
  lemma {:induction false} PutGet(s: bytes)
    ensures PutBE(GetBE(s), |s|) == s
  {
    if s != [] {
      var init, last := s[..|s| - 1], s[|s| - 1];
      PutGet(init);
      assert GetBE(s) / 256 == GetBE(init) && GetBE(s) % 256 == last as int;
      ToByteOf(GetBE(s), last);
      assert s == init + [last];
    }
  }

  lemma GetPutExact(n: nat, k: nat)
    requires n < Pow256(k)
    ensures GetBE(PutBE(n, k)) == n
  {
    GetPut(n, k);
    DivModUnique(n, Pow256(k), 0, n);
  }

  /** Go's `uint64(i)` on an `int64`. */
  function ToUint64(i: int64): uint64 {
    if i < 0 then i + 0x1_0000_0000_0000_0000 else i
  }

  /** Go's `int64(u)` on a `uint64`. */
  function ToInt64(u: uint64): int64 {
    if u < 0x8000_0000_0000_0000 then u else u - 0x1_0000_0000_0000_0000
  }

  lemma Get8(s: bytes)
    requires |s| == 8
    ensures GetBE(s) < 0x1_0000_0000_0000_0000
  {
    Powers();
  }

  lemma Get4(s: bytes)
    requires |s| == 4
    ensures GetBE(s) < 0x1_0000_0000
  {
    Powers();
  }

  lemma Get2(s: bytes)
    requires |s| == 2
    ensures GetBE(s) < 0x1_0000
  {
    Powers();
  }
}
