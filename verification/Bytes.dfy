/** Fixed-width big-endian integers. */
module Bytes {
  import opened Domain

  type Bytes = seq<Octet>

  function Pow256(n: nat): (p: nat)
    ensures p > 0
  {
    if n == 0 then 1 else 256 * Pow256(n - 1)
  }

  /** The low `n` octets of `x`, most significant first. */
  function BigEndian(x: nat, n: nat): (s: Bytes)
    ensures |s| == n
  {
    if n == 0 then [] else BigEndian(x / 256, n - 1) + [x % 256]
  }

  function Value(s: Bytes): nat {
    if s == [] then 0 else 256 * Value(s[..|s| - 1]) + s[|s| - 1]
  }

  lemma {:induction false} ValueIsBounded(s: Bytes)
    ensures Value(s) < Pow256(|s|)
  {
    if s != [] {
      ValueIsBounded(s[..|s| - 1]);
    }
  }

  lemma {:induction false} ValueOfBigEndian(x: nat, n: nat)
    requires x < Pow256(n)
    ensures Value(BigEndian(x, n)) == x
  {
    if n > 0 {
      ValueOfBigEndian(x / 256, n - 1);
      assert BigEndian(x, n)[..n - 1] == BigEndian(x / 256, n - 1);
    }
  }

  lemma {:induction false} BigEndianOfValue(s: Bytes)
    ensures BigEndian(Value(s), |s|) == s
  {
    if s != [] {
      BigEndianOfValue(s[..|s| - 1]);
    }
  }

  lemma Widths()
    ensures Pow256(1) == 0x100 && Pow256(2) == 0x1_0000
    ensures Pow256(4) == 0x1_0000_0000 && Pow256(8) == U64_MAX + 1
  {
    assert Pow256(2) == 256 * Pow256(1);
    assert Pow256(4) == 256 * Pow256(3) == 256 * 256 * Pow256(2);
    assert Pow256(6) == 256 * Pow256(5) == 256 * 256 * Pow256(4);
    assert Pow256(8) == 256 * Pow256(7) == 256 * 256 * Pow256(6);
  }

  function U64At(s: Bytes, offset: nat): (x: U64)
    requires offset + 8 <= |s|
  {
    ValueIsBounded(s[offset..offset + 8]);
    Widths();
    Value(s[offset..offset + 8])
  }

  // ---------- The loops that write and read them ----------

  lemma {:induction false} OctetOfBigEndian(x: nat, n: nat, k: nat)
    requires k < n
    ensures BigEndian(x, n)[n - 1 - k] == x / Pow256(k) % 256
  {
    if k > 0 {
      OctetOfBigEndian(x / 256, n - 1, k - 1);
      DivideTwice(x, Pow256(k - 1));
    }
  }

  lemma DivideTwice(x: nat, p: nat)
    requires p > 0
    ensures x / 256 / p == x / (256 * p)
  {
    var q := x / 256;
    var (r, s) := (q / p, q % p);
    assert q == r * p + s;
    assert x == r * (256 * p) + (256 * s + x % 256);
    QuotientIsUnique(x, 256 * p, r, 256 * s + x % 256);
  }

  lemma MultipleIsLarge(k: int, d: int)
    requires k >= 1 && d > 0
    ensures k * d >= d
  {
  }

  lemma QuotientIsUnique(x: int, d: int, q: int, r: int)
    requires d > 0 && x == q * d + r && 0 <= r < d
    ensures x / d == q
  {
    var k := q - x / d;
    assert k * d == q * d - x / d * d;
    assert k * d == x % d - r;
    if k >= 1 {
      MultipleIsLarge(k, d);
    }
    if -k >= 1 {
      MultipleIsLarge(-k, d);
    }
  }

  method Append(bytes: Bytes, x: nat, width: nat) returns (r: Bytes)
    ensures r == bytes + BigEndian(x, width)
  {
    r := bytes;
    var shift := width;
    while shift > 0
      invariant 0 <= shift <= width
      invariant r == bytes + BigEndian(x, width)[..width - shift]
    {
      shift := shift - 1;
      OctetOfBigEndian(x, width, shift);
      r := r + [x / Pow256(shift) % 256];
    }
  }

  method Read(bytes: Bytes, offset: nat, width: nat) returns (x: nat)
    requires offset + width <= |bytes|
    ensures x == Value(bytes[offset..offset + width])
  {
    x := 0;
    for index := 0 to width
      invariant x == Value(bytes[offset..offset + index])
    {
      x := 256 * x + bytes[offset + index];
      assert bytes[offset..offset + index + 1][..index] == bytes[offset..offset + index];
    }
  }
}
