/** The kernel's 256-bit product. Operands and every intermediate have type `u128`, so a
    partial sum or product that could overflow 128 bits would be a verification error. */
module WideMul {

  const B64: int := 0x1_0000_0000_0000_0000
  const B128: int := 0x1_0000_0000_0000_0000_0000_0000_0000_0000

  newtype u128 = v: int | 0 <= v < 0x1_0000_0000_0000_0000_0000_0000_0000_0000

  datatype Ordering = Less | Equal | Greater

  function CmpInt(x: int, y: int): (o: Ordering)
    ensures o == Less <==> x < y
    ensures o == Greater <==> x > y
  {
    if x < y then Less else if x == y then Equal else Greater
  }

  function Cmp(x: u128, y: u128): Ordering {
    CmpInt(x as int, y as int)
  }

  /** `v & MASK` and `v >> 64`. */
  function Low(v: u128): u128 {
    v % 0x1_0000_0000_0000_0000
  }

  function High(v: u128): u128 {
    v / 0x1_0000_0000_0000_0000
  }

  lemma Halves(v: u128)
    ensures v as int == High(v) as int * B64 + Low(v) as int
    ensures 0 <= Low(v) as int < B64 && 0 <= High(v) as int < B64
  {
  }

  lemma ProductBound(x: int, y: int, m: int, n: int)
    requires 0 <= x <= m && 0 <= y <= n
    ensures 0 <= x * y <= m * n
  {
    assert x * y <= m * y;
    assert m * y <= m * n;
  }

  /** One 64 by 64 bit product, which fits 128 bits. */
  function Mul64(x: u128, y: u128): (r: u128)
    requires x as int < B64 && y as int < B64
    ensures r as int == x as int * y as int <= (B64 - 1) * (B64 - 1)
  {
    ProductBound(x as int, y as int, B64 - 1, B64 - 1);
    x * y
  }

  /** The full product as high and low halves, by four 64-bit products. */
  function MulWide(a: u128, b: u128): (r: (u128, u128))
    ensures r.0 as int * B128 + r.1 as int == a as int * b as int
  {
    Halves(a);
    Halves(b);
    var p00 := Mul64(Low(a), Low(b));
    var p01 := Mul64(Low(a), High(b));
    var p10 := Mul64(High(a), Low(b));
    var p11 := Mul64(High(a), High(b));
    Halves(p00);
    Halves(p01);
    Halves(p10);
    var mid := High(p00) + Low(p01) + Low(p10);
    Halves(mid);
    // The two parts occupy disjoint bits, so their bitwise or is their sum.
    var lo := Low(p00) + Low(mid) * 0x1_0000_0000_0000_0000;
    HighFits(Low(a) as int, High(a) as int, Low(b) as int, High(b) as int);
    SchoolBook(Low(a) as int, High(a) as int, Low(b) as int, High(b) as int);
    HighSum(p00 as int, p01 as int, p10 as int, p11 as int, High(p00) as int, Low(p00) as int,
            High(p01) as int, Low(p01) as int, High(p10) as int, Low(p10) as int,
            mid as int, High(mid) as int, Low(mid) as int);
    var hi := p11 + High(p01) + High(p10) + High(mid);
    (hi, lo)
  }

  lemma SchoolBook(a0: int, a1: int, b0: int, b1: int)
    ensures (a1 * B64 + a0) * (b1 * B64 + b0) == a1 * b1 * B128 + (a0 * b1 + a1 * b0) * B64 + a0 * b0
  {
    var k := B64;
    assert k * k == B128;
    assert (a1 * k + a0) * (b1 * k + b0) == a1 * k * (b1 * k + b0) + a0 * (b1 * k + b0);
    assert a1 * k * (b1 * k + b0) == a1 * b1 * (k * k) + a1 * b0 * k;
    assert a0 * (b1 * k + b0) == a0 * b1 * k + a0 * b0;
  }

  /** Carrying the middle products gives the same total, and the high half is below 2^128. */
  lemma HighSum(p00: int, p01: int, p10: int, p11: int, h00: int, l00: int, h01: int, l01: int,
                h10: int, l10: int, mid: int, hm: int, lm: int)
    requires p00 == h00 * B64 + l00 && p01 == h01 * B64 + l01 && p10 == h10 * B64 + l10
    requires mid == h00 + l01 + l10 && mid == hm * B64 + lm
    requires 0 <= l00 < B64 && 0 <= lm < B64
    requires p11 * B128 + (p01 + p10) * B64 + p00 < B128 * B128
    ensures (p11 + h01 + h10 + hm) * B128 + (l00 + lm * B64) == p11 * B128 + (p01 + p10) * B64 + p00
    ensures p11 + h01 + h10 + hm < B128
  {
  }

  lemma HighFits(a0: int, a1: int, b0: int, b1: int)
    requires 0 <= a0 < B64 && 0 <= a1 < B64 && 0 <= b0 < B64 && 0 <= b1 < B64
    ensures a1 * b1 * B128 + (a0 * b1 + a1 * b0) * B64 + a0 * b0 < B128 * B128
  {
    SchoolBook(a0, a1, b0, b1);
    var a, b := a1 * B64 + a0, b1 * B64 + b0;
    ProductBound(a, b, B128 - 1, B128 - 1);
  }

  /** Compare a*b with c*d through the two-limb products, lexicographically. */
  function CmpProducts(a: u128, b: u128, c: u128, d: u128): (o: Ordering)
    ensures o == CmpInt(a as int * b as int, c as int * d as int)
  {
    var (h1, l1) := MulWide(a, b);
    var (h2, l2) := MulWide(c, d);
    if h1 != h2 then Cmp(h1, h2) else Cmp(l1, l2)
  }
}
