/** Fixed-width unsigned arithmetic and the tag encodings the programs share. */
module Words {
  const TWO16: nat := 0x1_0000
  const TWO32: nat := 0x1_0000_0000
  const TWO48: nat := 0x1_0000_0000_0000
  const TWO64: nat := 0x1_0000_0000_0000_0000

  type u16 = x: int | 0 <= x < TWO16
  type u32 = x: int | 0 <= x < TWO32
  type u64 = x: int | 0 <= x < TWO64

  /** C unsigned addition and subtraction on 32 bits. */
  function Add32(x: u32, y: u32): u32 {
    (x + y) % TWO32
  }

  function Sub32(x: u32, y: u32): u32 {
    (x - y) % TWO32
  }

  /** Adding a multiple of the modulus changes no remainder. */
  lemma SameResidue(x: int, y: int, k: int, m: nat)
    requires m > 0 && x == m * k + y
    ensures x % m == y % m
  {
    assert y == m * (y / m) + y % m;
    assert x == m * (k + y / m) + y % m;
    Unique(x, k + y / m, y % m, m);
  }

  lemma Unique(x: int, q: int, r: int, m: nat)
    requires m > 0 && x == m * q + r && 0 <= r < m
    ensures x % m == r
  {
    var d := x / m - q;
    assert m * d == r - x % m;
    Scaled(m, d);
  }

  lemma Scaled(m: nat, d: int)
    ensures d > 0 ==> m * d >= m
    ensures d < 0 ==> m * d + m <= 0
    ensures d == 0 ==> m * d == 0
  {
  }
}
