/** The fixed arithmetic work of weighted_payload.c and its independent checksum. */
module Lcg {
  import opened Words

  const MULT: u64 := 6364136223846793005
  const ADD: u64 := 1442695040888963407

  /** One pass of the work loop: x = x * MULT + ADD on 64 bits. */
  function Step(x: u64): u64 {
    (x * MULT + ADD) % TWO64
  }

  /** The work loop run for the given number of passes. */
  function Iterate(x: u64, steps: nat): (r: u64) {
    if steps == 0 then x else Step(Iterate(x, steps - 1))
  }

  lemma {:induction false} IterateAdds(x: u64, m: nat, n: nat)
    ensures Iterate(x, m + n) == Iterate(Iterate(x, m), n)
  {
    if n != 0 {
      IterateAdds(x, m, n - 1);
      assert m + n - 1 == m + (n - 1);
    }
  }

  /** compute: the work loop itself. */
  method Compute(x: u64, steps: u32) returns (r: u64)
    ensures r == Iterate(x, steps)
  {
    r := x;
    for i := 0 to steps
      invariant r == Iterate(x, i)
    {
      r := (r * MULT + ADD) % TWO64;
    }
  }

  /** The pair (a, c) stands for the map x -> a * x + c on 64 bits. */
  function Affine(a: u64, c: u64, x: u64): u64 {
    (x * a + c) % TWO64
  }

  /** (a, c) is the work loop run for p passes, for every seed. */
  ghost predicate Jumps(a: u64, c: u64, p: nat) {
    forall x: u64 :: Affine(a, c, x) == Iterate(x, p)
  }

  lemma MulMod(x: int, y: int, z: int)
    ensures ((x % TWO64) * y + z) % TWO64 == (x * y + z) % TWO64
  {
    var q := x / TWO64;
    assert x == q * TWO64 + x % TWO64;
    assert x * y + z == (x % TWO64) * y + z + (q * y) * TWO64 by {
      assert (q * TWO64 + x % TWO64) * y == (q * TWO64) * y + (x % TWO64) * y;
      assert (q * TWO64) * y == (q * y) * TWO64;
    }
    AddMultiple((x % TWO64) * y + z, q * y);
  }

  lemma AddMultiple(x: int, k: int)
    ensures (x + k * TWO64) % TWO64 == x % TWO64
  {
  }

  lemma ComposeAt(a1: u64, c1: u64, a2: u64, c2: u64, x: u64)
    ensures ((x * a1 + c1) % TWO64 * a2 + c2) % TWO64
         == (x * ((a1 * a2) % TWO64) + (c1 * a2 + c2) % TWO64) % TWO64
  {
    MulMod(x * a1 + c1, a2, c2);
    Expand(a1, c1, a2, c2, x);
    Reduce(a1 * a2, c1 * a2 + c2, x);
  }

  lemma Expand(a1: int, c1: int, a2: int, c2: int, x: int)
    ensures (x * a1 + c1) * a2 + c2 == (a1 * a2) * x + (c1 * a2 + c2)
  {
    assert (x * a1 + c1) * a2 == (x * a1) * a2 + c1 * a2;
    assert (x * a1) * a2 == (a1 * a2) * x;
  }

  lemma Reduce(a: int, c: int, x: int)
    ensures (a * x + c) % TWO64 == (x * (a % TWO64) + c % TWO64) % TWO64
  {
    MulMod(a, x, c);
    MulMod(c, 1, (a % TWO64) * x);
    assert (a % TWO64) * x == x * (a % TWO64);
  }

  /** Applying (a1, c1) and then (a2, c2) is the pair the source multiplies out. */
  lemma Composes(a1: u64, c1: u64, p1: nat, a2: u64, c2: u64, p2: nat)
    requires Jumps(a1, c1, p1) && Jumps(a2, c2, p2)
    ensures Jumps((a1 * a2) % TWO64, (c1 * a2 + c2) % TWO64, p1 + p2)
  {
    var a3: u64, c3: u64 := (a1 * a2) % TWO64, (c1 * a2 + c2) % TWO64;
    forall x: u64
      ensures Affine(a3, c3, x) == Iterate(x, p1 + p2)
    {
      var y := Affine(a1, c1, x);
      assert Affine(a2, c2, y) == Iterate(x, p1 + p2) by { IterateAdds(x, p1, p2); }
      ComposeAt(a1, c1, a2, c2, x);
    }
  }

  /** c *= a + 1; a *= a, with a + 1 itself reduced, doubles the number of passes. */
  lemma Doubles(a: u64, c: u64, p: nat)
    requires Jumps(a, c, p)
    ensures Jumps((a * a) % TWO64, (c * ((a + 1) % TWO64)) % TWO64, 2 * p)
  {
    Composes(a, c, p, a, c, p);
    MulMod(a + 1, c, 0);
    assert (a + 1) * c == c * a + c;
    assert ((a + 1) % TWO64) * c == c * ((a + 1) % TWO64);
  }

  lemma Halves(left: nat, power: nat)
    ensures left * power == (left / 2) * (2 * power) + (left % 2) * power
  {
    assert left == 2 * (left / 2) + left % 2;
    assert (2 * (left / 2)) * power == (left / 2) * (2 * power);
  }

  lemma OneStep()
    ensures Jumps(MULT, ADD, 1) && Jumps(1, 0, 0)
  {
    forall x: u64 ensures Affine(MULT, ADD, x) == Iterate(x, 1) {
      assert Iterate(x, 1) == Step(Iterate(x, 0));
    }
  }

  /** expected: the same number in logarithmically many passes. */
  method Expected(seed: u64, steps: u64) returns (r: u64)
    ensures r == Iterate(seed, steps)
  {
    var a: u64, c: u64 := MULT, ADD;
    var ra: u64, rc: u64 := 1, 0;
    var left: nat := steps;
    ghost var done: nat, power: nat := 0, 1;
    OneStep();
    while left != 0
      invariant Jumps(a, c, power) && Jumps(ra, rc, done)
      invariant steps == done + left * power
    {
      Halves(left, power);
      if left % 2 == 1 {
        Composes(ra, rc, done, a, c, power);
        rc, ra := (rc * a + c) % TWO64, (ra * a) % TWO64;
        done := done + power;
      }
      Doubles(a, c, power);
      c, a := (c * ((a + 1) % TWO64)) % TWO64, (a * a) % TWO64;
      left := left / 2;
      power := 2 * power;
    }
    r := (seed * ra + rc) % TWO64;
    assert r == Affine(ra, rc, seed);
  }

  function Pow2(k: nat): (n: nat)
    ensures n > 0
  {
    if k == 0 then 1 else 2 * Pow2(k - 1)
  }

  lemma {:induction false} PowSplits(k: nat, m: nat)
    ensures Pow2(k + m) == Pow2(k) * Pow2(m)
  {
    if m != 0 {
      PowSplits(k, m - 1);
      assert Pow2(k + m) == 2 * Pow2(k + (m - 1));
      assert Pow2(k) * (2 * Pow2(m - 1)) == 2 * (Pow2(k) * Pow2(m - 1));
    }
  }

  lemma PowDoubles(k: nat, n: nat) returns (m: nat)
    requires Pow2(k) == n
    ensures m == 2 * k && Pow2(m) == n * n
  {
    m := k + k;
    PowSplits(k, k);
  }

  lemma Word() returns (k: nat)
    ensures k == 64 && Pow2(k) == TWO64
  {
    k := 1;
    assert Pow2(k) == 2 * Pow2(0);
    k := PowDoubles(k, 2);
    k := PowDoubles(k, 4);
    k := PowDoubles(k, 16);
    k := PowDoubles(k, 0x100);
    k := PowDoubles(k, 0x1_0000);
    k := PowDoubles(k, TWO32);
  }

  /** Reducing to 64 bits keeps a factor of 2^k. */
  lemma FactorStays(k: nat, x: int, u: int) returns (v: int)
    requires k <= 64 && x == Pow2(k) * u
    ensures x % TWO64 == Pow2(k) * v
  {
    var w := Word();
    PowSplits(k, w - k);
    var q, r := x / TWO64, Pow2(w - k);
    v := u - q * r;
    Factored(Pow2(k), r, u, q);
    assert x % TWO64 == x - q * TWO64;
  }

  lemma Factored(p: int, r: int, u: int, q: int)
    ensures p * u - q * (p * r) == p * (u - q * r)
  {
    assert q * (p * r) == p * (q * r);
    assert p * (u - q * r) == p * u - p * (q * r);
  }

  /** After 2^k passes the multiplier is 1 and the increment 0, up to a multiple of 2^k: each doubling multiplies
      both by an even number. */
  lemma {:induction false} Doublings(k: nat) returns (a: u64, c: u64, u: int, v: int)
    requires k <= 64
    ensures Jumps(a, c, Pow2(k)) && a % 2 == 1 && a - 1 == Pow2(k) * u && c == Pow2(k) * v
  {
    if k == 0 {
      OneStep();
      a, c, u, v := MULT, ADD, MULT - 1, ADD;
    } else {
      var b, d, x, y := Doublings(k - 1);
      Doubles(b, d, Pow2(k - 1));
      a, c := (b * b) % TWO64, (d * ((b + 1) % TWO64)) % TWO64;
      u := SquareFactor(k, b, x);
      v := SumFactor(k, b, d, y);
    }
  }

  lemma SquareFactor(k: nat, b: u64, x: int) returns (u: int)
    requires 0 < k <= 64 && b % 2 == 1 && b - 1 == Pow2(k - 1) * x
    ensures (b * b) % TWO64 % 2 == 1 && (b * b) % TWO64 - 1 == Pow2(k) * u
  {
    u := SquareLess(k, b, x);
    u := FactorStays(k, b * b - 1, u);
    OddSquare(b);
    LessOne(b * b);
  }

  lemma SquareLess(k: nat, b: int, x: int) returns (u: int)
    requires 0 < k && b % 2 == 1 && b - 1 == Pow2(k - 1) * x
    ensures b * b - 1 == Pow2(k) * u
  {
    var w, p := (b + 1) / 2, Pow2(k - 1);
    u := x * w;
    assert b * b - 1 == (b - 1) * (b + 1);
    assert (b - 1) * (2 * w) == 2 * ((b - 1) * w);
    assert (p * x) * w == p * (x * w);
  }

  lemma LessOne(n: nat)
    requires n % TWO64 > 0
    ensures (n - 1) % TWO64 == n % TWO64 - 1
  {
  }

  lemma OddSquare(b: u64)
    requires b % 2 == 1
    ensures (b * b) % TWO64 % 2 == 1
  {
    var n, h := b * b, b / 2;
    assert b == 2 * h + 1;
    assert n == 2 * (b * h) + b by {
      assert b * (2 * h) == 2 * (b * h);
    }
    OddSum(n, b * h, b);
    EvenWord(n);
  }

  lemma OddSum(n: int, x: int, b: int)
    requires n == 2 * x + b && b % 2 == 1
    ensures n % 2 == 1
  {
  }

  lemma EvenWord(n: nat)
    ensures n % TWO64 % 2 == n % 2
  {
  }

  lemma SumFactor(k: nat, b: u64, d: u64, y: int) returns (v: int)
    requires 0 < k <= 64 && b % 2 == 1 && d == Pow2(k - 1) * y
    ensures (d * ((b + 1) % TWO64)) % TWO64 == Pow2(k) * v
  {
    var even := (b + 1) % TWO64;
    EvenWord(b + 1);
    var w := even / 2;
    EvenProduct(Pow2(k - 1), y, even, w);
    v := FactorStays(k, d * even, y * w);
  }

  lemma EvenProduct(p: int, y: int, even: int, w: int)
    requires even == 2 * w
    ensures (p * y) * even == (2 * p) * (y * w)
  {
    assert (p * y) * (2 * w) == 2 * ((p * y) * w);
    assert (p * y) * w == p * (y * w);
    assert (2 * p) * (y * w) == 2 * (p * (y * w));
  }

  /** The generator returns to its seed after 2^64 passes. */
  lemma Period(x: u64, n: nat)
    requires n == TWO64
    ensures Iterate(x, n) == x
  {
    var w := Word();
    var a, c, u, v := Doublings(w);
    Vanishes(Pow2(w), a, c, u, v, x);
    assert Affine(a, c, x) == Iterate(x, n);
  }

  lemma Vanishes(n: nat, a: u64, c: u64, u: int, v: int, x: u64)
    requires n == TWO64 && a - 1 == n * u && c == n * v && a > 0
    ensures Affine(a, c, x) == x
  {
    NothingLeft(n, a - 1, u);
    NothingLeft(n, c, v);
    assert Affine(1, 0, x) == x;
  }

  lemma NothingLeft(n: nat, x: int, u: int)
    requires x == n * u && 0 <= x < n
    ensures x == 0
  {
    Scaled(n, u);
  }

  lemma {:induction false} Cycles(x: u64, word: nat, q: nat, m: nat)
    requires Iterate(x, word) == x
    ensures Iterate(x, q * word + m) == Iterate(x, m)
  {
    if q != 0 {
      var rest := (q - 1) * word + m;
      Cycles(x, word, q - 1, m);
      IterateAdds(x, word, rest);
      assert q * word + m == word + rest;
    }
  }

  /** So a number of passes that has wrapped at 64 bits still names the same checksum. */
  lemma WrappedPasses(x: u64, n: nat)
    ensures Iterate(x, n) == Iterate(x, n % TWO64)
  {
    var word := TWO64;
    Period(x, word);
    Cycles(x, word, n / TWO64, n % TWO64);
    assert n / TWO64 * word + n % TWO64 == n;
  }
}
