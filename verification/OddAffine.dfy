// The affine maps `a*x + b` with odd `a` are one-to-one on 64-bit words
// (crates/fp-core/src/fuzzy/minhash.rs, the permutation family).
module OddAffine {
  import opened Basics

  /** One affine hash over the ring of 64-bit words. */
  datatype Affine = Affine(a: nat, b: nat) {
    function At(x: nat): nat {
      (a * x + b) % U64
    }
  }

  function Pow2(k: nat): (r: nat)
    ensures r > 0
  {
    if k == 0 then 1 else 2 * Pow2(k - 1)
  }

  lemma {:induction false} Pow2Add(i: nat, j: nat)
    ensures Pow2(i + j) == Pow2(i) * Pow2(j)
  {
    if i > 0 {
      Pow2Add(i - 1, j);
    }
  }

  lemma WordRange()
    ensures Pow2(64) == U64
  {
    assert Pow2(8) == 0x100;
    Pow2Add(8, 8);
    Pow2Add(16, 16);
    Pow2Add(32, 32);
  }

  lemma DivExact(n: int, m: nat)
    requires m > 0 && n % m == 0
    ensures n == m * (n / m)
  {
  }

  lemma TimesAtLeast(e: int, m: nat)
    requires e >= 1
    ensures e * m >= m
  {
  }

  lemma ModOfMultiple(m: nat, q: int)
    requires m > 0
    ensures m * q % m == 0
  {
    var k := m * q;
    var e := q - k / m;
    assert e * m == k % m by {
      assert k == m * (k / m) + k % m;
    }
    if e >= 1 {
      TimesAtLeast(e, m);
    } else if e <= -1 {
      TimesAtLeast(-e, m);
    }
  }

  lemma OddFactor(a: nat, d: nat, n: nat)
    requires a % 2 == 1 && a * d == 2 * n
    ensures d % 2 == 0
  {
    var h := a / 2;
    assert a * d == (2 * h + 1) * d == 2 * (h * d) + d;
    assert d == 2 * (n - h * d);
  }

  /** An odd factor can be cancelled modulo a power of two. */
  lemma {:induction false} OddCancels(a: nat, d: nat, bits: nat)
    requires a % 2 == 1 && a * d % Pow2(bits) == 0
    ensures d % Pow2(bits) == 0
    decreases bits
  {
    if bits > 0 {
      var half := Pow2(bits - 1);
      var q := a * d / (2 * half);
      DivExact(a * d, 2 * half);
      assert a * d == 2 * (half * q);
      OddFactor(a, d, half * q);
      var e := d / 2;
      assert a * e == half * q by { Halve(a, d, e, half * q); }
      ModOfMultiple(half, q);
      OddCancels(a, e, bits - 1);
      DivExact(e, half);
      var r := e / half;
      assert d == (2 * half) * r;
      ModOfMultiple(2 * half, r);
    }
  }

  lemma Halve(a: nat, d: nat, e: nat, n: nat)
    requires d == 2 * e && a * d == 2 * n
    ensures a * e == n
  {
    assert a * d == 2 * (a * e);
  }

  lemma SameRemainder(m: nat, x: int, y: int)
    requires m > 0 && x % m == y % m
    ensures (x - y) % m == 0
  {
    var q := x / m - y / m;
    DivMod(x, m);
    DivMod(y, m);
    assert x - y == m * q;
    ModOfMultiple(m, q);
  }

  lemma DivMod(x: int, m: nat)
    requires m > 0
    ensures x == m * (x / m) + x % m
  {
  }

  lemma DifferenceVanishes(a: nat, b: nat, hi: nat, lo: nat, m: nat)
    requires m > 0 && lo <= hi && (a * hi + b) % m == (a * lo + b) % m
    ensures a * (hi - lo) % m == 0
  {
    SameRemainder(m, a * hi + b, a * lo + b);
    assert (a * hi + b) - (a * lo + b) == a * (hi - lo);
  }

  lemma SmallMultiple(d: nat, m: nat)
    requires d < m && d % m == 0
    ensures d == 0
  {
  }

  /** An odd multiplier makes the affine hash one-to-one on words. */
  lemma AffineInjective(p: Affine, x: nat, y: nat)
    requires p.a % 2 == 1 && x < U64 && y < U64 && p.At(x) == p.At(y)
    ensures x == y
  {
    var hi, lo := Max(x, y), Min(x, y);
    DifferenceVanishes(p.a, p.b, hi, lo, U64);
    WordRange();
    OddCancels(p.a, hi - lo, 64);
    SmallMultiple(hi - lo, U64);
  }
}
