/** Residues, with the few congruences that 64-bit index arithmetic needs. Proofs about the index hide `Mod` and
    work from these lemmas alone. */
module Modular {

  function Mod(a: int, n: int): (r: nat)
    requires 0 < n
    ensures r < n
  {
    a % n
  }

  lemma SmallMultiple(n: int, d: int)
    requires 0 < n && -n < n * d < n
    ensures d == 0
  {
  }

  lemma ModUnique(a: int, n: int, q: int, r: int)
    requires 0 < n && a == n * q + r && 0 <= r < n
    ensures Mod(a, n) == r
  {
    var d := q - a / n;
    assert n * d == n * q - n * (a / n);
    SmallMultiple(n, d);
  }

  /** Adding a multiple changes nothing. */
  lemma ModPlus(a: int, n: int, k: int)
    requires 0 < n
    ensures Mod(a + n * k, n) == Mod(a, n)
  {
    assert n * (a / n + k) == n * (a / n) + n * k;
    ModUnique(a + n * k, n, a / n + k, a % n);
  }

  /** Numbers that differ by one period have the same residue. */
  lemma ModPeriod(a: int, n: int)
    requires 0 < n
    ensures Mod(a - n, n) == Mod(a, n)
  {
    ModPlus(a, n, -1);
  }

  lemma ModSmall(a: int, n: int)
    requires 0 <= a < n
    ensures Mod(a, n) == a
  {
    ModUnique(a, n, 0, a);
  }

  lemma ModAtMost(a: nat, n: int)
    requires 0 < n
    ensures Mod(a, n) <= a
  {
    assert 0 <= a / n;
    assert 0 <= n * (a / n);
  }

  /** Reducing first modulo a multiple of n does not change the residue modulo n. */
  lemma ModMod(a: int, n: int, k: int, m: int)
    requires 0 < n && m == n * k && 0 < m
    ensures Mod(Mod(a, m), n) == Mod(a, n)
  {
    var q, r := a / m, a % m;
    assert a == r + n * (k * q) by {
      Assoc(n, k, q);
    }
    ModPlus(r, n, k * q);
  }

  lemma Assoc(a: int, b: int, c: int)
    ensures a * b * c == a * (b * c)
  {
  }

  /** Equal residues differ by a multiple. */
  lemma ModEqual(a: int, b: int, n: int) returns (k: int)
    requires 0 < n && Mod(a, n) == Mod(b, n)
    ensures a == b + n * k
  {
    k := a / n - b / n;
    assert n * k == n * (a / n) - n * (b / n);
  }

  /** Equal residues stay equal under addition. */
  lemma ModShift(a: int, b: int, d: int, n: int)
    requires 0 < n && Mod(a, n) == Mod(b, n)
    ensures Mod(a + d, n) == Mod(b + d, n)
  {
    var k := ModEqual(a, b, n);
    ModPlus(b + d, n, k);
  }

  /** A residue may be replaced by the number it came from. */
  lemma ModInner(a: int, d: int, n: int)
    requires 0 < n
    ensures Mod(Mod(a, n) + d, n) == Mod(a + d, n)
  {
    ModSmall(Mod(a, n), n);
    ModShift(Mod(a, n), a, d, n);
  }

  /** Residues in a window of length n determine the number. */
  lemma ModWindow(a: int, b: int, n: int)
    requires 0 < n && Mod(a, n) == Mod(b, n) && a - n < b < a + n
    ensures a == b
  {
    var k := ModEqual(a, b, n);
    SmallMultiple(n, k);
  }
}
