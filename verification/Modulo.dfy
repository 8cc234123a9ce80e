/** Division with remainder, for moduli that are not constants. */
module Modulo {

  function Mod(x: nat, m: nat): (r: nat)
    requires m > 0
    ensures r < m
  {
    x % m
  }

  lemma ModMeans(x: nat, m: nat)
    requires m > 0
    ensures Mod(x, m) == x % m
  {
  }

  /** Quotient and remainder are determined by their equation. */
  lemma DivisionUnique(a: nat, m: nat, q: nat, r: nat)
    requires 0 < m && r < m && a == m * q + r
    ensures a / m == q && a % m == r
  {
    Distance(m, q - a / m, r - a % m);
  }

  lemma Distance(m: nat, d: int, e: int)
    requires m > 0 && m * d == -e && -(m as int) < e < m
    ensures d == 0 && e == 0
  {
    if d >= 1 { Times(m, d - 1); }
    if d <= -1 { Times(m, -d - 1); }
  }

  lemma Times(m: nat, k: nat)
    ensures m * k >= 0 && m * (k + 1) == m * k + m && m * (-(k as int) - 1) == -(m * k + m)
  {
  }

  lemma Distribute(m: nat, a: nat, b: nat)
    ensures m * (a + b) == m * a + m * b
  {
  }

  lemma Reassociate(a: nat, b: nat, c: nat)
    ensures (a * b) * c == a * (b * c)
  {
  }

  lemma Quotient(p: nat, m: nat) returns (q: nat)
    requires m > 0
    ensures p == Mod(p, m) + m * q
  {
    q := p / m;
  }

  lemma ModAdd(x: nat, m: nat, k: nat)
    requires m > 0
    ensures Mod(x + m * k, m) == Mod(x, m)
  {
    Distribute(m, x / m, k);
    DivisionUnique(x + m * k, m, x / m + k, x % m);
  }

  /** Reducing modulo a multiple of m first changes nothing modulo m. */
  lemma ModMod(x: nat, m: nat, k: nat)
    requires m > 0 && m * k > 0
    ensures Mod(Mod(x, m * k), m) == Mod(x, m)
  {
    hide Mod;
    var q := Quotient(x, m * k);
    Reassociate(m, k, q);
    ModAdd(Mod(x, m * k), m, k * q);
  }

  /** The remainder of a double modulus, bit by bit */
  lemma ModHalves(x: nat, m: nat)
    requires m > 0
    ensures Mod(x, 2 * m) == 2 * Mod(x / 2, m) + x % 2
  {
    var q, r := (x / 2) / m, (x / 2) % m;
    Reassociate(2, m, q);
    DivisionUnique(x, 2 * m, q, 2 * r + x % 2);
  }

  lemma ModSum(x: nat, k: nat, m: nat)
    requires m > 0 && k <= m
    ensures Mod(x + k, m) == if Mod(x, m) + k < m then Mod(x, m) + k else Mod(x, m) + k - m
  {
    hide Mod;
    var q := Quotient(x, m);
    if Mod(x, m) + k < m {
      ModOf(x + k, m, q, Mod(x, m) + k);
    } else {
      Distribute(m, q, 1);
      ModOf(x + k, m, q + 1, Mod(x, m) + k - m);
    }
  }

  lemma ModOf(a: nat, m: nat, q: nat, r: nat)
    requires 0 < m && r < m && a == m * q + r
    ensures Mod(a, m) == r
  {
    DivisionUnique(a, m, q, r);
  }
}
