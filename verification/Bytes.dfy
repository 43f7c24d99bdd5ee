// Bytes and big-endian numbers.
module Bytes {

  type byte = x: int | 0 <= x < 256

  const TWO16: nat := 0x1_0000
  const TWO24: nat := 0x100_0000
  const TWO32: nat := 0x1_0000_0000
  const TWO64: nat := 0x1_0000_0000_0000_0000

  // The n low bytes of v, most significant first.
  function Be(v: nat, n: nat): (b: seq<byte>)
    ensures |b| == n
    decreases n
  {
    if n == 0 then [] else Be(v / 256, n - 1) + [v % 256]
  }

  // The number that a string of bytes spells, most significant first.
  function U(b: seq<byte>): nat {
    if b == [] then 0 else U(b[..|b| - 1]) * 256 + b[|b| - 1]
  }

  function Pow256(n: nat): (p: nat)
    ensures p > 0
  {
    if n == 0 then 1 else 256 * Pow256(n - 1)
  }

  lemma Powers()
    ensures Pow256(1) == 256 && Pow256(2) == TWO16 && Pow256(3) == TWO24 && Pow256(4) == TWO32 && Pow256(8) == TWO64
  {
    assert Pow256(3) == 256 * Pow256(2);
    assert Pow256(5) == 256 * Pow256(4);
    assert Pow256(7) == 256 * Pow256(6);
  }

  lemma MulGrows(e: int, d: nat)
    requires e >= 1
    ensures e * d >= d
  {
    assert e * d == d + (e - 1) * d;
  }

  lemma Small(a: nat, b: nat)
    requires a < b
    ensures a % b == a
  {
  }

  lemma Euclid(v: nat, d: nat, q: nat, r: nat)
    requires d > 0 && v == q * d + r && r < d
    ensures v / d == q && v % d == r
  {
    var e: int := v / d as int - q;
    assert e * d == (v / d) * d - q * d;
    if e >= 1 {
      MulGrows(e, d);
    } else if e <= -1 {
      MulGrows(-e, d);
    }
  }

  lemma MulSwap(q: nat, p: nat, b: nat)
    ensures (q * p) * b == q * (b * p)
  {
  }

  lemma Scaled(u: nat, q: nat, p: nat, x: nat, b: nat)
    requires u == q * p + x
    ensures u * b == q * (b * p) + x * b
  {
    MulSwap(q, p, b);
  }

  lemma DigitBound(x: nat, p: nat, y: nat, b: nat)
    requires x < p && y < b
    ensures x * b + y < b * p
  {
    MulGrows(p - x, b);
    assert (p - x) * b == p * b - x * b;
  }

  // Dropping the lowest digit commutes with reducing modulo p.
  lemma DropDigit(v: nat, b: nat, p: nat)
    requires b > 0 && p > 0 && b * p > 0
    ensures v % (b * p) == (v / b % p) * b + v % b
  {
    var u := v / b;
    var q, x := u / p, u % p;
    Scaled(u, q, p, x, b);
    DigitBound(x, p, v % b, b);
    Euclid(v, b * p, q, x * b + v % b);
  }

  // Dropping the low byte commutes with reducing modulo a power of 256.
  lemma ModStep(v: nat, n: nat)
    ensures v % (256 * Pow256(n)) == (v / 256 % Pow256(n)) * 256 + v % 256
  {
    DropDigit(v, 256, Pow256(n));
  }

  // Reading back n bytes of v gives v modulo 256^n.
  lemma {:induction false} UBe(v: nat, n: nat)
    ensures U(Be(v, n)) == v % Pow256(n)
  {
    if n > 0 {
      UBe(v / 256, n - 1);
      ModStep(v, n - 1);
      assert Be(v, n)[..n - 1] == Be(v / 256, n - 1);
    }
  }

  // Only the low n bytes are written.
  lemma {:induction false} BeMod(v: nat, n: nat)
    ensures Be(v % Pow256(n), n) == Be(v, n)
  {
    if n > 0 {
      ModStep(v, n - 1);
      BeMod(v / 256, n - 1);
      Euclid(v % Pow256(n), 256, v / 256 % Pow256(n - 1), v % 256);
    }
  }

  // Overwrites the bytes from index i on.
  function Patch(b: seq<byte>, i: nat, patch: seq<byte>): (r: seq<byte>)
    requires i + |patch| <= |b|
    ensures |r| == |b|
  {
    b[..i] + patch + b[i + |patch|..]
  }

  function Zeros(n: nat): (z: seq<byte>)
    ensures |z| == n
  {
    seq(n, _ => 0)
  }

  // ---------- differences modulo m ----------

  lemma ModAdd(x: int, k: int, m: nat)
    requires m > 0
    ensures (x + k * m) % m == x % m
  {
    var q, r := x / m, x % m;
    assert x == q * m + r;
    assert x + k * m == (q + k) * m + r;
    ModOf(x + k * m, q + k, r, m);
  }

  lemma ModOf(v: int, q: int, r: nat, m: nat)
    requires m > 0 && v == q * m + r && r < m
    ensures v % m == r
  {
    var e := v / m - q;
    assert e * m == (v / m) * m - q * m;
    if e >= 1 {
      MulGrows(e, m);
    } else if e <= -1 {
      MulGrows(-e, m);
    }
  }

  lemma ModSub(x: int, y: int, m: nat)
    requires m > 0
    ensures (x % m - y) % m == (x - y) % m
  {
    ModAdd(x % m - y, x / m, m);
  }

  lemma SubMod(x: int, y: int, m: nat)
    requires m > 0
    ensures (x - y % m) % m == (x - y) % m
  {
    ModAdd(x - y % m, -(y / m), m);
    assert x - y % m + -(y / m) * m == x - y;
  }

  // Taking y away changes nothing exactly if it is a multiple of m.
  lemma SubStays(x: nat, y: int, m: nat)
    requires x < m
    ensures (x - y) % m == x <==> y % m == 0
  {
    SubMod(x, y, m);
    var r := y % m;
    if r != 0 && r <= x {
      ModOf(x - r, 0, x - r, m);
    } else if r != 0 {
      ModOf(x - r, -1, x - r + m, m);
    } else {
      ModOf(x, 0, x, m);
    }
  }
}
