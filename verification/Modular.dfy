/** Congruence modulo a variable capacity. */
module Modular {
  predicate Congruent(a: int, b: int, c: nat)
    requires c > 0
  {
    a % c == b % c
  }

  lemma MultipleSize(q: int, c: nat)
    ensures q >= 1 ==> q * c >= c
    ensures q <= -1 ==> q * c + c <= 0
  {
    if q >= 1 {
      assert q * c == (q - 1) * c + c;
    } else if q <= -1 {
      assert q * c + c == (q + 1) * c;
    }
  }

  lemma MultipleMod(q: int, r: int, c: nat)
    requires c > 0 && 0 <= r < c
    ensures (q * c + r) % c == r
  {
    var x := q * c + r;
    var d := x / c;
    assert x == d * c + x % c;
    assert (q - d) * c == x % c - r;
    MultipleSize(q - d, c);
  }

  lemma Quotient(a: int, b: int, c: nat) returns (q: int)
    requires c > 0 && Congruent(a, b, c)
    ensures a == b + q * c
  {
    q := a / c - b / c;
    assert a == (a / c) * c + a % c && b == (b / c) * c + b % c;
    assert (a / c - b / c) * c == (a / c) * c - (b / c) * c;
  }

  lemma FromQuotient(a: int, b: int, c: nat, q: int)
    requires c > 0 && a == b + q * c
    ensures Congruent(a, b, c)
  {
    var d := b / c;
    assert b == d * c + b % c;
    assert (d + q) * c == d * c + q * c;
    MultipleMod(d + q, b % c, c);
  }

  lemma CongruentAdd(a: int, b: int, d: int, c: nat)
    requires c > 0 && Congruent(a, b, c)
    ensures Congruent(a + d, b + d, c)
  {
    var q := Quotient(a, b, c);
    FromQuotient(a + d, b + d, c, q);
  }

  lemma CongruentMod(a: int, c: nat)
    requires c > 0
    ensures Congruent(a % c, a, c) && 0 <= a % c < c
  {
    assert a == (a / c) * c + a % c;
    assert (-(a / c)) * c == -((a / c) * c);
    FromQuotient(a % c, a, c, -(a / c));
  }

  /** A coarser modulus. */
  lemma CongruentDivisor(a: int, b: int, c: nat, m: nat)
    requires c > 0 && m > 0 && c % m == 0 && Congruent(a, b, c)
    ensures Congruent(a, b, m)
  {
    var q := Quotient(a, b, c);
    assert c == (c / m) * m;
    assert q * ((c / m) * m) == (q * (c / m)) * m;
    FromQuotient(a, b, m, q * (c / m));
  }

  lemma CongruentClose(a: int, b: int, c: nat)
    requires c > 0 && Congruent(a, b, c) && a - b < c && b - a < c
    ensures a == b
  {
    var q := Quotient(a, b, c);
    MultipleSize(q, c);
  }

  lemma SmallMod(a: int, c: nat)
    requires 0 <= a < c
    ensures a % c == a
  {
    MultipleMod(0, a, c);
  }

  lemma Step(a: int, c: nat)
    requires c > 0
    ensures (a % c + 1) % c == (a + 1) % c
  {
    CongruentMod(a, c);
    CongruentAdd(a % c, a, 1, c);
  }

  /** Every residue is met within one turn. */
  lemma OneTurn(h: nat, p: nat, m: nat) returns (e: nat)
    requires p < m
    ensures e < m && (h + e) % m == p
  {
    e := (p - h) % m;
    CongruentMod(p - h, m);
    CongruentAdd((p - h) % m, p - h, h, m);
    assert p - h + h == p && (p - h) % m + h == h + e;
    SmallMod(p, m);
  }

  lemma DivisorTwice(c: nat, m: nat)
    requires m > 0 && c % m == 0
    ensures (2 * c) % m == 0
  {
    assert c == (c / m) * m;
    assert 2 * ((c / m) * m) == (2 * (c / m)) * m;
    MultipleMod(2 * (c / m), 0, m);
  }
}
