/** One bit of a byte: x & (1 << k), x | (1 << k) and x & ~(1 << k), in arithmetic. */
module Bits {
  import opened Memlib

  function Pow(k: nat): nat {
    if k == 0 then 1 else if k == 1 then 2 else if k == 2 then 4 else if k == 3 then 8
    else if k == 4 then 16 else if k == 5 then 32 else if k == 6 then 64 else 128
  }

  // x & (1 << k)
  function BitOf(x: byte, k: nat): bool {
    x / Pow(k) % 2 == 1
  }

  // x | (1 << k), for a clear bit, and x & ~(1 << k), for a set one.
  function SetBit(x: byte, k: nat): (y: byte)
    requires k < 8 && !BitOf(x, k)
  {
    FitsByte(x, k);
    x + Pow(k)
  }

  function ClearBit(x: byte, k: nat): (y: byte)
    requires k < 8 && BitOf(x, k)
  {
    x - Pow(k)
  }

  lemma FitsByte(x: byte, k: nat)
    requires k < 8 && !BitOf(x, k)
    ensures x + Pow(k) < 256
  {
    assert k == 0 || k == 1 || k == 2 || k == 3 || k == 4 || k == 5 || k == 6 || k == 7;
  }

  lemma Away(d: int, z: int)
    requires d > 0
    ensures z >= 1 ==> d * z >= d
    ensures z <= -1 ==> d * z <= -d
  {
    Scales(d, z - 1);
    Scales(d, -z - 1);
    Distributes(d, z - 1, 1);
    Distributes(d, -z - 1, 1);
    Distributes(d, z, -z);
  }

  lemma Scales(d: int, z: int)
    ensures d >= 0 && z >= 0 ==> d * z >= 0
  {
  }

  lemma Quotient(x: nat, d: nat, q: nat, r: nat)
    requires d > 0 && x == d * q + r && r < d
    ensures x / d == q
  {
    var e, t := x / d, x % d;
    Division(x, d);
    Distributes(d, e - q, q);
    Away(d, e - q);
  }

  lemma Division(x: nat, d: nat)
    requires d > 0
    ensures x == d * (x / d) + x % d && x % d < d
  {
  }

  lemma Associates(p: nat, m: nat, b: nat)
    ensures p * (m * b) == (p * m) * b
  {
  }

  lemma Distributes(p: int, x: int, y: int)
    ensures p * (x + y) == p * x + p * y
  {
  }

  lemma Grows(p: nat, s: nat, m: nat)
    requires s <= m
    ensures p * s <= p * m
  {
  }

  lemma DivideTwice(x: nat, p: nat, m: nat)
    requires p > 0 && m > 0
    ensures p * m > 0 && x / (p * m) == x / p / m
  {
    var a, r := Parts(x, p);
    var b, s := Parts(a, m);
    Nested(x, p, m, a, r, b, s);
  }

  lemma Nested(x: nat, p: nat, m: nat, a: nat, r: nat, b: nat, s: nat)
    requires p > 0 && m > 0 && x == p * a + r && r < p && a == m * b + s && s < m
    ensures p * m > 0 && x / (p * m) == b
  {
    Distributes(p, m * b, s);
    Associates(p, m, b);
    Grows(p, s, m - 1);
    Distributes(p, m - 1, 1);
    Rest(x, p * m, b, p * s + r);
  }

  lemma Rest(x: nat, d: nat, q: nat, r: nat)
    requires d > 0 && x == d * q + r && r < d
    ensures x / d == q
  {
    Quotient(x, d, q, r);
  }

  // The factor between two powers.
  lemma Factor(k: nat, j: nat)
    requires k < j < 8
    ensures Pow(j) == Pow(k) * Pow(j - k) && Pow(j - k) % 2 == 0 && Pow(j - k) > 0
  {
  }

  // Adding 1 << k to x, where that bit is clear, sets it and leaves every other bit.
  lemma AddBit(x: nat, k: nat, j: nat)
    requires k < 8 && j < 8 && x / Pow(k) % 2 == 0
    ensures (x + Pow(k)) / Pow(j) % 2 == if j == k then 1 else x / Pow(j) % 2
  {
    hide Pow;
    var p := Pow(k);
    Positive(k);
    OneMore(x, p);
    if j > k {
      Factor(k, j);
      DivideTwice(x, p, Pow(j - k));
      DivideTwice(x + p, p, Pow(j - k));
      EvenStep(x / p, Pow(j - k));
    } else if j < k {
      Factor(j, k);
      Positive(j);
      ManyMore(x, Pow(j), Pow(k - j));
    }
  }

  lemma Positive(k: nat)
    ensures Pow(k) > 0
  {
  }

  lemma OneMore(x: nat, p: nat)
    requires p > 0
    ensures (x + p) / p == x / p + 1
  {
    Division(x, p);
    Distributes(p, x / p, 1);
    Quotient(x + p, p, x / p + 1, x % p);
  }

  lemma MoreQuotient(x: nat, q: nat, m: nat)
    requires q > 0
    ensures (x + q * m) / q == x / q + m
  {
    Division(x, q);
    Distributes(q, x / q, m);
    Quotient(x + q * m, q, x / q + m, x % q);
  }

  lemma SameParity(a: nat, m: nat)
    requires m % 2 == 0
    ensures (a + m) % 2 == a % 2
  {
  }

  lemma ManyMore(x: nat, q: nat, m: nat)
    requires q > 0 && m % 2 == 0
    ensures (x + q * m) / q % 2 == x / q % 2
  {
    MoreQuotient(x, q, m);
    SameParity(x / q, m);
  }

  lemma EvenStep(a: nat, m: nat)
    requires a % 2 == 0 && m % 2 == 0 && m > 0
    ensures (a + 1) / m == a / m
  {
    var b, s := Parts(a, m);
    EvenRest(a, m, b, s);
    NextQuotient(a, m, b, s);
  }

  lemma Parts(x: nat, d: nat) returns (q: nat, r: nat)
    requires d > 0
    ensures x == d * q + r && r < d && x / d == q
  {
    Division(x, d);
    q, r := x / d, x % d;
  }

  lemma NextQuotient(a: nat, m: nat, b: nat, s: nat)
    requires m > 0 && a == m * b + s && s + 1 < m
    ensures (a + 1) / m == b
  {
    Quotient(a + 1, m, b, s + 1);
  }

  lemma EvenRest(a: nat, m: nat, b: nat, s: nat)
    requires a % 2 == 0 && m % 2 == 0 && a == m * b + s && s < m
    ensures s + 1 < m
  {
    Associates(2, m / 2, b);
    Evenness(a, m, m * b, m / 2 * b, s);
  }

  lemma Evenness(a: nat, m: nat, mb: nat, c: nat, s: nat)
    requires a % 2 == 0 && m % 2 == 0 && a == mb + s && s < m && mb == 2 * c
    ensures s + 1 < m
  {
  }

  lemma OneBit(x: byte, k: nat, j: nat)
    requires k < 8 && j < 8
    ensures !BitOf(x, k) ==> BitOf(SetBit(x, k), j) == (j == k || BitOf(x, j))
    ensures BitOf(x, k) ==> BitOf(ClearBit(x, k), j) == (j != k && BitOf(x, j))
  {
    hide Pow;
    if !BitOf(x, k) {
      AddBit(x, k, j);
    } else {
      var y := ClearBit(x, k);
      Down(x, k);
      AddBit(y, k, j);
      AddBit(y, k, k);
    }
  }

  lemma Down(x: nat, k: nat)
    requires x / Pow(k) % 2 == 1
    ensures x >= Pow(k) && (x - Pow(k)) / Pow(k) % 2 == 0
  {
    var p := Pow(k);
    assert x == p * (x / p) + x % p;
    assert p * (x / p) == p * (x / p - 1) + p;
    Quotient(x - p, p, x / p - 1, x % p);
  }
}
