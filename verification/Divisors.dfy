/** Greatest common divisors, for the values that the error of a line takes. */
module Divisors {

  function Gcd(a: nat, b: nat): (g: nat)
    ensures a > 0 || b > 0 ==> g > 0
    decreases b
  {
    if b == 0 then a else Gcd(b, a % b)
  }

  lemma Assoc(x: int, y: int, z: int)
    ensures x * y * z == x * (y * z)
  {
  }

  lemma Dist(x: int, y: int, z: int)
    ensures (x + y) * z == x * z + y * z
  {
  }

  lemma DividesBack(k: int, b: int, r: int, p: int, q: int, g: int)
    requires b == p * g && r == q * g
    ensures k * b + r == (k * p + q) * g
  {
    Assoc(k, p, g);
    Dist(k * p, q, g);
  }

  /** It divides both. */
  lemma {:induction false} GcdDivides(a: nat, b: nat) returns (p: nat, q: nat)
    ensures a == p * Gcd(a, b) && b == q * Gcd(a, b)
    decreases b
  {
    if b == 0 {
      p, q := 1, 0;
    } else {
      var k, r := a / b, a % b;
      var p', q' := GcdDivides(b, r);
      DividesBack(k, b, r, p', q', Gcd(b, r));
      p, q := k * p' + q', p';
    }
  }

  lemma CombinesBack(k: int, b: int, r: int, u: int, v: int)
    ensures v * (k * b + r) + (u - v * k) * b == u * b + v * r
  {
    Assoc(v, k, b);
    Dist(u - v * k, v * k, b);
    assert v * (k * b + r) == v * (k * b) + v * r;
  }

  /** It is a combination of both. */
  lemma {:induction false} Bezout(a: nat, b: nat) returns (u: int, v: int)
    ensures u * a + v * b == Gcd(a, b)
    decreases b
  {
    if b == 0 {
      u, v := 1, 0;
    } else {
      var k, r := a / b, a % b;
      var u', v' := Bezout(b, r);
      CombinesBack(k, b, r, u', v');
      u, v := v', u' - v' * k;
    }
  }

  ghost predicate Multiple(g: int, v: int) { exists t :: v == t * g }

  lemma Negated(g: int, v: int)
    requires Multiple(g, v)
    ensures Multiple(g, -v)
  {
    var t :| v == t * g;
    assert -v == -t * g;
  }

  /** Every combination is a multiple of it. */
  lemma Combination(a: nat, b: nat, y: int, x: int)
    ensures Multiple(Gcd(a, b), y * a + x * b)
  {
    var p, q := GcdDivides(a, b);
    var g := Gcd(a, b);
    Assoc(y, p, g);
    Assoc(x, q, g);
    Dist(y * p, x * q, g);
    assert y * a + x * b == (y * p + x * q) * g;
  }

  lemma Sum(g: int, v: int, w: int)
    requires Multiple(g, v) && Multiple(g, w)
    ensures Multiple(g, v + w)
  {
    var s, t :| v == s * g && w == t * g;
    Dist(s, t, g);
  }

  lemma Plus(a: nat, b: nat, v: int)
    requires Multiple(Gcd(a, b), v)
    ensures Multiple(Gcd(a, b), a - b + v)
  {
    Combination(a, b, 1, -1);
    assert 1 * a + -1 * b == a - b;
    Sum(Gcd(a, b), a - b, v);
  }

  lemma GcdSwaps(a: nat, b: nat)
    requires a < b
    ensures Gcd(a, b) == Gcd(b, a)
  {
    assert a % b == a;
  }

  lemma GcdAtMost(a: nat, b: nat)
    ensures a > 0 ==> Gcd(a, b) <= a
  {
    var p, q := GcdDivides(a, b);
    if a > 0 {
      var g := Gcd(a, b);
      Dist(p - 1, 1, g);
      assert p > 0;
      assert (p - 1) * g >= 0;
    }
  }

  lemma Shifted(t: int, u: int, v: int, a: int, b: int, q: int)
    ensures (t * u - q * b) * a - (-(t * v) - q * a) * b == t * (u * a + v * b)
  {
    Dist(t * u - q * b, q * b, a);
    Dist(-(t * v) - q * a, q * a, b);
    Assoc(t, u, a);
    Assoc(t, v, b);
    Assoc(q, b, a);
    Assoc(q, a, b);
    assert a * b == b * a;
    assert t * (u * a + v * b) == t * (u * a) + t * (v * b);
    assert -(t * v) * b == -(t * v * b);
  }

  /** Every multiple of it is some `y` times `a` less fewer than `a` times `b`. */
  lemma Reaches(a: nat, b: nat, v: int) returns (x: nat, y: int)
    requires a > 0 && Multiple(Gcd(a, b), v)
    ensures x < a && y * a - x * b == v
  {
    var g := Gcd(a, b);
    var t :| v == t * g;
    var u, w := Bezout(a, b);
    var q := -(t * w) / a;
    x, y := -(t * w) % a, t * u - q * b;
    Shifted(t, u, w, a, b, q);
    assert x == -(t * w) - q * a;
  }
}
