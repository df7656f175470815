/** Division by a variable, which the verifier does not settle on its own. */
module Arithmetic {
  lemma Apart(d: nat, q: nat, r: nat, p: nat, t: nat)
    requires q < p && r < d
    ensures d * q + r < d * p + t
  {
    var k := p - q - 1;
    assert d * p == d * (q + 1 + k) == d * q + d + d * k;
  }

  lemma Divides(v: nat, d: nat, q: nat, r: nat)
    requires v == d * q + r && r < d
    ensures v / d == q && v % d == r
  {
    if v / d < q {
      Apart(d, v / d, v % d, q, r);
    } else if q < v / d {
      Apart(d, q, r, v / d, v % d);
    }
  }

  lemma Below(a: nat, r: nat, b: nat)
    requires r < b
    ensures a * r + a <= a * b
  {
    var k := b - r - 1;
    assert a * b == a * (r + 1 + k) == a * r + a + a * k;
  }

  lemma Regroup(a: nat, b: nat, q: nat, r: nat, t: nat)
    ensures a * (b * q + r) + t == (a * b) * q + (a * r + t)
  {
    assert a * (b * q + r) == a * (b * q) + a * r;
    assert a * (b * q) == (a * b) * q;
  }

  lemma DivideTwiceOf(v: nat, a: nat, b: nat, w: nat, t: nat, q: nat, r: nat)
    requires v == a * w + t && t < a && w == b * q + r && r < b
    ensures 0 < a * b && v / (a * b) == q
  {
    Below(a, r, b);
    Regroup(a, b, q, r, t);
    assert a * r + t < a * b;
    Divides(v, a * b, q, a * r + t);
  }

  lemma DivideTwice(v: nat, a: nat, b: nat)
    requires a > 0 && b > 0
    ensures a * b > 0 && v / a / b == v / (a * b)
  {
    DivideTwiceOf(v, a, b, v / a, v % a, v / a / b, v / a % b);
  }
}
