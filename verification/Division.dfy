/** Division facts that the number formats and the progress bounds need. */
module Division {

  lemma {:induction false} TimesGrows(j: nat, k: nat, b: nat)
    requires j <= k
    ensures j * b <= k * b
  {
    assert (k - j) * b >= 0;
    assert k * b == j * b + (k - j) * b;
  }

  /** Quotient and remainder are unique. */
  lemma {:induction false} QuotientUnique(d: nat, q: nat, r: nat, k: nat, m: nat)
    requires r < d && m < d && q * d + r == k * d + m
    ensures q == k
  {
    if k < q {
      assert (k + 1) * d == k * d + d;
      TimesGrows(k + 1, q, d);
    } else if q < k {
      assert (q + 1) * d == q * d + d;
      TimesGrows(q + 1, k, d);
    }
  }

  lemma {:induction false} Quotient(v: nat, d: nat) returns (q: nat, r: nat)
    requires d > 0
    ensures q == v / d && v == q * d + r && r < d
  {
    q, r := v / d, v % d;
    assert v == d * q + r;
    assert d * q == q * d;
  }

  lemma {:induction false} QuotientOfQuotient(v: nat, b: nat, p: nat, d: nat, a: nat, r: nat, q: nat, s: nat)
    requires d == b * p && v == a * b + r && r < b && a == q * p + s && s < p
    ensures v == q * d + (s * b + r) && s * b + r < d
  {
    assert (q * p + s) * b == (q * p) * b + s * b;
    assert (q * p) * b == q * (p * b) == q * d;
    TimesGrows(s + 1, p, b);
    assert (s + 1) * b == s * b + b;
  }

  /** Dividing by `b` and then by `p` is dividing by their product. */
  lemma {:induction false} DivideTwice(v: nat, b: nat, p: nat, d: nat)
    requires b > 0 && p > 0 && d > 0 && d == b * p
    ensures (v / b) / p == v / d
  {
    var a, r := Quotient(v, b);
    var q, s := Quotient(a, p);
    var k, m := Quotient(v, d);
    QuotientOfQuotient(v, b, p, d, a, r, q, s);
    QuotientUnique(d, q, s * b + r, k, m);
  }
}
