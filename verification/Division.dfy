/** Facts about quotients of natural numbers. */
module Division {

  lemma MulMonotone(a: nat, b: nat, d: nat)
    requires a <= b
    ensures a * d <= b * d
  {
  }

  lemma DivIs(x: nat, q: nat, r: nat, d: nat)
    requires x == q * d + r && r < d
    ensures x / d == q
  {
    var q', r' := x / d, x % d;
    assert x == q' * d + r';
    assert (q' + 1) * d == q' * d + d && (q + 1) * d == q * d + d;
    if q' < q { MulMonotone(q' + 1, q, d); }
    if q' > q { MulMonotone(q + 1, q', d); }
  }

  lemma DivMonotone(a: nat, b: nat, d: nat)
    requires a <= b && d > 0
    ensures a / d <= b / d
  {
    var q: nat, q': nat := a / d, b / d;
    assert (q' + 1) * d == q' * d + d && b == q' * d + b % d && a == q * d + a % d;
    if q' < q { MulMonotone(q' + 1, q, d); }
  }

  lemma DivExact(page: nat, d: nat)
    requires d > 0
    ensures (page * d) / d == page
  {
    DivIs(page * d, page, 0, d);
  }

  lemma DivBelow(b: nat, n: nat, d: nat)
    requires d > 0 && b < n * d
    ensures b / d < n
  {
    assert b == (b / d) * d + b % d;
    if b / d >= n { MulMonotone(n, b / d, d); }
  }

  lemma DivMod(w: nat, d: nat, r: nat, q: nat)
    requires w == r + d * q && r < d
    ensures w / d == q && w % d == r
  {
    DivIs(w, q, r, d);
    assert w == (w / d) * d + w % d;
  }
}
