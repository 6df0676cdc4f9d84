// Arithmetic modulo a prime, as python/rill_xray_agent/rillml_ed25519.py computes with
// it: quotients by powers, and square roots where the prime is 5 modulo 8.

module Congruence {

  // pow(b, e, m)
  function PowMod(b: int, e: nat, m: int): (r: int)
    requires m > 0
    ensures 0 <= r < m
  {
    if e == 0 then 1 % m else b * PowMod(b, e - 1, m) % m
  }

  // ---- congruence --------------------------------------------------------------------

  predicate Same(a: int, b: int, m: int)
    requires m > 0
  {
    (a - b) % m == 0
  }

  lemma SmallMultiple(l: int, n: int)
    requires -l < l * n < l
    ensures n == 0
  {
    assert n >= 1 ==> l * n >= l;
    assert n <= -1 ==> l * n <= -l;
  }

  lemma MultipleOf(l: int, n: int)
    requires l > 0
    ensures (l * n) % l == 0
  {
    var m := l * n;
    var quotient := m / l;
    assert m == l * quotient + m % l;
    assert l * (n - quotient) == m % l;
    SmallMultiple(l, n - quotient);
  }

  lemma SameBy(a: int, b: int, k: int, m: int)
    requires m > 0 && a - b == m * k
    ensures Same(a, b, m)
  {
    MultipleOf(m, k);
  }

  lemma Multiplier(a: int, b: int, m: int) returns (k: int)
    requires m > 0 && Same(a, b, m)
    ensures a - b == m * k
  {
    k := (a - b) / m;
  }

  lemma Symmetric(a: int, b: int, m: int)
    requires m > 0 && Same(a, b, m)
    ensures Same(b, a, m)
  {
    var k := Multiplier(a, b, m);
    SameBy(b, a, -k, m);
  }

  lemma Transitive(a: int, b: int, c: int, m: int)
    requires m > 0 && Same(a, b, m) && Same(b, c, m)
    ensures Same(a, c, m)
  {
    var k := Multiplier(a, b, m);
    var l := Multiplier(b, c, m);
    SameBy(a, c, k + l, m);
  }

  lemma Products(a: int, b: int, c: int, d: int, m: int)
    requires m > 0 && Same(a, b, m) && Same(c, d, m)
    ensures Same(a * c, b * d, m)
  {
    var k := Multiplier(a, b, m);
    var l := Multiplier(c, d, m);
    assert a * c - b * d == (a - b) * c + b * (c - d);
    assert m * k * c + b * (m * l) == m * (k * c + b * l);
    SameBy(a * c, b * d, k * c + b * l, m);
  }

  lemma Remainder(a: int, m: int)
    requires m > 0
    ensures Same(a % m, a, m)
  {
    SameBy(a % m, a, -(a / m), m);
  }

  lemma SameRemainderIff(x: int, y: int, l: int)
    requires l > 0
    ensures x % l == y % l <==> (y - x) % l == 0
  {
    if x % l == y % l {
      SameBy(y, x, y / l - x / l, l);
    }
    if Same(y, x, l) {
      var k := Multiplier(y, x, l);
      assert y % l - x % l == l * (k - y / l + x / l);
      SmallMultiple(l, k - y / l + x / l);
    }
  }

  lemma SameInRange(a: int, b: int, m: int)
    requires m > 0 && Same(a, b, m) && 0 <= a < m && 0 <= b < m
    ensures a == b
  {
    var k := Multiplier(a, b, m);
    SmallMultiple(m, k);
  }

  // ---- powers --------------------------------------------------------------------------

  lemma PowModStep(b: int, e: nat, m: int)
    requires m > 0
    ensures Same(PowMod(b, e + 1, m), b * PowMod(b, e, m), m)
  {
    Remainder(b * PowMod(b, e, m), m);
  }

  lemma ProductStep(b: int, p: int, x: int, x': int, y: int, z: int, m: int)
    requires m > 0 && Same(p, b * z, m) && Same(z, x' * y, m) && Same(x, b * x', m)
    ensures Same(p, x * y, m)
  {
    Products(b, b, z, x' * y, m);
    Transitive(p, b * z, b * (x' * y), m);
    Products(x, b * x', y, y, m);
    assert b * x' * y == b * (x' * y);
    Symmetric(x * y, b * (x' * y), m);
    Transitive(p, b * (x' * y), x * y, m);
  }

  lemma {:induction false} PowModAdds(b: int, d: nat, e: nat, m: int)
    requires m > 0
    ensures Same(PowMod(b, d + e, m), PowMod(b, d, m) * PowMod(b, e, m), m)
    decreases d
  {
    var y := PowMod(b, e, m);
    if d == 0 {
      Remainder(1, m);
      Products(1 % m, 1, y, y, m);
      Symmetric(1 % m * y, y, m);
    } else {
      PowModAdds(b, d - 1, e, m);
      PowModStep(b, d - 1 + e, m);
      PowModStep(b, d - 1, m);
      ProductStep(b, PowMod(b, d + e, m), PowMod(b, d, m), PowMod(b, d - 1, m), y, PowMod(b, d - 1 + e, m), m);
    }
  }

  lemma {:induction false} PowModOfSame(a: int, b: int, e: nat, m: int)
    requires m > 0 && Same(a, b, m)
    ensures PowMod(a, e, m) == PowMod(b, e, m)
  {
    if e > 0 {
      var z := PowMod(a, e - 1, m);
      PowModOfSame(a, b, e - 1, m);
      Symmetric(a, b, m);
      Products(b, a, z, z, m);
      SameRemainderIff(a * z, b * z, m);
    }
  }

  lemma SquareStep(x: int, p: int, a: int, b: int, u: int, v: int, m: int)
    requires m > 0 && Same(p, x * x * a, m) && Same(a, b, m) && Same(u, x * v, m) && Same(v, x * b, m)
    ensures Same(p, u, m)
  {
    Products(x * x, x * x, a, b, m);
    Transitive(p, x * x * a, x * x * b, m);
    Products(x, x, v, x * b, m);
    assert x * (x * b) == x * x * b;
    Transitive(u, x * v, x * x * b, m);
    Symmetric(u, x * x * b, m);
    Transitive(p, x * x * b, u, m);
  }

  lemma {:induction false} PowModOfSquare(x: int, e: nat, m: int)
    requires m > 0
    ensures Same(PowMod(x * x, e, m), PowMod(x, 2 * e, m), m)
  {
    if e > 0 {
      var n := 2 * e - 2;
      PowModOfSquare(x, e - 1, m);
      PowModStep(x * x, e - 1, m);
      PowModStep(x, n, m);
      PowModStep(x, n + 1, m);
      SquareStep(x, PowMod(x * x, e, m), PowMod(x * x, e - 1, m), PowMod(x, n, m), PowMod(x, n + 2, m), PowMod(x, n + 1, m), m);
    }
  }

  lemma {:induction false} PowModOfOne(e: nat, m: int)
    requires m > 1
    ensures PowMod(1, e, m) == 1
  {
    if e > 0 { PowModOfOne(e - 1, m); }
  }

  // ---- primes --------------------------------------------------------------------------

  predicate DividesAFactor(l: int, x: int, y: int)
    requires l > 0
  {
    (x * y) % l == 0 ==> x % l == 0 || y % l == 0
  }

  // No product is divided without a factor being divided: a prime.
  ghost predicate Prime(l: int)
    requires l > 0
  {
    forall x: int, y: int :: DividesAFactor(l, x, y)
  }

  // Fermat's little theorem at one number.
  predicate FermatAt(q: int, x: int)
    requires q > 1
  {
    x % q != 0 ==> PowMod(x, q - 1, q) == 1
  }

  lemma RootsOfOneSquare(a: int, b: int, q: int)
    requires q > 0 && Prime(q) && Same(a * a, b * b, q)
    ensures Same(a, b, q) || Same(a, -b, q)
  {
    assert a * a - b * b == (a - b) * (a + b);
    assert DividesAFactor(q, a - b, a + b);
    assert a - -b == a + b;
  }

  // n * pow(w, q - 2, q) % q is n / w.
  lemma QuotientSolves(n: int, w: int, q: int)
    requires q > 1 && FermatAt(q, w) && w % q != 0
    ensures Same(n * PowMod(w, q - 2, q) * w, n, q)
  {
    var v := PowMod(w, q - 2, q);
    PowModStep(w, q - 2, q);
    assert Same(1, w * v, q);
    Symmetric(1, w * v, q);
    Products(n, n, w * v, 1, q);
    assert n * v * w == n * (w * v);
  }

  // And nothing else is.
  lemma QuotientIs(n: int, w: int, z: int, q: int)
    requires q > 1 && Prime(q) && FermatAt(q, w) && w % q != 0 && 0 <= z < q
    ensures z == n * PowMod(w, q - 2, q) % q <==> Same(z * w, n, q)
  {
    var v := n * PowMod(w, q - 2, q);
    var z' := v % q;
    QuotientSolves(n, w, q);
    Remainder(v, q);
    Products(z', v, w, w, q);
    Transitive(z' * w, v * w, n, q);
    if Same(z * w, n, q) { OneQuotient(n, w, z, z', q); }
  }

  lemma OneQuotient(n: int, w: int, z: int, z': int, q: int)
    requires q > 1 && Prime(q) && w % q != 0 && 0 <= z < q && 0 <= z' < q
    requires Same(z * w, n, q) && Same(z' * w, n, q)
    ensures z == z'
  {
    Symmetric(z' * w, n, q);
    Transitive(z * w, n, z' * w, q);
    assert z * w - z' * w == (z - z') * w;
    assert DividesAFactor(q, z - z', w);
    SameInRange(z, z', q);
  }

  // ---- square roots ----------------------------------------------------------------------

  // What _xrecover does for a root of xx; i is a root of -1.
  function SquareRoot(q: int, i: int, xx: int): (r: int)
    requires q > 2
    ensures 0 <= r < q
  {
    var x := PowMod(xx, (q + 3) / 8, q);
    if (x * x - xx) % q != 0 then x * i % q else x
  }

  // The square of the first candidate is xx times a square root of 1.
  lemma CandidateSquared(q: int, xx: int, x: int)
    requires q % 8 == 5 && q > 2 && Same(xx, x * x, q)
    ensures var r, e := PowMod(xx, (q + 3) / 8, q), PowMod(xx, (q - 1) / 4, q);
      Same(r * r, xx * e, q) && Same(e * e, PowMod(x, q - 1, q), q)
  {
    var k := q / 8;
    assert (q + 3) / 8 == k + 1 && (q - 1) / 4 == 2 * k + 1 && q - 1 == 2 * (4 * k + 2);
    var r, e := PowMod(xx, k + 1, q), PowMod(xx, 2 * k + 1, q);
    var double := PowMod(xx, 2 * k + 2, q);
    PowModAdds(xx, k + 1, k + 1, q);
    Symmetric(double, r * r, q);
    PowModStep(xx, 2 * k + 1, q);
    Transitive(r * r, double, xx * e, q);
    var half := PowMod(xx, 4 * k + 2, q);
    PowModAdds(xx, 2 * k + 1, 2 * k + 1, q);
    Symmetric(half, e * e, q);
    PowModOfSame(xx, x * x, 4 * k + 2, q);
    PowModOfSquare(x, 4 * k + 2, q);
    Transitive(e * e, half, PowMod(x, q - 1, q), q);
  }

  lemma OtherCandidate(q: int, i: int, xx: int, r: int)
    requires q > 2 && Same(i * i, -1, q) && Same(r * r, -xx, q)
    ensures Same((r * i % q) * (r * i % q), xx, q)
  {
    var s := r * i;
    Remainder(s, q);
    Products(s % q, s, s % q, s, q);
    Products(r * r, -xx, i * i, -1, q);
    assert s * s == r * r * (i * i) && -xx * -1 == xx;
    Transitive((s % q) * (s % q), s * s, xx, q);
  }

  // Of every square, a root is found.
  lemma SquareRootSquares(q: int, i: int, xx: int, x: int)
    requires q % 8 == 5 && q > 2 && Prime(q) && FermatAt(q, x)
    requires Same(i * i, -1, q) && Same(xx, x * x, q)
    ensures Same(SquareRoot(q, i, xx) * SquareRoot(q, i, xx), xx, q)
  {
    var r, e := PowMod(xx, (q + 3) / 8, q), PowMod(xx, (q - 1) / 4, q);
    CandidateSquared(q, xx, x);
    if Same(r * r, xx, q) {
    } else if x % q == 0 {
      Products(x, 0, x, 0, q);
      Transitive(xx, x * x, 0, q);
      Products(xx, 0, e, e, q);
      Symmetric(xx, 0, q);
      Transitive(xx * e, 0, xx, q);
      Transitive(r * r, xx * e, xx, q);
      assert false;
    } else {
      RootsOfOneSquare(e, 1, q);
      if Same(e, 1, q) {
        Products(xx, xx, e, 1, q);
        Transitive(r * r, xx * e, xx, q);
        assert false;
      } else {
        Products(xx, xx, e, -1, q);
        Transitive(r * r, xx * e, -xx, q);
        OtherCandidate(q, i, xx, r);
      }
    }
  }
}
