// Scalar multiplication in a commutative group, as python/rill_xray_agent/
// rillml_ed25519.py uses it: the group is a hypothesis, not a construction.

module PointGroup {

  // The laws at given points; they are quantified over by name, so that a proof
  // uses exactly the instances that it mentions.
  predicate ClosedAt<P>(op: (P, P) -> P, on: P -> bool, p: P, q: P) {
    on(op(p, q))
  }

  predicate CommutesAt<P(==)>(op: (P, P) -> P, p: P, q: P) {
    op(p, q) == op(q, p)
  }

  predicate AssociatesAt<P(==)>(op: (P, P) -> P, p: P, q: P, r: P) {
    op(op(p, q), r) == op(p, op(q, r))
  }

  predicate UnitAt<P(==)>(op: (P, P) -> P, id: P, p: P) {
    op(p, id) == p
  }

  // `on` is closed under `op`, which is associative and commutative with unit `id`.
  ghost predicate Abelian<P(!new)>(op: (P, P) -> P, id: P, on: P -> bool) {
    && on(id)
    && (forall p, q {:trigger ClosedAt(op, on, p, q)} :: on(p) && on(q) ==> ClosedAt(op, on, p, q))
    && (forall p, q {:trigger CommutesAt(op, p, q)} :: on(p) && on(q) ==> CommutesAt(op, p, q))
    && (forall p, q, r {:trigger AssociatesAt(op, p, q, r)} :: on(p) && on(q) && on(r) ==> AssociatesAt(op, p, q, r))
    && (forall p {:trigger UnitAt(op, id, p)} :: on(p) ==> UnitAt(op, id, p))
  }

  // n-fold addition.
  function Times<P>(op: (P, P) -> P, id: P, p: P, n: nat): P {
    if n == 0 then id else op(Times(op, id, p, n - 1), p)
  }

  // The loop of double-and-add from any of its states.
  function DoubleAndAdd<P>(op: (P, P) -> P, r: P, p: P, n: nat): P {
    if n == 0 then r else DoubleAndAdd(op, if n % 2 == 1 then op(r, p) else r, op(p, p), n / 2)
  }

  lemma {:induction false} TimesStays<P(!new)>(op: (P, P) -> P, id: P, on: P -> bool, p: P, n: nat)
    requires Abelian(op, id, on) && on(p)
    ensures on(Times(op, id, p, n))
  {
    if n > 0 {
      TimesStays(op, id, on, p, n - 1);
      assert ClosedAt(op, on, Times(op, id, p, n - 1), p);
    }
  }

  lemma {:induction false} TimesAdds<P(!new)>(op: (P, P) -> P, id: P, on: P -> bool, p: P, a: nat, b: nat)
    requires Abelian(op, id, on) && on(p)
    ensures op(Times(op, id, p, a), Times(op, id, p, b)) == Times(op, id, p, a + b)
    decreases b
  {
    TimesStays(op, id, on, p, a);
    if b == 0 {
      assert UnitAt(op, id, Times(op, id, p, a));
    } else {
      TimesStays(op, id, on, p, b - 1);
      TimesAdds(op, id, on, p, a, b - 1);
      assert AssociatesAt(op, Times(op, id, p, a), Times(op, id, p, b - 1), p);
    }
  }

  lemma {:induction false} TimesMultiplies<P(!new)>(op: (P, P) -> P, id: P, on: P -> bool, p: P, a: nat, b: nat)
    requires Abelian(op, id, on) && on(p)
    ensures Times(op, id, Times(op, id, p, a), b) == Times(op, id, p, a * b)
    decreases b
  {
    if b > 0 {
      TimesMultiplies(op, id, on, p, a, b - 1);
      TimesAdds(op, id, on, p, a * (b - 1), a);
      assert a * (b - 1) + a == a * b;
    }
  }

  lemma {:induction false} TimesOfUnit<P(!new)>(op: (P, P) -> P, id: P, on: P -> bool, n: nat)
    requires Abelian(op, id, on)
    ensures Times(op, id, id, n) == id
  {
    if n > 0 {
      TimesOfUnit(op, id, on, n - 1);
      assert UnitAt(op, id, id);
    }
  }

  // Scalars count modulo any `l` with [l]p = id.
  lemma TimesReduces<P(!new)>(op: (P, P) -> P, id: P, on: P -> bool, p: P, n: nat, l: nat)
    requires Abelian(op, id, on) && on(p) && 0 < l && Times(op, id, p, l) == id
    ensures Times(op, id, p, n % l) == Times(op, id, p, n)
  {
    var m := n / l;
    TimesMultiplies(op, id, on, p, l, m);
    TimesOfUnit(op, id, on, m);
    TimesAdds(op, id, on, p, n % l, l * m);
    TimesStays(op, id, on, p, n % l);
    assert UnitAt(op, id, Times(op, id, p, n % l));
    assert n == n % l + l * m;
  }

  lemma TimesIsTwo<P(!new)>(op: (P, P) -> P, id: P, on: P -> bool, p: P)
    requires Abelian(op, id, on) && on(p)
    ensures Times(op, id, p, 1) == p && Times(op, id, p, 2) == op(p, p)
  {
    assert CommutesAt(op, id, p) && UnitAt(op, id, p);
    assert Times(op, id, p, 1) == op(Times(op, id, p, 0), p);
  }

  lemma TwiceIsDouble<P(!new)>(op: (P, P) -> P, id: P, on: P -> bool, p: P, n: nat)
    requires Abelian(op, id, on) && on(p)
    ensures Times(op, id, op(p, p), n) == Times(op, id, p, 2 * n)
  {
    TimesMultiplies(op, id, on, p, 2, n);
    TimesIsTwo(op, id, on, p);
  }

  // Double-and-add is n-fold addition.
  lemma {:induction false} DoubleAndAddIsTimes<P(!new)>(op: (P, P) -> P, id: P, on: P -> bool, r: P, p: P, n: nat)
    requires Abelian(op, id, on) && on(r) && on(p)
    ensures DoubleAndAdd(op, r, p, n) == op(r, Times(op, id, p, n))
    decreases n
  {
    if n == 0 {
      assert UnitAt(op, id, r);
    } else {
      var h := n / 2;
      assert ClosedAt(op, on, p, p) && ClosedAt(op, on, r, p);
      TwiceIsDouble(op, id, on, p, h);
      DoubleAndAddIsTimes(op, id, on, if n % 2 == 1 then op(r, p) else r, op(p, p), h);
      if n % 2 == 1 {
        TimesStays(op, id, on, p, 2 * h);
        assert AssociatesAt(op, r, p, Times(op, id, p, 2 * h));
        assert CommutesAt(op, p, Times(op, id, p, 2 * h));
        assert n == 2 * h + 1;
      } else {
        assert n == 2 * h;
      }
    }
  }
}
