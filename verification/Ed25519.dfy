// python/rill_xray_agent/rillml_ed25519.py: Ed25519 as in section 5.1 of RFC 8032.
// Hypotheses are the primality of q, that d is no square, that addition keeps to the
// curve and is associative, and the order of the base point; all else is proved.

module Ed25519 {
  import opened Collections
  import opened Congruence
  import opened LittleEndian
  import G = PointGroup

  type Point = (int, int)

  // The module's constants; ED25519 below has their values.
  datatype Parameters = Parameters(q: int, l: nat, d: int, i: int, base: Point)
  type Curve = c: Parameters | c.q > 2 && c.l > 0 witness Parameters(3, 1, 0, 0, (0, 1))

  const UNIT: Point := (0, 1)

  const ED25519: Curve := Parameters(
    0x7fffffffffffffffffffffffffffffffffffffffffffffffffffffffffffffed,
    0x1000000000000000000000000000000014def9dea2f79cd65812631a5cf5d3ed,
    0x52036cee2b6ffe738cc740797779e89800700a4d4141d8ab75eb4dca135978a3,
    0x2b8324804fc1df0b2b4d00993dfbd7a72f431806ad2fe478c4ee1b274a0ea0b0,
    (0x216936d3cd6e53fec0a4e231fdd6dc5c692cc7609525a7b2c9562d608f25d51a,
     0x6666666666666666666666666666666666666666666666666666666666666658))

  // ---- the curve -------------------------------------------------------------------

  predicate OnCurve(c: Curve, p: Point) {
    && 0 <= p.0 < c.q && 0 <= p.1 < c.q
    && (p.1 * p.1 - p.0 * p.0 - 1 - c.d * p.0 * p.0 * p.1 * p.1) % c.q == 0
  }

  // _edwards_add
  function Add(c: Curve, p: Point, q: Point): Point {
    var (x1, y1) := p;
    var (x2, y2) := q;
    ((x1 * y2 + x2 * y1) * PowMod(1 + c.d * x1 * x2 * y1 * y2, c.q - 2, c.q) % c.q,
     (y1 * y2 + x1 * x2) * PowMod(1 - c.d * x1 * x2 * y1 * y2, c.q - 2, c.q) % c.q)
  }

  function Adder(c: Curve): (Point, Point) -> Point {
    (p: Point, q: Point) => Add(c, p, q)
  }

  function Points(c: Curve): Point -> bool {
    (p: Point) => OnCurve(c, p)
  }

  // _edwards_mul
  function Mul(c: Curve, p: Point, n: nat): Point {
    G.DoubleAndAdd(Adder(c), UNIT, p, n)
  }

  method EdwardsMul(c: Curve, point: Point, scalar: nat) returns (r: Point)
    ensures r == Mul(c, point, scalar)
  {
    r := UNIT;
    var p, n := point, scalar;
    while n > 0
      invariant G.DoubleAndAdd(Adder(c), r, p, n) == Mul(c, point, scalar)
    {
      if n % 2 == 1 {
        r := Add(c, r, p);
      }
      p := Add(c, p, p);
      n := n / 2;
    }
  }

  // _xrecover, before and after it chooses the even root.
  function Root(c: Curve, y: int): (r: int)
    ensures 0 <= r < c.q
  {
    SquareRoot(c.q, c.i, (y * y - 1) * PowMod(c.d * y * y + 1, c.q - 2, c.q))
  }

  function Recover(c: Curve, y: int): int {
    var x := Root(c, y);
    if x % 2 != 0 then c.q - x else x
  }

  // ---- the hypotheses --------------------------------------------------------------

  // -1/d is no square, so the quotient in _xrecover is always defined.
  predicate DefinedAt(c: Curve, y: int) {
    (c.d * y * y + 1) % c.q != 0
  }

  ghost predicate Field(c: Curve) {
    && c.q % 8 == 5 && Same(c.i * c.i, -1, c.q)
    && Prime(c.q) && (forall x: int :: FermatAt(c.q, x)) && (forall y: int :: DefinedAt(c, y))
  }

  // Addition keeps to the curve and is associative there.
  ghost predicate Complete(c: Curve) {
    var op, on := Adder(c), Points(c);
    && (forall p, q {:trigger G.ClosedAt(op, on, p, q)} :: on(p) && on(q) ==> G.ClosedAt(op, on, p, q))
    && (forall p, q, r {:trigger G.AssociatesAt(op, p, q, r)} :: on(p) && on(q) && on(r) ==> G.AssociatesAt(op, p, q, r))
  }

  ghost predicate Hypotheses(c: Curve) {
    Field(c) && Complete(c) && OnCurve(c, c.base) && G.Times(Adder(c), UNIT, c.base, c.l) == UNIT
  }

  // ---- addition ----------------------------------------------------------------------

  // The complete addition law of the curve: x (1 + d x1 x2 y1 y2) = x1 y2 + x2 y1 and
  // y (1 - d x1 x2 y1 y2) = y1 y2 + x1 x2 say what the sum is.
  lemma AddSolvesTheLaw(c: Curve, a: Point, b: Point, sum: Point)
    requires Field(c) && 0 <= sum.0 < c.q && 0 <= sum.1 < c.q
    requires var t := c.d * a.0 * b.0 * a.1 * b.1; (1 + t) % c.q != 0 && (1 - t) % c.q != 0
    ensures var t := c.d * a.0 * b.0 * a.1 * b.1;
      Add(c, a, b) == sum <==>
        Same(sum.0 * (1 + t), a.0 * b.1 + b.0 * a.1, c.q) && Same(sum.1 * (1 - t), a.1 * b.1 + a.0 * b.0, c.q)
  {
    var t := c.d * a.0 * b.0 * a.1 * b.1;
    assert FermatAt(c.q, 1 + t) && FermatAt(c.q, 1 - t);
    QuotientIs(a.0 * b.1 + b.0 * a.1, 1 + t, sum.0, c.q);
    QuotientIs(a.1 * b.1 + a.0 * b.0, 1 - t, sum.1, c.q);
  }

  lemma AddUnit(c: Curve, p: Point)
    requires 0 <= p.0 < c.q && 0 <= p.1 < c.q
    ensures Add(c, p, UNIT) == p
  {
    var (x, y) := p;
    var t := c.d * x * 0 * y * 1;
    assert t == 0 by { assert c.d * x * 0 == 0; }
    PowModOfOne(c.q - 2, c.q);
    OverOne(x * 1 + 0 * y, x, PowMod(1 + t, c.q - 2, c.q), c.q);
    OverOne(y * 1 + x * 0, y, PowMod(1 - t, c.q - 2, c.q), c.q);
  }

  lemma OverOne(n: int, x: int, v: int, q: int)
    requires n == x && v == 1 && 0 <= x < q
    ensures n * v % q == x
  {
  }

  lemma AddCommutes(c: Curve, p: Point, q: Point)
    ensures Add(c, p, q) == Add(c, q, p)
  {
    assert c.d * p.0 * q.0 * p.1 * q.1 == c.d * q.0 * p.0 * q.1 * p.1;
  }

  lemma CurveIsAbelian(c: Curve)
    requires Complete(c)
    ensures G.Abelian(Adder(c), UNIT, Points(c))
  {
    var op, on := Adder(c), Points(c);
    assert on(UNIT);
    forall p, q | on(p) && on(q) ensures G.CommutesAt(op, p, q) { AddCommutes(c, p, q); }
    forall p | on(p) ensures G.UnitAt(op, UNIT, p) { AddUnit(c, p); }
  }

  // ---- roots ---------------------------------------------------------------------------

  // The root is the x coordinate or its negative.
  predicate RootAt(c: Curve, p: Point) {
    Same(Root(c, p.1), p.0, c.q) || Same(Root(c, p.1), -p.0, c.q)
  }

  // On the curve, the quotient of _xrecover is the square of the x coordinate.
  lemma QuotientIsSquare(c: Curve, p: Point)
    requires Field(c) && OnCurve(c, p)
    ensures Same((p.1 * p.1 - 1) * PowMod(c.d * p.1 * p.1 + 1, c.q - 2, c.q), p.0 * p.0, c.q)
  {
    var (x, y) := p;
    var w := c.d * y * y + 1;
    assert DefinedAt(c, y) && FermatAt(c.q, w);
    CurveAsQuotient(c, x, y);
    DividedSquare(y * y - 1, x * x, w, c.q);
  }

  lemma CurveAsQuotient(c: Curve, x: int, y: int)
    requires OnCurve(c, (x, y))
    ensures Same(y * y - 1, x * x * (c.d * y * y + 1), c.q)
  {
    var xx, yy := x * x, c.d * y * y;
    assert xx * (yy + 1) == xx * yy + xx;
    Rearranged(c.d, x, y);
  }

  lemma Rearranged(d: int, x: int, y: int)
    ensures x * x * (d * y * y) == d * x * x * y * y
  {
    assert x * x * (d * y * y) == x * x * d * (y * y);
    assert d * x * x * (y * y) == d * x * x * y * y;
    assert x * x * d == d * x * x;
  }

  lemma DividedSquare(n: int, square: int, w: int, q: int)
    requires q > 2 && FermatAt(q, w) && w % q != 0 && Same(n, square * w, q)
    ensures Same(n * PowMod(w, q - 2, q), square, q)
  {
    var v := PowMod(w, q - 2, q);
    Products(n, square * w, v, v, q);
    QuotientSolves(square, w, q);
    assert square * v * w == square * w * v;
    Transitive(n * v, square * w * v, square, q);
  }

  lemma RootIsFound(c: Curve, p: Point)
    requires Field(c) && OnCurve(c, p)
    ensures RootAt(c, p)
  {
    var xx := (p.1 * p.1 - 1) * PowMod(c.d * p.1 * p.1 + 1, c.q - 2, c.q);
    var r := Root(c, p.1);
    QuotientIsSquare(c, p);
    assert FermatAt(c.q, p.0);
    SquareRootSquares(c.q, c.i, xx, p.0);
    Transitive(r * r, xx, p.0 * p.0, c.q);
    RootsOfOneSquare(r, p.0, c.q);
  }

  predicate Sized(c: Curve) {
    c.q % 2 == 1 && c.q <= TWO_255 && c.l <= TWO_255
  }

  // ---- points as bytes ----------------------------------------------------------------

  // _encodepoint
  function Encode(p: Point): (s: seq<Octet>)
    ensures |s| == 32
  {
    ToBytes(SumBits(BitsOf(p.1 % TWO_255, 255) + [p.0 % 2]), 32)
  }

  // _decodepoint; ValueError is None.
  function Decode(c: Curve, s: seq<Octet>): Option<Point>
    requires |s| == 32
  {
    var y := FromBytes(s) % TWO_255;
    var x := Recover(c, y);
    var p := (if x % 2 != s[31] / 128 then c.q - x else x, y);
    if Mul(c, p, c.l) == UNIT then Some(p) else None
  }

  lemma MulIsTimes(c: Curve, p: Point, n: nat)
    requires Hypotheses(c) && OnCurve(c, p)
    ensures Mul(c, p, n) == G.Times(Adder(c), UNIT, p, n)
    ensures OnCurve(c, Mul(c, p, n))
  {
    var op, on := Adder(c), Points(c);
    var t := G.Times(op, UNIT, p, n);
    CurveIsAbelian(c);
    assert on(p);
    G.DoubleAndAddIsTimes(op, UNIT, on, UNIT, p, n);
    G.TimesStays(op, UNIT, on, p, n);
    assert G.CommutesAt(op, UNIT, t) && G.UnitAt(op, UNIT, t);
  }

  // The two square roots have opposite parity, so the sign bit tells them apart.
  lemma RecoverBySign(c: Curve, p: Point)
    requires Hypotheses(c) && Sized(c) && OnCurve(c, p)
    ensures (if Recover(c, p.1) % 2 != p.0 % 2 then c.q - Recover(c, p.1) else Recover(c, p.1)) == p.0
  {
    RootIsFound(c, p);
    assert Root(c, p.1) - -p.0 == Root(c, p.1) + p.0;
    EqualOrOpposite(Root(c, p.1), p.0, c.q);
    ParityTellsApart(Root(c, p.1), p.0, c.q);
  }

  lemma OppositeParity(n: int, q: int)
    requires q % 2 == 1
    ensures (q - n) % 2 != n % 2
  {
    assert q - n == 2 * (q / 2 - n / 2) + 1 - n % 2;
  }

  lemma ParityTellsApart(r: int, x: int, q: int)
    requires q % 2 == 1 && (r == x || r == q - x)
    ensures var even := if r % 2 != 0 then q - r else r;
      (if even % 2 != x % 2 then q - even else even) == x
  {
    OppositeParity(r, q);
    OppositeParity(x, q);
    OppositeParity(q - r, q);
  }

  lemma EqualOrOpposite(r: int, x: int, q: int)
    requires 0 <= r < q && 0 <= x < q
    requires (r - x) % q == 0 || (r + x) % q == 0
    ensures r == x || r == q - x
  {
    if (r - x) % q == 0 {
      MultipleInRange(r - x, q, -1, 1);
    } else {
      MultipleInRange(r + x, q, -1, 2);
    }
  }

  lemma MultipleInRange(n: int, q: int, lo: int, hi: int)
    requires q > 0 && n % q == 0 && lo * q < n < hi * q && -1 <= lo && hi <= 2
    ensures n == 0 || n == q
  {
    var k := n / q;
    assert n == k * q;
    assert k <= lo ==> k * q <= lo * q;
    assert k >= hi ==> k * q >= hi * q;
  }

  lemma EncodedPoint(p: Point)
    requires 0 <= p.1 < TWO_255
    ensures FromBytes(Encode(p)) % TWO_255 == p.1 && Encode(p)[31] / 128 == p.0 % 2
  {
    assert p.1 % TWO_255 == p.1;
    SignedBytes(p.1, p.0 % 2);
  }

  // decode after encode is the identity on the points of the base point's group.
  lemma PointRoundTrip(c: Curve, p: Point)
    requires Hypotheses(c) && Sized(c) && OnCurve(c, p) && Mul(c, p, c.l) == UNIT
    ensures Decode(c, Encode(p)) == Some(p)
  {
    EncodedPoint(p);
    RecoverBySign(c, p);
  }

  lemma RecoveredIsEven(c: Curve, y: int)
    requires Sized(c)
    ensures Recover(c, y) % 2 == 0 && (c.q - Recover(c, y)) % 2 == 1
  {
    OppositeParity(Root(c, y), c.q);
    OppositeParity(Recover(c, y), c.q);
  }

  lemma EncodesTo(p: Point, s: seq<Octet>)
    requires |s| == 32 && p.1 == FromBytes(s) % TWO_255 && p.0 % 2 == s[31] / 128
    ensures Encode(p) == s
  {
    assert p.1 % TWO_255 == p.1;
    BytesOfSigned(s, p.1, p.0 % 2);
  }

  // What is decoded is in the group of the base point, and has no other encoding.
  lemma DecodedPoint(c: Curve, s: seq<Octet>)
    requires Sized(c) && |s| == 32 && Decode(c, s).Some?
    ensures Mul(c, Decode(c, s).value, c.l) == UNIT && Encode(Decode(c, s).value) == s
  {
    var p := Decode(c, s).value;
    RecoveredIsEven(c, p.1);
    EncodesTo(p, s);
  }

  // ---- signatures ------------------------------------------------------------------------

  // SHA-512, of which only the length is used.
  type Digest = s: seq<Octet> | |s| == 64 witness seq(64, i => 0)
  type Hash = seq<Octet> -> Digest

  function HashModL(c: Curve, hash: Hash, m: seq<Octet>): nat {
    FromBytes(hash(m)) % c.l
  }

  // a &= (1 << 254) - 8; a |= 1 << 254
  function Clamp(v: nat): nat {
    v % TWO_254 / 8 * 8 + TWO_254
  }

  // A secret scalar is a multiple of the cofactor with its top bit at 254.
  lemma ClampedScalars(v: nat)
    ensures Clamp(v) % 8 == 0 && TWO_254 <= Clamp(v) < TWO_255
    ensures Clamp(v) - TWO_254 <= v % TWO_254 < Clamp(v) - TWO_254 + 8
  {
  }

  function Scalar(hash: Hash, seed: seq<Octet>): nat {
    Clamp(FromBytes(hash(seed)[..32]))
  }

  // The encoded multiple of the base point.
  function Public(c: Curve, n: nat): (s: seq<Octet>)
    ensures |s| == 32
  {
    Encode(Mul(c, c.base, n))
  }

  function PublicKey(c: Curve, hash: Hash, seed: seq<Octet>): (s: seq<Octet>)
    ensures |s| == 32
  {
    Public(c, Scalar(hash, seed))
  }

  function Nonce(c: Curve, hash: Hash, seed: seq<Octet>, message: seq<Octet>): nat {
    HashModL(c, hash, hash(seed)[32..] + message)
  }

  function Challenge(c: Curve, hash: Hash, encoded: seq<Octet>, key: seq<Octet>, message: seq<Octet>): nat {
    HashModL(c, hash, encoded + key + message)
  }

  function Sign(c: Curve, hash: Hash, seed: seq<Octet>, message: seq<Octet>): (signature: seq<Octet>)
    ensures |signature| == 64
  {
    var a := Scalar(hash, seed);
    var r := Nonce(c, hash, seed, message);
    var encoded := Public(c, r);
    var k := Challenge(c, hash, encoded, PublicKey(c, hash, seed), message);
    encoded + ToBytes((r + k * a) % c.l, 32)
  }

  predicate Verify(c: Curve, hash: Hash, key: seq<Octet>, message: seq<Octet>, signature: seq<Octet>) {
    |key| == 32 && |signature| == 64 &&
    var a := Decode(c, key);
    var r := Decode(c, signature[..32]);
    var s := FromBytes(signature[32..]);
    a.Some? && r.Some? && s < c.l &&
    Mul(c, c.base, s) == Add(c, r.value, Mul(c, a.value, Challenge(c, hash, signature[..32], key, message)))
  }

  // Multiples of the base point are encoded and decoded faithfully.
  lemma PublicDecodes(c: Curve, n: nat)
    requires Hypotheses(c) && Sized(c)
    ensures OnCurve(c, Mul(c, c.base, n)) && Decode(c, Public(c, n)) == Some(Mul(c, c.base, n))
  {
    var op, on := Adder(c), Points(c);
    var p := Mul(c, c.base, n);
    CurveIsAbelian(c);
    assert on(c.base);
    MulIsTimes(c, c.base, n);
    MulIsTimes(c, p, c.l);
    G.TimesMultiplies(op, UNIT, on, c.base, n, c.l);
    G.TimesMultiplies(op, UNIT, on, c.base, c.l, n);
    assert n * c.l == c.l * n;
    G.TimesOfUnit(op, UNIT, on, n);
    PointRoundTrip(c, p);
  }

  lemma TimesOfTimes(c: Curve, a: nat, k: nat, n: nat)
    requires Hypotheses(c) && n == a * k
    ensures G.Times(Adder(c), UNIT, G.Times(Adder(c), UNIT, c.base, a), k) == G.Times(Adder(c), UNIT, c.base, n)
  {
    CurveIsAbelian(c);
    assert Points(c)(c.base);
    G.TimesMultiplies(Adder(c), UNIT, Points(c), c.base, a, k);
  }

  // The public key stands for the clamped first half of the hashed seed: its low 254
  // bits down to a multiple of eight, with bit 254 set.
  lemma PublicKeyIs(c: Curve, hash: Hash, seed: seq<Octet>)
    requires Hypotheses(c) && Sized(c)
    ensures var low := FromBytes(hash(seed)[..32]) % TWO_254;
      Decode(c, PublicKey(c, hash, seed)) == Some(G.Times(Adder(c), UNIT, c.base, TWO_254 + low - low % 8))
  {
    PublicDecodes(c, Scalar(hash, seed));
    MulIsTimes(c, c.base, Scalar(hash, seed));
  }

  lemma MultipleOfPublic(c: Curve, a: nat, k: nat)
    requires Hypotheses(c)
    ensures Mul(c, Mul(c, c.base, a), k) == Mul(c, c.base, k * a)
  {
    MulIsTimes(c, c.base, a);
    MulIsTimes(c, Mul(c, c.base, a), k);
    MulIsTimes(c, c.base, k * a);
    TimesOfTimes(c, a, k, k * a);
  }

  lemma SumOfPublics(c: Curve, r: nat, m: nat)
    requires Hypotheses(c)
    ensures Mul(c, c.base, (r + m) % c.l) == Add(c, Mul(c, c.base, r), Mul(c, c.base, m))
  {
    CurveIsAbelian(c);
    assert Points(c)(c.base);
    MulIsTimes(c, c.base, r);
    MulIsTimes(c, c.base, m);
    MulIsTimes(c, c.base, (r + m) % c.l);
    G.TimesAdds(Adder(c), UNIT, Points(c), c.base, r, m);
    G.TimesReduces(Adder(c), UNIT, Points(c), c.base, r + m, c.l);
  }

  // [r + k a mod L]B = [r]B + [k][a]B
  lemma SignatureEquation(c: Curve, r: nat, k: nat, a: nat)
    requires Hypotheses(c)
    ensures Mul(c, c.base, (r + k * a) % c.l) == Add(c, Mul(c, c.base, r), Mul(c, Mul(c, c.base, a), k))
  {
    MultipleOfPublic(c, a, k);
    SumOfPublics(c, r, k * a);
  }

  lemma SignatureHalves(c: Curve, hash: Hash, seed: seq<Octet>, message: seq<Octet>)
    requires Sized(c)
    ensures var a, r := Scalar(hash, seed), Nonce(c, hash, seed, message);
      var k := Challenge(c, hash, Public(c, r), PublicKey(c, hash, seed), message);
      var signature := Sign(c, hash, seed, message);
      signature[..32] == Public(c, r) && FromBytes(signature[32..]) == (r + k * a) % c.l
  {
    var a, r := Scalar(hash, seed), Nonce(c, hash, seed, message);
    var k := Challenge(c, hash, Public(c, r), PublicKey(c, hash, seed), message);
    var s := (r + k * a) % c.l;
    assert Sign(c, hash, seed, message)[32..] == ToBytes(s, 32);
    BytePowers();
    BytesRoundTrip(s, 32);
  }

  // Every signature that is produced is accepted.
  lemma VerifyAcceptsSign(c: Curve, hash: Hash, seed: seq<Octet>, message: seq<Octet>)
    requires Hypotheses(c) && Sized(c)
    ensures Verify(c, hash, PublicKey(c, hash, seed), message, Sign(c, hash, seed, message))
  {
    var a, r := Scalar(hash, seed), Nonce(c, hash, seed, message);
    var k := Challenge(c, hash, Public(c, r), PublicKey(c, hash, seed), message);
    SignatureHalves(c, hash, seed, message);
    PublicDecodes(c, a);
    PublicDecodes(c, r);
    SignatureEquation(c, r, k, a);
  }

  // ---- what is refused -----------------------------------------------------------------

  // The order of the base point is no less than L.
  ghost predicate ExactOrder(c: Curve) {
    forall n: nat :: G.Times(Adder(c), UNIT, c.base, n) == UNIT ==> n % c.l == 0
  }

  lemma DifferentMultiples(c: Curve, x: nat, y: nat)
    requires Hypotheses(c) && ExactOrder(c) && x <= y < c.l && Mul(c, c.base, x) == Mul(c, c.base, y)
    ensures x == y
  {
    CurveIsAbelian(c);
    assert Points(c)(c.base);
    MulIsTimes(c, c.base, x);
    MulIsTimes(c, c.base, y);
    G.TimesAdds(Adder(c), UNIT, Points(c), c.base, x, c.l - x);
    G.TimesAdds(Adder(c), UNIT, Points(c), c.base, y, c.l - x);
    assert G.Times(Adder(c), UNIT, c.base, y + (c.l - x)) == UNIT;
    if x < y { NextIsNoMultiple(x, y, c.l); }
  }

  lemma NextIsNoMultiple(x: nat, y: nat, l: nat)
    requires x < y < l
    ensures (y + (l - x)) % l != 0
  {
    if (y + (l - x)) % l == 0 {
      MultipleInRange(y - x + l, l, -1, 2);
    }
  }

  lemma SameMultipleIff(c: Curve, x: nat, y: nat)
    requires Hypotheses(c) && ExactOrder(c) && x < c.l && y < c.l
    ensures Mul(c, c.base, x) == Mul(c, c.base, y) <==> x == y
  {
    if Mul(c, c.base, x) == Mul(c, c.base, y) {
      if x <= y { DifferentMultiples(c, x, y); } else { DifferentMultiples(c, y, x); }
    }
  }

  // For one key, message and first half there is at most one second half.
  lemma SecondHalfIsUnique(c: Curve, hash: Hash, key: seq<Octet>, message: seq<Octet>, encoded: seq<Octet>,
                           half: seq<Octet>, other: seq<Octet>)
    requires Hypotheses(c) && ExactOrder(c) && |encoded| == |half| == |other| == 32
    requires Verify(c, hash, key, message, encoded + half) && Verify(c, hash, key, message, encoded + other)
    ensures half == other
  {
    assert (encoded + half)[..32] == (encoded + other)[..32] == encoded;
    assert (encoded + half)[32..] == half && (encoded + other)[32..] == other;
    SameMultipleIff(c, FromBytes(half), FromBytes(other));
    NumberRoundTrip(half);
    NumberRoundTrip(other);
  }

  lemma ChallengesDiffer(c: Curve, r: nat, k: nat, k': nat, a: nat)
    requires Hypotheses(c) && ExactOrder(c)
    ensures Mul(c, c.base, (r + k * a) % c.l) == Mul(c, c.base, (r + k' * a) % c.l) <==> ((k' - k) * a) % c.l == 0
  {
    SameMultipleIff(c, (r + k * a) % c.l, (r + k' * a) % c.l);
    SameRemainderIff(r + k * a, r + k' * a, c.l);
    assert r + k' * a - (r + k * a) == (k' - k) * a;
  }

  // A signature is accepted for another message exactly if L divides the difference of
  // the two challenges times the secret scalar.
  lemma OtherMessageIff(c: Curve, hash: Hash, seed: seq<Octet>, message: seq<Octet>, other: seq<Octet>)
    requires Hypotheses(c) && ExactOrder(c) && Sized(c)
    ensures var key, signature := PublicKey(c, hash, seed), Sign(c, hash, seed, message);
      var k: int := FromBytes(hash(signature[..32] + key + message)) % c.l;
      var k': int := FromBytes(hash(signature[..32] + key + other)) % c.l;
      Verify(c, hash, key, other, signature) <==> ((k' - k) * Scalar(hash, seed)) % c.l == 0
  {
    var a, r := Scalar(hash, seed), Nonce(c, hash, seed, message);
    var key := PublicKey(c, hash, seed);
    var k := Challenge(c, hash, Public(c, r), key, message);
    var k' := Challenge(c, hash, Public(c, r), key, other);
    SignatureHalves(c, hash, seed, message);
    PublicDecodes(c, a);
    PublicDecodes(c, r);
    SignatureEquation(c, r, k', a);
    ChallengesDiffer(c, r, k, k', a);
  }

  lemma DifferenceDecides(k: nat, k': nat, a: nat, l: nat)
    requires k < l && k' < l && DividesAFactor(l, k' - k, a) && a % l != 0
    ensures ((k' - k) * a) % l == 0 <==> k == k'
  {
    SameRemainderIff(k, k', l);
    if k == k' { assert (k' - k) * a == 0; }
  }

  // Then it is accepted exactly if the two challenges are equal.
  lemma OtherMessageNeedsCollision(c: Curve, hash: Hash, seed: seq<Octet>, message: seq<Octet>, other: seq<Octet>)
    requires Hypotheses(c) && ExactOrder(c) && Prime(c.l) && Sized(c) && Scalar(hash, seed) % c.l != 0
    ensures var key, signature := PublicKey(c, hash, seed), Sign(c, hash, seed, message);
      Verify(c, hash, key, other, signature) <==>
        FromBytes(hash(signature[..32] + key + message)) % c.l == FromBytes(hash(signature[..32] + key + other)) % c.l
  {
    var key, signature := PublicKey(c, hash, seed), Sign(c, hash, seed, message);
    var k: int := FromBytes(hash(signature[..32] + key + message)) % c.l;
    var k': int := FromBytes(hash(signature[..32] + key + other)) % c.l;
    OtherMessageIff(c, hash, seed, message, other);
    assert DividesAFactor(c.l, k' - k, Scalar(hash, seed));
    DifferenceDecides(k, k', Scalar(hash, seed), c.l);
  }

  // Two signatures share their first half exactly if the nonces, which come from the
  // message and the second half of the hashed seed, are equal.
  lemma SameFirstHalfIff(c: Curve, hash: Hash, seed: seq<Octet>, message: seq<Octet>, other: seq<Octet>)
    requires Hypotheses(c) && ExactOrder(c) && Sized(c)
    ensures Sign(c, hash, seed, message)[..32] == Sign(c, hash, seed, other)[..32] <==>
      FromBytes(hash(hash(seed)[32..] + message)) % c.l == FromBytes(hash(hash(seed)[32..] + other)) % c.l
  {
    var r, r' := Nonce(c, hash, seed, message), Nonce(c, hash, seed, other);
    SignatureHalves(c, hash, seed, message);
    SignatureHalves(c, hash, seed, other);
    PublicDecodes(c, r);
    PublicDecodes(c, r');
    SameMultipleIff(c, r, r');
  }

  // What can be computed of the standard's constants: 121666 d = -121665, i is a root of
  // -1, the base point is on the curve and 5 of its y coordinate are 4.
  lemma StandardConstants()
    ensures Sized(ED25519) && ED25519.q == TWO_255 - 19 && ED25519.q % 8 == 5
    ensures (121666 * ED25519.d + 121665) % ED25519.q == 0 && Same(ED25519.i * ED25519.i, -1, ED25519.q)
    ensures OnCurve(ED25519, ED25519.base) && 5 * ED25519.base.1 % ED25519.q == 4 && ED25519.base.0 % 2 == 0
    ensures ED25519.l == TWO_254 / 4 + 27742317777372353535851937790883648493
  {
  }

  // No second form of a signature: a scalar that is not reduced is refused.
  lemma UnreducedScalarIsRefused(c: Curve, hash: Hash, key: seq<Octet>, message: seq<Octet>, encoded: seq<Octet>, s: nat)
    requires |encoded| == 32 && c.l <= s < 2 * TWO_255
    ensures !Verify(c, hash, key, message, encoded + ToBytes(s, 32))
  {
    var signature := encoded + ToBytes(s, 32);
    assert signature[32..] == ToBytes(s, 32);
    BytePowers();
    BytesRoundTrip(s, 32);
  }
}
