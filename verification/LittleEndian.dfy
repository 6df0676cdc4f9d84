// Little-endian numbers as bytes and as bits, as Python's to_bytes, from_bytes and
// shifts compute them.

module LittleEndian {
  type Octet = n: nat | n < 256

  function Pow(b: nat, n: nat): nat {
    if n == 0 then 1 else b * Pow(b, n - 1)
  }

  lemma {:induction false} PowAdds(b: nat, m: nat, n: nat)
    ensures Pow(b, m + n) == Pow(b, m) * Pow(b, n)
    decreases m
  {
    if m > 0 {
      PowAdds(b, m - 1, n);
      assert b * (Pow(b, m - 1) * Pow(b, n)) == b * Pow(b, m - 1) * Pow(b, n);
    }
  }

  // int.to_bytes(n, 'little'), for numbers that fit.
  function ToBytes(v: nat, n: nat): (s: seq<Octet>)
    ensures |s| == n
  {
    if n == 0 then [] else [v % 256] + ToBytes(v / 256, n - 1)
  }

  // int.from_bytes(s, 'little')
  function FromBytes(s: seq<Octet>): nat {
    if s == [] then 0 else s[0] + 256 * FromBytes(s[1..])
  }

  lemma {:induction false} BytesRoundTrip(v: nat, n: nat)
    requires v < Pow(256, n)
    ensures FromBytes(ToBytes(v, n)) == v
  {
    if n > 0 {
      assert v / 256 < Pow(256, n - 1);
      BytesRoundTrip(v / 256, n - 1);
      assert ToBytes(v, n)[1..] == ToBytes(v / 256, n - 1);
    }
  }

  lemma {:induction false} NumberFits(s: seq<Octet>)
    ensures FromBytes(s) < Pow(256, |s|)
    decreases |s|
  {
    if s != [] { NumberFits(s[1..]); }
  }

  lemma DigitAndRest(digit: Octet, rest: nat)
    ensures (digit + 256 * rest) % 256 == digit && (digit + 256 * rest) / 256 == rest
  {
  }

  lemma {:induction false} NumberRoundTrip(s: seq<Octet>)
    ensures ToBytes(FromBytes(s), |s|) == s
    decreases |s|
  {
    if s != [] {
      NumberRoundTrip(s[1..]);
      DigitAndRest(s[0], FromBytes(s[1..]));
      assert s == [s[0]] + s[1..];
    }
  }

  // The top byte holds what is above the lower bytes.
  lemma {:induction false} TopByte(lo: nat, hi: Octet, n: nat)
    requires lo < Pow(256, n)
    ensures ToBytes(lo + Pow(256, n) * hi, n + 1) == ToBytes(lo, n) + [hi]
  {
    var v := lo + Pow(256, n) * hi;
    if n == 0 {
      assert ToBytes(hi, 1) == [hi % 256] + ToBytes(hi / 256, 0);
    } else {
      var rest := Pow(256, n - 1) * hi;
      assert v == lo + 256 * rest;
      TopByte(lo / 256, hi, n - 1);
      assert v % 256 == lo % 256 && v / 256 == lo / 256 + rest;
    }
  }

  // [(v >> i) & 1 for i in range(n)]
  function BitsOf(v: nat, n: nat): seq<nat> {
    if n == 0 then [] else [v % 2] + BitsOf(v / 2, n - 1)
  }

  // sum(bits[i] << i)
  function SumBits(bits: seq<nat>): nat {
    if bits == [] then 0 else bits[0] + 2 * SumBits(bits[1..])
  }

  lemma {:induction false} BitsWithTop(v: nat, n: nat, top: nat)
    requires v < Pow(2, n)
    ensures SumBits(BitsOf(v, n) + [top]) == v + Pow(2, n) * top
  {
    if n == 0 {
      assert BitsOf(v, 0) + [top] == [top];
      assert SumBits([top]) == top + 2 * SumBits([]);
    } else {
      BitsWithTop(v / 2, n - 1, top);
      assert (BitsOf(v, n) + [top])[1..] == BitsOf(v / 2, n - 1) + [top];
      assert Pow(2, n) * top == 2 * (Pow(2, n - 1) * top);
    }
  }

  // ---- the powers that 32-byte strings need --------------------------------------

  const TWO_254: nat := 0x4000000000000000000000000000000000000000000000000000000000000000
  const TWO_255: nat := 0x8000000000000000000000000000000000000000000000000000000000000000
  const TWO_248: nat := 0x100000000000000000000000000000000000000000000000000000000000000

  lemma PowersOf(b: nat, m: nat, n: nat, p: nat, q: nat)
    requires Pow(b, m) == p && Pow(b, n) == q
    ensures Pow(b, m + n) == p * q
  {
    PowAdds(b, m, n);
  }

  lemma BytePowers()
    ensures Pow(256, 31) == TWO_248 && Pow(256, 32) == 2 * TWO_255
  {
    PowersOf(256, 0, 0, 1, 1);
    assert Pow(256, 1) == 256 * Pow(256, 0);
    PowersOf(256, 1, 1, 256, 256);
    PowersOf(256, 2, 2, 0x10000, 0x10000);
    PowersOf(256, 4, 4, 0x100000000, 0x100000000);
    PowersOf(256, 8, 8, 0x10000000000000000, 0x10000000000000000);
    PowersOf(256, 2, 1, 0x10000, 256);
    PowersOf(256, 4, 3, 0x100000000, 0x1000000);
    PowersOf(256, 8, 7, 0x10000000000000000, 0x100000000000000);
    PowersOf(256, 16, 15, 0x100000000000000000000000000000000, 0x1000000000000000000000000000000);
    PowersOf(256, 31, 1, TWO_248, 256);
  }

  // 2^8 = 256, so a power of 2 in steps of eight is a power of 256.
  lemma {:induction false} EightBits(n: nat)
    ensures Pow(2, 8 * n) == Pow(256, n)
  {
    if n > 0 {
      EightBits(n - 1);
      var p := Pow(2, 8 * n - 8);
      assert Pow(2, 8 * n - 7) == 2 * p;
      assert Pow(2, 8 * n - 6) == 4 * p;
      assert Pow(2, 8 * n - 5) == 8 * p;
      assert Pow(2, 8 * n - 4) == 16 * p;
      assert Pow(2, 8 * n - 3) == 32 * p;
      assert Pow(2, 8 * n - 2) == 64 * p;
      assert Pow(2, 8 * n - 1) == 128 * p;
    }
  }

  lemma BitPowers()
    ensures Pow(2, 255) == TWO_255
  {
    BytePowers();
    EightBits(31);
    var p := Pow(2, 248);
    assert Pow(2, 249) == 2 * p;
    assert Pow(2, 250) == 4 * p;
    assert Pow(2, 251) == 8 * p;
    assert Pow(2, 252) == 16 * p;
    assert Pow(2, 253) == 32 * p;
    assert Pow(2, 254) == 64 * p;
    assert Pow(2, 255) == 128 * p;
  }

  lemma SplitSigned(y: nat, sign: nat) returns (lo: nat, hi: nat)
    requires y < TWO_255 && sign < 2
    ensures lo < TWO_248 && hi < 256 && y + TWO_255 * sign == lo + TWO_248 * hi && hi / 128 == sign
  {
    lo := y % TWO_248;
    var high := y / TWO_248;
    assert y == lo + TWO_248 * high;
    assert high < 128;
    hi := high + 128 * sign;
  }

  lemma TopByteOf(v: nat, lo: nat, hi: nat)
    requires lo < TWO_248 && hi < 256 && v == lo + TWO_248 * hi
    ensures ToBytes(v, 32)[31] == hi
  {
    BytePowers();
    TopByte(lo, hi, 31);
  }

  lemma LowBits(y: nat, sign: nat)
    requires y < TWO_255 && sign < 2
    ensures (y + TWO_255 * sign) % TWO_255 == y && y + TWO_255 * sign < 2 * TWO_255
  {
  }

  // The sign bit of 32 bytes, and what is below it.
  lemma SignOf(s: seq<Octet>)
    requires |s| == 32
    ensures FromBytes(s) == FromBytes(s) % TWO_255 + TWO_255 * (s[31] / 128)
  {
    var v := FromBytes(s);
    NumberRoundTrip(s);
    NumberFits(s);
    BytePowers();
    var hi := v / TWO_248;
    assert v == v % TWO_248 + TWO_248 * hi;
    TopByteOf(v, v % TWO_248, hi);
    assert v / TWO_255 == hi / 128;
  }

  lemma BitsAndSign(y: nat, sign: nat)
    requires y < TWO_255
    ensures SumBits(BitsOf(y, 255) + [sign]) == y + TWO_255 * sign
  {
    BitPowers();
    BitsWithTop(y, 255, sign);
  }

  // Bits and a sign bit that were read from 32 bytes give the bytes again.
  lemma BytesOfSigned(s: seq<Octet>, y: nat, sign: nat)
    requires |s| == 32 && y == FromBytes(s) % TWO_255 && sign == s[31] / 128
    ensures ToBytes(SumBits(BitsOf(y, 255) + [sign]), 32) == s
  {
    SignOf(s);
    BitsAndSign(y, sign);
    NumberRoundTrip(s);
  }

  lemma FitsIntoBytes(v: nat)
    requires v < 2 * TWO_255
    ensures FromBytes(ToBytes(v, 32)) == v
  {
    BytePowers();
    BytesRoundTrip(v, 32);
  }

  lemma SignByte(y: nat, sign: nat)
    requires y < TWO_255 && sign < 2
    ensures ToBytes(y + TWO_255 * sign, 32)[31] / 128 == sign
  {
    var lo, hi := SplitSigned(y, sign);
    TopByteOf(y + TWO_255 * sign, lo, hi);
  }

  // A number below 2^255 with a sign bit on top: what its 32 bytes say.
  lemma SignedBytes(y: nat, sign: nat)
    requires y < TWO_255 && sign < 2
    ensures var s := ToBytes(SumBits(BitsOf(y, 255) + [sign]), 32);
      FromBytes(s) % TWO_255 == y && s[31] / 128 == sign
  {
    var v := SumBits(BitsOf(y, 255) + [sign]);
    assert v == y + TWO_255 * sign by { BitsAndSign(y, sign); }
    SignedNumber(v, y, sign);
  }

  lemma SignedNumber(v: nat, y: nat, sign: nat)
    requires y < TWO_255 && sign < 2 && v == y + TWO_255 * sign
    ensures FromBytes(ToBytes(v, 32)) % TWO_255 == y && ToBytes(v, 32)[31] / 128 == sign
  {
    LowBits(y, sign);
    FitsIntoBytes(v);
    SignByte(y, sign);
  }
}
