/** Bitwise operations on naturals, by halving. */
module Bits {

  function Pow2(k: nat): (r: nat)
    ensures r > 0
  {
    if k == 0 then 1 else 2 * Pow2(k - 1)
  }

  // Bitwise exclusive or of naturals.
  function Xor(a: nat, b: nat): nat
    decreases a + b
  {
    if a == 0 && b == 0 then 0 else 2 * Xor(a / 2, b / 2) + (a % 2 + b % 2) % 2
  }

  lemma XorHalves(a: nat, b: nat)
    ensures Xor(a, b) / 2 == Xor(a / 2, b / 2) && Xor(a, b) % 2 == (a % 2 + b % 2) % 2
  {
    var h := Xor(a / 2, b / 2);
    assert (2 * h + 0) / 2 == h && (2 * h + 1) / 2 == h;
  }

  lemma {:induction false} XorCancels(a: nat, b: nat)
    ensures Xor(Xor(a, b), b) == a
    decreases a + b
  {
    if a != 0 || b != 0 {
      hide Xor;
      XorCancels(a / 2, b / 2);
      XorHalves(a, b);
      XorHalves(Xor(a, b), b);
      Parity(a % 2, b % 2);
      SameHalves(Xor(Xor(a, b), b), a);
    }
  }

  lemma Parity(p: nat, q: nat)
    requires p < 2 && q < 2
    ensures ((p + q) % 2 + q) % 2 == p
  {
  }

  lemma SameHalves(x: nat, y: nat)
    requires x / 2 == y / 2 && x % 2 == y % 2
    ensures x == y
  {
  }

  lemma ModStep(a: nat, m: nat)
    requires m > 0
    ensures a % (2 * m) == 2 * ((a / 2) % m) + a % 2
  {
    var q, r := (a / 2) / m, (a / 2) % m;
    assert a / 2 == q * m + r;
    var y := 2 * r + a % 2;
    assert a == q * (2 * m) + y by { assert q * (2 * m) == 2 * (q * m); }
    ModUnique(q, 2 * m, y);
  }

  lemma {:induction false} MulStrict(x: nat, y: nat, m: nat)
    requires x < y
    ensures x * m + m <= y * m
    decreases y
  {
    assert y * m == (y - 1) * m + m;
    if x < y - 1 { MulStrict(x, y - 1, m); }
  }

  lemma ModUnique(q: nat, m: nat, y: nat)
    requires y < m
    ensures (q * m + y) % m == y
  {
    var d := (q * m + y) / m;
    assert q * m + y == d * m + (q * m + y) % m;
    if d > q { MulStrict(q, d, m); }
    if d < q { MulStrict(d, q, m); }
  }

  // Masking with 2^k - 1 commutes with exclusive or.
  lemma {:induction false} XorMasked(a: nat, b: nat, k: nat)
    ensures Xor(a, b) % Pow2(k) == Xor(a % Pow2(k), b % Pow2(k))
    decreases k
  {
    if k > 0 {
      var m := Pow2(k - 1);
      ModStep(a, m);
      ModStep(b, m);
      ModStep(Xor(a, b), m);
      XorMasked(a / 2, b / 2, k - 1);
      var p, q := a % (2 * m), b % (2 * m);
      XorHalves(a, b);
      XorHalves(p, q);
      hide Xor;
      assert p / 2 == (a / 2) % m && p % 2 == a % 2;
      assert q / 2 == (b / 2) % m && q % 2 == b % 2;
    }
  }

  // Bitwise and of naturals.
  function And(a: nat, b: nat): nat
  {
    if a == 0 || b == 0 then 0 else 2 * And(a / 2, b / 2) + (if a % 2 == 1 && b % 2 == 1 then 1 else 0)
  }

  // Bit i of x: the low bit after i right shifts.
  predicate Bit(x: nat, i: nat)
  {
    if i == 0 then x % 2 == 1 else Bit(x / 2, i - 1)
  }

  lemma {:induction false} ZeroHasNoBit(i: nat)
    ensures !Bit(0, i)
  {
    if i > 0 { ZeroHasNoBit(i - 1); }
  }

  lemma {:induction false} SomeBit(x: nat) returns (i: nat)
    requires x > 0
    ensures Bit(x, i)
  {
    if x % 2 == 1 {
      i := 0;
    } else {
      var j := SomeBit(x / 2);
      i := j + 1;
    }
  }

  ghost predicate EachBitIn(b: nat, a: nat) { forall i: nat :: Bit(b, i) ==> Bit(a, i) }

  /** The bits of b are all in a exactly when and-ing with a keeps b. */
  lemma {:induction false} AndSubset(a: nat, b: nat)
    ensures And(a, b) == b <==> EachBitIn(b, a)
  {
    if b == 0 {
      forall i: nat ensures !Bit(b, i) { ZeroHasNoBit(i); }
    } else if a == 0 {
      var i := SomeBit(b);
      ZeroHasNoBit(i);
    } else {
      AndSubset(a / 2, b / 2);
      var bit := if a % 2 == 1 && b % 2 == 1 then 1 else 0;
      assert And(a, b) == 2 * And(a / 2, b / 2) + bit;
      if And(a, b) == b {
        forall i: nat | Bit(b, i) ensures Bit(a, i) {
          assert And(a / 2, b / 2) == b / 2;
        }
      } else if EachBitIn(b, a) {
        assert Bit(b, 0) ==> Bit(a, 0);
        forall i: nat | Bit(b / 2, i) ensures Bit(a / 2, i) {
          assert Bit(b, i + 1);
        }
      }
    }
  }

  lemma DivUnique(q: nat, m: nat, y: nat)
    requires y < m
    ensures (q * m + y) / m == q
  {
    ModUnique(q, m, y);
    var d := (q * m + y) / m;
    assert d * m == q * m;
    if d < q { MulStrict(d, q, m); }
    if q < d { MulStrict(q, d, m); }
  }

  function Quotient(x: nat, m: nat): nat
    requires m > 0
  {
    x / m
  }

  lemma DivStep(x: nat, m: nat)
    requires m > 0
    ensures Quotient(x, 2 * m) == Quotient(x / 2, m)
  {
    var q, r := (x / 2) / m, (x / 2) % m;
    assert x / 2 == q * m + r;
    assert x == q * (2 * m) + (2 * r + x % 2) by { assert q * (2 * m) == 2 * (q * m); }
    DivUnique(q, 2 * m, 2 * r + x % 2);
  }

  /** Dividing by 2^s drops the low s bits. */
  lemma {:induction false} ShiftedBit(x: nat, s: nat, i: nat)
    ensures Bit(Quotient(x, Pow2(s)), i) == Bit(x, i + s)
  {
    if s > 0 {
      DivStep(x, Pow2(s - 1));
      ShiftedBit(x / 2, s - 1, i);
    }
  }

  /** Naturals with the same bits are equal. */
  lemma {:induction false} SameBits(x: nat, y: nat)
    requires forall i: nat :: Bit(x, i) == Bit(y, i)
    ensures x == y
  {
    if x != 0 || y != 0 {
      assert Bit(x, 0) == Bit(y, 0);
      forall i: nat ensures Bit(x / 2, i) == Bit(y / 2, i) {
        assert Bit(x, i + 1) == Bit(y, i + 1);
      }
      if x == 0 {
        var i := SomeBit(y);
        ZeroHasNoBit(i);
      } else {
        SameBits(x / 2, y / 2);
      }
    }
  }

  lemma {:induction false} NoHighBit(x: nat, w: nat, i: nat)
    requires x < Pow2(w) && i >= w
    ensures !Bit(x, i)
  {
    if w == 0 { ZeroHasNoBit(i); } else { NoHighBit(x / 2, w - 1, i - 1); }
  }

  // The bits from s up to w are the same.
  ghost predicate AgreeFrom(x: nat, y: nat, s: nat, w: nat)
  {
    forall i: nat :: s <= i < w ==> Bit(x, i) == Bit(y, i)
  }

  /** Below 2^w, equal quotients by 2^s are equal bits from s on. */
  lemma QuotientIsHighBits(x: nat, y: nat, s: nat, w: nat)
    requires s <= w && x < Pow2(w) && y < Pow2(w)
    ensures Quotient(x, Pow2(s)) == Quotient(y, Pow2(s)) <==> AgreeFrom(x, y, s, w)
  {
    hide Pow2, Quotient;
    var p, q := Quotient(x, Pow2(s)), Quotient(y, Pow2(s));
    if p == q {
      forall i: nat | s <= i < w ensures Bit(x, i) == Bit(y, i) {
        ShiftedBit(x, s, i - s);
        ShiftedBit(y, s, i - s);
      }
    } else if AgreeFrom(x, y, s, w) {
      forall i: nat ensures Bit(p, i) == Bit(q, i) {
        ShiftedBit(x, s, i);
        ShiftedBit(y, s, i);
        if i + s >= w {
          NoHighBit(x, w, i + s);
          NoHighBit(y, w, i + s);
        }
      }
      SameBits(p, q);
    }
  }

  function Remainder(x: nat, m: nat): nat
    requires m > 0
  {
    x % m
  }

  /** The remainder by 2^k has the low k bits. */
  lemma {:induction false} LowBits(x: nat, k: nat, i: nat)
    ensures Bit(Remainder(x, Pow2(k)), i) <==> i < k && Bit(x, i)
  {
    if k == 0 {
      ZeroHasNoBit(i);
    } else {
      ModStep(x, Pow2(k - 1));
      assert Remainder(x, Pow2(k)) == 2 * Remainder(x / 2, Pow2(k - 1)) + x % 2;
      if i > 0 { LowBits(x / 2, k - 1, i - 1); }
    }
  }
}
