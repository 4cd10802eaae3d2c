/**
 * JavaScript's `|`, `&` and `^` on the byte values the interpreter combines
 * (8XY1, 8XY2, 8XY3, CXKK), written one bit at a time, least significant bit
 * first, together with the bit facts those instructions rely on.
 */
module Bits {
  import opened Constants

  function Pow2(n: nat): (p: nat)
    ensures p >= 1
  {
    if n == 0 then 1 else 2 * Pow2(n - 1)
  }

  /** Which bitwise operator. */
  datatype Connective = BitOr | BitAnd | BitXor

  /** The operator on two single bits. */
  function Bit(op: Connective, p: nat, q: nat): (r: nat)
    requires p < 2 && q < 2
    ensures r < 2
  {
    match op
    case BitOr => if p == 1 || q == 1 then 1 else 0
    case BitAnd => if p == 1 && q == 1 then 1 else 0
    case BitXor => if p != q then 1 else 0
  }

  /** The operator applied bit by bit, until both operands run out of bits. */
  function Bitwise(op: Connective, a: nat, b: nat): nat
    decreases a + b
  {
    if a == 0 && b == 0 then 0 else Bit(op, a % 2, b % 2) + 2 * Bitwise(op, a / 2, b / 2)
  }

  /** Operands below 2^n give a result below 2^n. */
  lemma {:induction false} Below(op: Connective, a: nat, b: nat, n: nat)
    requires a < Pow2(n) && b < Pow2(n)
    ensures Bitwise(op, a, b) < Pow2(n)
    decreases a + b
  {
    if a != 0 || b != 0 {
      assert n > 0;
      Below(op, a / 2, b / 2, n - 1);
    }
  }

  /** `a | b` on bytes. */
  function Or8(a: byte, b: byte): byte
  {
    ByteRange(BitOr, a, b);
    Bitwise(BitOr, a, b)
  }

  /** `a & b` on bytes. */
  function And8(a: byte, b: byte): byte
  {
    ByteRange(BitAnd, a, b);
    Bitwise(BitAnd, a, b)
  }

  /** `a ^ b` on bytes. */
  function Xor8(a: byte, b: byte): byte
  {
    ByteRange(BitXor, a, b);
    Bitwise(BitXor, a, b)
  }

  /** Two bytes combine into a byte. */
  lemma ByteRange(op: Connective, a: byte, b: byte)
    ensures Bitwise(op, a, b) < 0x100
  {
    assert Pow2(8) == 0x100;
    Below(op, a, b, 8);
  }

  /** The lowest bit of a result is the operator on the lowest bits; the rest is the operator on the rest. */
  lemma Split(op: Connective, a: nat, b: nat)
    ensures Bitwise(op, a, b) % 2 == Bit(op, a % 2, b % 2)
    ensures Bitwise(op, a, b) / 2 == Bitwise(op, a / 2, b / 2)
  {
  }

  /** The operators are symmetric. */
  lemma {:induction false} Commutes(op: Connective, a: nat, b: nat)
    ensures Bitwise(op, a, b) == Bitwise(op, b, a)
    decreases a + b
  {
    if a != 0 || b != 0 {
      Commutes(op, a / 2, b / 2);
    }
  }

  /** Every bit of `a` is set in `a | b`: masking `a | b` with `a` gives `a`. */
  lemma {:induction false} OrAbsorbs(a: nat, b: nat)
    ensures Bitwise(BitAnd, Bitwise(BitOr, a, b), a) == a
    decreases a + b
  {
    if a != 0 || b != 0 {
      var o := Bitwise(BitOr, a, b);
      Split(BitOr, a, b);
      Split(BitAnd, o, a);
      OrAbsorbs(a / 2, b / 2);
    }
  }

  /** Every bit of `a & b` is set in `a`: adding `a`'s bits to `a & b` gives `a`. */
  lemma {:induction false} AndAbsorbs(a: nat, b: nat)
    ensures Bitwise(BitOr, Bitwise(BitAnd, a, b), a) == a
    decreases a + b
  {
    if a != 0 || b != 0 {
      var c := Bitwise(BitAnd, a, b);
      Split(BitAnd, a, b);
      Split(BitOr, c, a);
      AndAbsorbs(a / 2, b / 2);
    }
  }

  /** `a | b` is at least `a`, and `a & b` at most `a`. */
  lemma {:induction false} Bounds(a: nat, b: nat)
    ensures Bitwise(BitOr, a, b) >= a && Bitwise(BitAnd, a, b) <= a
    decreases a + b
  {
    if a != 0 || b != 0 {
      Split(BitOr, a, b);
      Split(BitAnd, a, b);
      Bounds(a / 2, b / 2);
    }
  }

  /** `^ b` undoes itself: `(a ^ b) ^ b == a`. */
  lemma {:induction false} XorInverse(a: nat, b: nat)
    ensures Bitwise(BitXor, Bitwise(BitXor, a, b), b) == a
    decreases a + b
  {
    if a != 0 || b != 0 {
      var c := Bitwise(BitXor, a, b);
      Split(BitXor, a, b);
      Split(BitXor, c, b);
      XorInverse(a / 2, b / 2);
    }
  }

  /** `a | a == a`, `a & a == a` and `a ^ a == 0`. */
  lemma {:induction false} WithItself(a: nat)
    ensures Bitwise(BitOr, a, a) == a && Bitwise(BitAnd, a, a) == a && Bitwise(BitXor, a, a) == 0
  {
    if a != 0 {
      WithItself(a / 2);
    }
  }

  /** Masking a value below 2^n with n ones keeps the value. */
  lemma {:induction false} AndAllOnes(a: nat, n: nat)
    requires a < Pow2(n)
    ensures Bitwise(BitAnd, a, Pow2(n) - 1) == a
  {
    if n > 0 {
      assert (Pow2(n) - 1) / 2 == Pow2(n - 1) - 1 && (Pow2(n) - 1) % 2 == 1;
      AndAllOnes(a / 2, n - 1);
    }
  }

  /** Masking with zero clears every bit. */
  lemma {:induction false} AndZero(a: nat)
    ensures Bitwise(BitAnd, a, 0) == 0
  {
    if a != 0 {
      AndZero(a / 2);
    }
  }

  /** Halving the dividend halves the quotient: `a / (2 * p) == (a / 2) / p`. */
  lemma DivideByDouble(a: nat, p: nat)
    requires p >= 1
    ensures a / (2 * p) == (a / 2) / p
  {
    var h := a / 2;
    var q := h / p;
    var m := 2 * (h % p) + a % 2;
    assert h == p * q + h % p;
    assert a == 2 * h + a % 2;
    assert a == (2 * p) * q + m;
    assert 0 <= m < 2 * p;
    QuotientOf(a, 2 * p, q, m);
  }

  /** The quotient is the `q` of any split `a == d * q + m` with `0 <= m < d`. */
  lemma QuotientOf(a: nat, d: nat, q: nat, m: nat)
    requires d >= 1 && a == d * q + m && m < d
    ensures a / d == q
  {
    var q' := a / d;
    if q' > q {
      MulMonotone(d, q + 1, q');
      assert false;
    } else if q' < q {
      MulMonotone(d, q' + 1, q);
      assert false;
    }
  }

  /** Multiplying by `d` keeps the order. */
  lemma MulMonotone(d: nat, x: nat, y: nat)
    requires x <= y
    ensures d * x <= d * y
  {
  }

  /** Masking with 2^n keeps bit n of `a` and nothing else. */
  lemma {:induction false} AndPowerOfTwo(a: nat, n: nat)
    ensures Bitwise(BitAnd, a, Pow2(n)) == if (a / Pow2(n)) % 2 == 1 then Pow2(n) else 0
  {
    if n == 0 {
      AndZero(a / 2);
    } else {
      var p := Pow2(n - 1);
      assert Pow2(n) == 2 * p && Pow2(n) % 2 == 0 && Pow2(n) / 2 == p;
      DivideByDouble(a, p);
      AndPowerOfTwo(a / 2, n - 1);
      assert Bitwise(BitAnd, a, Pow2(n)) == Bit(BitAnd, a % 2, 0) + 2 * Bitwise(BitAnd, a / 2, p);
    }
  }

  /** The byte facts 8XY1, 8XY2, 8XY3 and CXKK rely on. */
  lemma ByteBits(a: byte, b: byte)
    ensures And8(Or8(a, b), a) == a && And8(Or8(a, b), b) == b && Or8(a, b) >= a && Or8(a, b) >= b
    ensures Or8(And8(a, b), a) == a && Or8(And8(a, b), b) == b && And8(a, b) <= a && And8(a, b) <= b
    ensures Or8(a, a) == a && And8(a, a) == a && Xor8(a, a) == 0 && Xor8(Xor8(a, b), b) == a
    ensures And8(a, 0xFF) == a
  {
    assert Pow2(8) == 0x100;
    OrAbsorbs(a, b);
    OrAbsorbs(b, a);
    Commutes(BitOr, a, b);
    AndAbsorbs(a, b);
    AndAbsorbs(b, a);
    Commutes(BitAnd, a, b);
    Bounds(a, b);
    Bounds(b, a);
    WithItself(a);
    XorInverse(a, b);
    AndAllOnes(a, 8);
  }
}
