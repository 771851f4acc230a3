/** The `i64` operators the builtins of `lib/src/builtins.rs` apply to
    `Object::Number` payloads, written out over unbounded integers:
    wrapping `+ - *`, Rust's truncating `/` and `%`, and the bitwise
    operators on the 64-bit two's-complement representation. */
module Arith {
  import opened Objects

  const Modulus: int := 0x1_0000_0000_0000_0000

  /** Two's-complement wrap-around of an exact result into `i64`. */
  function Wrap(x: int): (r: I64)
    ensures (r - x) % Modulus == 0
  {
    var m := x % Modulus;
    if m > MaxI64 then m - Modulus else m
  }

  lemma WrapInRange(x: int)
    requires MinI64 <= x <= MaxI64
    ensures Wrap(x) == x
  {
  }

  /** Whatever the exact result, the wrapped one is the only `i64` congruent
      to it modulo 2^64. */
  lemma WrapUnique(x: int, r: I64)
    requires (r - x) % Modulus == 0
    ensures r == Wrap(x)
  {
    var w := Wrap(x);
    assert (r - w) % Modulus == 0 by {
      assert r - w == (r - x) - (w - x);
    }
  }

  function Abs(x: int): nat
  {
    if x < 0 then -x else x
  }

  /** Rust's `/` on integers: the exact quotient rounded toward zero. */
  function Quot(x: int, y: int): (q: int)
    requires y != 0
  {
    var q := Abs(x) / Abs(y);
    if (x < 0) == (y < 0) then q else -q
  }

  /** Rust's `%` on integers: the remainder of the magnitudes, with the
      sign of the dividend. */
  function Rem(x: int, y: int): (m: int)
    requires y != 0
  {
    var m := Abs(x) % Abs(y);
    if x < 0 then -m else m
  }

  lemma {:induction false} MulAtLeast(q: nat, b: nat, c: nat)
    requires b >= c
    ensures q * b >= q * c
  {
    if b > c {
      MulAtLeast(q, b - 1, c);
      assert q * b == q * (b - 1) + q;
    }
  }

  lemma DivBound(a: nat, b: nat)
    requires b >= 1
    ensures a == (a / b) * b + a % b && 0 <= a % b < b
    ensures a / b <= a
    ensures b >= 2 && a > 0 ==> a / b < a
  {
    var q := a / b;
    MulAtLeast(q, b, 1);
    if b >= 2 {
      MulAtLeast(q, b, 2);
    }
  }

  /** The two operators fit together as Rust promises: quotient times
      divisor plus remainder gives the dividend; the remainder is smaller
      than the divisor in magnitude and is zero or has the dividend's sign;
      the quotient never moves away from zero. */
  lemma QuotRem(x: int, y: int)
    requires y != 0
    ensures x == Quot(x, y) * y + Rem(x, y)
    ensures Abs(Rem(x, y)) < Abs(y)
    ensures Rem(x, y) == 0 || ((Rem(x, y) < 0) == (x < 0))
    ensures Abs(Quot(x, y) * y) <= Abs(x)
  {
    var a, b := Abs(x), Abs(y);
    DivBound(a, b);
    QuotTimes(x, y);
    var p: int, m: int := (a / b) * b, a % b;
    assert a == p + m && 0 <= m < b;
    assert Rem(x, y) == if x < 0 then -m else m;
    assert Quot(x, y) * y == if x < 0 then -p else p;
  }

  /** Quotient times divisor is the magnitude's multiple, signed as the dividend. */
  lemma QuotTimes(x: int, y: int)
    requires y != 0
    ensures var p := (Abs(x) / Abs(y)) * Abs(y);
      Quot(x, y) * y == if x < 0 then -p else p
  {
    var q: int, b: int := Abs(x) / Abs(y), Abs(y);
    if y < 0 {
      assert y == -b;
      if x < 0 {
        assert Quot(x, y) * y == q * -b == -(q * b);
      } else {
        assert Quot(x, y) * y == -q * -b == q * b;
      }
    } else {
      assert y == b;
      if x < 0 {
        assert Quot(x, y) * y == -q * b == -(q * b);
      }
    }
  }

  /** `Quot` of two `i64` values is again an `i64`, except for `MIN / -1`,
      which overflows (and panics in Rust). */
  lemma QuotRange(x: I64, y: I64)
    requires y != 0
    ensures MinI64 <= Quot(x, y) <= MaxI64 <==> !(x == MinI64 && y == -1)
  {
    var a, b := Abs(x), Abs(y);
    DivBound(a, b);
    if b == 1 {
      assert a / b == a;
    }
  }

  function Pow2(w: nat): (p: nat)
    ensures p >= 1
  {
    if w == 0 then 1 else 2 * Pow2(w - 1)
  }

  lemma {:induction false} Pow2Add(v: nat, w: nat)
    ensures Pow2(v + w) == Pow2(v) * Pow2(w)
  {
    if v > 0 {
      Pow2Add(v - 1, w);
    }
  }

  lemma Pow2At64()
    ensures Pow2(64) == Modulus
  {
    assert Pow2(4) == 16;
    Pow2Add(4, 4);
    assert Pow2(8) == 0x100;
    Pow2Add(8, 8);
    assert Pow2(16) == 0x1_0000;
    Pow2Add(16, 16);
    assert Pow2(32) == 0x1_0000_0000;
    Pow2Add(32, 32);
  }

  /** The 64-bit pattern of an `i64`, read as an unsigned number. */
  function Unsigned(n: I64): (u: nat)
    ensures u < Modulus
  {
    if n < 0 then n + Modulus else n
  }

  /** The `i64` whose pattern is the unsigned number `u`. */
  function Signed(u: nat): (n: I64)
    requires u < Modulus
  {
    if u > MaxI64 then u - Modulus else u
  }

  lemma SignedUnsigned(n: I64, u: nat)
    requires u < Modulus
    ensures Signed(Unsigned(n)) == n
    ensures Unsigned(Signed(u)) == u
  {
  }

  /** Bitwise AND of the lowest `w` bits of `a` and `b`. */
  function BitAnd(a: nat, b: nat, w: nat): (r: nat)
    ensures r < Pow2(w)
  {
    if w == 0 then 0 else (a % 2) * (b % 2) + 2 * BitAnd(a / 2, b / 2, w - 1)
  }

  /** Bitwise OR of the lowest `w` bits of `a` and `b`. */
  function BitOr(a: nat, b: nat, w: nat): (r: nat)
    ensures r < Pow2(w)
  {
    if w == 0 then 0
    else (if a % 2 == 1 || b % 2 == 1 then 1 else 0) + 2 * BitOr(a / 2, b / 2, w - 1)
  }

  /** Bitwise XOR of the lowest `w` bits of `a` and `b`. */
  function BitXor(a: nat, b: nat, w: nat): (r: nat)
    ensures r < Pow2(w)
  {
    if w == 0 then 0
    else (if a % 2 != b % 2 then 1 else 0) + 2 * BitXor(a / 2, b / 2, w - 1)
  }

  /** Bitwise complement of the lowest `w` bits of `a`. */
  function BitNot(a: nat, w: nat): (r: nat)
    ensures r < Pow2(w)
  {
    if w == 0 then 0 else (1 - a % 2) + 2 * BitNot(a / 2, w - 1)
  }

  /** `n1 & n2`, `n1 | n2`, `n1 ^ n2` and `!n1` on `i64`. */
  function And(x: I64, y: I64): I64
  {
    Pow2At64();
    Signed(BitAnd(Unsigned(x), Unsigned(y), 64))
  }

  function Or(x: I64, y: I64): I64
  {
    Pow2At64();
    Signed(BitOr(Unsigned(x), Unsigned(y), 64))
  }

  function Xor(x: I64, y: I64): I64
  {
    Pow2At64();
    Signed(BitXor(Unsigned(x), Unsigned(y), 64))
  }

  function Not(x: I64): I64
  {
    Pow2At64();
    Signed(BitNot(Unsigned(x), 64))
  }

  /** Complementing `w` bits is subtracting from the all-ones pattern. */
  lemma {:induction false} BitNotValue(a: nat, w: nat)
    requires a < Pow2(w)
    ensures BitNot(a, w) == Pow2(w) - 1 - a
  {
    if w > 0 {
      BitNotValue(a / 2, w - 1);
    }
  }

  /** XOR is addition without the carries, which AND picks out. */
  lemma {:induction false} AddByXor(a: nat, b: nat, w: nat)
    requires a < Pow2(w) && b < Pow2(w)
    ensures BitXor(a, b, w) + 2 * BitAnd(a, b, w) == a + b
  {
    if w > 0 {
      assert a / 2 < Pow2(w - 1) && b / 2 < Pow2(w - 1);
      AddByXor(a / 2, b / 2, w - 1);
      assert a == 2 * (a / 2) + a % 2 && b == 2 * (b / 2) + b % 2;
    }
  }

  /** OR and AND together count every set bit once. */
  lemma {:induction false} AddByOr(a: nat, b: nat, w: nat)
    requires a < Pow2(w) && b < Pow2(w)
    ensures BitOr(a, b, w) + BitAnd(a, b, w) == a + b
  {
    if w > 0 {
      assert a / 2 < Pow2(w - 1) && b / 2 < Pow2(w - 1);
      AddByOr(a / 2, b / 2, w - 1);
      assert a == 2 * (a / 2) + a % 2 && b == 2 * (b / 2) + b % 2;
    }
  }

  /** ANDing with all ones keeps the number; XOR with itself clears it. */
  lemma {:induction false} BitIdentities(a: nat, w: nat)
    requires a < Pow2(w)
    ensures BitAnd(a, Pow2(w) - 1, w) == a
    ensures BitOr(a, 0, w) == a
    ensures BitXor(a, a, w) == 0
  {
    if w > 0 {
      BitIdentities(a / 2, w - 1);
      assert (Pow2(w) - 1) % 2 == 1 && (Pow2(w) - 1) / 2 == Pow2(w - 1) - 1;
    }
  }

  /** `!n` on an `i64` is `-n - 1`, so complementing twice is the identity. */
  lemma NotValue(x: I64)
    ensures Not(x) == -1 - x as int
    ensures Not(Not(x)) == x
  {
    Pow2At64();
    BitNotValue(Unsigned(x), 64);
    BitNotValue(Unsigned(Not(x)), 64);
  }

  /** `x & -1 == x`, `x | 0 == x`, `x ^ x == 0`. */
  lemma BitwiseIdentities(x: I64)
    ensures And(x, -1) == x
    ensures Or(x, 0) == x
    ensures Xor(x, x) == 0
  {
    Pow2At64();
    BitIdentities(Unsigned(x), 64);
  }

  /** Adding a multiple of 2^64 does not change the wrapped value. */
  lemma WrapShift(s: int, t: int, k: int)
    requires s == t + k * Modulus
    ensures Wrap(s) == Wrap(t)
  {
    WrapUnique(s, Wrap(t));
  }

  /** The pattern of an `i64` and the `i64` of a pattern differ from the
      number by 0 or 2^64. */
  function Carry(u: nat): int
  {
    if u > MaxI64 then 1 else 0
  }

  /** The bitwise results as the patterns' values less their carries. */
  lemma Patterns(x: I64, y: I64)
    ensures var a, b := Unsigned(x), Unsigned(y);
      && BitAnd(a, b, 64) == And(x, y) + Carry(BitAnd(a, b, 64)) * Modulus
      && BitOr(a, b, 64) == Or(x, y) + Carry(BitOr(a, b, 64)) * Modulus
      && BitXor(a, b, 64) == Xor(x, y) + Carry(BitXor(a, b, 64)) * Modulus
      && a + b == x + y + (Carry(a) + Carry(b)) * Modulus
  {
    Pow2At64();
  }

  /** On `i64`, `(x ^ y) + 2 * (x & y)` wraps to `x + y`. */
  lemma XorAndSum(x: I64, y: I64)
    ensures Wrap(Xor(x, y) + 2 * And(x, y)) == Wrap(x + y)
  {
    Pow2At64();
    var a, b := Unsigned(x), Unsigned(y);
    AddByXor(a, b, 64);
    Patterns(x, y);
    var ba, bx := BitAnd(a, b, 64), BitXor(a, b, 64);
    WrapShift(Xor(x, y) + 2 * And(x, y), x + y, Carry(a) + Carry(b) - Carry(bx) - 2 * Carry(ba));
  }

  /** On `i64`, `(x | y) + (x & y)` wraps to `x + y`. */
  lemma OrAndSum(x: I64, y: I64)
    ensures Wrap(Or(x, y) + And(x, y)) == Wrap(x + y)
  {
    Pow2At64();
    var a, b := Unsigned(x), Unsigned(y);
    AddByOr(a, b, 64);
    Patterns(x, y);
    var ba, bo := BitAnd(a, b, 64), BitOr(a, b, 64);
    WrapShift(Or(x, y) + And(x, y), x + y, Carry(a) + Carry(b) - Carry(bo) - Carry(ba));
  }
}
