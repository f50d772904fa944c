/** What the arithmetic of values means: that of the integers that bit patterns stand for, as long as the
    result has a bit pattern. */
module ArithLaws {
  import opened Ast
  import opened Wrappers
  import opened Values

  /** The integer that a bit pattern of a type stands for. */
  function Reading(t: Type, bits: nat): int {
    if t == Int && bits >= 0x8000_0000 then bits - 0x1_0000_0000 else bits
  }

  /** The integers that have a bit pattern. */
  predicate InRange(t: Type, n: int) {
    if t == Int then -0x8000_0000 <= n < 0x8000_0000 else 0 <= n < Modulus(t)
  }

  function Exact(op: BinOp, a: int, b: int): int {
    if op == Add then a + b else if op == Sub then a - b else a * b
  }

  lemma ReadingOf(t: Type, bits: nat)
    requires IsInteger(t) && bits < Modulus(t)
    ensures InRange(t, Reading(t, bits)) && Reading(t, bits) % Modulus(t) == bits
  {
  }

  /** An integer with a bit pattern is the reading of its residue. */
  lemma ReadingBack(t: Type, n: int)
    requires IsInteger(t) && InRange(t, n)
    ensures Reading(t, n % Modulus(t)) == n
  {
  }

  /** Sums, differences and products that have a bit pattern are exact. */
  lemma ExactInRange(op: BinOp, t: Type, a: nat, b: nat)
    requires op in {Add, Sub, Mul} && IsInteger(t) && a < Modulus(t) && b < Modulus(t)
    requires InRange(t, Exact(op, Reading(t, a), Reading(t, b)))
    ensures var r := Arith(op, t, a, b);
      r.Some? && r.value.Num? && r.value.ty == t && Reading(t, r.value.bits) == Exact(op, Reading(t, a), Reading(t, b))
  {
    var n, m := Exact(op, Reading(t, a), Reading(t, b)), Modulus(t);
    ReadingBack(t, n);
    var x, y := if Reading(t, a) == a then 0 else 1, if Reading(t, b) == b then 0 else 1;
    assert Reading(t, a) == a - x * m && Reading(t, b) == b - y * m;
    SameResidue(op, a, b, x, y, m);
    hide Bitwise, ShiftLeft, ShiftRight, Quotient;
  }

  /** Numbers that differ by a multiple of the modulus give the same residue. */
  lemma SameResidue(op: BinOp, a: int, b: int, x: int, y: int, m: int)
    requires m > 0
    ensures Exact(op, a - x * m, b - y * m) % m == Exact(op, a, b) % m
  {
    if op == Add {
      AddMultiple(a + b, -x - y, m);
      Distribute(x, y, m);
    } else if op == Sub {
      AddMultiple(a - b, y - x, m);
      Distribute(-x, y, m);
    } else {
      ProductResidue(a - x * m, b, -y, m);
      ProductResidue(b, a, -x, m);
    }
  }

  lemma Distribute(x: int, y: int, m: int)
    ensures (x + y) * m == x * m + y * m && (-x - y) * m == -(x * m) - y * m
    ensures (-x) * m == -(x * m)
  {
  }

  lemma ProductResidue(c: int, b: int, k: int, m: int)
    requires m > 0
    ensures (c * (b + k * m)) % m == (c * b) % m
    ensures b - (-k) * m == b + k * m && c * b == b * c
  {
    AddMultiple(c * b, c * k, m);
    Associate(c, b, k, m);
  }

  lemma Associate(c: int, b: int, k: int, m: int)
    ensures c * (b + k * m) == c * b + c * k * m
  {
  }

  lemma AddMultiple(n: int, k: int, m: int)
    requires m > 0
    ensures (n + k * m) % m == n % m
  {
    var q, r := n / m, n % m;
    assert n + k * m == (q + k) * m + r;
    UniqueDivision(n + k * m, q + k, r, m);
  }

  lemma MultipleSize(d: int, m: int)
    requires m > 0
    ensures d == 0 || d * m >= m || d * m <= -m
  {
    if d >= 1 {
      assert (d - 1) * m >= 0;
    } else if d <= -1 {
      assert (-d - 1) * m >= 0;
    }
  }

  lemma UniqueDivision(n: int, q: int, r: int, m: int)
    requires m > 0 && 0 <= r < m && n == q * m + r
    ensures n / m == q && n % m == r
  {
    var d := n / m - q;
    assert d * m == r - n % m by {
      assert n == n / m * m + n % m;
      assert d * m == n / m * m - q * m;
    }
    MultipleSize(d, m);
  }

  /** Division truncates towards zero, and the remainder has the sign of the dividend. They have no result
      exactly for a divisor of zero, and for the one quotient that is out of range. */
  lemma DivisionLaw(t: Type, a: nat, b: nat)
    requires IsInteger(t) && a < Modulus(t) && b < Modulus(t)
    ensures var n, d := Reading(t, a), Reading(t, b); var q, r := Arith(Div, t, a, b), Arith(Mod, t, a, b);
      && (q.None? <==> d == 0 || (t == Int && n == -0x8000_0000 && d == -1)) && (r.None? <==> q.None?)
      && (q.Some? ==>
            q.value.Num? && r.value.Num?
            && var quotient, remainder := Reading(t, q.value.bits), Reading(t, r.value.bits);
               n == d * quotient + remainder && Abs(remainder) < Abs(d) && (remainder == 0 || (remainder < 0 <==> n < 0)))
  {
    hide Quotient, Bitwise, ShiftLeft, ShiftRight;
    var n, d := Reading(t, a), Reading(t, b);
    DivisionGives(t, a, b);
    if d != 0 && !(t == Int && n == -0x8000_0000 && d == -1) {
      ReadingOf(t, a);
      ReadingOf(t, b);
      QuotientLaw(n, d);
      QuotientInRange(t, n, d);
      ReadingBack(t, Quotient(n, d));
      ReadingBack(t, n - d * Quotient(n, d));
      hide Arith, Reading;
    }
  }

  lemma DivisionGives(t: Type, a: nat, b: nat)
    requires IsInteger(t) && a < Modulus(t) && b < Modulus(t)
    ensures var n, d := Reading(t, a), Reading(t, b); var q, r := Arith(Div, t, a, b), Arith(Mod, t, a, b);
      && (q.None? <==> d == 0 || (t == Int && n == -0x8000_0000 && d == -1)) && (r.None? <==> q.None?)
      && (q.Some? ==>
            q.value.Num? && q.value.bits == Quotient(n, d) % Modulus(t)
            && r.value.Num? && r.value.bits == (n - d * Quotient(n, d)) % Modulus(t))
  {
    hide Quotient, Bitwise, ShiftLeft, ShiftRight;
    SignedIsReading(t, a);
    SignedIsReading(t, b);
  }

  lemma SignedIsReading(t: Type, bits: nat)
    requires IsInteger(t) && bits < Modulus(t)
    ensures (if t == Int && bits < Modulus(t) then Signed(bits) else bits) == Reading(t, bits)
  {
  }

  function Abs(n: int): nat {
    if n < 0 then -n else n
  }

  lemma QuotientLaw(n: int, d: int)
    requires d != 0
    ensures var r := n - d * Quotient(n, d); Abs(r) < Abs(d) && (r == 0 || (r < 0 <==> n < 0))
    ensures Abs(Quotient(n, d)) <= Abs(n) && (n >= 0 && d > 0 ==> Quotient(n, d) >= 0)
  {
    var q, r := Abs(n) / Abs(d), Abs(n) % Abs(d);
    DivMod(Abs(n), Abs(d));
    QuotientBelow(Abs(n), Abs(d));
    assert Quotient(n, d) == if (n < 0) == (d < 0) then q else -q;
    hide Quotient;
    SignsOut(n, d, q, r, Quotient(n, d));
  }

  lemma QuotientBelow(a: nat, b: nat)
    requires b > 0
    ensures a / b <= a
  {
    DivMod(a, b);
    NoSmaller(a / b, b);
  }

  lemma DivMod(a: nat, b: nat)
    requires b > 0
    ensures a == a / b * b + a % b
  {
  }

  lemma NoSmaller(q: nat, b: nat)
    ensures b >= 1 ==> q * b >= q
    ensures b >= 2 ==> q * b >= q + q
  {
    if b >= 1 {
      assert q * b == q * (b - 1) + q;
      if b >= 2 {
        assert q * (b - 1) == q * (b - 2) + q;
      }
    }
  }

  lemma SignsOut(n: int, d: int, q: int, r: int, signed: int)
    requires d != 0 && Abs(n) == q * Abs(d) + r
    requires signed == if (n < 0) == (d < 0) then q else -q
    ensures n - d * signed == if n < 0 then -r else r
  {
    if d < 0 {
      assert q * -d == -(q * d);
    }
    assert d * q == q * d && d * -q == -(q * d);
  }

  lemma QuotientInRange(t: Type, n: int, d: int)
    requires IsInteger(t) && InRange(t, n) && InRange(t, d) && d != 0 && !(t == Int && n == -0x8000_0000 && d == -1)
    ensures InRange(t, Quotient(n, d)) && InRange(t, n - d * Quotient(n, d))
  {
    QuotientLaw(n, d);
    if t == Int && n == -0x8000_0000 {
      LargestQuotient(n, d);
    }
    BoundedInRange(t, n, d, Quotient(n, d), n - d * Quotient(n, d));
  }

  lemma BoundedInRange(t: Type, n: int, d: int, q: int, r: int)
    requires IsInteger(t) && InRange(t, n) && InRange(t, d)
    requires Abs(q) <= Abs(n) && (n >= 0 && d > 0 ==> q >= 0) && (n == -0x8000_0000 && t == Int ==> q < -n)
    requires Abs(r) < Abs(d) && (r == 0 || (r < 0 <==> n < 0))
    ensures InRange(t, q) && InRange(t, r)
  {
  }

  lemma LargestQuotient(n: int, d: int)
    requires n < 0 && d != 0 && d != -1
    ensures Quotient(n, d) < -n
  {
    if d < -1 {
      QuotientSmaller(-n, -d);
    }
  }

  lemma QuotientSmaller(a: nat, b: nat)
    requires a > 0 && b > 1
    ensures a / b < a
  {
    DivMod(a, b);
    NoSmaller(a / b, b);
  }

  /** Comparisons compare readings. */
  lemma OrderLaw(t: Type, a: nat, b: nat)
    requires IsInteger(t) && a < Modulus(t) && b < Modulus(t)
    ensures var m, n := Reading(t, a), Reading(t, b);
      && Arith(Eq, t, a, b) == Some(Truth(m == n)) && Arith(Ne, t, a, b) == Some(Truth(m != n))
      && Arith(Lt, t, a, b) == Some(Truth(m < n)) && Arith(Gt, t, a, b) == Some(Truth(m > n))
      && Arith(Le, t, a, b) == Some(Truth(m <= n)) && Arith(Ge, t, a, b) == Some(Truth(m >= n))
  {
    hide Bitwise, ShiftLeft, ShiftRight, Quotient;
  }

  // ---------------------------------------------------------------------------
  // Bits
  // ---------------------------------------------------------------------------

  function Bit(n: nat, k: nat): bool
    decreases k
  {
    if k == 0 then n % 2 == 1 else Bit(n / 2, k - 1)
  }

  function Pow2(k: nat): (r: nat)
    ensures r > 0
  {
    if k == 0 then 1 else 2 * Pow2(k - 1)
  }

  function Combined(op: BinOp, x: bool, y: bool): bool {
    if op == BitAnd then x && y else if op == BitOr then x || y else x != y
  }

  lemma {:induction false} BitwiseBit(op: BinOp, a: nat, b: nat, k: nat)
    requires op in {BitAnd, BitOr, BitXor}
    ensures Bit(Bitwise(op, a, b), k) == Combined(op, Bit(a, k), Bit(b, k))
    decreases k
  {
    BitwiseHalves(op, a, b);
    if k > 0 {
      hide Bitwise;
      BitwiseBit(op, a / 2, b / 2, k - 1);
    }
  }

  lemma BitwiseHalves(op: BinOp, a: nat, b: nat)
    requires op in {BitAnd, BitOr, BitXor}
    ensures Bitwise(op, a, b) / 2 == Bitwise(op, a / 2, b / 2)
    ensures Bitwise(op, a, b) % 2 == 1 <==> Combined(op, a % 2 == 1, b % 2 == 1)
  {
  }

  lemma {:induction false} BitwiseBelow(op: BinOp, a: nat, b: nat, k: nat)
    requires op in {BitAnd, BitOr, BitXor} && a < Pow2(k) && b < Pow2(k)
    ensures Bitwise(op, a, b) < Pow2(k)
    decreases k
  {
    BitwiseHalves(op, a, b);
    if k > 0 {
      hide Bitwise;
      BitwiseBelow(op, a / 2, b / 2, k - 1);
    }
  }

  lemma ModulusIsPower(t: Type)
    requires IsInteger(t)
    ensures IntegerWidth(t).Some? && Modulus(t) == Pow2(IntegerWidth(t).value)
  {
    Powers();
    hide Pow2;
  }

  lemma Powers()
    ensures Pow2(8) == 0x100 && Pow2(16) == 0x1_0000 && Pow2(32) == 0x1_0000_0000
    ensures Pow2(64) == 0x1_0000_0000_0000_0000
  {
    hide *;
    ByteMore(0);
    ByteMore(8);
    ByteMore(16);
    ByteMore(24);
    ByteMore(32);
    ByteMore(40);
    ByteMore(48);
    ByteMore(56);
    NoPower();
  }

  lemma NoPower()
    ensures Pow2(0) == 1
  {
  }

  lemma ByteMore(k: nat)
    ensures Pow2(k + 8) == 256 * Pow2(k)
  {
    assert Pow2(k + 2) == 4 * Pow2(k);
    assert Pow2(k + 4) == 4 * Pow2(k + 2);
    assert Pow2(k + 6) == 4 * Pow2(k + 4);
  }

  /** The bitwise operations work on each bit by itself. */
  lemma BitsLaw(op: BinOp, t: Type, a: nat, b: nat, k: nat)
    requires op in {BitAnd, BitOr, BitXor} && IsInteger(t) && a < Modulus(t) && b < Modulus(t)
    ensures Arith(op, t, a, b).Some? && Arith(op, t, a, b).value.Num? && Arith(op, t, a, b).value.ty == t
    ensures Bit(Arith(op, t, a, b).value.bits, k) == Combined(op, Bit(a, k), Bit(b, k))
  {
    BitwiseFits(op, t, a, b);
    BitwiseBit(op, a, b, k);
    hide Bitwise, Bit, ShiftLeft, ShiftRight, Quotient;
    assert Arith(op, t, a, b) == Some(Num(t, Bitwise(op, a, b)));
  }

  lemma BitwiseFits(op: BinOp, t: Type, a: nat, b: nat)
    requires op in {BitAnd, BitOr, BitXor} && IsInteger(t) && a < Modulus(t) && b < Modulus(t)
    ensures Bitwise(op, a, b) < Modulus(t) && Bitwise(op, a, b) % Modulus(t) == Bitwise(op, a, b)
  {
    hide Bitwise, Pow2;
    ModulusIsPower(t);
    BitwiseBelow(op, a, b, IntegerWidth(t).value);
  }

  /** Shifts multiply and divide by powers of two, and have no result exactly from the width on. */
  lemma ShiftLaw(t: Type, a: nat, count: nat)
    requires IsInteger(t) && a < Modulus(t)
    ensures var left, right := Arith(Shl, t, a, count), Arith(Shr, t, a, count);
      && (left.None? <==> count >= IntegerWidth(t).value) && (right.None? <==> left.None?)
      && (left.Some? ==>
            left.value.Num? && left.value.ty == t && left.value.bits == a * Pow2(count) % Modulus(t)
            && right.value.Num? && right.value.ty == t && right.value.bits == a / Pow2(count))
  {
    hide ShiftLeft, ShiftRight, Pow2, Bitwise, Quotient;
    ShiftedLeft(a, count);
    ShiftedRight(a, count);
    QuotientBelow(a, Pow2(count));
    ShiftsGive(t, a, count);
  }

  lemma ShiftsGive(t: Type, a: nat, count: nat)
    requires IsInteger(t) && a < Modulus(t) && ShiftRight(a, count) <= a
    ensures Arith(Shl, t, a, count)
      == if count >= IntegerWidth(t).value then None else Some(Num(t, ShiftLeft(a, count) % Modulus(t)))
    ensures Arith(Shr, t, a, count)
      == if count >= IntegerWidth(t).value then None else Some(Num(t, ShiftRight(a, count)))
  {
    hide ShiftLeft, ShiftRight, Bitwise, Quotient;
  }

  lemma {:induction false} ShiftedLeft(a: nat, count: nat)
    ensures ShiftLeft(a, count) == a * Pow2(count)
    decreases count
  {
    if count > 0 {
      ShiftedLeft(2 * a, count - 1);
      assert (2 * a) * Pow2(count - 1) == a * (2 * Pow2(count - 1));
    }
  }

  lemma {:induction false} ShiftedRight(a: nat, count: nat)
    ensures ShiftRight(a, count) == a / Pow2(count)
    decreases count
  {
    if count > 0 {
      ShiftedRight(a / 2, count - 1);
      DivideTwice(a, Pow2(count - 1));
    }
  }

  lemma DivideTwice(a: nat, b: nat)
    requires b > 0
    ensures a / 2 / b == a / (2 * b)
  {
    var q := a / 2 / b;
    assert a / 2 == q * b + a / 2 % b;
    assert a == q * (2 * b) + (a / 2 % b * 2 + a % 2);
    UniqueDivision(a, q, a / 2 % b * 2 + a % 2, 2 * b);
  }

}
