/**
 Arithmetic on integers of mixed signedness, and comparison through float64.

 Every operand has been widened to 64 bits. When both are unsigned the operation is on uint64;
 otherwise both are converted to int64 first. Results wrap around.
 */
module Numeric {
  import opened Values

  const TWO63: int := 0x8000_0000_0000_0000
  const TWO64: int := 0x1_0000_0000_0000_0000
  const TWO52: int := 0x10_0000_0000_0000
  const TWO53: int := 0x20_0000_0000_0000

  datatype Op = Add | Sub | Mul

  predicate Fits(sign: Sign, n: int) {
    match sign
    case Signed => -TWO63 <= n < TWO63
    case Unsigned => 0 <= n < TWO64
  }

  predicate IsInt(v: Value) {
    v.Int? && Fits(v.sign, v.n)
  }

  function Wrap(sign: Sign, n: int): (r: int)
    ensures Fits(sign, r)
  {
    match sign
    case Signed => (n + TWO63) % TWO64 - TWO63
    case Unsigned => n % TWO64
  }

  function ResultSign(a: Value, b: Value): Sign
    requires a.Int? && b.Int?
  {
    if a.sign == Unsigned && b.sign == Unsigned then Unsigned else Signed
  }

  function Apply(op: Op, x: int, y: int): int {
    match op
    case Add => x + y
    case Sub => x - y
    case Mul => x * y
  }

  /** core.Add, core.Sub and core.Mul on two integer operands. */
  function Arith(op: Op, a: Value, b: Value): (r: Value)
    requires IsInt(a) && IsInt(b)
    ensures IsInt(r) && r.sign == ResultSign(a, b)
  {
    var sign := ResultSign(a, b);
    Int(sign, Wrap(sign, Apply(op, Wrap(sign, a.n), Wrap(sign, b.n))))
  }

  // ---------- Congruence modulo 2^64 ----------

  ghost predicate Congruent(a: int, b: int) {
    exists k :: a == b + k * TWO64
  }

  lemma WrapCongruent(sign: Sign, n: int)
    ensures Congruent(Wrap(sign, n), n)
  {
    var k := if sign == Signed then -((n + TWO63) / TWO64) else -(n / TWO64);
    assert Wrap(sign, n) == n + k * TWO64;
  }

  lemma ApplyCongruent(op: Op, a: int, a': int, b: int, b': int)
    requires Congruent(a, a') && Congruent(b, b')
    ensures Congruent(Apply(op, a, b), Apply(op, a', b'))
  {
    var j :| a == a' + j * TWO64;
    var k :| b == b' + k * TWO64;
    match op
    case Add => assert a + b == a' + b' + (j + k) * TWO64;
    case Sub => assert a - b == a' - b' + (j - k) * TWO64;
    case Mul => MulCongruent(a, a', j, b, b', k);
  }

  lemma MulCongruent(a: int, a': int, j: int, b: int, b': int, k: int)
    requires a == a' + j * TWO64 && b == b' + k * TWO64
    ensures Congruent(a * b, a' * b')
  {
    var m := a' * k + j * b' + j * k * TWO64;
    calc {
      a * b;
      a * b' + a * (k * TWO64);
      a' * b' + j * TWO64 * b' + a' * (k * TWO64) + j * TWO64 * (k * TWO64);
      a' * b' + m * TWO64;
    }
  }

  lemma Transitive(a: int, b: int, c: int)
    requires Congruent(a, b) && Congruent(b, c)
    ensures Congruent(a, c)
  {
    var j :| a == b + j * TWO64;
    var k :| b == c + k * TWO64;
    assert a == c + (j + k) * TWO64;
  }

  /** Congruent numbers that fit the same 64-bit type are equal. */
  lemma CongruentFits(sign: Sign, a: int, b: int)
    requires Congruent(a, b) && Fits(sign, a) && Fits(sign, b)
    ensures a == b
  {
    var k :| a == b + k * TWO64;
    assert k == 0;
  }

  /** An expression over +, - and * with integer values at its leaves. */
  datatype Tree = Leaf(v: Value) | Node(op: Op, left: Tree, right: Tree)

  ghost predicate IntLeaves(t: Tree) {
    match t
    case Leaf(v) => IsInt(v)
    case Node(_, l, r) => IntLeaves(l) && IntLeaves(r)
  }

  /** What the engine computes, wrapping at every node. */
  function Computed(t: Tree): (r: Value)
    requires IntLeaves(t)
    ensures IsInt(r)
  {
    match t
    case Leaf(v) => v
    case Node(op, l, r) => Arith(op, Computed(l), Computed(r))
  }

  /** What the expression means over the unbounded integers. */
  function Exact(t: Tree): int
    requires IntLeaves(t)
  {
    match t
    case Leaf(v) => v.n
    case Node(op, l, r) => Apply(op, Exact(l), Exact(r))
  }

  predicate AnySigned(t: Tree)
    requires IntLeaves(t)
  {
    match t
    case Leaf(v) => v.sign == Signed
    case Node(_, l, r) => AnySigned(l) || AnySigned(r)
  }

  /**
   Wrapping and converting at every node, in whatever order the signs mix, still gives the exact
   result modulo 2^64, signed if any leaf is and unsigned otherwise.
   */
  lemma {:induction false} TreeCongruent(t: Tree)
    requires IntLeaves(t)
    ensures Computed(t).sign == if AnySigned(t) then Signed else Unsigned
    ensures Congruent(Computed(t).n, Exact(t))
  {
    match t
    case Leaf(v) => assert v.n == v.n + 0 * TWO64;
    case Node(op, l, r) =>
      TreeCongruent(l);
      TreeCongruent(r);
      var a, b := Computed(l), Computed(r);
      var sign := ResultSign(a, b);
      WrapCongruent(sign, a.n);
      WrapCongruent(sign, b.n);
      Transitive(Wrap(sign, a.n), a.n, Exact(l));
      Transitive(Wrap(sign, b.n), b.n, Exact(r));
      ApplyCongruent(op, Wrap(sign, a.n), Exact(l), Wrap(sign, b.n), Exact(r));
      var raw := Apply(op, Wrap(sign, a.n), Wrap(sign, b.n));
      WrapCongruent(sign, raw);
      Transitive(Wrap(sign, raw), raw, Exact(t));
  }

  /** So the value is the exact one precisely when the exact one fits, whatever overflowed inside. */
  lemma TreeExactIff(t: Tree)
    requires IntLeaves(t)
    ensures Computed(t).n == Exact(t) <==> Fits(if AnySigned(t) then Signed else Unsigned, Exact(t))
  {
    TreeCongruent(t);
    if Fits(Computed(t).sign, Exact(t)) {
      CongruentFits(Computed(t).sign, Computed(t).n, Exact(t));
    }
  }

  // ---------- Multiplication facts ----------

  lemma MulMono(a: int, b: int, u: nat)
    requires a <= b
    ensures a * u <= b * u
  {
  }

  lemma MulNext(q: int, u: int)
    ensures (q + 1) * u == q * u + u
  {
  }

  lemma MulSigns(q: int, d: int)
    ensures (-q) * d == -(q * d) && q * (-d) == -(q * d) && (-q) * (-d) == q * d
  {
  }

  /** Quotient and remainder of a natural number. */
  lemma Quotient(n: nat, u: nat) returns (q: nat, r: nat)
    requires u >= 1
    ensures q == n / u && r == n % u && n == q * u + r && r < u
  {
    q, r := n / u, n % u;
  }

  // ---------- Division ----------

  /** Go's integer division: the quotient is truncated toward zero. */
  function TruncDiv(a: int, b: int): int
    requires b != 0
  {
    var q := Abs(a) / Abs(b);
    if (a < 0) == (b < 0) then q else -q
  }

  function Abs(n: int): nat {
    if n < 0 then -n else n
  }

  /** core.Div on integer operands; None is the division-by-zero error. */
  function Div(a: Value, b: Value): (r: Option<Value>)
    requires IsInt(a) && IsInt(b)
    ensures r.Some? ==> IsInt(r.value)
  {
    if b.n == 0 then None
    else
      var sign := ResultSign(a, b);
      assert Wrap(sign, b.n) != 0;
      Some(Int(sign, Wrap(sign, TruncDiv(Wrap(sign, a.n), Wrap(sign, b.n)))))
  }

  lemma TruncDivLaw(a: int, b: int)
    requires b != 0
    ensures var q := TruncDiv(a, b);
            var r := a - q * b;
            Abs(r) < Abs(b) && (r == 0 || (r < 0 <==> a < 0))
    ensures Abs(TruncDiv(a, b)) <= Abs(a) && (a >= 0 && b > 0 ==> TruncDiv(a, b) >= 0)
    ensures Abs(b) >= 2 && a != 0 ==> Abs(TruncDiv(a, b)) < Abs(a)
  {
    var q, r := Quotient(Abs(a), Abs(b));
    MulSigns(q, Abs(b));
    assert TruncDiv(a, b) * b == if a < 0 then -(q * Abs(b)) else q * Abs(b);
    QuotientBound(Abs(a), Abs(b), q, r);
  }

  lemma QuotientBound(m: nat, d: nat, q: nat, r: nat)
    requires d > 0 && m == q * d + r
    ensures q <= m && (d >= 2 && m > 0 ==> q < m)
  {
    if d >= 2 {
      MulMono(2, d, q);
    }
  }

  /**
   A non-zero divisor stays non-zero under conversion, and the quotient obeys the law of truncated
   division on the converted operands, but for the most negative int64 divided by -1, which is itself.
   */
  lemma DivLaw(a: Value, b: Value)
    requires IsInt(a) && IsInt(b)
    ensures Div(a, b) == None <==> b.n == 0
    ensures b.n != 0 ==>
              var sign := ResultSign(a, b);
              var x, y, q := Wrap(sign, a.n), Wrap(sign, b.n), Div(a, b).value;
              && q.sign == sign && y != 0
              && (x == -TWO63 && y == -1 ==> q.n == x)
              && (!(x == -TWO63 && y == -1) ==>
                    Abs(x - q.n * y) < Abs(y) && (x - q.n * y == 0 || (x - q.n * y < 0 <==> x < 0)))
  {
    if b.n != 0 {
      var sign := ResultSign(a, b);
      var x, y := Wrap(sign, a.n), Wrap(sign, b.n);
      TruncDivLaw(x, y);
      QuotientFits(sign, x, y);
    }
  }

  lemma QuotientFits(sign: Sign, x: int, y: int)
    requires Fits(sign, x) && Fits(sign, y) && y != 0
    ensures Wrap(sign, TruncDiv(x, y)) == if x == -TWO63 && y == -1 then x else TruncDiv(x, y)
  {
    TruncDivLaw(x, y);
    hide TruncDiv;
    var q := TruncDiv(x, y);
    if y == -1 {
      assert q == -x;
    } else {
      assert y == 1 ==> q == x;
    }
  }

  // ---------- Conversion to float64 ----------

  /** The spacing of float64 values around n: 53 bits of significand. */
  function Spacing(n: nat): (u: nat)
    ensures u >= 1
    ensures n < TWO53 * u
    ensures u > 1 ==> TWO52 * u <= n
  {
    if n < TWO53 then 1 else 2 * Spacing(n / 2)
  }

  /** The multiple of u nearest to n, ties to the even multiple. */
  function NearestMultiple(n: nat, u: nat): nat
    requires u >= 1
  {
    var q, r := n / u, n % u;
    if 2 * r < u || (2 * r == u && q % 2 == 0) then q * u else (q + 1) * u
  }

  /** float64(n) for a 64-bit integer, rounding to nearest even (section 4.3.1 of IEEE 754-2008). */
  function F64(n: int): int {
    if n >= 0 then NearestMultiple(n, Spacing(n)) else -(NearestMultiple(-n, Spacing(-n)) as int)
  }

  ghost predicate PowerOfTwo(u: nat) {
    u == 1 || (u >= 2 && u % 2 == 0 && PowerOfTwo(u / 2))
  }

  /** An integer with a significand of at most 53 bits. */
  ghost predicate Representable(m: int) {
    exists k: int, u: nat :: PowerOfTwo(u) && Abs(k) <= TWO53 && m == k * u
  }

  lemma {:induction false} SpacingIsPower(n: nat)
    ensures PowerOfTwo(Spacing(n))
  {
    if n >= TWO53 {
      SpacingIsPower(n / 2);
      assert 2 * Spacing(n / 2) / 2 == Spacing(n / 2);
    }
  }

  lemma NearestBounds(n: nat, u: nat) returns (q: nat)
    requires u >= 1
    ensures q * u <= n < q * u + u
    ensures NearestMultiple(n, u) == q * u || NearestMultiple(n, u) == (q + 1) * u == q * u + u
    ensures Abs(NearestMultiple(n, u) - n) <= n - q * u
    ensures Abs(NearestMultiple(n, u) - n) <= q * u + u - n
  {
    var r;
    q, r := Quotient(n, u);
    MulNext(q, u);
  }

  /** Which multiple it is lies within the significand. */
  lemma QuotientRange(n: nat, q: nat)
    requires q * Spacing(n) <= n < q * Spacing(n) + Spacing(n)
    ensures q < TWO53 && (Spacing(n) > 1 ==> TWO52 <= q)
  {
    var u := Spacing(n);
    if q >= TWO53 {
      MulMono(TWO53, q, u);
    }
    if q < TWO52 {
      MulMono(q + 1, TWO52, u);
      MulNext(q, u);
    }
  }

  lemma IsRepresentable(k: int, u: nat, m: int)
    requires PowerOfTwo(u) && Abs(k) <= TWO53 && m == k * u
    ensures Representable(m)
  {
  }

  lemma NatRepresentable(n: nat)
    ensures Representable(NearestMultiple(n, Spacing(n)))
  {
    var u := Spacing(n);
    SpacingIsPower(n);
    var q := NearestBounds(n, u);
    QuotientRange(n, q);
    hide NearestMultiple, Spacing, Representable;
    if NearestMultiple(n, u) == q * u {
      IsRepresentable(q, u, NearestMultiple(n, u));
    } else {
      IsRepresentable(q + 1, u, NearestMultiple(n, u));
    }
  }

  lemma NegRepresentable(m: int)
    requires Representable(m)
    ensures Representable(-m)
  {
    var k: int, v: nat :| PowerOfTwo(v) && Abs(k) <= TWO53 && m == k * v;
    MulSigns(k, v);
    IsRepresentable(-k, v, -m);
  }

  lemma F64Representable(n: int)
    ensures Representable(F64(n))
  {
    NatRepresentable(Abs(n));
    hide Representable, NearestMultiple, Spacing;
    if n < 0 {
      NegRepresentable(NearestMultiple(-n, Spacing(-n)));
    }
  }

  /** A smaller power of two divides a larger one. */
  lemma {:induction false} PowerDivides(u: nat, v: nat) returns (d: nat)
    requires PowerOfTwo(u) && PowerOfTwo(v) && u <= v
    ensures v == d * u && d >= 1 && (u < v ==> v >= 2 * u)
    decreases v
  {
    if u == v {
      d := 1;
    } else {
      if u <= v / 2 {
        var h := PowerDivides(u, v / 2);
        d := 2 * h;
        assert v == 2 * (v / 2);
      } else {
        SmallerPower(u, v);
        assert false;
      }
    }
  }

  lemma {:induction false} SmallerPower(u: nat, v: nat)
    requires PowerOfTwo(u) && PowerOfTwo(v) && u < v
    ensures u <= v / 2
    decreases u
  {
    if u >= 2 {
      SmallerPower(u / 2, v / 2);
    }
  }

  /** No multiple of u lies strictly between two neighbouring multiples. */
  lemma BetweenMultiples(k: int, u: nat, q: nat)
    requires u >= 1
    ensures k * u <= q * u || k * u >= q * u + u
  {
    MulNext(q, u);
    if k <= q {
      MulMono(k, q, u);
    } else {
      MulMono(q + 1, k, u);
    }
  }

  lemma MulAssoc(k: int, d: int, u: int)
    ensures k * (d * u) == (k * d) * u
  {
  }

  lemma NearestOfNat(n: nat, m: int)
    requires Representable(m)
    ensures Abs(F64(n) - n) <= Abs(m - n)
  {
    var k: int, v: nat :| PowerOfTwo(v) && Abs(k) <= TWO53 && m == k * v;
    var u := Spacing(n);
    SpacingIsPower(n);
    var q := NearestBounds(n, u);
    if u <= v {
      var d := PowerDivides(u, v);
      MulAssoc(k, d, u);
      BetweenMultiples(k * d, u, q);
    } else {
      var d := PowerDivides(v, u);
      QuotientRange(n, q);
      MulMono(k, TWO53, v);
      MulMono(TWO52, q, u);
      assert m <= q * u;
    }
  }

  /** float64(n) is representable, and no representable integer is nearer to n. */
  lemma F64IsNearest(n: int, m: int)
    requires Representable(m)
    ensures Representable(F64(n)) && Abs(F64(n) - n) <= Abs(m - n)
  {
    F64Representable(n);
    if n >= 0 {
      NearestOfNat(n, m);
    } else {
      NegRepresentable(m);
      NearestOfNat(-n, -m);
    }
  }

  // ---------- Comparison through float64 ----------

  lemma NearestMonotone(x: nat, y: nat, u: nat)
    requires u >= 1 && x <= y
    ensures NearestMultiple(x, u) <= NearestMultiple(y, u)
  {
    var q, r := Quotient(x, u);
    var p, t := Quotient(y, u);
    MulNext(q, u);
    MulNext(p, u);
    if q < p {
      MulMono(q + 1, p, u);
    } else if p < q {
      MulMono(p + 1, q, u);
      assert false;
    }
  }

  lemma {:induction false} SpacingMonotone(x: nat, y: nat)
    requires x <= y
    ensures Spacing(x) <= Spacing(y) && (Spacing(x) < Spacing(y) ==> 2 * Spacing(x) <= Spacing(y))
    decreases y
  {
    if x >= TWO53 {
      SpacingMonotone(x / 2, y / 2);
    }
  }

  /** Within its spacing, a rounded number stays within 2^52 and 2^53 units. */
  lemma NearestRange(n: nat)
    ensures NearestMultiple(n, Spacing(n)) <= TWO53 * Spacing(n)
    ensures Spacing(n) > 1 ==> TWO52 * Spacing(n) <= NearestMultiple(n, Spacing(n))
  {
    var u := Spacing(n);
    var q := NearestBounds(n, u);
    QuotientRange(n, q);
    MulMono(q + 1, TWO53, u);
    if u > 1 {
      MulMono(TWO52, q, u);
    }
  }

  lemma MonotoneNat(x: nat, y: nat)
    requires x <= y
    ensures F64(x) <= F64(y)
  {
    SpacingMonotone(x, y);
    if Spacing(x) == Spacing(y) {
      NearestMonotone(x, y, Spacing(x));
    } else {
      NearestRange(x);
      NearestRange(y);
    }
  }

  /** Rounding keeps order. */
  lemma F64Monotone(x: int, y: int)
    requires x <= y
    ensures F64(x) <= F64(y)
  {
    if x >= 0 {
      MonotoneNat(x, y);
    } else if y < 0 {
      MonotoneNat(-y, -x);
    }
  }

  lemma F64Small(n: int)
    requires Abs(n) <= TWO53
    ensures F64(n) == n
  {
    var m := Abs(n);
    if m == TWO53 {
      assert Spacing(m) == 2 * Spacing(m / 2) == 2;
    }
    assert NearestMultiple(m, Spacing(m)) == m;
  }

  /** A comparison that comes out strict is right; only equality can be wrong. */
  lemma CompareSound(x: int, y: int)
    ensures F64(x) < F64(y) ==> x < y
    ensures x == y ==> F64(x) == F64(y)
  {
    if x >= y {
      F64Monotone(y, x);
    }
  }

  lemma SmallerThanLarge(x: int, y: int)
    requires Abs(x) < TWO53 && x < y
    ensures F64(x) < F64(y)
  {
    F64Small(x);
    if y <= TWO53 {
      F64Small(y);
    } else {
      F64Monotone(TWO53, y);
      F64Small(TWO53);
    }
  }

  lemma LargerThanSmall(x: int, y: int)
    requires Abs(x) < TWO53 && y < x
    ensures F64(y) < F64(x)
  {
    F64Small(x);
    if y >= -TWO53 {
      F64Small(y);
    } else {
      F64Monotone(y, -TWO53);
      F64Small(-TWO53);
    }
  }

  /**
   The comparison is exact when one operand lies strictly within 2^53, or both lie within it.
   */
  lemma CompareExact(x: int, y: int)
    requires Abs(x) < TWO53 || Abs(y) < TWO53 || (Abs(x) <= TWO53 && Abs(y) <= TWO53)
    ensures (F64(x) < F64(y) <==> x < y) && (F64(x) == F64(y) <==> x == y) && (F64(x) > F64(y) <==> x > y)
  {
    CompareSound(x, y);
    CompareSound(y, x);
    if Abs(x) < TWO53 {
      if x < y { SmallerThanLarge(x, y); } else if y < x { LargerThanSmall(x, y); }
    } else if Abs(y) < TWO53 {
      if y < x { SmallerThanLarge(y, x); } else if x < y { LargerThanSmall(y, x); }
    } else {
      F64Small(x);
      F64Small(y);
    }
  }

  /** A concrete pair: 2^53 and 2^53 + 1 compare equal. */
  lemma CompareInexact()
    ensures F64(TWO53) == F64(TWO53 + 1)
  {
    F64Small(TWO53);
    assert Spacing(TWO53 + 1) == 2 * Spacing(TWO52) == 2;
    assert (TWO53 + 1) / 2 == TWO52 && (TWO53 + 1) % 2 == 1;
  }

  // ---------- Exactly which integers compare exactly ----------

  /** The values of the 64-bit kinds, signed or not. */
  predicate Bits64(n: int) {
    -TWO63 <= n < TWO64
  }

  /** Below 2^53, or between 2^53 and 2^54 and twice an odd number. */
  predicate Isolated(n: int) {
    Abs(n) < TWO53 || (TWO53 < Abs(n) < 2 * TWO53 && Abs(n) % 4 == 2)
  }

  lemma F64Odd(n: int)
    ensures F64(-n) == -F64(n)
  {
  }

  /** The spacing around n is the power of two that puts n between 2^52 and 2^53 units. */
  lemma SpacingIs(n: nat, m: nat, u: nat)
    requires u == Spacing(m) && u > 1 && TWO52 * u <= n < TWO53 * u
    ensures Spacing(n) == u
  {
    if n <= m {
      SpacingMonotone(n, m);
    } else {
      SpacingMonotone(m, n);
    }
  }

  /** Rounding of q units and a rest, where the spacing is known. */
  lemma RoundedAt(n: nat, m: nat, u: nat, q: nat, r: nat)
    requires u == Spacing(m) && u > 1 && n == q * u + r && r < u && TWO52 <= q < TWO53
    ensures F64(n) == if 2 * r < u || (2 * r == u && q % 2 == 0) then q * u else (q + 1) * u
  {
    MulMono(TWO52, q, u);
    MulMono(q + 1, TWO53, u);
    MulNext(q, u);
    SpacingIs(n, m, u);
    QuotientIs(n, u, q, r);
  }

  lemma QuotientIs(n: nat, u: nat, q: nat, r: nat)
    requires u >= 1 && n == q * u + r && r < u
    ensures n / u == q && n % u == r
  {
    var p, t := Quotient(n, u);
    MulNext(q, u);
    MulNext(p, u);
    if p < q {
      MulMono(p + 1, q, u);
      assert false;
    }
    if q < p {
      MulMono(q + 1, p, u);
      assert false;
    }
  }

  /** Between 2^53 and 2^54 the spacing is 2. */
  lemma SpacingTwo(n: nat)
    requires TWO53 <= n < 2 * TWO53
    ensures Spacing(n) == 2
  {
    assert Spacing(n) == 2 * Spacing(n / 2);
  }

  lemma RoundedByTwo(n: nat)
    requires TWO53 <= n < 2 * TWO53
    ensures F64(n) == if n % 2 == 0 then n else if n % 4 == 1 then n - 1 else n + 1
  {
    SpacingTwo(n);
  }

  /** An isolated integer shares its float64 value with no other integer. */
  lemma IsolatedAlone(x: int, y: int)
    requires Isolated(y) && F64(x) == F64(y)
    ensures x == y
  {
    hide F64;
    if Abs(y) < TWO53 {
      CompareExact(x, y);
    } else {
      var n, m := if y < 0 then -y else y, if y < 0 then -x else x;
      F64Odd(x);
      F64Odd(y);
      RoundedByTwo(n - 1);
      RoundedByTwo(n);
      RoundedByTwo(n + 1);
      if m > n {
        F64Monotone(n + 1, m);
      } else if m < n {
        F64Monotone(m, n - 1);
      }
    }
  }

  /** From 2^54 on, a neighbour rounds to the same value. */
  lemma CrowdedNat(n: nat) returns (x: nat)
    requires 2 * TWO53 <= n < TWO64
    ensures x == n + 1 || x == n - 1
    ensures F64(x) == F64(n) && x < TWO64
  {
    var u := Spacing(n);
    SpacingFour(n);
    var q, r := Quotient(n, u);
    MulNext(q, u);
    QuotientRange(n, q);
    hide F64, Spacing, Representable;
    RoundedAt(n, n, u, q, r);
    var down := 2 * r < u || (2 * r == u && q % 2 == 0);
    if r == 0 || (!down && r + 1 < u) {
      x := n + 1;
      RoundedAt(x, n, u, q, r + 1);
      Room(n, q, r);
    } else if down || u > 4 {
      x := n - 1;
      RoundedAt(x, n, u, q, r - 1);
    } else {
      x := n + 1;
      SpacingIsPower(n);
      IsRepresentable(q + 1, u, x);
      F64IsNearest(x, x);
    }
  }

  lemma SpacingFour(n: nat)
    requires 2 * TWO53 <= n
    ensures Spacing(n) >= 4
  {
    SpacingMonotone(2 * TWO53, n);
    assert Spacing(2 * TWO53) == 2 * Spacing(TWO53) == 4 * Spacing(TWO52) == 4;
  }

  lemma Powers()
    ensures PowerOfTwo(1024) && PowerOfTwo(2048)
  {
    assert PowerOfTwo(4);
    assert PowerOfTwo(16);
    assert PowerOfTwo(64);
    assert PowerOfTwo(256);
    assert PowerOfTwo(1024);
  }

  /** A power of two from p up to, but not including, 2p is p. */
  lemma OnlyPower(u: nat, p: nat)
    requires PowerOfTwo(u) && PowerOfTwo(p) && p <= u < 2 * p
    ensures u == p
  {
    var d := PowerDivides(p, u);
  }

  /** 2^64 is a multiple of the spacing below it, so a number with room in its unit is not the last one. */
  lemma Room(n: nat, q: nat, r: nat)
    requires var u := Spacing(n); n == q * u + r && r + 1 < u && n < TWO64
    ensures n + 1 < TWO64
  {
    if n == TWO64 - 1 {
      Powers();
      SpacingIsPower(n);
      OnlyPower(Spacing(n), 2048);
      hide Spacing;
      BetweenMultiples(TWO53, 2048, q);
      assert false;
    }
  }

  /** The least int64 shares its float64 value with its successor. */
  lemma CrowdedLeast()
    ensures F64(-TWO63) == F64(-TWO63 + 1)
  {
    var n := TWO63 - 1;
    Powers();
    SpacingIsPower(n);
    OnlyPower(Spacing(n), 1024);
    hide F64, Spacing, Representable;
    RoundedAt(n, n, 1024, TWO53 - 1, 1023);
    IsRepresentable(TWO53, 1024, TWO63);
    F64IsNearest(TWO63, TWO63);
    F64Odd(n);
    F64Odd(TWO63);
  }

  /** An integer that is not isolated shares its float64 value with a neighbour of a 64-bit kind. */
  lemma Crowded(y: int) returns (x: int)
    requires Bits64(y) && !Isolated(y)
    ensures Bits64(x) && x != y && F64(x) == F64(y)
  {
    hide F64;
    var n := Abs(y);
    if y == -TWO63 {
      CrowdedLeast();
      return y + 1;
    }
    var m: int;
    if n < 2 * TWO53 {
      m := if n % 4 == 0 then n + 1 else if n % 4 == 1 then n - 1 else n + 1;
      RoundedByTwo(n);
      if m < 2 * TWO53 {
        RoundedByTwo(m);
      } else {
        IsRepresentable(TWO53, 2, m);
        F64IsNearest(m, m);
      }
    } else {
      m := CrowdedNat(n);
    }
    F64Odd(n);
    F64Odd(m);
    x := if y < 0 then -m else m;
  }

  /**
   An integer compares equal through float64 with no other 64-bit integer exactly if its magnitude is
   below 2^53, or between 2^53 and 2^54 and twice an odd number.
   */
  lemma CompareExactIff(y: int)
    requires Bits64(y)
    ensures (forall x | Bits64(x) :: F64(x) == F64(y) <==> x == y) <==> Isolated(y)
  {
    hide F64;
    if Isolated(y) {
      forall x | Bits64(x) ensures F64(x) == F64(y) <==> x == y {
        if F64(x) == F64(y) {
          IsolatedAlone(x, y);
        }
      }
    } else {
      var x := Crowded(y);
    }
  }
}
