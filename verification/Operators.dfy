/**
 What the operators yield, on the values their operands are found to hold: arithmetic and concatenation,
 compound assignment, comparison, the logical operators and negation.
 */
module Operators {
  import opened Values
  import opened Ast
  import opened Text
  import opened ParseTree
  import opened FrontEnd
  import opened Numeric
  import opened Runtime
  import opened Evaluator
  import opened Meaning
  import opened Preservation

  // ---------- Arithmetic ----------

  /** Both operands have values, the left evaluated first; in w2, after both, they hold a and b. */
  ghost predicate Operands(env: Env, h: Header, l: PMath, r: PMath, w: World, w2: World, a: Value, b: Value) {
    var x := MeanMath(env, h, l, w);
    && x.r.Got?
    && var y := MeanMath(env, h, r, x.w);
       y.r.Got? && w2 == y.w && a == Content(x.r.v, w2.heap) && b == Content(y.r.v, w2.heap)
  }

  /** An integer as one of the given sign: the number of that range it is congruent to modulo 2^64. */
  ghost predicate Converted(sign: Sign, n: int, n': int) {
    Fits(sign, n') && Congruent(n', n)
  }

  lemma ConvertedIsWrap(sign: Sign, n: int, n': int)
    requires Converted(sign, n, n')
    ensures n' == Wrap(sign, n)
  {
    WrapCongruent(sign, n);
    var j :| n' == n + j * TWO64;
    var k :| Wrap(sign, n) == n + k * TWO64;
    assert n' == Wrap(sign, n) + (j - k) * TWO64;
    CongruentFits(sign, n', Wrap(sign, n));
  }

  predicate CommonSigned(a: Value, b: Value)
    requires a.Int? && b.Int?
  {
    a.sign == Signed || b.sign == Signed
  }

  /** The truncated quotient of the converted dividend by the converted divisor; the least int64 by -1 is itself. */
  ghost predicate IsQuotient(q: Value, a: Value, b: Value)
    requires a.Int? && b.Int?
  {
    && IsInt(q) && (q.sign == Signed <==> CommonSigned(a, b))
    && forall x, y | Converted(q.sign, a.n, x) && Converted(q.sign, b.n, y) ::
         if x == -TWO63 && y == -1 then q.n == x
         else Abs(x - q.n * y) < Abs(y) && (x - q.n * y == 0 || (x - q.n * y < 0 <==> x < 0))
  }

  lemma QuotientLaw(env: Env, a: Value, b: Value)
    requires IsInt(a) && IsInt(b)
    ensures var r := Arithmetic(env, "/", a, b);
            if b.n == 0 then r == Lost(Failed) else r.Got? && IsQuotient(r.v, a, b)
  {
    DivLaw(a, b);
    hide Div, TruncDiv, Wrap, Abs;
    if b.n != 0 {
      var q := Div(a, b).value;
      forall x, y | Converted(q.sign, a.n, x) && Converted(q.sign, b.n, y)
        ensures if x == -TWO63 && y == -1 then q.n == x
                else Abs(x - q.n * y) < Abs(y) && (x - q.n * y == 0 || (x - q.n * y < 0 <==> x < 0))
      {
        ConvertedIsWrap(q.sign, a.n, x);
        ConvertedIsWrap(q.sign, b.n, y);
      }
    }
  }

  /** The record of an operation evaluates the left operand, then the right, then applies the operator. */
  lemma BinaryRecord(env: Env, h: Header, l: PMath, op: MathOperator, r: PMath, w: World, w2: World, a: Value, b: Value)
    requires AcceptedMath(MathBinary(l, op, r)) && Operands(env, h, l, r, w, w2, a, b)
    ensures EvalMath(env, BuildMath(MathBinary(l, op, r), h), w) == Eval(w2, Arithmetic(env, MathText(op), a, b))
  {
    hide EvalMath, Arithmetic, BuildMath, AcceptedMath;
    MathAgrees(env, h, MathBinary(l, op, r), w);
  }

  /**
   Division of integers fails exactly for a zero divisor, and otherwise yields the truncated quotient of
   the left operand by the right.
   */
  lemma DivisionYields(env: Env, h: Header, l: PMath, r: PMath, w: World, w2: World, a: Value, b: Value)
    requires AcceptedMath(MathBinary(l, Over, r)) && Operands(env, h, l, r, w, w2, a, b) && IsInt(a) && IsInt(b)
    ensures var e := EvalMath(env, BuildMath(MathBinary(l, Over, r), h), w);
            e.w == w2 && if b.n == 0 then e.r == Lost(Failed) else e.r.Got? && IsQuotient(e.r.v, a, b)
  {
    hide EvalMath, Arithmetic, BuildMath, IsQuotient, AcceptedMath, Operands;
    BinaryRecord(env, h, l, Over, r, w, w2, a, b);
    QuotientLaw(env, a, b);
  }

  /** The exact result of an integer operation other than division. */
  function ExactResult(op: MathOperator, a: int, b: int): int {
    if op == Plus then a + b else if op == Minus then a - b else a * b
  }

  /** An integer of the common sign, congruent to the exact result. */
  ghost predicate IsWrapped(v: Value, op: MathOperator, a: Value, b: Value)
    requires a.Int? && b.Int?
  {
    IsInt(v) && (v.sign == Signed <==> CommonSigned(a, b)) && Congruent(v.n, ExactResult(op, a.n, b.n))
  }

  lemma WrappedLaw(env: Env, op: MathOperator, a: Value, b: Value)
    requires IsInt(a) && IsInt(b) && op != Over
    ensures Arithmetic(env, MathText(op), a, b).Got? && IsWrapped(Arithmetic(env, MathText(op), a, b).v, op, a, b)
  {
    var o := if op == Plus then Add else if op == Minus then Sub else Mul;
    var t := Node(o, Leaf(a), Leaf(b));
    TreeCongruent(t);
    hide Congruent;
    assert Computed(Leaf(a)) == a && Computed(Leaf(b)) == b && Exact(Leaf(a)) == a.n && Exact(Leaf(b)) == b.n;
    assert Exact(t) == ExactResult(op, a.n, b.n);
  }

  /** What any arithmetic operation yields, on integers, strings and values it leaves to the host, and when it fails. */
  lemma ArithmeticYields(env: Env, h: Header, l: PMath, op: MathOperator, r: PMath, w: World, w2: World, a: Value, b: Value)
    requires AcceptedMath(MathBinary(l, op, r)) && Operands(env, h, l, r, w, w2, a, b)
    requires (a.Int? ==> IsInt(a)) && (b.Int? ==> IsInt(b))
    ensures var e := EvalMath(env, BuildMath(MathBinary(l, op, r), h), w);
            && e.w == w2
            && (if a.Int? && b.Int? then
                  if op == Over then (if b.n == 0 then e.r == Lost(Failed) else e.r.Got? && IsQuotient(e.r.v, a, b))
                  else e.r.Got? && IsWrapped(e.r.v, op, a, b)
                else if a.Str? && b.Str? && op == Plus then e.r == Got(Str(a.s + b.s))
                else if Foreign(a) || Foreign(b) then e.r == env.math(MathText(op), a, b)
                else e.r == Lost(Failed))
  {
    hide EvalMath, BuildMath, IsQuotient, IsWrapped, AcceptedMath, Operands;
    BinaryRecord(env, h, l, op, r, w, w2, a, b);
    if a.Int? && b.Int? {
      if op == Over { QuotientLaw(env, a, b); } else { WrappedLaw(env, op, a, b); }
    }
  }

  // ---------- Compound assignment ----------

  /** The operator of a compound assignment. */
  function OperatorOf(op: AssignOperator): MathOperator
    requires op != Assign && op != Set
  {
    match op
    case PlusEqual => Plus
    case MinusEqual => Minus
    case TimesEqual => Times
    case OverEqual => Over
  }

  /**
   A compound assignment to a local variable evaluates its source, and then leaves in the variable the
   variable's old content combined with the source's, the old content on the left; it fails as the
   operation does, and then leaves the variable as it was.
   */
  lemma CompoundLeaves(env: Env, h: Header, x: Name, op: AssignOperator, s: PSource, w: World, old_: Value, v: Value)
    requires op != Assign && op != Set && '.' !in x && x !in env.base
    requires AcceptedAssignment(PAssignment(TargetVariable(x), op, s))
    requires var e := MeanSource(env, h, s, w);
             e.r.Got? && v == Content(e.r.v, e.w.heap) && x in e.w.vars && old_ == Content(e.w.vars[x], e.w.heap)
    requires (old_.Int? ==> IsInt(old_)) && (v.Int? ==> IsInt(v)) && !Foreign(old_) && !Foreign(v)
    ensures var w1, e := MeanSource(env, h, s, w).w, EvalAssignment(env, BuildAssignment(PAssignment(TargetVariable(x), op, s), h), w);
            var o := OperatorOf(op);
            if old_.Int? && v.Int? && !(o == Over && v.n == 0) then
              && e.r == Got(Nil) && x in e.w.vars && e.w == w1.(vars := w1.vars[x := e.w.vars[x]])
              && (if o == Over then IsQuotient(e.w.vars[x], old_, v) else IsWrapped(e.w.vars[x], o, old_, v))
            else if old_.Str? && v.Str? && o == Plus then
              e == Eval(w1.(vars := w1.vars[x := Str(old_.s + v.s)]), Got(Nil))
            else e == Eval(w1, Lost(Failed))
  {
    hide MeanSource, BuildAssignment, EvalAssignment, IsQuotient, IsWrapped, AcceptedAssignment;
    AssignmentAgrees(env, h, PAssignment(TargetVariable(x), op, s), w);
    if old_.Int? && v.Int? {
      if op == OverEqual { QuotientLaw(env, old_, v); } else { WrappedLaw(env, OperatorOf(op), old_, v); }
    }
  }

  // ---------- Comparison ----------

  /** Both operands of an expression have values, the left evaluated first; in w2 they hold a and b. */
  ghost predicate Both(env: Env, h: Header, l: PExpression, r: PExpression, w: World, w2: World, a: Value, b: Value) {
    var x := MeanExpression(env, h, l, w);
    && x.r.Got?
    && var y := MeanExpression(env, h, r, x.w);
       y.r.Got? && w2 == y.w && a == Content(x.r.v, w2.heap) && b == Content(y.r.v, w2.heap)
  }

  /** Go's order of strings: up to the first difference they agree, and there the lesser has the lesser character or ends. */
  ghost predicate Before(a: string, b: string) {
    exists k: nat :: FirstDifference(a, b, k) && k < |b| && (k == |a| || a[k] < b[k])
  }

  ghost predicate FirstDifference(a: string, b: string, k: nat) {
    k <= |a| && k <= |b| && a[..k] == b[..k] && (k < |a| && k < |b| ==> a[k] != b[k])
  }

  lemma SameFirst(a: string, b: string, k: nat)
    requires FirstDifference(a, b, k)
    ensures k > 0 ==> a != [] && b != [] && a[0] == b[0]
  {
    if k > 0 {
      assert a[..k][0] == a[0] && b[..k][0] == b[0];
    }
  }

  lemma {:induction false} LessIsBefore(a: string, b: string)
    ensures StringLess(a, b) <==> Before(a, b)
  {
    if a == [] || b == [] || a[0] != b[0] {
      assert a[..0] == b[..0] == [];
      assert b != [] && (a == [] || a[0] < b[0]) ==> FirstDifference(a, b, 0);
      forall k: nat | FirstDifference(a, b, k) ensures k > 0 ==> a != [] && b != [] && a[0] == b[0] {
        SameFirst(a, b, k);
      }
    } else {
      LessIsBefore(a[1..], b[1..]);
      forall k: nat | FirstDifference(a[1..], b[1..], k) ensures FirstDifference(a, b, k + 1) {
        assert a[..k + 1] == [a[0]] + a[1..][..k] && b[..k + 1] == [b[0]] + b[1..][..k];
      }
      forall k: nat | FirstDifference(a, b, k) && k > 0 ensures FirstDifference(a[1..], b[1..], k - 1) {
        assert a[1..][..k - 1] == a[..k][1..] && b[1..][..k - 1] == b[..k][1..];
      }
      if Before(a[1..], b[1..]) {
        var k: nat :| FirstDifference(a[1..], b[1..], k) && k < |b[1..]| && (k == |a[1..]| || a[1..][k] < b[1..][k]);
        assert FirstDifference(a, b, k + 1);
      }
      if Before(a, b) {
        var k: nat :| FirstDifference(a, b, k) && k < |b| && (k == |a| || a[k] < b[k]);
        assert k > 0;
        assert FirstDifference(a[1..], b[1..], k - 1);
      }
    }
  }

  /** What an operator says of two things of which this is whether the first is less and whether they are equal. */
  predicate Says(op: Comparison, less: bool, equal: bool) {
    match op
    case Lt => less
    case Gt => !less && !equal
    case Lte => less || equal
    case Gte => !less
    case Equals => equal
    case NotEquals => !equal
  }

  /**
   Comparison of strings is that of Go's string order, of integers that of their float64 values; booleans
   have equality only; a value left to the host is compared by it; anything else is an error.
   */
  lemma ComparisonYields(env: Env, h: Header, l: PExpression, op: Comparison, r: PExpression, w: World, w2: World, a: Value, b: Value)
    requires AcceptedExpression(ExprCompare(l, op, r)) && Both(env, h, l, r, w, w2, a, b)
    ensures var e := EvalExpression(env, BuildExpression(ExprCompare(l, op, r), h), w);
            && e.w == w2
            && (if a.Str? && b.Str? then e.r == Got(Bool(Says(op, Before(a.s, b.s), a.s == b.s)))
                else if a.Int? && b.Int? then e.r == Got(Bool(Says(op, F64(a.n) < F64(b.n), F64(a.n) == F64(b.n))))
                else if Foreign(a) || Foreign(b) then
                  e.r == if env.compare(ComparisonText(op), a, b) == Got(Nil) then Lost(Failed) else env.compare(ComparisonText(op), a, b)
                else if a.Bool? && b.Bool? && op == Equals then e.r == Got(Bool(a.b <==> b.b))
                else if a.Bool? && b.Bool? && op == NotEquals then e.r == Got(Bool(!(a.b <==> b.b)))
                else e.r == Lost(Failed))
  {
    hide EvalExpression, BuildExpression, F64, StringLess, Before, AcceptedExpression;
    ExpressionAgrees(env, h, ExprCompare(l, op, r), w);
    if a.Str? && b.Str? {
      LessIsBefore(a.s, b.s);
    }
  }

  // ---------- Logical operators and negation ----------

  /** The logical operators are those of two booleans, both evaluated; anything else is an error. */
  lemma LogicYields(env: Env, h: Header, l: PExpression, op: Logic, r: PExpression, w: World, w2: World, a: Value, b: Value)
    requires AcceptedExpression(ExprLogic(l, op, r)) && Both(env, h, l, r, w, w2, a, b)
    ensures EvalExpression(env, BuildExpression(ExprLogic(l, op, r), h), w) ==
            Eval(w2, if !(a.Bool? && b.Bool?) then Lost(Failed)
                     else if op == And then Got(Bool(a.b && b.b)) else Got(Bool(a.b || b.b)))
  {
    hide EvalExpression, BuildExpression, AcceptedExpression;
    ExpressionAgrees(env, h, ExprLogic(l, op, r), w);
  }

  /** Negation turns true into false and false into true, and panics on anything else. */
  lemma NegationYields(env: Env, h: Header, e: PExpression, w: World)
    requires AcceptedExpression(ExprBracket(true, e)) && MeanExpression(env, h, e, w).r.Got?
    ensures var c := MeanExpression(env, h, e, w);
            var v := Content(c.r.v, c.w.heap);
            EvalExpression(env, BuildExpression(ExprBracket(true, e), h), w) ==
            Eval(c.w, if v == Bool(true) then Got(Bool(false)) else if v == Bool(false) then Got(Bool(true)) else Lost(Panicked))
  {
    hide EvalExpression, BuildExpression, AcceptedExpression;
    ExpressionAgrees(env, h, ExprBracket(true, e), w);
  }

  /** So does that of an atom, which is an error if the atom has no value. */
  lemma AtomNegationYields(env: Env, h: Header, a: PAtom, w: World)
    requires AcceptedExpression(ExprAtom(true, a)) && MeanAtom(env, h, a, w).r.Got?
    ensures var c := MeanAtom(env, h, a, w);
            var v := Content(c.r.v, c.w.heap);
            EvalExpression(env, BuildExpression(ExprAtom(true, a), h), w) ==
            Eval(c.w, if c.r.v == Nil then Lost(Failed) else if v == Bool(true) then Got(Bool(false))
                      else if v == Bool(false) then Got(Bool(true)) else Lost(Panicked))
  {
    hide EvalExpression, BuildExpression, MeanAtom, AcceptedExpression;
    ExpressionAgrees(env, h, ExprAtom(true, a), w);
  }

  /** An operand that fails makes the whole operation fail, and a right operand is not evaluated after a left one that did. */
  lemma OperandFails(env: Env, h: Header, l: PExpression, op: Logic, r: PExpression, w: World)
    requires AcceptedExpression(ExprLogic(l, op, r))
    ensures var e, x := EvalExpression(env, BuildExpression(ExprLogic(l, op, r), h), w), MeanExpression(env, h, l, w);
            if x.r.Lost? then e == x
            else MeanExpression(env, h, r, x.w).r.Lost? ==> e == MeanExpression(env, h, r, x.w)
  {
    hide EvalExpression, BuildExpression, AcceptedExpression;
    ExpressionAgrees(env, h, ExprLogic(l, op, r), w);
  }

  // ---------- Plain assignment ----------

  /** A plain assignment to a local variable leaves in it what the source yielded, uncopied, and succeeds exactly if that did. */
  lemma PlainLeaves(env: Env, h: Header, x: Name, op: AssignOperator, s: PSource, w: World)
    requires (op == Assign || op == Set) && '.' !in x && x !in env.base
    requires AcceptedAssignment(PAssignment(TargetVariable(x), op, s))
    ensures var source := MeanSource(env, h, s, w);
            EvalAssignment(env, BuildAssignment(PAssignment(TargetVariable(x), op, s), h), w) ==
            if source.r.Lost? then Eval(source.w, Lost(Failed))
            else Eval(source.w.(vars := source.w.vars[x := source.r.v]), Got(Nil))
  {
    hide MeanSource, BuildAssignment, EvalAssignment, AcceptedAssignment;
    AssignmentAgrees(env, h, PAssignment(TargetVariable(x), op, s), w);
  }
}
