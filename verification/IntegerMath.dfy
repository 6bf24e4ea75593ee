/**
 Integer expressions of the language. Arithmetic wraps at 64 bits with mixed signs, and comparison
 goes through float64; here the laws of `Numeric` are carried over to whole expressions.
 */
module IntegerMath {
  import opened Values
  import opened ParseTree
  import opened Listener
  import opened FrontEnd
  import opened Numeric
  import opened Runtime
  import opened Evaluator
  import opened Meaning
  import opened Preservation

  // ---------- Arithmetic ----------

  /** What an atom that makes no host call reads, if it has a value. */
  function AtomValue(env: Env, h: Header, a: PAtom, w: World): Result {
    if a.AtomCall? then Lost(Failed)
    else
      match MeanAtom(env, h, a, w).r
      case Got(v) => Got(Content(v, w.heap))
      case Lost(f) => Lost(f)
  }

  /** An expression over +, - and *, whose atoms are integers in w. */
  predicate Integral(env: Env, h: Header, m: PMath, w: World)
    decreases m
  {
    match m
    case MathAtom(a) => AtomValue(env, h, a, w).Got? && IsInt(AtomValue(env, h, a, w).v)
    case MathBracket(n) => Integral(env, h, n, w)
    case MathBinary(l, op, r) => op != Over && Integral(env, h, l, w) && Integral(env, h, r, w)
  }

  /** The operator tree of an integral expression over the values of its atoms. */
  function TreeOf(env: Env, h: Header, m: PMath, w: World): (t: Tree)
    requires Integral(env, h, m, w)
    ensures IntLeaves(t)
    decreases m
  {
    match m
    case MathAtom(a) => Leaf(AtomValue(env, h, a, w).v)
    case MathBracket(n) => TreeOf(env, h, n, w)
    case MathBinary(l, op, r) =>
      Node(if op == Plus then Add else if op == Minus then Sub else Mul, TreeOf(env, h, l, w), TreeOf(env, h, r, w))
  }

  lemma MathComputes(env: Env, h: Header, m: PMath, w: World)
    requires Integral(env, h, m, w)
    ensures var e := MeanMath(env, h, m, w);
            && e.w == w && e.r.Got? && Content(e.r.v, w.heap) == Computed(TreeOf(env, h, m, w))
    decreases m
  {
    hide Arith, GetValue, MeanElement, ConstantValue;
    match m
    case MathAtom(_) =>
    case MathBracket(n) => MathComputes(env, h, n, w);
    case MathBinary(l, _, r) =>
      MathComputes(env, h, l, w);
      MathComputes(env, h, r, w);
  }

  /**
   Evaluating the record of an integral expression gives an integer that is signed if any atom is,
   congruent modulo 2^64 to the exact result, and equal to it exactly when the exact result fits,
   however far the intermediate results overflow.
   */
  lemma MathExactIff(env: Env, h: Header, m: PMath, w: World)
    requires AcceptedMath(m) && Integral(env, h, m, w)
    ensures var t := TreeOf(env, h, m, w);
            var e := EvalMath(env, BuildMath(m, h), w);
            && e.w == w && e.r.Got?
            && var v := Content(e.r.v, w.heap);
               && IsInt(v)
               && v.sign == (if AnySigned(t) then Signed else Unsigned)
               && Congruent(v.n, Exact(t))
               && (v.n == Exact(t) <==> Fits(v.sign, Exact(t)))
  {
    hide EvalMath, MeanMath, Computed, Exact, Congruent, Fits;
    MathAgrees(env, h, m, w);
    MathComputes(env, h, m, w);
    TreeCongruent(TreeOf(env, h, m, w));
    TreeExactIff(TreeOf(env, h, m, w));
  }

  // ---------- Comparison ----------

  predicate Holds(op: Comparison, x: int, y: int) {
    match op
    case Gt => x > y
    case Lt => x < y
    case Gte => x >= y
    case Lte => x <= y
    case Equals => x == y
    case NotEquals => x != y
  }

  /** Comparing two integers gives the exact answer for every operator when a magnitude is below 2^53. */
  lemma CompareIsExact(env: Env, op: Comparison, a: Value, b: Value)
    requires a.Int? && b.Int?
    requires Abs(a.n) < TWO53 || Abs(b.n) < TWO53 || (Abs(a.n) <= TWO53 && Abs(b.n) <= TWO53)
    ensures Compare(env, ComparisonText(op), a, b) == Got(Bool(Holds(op, a.n, b.n)))
  {
    hide F64;
    CompareExact(a.n, b.n);
  }

  /** All six comparisons of b with an integer of any 64-bit kind give the exact answer. */
  ghost predicate ComparesExactly(env: Env, b: Value)
    requires b.Int?
  {
    forall op: Comparison, a: Value | IsInt(a) ::
      Compare(env, ComparisonText(op), a, b) == Got(Bool(Holds(op, a.n, b.n)))
  }

  /**
   An integer compares exactly with every other exactly if its magnitude is below 2^53, or between
   2^53 and 2^54 and twice an odd number.
   */
  lemma CompareExactlyIff(env: Env, b: Value)
    requires IsInt(b)
    ensures ComparesExactly(env, b) <==> Isolated(b.n)
  {
    hide F64, Isolated;
    if Isolated(b.n) {
      forall op: Comparison, a: Value | IsInt(a)
        ensures Compare(env, ComparisonText(op), a, b) == Got(Bool(Holds(op, a.n, b.n)))
      {
        IsolatedCompares(env, op, a, b);
      }
    } else {
      var x := Crowded(b.n);
      var a := Int(if x < TWO63 then Signed else Unsigned, x);
      assert IsInt(a) && ComparisonText(Equals) == "==";
      assert Compare(env, ComparisonText(Equals), a, b) == Got(Bool(true));
    }
  }

  lemma IsolatedCompares(env: Env, op: Comparison, a: Value, b: Value)
    requires a.Int? && b.Int? && Isolated(b.n)
    ensures Compare(env, ComparisonText(op), a, b) == Got(Bool(Holds(op, a.n, b.n)))
  {
    hide F64, Isolated;
    CompareSound(a.n, b.n);
    CompareSound(b.n, a.n);
    if F64(a.n) == F64(b.n) {
      IsolatedAlone(a.n, b.n);
    }
  }

  /** On all integers, exactly one of <, == and > holds, and < and > never contradict the exact order. */
  lemma CompareTrichotomy(env: Env, a: Value, b: Value)
    requires a.Int? && b.Int?
    ensures var less := Compare(env, "<", a, b) == Got(Bool(true));
            var equal := Compare(env, "==", a, b) == Got(Bool(true));
            var greater := Compare(env, ">", a, b) == Got(Bool(true));
            && (less || equal || greater) && !(less && equal) && !(less && greater) && !(equal && greater)
            && (less ==> a.n < b.n) && (greater ==> a.n > b.n) && (a.n == b.n ==> equal)
  {
    hide F64;
    CompareSound(a.n, b.n);
    CompareSound(b.n, a.n);
  }
}
