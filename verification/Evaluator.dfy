/**
 Evaluation of the expression records and of assignments, branch by branch as the engine's
 `Evaluate` methods do it. A `Lost` result is an error returned or a panic raised; the world is
 carried along in both cases, because host calls made before a fault are not undone.
 */
module Evaluator {
  import opened Values
  import opened Ast
  import opened ParseTree
  import opened Runtime

  /** Several values, or the fault that stopped their evaluation. */
  datatype Many = Many(w: World, vs: seq<Value>, fault: Option<Fault>)

  // ---------- Map and slice elements ----------

  datatype KeyResult = Keyed(k: Key) | Unkeyed(f: Fault)

  /** A variable key wins over a string key, which wins over an integer key. */
  function KeyOf(env: Env, m: MapVar, w: World): KeyResult {
    if m.varkey != "" then
      match GetValue(env, m.varkey, w)
      case Got(v) => Keyed(FromVariable(v))
      case Lost(f) => Unkeyed(f)
    else if m.strkey != "" then Keyed(FromString(m.strkey))
    else Keyed(FromInteger(m.intkey))
  }

  function ReadMapVar(env: Env, m: MapVar, w: World): Result {
    match GetValue(env, m.name, w)
    case Lost(f) => Lost(f)
    case Got(holder) =>
      if !Indexable(holder, w.heap) then Lost(Failed)
      else
        match KeyOf(env, m, w)
        case Unkeyed(f) => Lost(f)
        case Keyed(k) => ReadAt(env, holder, k, w.heap)
  }

  function WriteMapVar(env: Env, m: MapVar, v: Value, w: World): Eval {
    match GetValue(env, m.name, w)
    case Lost(f) => Eval(w, Lost(f))
    case Got(holder) =>
      if !Indexable(holder, w.heap) then Eval(w, Lost(Panicked))
      else
        match KeyOf(env, m, w)
        case Unkeyed(f) => Eval(w, Lost(f))
        case Keyed(k) => WriteAt(env, holder, k, v, w)
  }

  // ---------- Expressions ----------

  function EvalAtom(env: Env, e: ExpressionAtom, w: World): Eval
    decreases e
  {
    if e.variable != "" then Eval(w, GetValue(env, e.variable, w))
    else if e.constant.Some? then Eval(w, Got(e.constant.value.value))
    else if e.functionCall.Some? then EvalCall(env, Function, e.functionCall.value, w)
    else if e.methodCall.Some? then EvalCall(env, Method, e.methodCall.value, w)
    else if e.mapVar.Some? then Eval(w, ReadMapVar(env, e.mapVar.value, w))
    else if e.threeLevelCall.Some? then EvalCall(env, ThreeLevel, e.threeLevelCall.value, w)
    else Eval(w, Lost(Failed))
  }

  /** A panic in an argument or in the called function is recovered into an error. */
  function EvalCall(env: Env, kind: CallKind, c: Call, w: World): Eval
    decreases c
  {
    if c.args == None then Invoke(env, kind, c.name, [], w)
    else
      var args := EvalArgs(env, c.args.value.argList, w);
      if args.fault.Some? then Eval(args.w, Lost(Failed)) else Invoke(env, kind, c.name, args.vs, args.w)
  }

  function EvalArgs(env: Env, list: seq<Arg>, w: World): Many
    decreases list, 0
  {
    if list == [] then Many(w, [], None)
    else
      var front := EvalArgs(env, list[..|list| - 1], w);
      if front.fault.Some? then front
      else
        var last := EvalArg(env, list[|list| - 1], front.w);
        match last.r
        case Got(v) => Many(last.w, front.vs + [v], None)
        case Lost(f) => Many(last.w, front.vs, Some(f))
  }

  function EvalArg(env: Env, a: Arg, w: World): Eval
    decreases a
  {
    if a.variable != "" then Eval(w, GetValue(env, a.variable, w))
    else if a.constant.Some? then Eval(w, Got(a.constant.value.value))
    else if a.functionCall.Some? then EvalCall(env, Function, a.functionCall.value, w)
    else if a.methodCall.Some? then EvalCall(env, Method, a.methodCall.value, w)
    else if a.threeLevelCall.Some? then EvalCall(env, ThreeLevel, a.threeLevelCall.value, w)
    else if a.mapVar.Some? then Eval(w, ReadMapVar(env, a.mapVar.value, w))
    else if a.expression.Some? then EvalExpression(env, a.expression.value, w)
    else Eval(w, Lost(Failed))
  }

  function EvalMath(env: Env, e: MathExpression, w: World): Eval
    decreases e
  {
    if e.atom.Some? then EvalAtom(env, e.atom.value, w)
    else if e.right == None then
      if e.left == None then Eval(w, Lost(Panicked)) else EvalMath(env, e.left.value, w)
    else if e.left == None then Eval(w, Lost(Panicked))
    else
      var l := EvalMath(env, e.left.value, w);
      if l.r.Lost? then l
      else
        var r := EvalMath(env, e.right.value, l.w);
        if r.r.Lost? then r
        else if e.pmOperator == "+" || e.pmOperator == "-" then Eval(r.w, Arithmetic(env, e.pmOperator, Content(l.r.v, r.w.heap), Content(r.r.v, r.w.heap)))
        else if e.mdOperator == "*" || e.mdOperator == "/" then Eval(r.w, Arithmetic(env, e.mdOperator, Content(l.r.v, r.w.heap), Content(r.r.v, r.w.heap)))
        else Eval(r.w, Lost(Failed))
  }

  /** Both operands, left first; a missing one is a nil dereference. */
  function EvalBoth(env: Env, e: Expression, w: World): Many
    decreases e, 0
  {
    if e.left == None then Many(w, [], Some(Panicked))
    else
      var a := EvalExpression(env, e.left.value, w);
      if a.r.Lost? then Many(a.w, [], Some(a.r.f))
      else if e.right == None then Many(a.w, [], Some(Panicked))
      else
        var b := EvalExpression(env, e.right.value, a.w);
        if b.r.Lost? then Many(b.w, [], Some(b.r.f)) else Many(b.w, [a.r.v, b.r.v], None)
  }

  /** An operator looks into both operands once both have been evaluated. */
  function Logically(op: string, vs: seq<Value>, heap: Heap): Result
    requires |vs| == 2
  {
    Logical(op, Content(vs[0], heap), Content(vs[1], heap))
  }

  function Compared(env: Env, op: string, vs: seq<Value>, heap: Heap): Result
    requires |vs| == 2
  {
    Compare(env, op, Content(vs[0], heap), Content(vs[1], heap))
  }

  /** Replaces the operand value b by that of an operator over both operands, if the operator sets one. */
  function Combined(both: Many, b: Value, r: Result): Eval {
    if both.fault.Some? then Eval(both.w, Lost(both.fault.value))
    else if r == Got(Nil) then Eval(both.w, Got(b))
    else Eval(both.w, r)
  }

  /** The value a bracketed, logical or comparison expression sets; Nil if none. */
  function EvalOperands(env: Env, e: Expression, w: World): Eval
    decreases e, 1
  {
    var single := if e.right == None && e.left.Some? then EvalExpression(env, e.left.value, w) else Eval(w, Got(Nil));
    if single.r.Lost? then single
    else
      var logical :=
        if e.logicalOperator == "" then single
        else
          var both := EvalBoth(env, e, single.w);
          Combined(both, single.r.v, if |both.vs| == 2 then Logically(e.logicalOperator, both.vs, both.w.heap) else Got(Nil));
      if logical.r.Lost? || e.comparisonOperator == "" then logical
      else
        var both := EvalBoth(env, e, logical.w);
        Combined(both, logical.r.v, if |both.vs| == 2 then Compared(env, e.comparisonOperator, both.vs, both.w.heap) else Got(Nil))
  }

  /** The first value set among the arithmetic one, the atom and the operands, negated if asked. */
  function Finish(notOperator: string, math: Value, atom: Value, b: Value, heap: Heap): Result {
    var v := if math != Nil then math else if atom != Nil then atom else b;
    if v == Nil then Lost(Failed)
    else if notOperator == "!" then Negation(Content(v, heap))
    else Got(v)
  }

  function EvalExpression(env: Env, e: Expression, w: World): Eval
    decreases e, 2
  {
    var math := if e.math.Some? then EvalMath(env, e.math.value, w) else Eval(w, Got(Nil));
    if math.r.Lost? then math
    else
      var atom := if e.atom.Some? then EvalAtom(env, e.atom.value, math.w) else Eval(math.w, Got(Nil));
      if atom.r.Lost? then atom
      else
        var b := EvalOperands(env, e, atom.w);
        if b.r.Lost? then b else Eval(b.w, Finish(e.notOperator, math.r.v, atom.r.v, b.r.v, b.w.heap))
  }

  // ---------- Assignments ----------

  function EvalSource(env: Env, a: Assignment, w: World): Eval {
    var math := if a.math.Some? then EvalMath(env, a.math.value, w) else Eval(w, Got(Nil));
    if math.r.Lost? || a.expression == None then math else EvalExpression(env, a.expression.value, math.w)
  }

  /** The old value of the target of a compound assignment. */
  function CurrentValue(env: Env, a: Assignment, w: World): Result {
    var v := if a.variable != "" then GetValue(env, a.variable, w) else Got(Nil);
    if v.Lost? || a.mapVar == None then v else ReadMapVar(env, a.mapVar.value, w)
  }

  function CompoundValue(env: Env, op: string, current: Value, v: Value, heap: Heap): Result {
    if op == "+=" then Arithmetic(env, "+", Content(current, heap), Content(v, heap))
    else if op == "-=" then Arithmetic(env, "-", Content(current, heap), Content(v, heap))
    else if op == "*=" then Arithmetic(env, "*", Content(current, heap), Content(v, heap))
    else if op == "/=" then Arithmetic(env, "/", Content(current, heap), Content(v, heap))
    else Got(v)
  }

  function Store(env: Env, a: Assignment, v: Value, w: World): Eval {
    if a.variable != "" then SetValue(env, a.variable, v, w)
    else if a.mapVar.Some? then WriteMapVar(env, a.mapVar.value, v, w)
    else Eval(w, Got(Nil))
  }

  predicate Plain(op: string) {
    op == "=" || op == ":="
  }

  function Assigned(env: Env, a: Assignment, w: World): Eval {
    var source := EvalSource(env, a, w);
    if source.r.Lost? then source
    else if Plain(a.assignOperator) then Store(env, a, source.r.v, source.w)
    else
      match CurrentValue(env, a, source.w)
      case Lost(f) => Eval(source.w, Lost(f))
      case Got(current) =>
        match CompoundValue(env, a.assignOperator, current, source.r.v, source.w.heap)
        case Lost(f) => Eval(source.w, Lost(f))
        case Got(v) => Store(env, a, v, source.w)
  }

  /** An assignment has no value, and recovers from panics into errors. */
  function EvalAssignment(env: Env, a: Assignment, w: World): Eval {
    var e := Assigned(env, a, w);
    Eval(e.w, if e.r.Got? then Got(Nil) else Lost(Failed))
  }
}
