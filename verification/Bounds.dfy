/**
 How many host calls a rule can make: a bound computed from its tree, in which every loop counts its
 body ten thousand times. A run that makes no further host call after that many has nothing left to
 wait for, so every rule terminates whatever its loop conditions do.
 */
module Bounds {
  import opened Values
  import opened Ast
  import opened ParseTree
  import opened Listener
  import opened FrontEnd
  import opened Runtime
  import opened Evaluator
  import opened Conc
  import opened Interleaving
  import opened Execution
  import opened Meaning
  import opened Preservation

  // ---------- The bound ----------

  function CostCall(call: PCall): nat
    decreases call
  {
    1 + match call.args case None => 0 case Some(args) => CostArgs(args.list)
  }

  function CostArgs(list: seq<PArg>): nat
    decreases list, 0
  {
    if list == [] then 0 else CostArgs(list[..|list| - 1]) + CostArg(list[|list| - 1])
  }

  function CostArg(a: PArg): nat
    decreases a
  {
    match a
    case ArgCall(call) => CostCall(call)
    case ArgExpression(e) => CostExpression(e)
    case _ => 0
  }

  function CostAtom(a: PAtom): nat
    decreases a
  {
    if a.AtomCall? then CostCall(a.call) else 0
  }

  function CostMath(m: PMath): nat
    decreases m
  {
    match m
    case MathAtom(a) => CostAtom(a)
    case MathBracket(n) => CostMath(n)
    case MathBinary(l, _, r) => CostMath(l) + CostMath(r)
  }

  function CostExpression(e: PExpression): nat
    decreases e
  {
    match e
    case ExprMath(m) => CostMath(m)
    case ExprAtom(_, a) => CostAtom(a)
    case ExprBracket(_, n) => CostExpression(n)
    case ExprLogic(l, _, r) => CostExpression(l) + CostExpression(r)
    case ExprCompare(l, _, r) => CostExpression(l) + CostExpression(r)
  }

  function CostAssignment(a: PAssignment): nat {
    match a.source
    case SourceMath(m) => CostMath(m)
    case SourceExpression(e) => CostExpression(e)
  }

  function CostTask(t: PTask): nat {
    match t
    case TaskCall(call) => CostCall(call)
    case TaskAssignment(a) => CostAssignment(a)
  }

  function CostTasks(tasks: seq<PTask>): nat {
    if tasks == [] then 0 else CostTasks(tasks[..|tasks| - 1]) + CostTask(tasks[|tasks| - 1])
  }

  /** What one run of a for loop's body costs, with its condition and its update. */
  function CostRun(t: PStatement): nat
    requires t.StFor?
    decreases t, 0
  {
    CostExpression(t.condition) + CostStatements(t.body) + CostAssignment(t.update)
  }

  function CostStatement(t: PStatement): nat
    decreases t, 1
  {
    match t
    case StIf(condition, body, elseIfs, otherwise) =>
      CostExpression(condition) + CostStatements(body) + CostElseIfs(elseIfs) +
      (match otherwise case None => 0 case Some(o) => CostStatements(o))
    case StCall(call) => CostCall(call)
    case StAssignment(a) => CostAssignment(a)
    case StConc(tasks) => CostTasks(tasks)
    case StFor(init, _, _, _) => CostAssignment(init) + MAX_EXECUTE_NUM * CostRun(t)
    case StForRange(_, _, body) => MAX_EXECUTE_NUM * CostStatements(body)
    case StBreak => 0
    case StContinue => 0
  }

  function CostElseIf(e: PElseIf): nat
    decreases e
  {
    CostExpression(e.condition) + CostStatements(e.body)
  }

  function CostElseIfs(list: seq<PElseIf>): nat
    decreases list, 0
  {
    if list == [] then 0 else CostElseIf(list[0]) + CostElseIfs(list[1..])
  }

  function CostList(list: seq<PStatement>): nat
    decreases list, 0
  {
    if list == [] then 0 else CostList(list[..|list| - 1]) + CostStatement(list[|list| - 1])
  }

  function CostStatements(t: PStatements): nat
    decreases t
  {
    CostList(t.list) + match t.ret case None => 0 case Some(r) => (match r.value case None => 0 case Some(e) => CostExpression(e))
  }

  // ---------- Expressions ----------

  lemma SetValueCalls(env: Env, name: string, v: Value, w: World)
    ensures SetValue(env, name, v, w).w.calls == w.calls
  {
    hide Find;
  }

  lemma WriteAtCalls(env: Env, holder: Value, k: Key, v: Value, w: World)
    ensures WriteAt(env, holder, k, v, w).w.calls == w.calls
  {
    hide Position, KeyValue;
  }

  lemma InvokeCalls(env: Env, kind: CallKind, name: string, args: seq<Value>, w: World)
    ensures Invoke(env, kind, name, args, w).w.calls <= w.calls + 1
  {
    hide Find;
  }

  lemma CallBound(env: Env, h: Header, call: PCall, w: World)
    ensures MeanCall(env, h, call, w).w.calls <= w.calls + CostCall(call)
    decreases call
  {
    hide Invoke;
    match call.args
    case None => InvokeCalls(env, call.kind, call.name, [], w);
    case Some(args) =>
      ArgsBound(env, h, args.list, w);
      var vs := MeanArgs(env, h, args.list, w);
      InvokeCalls(env, call.kind, call.name, vs.vs, vs.w);
  }

  lemma {:induction false} ArgsBound(env: Env, h: Header, list: seq<PArg>, w: World)
    ensures MeanArgs(env, h, list, w).w.calls <= w.calls + CostArgs(list)
    decreases list, 0
  {
    if list != [] {
      var front := list[..|list| - 1];
      ArgsBound(env, h, front, w);
      ArgBound(env, h, list[|list| - 1], MeanArgs(env, h, front, w).w);
    }
  }

  lemma ArgBound(env: Env, h: Header, a: PArg, w: World)
    ensures MeanArg(env, h, a, w).w.calls <= w.calls + CostArg(a)
    decreases a
  {
    hide GetValue, MeanElement;
    match a
    case ArgCall(call) => CallBound(env, h, call, w);
    case ArgExpression(e) => ExpressionBound(env, h, e, w);
    case _ =>
  }

  lemma AtomBound(env: Env, h: Header, a: PAtom, w: World)
    ensures MeanAtom(env, h, a, w).w.calls <= w.calls + CostAtom(a)
    decreases a
  {
    hide GetValue, MeanElement;
    if a.AtomCall? {
      CallBound(env, h, a.call, w);
    }
  }

  lemma MathBound(env: Env, h: Header, m: PMath, w: World)
    ensures MeanMath(env, h, m, w).w.calls <= w.calls + CostMath(m)
    decreases m
  {
    hide Arithmetic;
    match m
    case MathAtom(a) => AtomBound(env, h, a, w);
    case MathBracket(n) => MathBound(env, h, n, w);
    case MathBinary(l, _, r) =>
      MathBound(env, h, l, w);
      MathBound(env, h, r, MeanMath(env, h, l, w).w);
  }

  lemma ExpressionBound(env: Env, h: Header, e: PExpression, w: World)
    ensures MeanExpression(env, h, e, w).w.calls <= w.calls + CostExpression(e)
    decreases e
  {
    hide Logical, Compare, Negation;
    match e
    case ExprMath(m) => MathBound(env, h, m, w);
    case ExprAtom(_, a) => AtomBound(env, h, a, w);
    case ExprBracket(_, n) => ExpressionBound(env, h, n, w);
    case ExprLogic(l, _, r) =>
      ExpressionBound(env, h, l, w);
      ExpressionBound(env, h, r, MeanExpression(env, h, l, w).w);
    case ExprCompare(l, _, r) =>
      ExpressionBound(env, h, l, w);
      ExpressionBound(env, h, r, MeanExpression(env, h, l, w).w);
  }

  lemma AssignmentBound(env: Env, h: Header, a: PAssignment, w: World)
    ensures MeanAssignment(env, h, a, w).0.calls <= w.calls + CostAssignment(a)
  {
    hide GetValue, SetValue, WriteAt, MeanUpdate, MeanMath, MeanExpression;
    match a.source {
      case SourceMath(m) => MathBound(env, h, m, w);
      case SourceExpression(e) => ExpressionBound(env, h, e, w);
    }
    var source := MeanSource(env, h, a.source, w);
    if source.r.Got? {
      var v := MeanUpdate(env, a.op, a.target, source.r.v, source.w);
      if v.Got? {
        StoreCalls(env, a.target, v.v, source.w);
      }
    }
  }

  lemma StoreCalls(env: Env, t: PTarget, v: Value, w: World)
    ensures MeanStore(env, t, v, w).w.calls == w.calls
  {
    hide GetValue, SetValue, WriteAt, MeanKey;
    match t
    case TargetVariable(name) => SetValueCalls(env, name, v, w);
    case TargetMapVar(m) =>
      var holder := GetValue(env, m.name, w);
      var k := MeanKey(env, m.key, w);
      if holder.Got? && k.Keyed? {
        WriteAtCalls(env, holder.v, k.k, v, w);
      }
  }

  // ---------- Conc blocks: each calling step makes one call ----------

  function CallsIn(code: Code): nat {
    if code == [] then 0 else (if code[0].Calling? then 1 else 0) + CallsIn(code[1..])
  }

  lemma {:induction false} CallsInConcat(a: Code, b: Code)
    ensures CallsIn(a + b) == CallsIn(a) + CallsIn(b)
  {
    if a == [] {
      assert a + b == b;
    } else {
      assert (a + b)[1..] == a[1..] + b;
      CallsInConcat(a[1..], b);
    }
  }

  lemma CallsInOne(ins: Instr)
    ensures CallsIn([ins]) == if ins.Calling? then 1 else 0
  {
    assert [ins][1..] == [];
  }

  function SumCalls(codes: seq<Code>): nat {
    if codes == [] then 0 else SumCalls(codes[..|codes| - 1]) + CallsIn(codes[|codes| - 1])
  }

  function Codes(tasks: seq<Task>): seq<Code> {
    seq(|tasks|, i requires 0 <= i < |tasks| => tasks[i].code)
  }

  lemma {:induction false} SumReplace(codes: seq<Code>, i: nat, code: Code)
    requires i < |codes|
    ensures SumCalls(codes[i := code]) == SumCalls(codes) - CallsIn(codes[i]) + CallsIn(code)
  {
    var front := codes[..|codes| - 1];
    if i == |codes| - 1 {
      assert codes[i := code][..|codes| - 1] == front;
    } else {
      assert codes[i := code][..|codes| - 1] == front[i := code];
      SumReplace(front, i, code);
    }
  }

  lemma ExecCalls(env: Env, ins: Instr, st: seq<Value>, w: World)
    ensures Exec(env, ins, st, w).w.calls <= w.calls + CallsIn([ins])
  {
    hide GetValue, SetValue, WriteAt, ReadAt, Invoke, Arithmetic, Logical, Compare, Finish, CompoundValue;
    CallsInOne(ins);
    match ins
    case Calling(kind, callee, arity) =>
      if |st| >= arity {
        InvokeCalls(env, kind, callee, st[|st| - arity..], w);
      }
    case Save(variable) =>
      if |st| > 0 {
        SetValueCalls(env, variable, st[|st| - 1], w);
      }
    case Write(m) =>
      var n, k := |st|, Operands(m);
      if n > k {
        WriteAtCalls(env, st[n - k], LoadedKey(m, st[n - 1]), st[n - k - 1], w);
      }
    case _ =>
  }

  lemma AdvanceCalls(env: Env, m: Machine, i: nat)
    requires i < |m.tasks| && m.tasks[i].code != []
    ensures var m' := Advance(env, m, i);
            m'.w.calls + SumCalls(Codes(m'.tasks)) <= m.w.calls + SumCalls(Codes(m.tasks))
  {
    hide Exec, SumCalls;
    var t := m.tasks[i];
    var m' := Advance(env, m, i);
    ExecCalls(env, t.code[0], t.stack, m.w);
    CallsInConcat([t.code[0]], t.code[1..]);
    assert t.code == [t.code[0]] + t.code[1..];
    assert Codes(m'.tasks) == Codes(m.tasks)[i := m'.tasks[i].code];
    SumReplace(Codes(m.tasks), i, m'.tasks[i].code);
  }

  lemma {:induction false} JoinCalls(env: Env, m: Machine)
    ensures Join(env, m).w.calls <= m.w.calls + SumCalls(Codes(m.tasks))
    decreases Remaining(m.tasks)
  {
    hide Advance, Next, SumCalls;
    var next := Next(env, m);
    if next.Some? {
      AdvanceShrinks(env, m, next.value);
      AdvanceCalls(env, m, next.value);
      JoinCalls(env, Advance(env, m, next.value));
    }
  }

  lemma EvalConcCalls(env: Env, c: ConcStatement, w: World)
    ensures EvalConc(env, c, w).w.calls <= w.calls + SumCalls(ConcCodes(c))
  {
    hide Join, ConcCodes, SumCalls;
    var start := Fork(ConcCodes(c), w);
    assert Codes(start.tasks) == ConcCodes(c);
    JoinCalls(env, start);
  }

  // The code of a built record makes no more calls than its tree costs.

  lemma CallCodeCost(call: PCall, h: Header)
    ensures CallsIn(CallCode(call.kind, BuildCall(call, h))) <= CostCall(call)
    decreases call
  {
    match call.args
    case None => CallsInOne(Calling(call.kind, call.name, 0));
    case Some(args) =>
      var n := |args.list|;
      ArgsCodeCost(args.list, h);
      CallsInConcat(ArgsCode(BuildArgs(args.list, h)), [Calling(call.kind, call.name, n)]);
      CallsInOne(Calling(call.kind, call.name, n));
  }

  lemma {:induction false} ArgsCodeCost(list: seq<PArg>, h: Header)
    ensures CallsIn(ArgsCode(BuildArgs(list, h))) <= CostArgs(list)
    decreases list, 0
  {
    if list != [] {
      var front, last := list[..|list| - 1], list[|list| - 1];
      var built := BuildArgs(list, h);
      assert built[..|built| - 1] == BuildArgs(front, h) && built[|built| - 1] == BuildArg(last, h);
      ArgsCodeCost(front, h);
      ArgCodeCost(last, h);
      CallsInConcat(ArgsCode(BuildArgs(front, h)), ArgCode(BuildArg(last, h)));
    }
  }

  lemma NoCallsIn(code: Code)
    requires forall i | 0 <= i < |code| :: !code[i].Calling?
    ensures CallsIn(code) == 0
  {
  }

  lemma ArgCodeCost(a: PArg, h: Header)
    ensures CallsIn(ArgCode(BuildArg(a, h))) <= CostArg(a)
    decreases a
  {
    hide CallsIn, ConstantValue;
    match a
    case ArgCall(call) => CallCodeCost(call, h);
    case ArgExpression(e) => ExpressionCodeCost(e, h);
    case _ => NoCallsIn(ArgCode(BuildArg(a, h)));
  }

  lemma AtomCodeCost(a: PAtom, h: Header)
    ensures CallsIn(AtomCode(BuildAtom(a, h))) <= CostAtom(a)
    decreases a
  {
    hide CallsIn, ConstantValue;
    if a.AtomCall? {
      CallCodeCost(a.call, h);
    } else {
      NoCallsIn(AtomCode(BuildAtom(a, h)));
    }
  }

  lemma MathCodeCost(m: PMath, h: Header)
    ensures CallsIn(MathCode(BuildMath(m, h))) <= CostMath(m)
    decreases m
  {
    hide CallsIn;
    match m
    case MathAtom(a) => AtomCodeCost(a, h);
    case MathBracket(n) => MathCodeCost(n, h);
    case MathBinary(l, op, r) =>
      MathCodeCost(l, h);
      MathCodeCost(r, h);
      var a, b := MathCode(BuildMath(l, h)), MathCode(BuildMath(r, h));
      CallsInConcat(a + b, [Binary(MathText(op))]);
      CallsInConcat(a, b);
      CallsInOne(Binary(MathText(op)));
  }

  lemma ExpressionParts(x: Expression)
    ensures CallsIn(ExpressionCode(x)) == CallsIn(MathPart(x.math)) + CallsIn(AtomPart(x.atom)) + CallsIn(OperandsCode(x))
  {
    hide CallsIn, MathPart, AtomPart, OperandsCode;
    CallsInConcat(MathPart(x.math) + AtomPart(x.atom) + OperandsCode(x), [Last(x.notOperator)]);
    CallsInConcat(MathPart(x.math) + AtomPart(x.atom), OperandsCode(x));
    CallsInConcat(MathPart(x.math), AtomPart(x.atom));
    CallsInOne(Last(x.notOperator));
  }

  lemma OperandsParts(x: Expression)
    ensures CallsIn(OperandsCode(x)) ==
            (if x.right == None && x.left.Some? then CallsIn(ExpressionCode(x.left.value)) else 0) +
            (if x.logicalOperator == "" then 0 else CallsIn(BothCode(x))) +
            (if x.comparisonOperator == "" then 0 else CallsIn(BothCode(x)))
  {
    hide CallsIn, ExpressionCode, BothCode;
    var a := if x.right == None && x.left.Some? then ExpressionCode(x.left.value) else [Push(Nil)];
    var b := if x.logicalOperator == "" then [] else BothCode(x) + [Both(true, x.logicalOperator)];
    var c := if x.comparisonOperator == "" then [] else BothCode(x) + [Both(false, x.comparisonOperator)];
    CallsInConcat(a + b, c);
    CallsInConcat(a, b);
    CallsInConcat(BothCode(x), [Both(true, x.logicalOperator)]);
    CallsInConcat(BothCode(x), [Both(false, x.comparisonOperator)]);
    CallsInOne(Both(true, x.logicalOperator));
    CallsInOne(Both(false, x.comparisonOperator));
    CallsInOne(Push(Nil));
    NoCallsIn([]);
  }

  lemma ExpressionCodeCost(e: PExpression, h: Header)
    ensures CallsIn(ExpressionCode(BuildExpression(e, h))) <= CostExpression(e)
    decreases e
  {
    hide CallsIn, ExpressionCode, OperandsCode, MathCode, AtomCode, BuildMath, BuildAtom;
    var x := BuildExpression(e, h);
    ExpressionParts(x);
    OperandsParts(x);
    CallsInOne(Push(Nil));
    match e
    case ExprMath(m) => MathCodeCost(m, h);
    case ExprAtom(_, a) => AtomCodeCost(a, h);
    case ExprBracket(_, n) => ExpressionCodeCost(n, h);
    case ExprLogic(l, _, r) =>
      ExpressionCodeCost(l, h);
      ExpressionCodeCost(r, h);
      CallsInConcat(ExpressionCode(BuildExpression(l, h)), ExpressionCode(BuildExpression(r, h)));
    case ExprCompare(l, _, r) =>
      ExpressionCodeCost(l, h);
      ExpressionCodeCost(r, h);
      CallsInConcat(ExpressionCode(BuildExpression(l, h)), ExpressionCode(BuildExpression(r, h)));
  }

  lemma AssignmentCodeCost(a: PAssignment, h: Header)
    ensures CallsIn(AssignmentCode(BuildAssignment(a, h))) <= CostAssignment(a)
  {
    hide CallsIn, MathCode, ExpressionCode, BuildMath, BuildExpression, BuildMapVar;
    var b := BuildAssignment(a, h);
    var current := if Plain(b.assignOperator) then [] else CurrentCode(b) + [Compound(b.assignOperator)];
    CallsInConcat(ValueCode(b), StoreCode(b));
    CallsInConcat(SourceCode(b), current);
    NoCallsIn(StoreCode(b));
    NoCallsIn(current);
    SourceCodeCost(a, h);
  }

  lemma SourceCodeCost(a: PAssignment, h: Header)
    ensures CallsIn(SourceCode(BuildAssignment(a, h))) <= CostAssignment(a)
  {
    hide CallsIn, MathCode, ExpressionCode, BuildMath, BuildExpression, BuildMapVar;
    match a.source
    case SourceMath(m) =>
      MathCodeCost(m, h);
      assert MathCode(BuildMath(m, h)) + [] == MathCode(BuildMath(m, h));
    case SourceExpression(e) =>
      var code := ExpressionCode(BuildExpression(e, h));
      ExpressionCodeCost(e, h);
      CallsInConcat([Push(Nil)], [Drop] + code);
      CallsInConcat([Drop], code);
      CallsInOne(Push(Nil));
      CallsInOne(Drop);
  }

  lemma {:induction false} SumConcat(a: seq<Code>, b: seq<Code>)
    ensures SumCalls(a + b) == SumCalls(a) + SumCalls(b)
  {
    if b == [] {
      assert a + b == a;
    } else {
      assert (a + b)[..|a + b| - 1] == a + b[..|b| - 1];
      SumConcat(a, b[..|b| - 1]);
    }
  }

  lemma SumOfConc(c: ConcStatement)
    ensures SumCalls(ConcCodes(c)) ==
            SumCalls(AssignmentCodes(c.assignments)) + SumCalls(CallCodes(Function, c.functionCalls)) +
            SumCalls(CallCodes(Method, c.methodCalls)) + SumCalls(CallCodes(ThreeLevel, c.threeLevelCalls))
  {
    hide SumCalls, AssignmentCodes, CallCodes;
    var a, f := AssignmentCodes(c.assignments), CallCodes(Function, c.functionCalls);
    var m, t := CallCodes(Method, c.methodCalls), CallCodes(ThreeLevel, c.threeLevelCalls);
    SumConcat(a + f + m, t);
    SumConcat(a + f, m);
    SumConcat(a, f);
  }

  lemma SumSnoc(codes: seq<Code>, code: Code)
    ensures SumCalls(codes + [code]) == SumCalls(codes) + CallsIn(code)
  {
    assert (codes + [code])[..|codes|] == codes;
  }

  lemma {:induction false} ConcCost(tasks: seq<PTask>, h: Header)
    ensures SumCalls(ConcCodes(BuildConc(tasks, h))) <= CostTasks(tasks)
  {
    hide SumCalls, ConcCodes, AssignmentCode, CallCode, BuildAssignment, BuildCall, CostAssignment, CostCall;
    SumOfConc(BuildConc(tasks, h));
    if tasks == [] {
      assert AssignmentCodes([]) == [] && CallCodes(Function, []) == [] && CallCodes(Method, []) == [] && CallCodes(ThreeLevel, []) == [];
      SumNothing();
    } else {
      var front, last := tasks[..|tasks| - 1], tasks[|tasks| - 1];
      var c := BuildConc(front, h);
      ConcCost(front, h);
      SumOfConc(c);
      match last
      case TaskAssignment(a) =>
        assert AssignmentCodes(c.assignments + [BuildAssignment(a, h)]) == AssignmentCodes(c.assignments) + [AssignmentCode(BuildAssignment(a, h))];
        SumSnoc(AssignmentCodes(c.assignments), AssignmentCode(BuildAssignment(a, h)));
        AssignmentCodeCost(a, h);
      case TaskCall(call) =>
        var calls := match call.kind case Function => c.functionCalls case Method => c.methodCalls case ThreeLevel => c.threeLevelCalls;
        assert CallCodes(call.kind, calls + [BuildCall(call, h)]) == CallCodes(call.kind, calls) + [CallCode(call.kind, BuildCall(call, h))];
        SumSnoc(CallCodes(call.kind, calls), CallCode(call.kind, BuildCall(call, h)));
        CallCodeCost(call, h);
    }
  }

  lemma SumNothing()
    ensures SumCalls([]) == 0
  {
  }

  // ---------- Statements ----------

  lemma ConditionBound(env: Env, h: Header, e: PExpression, w: World)
    ensures MeanCondition(env, h, e, w).w.calls <= w.calls + CostExpression(e)
  {
    hide MeanExpression, CostExpression;
    ExpressionBound(env, h, e, w);
  }

  lemma StatementBound(env: Env, h: Header, t: PStatement, w: World)
    ensures MeanStatement(env, h, t, w).w.calls <= w.calls + CostStatement(t)
    decreases t, 2, 0
  {
    hide MeanCall, MeanAssignment, MeanCondition, MeanElseIfs, MeanFor, MeanForRange, MeanStatements, EvalConc,
         BuildConc, CostRun, CostExpression, CostStatements, CostElseIfs, CostTasks, CostCall, CostAssignment;
    match t
    case StIf(condition, body, elseIfs, _) =>
      ConditionBound(env, h, condition, w);
      var it := MeanCondition(env, h, condition, w);
      StatementsBound(env, h, body, it.w);
      ElseIfsBound(env, h, t, 0, it.w);
      assert elseIfs[0..] == elseIfs;
    case StCall(call) => CallBound(env, h, call, w);
    case StAssignment(a) => AssignmentBound(env, h, a, w);
    case StConc(tasks) =>
      EvalConcCalls(env, BuildConc(tasks, h), w);
      ConcCost(tasks, h);
    case StFor(_, _, _, _) => ForBound(env, h, t, w);
    case StForRange(_, _, _) => ForRangeBound(env, h, t, w);
    case StBreak =>
    case StContinue =>
  }

  lemma ElseIfsBound(env: Env, h: Header, t: PStatement, k: nat, w: World)
    requires t.StIf? && k <= |t.elseIfs|
    ensures MeanElseIfs(env, h, t, k, w).w.calls <= w.calls + CostElseIfs(t.elseIfs[k..]) +
            (if t.otherwise == None then 0 else CostStatements(t.otherwise.value))
    decreases t, 0, |t.elseIfs| - k
  {
    hide MeanCondition, MeanStatements, CostExpression, CostStatements;
    if k == |t.elseIfs| {
      if t.otherwise.Some? {
        StatementsBound(env, h, t.otherwise.value, w);
      }
    } else {
      var e := t.elseIfs[k];
      assert t.elseIfs[k..][0] == e && t.elseIfs[k..][1..] == t.elseIfs[k + 1..];
      ConditionBound(env, h, e.condition, w);
      var it := MeanCondition(env, h, e.condition, w);
      StatementsBound(env, h, e.body, it.w);
      ElseIfsBound(env, h, t, k + 1, it.w);
    }
  }

  lemma ForBound(env: Env, h: Header, t: PStatement, w: World)
    requires t.StFor?
    ensures MeanFor(env, h, t, w).w.calls <= w.calls + CostAssignment(t.init) + MAX_EXECUTE_NUM * CostRun(t)
    decreases t, 1, 0
  {
    hide MeanAssignment, MeanForFrom, CostRun, CostAssignment;
    AssignmentBound(env, h, t.init, w);
    var init := MeanAssignment(env, h, t.init, w);
    if init.1 {
      ForFromBound(env, h, t, 0, init.0);
    }
  }

  lemma ForFromBound(env: Env, h: Header, t: PStatement, count: nat, w: World)
    requires t.StFor? && count <= MAX_EXECUTE_NUM
    ensures MeanForFrom(env, h, t, count, w).w.calls <= w.calls + (MAX_EXECUTE_NUM - count) * CostRun(t)
    decreases t, 0, MAX_EXECUTE_NUM - count
  {
    hide MeanCondition, MeanStatements, MeanAssignment, CostExpression, CostStatements, CostAssignment;
    if count < MAX_EXECUTE_NUM {
      OneMore(MAX_EXECUTE_NUM - count, CostRun(t));
      ConditionBound(env, h, t.condition, w);
      var it := MeanCondition(env, h, t.condition, w);
      StatementsBound(env, h, t.body, it.w);
      var body := MeanStatements(env, h, t.body, it.w);
      AssignmentBound(env, h, t.update, body.w);
      ForFromBound(env, h, t, count + 1, MeanAssignment(env, h, t.update, body.w).0);
    }
  }

  lemma OneMore(n: nat, c: nat)
    requires n > 0
    ensures n * c == (n - 1) * c + c && (n - 1) * c >= 0
  {
  }

  lemma ForRangeBound(env: Env, h: Header, t: PStatement, w: World)
    requires t.StForRange?
    ensures MeanForRange(env, h, t, w).w.calls <= w.calls + MAX_EXECUTE_NUM * CostStatements(t.body)
    decreases t, 1, 0
  {
    hide GetValue, RangeKeys, MeanForRangeFrom, CostStatements;
    var v := GetValue(env, t.name, w);
    if v.Got? {
      var keys := RangeKeys(env, v.v, w);
      if keys.Iterable? {
        ForRangeFromBound(env, h, t, keys.keys, 0, Tick(w));
      }
    }
  }

  lemma ForRangeFromBound(env: Env, h: Header, t: PStatement, keys: seq<Value>, cur: nat, w: World)
    requires t.StForRange? && cur <= |keys| && cur <= MAX_EXECUTE_NUM
    ensures MeanForRangeFrom(env, h, t, keys, cur, w).w.calls <= w.calls + (MAX_EXECUTE_NUM - cur) * CostStatements(t.body)
    decreases t, 0, |keys| - cur
  {
    hide SetValue, MeanStatements, CostStatements;
    if cur < |keys| && cur < MAX_EXECUTE_NUM {
      OneMore(MAX_EXECUTE_NUM - cur, CostStatements(t.body));
      SetValueCalls(env, t.key, keys[cur], w);
      var stored := SetValue(env, t.key, keys[cur], w);
      StatementsBound(env, h, t.body, stored.w);
      ForRangeFromBound(env, h, t, keys, cur + 1, MeanStatements(env, h, t.body, stored.w).w);
    }
  }

  lemma {:induction false} ListBound(env: Env, h: Header, list: seq<PStatement>, w: World)
    ensures MeanList(env, h, list, w).w.calls <= w.calls + CostList(list)
    decreases list, 0, 0
  {
    hide MeanStatement, CostStatement;
    if list != [] {
      var front := list[..|list| - 1];
      ListBound(env, h, front, w);
      StatementBound(env, h, list[|list| - 1], MeanList(env, h, front, w).w);
    }
  }

  lemma StatementsBound(env: Env, h: Header, t: PStatements, w: World)
    ensures MeanStatements(env, h, t, w).w.calls <= w.calls + CostStatements(t)
    decreases t, 0, 0
  {
    hide MeanList, MeanExpression, CostList, CostExpression;
    ListBound(env, h, t.list, w);
    var f := MeanList(env, h, t.list, w);
    if t.ret.Some? && t.ret.value.value.Some? {
      ExpressionBound(env, h, t.ret.value.value.value, f.w);
    }
  }

  /** Executing a rule makes at most as many host calls as its tree costs, in every environment. */
  lemma RuleBound(env: Env, r: PRule, w: World)
    requires AcceptedRule(r)
    ensures Execute(env, BuildRule(r), w).w.calls <= w.calls + CostStatements(r.body)
  {
    hide Execute, BuildRule, MeanStatements, CostStatements;
    RuleAgrees(env, r, w);
    StatementsBound(env, HeaderOf(r), r.body, w.(vars := map[]));
  }
}
