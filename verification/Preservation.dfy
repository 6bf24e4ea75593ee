/**
 The front end preserves meaning: executing the record the listener builds for an accepted tree does
 what the tree means.
 */
module Preservation {
  import opened Values
  import opened Ast
  import opened Text
  import opened ParseTree
  import opened Listener
  import opened FrontEnd
  import opened Runtime
  import opened Evaluator
  import opened Interleaving
  import opened Execution
  import opened Meaning
  import opened TreeWalk

  // ---------- Expressions ----------

  lemma KeyAgrees(env: Env, m: PMapVar, w: World)
    requires AcceptedMapVar(m)
    ensures KeyOf(env, BuildMapVar(m), w) == MeanKey(env, m.key, w)
  {
    hide GetValue, Trim, ParseInt;
  }

  lemma ElementAgrees(env: Env, m: PMapVar, w: World)
    requires AcceptedMapVar(m)
    ensures ReadMapVar(env, BuildMapVar(m), w) == MeanElement(env, m, w)
  {
    hide GetValue, ReadAt, KeyOf, MeanKey;
    KeyAgrees(env, m, w);
  }

  lemma AtomAgrees(env: Env, h: Header, a: PAtom, w: World)
    requires AcceptedAtom(a)
    ensures EvalAtom(env, BuildAtom(a, h), w) == MeanAtom(env, h, a, w)
    decreases a
  {
    hide GetValue, ReadMapVar, MeanElement, ConstantValue;
    match a
    case AtomCall(call) => CallAgrees(env, h, call, w);
    case AtomMapVar(m) => ElementAgrees(env, m, w);
    case _ =>
  }

  lemma CallAgrees(env: Env, h: Header, call: PCall, w: World)
    requires AcceptedCall(call)
    ensures EvalCall(env, call.kind, BuildCall(call, h), w) == MeanCall(env, h, call, w)
    decreases call
  {
    hide Invoke;
    if call.args.Some? {
      ArgsAgree(env, h, call.args.value.list, w);
    }
  }

  lemma {:induction false} ArgsAgree(env: Env, h: Header, list: seq<PArg>, w: World)
    requires AcceptedArgs(list)
    ensures EvalArgs(env, BuildArgs(list, h), w) == MeanArgs(env, h, list, w)
    decreases list, 0
  {
    if list != [] {
      var front, last := list[..|list| - 1], list[|list| - 1];
      var built := BuildArgs(list, h);
      assert built[..|built| - 1] == BuildArgs(front, h) && built[|built| - 1] == BuildArg(last, h);
      ArgsAgree(env, h, front, w);
      ArgAgrees(env, h, last, MeanArgs(env, h, front, w).w);
    }
  }

  lemma ArgAgrees(env: Env, h: Header, a: PArg, w: World)
    requires AcceptedArg(a)
    ensures EvalArg(env, BuildArg(a, h), w) == MeanArg(env, h, a, w)
    decreases a
  {
    hide GetValue, ReadMapVar, MeanElement, ConstantValue;
    match a
    case ArgCall(call) => CallAgrees(env, h, call, w);
    case ArgMapVar(m) => ElementAgrees(env, m, w);
    case ArgExpression(e) => ExpressionAgrees(env, h, e, w);
    case _ =>
  }

  lemma MathAgrees(env: Env, h: Header, m: PMath, w: World)
    requires AcceptedMath(m)
    ensures EvalMath(env, BuildMath(m, h), w) == MeanMath(env, h, m, w)
    decreases m
  {
    hide Arithmetic;
    match m
    case MathAtom(a) => AtomAgrees(env, h, a, w);
    case MathBracket(n) => MathAgrees(env, h, n, w);
    case MathBinary(l, op, r) =>
      MathAgrees(env, h, l, w);
      MathAgrees(env, h, r, MeanMath(env, h, l, w).w);
  }

  // What the evaluation of an expression record amounts to, for each shape the front end builds.

  lemma MathRecord(env: Env, m: MathExpression, w: World)
    ensures EvalExpression(env, NO_EXPRESSION.(math := Some(m)), w) == Defined(EvalMath(env, m, w))
  {
    hide EvalMath;
  }

  lemma AtomRecord(env: Env, negated: bool, a: ExpressionAtom, w: World)
    ensures EvalExpression(env, NO_EXPRESSION.(atom := Some(a), notOperator := if negated then "!" else ""), w) ==
            Negated(negated, Defined(EvalAtom(env, a, w)))
  {
    hide EvalAtom;
  }

  lemma BracketRecord(env: Env, negated: bool, x: Expression, w: World)
    ensures EvalExpression(env, NO_EXPRESSION.(left := Some(x), notOperator := if negated then "!" else ""), w) ==
            Negated(negated, Defined(EvalExpression(env, x, w)))
  {
  }

  lemma LogicRecord(env: Env, op: Logic, l: Expression, r: Expression, w: World)
    ensures var both := EvalBoth(env, NO_EXPRESSION.(left := Some(l), right := Some(r), logicalOperator := LogicText(op)), w);
            EvalExpression(env, NO_EXPRESSION.(left := Some(l), right := Some(r), logicalOperator := LogicText(op)), w) ==
            if both.fault.Some? || |both.vs| != 2 then Defined(Combined(both, Nil, Got(Nil)))
            else Eval(both.w, Logically(LogicText(op), both.vs, both.w.heap))
  {
    hide EvalBoth;
  }

  lemma CompareRecord(env: Env, op: Comparison, l: Expression, r: Expression, w: World)
    ensures var both := EvalBoth(env, NO_EXPRESSION.(left := Some(l), right := Some(r), comparisonOperator := ComparisonText(op)), w);
            EvalExpression(env, NO_EXPRESSION.(left := Some(l), right := Some(r), comparisonOperator := ComparisonText(op)), w) ==
            if both.fault.Some? || |both.vs| != 2 then Defined(Combined(both, Nil, Got(Nil)))
            else Defined(Eval(both.w, Compared(env, ComparisonText(op), both.vs, both.w.heap)))
  {
    hide EvalBoth, Compare;
  }

  /** A value of an expression is never the invalid value. */
  lemma ExpressionDefined(env: Env, e: Expression, w: World)
    ensures EvalExpression(env, e, w).r != Got(Nil)
  {
    hide EvalMath, EvalAtom, EvalOperands;
  }

  lemma ExpressionAgrees(env: Env, h: Header, e: PExpression, w: World)
    requires AcceptedExpression(e)
    ensures EvalExpression(env, BuildExpression(e, h), w) == MeanExpression(env, h, e, w)
    decreases e
  {
    hide EvalExpression, Logical, Compare;
    match e
    case ExprMath(m) =>
      MathRecord(env, BuildMath(m, h), w);
      MathAgrees(env, h, m, w);
    case ExprAtom(negated, a) =>
      AtomRecord(env, negated, BuildAtom(a, h), w);
      AtomAgrees(env, h, a, w);
    case ExprBracket(negated, n) =>
      BracketRecord(env, negated, BuildExpression(n, h), w);
      ExpressionAgrees(env, h, n, w);
      ExpressionDefined(env, BuildExpression(n, h), w);
    case ExprLogic(l, op, r) =>
      LogicRecord(env, op, BuildExpression(l, h), BuildExpression(r, h), w);
      ExpressionAgrees(env, h, l, w);
      ExpressionAgrees(env, h, r, MeanExpression(env, h, l, w).w);
    case ExprCompare(l, op, r) =>
      CompareRecord(env, op, BuildExpression(l, h), BuildExpression(r, h), w);
      ExpressionAgrees(env, h, l, w);
      ExpressionAgrees(env, h, r, MeanExpression(env, h, l, w).w);
  }

  lemma ConditionAgrees(env: Env, h: Header, e: PExpression, w: World)
    requires AcceptedExpression(e)
    ensures Condition(env, Some(BuildExpression(e, h)), w) == MeanCondition(env, h, e, w)
  {
    hide EvalExpression, MeanExpression;
    ExpressionAgrees(env, h, e, w);
  }

  // ---------- Assignments ----------

  lemma SourceAgrees(env: Env, h: Header, a: PAssignment, w: World)
    requires AcceptedAssignment(a)
    ensures EvalSource(env, BuildAssignment(a, h), w) == MeanSource(env, h, a.source, w)
  {
    hide EvalMath, EvalExpression, MeanMath, MeanExpression;
    match a.source
    case SourceMath(m) => MathAgrees(env, h, m, w);
    case SourceExpression(e) => ExpressionAgrees(env, h, e, w);
  }

  lemma UpdateAgrees(env: Env, h: Header, a: PAssignment, v: Value, w: World)
    requires AcceptedAssignment(a)
    ensures var b := BuildAssignment(a, h);
            var current := CurrentValue(env, b, w);
            MeanUpdate(env, a.op, a.target, v, w) ==
            if Plain(b.assignOperator) then Got(v)
            else if current.Lost? then current
            else CompoundValue(env, b.assignOperator, current.v, v, w.heap)
  {
    hide GetValue, Arithmetic, ReadMapVar, MeanElement;
    if a.target.TargetMapVar? {
      ElementAgrees(env, a.target.mapVar, w);
    }
  }

  lemma StoreAgrees(env: Env, h: Header, a: PAssignment, v: Value, w: World)
    requires AcceptedAssignment(a)
    ensures Store(env, BuildAssignment(a, h), v, w) == MeanStore(env, a.target, v, w)
  {
    hide GetValue, SetValue, WriteAt, KeyOf, MeanKey;
    if a.target.TargetMapVar? {
      KeyAgrees(env, a.target.mapVar, w);
    }
  }

  lemma AssignmentAgrees(env: Env, h: Header, a: PAssignment, w: World)
    requires AcceptedAssignment(a)
    ensures var e := EvalAssignment(env, BuildAssignment(a, h), w);
            MeanAssignment(env, h, a, w) == (e.w, e.r.Got?) && (e.r == Got(Nil) || e.r == Lost(Failed))
  {
    hide EvalSource, MeanSource, CurrentValue, MeanUpdate, CompoundValue, Store, MeanStore;
    var source := MeanSource(env, h, a.source, w);
    SourceAgrees(env, h, a, w);
    if source.r.Got? {
      UpdateAgrees(env, h, a, source.r.v, source.w);
      var v := MeanUpdate(env, a.op, a.target, source.r.v, source.w);
      if v.Got? {
        StoreAgrees(env, h, a, v.v, source.w);
      }
    }
  }

  // ---------- Statements ----------

  /** How the engine's three results encode a flow. */
  ghost predicate Encodes(t: Triple, f: Flow) {
    && t.w == f.w
    && match f.o
       case Normal => t.err == NoError && !t.flag
       case Return(v) => t.err == NoError && t.flag && t.value == v
       case Break => t.err == BreakFlag
       case Continue => t.err == ContinueFlag
       case Error(fault, returning) => t.err == Raised(fault) && t.flag == returning
  }

  /** Inside a list of statements the flag of an error does not matter. */
  ghost predicate EncodesInList(t: Triple, f: Flow) {
    if f.o.Error? then t.w == f.w && t.err == Raised(f.o.f) else Encodes(t, f)
  }

  lemma StatementAgrees(env: Env, h: Header, t: PStatement, w: World)
    requires AcceptedStatement(t)
    ensures EncodesInList(EvalStatement(env, BuildStatement(t, h), w), MeanStatement(env, h, t, w))
    decreases t, 2, 0
  {
    hide EvalCall, EvalAssignment, EvalConc, EvalIf, EvalFor, EvalForRange, MeanCall, MeanAssignment, BuildConc;
    match t
    case StIf(_, _, _, _) => IfAgrees(env, h, t, w);
    case StCall(call) => CallAgrees(env, h, call, w);
    case StAssignment(a) => AssignmentAgrees(env, h, a, w);
    case StConc(tasks) =>
    case StFor(_, _, _, _) => ForAgrees(env, h, t, w);
    case StForRange(_, _, _) => ForRangeAgrees(env, h, t, w);
    case StBreak =>
    case StContinue =>
  }

  lemma IfAgrees(env: Env, h: Header, t: PStatement, w: World)
    requires AcceptedStatement(t) && t.StIf?
    ensures EncodesInList(EvalIf(env, BuildStatement(t, h).ifStmt.value, w), MeanStatement(env, h, t, w))
    decreases t, 1, 0
  {
    hide Condition, MeanCondition, EvalStatements, MeanStatements, EvalElseIfs, MeanElseIfs, BuildExpression,
         BuildStatements, BuildElseIfs, AcceptedExpression, AcceptedStatements, AcceptedElseIfs;
    ConditionAgrees(env, h, t.condition, w);
    var it := MeanCondition(env, h, t.condition, w);
    if it.r.Got? {
      if it.r.v == Bool(true) {
        StatementsAgree(env, h, t.body, it.w);
      } else {
        ElseIfsAgree(env, h, t, 0, it.w);
      }
    }
  }

  lemma {:induction false} ElseIfBuilt(list: seq<PElseIf>, h: Header, k: nat)
    requires k < |list| && AcceptedElseIfs(list)
    ensures BuildElseIfs(list, h)[k] == BuildElseIf(list[k], h) && AcceptedElseIf(list[k])
  {
    if k < |list| - 1 {
      ElseIfBuilt(list[..|list| - 1], h, k);
    }
  }

  lemma ElseIfsAgree(env: Env, h: Header, t: PStatement, k: nat, w: World)
    requires AcceptedStatement(t) && t.StIf? && k <= |t.elseIfs|
    ensures EncodesInList(EvalElseIfs(env, BuildStatement(t, h).ifStmt.value, k, w), MeanElseIfs(env, h, t, k, w))
    decreases t, 0, |t.elseIfs| - k
  {
    hide Condition, MeanCondition, EvalStatements, MeanStatements, BuildExpression, BuildStatements, BuildElseIfs,
         AcceptedExpression, AcceptedStatements, AcceptedElseIfs;
    if k == |t.elseIfs| {
      if t.otherwise.Some? {
        StatementsAgree(env, h, t.otherwise.value, w);
      }
    } else {
      var e := t.elseIfs[k];
      ElseIfBuilt(t.elseIfs, h, k);
      ConditionAgrees(env, h, e.condition, w);
      var it := MeanCondition(env, h, e.condition, w);
      if it.r.Got? {
        if it.r.v == Bool(true) {
          StatementsAgree(env, h, e.body, it.w);
        } else {
          ElseIfsAgree(env, h, t, k + 1, it.w);
        }
      }
    }
  }

  lemma ForAgrees(env: Env, h: Header, t: PStatement, w: World)
    requires AcceptedStatement(t) && t.StFor?
    ensures EncodesInList(EvalFor(env, BuildStatement(t, h).forStmt.value, w), Ended(MeanFor(env, h, t, w)))
    decreases t, 1, 0
  {
    hide EvalAssignment, MeanAssignment, ForLoop, MeanForFrom, AcceptedAssignment, BuildAssignment,
         BuildExpression, BuildStatements;
    AssignmentAgrees(env, h, t.init, w);
    var init := MeanAssignment(env, h, t.init, w);
    if init.1 {
      ForLoopAgrees(env, h, t, 0, init.0);
    }
  }

  lemma ForLoopAgrees(env: Env, h: Header, t: PStatement, count: nat, w: World)
    requires AcceptedStatement(t) && t.StFor? && count <= MAX_EXECUTE_NUM
    ensures EncodesInList(ForLoop(env, BuildStatement(t, h).forStmt.value, count, w), Ended(MeanForFrom(env, h, t, count, w)))
    decreases t, 0, MAX_EXECUTE_NUM - count
  {
    hide EvalAssignment, MeanAssignment, Condition, MeanCondition, EvalStatements, MeanStatements,
         AcceptedAssignment, AcceptedExpression, AcceptedStatements, BuildAssignment, BuildExpression,
         BuildStatements;
    if count < MAX_EXECUTE_NUM {
      ConditionAgrees(env, h, t.condition, w);
      var it := MeanCondition(env, h, t.condition, w);
      if it.r == Got(Bool(true)) {
        StatementsAgree(env, h, t.body, it.w);
        var body := MeanStatements(env, h, t.body, it.w);
        if body.o == Normal || body.o == Continue {
          AssignmentAgrees(env, h, t.update, body.w);
          var update := MeanAssignment(env, h, t.update, body.w);
          if update.1 {
            ForLoopAgrees(env, h, t, count + 1, update.0);
          }
        }
      }
    }
  }

  lemma ForRangeAgrees(env: Env, h: Header, t: PStatement, w: World)
    requires AcceptedStatement(t) && t.StForRange?
    ensures EncodesInList(EvalForRange(env, BuildStatement(t, h).forRangeStmt.value, w), Ended(MeanForRange(env, h, t, w)))
    decreases t, 1, 0
  {
    hide GetValue, RangeKeys, BuildStatements, AcceptedStatements, ForRangeLoop, MeanForRangeFrom;
    var v := GetValue(env, t.name, w);
    if v.Got? {
      var keys := RangeKeys(env, v.v, w);
      if keys.Iterable? {
        ForRangeLoopAgrees(env, h, t, keys.keys, 0, Tick(w));
      }
    }
  }

  lemma ForRangeLoopAgrees(env: Env, h: Header, t: PStatement, keys: seq<Value>, cur: nat, w: World)
    requires AcceptedStatement(t) && t.StForRange? && cur <= |keys|
    ensures EncodesInList(ForRangeLoop(env, BuildStatement(t, h).forRangeStmt.value, keys, cur, w),
                          Ended(MeanForRangeFrom(env, h, t, keys, cur, w)))
    decreases t, 0, |keys| - cur
  {
    hide SetValue, EvalStatements, MeanStatements, BuildStatements, AcceptedStatements;
    if cur < |keys| && cur < MAX_EXECUTE_NUM {
      var stored := SetValue(env, t.key, keys[cur], w);
      if stored.r.Got? {
        StatementsAgree(env, h, t.body, stored.w);
        var body := MeanStatements(env, h, t.body, stored.w);
        if body.o == Normal || body.o == Continue {
          ForRangeLoopAgrees(env, h, t, keys, cur + 1, body.w);
        }
      }
    }
  }

  lemma {:induction false} ListAgrees(env: Env, h: Header, list: seq<PStatement>, w: World)
    requires AcceptedList(list)
    ensures EncodesInList(EvalList(env, BuildList(list, h), w), MeanList(env, h, list, w))
    decreases list, 0, 0
  {
    hide EvalStatement, MeanStatement, BuildStatement, AcceptedStatement;
    if list != [] {
      var front, last := list[..|list| - 1], list[|list| - 1];
      var built := BuildList(list, h);
      assert built[..|built| - 1] == BuildList(front, h) && built[|built| - 1] == BuildStatement(last, h);
      ListAgrees(env, h, front, w);
      var f := MeanList(env, h, front, w);
      if f.o == Normal {
        StatementAgrees(env, h, last, f.w);
      }
    }
  }

  lemma ReturnAgrees(env: Env, h: Header, r: PReturn, w: World)
    requires AcceptedReturn(r)
    ensures Encodes(EvalReturn(env, BuildReturn(r, h), w), MeanReturn(env, h, r, w))
  {
    hide EvalExpression, MeanExpression, BuildExpression, AcceptedExpression;
    if r.value.Some? {
      ExpressionAgrees(env, h, r.value.value, w);
    }
  }

  lemma StatementsAgree(env: Env, h: Header, t: PStatements, w: World)
    requires AcceptedStatements(t)
    ensures Encodes(EvalStatements(env, BuildStatements(t, h), w), MeanStatements(env, h, t, w))
    decreases t, 0, 0
  {
    hide EvalList, MeanList, EvalReturn, MeanReturn, BuildList, AcceptedList, BuildReturn, AcceptedReturn;
    ListAgrees(env, h, t.list, w);
    var f := MeanList(env, h, t.list, w);
    if f.o == Normal && t.ret.Some? {
      ReturnAgrees(env, h, t.ret.value, f.w);
    }
  }

  /**
   Executing the rule an accepted tree is built into ends, for every environment and from every
   world, as the tree means.
   */
  lemma RuleAgrees(env: Env, r: PRule, w: World)
    requires AcceptedRule(r)
    ensures Encodes(Execute(env, BuildRule(r), w), MeanRule(env, r, w))
  {
    hide HeaderOf, BuildStatements, EvalStatements, MeanStatements;
    StatementsAgree(env, HeaderOf(r), r.body, w.(vars := map[]));
  }

  /**
   From parse tree to execution: in a program the listener accepts, the rule registered under a tree's
   name executes as the tree means.
   */
  lemma ProgramAgrees(env: Env, rules: seq<PRule>, i: nat, w: World)
    requires AcceptedRules(rules) && i < |rules|
    ensures var registry := Run(PrimaryEvents(rules), START).rules;
            var name := HeaderOf(rules[i]).name;
            name in registry && Encodes(Execute(env, registry[name], w), MeanRule(env, rules[i], w))
  {
    hide Run, PrimaryEvents, AcceptedRule, HeaderOf, BuildRule, Execute, MeanRule, Encodes;
    ParseProgram(rules);
    RuleAgrees(env, rules[i], w);
  }

  // ---------- Conc blocks ----------

  function AsTasks(list: seq<PAssignment>): seq<PTask> {
    if list == [] then [] else AsTasks(list[..|list| - 1]) + [TaskAssignment(list[|list| - 1])]
  }

  function BuildAll(list: seq<PAssignment>, h: Header): (r: seq<Assignment>)
    ensures |r| == |list|
    ensures forall i | 0 <= i < |list| :: r[i] == BuildAssignment(list[i], h)
  {
    if list == [] then [] else BuildAll(list[..|list| - 1], h) + [BuildAssignment(list[|list| - 1], h)]
  }

  lemma {:induction false} BuiltConc(list: seq<PAssignment>, h: Header)
    ensures BuildConc(AsTasks(list), h) == ConcStatement(BuildAll(list, h), [], [], [])
  {
    hide BuildAssignment;
    if list != [] {
      var front := list[..|list| - 1];
      BuiltConc(front, h);
      assert AsTasks(list)[..|AsTasks(list)| - 1] == AsTasks(front);
    }
  }

  /** The assignments one after another, each whatever became of those before it. */
  function MeanSequence(env: Env, h: Header, list: seq<PAssignment>, w: World): World {
    if list == [] then w else MeanAssignment(env, h, list[|list| - 1], MeanSequence(env, h, list[..|list| - 1], w)).0
  }

  lemma {:induction false} SequenceAgrees(env: Env, h: Header, list: seq<PAssignment>, w: World)
    requires forall a <- list :: AcceptedAssignment(a)
    ensures InOrder(env, BuildAll(list, h), w) == MeanSequence(env, h, list, w)
  {
    hide EvalAssignment, MeanAssignment, BuildAssignment, AcceptedAssignment;
    if list != [] {
      var front := list[..|list| - 1];
      SequenceAgrees(env, h, front, w);
      AssignmentAgrees(env, h, list[|list| - 1], MeanSequence(env, h, front, w));
      assert BuildAll(list, h)[..|list| - 1] == BuildAll(front, h);
    }
  }

  /**
   A conc block of independent assignments means the sequence of them, for every schedule, and
   succeeds exactly when each of them would succeed at the start of the block.
   */
  lemma ConcMeansSequence(env: Env, h: Header, list: seq<PAssignment>, w: World)
    requires (forall a <- list :: AcceptedAssignment(a)) && Independent(env, BuildAll(list, h))
    ensures var f := MeanStatement(env, h, StConc(AsTasks(list)), w);
            var serial := MeanSequence(env, h, list, w);
            && f.w.vars == serial.vars && f.w.heap == serial.heap && f.w.host == serial.host
            && (f.o == Normal <==> forall a <- list :: MeanAssignment(env, h, a, w).1)
  {
    hide EvalAssignment, MeanAssignment, BuildAssignment, AcceptedAssignment, Independent, InOrder, MeanSequence,
         Join, Fork, ConcCodes;
    var built := BuildAll(list, h);
    var c := ConcStatement(built, [], [], []);
    BuiltConc(list, h);
    ConcIsSequential(env, built, w);
    SequenceAgrees(env, h, list, w);
    OneErrorPerFailure(env, c, w);
    var end := Join(env, Fork(ConcCodes(c), w));
    forall i | 0 <= i < |list| ensures end.tasks[i].failed <==> !MeanAssignment(env, h, list[i], w).1 {
      AssignmentAgrees(env, h, list[i], w);
      assert multiset(end.errors)[i] == if end.tasks[i].failed then 1 else 0;
      assert i in end.errors <==> i in multiset(end.errors);
      assert i in end.errors <==> EvalAssignment(env, built[i], w).r.Lost?;
    }
    if a :| a in list && !MeanAssignment(env, h, a, w).1 {
      var i :| 0 <= i < |list| && list[i] == a;
      assert end.tasks[i].failed;
    }
  }
}
