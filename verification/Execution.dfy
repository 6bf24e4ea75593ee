/**
 Execution of statements, in the shape the engine's `Evaluate` methods return it: a value, an error
 and a flag. Break and continue travel as two sentinel errors, return as the flag. A panic is
 carried as an error too; nothing on its way up tells it from one, except where it is recovered.
 */
module Execution {
  import opened Values
  import opened Ast
  import opened ParseTree
  import opened Runtime
  import opened Evaluator
  import opened Interleaving

  /** The error result: none, one of the two sentinels, or a real fault. */
  datatype Err = NoError | BreakFlag | ContinueFlag | Raised(f: Fault)

  datatype Triple = Triple(w: World, value: Value, err: Err, flag: bool)

  /** The bound on loop iterations. */
  const MAX_EXECUTE_NUM: nat := 10000

  function Raise(w: World, f: Fault): Triple {
    Triple(w, Nil, Raised(f), false)
  }

  function Finished(w: World): Triple {
    Triple(w, Nil, NoError, false)
  }

  /** The result of a statement that is a call, an assignment or a conc block. */
  function Simple(e: Eval): Triple {
    match e.r
    case Got(v) => Triple(e.w, v, NoError, false)
    case Lost(f) => Raise(e.w, f)
  }

  /** A condition: its truth value, or a panic if it is no boolean. */
  function Condition(env: Env, e: Option<Expression>, w: World): Eval {
    if e == None then Eval(w, Lost(Panicked))
    else
      var it := EvalExpression(env, e.value, w);
      Eval(it.w, Truth(it.r, it.w.heap))
  }

  function EvalReturn(env: Env, r: ReturnStatement, w: World): Triple {
    if r.expression == None then Triple(w, Nil, NoError, true)
    else Simple(EvalExpression(env, r.expression.value, w)).(flag := true)
  }

  /** Statements in order; the first error stops them, and so does a return inside one. */
  function EvalStatements(env: Env, s: Statements, w: World): Triple
    decreases s
  {
    var t := EvalList(env, s.list, w);
    if t.err != NoError then Triple(t.w, Nil, t.err, false)
    else if t.flag then t
    else if s.ret == None then Finished(t.w)
    else EvalReturn(env, s.ret.value, t.w)
  }

  function EvalList(env: Env, list: seq<Statement>, w: World): Triple
    decreases list, 0
  {
    if list == [] then Finished(w)
    else
      var front := EvalList(env, list[..|list| - 1], w);
      if front.err != NoError || front.flag then front else EvalStatement(env, list[|list| - 1], front.w)
  }

  function EvalStatement(env: Env, s: Statement, w: World): Triple
    decreases s
  {
    if s.ifStmt.Some? then EvalIf(env, s.ifStmt.value, w)
    else if s.methodCall.Some? then Simple(EvalCall(env, Method, s.methodCall.value, w))
    else if s.functionCall.Some? then Simple(EvalCall(env, Function, s.functionCall.value, w))
    else if s.assignment.Some? then Simple(EvalAssignment(env, s.assignment.value, w))
    else if s.concStatement.Some? then Simple(EvalConc(env, s.concStatement.value, w))
    else if s.threeLevelCall.Some? then Simple(EvalCall(env, ThreeLevel, s.threeLevelCall.value, w))
    else if s.forStmt.Some? then EvalFor(env, s.forStmt.value, w)
    else if s.forRangeStmt.Some? then EvalForRange(env, s.forRangeStmt.value, w)
    else if s.isBreak then Triple(w, Nil, BreakFlag, true)
    else if s.isContinue then Triple(w, Nil, ContinueFlag, true)
    else Raise(w, Failed)
  }

  // ---------- Conditionals ----------

  function EvalBlock(env: Env, s: Option<Statements>, w: World): Triple
    decreases s
  {
    if s == None then Finished(w) else EvalStatements(env, s.value, w)
  }

  function EvalIf(env: Env, i: IfStmt, w: World): Triple
    decreases i, |i.elseIfs| + 1
  {
    var it := Condition(env, i.expression, w);
    match it.r
    case Lost(f) => Raise(it.w, f)
    case Got(v) => if v == Bool(true) then EvalBlock(env, i.statements, it.w) else EvalElseIfs(env, i, 0, it.w)
  }

  /** The else-if chain from position k on: the first condition that holds decides, else the else branch. */
  function EvalElseIfs(env: Env, i: IfStmt, k: nat, w: World): Triple
    requires k <= |i.elseIfs|
    decreases i, |i.elseIfs| - k
  {
    if k == |i.elseIfs| then
      if i.elseStmt == None then Finished(w) else EvalBlock(env, i.elseStmt.value.statements, w)
    else
      var elseIf := i.elseIfs[k];
      var it := Condition(env, elseIf.expression, w);
      match it.r
      case Lost(f) => Raise(it.w, f)
      case Got(v) =>
        if v != Bool(true) then EvalElseIfs(env, i, k + 1, it.w)
        else if elseIf.statements == None then Raise(it.w, Panicked)
        else EvalStatements(env, elseIf.statements.value, it.w)
  }

  // ---------- Loops ----------

  function EvalFor(env: Env, f: ForStmt, w: World): Triple
    decreases f, 1, 0
  {
    if |f.assignments| < 2 then Raise(w, Failed)
    else
      var init := EvalAssignment(env, f.assignments[0], w);
      match init.r
      case Lost(fault) => Raise(init.w, fault)
      case Got(_) => ForLoop(env, f, 0, init.w)
  }

  /** The loop after `count` iterations. */
  function ForLoop(env: Env, f: ForStmt, count: nat, w: World): Triple
    requires |f.assignments| >= 2 && count <= MAX_EXECUTE_NUM
    decreases f, 0, MAX_EXECUTE_NUM - count
  {
    if count == MAX_EXECUTE_NUM then Raise(w, Failed)
    else
      var it := Condition(env, f.expression, w);
      match it.r
      case Lost(fault) => Raise(it.w, fault)
      case Got(v) =>
        if v != Bool(true) || f.statements == None then Finished(it.w)
        else
          var body := EvalStatements(env, f.statements.value, it.w);
          if body.err.Raised? then Raise(body.w, body.err.f)
          else if body.err == BreakFlag then Finished(body.w)
          else if body.err == NoError && body.flag then body
          else
            var update := EvalAssignment(env, f.assignments[1], body.w);
            match update.r
            case Lost(fault) => Raise(update.w, fault)
            case Got(_) => ForLoop(env, f, count + 1, update.w)
  }

  /** The keys an iterator fixes when it is made, or a fault. */
  datatype Iterable = Iterable(keys: seq<Value>) | NotIterable(f: Fault)

  /** Only maps and slices themselves are iterable, not pointers to them. */
  function RangeKeys(env: Env, v: Value, w: World): Iterable {
    var c := Content(v, w.heap);
    if c == Nil then NotIterable(Panicked)
    else if !Indexable(v, w.heap) || c.pointer then NotIterable(Failed)
    else
      match w.heap[c.addr]
      case SliceObject(_, _, _, length, _) => Iterable(Indexes(length))
      case MapObject(_, _, entries, _) => Iterable(env.keyOrder(entries, w.ticks))
  }

  function Indexes(n: nat): seq<Value> {
    seq(n, i => Int(Signed, i))
  }

  function Tick(w: World): World {
    w.(ticks := w.ticks + 1)
  }

  function EvalForRange(env: Env, f: ForRangeStmt, w: World): Triple
    decreases f, 1, 0
  {
    match GetValue(env, f.name, w)
    case Lost(fault) => Raise(w, fault)
    case Got(v) =>
      match RangeKeys(env, v, w)
      case NotIterable(fault) => Raise(w, fault)
      case Iterable(keys) => ForRangeLoop(env, f, keys, 0, Tick(w))
  }

  /** The loop after the first `cur` keys. */
  function ForRangeLoop(env: Env, f: ForRangeStmt, keys: seq<Value>, cur: nat, w: World): Triple
    requires cur <= |keys|
    decreases f, 0, |keys| - cur
  {
    if cur == |keys| then Finished(w)
    else if cur + 1 > MAX_EXECUTE_NUM then Raise(w, Failed)
    else
      var stored := SetValue(env, f.keyName, keys[cur], w);
      match stored.r
      case Lost(fault) => Raise(stored.w, fault)
      case Got(_) =>
        if f.statements == None then Finished(stored.w)
        else
          var body := EvalStatements(env, f.statements.value, stored.w);
          if body.err.Raised? then Raise(body.w, body.err.f)
          else if body.err == BreakFlag then Finished(body.w)
          else if body.err == NoError && body.flag then body
          else ForRangeLoop(env, f, keys, cur + 1, body.w)
  }

  // ---------- Rules ----------

  /** A rule runs on variables of its own; its value is looked into when it is handed out. */
  function Execute(env: Env, r: RuleEntity, w: World): Triple {
    var own := w.(vars := map[]);
    if r.ruleContent == None || r.ruleContent.value.statements == None then Raise(own, Panicked)
    else
      var t := EvalStatements(env, r.ruleContent.value.statements.value, own);
      t.(value := Content(t.value, t.w.heap))
  }
}
