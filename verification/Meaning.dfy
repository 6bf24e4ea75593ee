/**
 The meaning of the rule language, given directly on parse trees: expressions have values, and
 statements end normally or by return, break, continue or an error. No syntax records, sentinel
 errors or flags are involved.
 */
module Meaning {
  import opened Values
  import opened Text
  import opened ParseTree
  import opened FrontEnd
  import opened Runtime
  import opened Evaluator
  import opened Interleaving
  import opened Execution

  // ---------- Expressions ----------

  function MeanKey(env: Env, key: PKey, w: World): KeyResult {
    match key
    case KeyInt(i) => Keyed(FromInteger(Number(i)))
    case KeyString(text) => Keyed(FromString(Trim(text, '\"')))
    case KeyVariable(name) =>
      match GetValue(env, name, w)
      case Got(v) => Keyed(FromVariable(v))
      case Lost(f) => Unkeyed(f)
  }

  function MeanElement(env: Env, m: PMapVar, w: World): Result {
    match GetValue(env, m.name, w)
    case Lost(f) => Lost(f)
    case Got(holder) =>
      if !Indexable(holder, w.heap) then Lost(Failed)
      else
        match MeanKey(env, m.key, w)
        case Unkeyed(f) => Lost(f)
        case Keyed(k) => ReadAt(env, holder, k, w.heap)
  }

  function MeanAtom(env: Env, h: Header, a: PAtom, w: World): Eval
    decreases a
  {
    match a
    case AtomCall(call) => MeanCall(env, h, call, w)
    case AtomConstant(k) => Eval(w, Got(ConstantValue(k, h)))
    case AtomMapVar(m) => Eval(w, MeanElement(env, m, w))
    case AtomVariable(name) => Eval(w, GetValue(env, name, w))
  }

  function MeanCall(env: Env, h: Header, call: PCall, w: World): Eval
    decreases call
  {
    match call.args
    case None => Invoke(env, call.kind, call.name, [], w)
    case Some(args) =>
      var vs := MeanArgs(env, h, args.list, w);
      if vs.fault.Some? then Eval(vs.w, Lost(Failed)) else Invoke(env, call.kind, call.name, vs.vs, vs.w)
  }

  function MeanArgs(env: Env, h: Header, list: seq<PArg>, w: World): Many
    decreases list, 0
  {
    if list == [] then Many(w, [], None)
    else
      var front := MeanArgs(env, h, list[..|list| - 1], w);
      if front.fault.Some? then front
      else
        var last := MeanArg(env, h, list[|list| - 1], front.w);
        match last.r
        case Got(v) => Many(last.w, front.vs + [v], None)
        case Lost(f) => Many(last.w, front.vs, Some(f))
  }

  function MeanArg(env: Env, h: Header, a: PArg, w: World): Eval
    decreases a
  {
    match a
    case ArgConstant(k) => Eval(w, Got(ConstantValue(k, h)))
    case ArgVariable(name) => Eval(w, GetValue(env, name, w))
    case ArgCall(call) => MeanCall(env, h, call, w)
    case ArgMapVar(m) => Eval(w, MeanElement(env, m, w))
    case ArgExpression(e) => MeanExpression(env, h, e, w)
  }

  function MeanMath(env: Env, h: Header, m: PMath, w: World): Eval
    decreases m
  {
    match m
    case MathAtom(a) => MeanAtom(env, h, a, w)
    case MathBracket(n) => MeanMath(env, h, n, w)
    case MathBinary(l, op, r) =>
      var a := MeanMath(env, h, l, w);
      if a.r.Lost? then a
      else
        var b := MeanMath(env, h, r, a.w);
        if b.r.Lost? then b else Eval(b.w, Arithmetic(env, MathText(op), Content(a.r.v, b.w.heap), Content(b.r.v, b.w.heap)))
  }

  /** An expression without a value is an error. */
  function Defined(e: Eval): Eval {
    if e.r == Got(Nil) then Eval(e.w, Lost(Failed)) else e
  }

  function Negated(negated: bool, e: Eval): Eval {
    if negated && e.r.Got? then Eval(e.w, Negation(Content(e.r.v, e.w.heap))) else e
  }

  /** Both operands of && and || are always evaluated, left first. */
  function MeanExpression(env: Env, h: Header, e: PExpression, w: World): Eval
    decreases e
  {
    match e
    case ExprMath(m) => Defined(MeanMath(env, h, m, w))
    case ExprAtom(negated, a) => Negated(negated, Defined(MeanAtom(env, h, a, w)))
    case ExprBracket(negated, n) => Negated(negated, MeanExpression(env, h, n, w))
    case ExprLogic(l, op, r) =>
      var a := MeanExpression(env, h, l, w);
      if a.r.Lost? then a
      else
        var b := MeanExpression(env, h, r, a.w);
        if b.r.Lost? then b else Eval(b.w, Logical(LogicText(op), Content(a.r.v, b.w.heap), Content(b.r.v, b.w.heap)))
    case ExprCompare(l, op, r) =>
      var a := MeanExpression(env, h, l, w);
      if a.r.Lost? then a
      else
        var b := MeanExpression(env, h, r, a.w);
        if b.r.Lost? then b else Defined(Eval(b.w, Compare(env, ComparisonText(op), Content(a.r.v, b.w.heap), Content(b.r.v, b.w.heap))))
  }

  // ---------- Assignments ----------

  function MeanSource(env: Env, h: Header, s: PSource, w: World): Eval {
    match s
    case SourceMath(m) => MeanMath(env, h, m, w)
    case SourceExpression(e) => MeanExpression(env, h, e, w)
  }

  function MeanTarget(env: Env, t: PTarget, w: World): Result {
    match t
    case TargetVariable(name) => GetValue(env, name, w)
    case TargetMapVar(m) => MeanElement(env, m, w)
  }

  /** The operator a compound assignment applies. */
  function Underlying(op: AssignOperator): MathOperator {
    if op == PlusEqual then Plus else if op == MinusEqual then Minus else if op == TimesEqual then Times else Over
  }

  /** The new value, for a compound operator from the old one. */
  function MeanUpdate(env: Env, op: AssignOperator, t: PTarget, v: Value, w: World): Result {
    if op == Assign || op == Set then Got(v)
    else
      var current := MeanTarget(env, t, w);
      if current.Lost? then current else Arithmetic(env, MathText(Underlying(op)), Content(current.v, w.heap), Content(v, w.heap))
  }

  function MeanStore(env: Env, t: PTarget, v: Value, w: World): Eval {
    match t
    case TargetVariable(name) => SetValue(env, name, v, w)
    case TargetMapVar(m) =>
      match GetValue(env, m.name, w)
      case Lost(f) => Eval(w, Lost(f))
      case Got(holder) =>
        if !Indexable(holder, w.heap) then Eval(w, Lost(Panicked))
        else
          match MeanKey(env, m.key, w)
          case Unkeyed(f) => Eval(w, Lost(f))
          case Keyed(k) => WriteAt(env, holder, k, v, w)
  }

  /** The world after an assignment, and whether it succeeded. */
  function MeanAssignment(env: Env, h: Header, a: PAssignment, w: World): (World, bool) {
    var source := MeanSource(env, h, a.source, w);
    if source.r.Lost? then (source.w, false)
    else
      var v := MeanUpdate(env, a.op, a.target, source.r.v, source.w);
      if v.Lost? then (source.w, false)
      else
        var stored := MeanStore(env, a.target, v.v, source.w);
        (stored.w, stored.r.Got?)
  }

  // ---------- Statements ----------

  /** `returning` tells an error in the expression of a return statement from any other. */
  datatype Outcome = Normal | Return(v: Value) | Break | Continue | Error(f: Fault, returning: bool)

  datatype Flow = Flow(w: World, o: Outcome)

  /**
   How a loop ended: the runs of its body that were started, and whether a break ended it. The
   outcome is that of the whole loop statement.
   */
  datatype LoopEnd = LoopEnd(w: World, o: Outcome, runs: nat, broke: bool)

  function Ended(e: LoopEnd): Flow {
    Flow(e.w, e.o)
  }

  function MeanCondition(env: Env, h: Header, e: PExpression, w: World): Eval {
    var it := MeanExpression(env, h, e, w);
    Eval(it.w, Truth(it.r, it.w.heap))
  }

  function MeanStatement(env: Env, h: Header, t: PStatement, w: World): Flow
    decreases t, 1, 0
  {
    match t
    case StIf(condition, body, elseIfs, otherwise) =>
      var it := MeanCondition(env, h, condition, w);
      if it.r.Lost? then Flow(it.w, Error(it.r.f, false))
      else if it.r.v == Bool(true) then MeanStatements(env, h, body, it.w)
      else MeanElseIfs(env, h, t, 0, it.w)
    case StCall(call) =>
      var e := MeanCall(env, h, call, w);
      Flow(e.w, if e.r.Got? then Normal else Error(e.r.f, false))
    case StAssignment(a) =>
      var e := MeanAssignment(env, h, a, w);
      Flow(e.0, if e.1 then Normal else Error(Failed, false))
    case StConc(tasks) =>
      var e := EvalConc(env, BuildConc(tasks, h), w);
      Flow(e.w, if e.r.Got? then Normal else Error(e.r.f, false))
    case StFor(_, _, _, _) => Ended(MeanFor(env, h, t, w))
    case StForRange(_, _, _) => Ended(MeanForRange(env, h, t, w))
    case StBreak => Flow(w, Break)
    case StContinue => Flow(w, Continue)
  }

  function MeanElseIfs(env: Env, h: Header, t: PStatement, k: nat, w: World): Flow
    requires t.StIf? && k <= |t.elseIfs|
    decreases t, 0, |t.elseIfs| - k
  {
    if k == |t.elseIfs| then
      match t.otherwise
      case None => Flow(w, Normal)
      case Some(body) => MeanStatements(env, h, body, w)
    else
      var it := MeanCondition(env, h, t.elseIfs[k].condition, w);
      if it.r.Lost? then Flow(it.w, Error(it.r.f, false))
      else if it.r.v == Bool(true) then MeanStatements(env, h, t.elseIfs[k].body, it.w)
      else MeanElseIfs(env, h, t, k + 1, it.w)
  }

  function MeanFor(env: Env, h: Header, t: PStatement, w: World): LoopEnd
    requires t.StFor?
    decreases t, 0, MAX_EXECUTE_NUM + 1
  {
    var init := MeanAssignment(env, h, t.init, w);
    if init.1 then MeanForFrom(env, h, t, 0, init.0) else LoopEnd(init.0, Error(Failed, false), 0, false)
  }

  /** The loop after `count` runs of its body: too many are an error, even before the next condition. */
  function MeanForFrom(env: Env, h: Header, t: PStatement, count: nat, w: World): LoopEnd
    requires t.StFor? && count <= MAX_EXECUTE_NUM
    decreases t, 0, MAX_EXECUTE_NUM - count
  {
    if count == MAX_EXECUTE_NUM then LoopEnd(w, Error(Failed, false), count, false)
    else
      var it := MeanCondition(env, h, t.condition, w);
      if it.r.Lost? then LoopEnd(it.w, Error(it.r.f, false), count, false)
      else if it.r.v != Bool(true) then LoopEnd(it.w, Normal, count, false)
      else
        var body := MeanStatements(env, h, t.body, it.w);
        match body.o
        case Error(f, _) => LoopEnd(body.w, Error(f, false), count + 1, false)
        case Break => LoopEnd(body.w, Normal, count + 1, true)
        case Return(v) => LoopEnd(body.w, Return(v), count + 1, false)
        case _ =>
          var update := MeanAssignment(env, h, t.update, body.w);
          if update.1 then MeanForFrom(env, h, t, count + 1, update.0)
          else LoopEnd(update.0, Error(Failed, false), count + 1, false)
  }

  function MeanForRange(env: Env, h: Header, t: PStatement, w: World): LoopEnd
    requires t.StForRange?
    decreases t, 0, 1, 0
  {
    match GetValue(env, t.name, w)
    case Lost(f) => LoopEnd(w, Error(f, false), 0, false)
    case Got(v) =>
      match RangeKeys(env, v, w)
      case NotIterable(f) => LoopEnd(w, Error(f, false), 0, false)
      case Iterable(keys) => MeanForRangeFrom(env, h, t, keys, 0, Tick(w))
  }

  function MeanForRangeFrom(env: Env, h: Header, t: PStatement, keys: seq<Value>, cur: nat, w: World): LoopEnd
    requires t.StForRange? && cur <= |keys|
    decreases t, 0, 0, |keys| - cur
  {
    if cur == |keys| then LoopEnd(w, Normal, cur, false)
    else if cur >= MAX_EXECUTE_NUM then LoopEnd(w, Error(Failed, false), cur, false)
    else
      var stored := SetValue(env, t.key, keys[cur], w);
      if stored.r.Lost? then LoopEnd(stored.w, Error(stored.r.f, false), cur, false)
      else
        var body := MeanStatements(env, h, t.body, stored.w);
        match body.o
        case Error(f, _) => LoopEnd(body.w, Error(f, false), cur + 1, false)
        case Break => LoopEnd(body.w, Normal, cur + 1, true)
        case Return(v) => LoopEnd(body.w, Return(v), cur + 1, false)
        case _ => MeanForRangeFrom(env, h, t, keys, cur + 1, body.w)
  }

  function MeanList(env: Env, h: Header, list: seq<PStatement>, w: World): Flow
    decreases list, 0
  {
    if list == [] then Flow(w, Normal)
    else
      var front := MeanList(env, h, list[..|list| - 1], w);
      if front.o != Normal then front else MeanStatement(env, h, list[|list| - 1], front.w)
  }

  function MeanReturn(env: Env, h: Header, r: PReturn, w: World): Flow {
    match r.value
    case None => Flow(w, Return(Nil))
    case Some(e) =>
      var v := MeanExpression(env, h, e, w);
      Flow(v.w, match v.r case Got(x) => Return(x) case Lost(f) => Error(f, true))
  }

  function MeanStatements(env: Env, h: Header, t: PStatements, w: World): Flow
    decreases t
  {
    var list := MeanList(env, h, t.list, w);
    match list.o
    case Error(f, _) => Flow(list.w, Error(f, false))
    case Normal => if t.ret == None then list else MeanReturn(env, h, t.ret.value, list.w)
    case _ => list
  }

  /** What is handed out of a rule is looked into: no reference leaves it. */
  function HandedOut(f: Flow): Flow {
    if f.o.Return? then Flow(f.w, Return(Content(f.o.v, f.w.heap))) else f
  }

  /** A rule runs on variables of its own. */
  function MeanRule(env: Env, r: PRule, w: World): Flow {
    HandedOut(MeanStatements(env, HeaderOf(r), r.body, w.(vars := map[])))
  }
}
