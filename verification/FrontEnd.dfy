/**
 What a tree walk should leave behind: `Build...` describes the syntax record of each production and
 `Accepted...` the trees the listener takes without an error.
 */
module FrontEnd {
  import opened Values
  import opened Ast
  import opened Text
  import opened ParseTree
  import opened RuleOrder
  import opened Listener

  /** What the @-constants refer to. */
  datatype Header = Header(name: string, description: string, salience: int)

  // ---------- Trees the listener accepts ----------

  predicate InRange(i: PInteger) {
    ParseInt(IntegerText(i)).Some?
  }

  predicate AcceptedConstant(k: PConstant) {
    match k
    case PBool(word) => ParseBool(word).Some?
    case PInt(i) => InRange(i)
    case PReal(float) => float.Some?
    case _ => true
  }

  predicate AcceptedMapVar(m: PMapVar) {
    match m.key
    case KeyInt(i) => InRange(i)
    case KeyString(text) => Trim(text, '\"') != ""
    case KeyVariable(_) => true
  }

  predicate AcceptedCall(call: PCall)
    decreases call
  {
    call.args.Some? ==> AcceptedArgs(call.args.value.list)
  }

  predicate AcceptedArgs(args: seq<PArg>)
    decreases args, 0
  {
    args == [] || (AcceptedArgs(args[..|args| - 1]) && AcceptedArg(args[|args| - 1]))
  }

  predicate AcceptedArg(a: PArg)
    decreases a
  {
    match a
    case ArgConstant(k) => AcceptedConstant(k)
    case ArgVariable(_) => true
    case ArgCall(call) => AcceptedCall(call)
    case ArgMapVar(m) => AcceptedMapVar(m)
    case ArgExpression(e) => AcceptedExpression(e)
  }

  predicate AcceptedAtom(a: PAtom)
    decreases a
  {
    match a
    case AtomCall(call) => AcceptedCall(call)
    case AtomConstant(k) => AcceptedConstant(k)
    case AtomMapVar(m) => AcceptedMapVar(m)
    case AtomVariable(_) => true
  }

  predicate AcceptedMath(m: PMath)
    decreases m
  {
    match m
    case MathBinary(l, _, r) => AcceptedMath(l) && AcceptedMath(r)
    case MathAtom(a) => AcceptedAtom(a)
    case MathBracket(n) => AcceptedMath(n)
  }

  predicate AcceptedExpression(e: PExpression)
    decreases e
  {
    match e
    case ExprMath(m) => AcceptedMath(m)
    case ExprCompare(l, _, r) => AcceptedExpression(l) && AcceptedExpression(r)
    case ExprLogic(l, _, r) => AcceptedExpression(l) && AcceptedExpression(r)
    case ExprAtom(_, a) => AcceptedAtom(a)
    case ExprBracket(_, n) => AcceptedExpression(n)
  }

  predicate AcceptedAssignment(a: PAssignment) {
    && (a.target.TargetMapVar? ==> AcceptedMapVar(a.target.mapVar))
    && (match a.source
        case SourceMath(m) => AcceptedMath(m)
        case SourceExpression(e) => AcceptedExpression(e))
  }

  predicate AcceptedTask(t: PTask) {
    match t
    case TaskCall(call) => AcceptedCall(call)
    case TaskAssignment(a) => AcceptedAssignment(a)
  }

  predicate AcceptedTasks(tasks: seq<PTask>) {
    tasks == [] || (AcceptedTasks(tasks[..|tasks| - 1]) && AcceptedTask(tasks[|tasks| - 1]))
  }

  predicate AcceptedStatement(t: PStatement)
    decreases t
  {
    match t
    case StIf(condition, body, elseIfs, otherwise) =>
      && AcceptedExpression(condition) && AcceptedStatements(body) && AcceptedElseIfs(elseIfs)
      && (otherwise.Some? ==> AcceptedStatements(otherwise.value))
    case StCall(call) => AcceptedCall(call)
    case StAssignment(a) => AcceptedAssignment(a)
    case StConc(tasks) => AcceptedTasks(tasks)
    case StFor(init, condition, update, body) =>
      AcceptedAssignment(init) && AcceptedExpression(condition) && AcceptedAssignment(update) && AcceptedStatements(body)
    case StForRange(_, _, body) => AcceptedStatements(body)
    case StBreak => true
    case StContinue => true
  }

  predicate AcceptedElseIf(e: PElseIf)
    decreases e
  {
    AcceptedExpression(e.condition) && AcceptedStatements(e.body)
  }

  predicate AcceptedElseIfs(list: seq<PElseIf>)
    decreases list, 0
  {
    list == [] || (AcceptedElseIfs(list[..|list| - 1]) && AcceptedElseIf(list[|list| - 1]))
  }

  predicate AcceptedReturn(r: PReturn) {
    r.value.Some? ==> AcceptedExpression(r.value.value)
  }

  predicate AcceptedList(list: seq<PStatement>)
    decreases list, 0
  {
    list == [] || (AcceptedList(list[..|list| - 1]) && AcceptedStatement(list[|list| - 1]))
  }

  predicate AcceptedStatements(t: PStatements)
    decreases t
  {
    AcceptedList(t.list) && (t.ret.Some? ==> AcceptedReturn(t.ret.value))
  }

  predicate AcceptedRule(r: PRule) {
    && Trim(r.name, '\"') != ""
    && (r.salience.Some? ==> InRange(r.salience.value.i))
    && AcceptedStatements(r.body)
  }

  // ---------- The records ----------

  function Number(i: PInteger): int {
    match ParseInt(IntegerText(i))
    case Some(n) => n
    case None => 0
  }

  /** The value a constant stands for. */
  function ConstantValue(k: PConstant, h: Header): Value {
    match k
    case PBool(word) => (match ParseBool(word) case Some(b) => Bool(b) case None => Nil)
    case PInt(i) => Int(Signed, Number(i))
    case PReal(float) => (match float case Some(bits) => Float(bits) case None => Nil)
    case PString(text) => Str(Trim(text, '\"'))
    case PAtName => Str(StripQuotes(h.name))
    case PAtId => Int(Signed, IdOf(h.name))
    case PAtDesc => Str(StripQuotes(h.description))
    case PAtSal => Int(Signed, h.salience)
  }

  function BuildMapVar(m: PMapVar): MapVar {
    match m.key
    case KeyInt(i) => MapVar(m.name, Number(i), "", "")
    case KeyString(text) => MapVar(m.name, 0, Trim(text, '\"'), "")
    case KeyVariable(name) => MapVar(m.name, 0, "", name)
  }

  function BuildCall(call: PCall, h: Header): Call
    decreases call
  {
    Call(call.name, match call.args case None => None case Some(args) => Some(Args(BuildArgs(args.list, h))))
  }

  function BuildArgs(args: seq<PArg>, h: Header): (r: seq<Arg>)
    decreases args, 0
    ensures |r| == |args|
  {
    if args == [] then [] else BuildArgs(args[..|args| - 1], h) + [BuildArg(args[|args| - 1], h)]
  }

  function BuildArg(a: PArg, h: Header): Arg
    decreases a
  {
    match a
    case ArgConstant(k) => NO_ARG.(constant := Some(Constant(ConstantValue(k, h))))
    case ArgVariable(name) => NO_ARG.(variable := name)
    case ArgCall(call) =>
      (match call.kind
       case Function => NO_ARG.(functionCall := Some(BuildCall(call, h)))
       case Method => NO_ARG.(methodCall := Some(BuildCall(call, h)))
       case ThreeLevel => NO_ARG.(threeLevelCall := Some(BuildCall(call, h))))
    case ArgMapVar(m) => NO_ARG.(mapVar := Some(BuildMapVar(m)))
    case ArgExpression(e) => NO_ARG.(expression := Some(BuildExpression(e, h)))
  }

  function BuildAtom(a: PAtom, h: Header): ExpressionAtom
    decreases a
  {
    match a
    case AtomCall(call) =>
      (match call.kind
       case Function => NO_ATOM.(functionCall := Some(BuildCall(call, h)))
       case Method => NO_ATOM.(methodCall := Some(BuildCall(call, h)))
       case ThreeLevel => NO_ATOM.(threeLevelCall := Some(BuildCall(call, h))))
    case AtomConstant(k) => NO_ATOM.(constant := Some(Constant(ConstantValue(k, h))))
    case AtomMapVar(m) => NO_ATOM.(mapVar := Some(BuildMapVar(m)))
    case AtomVariable(name) => NO_ATOM.(variable := name)
  }

  function BuildMath(m: PMath, h: Header): MathExpression
    decreases m
  {
    match m
    case MathBinary(l, op, r) =>
      var pm := op == Plus || op == Minus;
      MathExpression(Some(BuildMath(l, h)), if pm then MathText(op) else "", if pm then "" else MathText(op),
                     Some(BuildMath(r, h)), None)
    case MathAtom(a) => NO_MATH.(atom := Some(BuildAtom(a, h)))
    case MathBracket(n) => NO_MATH.(left := Some(BuildMath(n, h)))
  }

  function BuildExpression(e: PExpression, h: Header): Expression
    decreases e
  {
    match e
    case ExprMath(m) => NO_EXPRESSION.(math := Some(BuildMath(m, h)))
    case ExprCompare(l, op, r) =>
      NO_EXPRESSION.(left := Some(BuildExpression(l, h)), right := Some(BuildExpression(r, h)),
                     comparisonOperator := ComparisonText(op))
    case ExprLogic(l, op, r) =>
      NO_EXPRESSION.(left := Some(BuildExpression(l, h)), right := Some(BuildExpression(r, h)),
                     logicalOperator := LogicText(op))
    case ExprAtom(negated, a) =>
      NO_EXPRESSION.(atom := Some(BuildAtom(a, h)), notOperator := if negated then "!" else "")
    case ExprBracket(negated, n) =>
      NO_EXPRESSION.(left := Some(BuildExpression(n, h)), notOperator := if negated then "!" else "")
  }

  function BuildAssignment(a: PAssignment, h: Header): Assignment {
    Assignment(
      if a.target.TargetVariable? then a.target.name else "",
      if a.target.TargetMapVar? then Some(BuildMapVar(a.target.mapVar)) else None,
      AssignText(a.op),
      if a.source.SourceMath? then Some(BuildMath(a.source.math, h)) else None,
      if a.source.SourceExpression? then Some(BuildExpression(a.source.expression, h)) else None)
  }

  /** The conc block c with one more task. */
  function WithTask(c: ConcStatement, t: PTask, h: Header): ConcStatement {
    match t
    case TaskAssignment(a) => c.(assignments := c.assignments + [BuildAssignment(a, h)])
    case TaskCall(call) =>
      match call.kind
      case Function => c.(functionCalls := c.functionCalls + [BuildCall(call, h)])
      case Method => c.(methodCalls := c.methodCalls + [BuildCall(call, h)])
      case ThreeLevel => c.(threeLevelCalls := c.threeLevelCalls + [BuildCall(call, h)])
  }

  /** The tasks of a conc block are sorted by kind, keeping their order within each kind. */
  function BuildConc(tasks: seq<PTask>, h: Header): ConcStatement {
    if tasks == [] then ConcStatement([], [], [], [])
    else WithTask(BuildConc(tasks[..|tasks| - 1], h), tasks[|tasks| - 1], h)
  }

  function BuildStatement(t: PStatement, h: Header): Statement
    decreases t
  {
    match t
    case StIf(condition, body, elseIfs, otherwise) =>
      NO_STATEMENT.(ifStmt := Some(IfStmt(
        Some(BuildExpression(condition, h)), Some(BuildStatements(body, h)), BuildElseIfs(elseIfs, h),
        match otherwise case None => None case Some(o) => Some(ElseStmt(Some(BuildStatements(o, h)))))))
    case StCall(call) =>
      (match call.kind
       case Function => NO_STATEMENT.(functionCall := Some(BuildCall(call, h)))
       case Method => NO_STATEMENT.(methodCall := Some(BuildCall(call, h)))
       case ThreeLevel => NO_STATEMENT.(threeLevelCall := Some(BuildCall(call, h))))
    case StAssignment(a) => NO_STATEMENT.(assignment := Some(BuildAssignment(a, h)))
    case StConc(tasks) => NO_STATEMENT.(concStatement := Some(BuildConc(tasks, h)))
    case StFor(init, condition, update, body) =>
      NO_STATEMENT.(forStmt := Some(ForStmt(
        Some(BuildExpression(condition, h)), Some(BuildStatements(body, h)),
        [BuildAssignment(init, h), BuildAssignment(update, h)])))
    case StBreak => NO_STATEMENT.(isBreak := true)
    case StForRange(key, name, body) =>
      NO_STATEMENT.(forRangeStmt := Some(ForRangeStmt(Some(BuildStatements(body, h)), key, name)))
    case StContinue => NO_STATEMENT.(isContinue := true)
  }

  function BuildElseIf(e: PElseIf, h: Header): ElseIfStmt
    decreases e
  {
    ElseIfStmt(Some(BuildExpression(e.condition, h)), Some(BuildStatements(e.body, h)))
  }

  function BuildElseIfs(list: seq<PElseIf>, h: Header): (r: seq<ElseIfStmt>)
    decreases list, 0
    ensures |r| == |list|
  {
    if list == [] then [] else BuildElseIfs(list[..|list| - 1], h) + [BuildElseIf(list[|list| - 1], h)]
  }

  function BuildReturn(r: PReturn, h: Header): ReturnStatement {
    ReturnStatement(match r.value case None => None case Some(e) => Some(BuildExpression(e, h)))
  }

  function BuildList(list: seq<PStatement>, h: Header): (r: seq<Statement>)
    decreases list, 0
    ensures |r| == |list|
  {
    if list == [] then [] else BuildList(list[..|list| - 1], h) + [BuildStatement(list[|list| - 1], h)]
  }

  function BuildStatements(t: PStatements, h: Header): Statements
    decreases t
  {
    Statements(BuildList(t.list, h), match t.ret case None => None case Some(r) => Some(BuildReturn(r, h)))
  }

  function HeaderOf(r: PRule): Header {
    Header(Trim(r.name, '\"'),
           if r.description == None then "" else Trim(r.description.value, '\"'),
           if r.salience == None then 0 else Number(r.salience.value.i))
  }

  function BuildRule(r: PRule): RuleEntity {
    var h := HeaderOf(r);
    RuleEntity(h.name, h.salience, h.description, Some(RuleContent(Some(BuildStatements(r.body, h)))))
  }
}
