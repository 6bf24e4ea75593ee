/**
 Parse trees of the grammar, one datatype per production that matters, and the events a tree walk
 raises on them: a callback when a production is entered and one when it is left. Productions whose
 two callbacks do nothing raise no event.
 */
module ParseTree {
  import opened Values
  import opened Text

  // ---------- Tokens ----------

  /** SIMPLENAME, DOTTEDNAME and DOUBLEDOTTEDNAME are never empty. */
  type Name = s: string | s != "" witness "a"

  /** INT: one or more decimal digits. */
  type Digits = s: string | s != "" && AllDigits(s) witness "0"

  /** SALIENCE: the keyword in any mix of cases. */
  type SalienceKeyword = s: string | ToLower(s) == SALIENCE witness "salience"

  /** TRUE and FALSE: the keywords in any mix of cases. */
  type BooleanText = s: string | ToLower(s) == "true" || ToLower(s) == "false" witness "true"

  // ---------- Trees ----------

  datatype PInteger = PInteger(negative: bool, digits: Digits)

  /** A real literal is kept with the float64 its text converts to, if it converts. */
  datatype PConstant =
    | PBool(word: BooleanText)
    | PInt(i: PInteger)
    | PReal(float: Option<nat>)
    | PString(text: string)
    | PAtName | PAtId | PAtDesc | PAtSal

  datatype PKey = KeyInt(i: PInteger) | KeyString(text: string) | KeyVariable(name: Name)

  datatype PMapVar = PMapVar(name: Name, key: PKey)

  datatype CallKind = Function | Method | ThreeLevel

  datatype PCall = PCall(kind: CallKind, name: string, args: Option<PArgs>)

  datatype PArgs = PArgs(list: seq<PArg>)

  datatype PArg =
    | ArgConstant(constant: PConstant)
    | ArgVariable(name: Name)
    | ArgCall(call: PCall)
    | ArgMapVar(mapVar: PMapVar)
    | ArgExpression(expression: PExpression)

  datatype PAtom =
    | AtomCall(call: PCall)
    | AtomConstant(constant: PConstant)
    | AtomMapVar(mapVar: PMapVar)
    | AtomVariable(name: Name)

  datatype MathOperator = Plus | Minus | Times | Over

  datatype PMath =
    | MathBinary(left: PMath, op: MathOperator, right: PMath)
    | MathAtom(atom: PAtom)
    | MathBracket(inner: PMath)

  datatype Comparison = Gt | Lt | Gte | Lte | Equals | NotEquals

  datatype Logic = And | Or

  datatype PExpression =
    | ExprMath(math: PMath)
    | ExprCompare(left: PExpression, comparison: Comparison, right: PExpression)
    | ExprLogic(left: PExpression, logic: Logic, right: PExpression)
    | ExprAtom(negated: bool, atom: PAtom)
    | ExprBracket(negated: bool, inner: PExpression)

  datatype AssignOperator = Assign | Set | PlusEqual | MinusEqual | TimesEqual | OverEqual

  datatype PTarget = TargetVariable(name: Name) | TargetMapVar(mapVar: PMapVar)

  datatype PSource = SourceMath(math: PMath) | SourceExpression(expression: PExpression)

  datatype PAssignment = PAssignment(target: PTarget, op: AssignOperator, source: PSource)

  datatype PTask = TaskCall(call: PCall) | TaskAssignment(assignment: PAssignment)

  datatype PStatement =
    | StIf(condition: PExpression, body: PStatements, elseIfs: seq<PElseIf>, otherwise: Option<PStatements>)
    | StCall(call: PCall)
    | StAssignment(assignment: PAssignment)
    | StConc(tasks: seq<PTask>)
    | StFor(init: PAssignment, condition: PExpression, update: PAssignment, body: PStatements)
    | StBreak
    | StForRange(key: Name, name: Name, body: PStatements)
    | StContinue

  datatype PElseIf = PElseIf(condition: PExpression, body: PStatements)

  datatype PReturn = PReturn(value: Option<PExpression>)

  datatype PStatements = PStatements(list: seq<PStatement>, ret: Option<PReturn>)

  datatype PSalience = PSalience(keyword: SalienceKeyword, i: PInteger)

  datatype PRule = PRule(name: string, description: Option<string>, salience: Option<PSalience>, body: PStatements)

  // ---------- Token texts ----------

  function IntegerText(i: PInteger): string {
    (if i.negative then "-" else "") + i.digits
  }

  function MathText(op: MathOperator): string {
    match op
    case Plus => "+"
    case Minus => "-"
    case Times => "*"
    case Over => "/"
  }

  function ComparisonText(op: Comparison): string {
    match op
    case Gt => ">"
    case Lt => "<"
    case Gte => ">="
    case Lte => "<="
    case Equals => "=="
    case NotEquals => "!="
  }

  function LogicText(op: Logic): string {
    if op == And then "&&" else "||"
  }

  function AssignText(op: AssignOperator): string {
    match op
    case Assign => ":="
    case Set => "="
    case PlusEqual => "+="
    case MinusEqual => "-="
    case TimesEqual => "*="
    case OverEqual => "/="
  }

  // ---------- Events ----------

  /** The syntax records a listener can have under construction. */
  datatype Kind =
    | KRule | KContent | KConc | KAssignment | KMath | KExpression | KAtom | KCall(kind: CallKind) | KArgs
    | KConstant | KMapVar | KIf | KElseIf | KElse | KFor | KForRange | KBreak | KContinue
    | KStatement | KStatements | KReturn

  datatype Event =
    | Enter(kind: Kind, name: string)
    | Exit(kind: Kind)
    | RuleName(text: string)
    | RuleDescription(text: string)
    | Salience(text: string)
    | Variable(text: string)
    | StringLiteral(text: string)
    | BooleanLiteral(text: string)
    | RealLiteral(float: Option<nat>)
    | Integer(text: string)
    | AtName | AtId | AtDesc | AtSal
    | LogicalOperator(text: string)
    | ComparisonOperator(text: string)
    | NotOperator
    | MathPmOperator(text: string)
    | MathMdOperator(text: string)
    | AssignOp(text: string)

  function Inside(kind: Kind, name: string, body: seq<Event>): seq<Event> {
    [Enter(kind, name)] + body + [Exit(kind)]
  }

  function ConstantEvents(k: PConstant): seq<Event> {
    Inside(KConstant, "",
      match k
      case PBool(word) => [BooleanLiteral(word)]
      case PInt(i) => [Integer(IntegerText(i))]
      case PReal(float) => [RealLiteral(float)]
      case PString(text) => [StringLiteral(text)]
      case PAtName => [AtName]
      case PAtId => [AtId]
      case PAtDesc => [AtDesc]
      case PAtSal => [AtSal])
  }

  function MapVarEvents(m: PMapVar): seq<Event> {
    Inside(KMapVar, "", [Variable(m.name)] +
      match m.key
      case KeyInt(i) => [Integer(IntegerText(i))]
      case KeyString(text) => [StringLiteral(text)]
      case KeyVariable(name) => [Variable(name)])
  }

  function CallEvents(call: PCall): seq<Event>
    decreases call
  {
    Inside(KCall(call.kind), call.name,
      match call.args
      case None => []
      case Some(args) => Inside(KArgs, "", ArgsEvents(args.list)))
  }

  function ArgsEvents(args: seq<PArg>): seq<Event>
    decreases args, 0
  {
    if args == [] then [] else ArgsEvents(args[..|args| - 1]) + ArgEvents(args[|args| - 1])
  }

  function ArgEvents(a: PArg): seq<Event>
    decreases a
  {
    match a
    case ArgConstant(k) => ConstantEvents(k)
    case ArgVariable(name) => [Variable(name)]
    case ArgCall(call) => CallEvents(call)
    case ArgMapVar(m) => MapVarEvents(m)
    case ArgExpression(e) => ExpressionEvents(e)
  }

  function AtomEvents(a: PAtom): seq<Event>
    decreases a
  {
    Inside(KAtom, "",
      match a
      case AtomCall(call) => CallEvents(call)
      case AtomConstant(k) => ConstantEvents(k)
      case AtomMapVar(m) => MapVarEvents(m)
      case AtomVariable(name) => [Variable(name)])
  }

  function MathEvents(m: PMath): seq<Event>
    decreases m
  {
    Inside(KMath, "",
      match m
      case MathBinary(l, op, r) =>
        MathEvents(l) +
        [if op == Plus || op == Minus then MathPmOperator(MathText(op)) else MathMdOperator(MathText(op))] +
        MathEvents(r)
      case MathAtom(a) => AtomEvents(a)
      case MathBracket(n) => MathEvents(n))
  }

  function NotEvents(negated: bool): seq<Event> {
    if negated then [NotOperator] else []
  }

  function ExpressionEvents(e: PExpression): seq<Event>
    decreases e
  {
    Inside(KExpression, "",
      match e
      case ExprMath(m) => MathEvents(m)
      case ExprCompare(l, op, r) => ExpressionEvents(l) + [ComparisonOperator(ComparisonText(op))] + ExpressionEvents(r)
      case ExprLogic(l, op, r) => ExpressionEvents(l) + [LogicalOperator(LogicText(op))] + ExpressionEvents(r)
      case ExprAtom(negated, a) => NotEvents(negated) + AtomEvents(a)
      case ExprBracket(negated, n) => NotEvents(negated) + ExpressionEvents(n))
  }

  function AssignmentEvents(a: PAssignment): seq<Event> {
    Inside(KAssignment, "",
      (match a.target
       case TargetVariable(name) => [Variable(name)]
       case TargetMapVar(m) => MapVarEvents(m)) +
      [AssignOp(AssignText(a.op))] +
      (match a.source
       case SourceMath(m) => MathEvents(m)
       case SourceExpression(e) => ExpressionEvents(e)))
  }

  function TaskEvents(t: PTask): seq<Event> {
    match t
    case TaskCall(call) => CallEvents(call)
    case TaskAssignment(a) => AssignmentEvents(a)
  }

  function TasksEvents(tasks: seq<PTask>): seq<Event> {
    if tasks == [] then [] else TasksEvents(tasks[..|tasks| - 1]) + TaskEvents(tasks[|tasks| - 1])
  }

  function StatementEvents(t: PStatement): seq<Event>
    decreases t
  {
    Inside(KStatement, "",
      match t
      case StIf(condition, body, elseIfs, otherwise) =>
        Inside(KIf, "",
          ExpressionEvents(condition) + StatementsEvents(body) + ElseIfsEvents(elseIfs) +
          (if otherwise == None then [] else Inside(KElse, "", StatementsEvents(otherwise.value))))
      case StCall(call) => CallEvents(call)
      case StAssignment(a) => AssignmentEvents(a)
      case StConc(tasks) => Inside(KConc, "", TasksEvents(tasks))
      case StFor(init, condition, update, body) =>
        Inside(KFor, "",
          AssignmentEvents(init) + ExpressionEvents(condition) + AssignmentEvents(update) + StatementsEvents(body))
      case StBreak => Inside(KBreak, "", [])
      case StForRange(key, name, body) =>
        Inside(KForRange, "", [Variable(key), Variable(name)] + StatementsEvents(body))
      case StContinue => Inside(KContinue, "", []))
  }

  function ElseIfEvents(e: PElseIf): seq<Event>
    decreases e
  {
    Inside(KElseIf, "", ExpressionEvents(e.condition) + StatementsEvents(e.body))
  }

  function ElseIfsEvents(list: seq<PElseIf>): seq<Event>
    decreases list, 0
  {
    if list == [] then [] else ElseIfsEvents(list[..|list| - 1]) + ElseIfEvents(list[|list| - 1])
  }

  function ReturnEvents(r: PReturn): seq<Event> {
    Inside(KReturn, "", if r.value == None then [] else ExpressionEvents(r.value.value))
  }

  function StatementListEvents(list: seq<PStatement>): seq<Event>
    decreases list, 0
  {
    if list == [] then [] else StatementListEvents(list[..|list| - 1]) + StatementEvents(list[|list| - 1])
  }

  function StatementsEvents(t: PStatements): seq<Event>
    decreases t
  {
    Inside(KStatements, "", StatementListEvents(t.list) + (if t.ret == None then [] else ReturnEvents(t.ret.value)))
  }

  function RuleEvents(r: PRule): seq<Event> {
    Inside(KRule, "",
      [StringLiteral(r.name), RuleName(r.name)] +
      (if r.description == None then []
       else [StringLiteral(r.description.value), RuleDescription(r.description.value)]) +
      (if r.salience == None then []
       else [Integer(IntegerText(r.salience.value.i)),
             Salience(r.salience.value.keyword + IntegerText(r.salience.value.i))]) +
      Inside(KContent, "", StatementsEvents(r.body)))
  }

  function PrimaryEvents(rules: seq<PRule>): seq<Event> {
    if rules == [] then [] else PrimaryEvents(rules[..|rules| - 1]) + RuleEvents(rules[|rules| - 1])
  }
}
