/**
 The parse listener: a stack machine that turns the events of a tree walk into syntax records.

 `Step` says what one callback does to the listener's state. A record under construction is
 referenced by the stack alone, so it is kept as a value in its stack slot and a callback that
 sets one of its fields replaces the slot. Module `ParserListener` is the listener itself.
 */
module Listener {
  import opened Values
  import opened Ast
  import opened Text
  import opened ParseTree
  import opened RuleOrder

  // ---------- Records under construction ----------

  datatype Node =
    | NRule(rule: RuleEntity)
    | NContent(content: RuleContent)
    | NConc(conc: ConcStatement)
    | NAssignment(assignment: Assignment)
    | NMath(math: MathExpression)
    | NExpression(expression: Expression)
    | NAtom(atom: ExpressionAtom)
    | NCall(kind: CallKind, call: Call)
    | NArgs(args: Args)
    | NConstant(constant: Constant)
    | NMapVar(mapVar: MapVar)
    | NIf(ifStmt: IfStmt)
    | NElseIf(elseIf: ElseIfStmt)
    | NElse(elseStmt: ElseStmt)
    | NFor(forStmt: ForStmt)
    | NForRange(forRange: ForRangeStmt)
    | NBreak
    | NContinue
    | NStatement(statement: Statement)
    | NStatements(statements: Statements)
    | NReturn(ret: ReturnStatement)

  function KindOf(n: Node): Kind {
    match n
    case NRule(_) => KRule
    case NContent(_) => KContent
    case NConc(_) => KConc
    case NAssignment(_) => KAssignment
    case NMath(_) => KMath
    case NExpression(_) => KExpression
    case NAtom(_) => KAtom
    case NCall(kind, _) => KCall(kind)
    case NArgs(_) => KArgs
    case NConstant(_) => KConstant
    case NMapVar(_) => KMapVar
    case NIf(_) => KIf
    case NElseIf(_) => KElseIf
    case NElse(_) => KElse
    case NFor(_) => KFor
    case NForRange(_) => KForRange
    case NBreak => KBreak
    case NContinue => KContinue
    case NStatement(_) => KStatement
    case NStatements(_) => KStatements
    case NReturn(_) => KReturn
  }

  const NO_ATOM := ExpressionAtom("", None, None, None, None, None)
  const NO_MATH := MathExpression(None, "", "", None, None)
  const NO_EXPRESSION := Expression(None, None, None, None, "", "", "")
  const NO_ASSIGNMENT := Assignment("", None, "", None, None)
  const NO_STATEMENT := Statement(None, None, None, None, None, None, None, false, None, false)

  /** The empty record an Enter callback pushes; calls are pushed with their name. */
  function Empty(kind: Kind, name: string): Node {
    match kind
    case KRule => NRule(RuleEntity("", 0, "", None))
    case KContent => NContent(RuleContent(None))
    case KConc => NConc(ConcStatement([], [], [], []))
    case KAssignment => NAssignment(NO_ASSIGNMENT)
    case KMath => NMath(NO_MATH)
    case KExpression => NExpression(NO_EXPRESSION)
    case KAtom => NAtom(NO_ATOM)
    case KCall(k) => NCall(k, Call(name, None))
    case KArgs => NArgs(Args([]))
    case KConstant => NConstant(Constant(Nil))
    case KMapVar => NMapVar(MapVar("", 0, "", ""))
    case KIf => NIf(IfStmt(None, None, [], None))
    case KElseIf => NElseIf(ElseIfStmt(None, None))
    case KElse => NElse(ElseStmt(None))
    case KFor => NFor(ForStmt(None, None, []))
    case KForRange => NForRange(ForRangeStmt(None, "", ""))
    case KBreak => NBreak
    case KContinue => NContinue
    case KStatement => NStatement(NO_STATEMENT)
    case KStatements => NStatements(Statements([], None))
    case KReturn => NReturn(ReturnStatement(None))
  }

  // ---------- Holders ----------

  /**
   What happens when a finished record, or a token, is offered to the record on top of the stack:
   it is taken, it is refused with an error (set twice), or the type assertion fails.
   */
  datatype Offer = Took(node: Node) | Refused | WrongType

  function Once<T>(slot: Option<T>, taken: Node): Offer {
    if slot == None then Took(taken) else Refused
  }

  const NO_ARG := Arg(None, "", None, None, None, None, None)

  function OfferMath(h: Node, m: MathExpression): Offer {
    match h
    case NExpression(e) => Once(e.math, NExpression(e.(math := Some(m))))
    case NAssignment(a) => Once(a.math, NAssignment(a.(math := Some(m))))
    case NMath(n) =>
      if n.left == None then Took(NMath(n.(left := Some(m))))
      else Once(n.right, NMath(n.(right := Some(m))))
    case _ => WrongType
  }

  function OfferExpression(h: Node, x: Expression): Offer {
    match h
    case NExpression(e) =>
      if e.left == None then Took(NExpression(e.(left := Some(x))))
      else Once(e.right, NExpression(e.(right := Some(x))))
    case NAssignment(a) => Once(a.expression, NAssignment(a.(expression := Some(x))))
    case NFor(f) => Once(f.expression, NFor(f.(expression := Some(x))))
    case NIf(i) => Once(i.expression, NIf(i.(expression := Some(x))))
    case NElseIf(i) => Once(i.expression, NElseIf(i.(expression := Some(x))))
    case NReturn(r) => Once(r.expression, NReturn(r.(expression := Some(x))))
    case NArgs(args) => Took(NArgs(Args(args.argList + [NO_ARG.(expression := Some(x))])))
    case _ => WrongType
  }

  function OfferAtom(h: Node, x: ExpressionAtom): Offer {
    match h
    case NExpression(e) => Once(e.atom, NExpression(e.(atom := Some(x))))
    case NMath(m) => Once(m.atom, NMath(m.(atom := Some(x))))
    case _ => WrongType
  }

  function OfferConstant(h: Node, x: Constant): Offer {
    match h
    case NAtom(a) => Once(a.constant, NAtom(a.(constant := Some(x))))
    case NArgs(args) => Took(NArgs(Args(args.argList + [NO_ARG.(constant := Some(x))])))
    case _ => WrongType
  }

  function OfferMapVar(h: Node, x: MapVar): Offer {
    match h
    case NAtom(a) => Once(a.mapVar, NAtom(a.(mapVar := Some(x))))
    case NAssignment(a) => Once(a.mapVar, NAssignment(a.(mapVar := Some(x))))
    case NArgs(args) => Took(NArgs(Args(args.argList + [NO_ARG.(mapVar := Some(x))])))
    case _ => WrongType
  }

  function OfferCall(h: Node, kind: CallKind, x: Call): Offer {
    match h
    case NAtom(a) =>
      (match kind
       case Function => Once(a.functionCall, NAtom(a.(functionCall := Some(x))))
       case Method => Once(a.methodCall, NAtom(a.(methodCall := Some(x))))
       case ThreeLevel => Once(a.threeLevelCall, NAtom(a.(threeLevelCall := Some(x)))))
    case NStatement(s) =>
      (match kind
       case Function => Once(s.functionCall, NStatement(s.(functionCall := Some(x))))
       case Method => Once(s.methodCall, NStatement(s.(methodCall := Some(x))))
       case ThreeLevel => Once(s.threeLevelCall, NStatement(s.(threeLevelCall := Some(x)))))
    case NConc(c) =>
      (match kind
       case Function => Took(NConc(c.(functionCalls := c.functionCalls + [x])))
       case Method => Took(NConc(c.(methodCalls := c.methodCalls + [x])))
       case ThreeLevel => Took(NConc(c.(threeLevelCalls := c.threeLevelCalls + [x]))))
    case NArgs(args) =>
      (match kind
       case Function => Took(NArgs(Args(args.argList + [NO_ARG.(functionCall := Some(x))])))
       case Method => Took(NArgs(Args(args.argList + [NO_ARG.(methodCall := Some(x))])))
       case ThreeLevel => Took(NArgs(Args(args.argList + [NO_ARG.(threeLevelCall := Some(x))]))))
    case _ => WrongType
  }

  function OfferArgs(h: Node, x: Args): Offer {
    match h
    case NCall(kind, c) =>
      if kind == Function then Took(NCall(kind, c.(args := Some(x))))
      else Once(c.args, NCall(kind, c.(args := Some(x))))
    case _ => WrongType
  }

  function OfferAssignment(h: Node, x: Assignment): Offer {
    match h
    case NStatement(s) => Once(s.assignment, NStatement(s.(assignment := Some(x))))
    case NConc(c) => Took(NConc(c.(assignments := c.assignments + [x])))
    case NFor(f) => Took(NFor(f.(assignments := f.assignments + [x])))
    case _ => WrongType
  }

  function OfferStatements(h: Node, x: Statements): Offer {
    match h
    case NContent(c) => Once(c.statements, NContent(RuleContent(Some(x))))
    case NIf(i) => Once(i.statements, NIf(i.(statements := Some(x))))
    case NElseIf(i) => Once(i.statements, NElseIf(i.(statements := Some(x))))
    case NElse(e) => Once(e.statements, NElse(ElseStmt(Some(x))))
    case NFor(f) => Once(f.statements, NFor(f.(statements := Some(x))))
    case NForRange(f) => Once(f.statements, NForRange(f.(statements := Some(x))))
    case _ => WrongType
  }

  /** Leaving a production hands its record to the one below it on the stack. */
  function OfferNode(h: Node, n: Node): Offer {
    match n
    case NMath(m) => OfferMath(h, m)
    case NExpression(e) => OfferExpression(h, e)
    case NAtom(a) => OfferAtom(h, a)
    case NConstant(k) => OfferConstant(h, k)
    case NMapVar(m) => OfferMapVar(h, m)
    case NCall(kind, c) => OfferCall(h, kind, c)
    case NArgs(args) => OfferArgs(h, args)
    case NAssignment(a) => OfferAssignment(h, a)
    case NStatements(s) => OfferStatements(h, s)
    case NContent(c) => if h.NRule? then Took(NRule(h.rule.(ruleContent := Some(c)))) else WrongType
    case NStatement(s) => if h.NStatements? then Took(NStatements(h.statements.(list := h.statements.list + [s]))) else WrongType
    case NReturn(r) => if h.NStatements? then Took(NStatements(h.statements.(ret := Some(r)))) else WrongType
    case NElseIf(i) => if h.NIf? then Took(NIf(h.ifStmt.(elseIfs := h.ifStmt.elseIfs + [i]))) else WrongType
    case NElse(e) => if h.NIf? then Took(NIf(h.ifStmt.(elseStmt := Some(e)))) else WrongType
    case NConc(c) => if h.NStatement? then Took(NStatement(h.statement.(concStatement := Some(c)))) else WrongType
    case NIf(i) => if h.NStatement? then Took(NStatement(h.statement.(ifStmt := Some(i)))) else WrongType
    case NFor(f) => if h.NStatement? then Took(NStatement(h.statement.(forStmt := Some(f)))) else WrongType
    case NForRange(f) => if h.NStatement? then Took(NStatement(h.statement.(forRangeStmt := Some(f)))) else WrongType
    case NBreak => if h.NStatement? then Took(NStatement(h.statement.(isBreak := true))) else WrongType
    case NContinue => if h.NStatement? then Took(NStatement(h.statement.(isContinue := true))) else WrongType
    case NRule(_) => WrongType
  }

  function OfferVariable(h: Node, name: string): Offer {
    match h
    case NAtom(a) => if a.variable == "" then Took(NAtom(a.(variable := name))) else Refused
    case NAssignment(a) => if a.variable == "" then Took(NAssignment(a.(variable := name))) else Refused
    case NArgs(args) => Took(NArgs(Args(args.argList + [NO_ARG.(variable := name)])))
    case NMapVar(m) =>
      if m.name == "" then Took(NMapVar(m.(name := name)))
      else if m.varkey == "" then Took(NMapVar(m.(varkey := name)))
      else Refused
    case NForRange(f) =>
      if f.keyName == "" then Took(NForRange(f.(keyName := name)))
      else if f.name == "" then Took(NForRange(f.(name := name)))
      else Refused
    case _ => WrongType
  }

  function OfferInteger(h: Node, n: int): Offer {
    match h
    case NRule(r) => Took(NRule(r.(salience := n)))
    case NConstant(_) => Took(NConstant(Constant(Int(Signed, n))))
    case NMapVar(m) => Took(NMapVar(m.(intkey := n)))
    case _ => WrongType
  }

  function OfferString(h: Node, s: string): Offer {
    match h
    case NRule(r) =>
      if r.ruleName == "" then Took(NRule(r.(ruleName := s)))
      else if r.ruleDescription == "" then Took(NRule(r.(ruleDescription := s)))
      else Refused
    case NConstant(_) => Took(NConstant(Constant(Str(s))))
    case NMapVar(m) => if m.strkey == "" then Took(NMapVar(m.(strkey := s))) else Refused
    case _ => WrongType
  }

  function OfferValue(h: Node, v: Value): Offer {
    if h.NConstant? then Took(NConstant(Constant(v))) else WrongType
  }

  // ---------- One callback ----------

  datatype Stack = Bottom | Cons(top: Node, below: Stack)

  /** The listener's fields. `errors` counts ParseErrors; `panicked` is a failed type assertion. */
  datatype State = State(
    stack: Stack,
    errors: nat,
    panicked: bool,
    ruleName: string,
    ruleDescription: string,
    salience: int,
    rules: Registry)

  const START := State(Bottom, 0, false, "", "", 0, map[])

  function Fail(s: State): State {
    s.(errors := s.errors + 1)
  }

  function Panic(s: State): State {
    s.(panicked := true)
  }

  /** Puts the outcome of an offer to the top of the stack back there. */
  function Settle(s: State, below: Stack, offer: Offer): State {
    match offer
    case Took(node) => s.(stack := Cons(node, below))
    case Refused => Fail(s)
    case WrongType => Panic(s)
  }

  /** The @id of a rule: its name read as an integer, or 0. */
  function IdOf(ruleName: string): int {
    match ParseInt(Trim(ruleName, ' '))
    case Some(n) => n
    case None => 0
  }

  function ExitStep(s: State, kind: Kind): State {
    match s.stack
    case Bottom => Panic(s)
    case Cons(n, below) =>
      if KindOf(n) != kind then Panic(s)
      else if n.NRule? then
        if n.rule.ruleName in s.rules then Fail(s.(stack := below))
        else s.(stack := below, rules := s.rules[n.rule.ruleName := n.rule])
      else
        match below
        case Bottom => Panic(s)
        case Cons(h, rest) => Settle(s.(stack := below), rest, OfferNode(h, n))
  }

  /** Token texts that are an error before the stack is looked at. */
  predicate Malformed(ev: Event) {
    match ev
    case RuleName(text) => Trim(text, '\"') == ""
    case Salience(text) => ParseInt(DropKeyword(ToLower(text))) == None
    case Integer(text) => ParseInt(text) == None
    case _ => false
  }

  /** Callbacks that look at the top of the stack only. */
  function TokenStep(s: State, h: Node, below: Stack, ev: Event): State
    requires !Malformed(ev)
  {
    match ev
    case RuleName(text) =>
      var name := Trim(text, '\"');
      if !h.NRule? then Panic(s)
      else s.(ruleName := name, stack := Cons(NRule(h.rule.(ruleName := name)), below))
    case RuleDescription(text) =>
      var description := Trim(text, '\"');
      if !h.NRule? then Panic(s)
      else s.(ruleDescription := description, stack := Cons(NRule(h.rule.(ruleDescription := description)), below))
    case Variable(text) => Settle(s, below, OfferVariable(h, text))
    case StringLiteral(text) =>
      var txt := Trim(text, '\"');
      Settle(if h.NMapVar? && txt == "" then Fail(s) else s, below, OfferString(h, txt))
    case BooleanLiteral(text) =>
      if !h.NConstant? then Panic(s)
      else (match ParseBool(text)
            case None => Fail(s)
            case Some(b) => Settle(s, below, OfferValue(h, Bool(b))))
    case RealLiteral(float) =>
      if !h.NConstant? then Panic(s)
      else (match float
            case None => Fail(s)
            case Some(bits) => Settle(s, below, OfferValue(h, Float(bits))))
    case Integer(text) => Settle(s, below, OfferInteger(h, ParseInt(text).value))
    case AtName => Settle(s, below, OfferValue(h, Str(StripQuotes(s.ruleName))))
    case AtId => Settle(s, below, OfferValue(h, Int(Signed, IdOf(s.ruleName))))
    case AtDesc => Settle(s, below, OfferValue(h, Str(StripQuotes(s.ruleDescription))))
    case AtSal => Settle(s, below, OfferValue(h, Int(Signed, s.salience)))
    case LogicalOperator(text) =>
      if h.NExpression? then s.(stack := Cons(NExpression(h.expression.(logicalOperator := text)), below)) else Panic(s)
    case ComparisonOperator(text) =>
      if h.NExpression? then s.(stack := Cons(NExpression(h.expression.(comparisonOperator := text)), below)) else Panic(s)
    case NotOperator =>
      if h.NExpression? then s.(stack := Cons(NExpression(h.expression.(notOperator := "!")), below)) else Panic(s)
    case MathPmOperator(text) =>
      if h.NMath? then s.(stack := Cons(NMath(h.math.(pmOperator := text)), below)) else Panic(s)
    case MathMdOperator(text) =>
      if h.NMath? then s.(stack := Cons(NMath(h.math.(mdOperator := text)), below)) else Panic(s)
    case AssignOp(text) =>
      if h.NAssignment? then s.(stack := Cons(NAssignment(h.assignment.(assignOperator := text)), below)) else Panic(s)
    case _ => s
  }

  function LeafStep(s: State, ev: Event): State {
    if Malformed(ev) then Fail(s)
    else if ev.Salience? then s.(salience := ParseInt(DropKeyword(ToLower(ev.text))).value)
    else if s.stack == Bottom then Panic(s)
    else TokenStep(s, s.stack.top, s.stack.below, ev)
  }

  function Step(s: State, ev: Event): State {
    if s.errors > 0 || s.panicked then s
    else
      match ev
      case Enter(kind, name) =>
        var s' := if kind == KRule then s.(ruleName := "", ruleDescription := "", salience := 0) else s;
        s'.(stack := Cons(Empty(kind, name), s.stack))
      case Exit(kind) => ExitStep(s, kind)
      case _ => LeafStep(s, ev)
  }

  function Run(evs: seq<Event>, s: State): State {
    if evs == [] then s else Step(Run(evs[..|evs| - 1], s), evs[|evs| - 1])
  }

  /** After the first error every later callback is a no-op. */
  lemma {:induction false} ErrorsStick(evs: seq<Event>, s: State)
    requires s.errors > 0
    ensures Run(evs, s) == s
  {
    if evs != [] {
      ErrorsStick(evs[..|evs| - 1], s);
    }
  }
}
