/**
 What a tree walk does leave behind. The `Walk...` lemmas prove that walking any tree makes every
 type assertion succeed, hands exactly the built record to the holder below it when the tree is
 accepted, and reports an error when it is not.
 */
module TreeWalk {
  import opened Values
  import opened Ast
  import opened Text
  import opened ParseTree
  import opened RuleOrder
  import opened Listener
  import opened FrontEnd

  // ---------- Running event sequences ----------

  /** No error so far; the current rule's header is h. */
  ghost predicate Ready(s: State, h: Header) {
    s.errors == 0 && !s.panicked && s.stack.Cons? && Header(s.ruleName, s.ruleDescription, s.salience) == h
  }

  ghost predicate Rejected(s: State) {
    s.errors > 0 && !s.panicked
  }

  /** The state s with n in place of the top of its stack. */
  function Top(s: State, n: Node): State
    requires s.stack.Cons?
  {
    s.(stack := Cons(n, s.stack.below))
  }

  /** The events took s to the same state with n on top, or ended in an error. */
  ghost predicate Becomes(s: State, evs: seq<Event>, accepted: bool, n: Node)
    requires s.stack.Cons?
  {
    if accepted then Run(evs, s) == Top(s, n) else Rejected(Run(evs, s))
  }

  lemma {:induction false} RunConcat(a: seq<Event>, b: seq<Event>, s: State)
    ensures Run(a + b, s) == Run(b, Run(a, s))
    ensures Rejected(Run(a, s)) ==> Run(a + b, s) == Run(a, s)
    decreases |b|
  {
    if b == [] {
      assert a + b == a;
    } else {
      assert (a + b)[..|a + b| - 1] == a + b[..|b| - 1];
      RunConcat(a, b[..|b| - 1], s);
    }
    if Rejected(Run(a, s)) {
      ErrorsStick(b, Run(a, s));
    }
  }

  lemma RunOne(ev: Event, s: State)
    ensures Run([ev], s) == Step(s, ev)
  {
    assert [ev][..0] == [];
    assert Run([], s) == s;
  }

  /** One stretch of events after another. */
  lemma Then(a: seq<Event>, b: seq<Event>, s: State, first: bool, m: Node, second: bool, n: Node)
    requires s.stack.Cons? && Becomes(s, a, first, m)
    requires first ==> Becomes(Top(s, m), b, second, n)
    ensures Becomes(s, a + b, first && second, n)
  {
    RunConcat(a, b, s);
  }

  /** No events at all. */
  lemma Idle(s: State)
    requires s.stack.Cons?
    ensures Becomes(s, [], true, s.stack.top)
  {
  }

  /**
   A production: an empty record is pushed, its contents turn it into n, and leaving hands n to the
   record below.
   */
  lemma Production(kind: Kind, name: string, body: seq<Event>, s: State, h: Header, accepted: bool, n: Node)
    requires Ready(s, h) && kind != KRule && KindOf(n) == kind && OfferNode(s.stack.top, n).Took?
    requires Becomes(s.(stack := Cons(Empty(kind, name), s.stack)), body, accepted, n)
    ensures Becomes(s, Inside(kind, name, body), accepted, OfferNode(s.stack.top, n).node)
  {
    hide OfferNode, Empty;
    var s1 := s.(stack := Cons(Empty(kind, name), s.stack));
    assert Step(s, Enter(kind, name)) == s1;
    RunConcat([Enter(kind, name)] + body, [Exit(kind)], s);
    RunConcat([Enter(kind, name)], body, s);
    RunOne(Enter(kind, name), s);
    RunOne(Exit(kind), Run(body, s1));
    if accepted {
      LeaveProduction(s, h, n);
    }
  }

  lemma LeaveProduction(s: State, h: Header, n: Node)
    requires Ready(s, h) && !n.NRule? && OfferNode(s.stack.top, n).Took?
    ensures Step(s.(stack := Cons(n, s.stack)), Exit(KindOf(n))) == Top(s, OfferNode(s.stack.top, n).node)
  {
    hide OfferNode, KindOf;
  }

  /** The state in which the contents of a production are walked. */
  function Pushed(s: State, kind: Kind, name: string): State {
    s.(stack := Cons(Empty(kind, name), s.stack))
  }

  // ---------- Tokens ----------

  lemma VariableToken(name: Name, s: State, h: Header)
    requires Ready(s, h) && OfferVariable(s.stack.top, name).Took?
    ensures Becomes(s, [Variable(name)], true, OfferVariable(s.stack.top, name).node)
  {
    hide OfferVariable;
    RunOne(Variable(name), s);
  }

  lemma IntegerToken(i: PInteger, s: State, h: Header)
    requires Ready(s, h) && OfferInteger(s.stack.top, Number(i)).Took?
    ensures Becomes(s, [Integer(IntegerText(i))], InRange(i), OfferInteger(s.stack.top, Number(i)).node)
  {
    hide OfferInteger, ParseInt;
    RunOne(Integer(IntegerText(i)), s);
  }

  lemma StringToken(text: string, s: State, h: Header)
    requires Ready(s, h) && OfferString(s.stack.top, Trim(text, '"')).Took?
    ensures Becomes(s, [StringLiteral(text)], !(s.stack.top.NMapVar? && Trim(text, '"') == ""),
                    OfferString(s.stack.top, Trim(text, '"')).node)
  {
    hide OfferString, Trim;
    RunOne(StringLiteral(text), s);
  }

  function ConstantEvent(k: PConstant): Event {
    match k
    case PBool(word) => BooleanLiteral(word)
    case PInt(i) => Integer(IntegerText(i))
    case PReal(float) => RealLiteral(float)
    case PString(text) => StringLiteral(text)
    case PAtName => AtName
    case PAtId => AtId
    case PAtDesc => AtDesc
    case PAtSal => AtSal
  }

  lemma ConstantToken(k: PConstant, s: State, h: Header)
    requires Ready(s, h) && s.stack.top.NConstant?
    ensures Becomes(s, [ConstantEvent(k)], AcceptedConstant(k), NConstant(Constant(ConstantValue(k, h))))
  {
    hide Trim, ParseInt, ParseBool, StripQuotes, IdOf;
    if k.PInt? {
      IntegerToken(k.i, s, h);
    } else if k.PString? {
      StringToken(k.text, s, h);
    } else {
      RunOne(ConstantEvent(k), s);
    }
  }

  lemma WalkConstant(k: PConstant, h: Header, s: State)
    requires Ready(s, h) && OfferConstant(s.stack.top, Constant(ConstantValue(k, h))).Took?
    ensures Becomes(s, ConstantEvents(k), AcceptedConstant(k), OfferConstant(s.stack.top, Constant(ConstantValue(k, h))).node)
  {
    hide OfferConstant, ConstantValue, AcceptedConstant;
    ConstantToken(k, Pushed(s, KConstant, ""), h);
    Production(KConstant, "", [ConstantEvent(k)], s, h, AcceptedConstant(k), NConstant(Constant(ConstantValue(k, h))));
  }

  lemma KeyToken(m: PMapVar, s: State, h: Header)
    requires Ready(s, h) && s.stack.top == NMapVar(MapVar(m.name, 0, "", ""))
    ensures Becomes(s,
                    match m.key
                    case KeyInt(i) => [Integer(IntegerText(i))]
                    case KeyString(text) => [StringLiteral(text)]
                    case KeyVariable(name) => [Variable(name)],
                    AcceptedMapVar(m), NMapVar(BuildMapVar(m)))
  {
    hide Trim, ParseInt;
    match m.key
    case KeyInt(i) => IntegerToken(i, s, h);
    case KeyString(text) => StringToken(text, s, h);
    case KeyVariable(name) => VariableToken(name, s, h);
  }

  lemma WalkMapVar(m: PMapVar, h: Header, s: State)
    requires Ready(s, h) && OfferMapVar(s.stack.top, BuildMapVar(m)).Took?
    ensures Becomes(s, MapVarEvents(m), AcceptedMapVar(m), OfferMapVar(s.stack.top, BuildMapVar(m)).node)
  {
    hide OfferMapVar, BuildMapVar, AcceptedMapVar;
    var s1 := Pushed(s, KMapVar, "");
    var named := NMapVar(MapVar(m.name, 0, "", ""));
    VariableToken(m.name, s1, h);
    KeyToken(m, Top(s1, named), h);
    var key := match m.key
      case KeyInt(i) => [Integer(IntegerText(i))]
      case KeyString(text) => [StringLiteral(text)]
      case KeyVariable(name) => [Variable(name)];
    Then([Variable(m.name)], key, s1, true, named, AcceptedMapVar(m), NMapVar(BuildMapVar(m)));
    Production(KMapVar, "", [Variable(m.name)] + key, s, h, AcceptedMapVar(m), NMapVar(BuildMapVar(m)));
  }

  // ---------- Calls, atoms and expressions ----------

  lemma WalkCall(call: PCall, h: Header, s: State)
    requires Ready(s, h) && OfferCall(s.stack.top, call.kind, BuildCall(call, h)).Took?
    ensures Becomes(s, CallEvents(call), AcceptedCall(call), OfferCall(s.stack.top, call.kind, BuildCall(call, h)).node)
    decreases call
  {
    hide OfferCall;
    var s1 := Pushed(s, KCall(call.kind), call.name);
    var n := NCall(call.kind, BuildCall(call, h));
    match call.args {
      case None =>
        Idle(s1);
        Production(KCall(call.kind), call.name, [], s, h, true, n);
      case Some(args) =>
        var list := args.list;
        WalkArgs(list, h, Pushed(s1, KArgs, ""));
        Production(KArgs, "", ArgsEvents(list), s1, h, AcceptedArgs(list), NArgs(Args(BuildArgs(list, h))));
        Production(KCall(call.kind), call.name, Inside(KArgs, "", ArgsEvents(list)), s, h, AcceptedArgs(list), n);
    }
  }

  lemma WalkArgs(args: seq<PArg>, h: Header, s: State)
    requires Ready(s, h) && s.stack.top == NArgs(Args([]))
    ensures Becomes(s, ArgsEvents(args), AcceptedArgs(args), NArgs(Args(BuildArgs(args, h))))
    decreases args, 0
  {
    if args == [] {
      Idle(s);
    } else {
      var front, last := args[..|args| - 1], args[|args| - 1];
      var m := NArgs(Args(BuildArgs(front, h)));
      WalkArgs(front, h, s);
      WalkArg(last, h, Top(s, m), BuildArgs(front, h));
      Then(ArgsEvents(front), ArgEvents(last), s, AcceptedArgs(front), m, AcceptedArg(last), NArgs(Args(BuildArgs(args, h))));
    }
  }

  lemma WalkArg(a: PArg, h: Header, s: State, done: seq<Arg>)
    requires Ready(s, h) && s.stack.top == NArgs(Args(done))
    ensures Becomes(s, ArgEvents(a), AcceptedArg(a), NArgs(Args(done + [BuildArg(a, h)])))
    decreases a
  {
    match a
    case ArgConstant(k) => WalkConstant(k, h, s);
    case ArgVariable(name) => VariableToken(name, s, h);
    case ArgCall(call) => WalkCall(call, h, s);
    case ArgMapVar(m) => WalkMapVar(m, h, s);
    case ArgExpression(e) => WalkExpression(e, h, s);
  }

  lemma WalkAtom(a: PAtom, h: Header, s: State)
    requires Ready(s, h) && OfferAtom(s.stack.top, BuildAtom(a, h)).Took?
    ensures Becomes(s, AtomEvents(a), AcceptedAtom(a), OfferAtom(s.stack.top, BuildAtom(a, h)).node)
    decreases a
  {
    hide OfferAtom;
    var s1 := Pushed(s, KAtom, "");
    match a {
      case AtomCall(call) => WalkCall(call, h, s1);
      case AtomConstant(k) => WalkConstant(k, h, s1);
      case AtomMapVar(m) => WalkMapVar(m, h, s1);
      case AtomVariable(name) => VariableToken(name, s1, h);
    }
    var body := match a
      case AtomCall(call) => CallEvents(call)
      case AtomConstant(k) => ConstantEvents(k)
      case AtomMapVar(m) => MapVarEvents(m)
      case AtomVariable(name) => [Variable(name)];
    Production(KAtom, "", body, s, h, AcceptedAtom(a), NAtom(BuildAtom(a, h)));
  }

  lemma MathOperatorToken(op: MathOperator, s: State, h: Header, m: MathExpression)
    requires Ready(s, h) && s.stack.top == NMath(m)
    ensures var pm := op == Plus || op == Minus;
            Becomes(s, [if pm then MathPmOperator(MathText(op)) else MathMdOperator(MathText(op))], true,
                    NMath(if pm then m.(pmOperator := MathText(op)) else m.(mdOperator := MathText(op))))
  {
    var pm := op == Plus || op == Minus;
    RunOne(if pm then MathPmOperator(MathText(op)) else MathMdOperator(MathText(op)), s);
  }

  function OperatorEvent(op: MathOperator): Event {
    if op == Plus || op == Minus then MathPmOperator(MathText(op)) else MathMdOperator(MathText(op))
  }

  function MathContents(m: PMath): seq<Event> {
    match m
    case MathBinary(l, op, r) => MathEvents(l) + [OperatorEvent(op)] + MathEvents(r)
    case MathAtom(a) => AtomEvents(a)
    case MathBracket(n) => MathEvents(n)
  }

  lemma WalkMath(m: PMath, h: Header, s: State)
    requires Ready(s, h) && OfferMath(s.stack.top, BuildMath(m, h)).Took?
    ensures Becomes(s, MathEvents(m), AcceptedMath(m), OfferMath(s.stack.top, BuildMath(m, h)).node)
    decreases m, 2
  {
    hide OfferMath, Becomes, BuildMath, AcceptedMath;
    WalkMathContents(m, h, Pushed(s, KMath, ""));
    assert MathEvents(m) == Inside(KMath, "", MathContents(m));
    Production(KMath, "", MathContents(m), s, h, AcceptedMath(m), NMath(BuildMath(m, h)));
  }

  lemma WalkMathContents(m: PMath, h: Header, s: State)
    requires Ready(s, h) && s.stack.top == NMath(NO_MATH)
    ensures Becomes(s, MathContents(m), AcceptedMath(m), NMath(BuildMath(m, h)))
    decreases m, 1
  {
    hide Becomes, Run, Step;
    match m
    case MathBinary(l, op, r) => WalkMathBinary(m, l, op, r, h, s);
    case MathAtom(a) => WalkAtom(a, h, s);
    case MathBracket(n) => WalkMath(n, h, s);
  }

  lemma WalkMathBinary(m: PMath, l: PMath, op: MathOperator, r: PMath, h: Header, s: State)
    requires Ready(s, h) && s.stack.top == NMath(NO_MATH) && m == MathBinary(l, op, r)
    ensures Becomes(s, MathEvents(l) + [OperatorEvent(op)] + MathEvents(r), AcceptedMath(l) && AcceptedMath(r),
                    NMath(BuildMath(m, h)))
    decreases m, 0
  {
    hide Becomes, Run, Step, AcceptedMath, MathEvents;
    var m1 := NO_MATH.(left := Some(BuildMath(l, h)));
    var m2 := if op == Plus || op == Minus then m1.(pmOperator := MathText(op)) else m1.(mdOperator := MathText(op));
    WalkMath(l, h, s);
    MathOperatorToken(op, Top(s, NMath(m1)), h, m1);
    Then(MathEvents(l), [OperatorEvent(op)], s, AcceptedMath(l), NMath(m1), true, NMath(m2));
    WalkMath(r, h, Top(s, NMath(m2)));
    Then(MathEvents(l) + [OperatorEvent(op)], MathEvents(r), s, AcceptedMath(l), NMath(m2), AcceptedMath(r),
         NMath(BuildMath(m, h)));
  }

  lemma CompareToken(op: Comparison, s: State, h: Header, e: Expression)
    requires Ready(s, h) && s.stack.top == NExpression(e)
    ensures Becomes(s, [ComparisonOperator(ComparisonText(op))], true, NExpression(e.(comparisonOperator := ComparisonText(op))))
  {
    RunOne(ComparisonOperator(ComparisonText(op)), s);
  }

  lemma LogicToken(op: Logic, s: State, h: Header, e: Expression)
    requires Ready(s, h) && s.stack.top == NExpression(e)
    ensures Becomes(s, [LogicalOperator(LogicText(op))], true, NExpression(e.(logicalOperator := LogicText(op))))
  {
    RunOne(LogicalOperator(LogicText(op)), s);
  }

  lemma NotToken(negated: bool, s: State, h: Header)
    requires Ready(s, h) && s.stack.top == NExpression(NO_EXPRESSION)
    ensures Becomes(s, NotEvents(negated), true, NExpression(NO_EXPRESSION.(notOperator := if negated then "!" else "")))
  {
    if negated {
      RunOne(NotOperator, s);
    } else {
      Idle(s);
    }
  }

  lemma WalkExpression(e: PExpression, h: Header, s: State)
    requires Ready(s, h) && OfferExpression(s.stack.top, BuildExpression(e, h)).Took?
    ensures Becomes(s, ExpressionEvents(e), AcceptedExpression(e), OfferExpression(s.stack.top, BuildExpression(e, h)).node)
    decreases e, 1
  {
    hide OfferExpression;
    var s1 := Pushed(s, KExpression, "");
    WalkContents(e, h, s1);
    Production(KExpression, "", ExpressionContents(e), s, h, AcceptedExpression(e), NExpression(BuildExpression(e, h)));
  }

  function ExpressionContents(e: PExpression): seq<Event> {
    match e
    case ExprMath(m) => MathEvents(m)
    case ExprCompare(l, op, r) => ExpressionEvents(l) + [ComparisonOperator(ComparisonText(op))] + ExpressionEvents(r)
    case ExprLogic(l, op, r) => ExpressionEvents(l) + [LogicalOperator(LogicText(op))] + ExpressionEvents(r)
    case ExprAtom(negated, a) => NotEvents(negated) + AtomEvents(a)
    case ExprBracket(negated, n) => NotEvents(negated) + ExpressionEvents(n)
  }

  lemma WalkContents(e: PExpression, h: Header, s: State)
    requires Ready(s, h) && s.stack.top == NExpression(NO_EXPRESSION)
    ensures Becomes(s, ExpressionContents(e), AcceptedExpression(e), NExpression(BuildExpression(e, h)))
    decreases e, 0
  {
    match e {
      case ExprMath(m) => WalkMath(m, h, s);
      case ExprCompare(l, op, r) =>
        var e1 := NO_EXPRESSION.(left := Some(BuildExpression(l, h)));
        WalkExpression(l, h, s);
        CompareToken(op, Top(s, NExpression(e1)), h, e1);
        WalkRight(e, l, ComparisonOperator(ComparisonText(op)), r, h, s, e1, e1.(comparisonOperator := ComparisonText(op)));
      case ExprLogic(l, op, r) =>
        var e1 := NO_EXPRESSION.(left := Some(BuildExpression(l, h)));
        WalkExpression(l, h, s);
        LogicToken(op, Top(s, NExpression(e1)), h, e1);
        WalkRight(e, l, LogicalOperator(LogicText(op)), r, h, s, e1, e1.(logicalOperator := LogicText(op)));
      case ExprAtom(negated, a) =>
        var e1 := NO_EXPRESSION.(notOperator := if negated then "!" else "");
        NotToken(negated, s, h);
        WalkAtom(a, h, Top(s, NExpression(e1)));
        Then(NotEvents(negated), AtomEvents(a), s, true, NExpression(e1), AcceptedAtom(a), NExpression(BuildExpression(e, h)));
      case ExprBracket(negated, n) =>
        var e1 := NO_EXPRESSION.(notOperator := if negated then "!" else "");
        NotToken(negated, s, h);
        WalkExpression(n, h, Top(s, NExpression(e1)));
        Then(NotEvents(negated), ExpressionEvents(n), s, true, NExpression(e1), AcceptedExpression(n),
             NExpression(BuildExpression(e, h)));
    }
  }

  /** From the left operand and its operator token, with their effects known, to the right operand. */
  lemma WalkRight(e: PExpression, l: PExpression, ev: Event, r: PExpression, h: Header, s: State, e1: Expression,
      e2: Expression)
    requires Ready(s, h) && r < e
    requires Becomes(s, ExpressionEvents(l), AcceptedExpression(l), NExpression(e1))
    requires Becomes(Top(s, NExpression(e1)), [ev], true, NExpression(e2))
    requires e2.left.Some? && e2.right == None
    ensures Becomes(s, ExpressionEvents(l) + [ev] + ExpressionEvents(r), AcceptedExpression(l) && AcceptedExpression(r),
                    NExpression(e2.(right := Some(BuildExpression(r, h)))))
    decreases r, 2
  {
    Then(ExpressionEvents(l), [ev], s, AcceptedExpression(l), NExpression(e1), true, NExpression(e2));
    WalkExpression(r, h, Top(s, NExpression(e2)));
    Then(ExpressionEvents(l) + [ev], ExpressionEvents(r), s, AcceptedExpression(l), NExpression(e2), AcceptedExpression(r),
         NExpression(e2.(right := Some(BuildExpression(r, h)))));
  }

  // ---------- Assignments and conc blocks ----------

  function TargetEvents(t: PTarget): seq<Event> {
    match t
    case TargetVariable(name) => [Variable(name)]
    case TargetMapVar(m) => MapVarEvents(m)
  }

  function SourceEvents(x: PSource): seq<Event> {
    match x
    case SourceMath(m) => MathEvents(m)
    case SourceExpression(e) => ExpressionEvents(e)
  }

  lemma AssignToken(op: AssignOperator, s: State, h: Header, a: Assignment)
    requires Ready(s, h) && s.stack.top == NAssignment(a)
    ensures Becomes(s, [AssignOp(AssignText(op))], true, NAssignment(a.(assignOperator := AssignText(op))))
  {
    RunOne(AssignOp(AssignText(op)), s);
  }

  lemma WalkAssignment(a: PAssignment, h: Header, s: State)
    requires Ready(s, h) && OfferAssignment(s.stack.top, BuildAssignment(a, h)).Took?
    ensures Becomes(s, AssignmentEvents(a), AcceptedAssignment(a), OfferAssignment(s.stack.top, BuildAssignment(a, h)).node)
  {
    hide OfferAssignment;
    var s1 := Pushed(s, KAssignment, "");
    var a1 := NO_ASSIGNMENT.(
      variable := if a.target.TargetVariable? then a.target.name else "",
      mapVar := if a.target.TargetMapVar? then Some(BuildMapVar(a.target.mapVar)) else None);
    var a2 := a1.(assignOperator := AssignText(a.op));
    var first := a.target.TargetMapVar? ==> AcceptedMapVar(a.target.mapVar);
    var n := NAssignment(BuildAssignment(a, h));
    match a.target {
      case TargetVariable(name) => VariableToken(name, s1, h);
      case TargetMapVar(m) => WalkMapVar(m, h, s1);
    }
    AssignToken(a.op, Top(s1, NAssignment(a1)), h, a1);
    Then(TargetEvents(a.target), [AssignOp(AssignText(a.op))], s1, first, NAssignment(a1), true, NAssignment(a2));
    WalkSource(a.source, h, Top(s1, NAssignment(a2)), a2);
    Then(TargetEvents(a.target) + [AssignOp(AssignText(a.op))], SourceEvents(a.source), s1, first, NAssignment(a2),
         AcceptedSource(a.source), n);
    Production(KAssignment, "", TargetEvents(a.target) + [AssignOp(AssignText(a.op))] + SourceEvents(a.source), s, h,
               AcceptedAssignment(a), n);
  }

  predicate AcceptedSource(x: PSource) {
    match x
    case SourceMath(m) => AcceptedMath(m)
    case SourceExpression(e) => AcceptedExpression(e)
  }

  lemma WalkSource(x: PSource, h: Header, s: State, a: Assignment)
    requires Ready(s, h) && s.stack.top == NAssignment(a) && a.math == None && a.expression == None
    ensures Becomes(s, SourceEvents(x), AcceptedSource(x), NAssignment(a.(
      math := if x.SourceMath? then Some(BuildMath(x.math, h)) else None,
      expression := if x.SourceExpression? then Some(BuildExpression(x.expression, h)) else None)))
  {
    match x
    case SourceMath(m) => WalkMath(m, h, s);
    case SourceExpression(e) => WalkExpression(e, h, s);
  }

  lemma WalkTask(t: PTask, h: Header, s: State, c: ConcStatement)
    requires Ready(s, h) && s.stack.top == NConc(c)
    ensures Becomes(s, TaskEvents(t), AcceptedTask(t), NConc(WithTask(c, t, h)))
  {
    hide Becomes, Run, Step;
    match t
    case TaskCall(call) => WalkCall(call, h, s);
    case TaskAssignment(a) => WalkAssignment(a, h, s);
  }

  lemma {:induction false} WalkTasks(tasks: seq<PTask>, h: Header, s: State)
    requires Ready(s, h) && s.stack.top == NConc(ConcStatement([], [], [], []))
    ensures Becomes(s, TasksEvents(tasks), AcceptedTasks(tasks), NConc(BuildConc(tasks, h)))
  {
    if tasks == [] {
      Idle(s);
    } else {
      hide Becomes, Run, Step;
      var front, last := tasks[..|tasks| - 1], tasks[|tasks| - 1];
      var m := NConc(BuildConc(front, h));
      WalkTasks(front, h, s);
      WalkTask(last, h, Top(s, m), BuildConc(front, h));
      Then(TasksEvents(front), TaskEvents(last), s, AcceptedTasks(front), m, AcceptedTask(last), NConc(BuildConc(tasks, h)));
    }
  }

  // ---------- Statements ----------

  function OtherwiseEvents(otherwise: Option<PStatements>): seq<Event> {
    if otherwise == None then [] else Inside(KElse, "", StatementsEvents(otherwise.value))
  }

  predicate AcceptedOtherwise(otherwise: Option<PStatements>) {
    otherwise.Some? ==> AcceptedStatements(otherwise.value)
  }

  function BuildOtherwise(otherwise: Option<PStatements>, h: Header): Option<ElseStmt> {
    match otherwise case None => None case Some(o) => Some(ElseStmt(Some(BuildStatements(o, h))))
  }

  function StatementContents(t: PStatement): seq<Event> {
    match t
    case StIf(condition, body, elseIfs, otherwise) =>
      Inside(KIf, "", ExpressionEvents(condition) + StatementsEvents(body) + ElseIfsEvents(elseIfs) + OtherwiseEvents(otherwise))
    case StCall(call) => CallEvents(call)
    case StAssignment(a) => AssignmentEvents(a)
    case StConc(tasks) => Inside(KConc, "", TasksEvents(tasks))
    case StFor(init, condition, update, body) =>
      Inside(KFor, "",
        AssignmentEvents(init) + ExpressionEvents(condition) + AssignmentEvents(update) + StatementsEvents(body))
    case StBreak => Inside(KBreak, "", [])
    case StForRange(key, name, body) =>
      Inside(KForRange, "", [Variable(key), Variable(name)] + StatementsEvents(body))
    case StContinue => Inside(KContinue, "", [])
  }

  lemma WalkStatement(t: PStatement, h: Header, s: State, done: Statements)
    requires Ready(s, h) && s.stack.top == NStatements(done)
    ensures Becomes(s, StatementEvents(t), AcceptedStatement(t),
                    NStatements(done.(list := done.list + [BuildStatement(t, h)])))
    decreases t, 2
  {
    hide Becomes, Run, Step, BuildStatement, AcceptedStatement, StatementContents, StatementEvents;
    WalkStatementContents(t, h, Pushed(s, KStatement, ""));
    InsideStatement(t);
    Production(KStatement, "", StatementContents(t), s, h, AcceptedStatement(t), NStatement(BuildStatement(t, h)));
  }

  lemma InsideStatement(t: PStatement)
    ensures StatementEvents(t) == Inside(KStatement, "", StatementContents(t))
  {
  }

  lemma WalkStatementContents(t: PStatement, h: Header, s: State)
    requires Ready(s, h) && s.stack.top == NStatement(NO_STATEMENT)
    ensures Becomes(s, StatementContents(t), AcceptedStatement(t), NStatement(BuildStatement(t, h)))
    decreases t, 1
  {
    hide Becomes, Run, Step, Inside, CallEvents, AssignmentEvents, AcceptedCall, AcceptedAssignment, BuildCall,
         BuildAssignment, BuildConc, AcceptedTasks;
    match t
    case StIf(_, _, _, _) => WalkIf(t, h, s);
    case StCall(call) => WalkCall(call, h, s);
    case StAssignment(a) => WalkAssignment(a, h, s);
    case StConc(tasks) => WalkConc(tasks, h, s);
    case StFor(_, _, _, _) => WalkFor(t, h, s);
    case StBreak => WalkEmpty(KBreak, NBreak, h, s);
    case StForRange(_, _, _) => WalkForRange(t, h, s);
    case StContinue => WalkEmpty(KContinue, NContinue, h, s);
  }

  lemma WalkEmpty(kind: Kind, n: Node, h: Header, s: State)
    requires Ready(s, h) && s.stack.top == NStatement(NO_STATEMENT)
    requires (kind == KBreak && n == NBreak) || (kind == KContinue && n == NContinue)
    ensures Becomes(s, Inside(kind, "", []), true, OfferNode(s.stack.top, n).node)
  {
    hide Becomes, Run, Step;
    Idle(Pushed(s, kind, ""));
    Production(kind, "", [], s, h, true, n);
  }

  lemma WalkConc(tasks: seq<PTask>, h: Header, s: State)
    requires Ready(s, h) && s.stack.top == NStatement(NO_STATEMENT)
    ensures Becomes(s, Inside(KConc, "", TasksEvents(tasks)), AcceptedTasks(tasks),
                    NStatement(NO_STATEMENT.(concStatement := Some(BuildConc(tasks, h)))))
  {
    hide Becomes, Run, Step, BuildConc, AcceptedTasks;
    WalkTasks(tasks, h, Pushed(s, KConc, ""));
    Production(KConc, "", TasksEvents(tasks), s, h, AcceptedTasks(tasks), NConc(BuildConc(tasks, h)));
  }

  lemma WalkIf(t: PStatement, h: Header, s: State)
    requires Ready(s, h) && s.stack.top == NStatement(NO_STATEMENT) && t.StIf?
    ensures Becomes(s, StatementContents(t), AcceptedStatement(t), NStatement(BuildStatement(t, h)))
    decreases t, 0
  {
    hide Becomes, Run, Step, StatementContents, AcceptedStatement, ExpressionEvents, StatementsEvents,
         ElseIfsEvents, BuildExpression, BuildStatements, BuildElseIfs;
    var s1 := Pushed(s, KIf, "");
    var i1 := IfStmt(Some(BuildExpression(t.condition, h)), None, [], None);
    var i2 := i1.(statements := Some(BuildStatements(t.body, h)));
    var i3 := i2.(elseIfs := BuildElseIfs(t.elseIfs, h));
    var i4 := i3.(elseStmt := BuildOtherwise(t.otherwise, h));
    WalkExpression(t.condition, h, s1);
    WalkStatements(t.body, h, Top(s1, NIf(i1)));
    WalkElseIfs(t.elseIfs, h, Top(s1, NIf(i2)), i2);
    WalkOtherwise(t.otherwise, h, Top(s1, NIf(i3)), i3);
    IfSequence(t, h, s, s1, i1, i2, i3, i4);
  }

  lemma IfSequence(t: PStatement, h: Header, s: State, s1: State, i1: IfStmt, i2: IfStmt, i3: IfStmt, i4: IfStmt)
    requires t.StIf? && Ready(s, h) && s.stack.top == NStatement(NO_STATEMENT) && s1 == Pushed(s, KIf, "")
    requires NStatement(BuildStatement(t, h)) == NStatement(NO_STATEMENT.(ifStmt := Some(i4)))
    requires Becomes(s1, ExpressionEvents(t.condition), AcceptedExpression(t.condition), NIf(i1))
    requires Becomes(Top(s1, NIf(i1)), StatementsEvents(t.body), AcceptedStatements(t.body), NIf(i2))
    requires Becomes(Top(s1, NIf(i2)), ElseIfsEvents(t.elseIfs), AcceptedElseIfs(t.elseIfs), NIf(i3))
    requires Becomes(Top(s1, NIf(i3)), OtherwiseEvents(t.otherwise), AcceptedOtherwise(t.otherwise), NIf(i4))
    ensures Becomes(s, StatementContents(t), AcceptedStatement(t), NStatement(BuildStatement(t, h)))
  {
    hide Becomes, Run, Step, BuildStatement, OtherwiseEvents, ExpressionEvents, StatementsEvents, ElseIfsEvents,
         AcceptedExpression, AcceptedStatements, AcceptedElseIfs, BuildExpression, BuildStatements, BuildElseIfs;
    var e1, e2, e3, e4 := ExpressionEvents(t.condition), StatementsEvents(t.body), ElseIfsEvents(t.elseIfs), OtherwiseEvents(t.otherwise);
    var a1, a2, a3 := AcceptedExpression(t.condition), AcceptedStatements(t.body), AcceptedElseIfs(t.elseIfs);
    Then(e1, e2, s1, a1, NIf(i1), a2, NIf(i2));
    Then(e1 + e2, e3, s1, a1 && a2, NIf(i2), a3, NIf(i3));
    Then(e1 + e2 + e3, e4, s1, a1 && a2 && a3, NIf(i3), AcceptedOtherwise(t.otherwise), NIf(i4));
    Production(KIf, "", e1 + e2 + e3 + e4, s, h, AcceptedStatement(t), NIf(i4));
  }

  lemma WalkOtherwise(otherwise: Option<PStatements>, h: Header, s: State, i: IfStmt)
    requires Ready(s, h) && s.stack.top == NIf(i) && i.elseStmt == None
    ensures Becomes(s, OtherwiseEvents(otherwise), AcceptedOtherwise(otherwise), NIf(i.(elseStmt := BuildOtherwise(otherwise, h))))
    decreases otherwise, 0
  {
    hide Becomes, Run, Step, BuildStatements;
    match otherwise
    case None => Idle(s);
    case Some(o) =>
      WalkStatements(o, h, Pushed(s, KElse, ""));
      Production(KElse, "", StatementsEvents(o), s, h, AcceptedStatements(o), NElse(ElseStmt(Some(BuildStatements(o, h)))));
  }

  lemma {:induction false} WalkElseIfs(list: seq<PElseIf>, h: Header, s: State, i: IfStmt)
    requires Ready(s, h) && s.stack.top == NIf(i) && i.elseIfs == []
    ensures Becomes(s, ElseIfsEvents(list), AcceptedElseIfs(list), NIf(i.(elseIfs := BuildElseIfs(list, h))))
    decreases list, 0
  {
    if list == [] {
      Idle(s);
    } else {
      hide Becomes, Run, Step;
      var front, last := list[..|list| - 1], list[|list| - 1];
      var i1 := i.(elseIfs := BuildElseIfs(front, h));
      WalkElseIfs(front, h, s, i);
      WalkElseIf(last, h, Top(s, NIf(i1)), i1);
      Then(ElseIfsEvents(front), ElseIfEvents(last), s, AcceptedElseIfs(front), NIf(i1), AcceptedElseIf(last),
           NIf(i.(elseIfs := BuildElseIfs(list, h))));
    }
  }

  lemma WalkElseIf(e: PElseIf, h: Header, s: State, i: IfStmt)
    requires Ready(s, h) && s.stack.top == NIf(i)
    ensures Becomes(s, ElseIfEvents(e), AcceptedElseIf(e), NIf(i.(elseIfs := i.elseIfs + [BuildElseIf(e, h)])))
    decreases e
  {
    hide Becomes, Run, Step, BuildExpression, BuildStatements;
    var s1 := Pushed(s, KElseIf, "");
    var e1 := ElseIfStmt(Some(BuildExpression(e.condition, h)), None);
    WalkExpression(e.condition, h, s1);
    WalkStatements(e.body, h, Top(s1, NElseIf(e1)));
    Then(ExpressionEvents(e.condition), StatementsEvents(e.body), s1, AcceptedExpression(e.condition), NElseIf(e1),
         AcceptedStatements(e.body), NElseIf(BuildElseIf(e, h)));
    Production(KElseIf, "", ExpressionEvents(e.condition) + StatementsEvents(e.body), s, h, AcceptedElseIf(e),
               NElseIf(BuildElseIf(e, h)));
  }

  lemma WalkFor(t: PStatement, h: Header, s: State)
    requires Ready(s, h) && s.stack.top == NStatement(NO_STATEMENT) && t.StFor?
    ensures Becomes(s, StatementContents(t), AcceptedStatement(t), NStatement(BuildStatement(t, h)))
    decreases t, 0
  {
    hide Becomes, Run, Step, BuildAssignment, StatementContents, AcceptedStatement, ExpressionEvents,
         StatementsEvents, BuildExpression, BuildStatements, AssignmentEvents;
    var s1 := Pushed(s, KFor, "");
    assert [] + [BuildAssignment(t.init, h)] == [BuildAssignment(t.init, h)];
    assert [BuildAssignment(t.init, h)] + [BuildAssignment(t.update, h)] == [BuildAssignment(t.init, h), BuildAssignment(t.update, h)];
    var f1 := ForStmt(None, None, [BuildAssignment(t.init, h)]);
    var f2 := f1.(expression := Some(BuildExpression(t.condition, h)));
    var f3 := f2.(assignments := [BuildAssignment(t.init, h), BuildAssignment(t.update, h)]);
    var f4 := f3.(statements := Some(BuildStatements(t.body, h)));
    WalkAssignment(t.init, h, s1);
    WalkExpression(t.condition, h, Top(s1, NFor(f1)));
    WalkAssignment(t.update, h, Top(s1, NFor(f2)));
    WalkStatements(t.body, h, Top(s1, NFor(f3)));
    ForSequence(t, h, s, s1, f1, f2, f3, f4);
  }

  lemma ForSequence(t: PStatement, h: Header, s: State, s1: State, f1: ForStmt, f2: ForStmt, f3: ForStmt, f4: ForStmt)
    requires t.StFor? && Ready(s, h) && s.stack.top == NStatement(NO_STATEMENT) && s1 == Pushed(s, KFor, "")
    requires NStatement(BuildStatement(t, h)) == NStatement(NO_STATEMENT.(forStmt := Some(f4)))
    requires Becomes(s1, AssignmentEvents(t.init), AcceptedAssignment(t.init), NFor(f1))
    requires Becomes(Top(s1, NFor(f1)), ExpressionEvents(t.condition), AcceptedExpression(t.condition), NFor(f2))
    requires Becomes(Top(s1, NFor(f2)), AssignmentEvents(t.update), AcceptedAssignment(t.update), NFor(f3))
    requires Becomes(Top(s1, NFor(f3)), StatementsEvents(t.body), AcceptedStatements(t.body), NFor(f4))
    ensures Becomes(s, StatementContents(t), AcceptedStatement(t), NStatement(BuildStatement(t, h)))
  {
    hide Becomes, Run, Step, BuildStatement, AssignmentEvents, AcceptedAssignment;
    var e1, e2, e3, e4 := AssignmentEvents(t.init), ExpressionEvents(t.condition), AssignmentEvents(t.update), StatementsEvents(t.body);
    var a1, a2, a3 := AcceptedAssignment(t.init), AcceptedExpression(t.condition), AcceptedAssignment(t.update);
    Then(e1, e2, s1, a1, NFor(f1), a2, NFor(f2));
    Then(e1 + e2, e3, s1, a1 && a2, NFor(f2), a3, NFor(f3));
    Then(e1 + e2 + e3, e4, s1, a1 && a2 && a3, NFor(f3), AcceptedStatements(t.body), NFor(f4));
    Production(KFor, "", e1 + e2 + e3 + e4, s, h, AcceptedStatement(t), NFor(f4));
  }

  lemma WalkForRange(t: PStatement, h: Header, s: State)
    requires Ready(s, h) && s.stack.top == NStatement(NO_STATEMENT) && t.StForRange?
    ensures Becomes(s, StatementContents(t), AcceptedStatement(t), NStatement(BuildStatement(t, h)))
    decreases t, 0
  {
    hide Becomes, Run, Step;
    var s1 := Pushed(s, KForRange, "");
    var f1 := ForRangeStmt(None, t.key, "");
    var f2 := f1.(name := t.name);
    var f3 := f2.(statements := Some(BuildStatements(t.body, h)));
    VariableToken(t.key, s1, h);
    VariableToken(t.name, Top(s1, NForRange(f1)), h);
    assert [Variable(t.key)] + [Variable(t.name)] == [Variable(t.key), Variable(t.name)];
    Then([Variable(t.key)], [Variable(t.name)], s1, true, NForRange(f1), true, NForRange(f2));
    WalkStatements(t.body, h, Top(s1, NForRange(f2)));
    Then([Variable(t.key), Variable(t.name)], StatementsEvents(t.body), s1, true, NForRange(f2), AcceptedStatements(t.body), NForRange(f3));
    Production(KForRange, "", [Variable(t.key), Variable(t.name)] + StatementsEvents(t.body), s, h, AcceptedStatement(t), NForRange(f3));
  }

  lemma {:induction false} WalkList(list: seq<PStatement>, h: Header, s: State)
    requires Ready(s, h) && s.stack.top == NStatements(Statements([], None))
    ensures Becomes(s, StatementListEvents(list), AcceptedList(list), NStatements(Statements(BuildList(list, h), None)))
    decreases list, 0
  {
    if list == [] {
      Idle(s);
    } else {
      hide Becomes, Run, Step;
      var front, last := list[..|list| - 1], list[|list| - 1];
      var n := Statements(BuildList(front, h), None);
      WalkList(front, h, s);
      WalkStatement(last, h, Top(s, NStatements(n)), n);
      Then(StatementListEvents(front), StatementEvents(last), s, AcceptedList(front), NStatements(n), AcceptedStatement(last),
           NStatements(Statements(BuildList(list, h), None)));
    }
  }

  function ReturnPart(ret: Option<PReturn>): seq<Event> {
    if ret == None then [] else ReturnEvents(ret.value)
  }

  lemma WalkReturn(ret: Option<PReturn>, h: Header, s: State, done: Statements)
    requires Ready(s, h) && s.stack.top == NStatements(done) && done.ret == None
    ensures Becomes(s, ReturnPart(ret), ret.Some? ==> AcceptedReturn(ret.value),
                    NStatements(done.(ret := match ret case None => None case Some(r) => Some(BuildReturn(r, h)))))
  {
    hide Becomes, Run, Step, BuildExpression;
    if ret == None {
      Idle(s);
    } else {
      var r := ret.value;
      var s1 := Pushed(s, KReturn, "");
      match r.value {
        case None => Idle(s1);
        case Some(e) => WalkExpression(e, h, s1);
      }
      Production(KReturn, "", if r.value == None then [] else ExpressionEvents(r.value.value), s, h,
                 AcceptedReturn(r), NReturn(BuildReturn(r, h)));
    }
  }

  lemma WalkStatements(t: PStatements, h: Header, s: State)
    requires Ready(s, h) && OfferStatements(s.stack.top, BuildStatements(t, h)).Took?
    ensures Becomes(s, StatementsEvents(t), AcceptedStatements(t), OfferStatements(s.stack.top, BuildStatements(t, h)).node)
    decreases t
  {
    hide Becomes, Run, Step, OfferStatements, BuildReturn, StatementListEvents, AcceptedList, BuildList;
    var s1 := Pushed(s, KStatements, "");
    var n := Statements(BuildList(t.list, h), None);
    WalkList(t.list, h, s1);
    WalkReturn(t.ret, h, Top(s1, NStatements(n)), n);
    Then(StatementListEvents(t.list), ReturnPart(t.ret), s1, AcceptedList(t.list), NStatements(n),
         t.ret.Some? ==> AcceptedReturn(t.ret.value), NStatements(BuildStatements(t, h)));
    Production(KStatements, "", StatementListEvents(t.list) + ReturnPart(t.ret), s, h, AcceptedStatements(t),
               NStatements(BuildStatements(t, h)));
  }

  // ---------- Rules ----------

  lemma RunTwo(a: Event, b: Event, s: State)
    ensures Run([a, b], s) == Step(Step(s, a), b)
  {
    assert [a, b] == [a] + [b];
    RunConcat([a], [b], s);
    RunOne(a, s);
    RunOne(b, Step(s, a));
  }

  function DescriptionEvents(d: Option<string>): seq<Event> {
    if d == None then [] else [StringLiteral(d.value), RuleDescription(d.value)]
  }

  function SalienceEvents(p: Option<PSalience>): seq<Event> {
    if p == None then []
    else [Integer(IntegerText(p.value.i)), Salience(p.value.keyword + IntegerText(p.value.i))]
  }

  /** Inside a rule whose header read so far is h. */
  function InRule(s: State, h: Header): State
    requires s.stack.Cons?
  {
    s.(ruleName := h.name, ruleDescription := h.description, salience := h.salience,
       stack := Cons(NRule(RuleEntity(h.name, h.salience, h.description, None)), s.stack.below))
  }

  ghost predicate AtHeader(s: State, h: Header) {
    s.errors == 0 && !s.panicked && s.stack.Cons? && s == InRule(s, h)
  }

  lemma WalkName(name: string, s: State)
    requires AtHeader(s, Header("", "", 0))
    ensures if Trim(name, '\"') == "" then Rejected(Run([StringLiteral(name), RuleName(name)], s))
            else Run([StringLiteral(name), RuleName(name)], s) == InRule(s, Header(Trim(name, '\"'), "", 0))
  {
    hide Trim, Run;
    RunTwo(StringLiteral(name), RuleName(name), s);
  }

  lemma WalkDescription(d: Option<string>, s: State, h: Header)
    requires AtHeader(s, h) && h.name != "" && h.description == ""
    ensures Run(DescriptionEvents(d), s) ==
            InRule(s, h.(description := if d == None then "" else Trim(d.value, '\"')))
  {
    hide Trim;
    if d.Some? {
      RunTwo(StringLiteral(d.value), RuleDescription(d.value), s);
    }
  }

  lemma WalkSalience(p: Option<PSalience>, s: State, h: Header)
    requires AtHeader(s, h) && h.salience == 0
    ensures if p.Some? && !InRange(p.value.i) then Rejected(Run(SalienceEvents(p), s))
            else Run(SalienceEvents(p), s) == InRule(s, h.(salience := if p == None then 0 else Number(p.value.i)))
  {
    hide ParseInt, DropKeyword;
    if p.Some? {
      var text := IntegerText(p.value.i);
      RunTwo(Integer(text), Salience(p.value.keyword + text), s);
      SalienceText(p.value.keyword, text);
    }
  }

  function HeaderEvents(r: PRule): seq<Event> {
    [StringLiteral(r.name), RuleName(r.name)] + DescriptionEvents(r.description) + SalienceEvents(r.salience)
  }

  predicate AcceptedHeader(r: PRule) {
    Trim(r.name, '\"') != "" && (r.salience.Some? ==> InRange(r.salience.value.i))
  }

  lemma WalkHeader(r: PRule, s: State)
    requires AtHeader(s, Header("", "", 0))
    ensures if AcceptedHeader(r) then Run(HeaderEvents(r), s) == InRule(s, HeaderOf(r)) else Rejected(Run(HeaderEvents(r), s))
  {
    hide Trim, InRange, Number, Run, Step, DescriptionEvents, SalienceEvents;
    var name := [StringLiteral(r.name), RuleName(r.name)];
    RunConcat(name + DescriptionEvents(r.description), SalienceEvents(r.salience), s);
    RunConcat(name, DescriptionEvents(r.description), s);
    WalkName(r.name, s);
    if Trim(r.name, '\"') != "" {
      var h := Header(Trim(r.name, '\"'), "", 0);
      WalkDescription(r.description, InRule(s, h), h);
      var h' := h.(description := HeaderOf(r).description);
      WalkSalience(r.salience, InRule(s, h'), h');
    }
  }

  lemma WalkContent(body: PStatements, h: Header, s: State, r: RuleEntity)
    requires Ready(s, h) && s.stack.top == NRule(r)
    ensures Becomes(s, Inside(KContent, "", StatementsEvents(body)), AcceptedStatements(body),
                    NRule(r.(ruleContent := Some(RuleContent(Some(BuildStatements(body, h)))))))
  {
    hide Becomes, Run, Step, BuildStatements, StatementsEvents;
    WalkStatements(body, h, Pushed(s, KContent, ""));
    Production(KContent, "", StatementsEvents(body), s, h, AcceptedStatements(body),
               NContent(RuleContent(Some(BuildStatements(body, h)))));
  }

  /** What one rule does to the listener: it is registered, and its header is left in the listener's fields. */
  function Registering(s: State, r: PRule): State {
    var h := HeaderOf(r);
    s.(ruleName := h.name, ruleDescription := h.description, salience := h.salience, rules := s.rules[h.name := BuildRule(r)])
  }

  lemma WalkRule(r: PRule, s: State)
    requires s.errors == 0 && !s.panicked
    ensures if AcceptedRule(r) && HeaderOf(r).name !in s.rules then Run(RuleEvents(r), s) == Registering(s, r)
            else Rejected(Run(RuleEvents(r), s))
  {
    hide Run, HeaderOf, AcceptedStatements, BuildStatements, StatementsEvents, HeaderEvents, Trim, InRange, Becomes;
    var entered := Step(s, Enter(KRule, ""));
    var content := Inside(KContent, "", StatementsEvents(r.body));
    RuleEventsParts(r);
    RunConcat([Enter(KRule, "")] + HeaderEvents(r) + content, [Exit(KRule)], s);
    RunConcat([Enter(KRule, "")] + HeaderEvents(r), content, s);
    RunConcat([Enter(KRule, "")], HeaderEvents(r), s);
    RunOne(Enter(KRule, ""), s);
    WalkHeader(r, entered);
    if AcceptedHeader(r) {
      WalkBody(r, s, entered);
    }
  }

  lemma RuleEventsParts(r: PRule)
    ensures RuleEvents(r) == [Enter(KRule, "")] + HeaderEvents(r) + Inside(KContent, "", StatementsEvents(r.body)) + [Exit(KRule)]
  {
    hide Inside, StatementsEvents;
    var name := [StringLiteral(r.name), RuleName(r.name)];
    var content := Inside(KContent, "", StatementsEvents(r.body));
    assert HeaderEvents(r) == name + DescriptionEvents(r.description) + SalienceEvents(r.salience);
    assert RuleEvents(r) == Inside(KRule, "", HeaderEvents(r) + content);
    InsideIs(KRule, "", HeaderEvents(r) + content);
    assert [Enter(KRule, "")] + (HeaderEvents(r) + content) == [Enter(KRule, "")] + HeaderEvents(r) + content;
  }

  lemma InsideIs(kind: Kind, name: string, body: seq<Event>)
    ensures Inside(kind, name, body) == [Enter(kind, name)] + body + [Exit(kind)]
  {
  }

  lemma WalkBody(r: PRule, s: State, entered: State)
    requires s.errors == 0 && !s.panicked && AcceptedHeader(r) && entered == Step(s, Enter(KRule, ""))
    ensures var end := Run(Inside(KContent, "", StatementsEvents(r.body)), InRule(entered, HeaderOf(r)));
            if !AcceptedStatements(r.body) then Rejected(end)
            else if HeaderOf(r).name in s.rules then Rejected(Run([Exit(KRule)], end))
            else Run([Exit(KRule)], end) == Registering(s, r)
  {
    hide Run, HeaderOf, AcceptedStatements, BuildStatements, StatementsEvents, HeaderEvents, Trim, InRange;
    var h := HeaderOf(r);
    var s1 := InRule(entered, h);
    WalkContent(r.body, h, s1, RuleEntity(h.name, h.salience, h.description, None));
    RunOne(Exit(KRule), Run(Inside(KContent, "", StatementsEvents(r.body)), s1));
  }

  // ---------- Whole programs ----------

  /** Every rule is accepted, and no two rules share a name. */
  predicate AcceptedRules(rules: seq<PRule>) {
    && (forall i | 0 <= i < |rules| :: AcceptedRule(rules[i]))
    && (forall i, j | 0 <= i < j < |rules| :: HeaderOf(rules[i]).name != HeaderOf(rules[j]).name)
  }

  /**
   Parsing a whole program from a fresh listener. No type assertion ever fails. There is no error
   exactly when every rule is accepted and the names are distinct, and then the stack is empty again
   and the registry holds exactly the built rules under their names.
   */
  lemma {:induction false} ParseProgram(rules: seq<PRule>)
    ensures !Run(PrimaryEvents(rules), START).panicked
    ensures Run(PrimaryEvents(rules), START).errors == 0 <==> AcceptedRules(rules)
    ensures AcceptedRules(rules) ==>
      var end := Run(PrimaryEvents(rules), START);
      && end.stack == Bottom
      && (forall i | 0 <= i < |rules| :: HeaderOf(rules[i]).name in end.rules && end.rules[HeaderOf(rules[i]).name] == BuildRule(rules[i]))
      && (forall name <- end.rules :: exists i | 0 <= i < |rules| :: HeaderOf(rules[i]).name == name)
  {
    hide Step, AcceptedRule, HeaderOf, BuildRule, RuleEvents;
    if rules != [] {
      var front, last := rules[..|rules| - 1], rules[|rules| - 1];
      ParseProgram(front);
      RunConcat(PrimaryEvents(front), RuleEvents(last), START);
      var mid := Run(PrimaryEvents(front), START);
      if mid.errors == 0 {
        WalkRule(last, mid);
        AcceptedSnoc(front, last, mid);
      }
      assert front + [last] == rules;
    }
  }

  lemma AcceptedSnoc(front: seq<PRule>, last: PRule, mid: State)
    requires AcceptedRules(front)
    requires forall i | 0 <= i < |front| :: HeaderOf(front[i]).name in mid.rules
    requires forall name <- mid.rules :: exists i | 0 <= i < |front| :: HeaderOf(front[i]).name == name
    ensures AcceptedRules(front + [last]) <==> AcceptedRule(last) && HeaderOf(last).name !in mid.rules
  {
    hide HeaderOf, AcceptedRule;
    var all := front + [last];
    if AcceptedRules(all) {
      assert all[|front|] == last;
      forall i | 0 <= i < |front| ensures HeaderOf(front[i]).name != HeaderOf(last).name {
        assert all[i] == front[i];
      }
    }
  }

  /** The registry a program parses to is keyed by rule name, as the rule index assumes. */
  lemma ParsedKeyed(rules: seq<PRule>)
    requires AcceptedRules(rules)
    ensures Keyed(Run(PrimaryEvents(rules), START).rules)
  {
    ParseProgram(rules);
    var reg := Run(PrimaryEvents(rules), START).rules;
    forall name <- reg ensures reg[name].ruleName == name {
      var i :| 0 <= i < |rules| && HeaderOf(rules[i]).name == name;
    }
  }

  /** An integer literal is accepted exactly if its value is a 64-bit integer, and stands for that value. */
  lemma IntegerRange(i: PInteger)
    ensures var n := if i.negative then -(DigitsValue(i.digits) as int) else DigitsValue(i.digits);
            (InRange(i) <==> MIN_INT64 <= n <= MAX_INT64) && (InRange(i) ==> Number(i) == n)
  {
    if i.negative {
      assert ("-" + i.digits)[1..] == i.digits;
    } else {
      assert "" + i.digits == i.digits;
    }
  }

  /** A boolean literal is any mix of cases to the lexer, but only these spellings convert. */
  lemma BooleanSpelling(text: BooleanText)
    ensures ParseBool(text).Some? <==> text in ["true", "True", "TRUE", "false", "False", "FALSE"]
    ensures ParseBool(text).Some? ==> ParseBool(text) == Some(ToLower(text) == "true")
  {
    assert |ToLower(text)| == |text|;
    assert ToLower("true") == ToLower("True") == ToLower("TRUE") == "true";
    assert ToLower("false") == ToLower("False") == ToLower("FALSE") == "false";
  }

  /** @name inside a rule is the rule's name exactly when the name has no quote inside. */
  lemma AtNameIsRuleName(r: PRule)
    ensures ConstantValue(PAtName, HeaderOf(r)) == Str(BuildRule(r).ruleName) <==> '\"' !in BuildRule(r).ruleName
  {
    StripQuotesIdentityIff(BuildRule(r).ruleName);
  }

  /** The rule named `a""b`: @name inside it is `ab`. */
  lemma QuotedNameDiffers(r: PRule)
    requires r.name == "\"a\"\"b\""
    ensures BuildRule(r).ruleName == "a\"\"b" && ConstantValue(PAtName, HeaderOf(r)) == Str("ab")
  {
    var text, name := r.name, "a\"\"b";
    assert text[1..] == "a\"\"b\"" && TrimLeft(text[1..], '\"') == text[1..];
    assert text[1..][..4] == name && TrimRight(name, '\"') == name;
    assert name[1..] == "\"\"b" && name[1..][1..] == "\"b" && name[1..][1..][1..] == "b";
    assert StripQuotes("b") == "b" + StripQuotes("") == "b";
    assert StripQuotes(name) == "a" + StripQuotes(name[1..]) == "ab";
  }

  /** @sal inside a rule is the salience the rule is sorted by. */
  lemma AtSalIsSalience(r: PRule)
    ensures ConstantValue(PAtSal, HeaderOf(r)) == Int(Signed, BuildRule(r).salience)
  {
  }
}
