/**
 The parse listener as it runs: a stack of records under construction, the parse errors, the header
 of the current rule, and the registry. The callbacks that push an empty record, and those that hand
 a finished one to the record below, differ only in the record's kind, which is a parameter here.
 */
module ParserListener {
  import opened Values
  import opened Ast
  import opened Text
  import opened ParseTree
  import opened RuleOrder
  import opened Listener
  import opened FrontEnd
  import opened TreeWalk

  class NodeStack {
    var items: seq<Node>

    constructor ()
      ensures items == []
    {
      items := [];
    }

    method Push(v: Node)
      modifies this
      ensures items == old(items) + [v]
    {
      items := items + [v];
    }

    method Pop() returns (v: Option<Node>)
      modifies this
      ensures old(items) == [] ==> v == None && items == []
      ensures old(items) != [] ==> v.Some? && items + [v.value] == old(items)
    {
      var n := |items|;
      if n == 0 {
        return None;
      }
      v := Some(items[n - 1]);
      items := items[..n - 1];
    }

    method Peek() returns (v: Option<Node>)
      ensures v == if items == [] then None else Some(items[|items| - 1])
    {
      var n := |items|;
      if n == 0 {
        return None;
      }
      v := Some(items[n - 1]);
    }

    method Len() returns (n: nat)
      ensures n == |items|
    {
      n := |items|;
    }

    /** Sets fields of the record on top, through the pointer a Peek returned. */
    method Change(v: Node)
      requires items != []
      modifies this
      ensures items == old(items)[|old(items)| - 1 := v]
    {
      items := items[|items| - 1 := v];
    }
  }

  /** The listener model's stack with the same records. */
  function Stacked(items: seq<Node>): Stack {
    if items == [] then Bottom else Cons(items[|items| - 1], Stacked(items[..|items| - 1]))
  }

  lemma StackedPush(items: seq<Node>, v: Node)
    ensures Stacked(items + [v]) == Cons(v, Stacked(items))
  {
    assert (items + [v])[..|items|] == items;
  }

  lemma StackedChange(items: seq<Node>, v: Node)
    requires items != []
    ensures Stacked(items[|items| - 1 := v]) == Cons(v, Stacked(items[..|items| - 1]))
  {
    assert items[|items| - 1 := v] == items[..|items| - 1] + [v];
    StackedPush(items[..|items| - 1], v);
  }

  class GengineParserListener {
    var parseErrors: nat
    var rules: Registry
    const stack: NodeStack
    var ruleName: string
    var ruleDescription: string
    var salience: int

    constructor ()
      ensures Abstract() == START && fresh(stack)
    {
      parseErrors := 0;
      rules := map[];
      stack := new NodeStack();
      ruleName := "";
      ruleDescription := "";
      salience := 0;
    }

    ghost function Abstract(): State
      reads this, stack
    {
      State(Stacked(stack.items), parseErrors, false, ruleName, ruleDescription, salience, rules)
    }

    /** What a callback leaves: the model's next state, or a panic where the model has one. */
    ghost predicate Reaches(next: State, panics: bool)
      reads this, stack
    {
      panics == next.panicked && (!panics ==> Abstract() == next)
    }

    method AddError()
      modifies this
      ensures Abstract() == Fail(old(Abstract())) && stack.items == old(stack.items)
    {
      parseErrors := parseErrors + 1;
    }

    method EnterRuleEntity()
      modifies this, stack
      ensures Abstract() == Step(old(Abstract()), Enter(KRule, ""))
    {
      if parseErrors > 0 {
        return;
      }
      ruleName := "";
      ruleDescription := "";
      salience := 0;
      StackedPush(stack.items, Empty(KRule, ""));
      stack.Push(Empty(KRule, ""));
    }

    method EnterProduction(kind: Kind, name: string)
      requires kind != KRule
      modifies this, stack
      ensures Abstract() == Step(old(Abstract()), Enter(kind, name))
    {
      if parseErrors > 0 {
        return;
      }
      StackedPush(stack.items, Empty(kind, name));
      stack.Push(Empty(kind, name));
    }

    method ExitRuleEntity() returns (panics: bool)
      modifies this, stack
      ensures Reaches(Step(old(Abstract()), Exit(KRule)), panics)
    {
      if parseErrors > 0 {
        return false;
      }
      var popped := stack.Pop();
      if !(popped.Some? && popped.value.NRule?) {
        return true;
      }
      var entity := popped.value.rule;
      assert Stacked(old(stack.items)) == Cons(popped.value, Stacked(stack.items)) by {
        StackedPush(stack.items, popped.value);
      }
      if entity.ruleName in rules {
        AddError();
        return false;
      }
      rules := rules[entity.ruleName := entity];
      return false;
    }

    method ExitProduction(kind: Kind) returns (panics: bool)
      requires kind != KRule
      modifies this, stack
      ensures Reaches(Step(old(Abstract()), Exit(kind)), panics)
    {
      hide OfferNode, LeafStep, Empty, KindOf;
      if parseErrors > 0 {
        return false;
      }
      ghost var before := Abstract();
      assert Step(before, Exit(kind)) == ExitStep(before, kind);
      hide Step;
      var popped := stack.Pop();
      if popped == None {
        return true;
      }
      assert Stacked(old(stack.items)) == Cons(popped.value, Stacked(stack.items)) by {
        StackedPush(stack.items, popped.value);
      }
      if KindOf(popped.value) != kind {
        return true;
      }
      NotARule(popped.value);
      var holder := stack.Peek();
      if holder == None {
        return true;
      }
      panics := Accept(OfferNode(holder.value, popped.value));
    }

    /** The outcome of offering something to the record on top. */
    method Accept(offer: Offer) returns (panics: bool)
      requires stack.items != []
      modifies this, stack
      ensures Reaches(Settle(old(Abstract()), old(Abstract()).stack.below, offer), panics)
    {
      match offer
      case Took(node) =>
        StackedChange(stack.items, node);
        stack.Change(node);
        return false;
      case Refused =>
        AddError();
        return false;
      case WrongType =>
        return true;
    }

    /** Sets a field of the record on top. */
    method SetTop(node: Node)
      requires stack.items != []
      modifies stack
      ensures Abstract() == old(Abstract()).(stack := Cons(node, old(Abstract()).stack.below))
    {
      StackedChange(stack.items, node);
      stack.Change(node);
    }

    method ExitRuleName(text: string) returns (panics: bool)
      modifies this, stack
      ensures Reaches(Step(old(Abstract()), RuleName(text)), panics)
    {
      hide Trim;
      if parseErrors > 0 {
        return false;
      }
      var name := Trim(text, '\"');
      if name == "" {
        AddError();
        return false;
      }
      var top := stack.Peek();
      if top == None || !top.value.NRule? {
        return true;
      }
      ruleName := name;
      SetTop(NRule(top.value.rule.(ruleName := name)));
      return false;
    }

    method ExitRuleDescription(text: string) returns (panics: bool)
      modifies this, stack
      ensures Reaches(Step(old(Abstract()), RuleDescription(text)), panics)
    {
      hide Trim;
      if parseErrors > 0 {
        return false;
      }
      var description := Trim(text, '\"');
      var top := stack.Peek();
      if top == None || !top.value.NRule? {
        return true;
      }
      SetTop(NRule(top.value.rule.(ruleDescription := description)));
      ruleDescription := description;
      return false;
    }

    method ExitSalience(text: string) returns (panics: bool)
      modifies this, stack
      ensures Reaches(Step(old(Abstract()), Salience(text)), panics)
    {
      hide ParseInt, ToLower, DropKeyword;
      if parseErrors > 0 {
        return false;
      }
      var i := ParseInt(DropKeyword(ToLower(text)));
      if i == None {
        AddError();
        return false;
      }
      salience := i.value;
      return false;
    }

    method ExitVariable(text: string) returns (panics: bool)
      modifies this, stack
      ensures Reaches(Step(old(Abstract()), Variable(text)), panics)
    {
      hide OfferVariable;
      if parseErrors > 0 {
        return false;
      }
      var holder := stack.Peek();
      if holder == None {
        return true;
      }
      panics := Accept(OfferVariable(holder.value, text));
    }

    method ExitStringLiteral(text: string) returns (panics: bool)
      modifies this, stack
      ensures Reaches(Step(old(Abstract()), StringLiteral(text)), panics)
    {
      hide OfferString, Trim;
      if parseErrors > 0 {
        return false;
      }
      var holder := stack.Peek();
      if holder == None {
        return true;
      }
      var txt := Trim(text, '\"');
      if holder.value.NMapVar? && txt == "" {
        AddError();
      }
      panics := Accept(OfferString(holder.value, txt));
    }

    method ExitInteger(text: string) returns (panics: bool)
      modifies this, stack
      ensures Reaches(Step(old(Abstract()), Integer(text)), panics)
    {
      hide OfferInteger, ParseInt;
      if parseErrors > 0 {
        return false;
      }
      var val := ParseInt(text);
      if val == None {
        AddError();
        return false;
      }
      var holder := stack.Peek();
      if holder == None {
        return true;
      }
      panics := Accept(OfferInteger(holder.value, val.value));
    }

    method ExitBooleanLiteral(text: string) returns (panics: bool)
      modifies this, stack
      ensures Reaches(Step(old(Abstract()), BooleanLiteral(text)), panics)
    {
      hide ParseBool;
      if parseErrors > 0 {
        return false;
      }
      var cons := stack.Peek();
      if cons == None || !cons.value.NConstant? {
        return true;
      }
      var b := ParseBool(text);
      if b == None {
        AddError();
        return false;
      }
      SetTop(NConstant(Constant(Bool(b.value))));
      return false;
    }

    method ExitRealLiteral(float: Option<nat>) returns (panics: bool)
      modifies this, stack
      ensures Reaches(Step(old(Abstract()), RealLiteral(float)), panics)
    {
      if parseErrors > 0 {
        return false;
      }
      var cons := stack.Peek();
      if cons == None || !cons.value.NConstant? {
        return true;
      }
      if float == None {
        AddError();
        return false;
      }
      SetTop(NConstant(Constant(Float(float.value))));
      return false;
    }

    /** @name, @id, @desc and @sal: the current rule's header as a constant. */
    method ExitAt(ev: Event) returns (panics: bool)
      requires ev.AtName? || ev.AtId? || ev.AtDesc? || ev.AtSal?
      modifies this, stack
      ensures Reaches(Step(old(Abstract()), ev), panics)
    {
      hide StripQuotes, IdOf;
      if parseErrors > 0 {
        return false;
      }
      var holder := stack.Peek();
      if holder == None {
        return true;
      }
      var v: Value;
      match ev {
        case AtName => v := Str(StripQuotes(ruleName));
        case AtDesc => v := Str(StripQuotes(ruleDescription));
        case AtId => v := Int(Signed, IdOf(ruleName));
        case _ => v := Int(Signed, salience);
      }
      panics := Accept(OfferValue(holder.value, v));
    }

    /** The operator callbacks assign the operator's text to a field of the record on top. */
    method ExitOperator(ev: Event) returns (panics: bool)
      requires ev.LogicalOperator? || ev.ComparisonOperator? || ev.NotOperator? || ev.MathPmOperator? || ev.MathMdOperator? || ev.AssignOp?
      modifies this, stack
      ensures Reaches(Step(old(Abstract()), ev), panics)
    {
      if parseErrors > 0 {
        return false;
      }
      var top := stack.Peek();
      if top == None {
        return true;
      }
      var n := top.value;
      match ev {
        case LogicalOperator(text) =>
          if !n.NExpression? { return true; }
          SetTop(NExpression(n.expression.(logicalOperator := text)));
        case ComparisonOperator(text) =>
          if !n.NExpression? { return true; }
          SetTop(NExpression(n.expression.(comparisonOperator := text)));
        case NotOperator =>
          if !n.NExpression? { return true; }
          SetTop(NExpression(n.expression.(notOperator := "!")));
        case MathPmOperator(text) =>
          if !n.NMath? { return true; }
          SetTop(NMath(n.math.(pmOperator := text)));
        case MathMdOperator(text) =>
          if !n.NMath? { return true; }
          SetTop(NMath(n.math.(mdOperator := text)));
        case AssignOp(text) =>
          if !n.NAssignment? { return true; }
          SetTop(NAssignment(n.assignment.(assignOperator := text)));
      }
      return false;
    }

    /** The callback an event raises. */
    method Callback(ev: Event) returns (panics: bool)
      modifies this, stack
      ensures Reaches(Step(old(Abstract()), ev), panics)
    {
      hide Step, Malformed;
      panics := false;
      match ev
      case Enter(kind, name) =>
        if kind == KRule {
          EnterRuleEntity();
          EnterRuleIgnoresName(old(Abstract()), name);
        } else {
          EnterProduction(kind, name);
        }
      case Exit(kind) =>
        if kind == KRule {
          panics := ExitRuleEntity();
        } else {
          panics := ExitProduction(kind);
        }
      case RuleName(text) => panics := ExitRuleName(text);
      case RuleDescription(text) => panics := ExitRuleDescription(text);
      case Salience(text) => panics := ExitSalience(text);
      case Variable(text) => panics := ExitVariable(text);
      case StringLiteral(text) => panics := ExitStringLiteral(text);
      case BooleanLiteral(text) => panics := ExitBooleanLiteral(text);
      case RealLiteral(float) => panics := ExitRealLiteral(float);
      case Integer(text) => panics := ExitInteger(text);
      case AtName | AtId | AtDesc | AtSal => panics := ExitAt(ev);
      case _ => panics := ExitOperator(ev);
    }

    /** Walking a program: the parse-tree walker calls back in order until a callback panics. */
    method Walk(rules: seq<PRule>) returns (panics: bool)
      requires Abstract() == START
      modifies this, stack
      ensures !panics
      ensures parseErrors == 0 <==> AcceptedRules(rules)
      ensures AcceptedRules(rules) ==>
        && stack.items == []
        && (forall i | 0 <= i < |rules| :: HeaderOf(rules[i]).name in this.rules && this.rules[HeaderOf(rules[i]).name] == BuildRule(rules[i]))
        && (forall name <- this.rules :: exists i | 0 <= i < |rules| :: HeaderOf(rules[i]).name == name)
    {
      hide Step, PrimaryEvents, HeaderOf, BuildRule, AcceptedRules;
      var evs := PrimaryEvents(rules);
      panics := false;
      ParseProgram(rules);
      var i := 0;
      while i < |evs|
        invariant 0 <= i <= |evs|
        invariant !panics && Abstract() == Run(evs[..i], START)
      {
        RunPrefix(evs, i, START);
        panics := Callback(evs[i]);
        i := i + 1;
      }
      assert evs[..i] == evs;
    }
  }

  lemma EnterRuleIgnoresName(s: State, name: string)
    ensures Step(s, Enter(KRule, name)) == Step(s, Enter(KRule, ""))
  {
  }

  /** A run that does not panic in the end does not panic on the way. */
  lemma {:induction false} RunPrefix(evs: seq<Event>, i: nat, s: State)
    requires i < |evs| && !Run(evs, s).panicked
    ensures Run(evs[..i + 1], s) == Step(Run(evs[..i], s), evs[i])
    ensures !Run(evs[..i + 1], s).panicked
  {
    hide Step;
    assert evs[..i + 1][..i] == evs[..i];
    PanicSticks(evs, i + 1, s);
  }

  lemma {:induction false} PanicSticks(evs: seq<Event>, i: nat, s: State)
    requires i <= |evs| && !Run(evs, s).panicked
    ensures !Run(evs[..i], s).panicked
    decreases |evs|
  {
    if i == |evs| {
      assert evs[..i] == evs;
    } else {
      var front := evs[..|evs| - 1];
      assert !Run(front, s).panicked;
      PanicSticks(front, i, s);
      assert front[..i] == evs[..i];
    }
  }

  lemma NotARule(n: Node)
    ensures KindOf(n) != KRule ==> !n.NRule?
  {
  }
}
