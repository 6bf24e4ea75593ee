/**
 Conditions and conditional statements, by the value of the condition's expression: exactly a value that
 reads as true takes the branch, exactly one that reads as false passes it, and any other panics.
 */
module Conditions {
  import opened Values
  import opened Ast
  import opened ParseTree
  import opened FrontEnd
  import opened Runtime
  import opened Evaluator
  import opened Interleaving
  import opened Execution
  import opened Meaning
  import opened Preservation

  datatype Choice = Yes | No | Fault(f: Fault)

  /** What the value of an expression decides. */
  function Decide(c: Eval): Choice {
    match c.r
    case Lost(f) => Fault(f)
    case Got(v) =>
      match Content(v, c.w.heap)
      case Bool(b) => if b then Yes else No
      case _ => Fault(Panicked)
  }

  lemma ConditionDecides(env: Env, h: Header, e: PExpression, w: World)
    ensures var c := MeanExpression(env, h, e, w);
            MeanCondition(env, h, e, w) ==
            Eval(c.w, match Decide(c) case Yes => Got(Bool(true)) case No => Got(Bool(false)) case Fault(f) => Lost(f))
  {
    hide MeanExpression;
  }

  /** The world after the conditions of the first k else-ifs, if all of them read as false. */
  function PassedBy(env: Env, h: Header, elseIfs: seq<PElseIf>, k: nat, w: World): Option<World>
    requires k <= |elseIfs|
  {
    if k == 0 then Some(w)
    else
      match PassedBy(env, h, elseIfs, k - 1, w)
      case None => None
      case Some(w1) =>
        var c := MeanExpression(env, h, elseIfs[k - 1].condition, w1);
        if Decide(c) == No then Some(c.w) else None
  }

  lemma {:induction false} ElseIfsPassed(env: Env, h: Header, t: PStatement, k: nat, w: World)
    requires t.StIf? && k <= |t.elseIfs| && PassedBy(env, h, t.elseIfs, k, w).Some?
    ensures MeanElseIfs(env, h, t, 0, w) == MeanElseIfs(env, h, t, k, PassedBy(env, h, t.elseIfs, k, w).value)
  {
    hide MeanExpression, MeanCondition, MeanStatements;
    if k > 0 {
      ElseIfsPassed(env, h, t, k - 1, w);
      ConditionDecides(env, h, t.elseIfs[k - 1].condition, PassedBy(env, h, t.elseIfs, k - 1, w).value);
    }
  }

  /**
   An if statement whose condition reads as true ends as its body does from the world the condition
   left; one whose condition is no boolean panics, and an error in the condition ends it.
   */
  lemma IfTakes(env: Env, h: Header, t: PStatement, w: World)
    requires t.StIf?
    ensures var c := MeanExpression(env, h, t.condition, w);
            && (Decide(c) == Yes ==> MeanStatement(env, h, t, w) == MeanStatements(env, h, t.body, c.w))
            && (Decide(c).Fault? ==> MeanStatement(env, h, t, w) == Flow(c.w, Error(Decide(c).f, false)))
  {
    hide MeanExpression, MeanCondition, MeanStatements, MeanElseIfs;
    ConditionDecides(env, h, t.condition, w);
  }

  /**
   One whose condition reads as false ends as the first else-if whose condition reads as true, and with
   a fault if a condition on the way is no boolean or fails.
   */
  lemma ElseIfTakes(env: Env, h: Header, t: PStatement, w: World, k: nat)
    requires t.StIf? && k < |t.elseIfs|
    requires Decide(MeanExpression(env, h, t.condition, w)) == No
    requires PassedBy(env, h, t.elseIfs, k, MeanExpression(env, h, t.condition, w).w).Some?
    ensures var w1 := PassedBy(env, h, t.elseIfs, k, MeanExpression(env, h, t.condition, w).w).value;
            var c := MeanExpression(env, h, t.elseIfs[k].condition, w1);
            && (Decide(c) == Yes ==> MeanStatement(env, h, t, w) == MeanStatements(env, h, t.elseIfs[k].body, c.w))
            && (Decide(c).Fault? ==> MeanStatement(env, h, t, w) == Flow(c.w, Error(Decide(c).f, false)))
  {
    hide MeanExpression, MeanCondition, MeanStatements;
    ConditionDecides(env, h, t.condition, w);
    var w0 := MeanExpression(env, h, t.condition, w).w;
    ElseIfsPassed(env, h, t, k, w0);
    ConditionDecides(env, h, t.elseIfs[k].condition, PassedBy(env, h, t.elseIfs, k, w0).value);
  }

  /** If all conditions read as false it ends as the else branch, if there is one. */
  lemma ElseTakes(env: Env, h: Header, t: PStatement, w: World)
    requires t.StIf? && Decide(MeanExpression(env, h, t.condition, w)) == No
    requires PassedBy(env, h, t.elseIfs, |t.elseIfs|, MeanExpression(env, h, t.condition, w).w).Some?
    ensures var w1 := PassedBy(env, h, t.elseIfs, |t.elseIfs|, MeanExpression(env, h, t.condition, w).w).value;
            MeanStatement(env, h, t, w) ==
            if t.otherwise.Some? then MeanStatements(env, h, t.otherwise.value, w1) else Flow(w1, Normal)
  {
    hide MeanExpression, MeanCondition, MeanStatements;
    ConditionDecides(env, h, t.condition, w);
    ElseIfsPassed(env, h, t, |t.elseIfs|, MeanExpression(env, h, t.condition, w).w);
  }

  // ---------- Execution ----------

  /** The engine's own if statement, on the record of an accepted tree, goes the way its condition's value says. */
  lemma IfExecutes(env: Env, h: Header, t: PStatement, w: World)
    requires AcceptedStatement(t) && t.StIf?
    ensures var c := MeanExpression(env, h, t.condition, w);
            var e := EvalIf(env, BuildStatement(t, h).ifStmt.value, w);
            match Decide(c)
            case Yes => EncodesInList(e, MeanStatements(env, h, t.body, c.w))
            case Fault(f) => e.w == c.w && e.err == Raised(f)
            case No =>
              match PassedBy(env, h, t.elseIfs, |t.elseIfs|, c.w)
              case Some(w1) =>
                EncodesInList(e, if t.otherwise.Some? then MeanStatements(env, h, t.otherwise.value, w1) else Flow(w1, Normal))
              case None =>
                forall k, w1 | 0 <= k < |t.elseIfs| && PassedBy(env, h, t.elseIfs, k, c.w) == Some(w1) ::
                  var d := MeanExpression(env, h, t.elseIfs[k].condition, w1);
                  && (Decide(d) == Yes ==> EncodesInList(e, MeanStatements(env, h, t.elseIfs[k].body, d.w)))
                  && (Decide(d).Fault? ==> e.w == d.w && e.err == Raised(Decide(d).f))
  {
    hide MeanExpression, MeanStatements, EvalIf, MeanStatement, BuildStatement, AcceptedStatement;
    BuildsIf(t, h);
    IfAgrees(env, h, t, w);
    var c := MeanExpression(env, h, t.condition, w);
    IfTakes(env, h, t, w);
    if Decide(c) == No {
      if PassedBy(env, h, t.elseIfs, |t.elseIfs|, c.w).Some? {
        ElseTakes(env, h, t, w);
      } else {
        forall k, w1 | 0 <= k < |t.elseIfs| && PassedBy(env, h, t.elseIfs, k, c.w) == Some(w1)
          ensures var d := MeanExpression(env, h, t.elseIfs[k].condition, w1);
                  var e := EvalIf(env, BuildStatement(t, h).ifStmt.value, w);
                  && (Decide(d) == Yes ==> EncodesInList(e, MeanStatements(env, h, t.elseIfs[k].body, d.w)))
                  && (Decide(d).Fault? ==> e.w == d.w && e.err == Raised(Decide(d).f))
        {
          ElseIfTakes(env, h, t, w, k);
        }
      }
    }
  }

  lemma BuildsIf(t: PStatement, h: Header)
    requires t.StIf?
    ensures BuildStatement(t, h).ifStmt.Some?
  {
  }

  /** One of the else-ifs decides, if not all conditions read as false. */
  lemma {:induction false} SomeDecides(env: Env, h: Header, elseIfs: seq<PElseIf>, n: nat, w: World) returns (k: nat)
    requires n <= |elseIfs| && PassedBy(env, h, elseIfs, n, w) == None
    ensures k < n && PassedBy(env, h, elseIfs, k, w).Some?
    ensures Decide(MeanExpression(env, h, elseIfs[k].condition, PassedBy(env, h, elseIfs, k, w).value)) != No
  {
    hide MeanExpression, Decide;
    if PassedBy(env, h, elseIfs, n - 1, w).Some? {
      k := n - 1;
    } else {
      k := SomeDecides(env, h, elseIfs, n - 1, w);
    }
  }

  /** `if true { return 1 } else { return 2 }` returns 1, and with `false` 2. */
  lemma LiteralIf(env: Env, r: PRule, b: bool, word: BooleanText, one: PInteger, two: PInteger, w: World)
    requires AcceptedRule(r) && word == (if b then "true" else "false") && Number(one) == 1 && Number(two) == 2
    requires r.body == PStatements([StIf(Literal(PBool(word)), Returning(Literal(PInt(one))), [],
                                         Some(Returning(Literal(PInt(two)))))], None)
    ensures var e := Execute(env, BuildRule(r), w);
            e.err == NoError && e.flag && e.value == Int(Signed, if b then 1 else 2)
  {
    hide Execute, BuildRule, HeaderOf, Number;
    RuleAgrees(env, r, w);
    var h, own, st := HeaderOf(r), w.(vars := map[]), r.body.list[0];
    assert MeanExpression(env, h, Literal(PBool(word)), own) == Eval(own, Got(Bool(b)));
    ReturnsLiteral(env, h, one, own);
    ReturnsLiteral(env, h, two, own);
    hide MeanExpression, MeanStatement, Decide;
    IfTakes(env, h, st, own);
    assert Decide(MeanExpression(env, h, Literal(PBool(word)), own)) == if b then Yes else No by { Decided(own, b); }
    if !b {
      ElseTakes(env, h, st, own);
    }
    assert [st][..0] == [] && MeanList(env, h, [], own) == Flow(own, Normal);
    assert MeanList(env, h, [st], own) == MeanStatement(env, h, st, own);
  }

  lemma ReturnsLiteral(env: Env, h: Header, i: PInteger, w: World)
    ensures MeanStatements(env, h, Returning(Literal(PInt(i))), w) == Flow(w, Return(Int(Signed, Number(i))))
  {
    hide Number;
    assert MeanAtom(env, h, AtomConstant(PInt(i)), w) == Eval(w, Got(Int(Signed, Number(i))));
    assert MeanExpression(env, h, Literal(PInt(i)), w) == Eval(w, Got(Int(Signed, Number(i))));
    assert MeanList(env, h, [], w) == Flow(w, Normal);
  }

  lemma Decided(w: World, b: bool)
    ensures Decide(Eval(w, Got(Bool(b)))) == if b then Yes else No
  {
  }

  function Literal(k: PConstant): PExpression {
    ExprAtom(false, AtomConstant(k))
  }

  function Returning(e: PExpression): PStatements {
    PStatements([], Some(PReturn(Some(e))))
  }

  // ---------- Statements that are one operation ----------

  /** Calls, assignments and conc blocks end normally exactly if they succeed, and otherwise as their error; their values are dropped. */
  lemma OperationEnds(env: Env, h: Header, t: PStatement, w: World)
    requires AcceptedStatement(t) && (t.StCall? || t.StAssignment? || t.StConc?)
    ensures var e := EvalStatement(env, BuildStatement(t, h), w);
            var x := if t.StCall? then EvalCall(env, t.call.kind, BuildCall(t.call, h), w)
                     else if t.StAssignment? then EvalAssignment(env, BuildAssignment(t.assignment, h), w)
                     else EvalConc(env, BuildConc(t.tasks, h), w);
            e.w == x.w && !e.flag && e.err == if x.r.Got? then NoError else Raised(x.r.f)
  {
    hide EvalCall, EvalAssignment, EvalConc, BuildCall, BuildAssignment, BuildConc;
  }

  // ---------- Rules ----------

  /** A rule neither sees nor keeps the variables of another run. */
  lemma OwnVariables(env: Env, r: RuleEntity, w: World, vars: map<string, Value>)
    ensures Execute(env, r, w.(vars := vars)) == Execute(env, r, w)
  {
    assert w.(vars := vars).(vars := map[]) == w.(vars := map[]);
  }

  /** A rule that only returns hands out what its expression reads as, with the flag set, or its error. */
  lemma ReturnHandsOut(env: Env, r: PRule, e: PExpression, w: World)
    requires AcceptedRule(r) && r.body == PStatements([], Some(PReturn(Some(e))))
    ensures var v, t := MeanExpression(env, HeaderOf(r), e, w.(vars := map[])), Execute(env, BuildRule(r), w);
            match v.r
            case Got(x) => t.err == NoError && t.flag && t.value == Content(x, v.w.heap) && t.w == v.w
            case Lost(f) => t.err == Raised(f) && t.flag && t.w == v.w
  {
    hide Execute, BuildRule, HeaderOf, MeanExpression;
    RuleAgrees(env, r, w);
    assert MeanList(env, HeaderOf(r), [], w.(vars := map[])) == Flow(w.(vars := map[]), Normal);
  }
}
