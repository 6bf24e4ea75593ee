/**
 References to slice elements. Indexing a slice hands on a reference to the element, a plain
 assignment stores it uncopied, and so the variable aliases the element: it sees later writes. Here
 is exactly when that happens, and what it does to the swap of two elements.
 */
module Aliasing {
  import opened Values
  import opened Ast
  import opened Text
  import opened ParseTree
  import opened FrontEnd
  import opened Numeric
  import opened Runtime
  import opened Evaluator
  import opened Interleaving
  import opened Execution
  import opened Meaning
  import opened Preservation

  predicate IsReference(r: Result) {
    r.Got? && r.v.Element?
  }

  /** Host calls and floating-point operations yield values of their own. */
  ghost predicate NewResults(env: Env) {
    && (forall callee, args, heap, host :: !IsReference(env.host(callee, args, heap, host).r))
    && (forall op, a, b :: !IsReference(env.math(op, a, b)))
    && (forall op, a, b :: !IsReference(env.compare(op, a, b)))
  }

  // ---------- Which sources hand on a reference ----------

  /** The atom a source consists of, brackets apart. */
  function BareMath(m: PMath): Option<PAtom> {
    match m
    case MathAtom(a) => Some(a)
    case MathBracket(n) => BareMath(n)
    case MathBinary(_, _, _) => None
  }

  function BareExpression(e: PExpression): Option<PAtom> {
    match e
    case ExprMath(m) => BareMath(m)
    case ExprAtom(negated, a) => if negated then None else Some(a)
    case ExprBracket(negated, n) => if negated then None else BareExpression(n)
    case _ => None
  }

  function Bare(s: PSource): Option<PAtom> {
    match s
    case SourceMath(m) => BareMath(m)
    case SourceExpression(e) => BareExpression(e)
  }

  lemma CallIsNew(env: Env, h: Header, call: PCall, w: World)
    requires NewResults(env)
    ensures !IsReference(MeanCall(env, h, call, w).r)
  {
    hide MeanArgs;
  }

  lemma MathSource(env: Env, h: Header, m: PMath, w: World)
    requires NewResults(env)
    ensures match BareMath(m)
            case Some(a) => MeanMath(env, h, m, w) == MeanAtom(env, h, a, w)
            case None => !IsReference(MeanMath(env, h, m, w).r)
  {
    hide MeanAtom;
    if m.MathBracket? {
      MathSource(env, h, m.inner, w);
    }
  }

  lemma ExpressionSource(env: Env, h: Header, e: PExpression, w: World)
    requires NewResults(env)
    ensures match BareExpression(e)
            case Some(a) => MeanExpression(env, h, e, w) == Defined(MeanAtom(env, h, a, w))
            case None => !IsReference(MeanExpression(env, h, e, w).r)
  {
    hide MeanAtom, MeanMath;
    match e
    case ExprMath(m) => MathSource(env, h, m, w);
    case ExprBracket(_, n) => ExpressionSource(env, h, n, w);
    case _ =>
  }

  /**
   A source yields a reference exactly if it is, brackets apart, the reading of an element or of a
   variable that yields this reference. Any operator, negation or call makes it a value of its own.
   */
  lemma ReferenceSourceIff(env: Env, h: Header, s: PSource, w: World, cell: Value)
    requires NewResults(env) && cell.Element?
    ensures MeanSource(env, h, s, w).r == Got(cell) <==>
            match Bare(s)
            case Some(AtomMapVar(m)) => MeanElement(env, m, w) == Got(cell)
            case Some(AtomVariable(name)) => GetValue(env, name, w) == Got(cell)
            case _ => false
  {
    hide MeanExpression, MeanMath, MeanCall, MeanElement, GetValue;
    match s {
      case SourceMath(m) => MathSource(env, h, m, w);
      case SourceExpression(e) => ExpressionSource(env, h, e, w);
    }
    var bare := Bare(s);
    if bare.Some? && bare.value.AtomCall? {
      CallIsNew(env, h, bare.value.call, w);
    }
  }

  // ---------- Evaluation does not change variables ----------

  lemma AtomKeepsVars(env: Env, h: Header, a: PAtom, w: World)
    ensures MeanAtom(env, h, a, w).w.vars == w.vars
    decreases a
  {
    if a.AtomCall? {
      CallKeepsVars(env, h, a.call, w);
    }
  }

  lemma CallKeepsVars(env: Env, h: Header, call: PCall, w: World)
    ensures MeanCall(env, h, call, w).w.vars == w.vars
    decreases call
  {
    if call.args.Some? {
      ArgsKeepVars(env, h, call.args.value.list, w);
    }
  }

  lemma {:induction false} ArgsKeepVars(env: Env, h: Header, list: seq<PArg>, w: World)
    ensures MeanArgs(env, h, list, w).w.vars == w.vars
    decreases list, 0
  {
    if list != [] {
      var front, last := list[..|list| - 1], list[|list| - 1];
      ArgsKeepVars(env, h, front, w);
      ArgKeepsVars(env, h, last, MeanArgs(env, h, front, w).w);
    }
  }

  lemma ArgKeepsVars(env: Env, h: Header, a: PArg, w: World)
    ensures MeanArg(env, h, a, w).w.vars == w.vars
    decreases a
  {
    match a
    case ArgCall(call) => CallKeepsVars(env, h, call, w);
    case ArgExpression(e) => ExpressionKeepsVars(env, h, e, w);
    case _ =>
  }

  lemma MathKeepsVars(env: Env, h: Header, m: PMath, w: World)
    ensures MeanMath(env, h, m, w).w.vars == w.vars
    decreases m
  {
    match m
    case MathAtom(a) => AtomKeepsVars(env, h, a, w);
    case MathBracket(n) => MathKeepsVars(env, h, n, w);
    case MathBinary(l, _, r) =>
      MathKeepsVars(env, h, l, w);
      MathKeepsVars(env, h, r, MeanMath(env, h, l, w).w);
  }

  lemma ExpressionKeepsVars(env: Env, h: Header, e: PExpression, w: World)
    ensures MeanExpression(env, h, e, w).w.vars == w.vars
    decreases e
  {
    match e
    case ExprMath(m) => MathKeepsVars(env, h, m, w);
    case ExprAtom(_, a) => AtomKeepsVars(env, h, a, w);
    case ExprBracket(_, n) => ExpressionKeepsVars(env, h, n, w);
    case ExprLogic(l, _, r) =>
      ExpressionKeepsVars(env, h, l, w);
      ExpressionKeepsVars(env, h, r, MeanExpression(env, h, l, w).w);
    case ExprCompare(l, _, r) =>
      ExpressionKeepsVars(env, h, l, w);
      ExpressionKeepsVars(env, h, r, MeanExpression(env, h, l, w).w);
  }

  lemma SourceKeepsVars(env: Env, h: Header, s: PSource, w: World)
    ensures MeanSource(env, h, s, w).w.vars == w.vars
  {
    match s
    case SourceMath(m) => MathKeepsVars(env, h, m, w);
    case SourceExpression(e) => ExpressionKeepsVars(env, h, e, w);
  }

  // ---------- Which variables alias an element ----------

  /** A variable of the rule itself. */
  predicate LocalName(env: Env, x: string) {
    '.' !in x && x !in env.base
  }

  predicate Targets(a: PAssignment, x: string) {
    a.target.TargetVariable? && a.target.name == x
  }

  predicate PlainOperator(op: AssignOperator) {
    op == Assign || op == Set
  }

  /** The last successful assignment to a variable: none, a plain one of a value, or a compound one. */
  datatype Origin = Untouched | From(v: Value) | Computed

  function LastSource(env: Env, h: Header, x: string, list: seq<PAssignment>, w: World): Origin {
    if list == [] then Untouched
    else
      var front, a := list[..|list| - 1], list[|list| - 1];
      var before := MeanSequence(env, h, front, w);
      if !Targets(a, x) || !MeanAssignment(env, h, a, before).1 then LastSource(env, h, x, front, w)
      else if PlainOperator(a.op) && MeanSource(env, h, a.source, before).r.Got? then From(MeanSource(env, h, a.source, before).r.v)
      else Computed
  }

  predicate Refers(w: World, x: string, cell: Value) {
    x in w.vars && w.vars[x] == cell
  }

  lemma UpdateIsNew(env: Env, op: AssignOperator, t: PTarget, v: Value, w: World)
    requires NewResults(env) && !PlainOperator(op)
    ensures !IsReference(MeanUpdate(env, op, t, v, w))
  {
    hide MeanTarget;
  }

  /** What one assignment does to the variable x. */
  lemma AssignmentOn(env: Env, h: Header, x: string, a: PAssignment, w: World)
    requires LocalName(env, x)
    ensures var e := MeanAssignment(env, h, a, w);
            if Targets(a, x) && e.1 then
              var source := MeanSource(env, h, a.source, w);
              && source.r.Got? && MeanUpdate(env, a.op, a.target, source.r.v, source.w).Got?
              && Refers(e.0, x, MeanUpdate(env, a.op, a.target, source.r.v, source.w).v)
            else SameVar(w, e.0, x)
  {
    hide MeanSource, MeanUpdate, MeanKey, GetValue;
    SourceKeepsVars(env, h, a.source, w);
  }

  /**
   After any sequence of assignments, a local variable refers to a slice element exactly if its last
   successful assignment was a plain one whose source yielded the reference, or if there was none and
   it referred to the element before.
   */
  lemma {:induction false} RefersIff(env: Env, h: Header, x: string, list: seq<PAssignment>, w: World, cell: Value)
    requires NewResults(env) && LocalName(env, x) && cell.Element?
    ensures Refers(MeanSequence(env, h, list, w), x, cell) <==>
            match LastSource(env, h, x, list, w)
            case Untouched => Refers(w, x, cell)
            case From(v) => v == cell
            case Computed => false
  {
    hide MeanAssignment, MeanSource, MeanUpdate;
    if list != [] {
      var front, a := list[..|list| - 1], list[|list| - 1];
      var before := MeanSequence(env, h, front, w);
      RefersIff(env, h, x, front, w, cell);
      AssignmentOn(env, h, x, a, before);
      if Targets(a, x) && MeanAssignment(env, h, a, before).1 {
        var source := MeanSource(env, h, a.source, before);
        PlainUpdate(env, a.op, a.target, source.r.v, source.w);
        if !PlainOperator(a.op) {
          UpdateIsNew(env, a.op, a.target, source.r.v, source.w);
        }
      }
    }
  }

  lemma PlainUpdate(env: Env, op: AssignOperator, t: PTarget, v: Value, w: World)
    ensures PlainOperator(op) ==> MeanUpdate(env, op, t, v, w) == Got(v)
  {
  }

  // ---------- Which writes a variable sees ----------

  /** The element of a slice that an indexing names. */
  predicate Names(env: Env, m: PMapVar, w: World, cell: Value) {
    && cell.Element? && MeanElement(env, m, w) == Got(cell)
    && GetValue(env, m.name, w).Got?
    && var c := Content(GetValue(env, m.name, w).v, w.heap);
       c.Ref? && c.addr in w.heap && w.heap[c.addr].SliceObject?
  }

  /** Storing into a slice element changes the content of this one cell. */
  lemma StoreChanges(env: Env, m: PMapVar, v: Value, w: World, cell: Value, u: Value)
    requires Names(env, m, w, cell) && MeanStore(env, TargetMapVar(m), v, w).r.Got?
    ensures var w' := MeanStore(env, TargetMapVar(m), v, w).w;
            w'.vars == w.vars && (Content(u, w'.heap) != Content(u, w.heap) ==> u == cell)
  {
    hide GetValue, MeanKey;
  }

  /**
   In a rule that has made any assignments so far, a write to a slice element changes what a local
   variable reads exactly if the write changes the element and the variable's last successful
   assignment was a plain one with that very element as its source.
   */
  lemma WriteSeenIff(env: Env, h: Header, x: string, list: seq<PAssignment>, w: World, m: PMapVar, v: Value, cell: Value)
    requires NewResults(env) && LocalName(env, x) && w.vars == map[]
    requires var w1 := MeanSequence(env, h, list, w);
             x in w1.vars && Names(env, m, w1, cell) && MeanStore(env, TargetMapVar(m), v, w1).r.Got?
    ensures var w1 := MeanSequence(env, h, list, w);
            var w2 := MeanStore(env, TargetMapVar(m), v, w1).w;
            && w2.vars == w1.vars
            && (Content(w2.vars[x], w2.heap) != Content(w1.vars[x], w1.heap) <==>
                LastSource(env, h, x, list, w) == From(cell) && Content(cell, w2.heap) != Content(cell, w1.heap))
  {
    hide MeanStore, MeanElement, MeanSequence, LastSource, Content;
    var w1 := MeanSequence(env, h, list, w);
    RefersIff(env, h, x, list, w, cell);
    StoreChanges(env, m, v, w1, cell, w1.vars[x]);
  }

  // ---------- Swapping two elements ----------

  /** The assignment `target = source` from one atom. */
  function Copying(t: PTarget, a: PAtom): PAssignment {
    PAssignment(t, Set, SourceMath(MathAtom(a)))
  }

  /** The rule `t = first  s[i] = s[j]  s[j] = t`. */
  function SwapRule(s: Name, t: Name, i: PInteger, j: PInteger, first: PMath): PRule {
    var at_i, at_j := PMapVar(s, KeyInt(i)), PMapVar(s, KeyInt(j));
    PRule("swap", None, None, PStatements([
      StAssignment(PAssignment(TargetVariable(t), Set, SourceMath(first))),
      StAssignment(Copying(TargetMapVar(at_i), AtomMapVar(at_j))),
      StAssignment(Copying(TargetMapVar(at_j), AtomVariable(t)))], None))
  }

  /** s is an injected slice that can be written, and k one of its positions. */
  predicate InSlice(env: Env, s: string, k: int, w: World) {
    && '.' !in s && s in env.base && env.base[s].Ref? && env.base[s].addr in w.heap
    && w.heap[env.base[s].addr].SliceObject?
    && var o := w.heap[env.base[s].addr];
       o.writable && 0 <= k < o.length && InArray(o.cells, o.offset + k, w.heap)
  }

  function SliceOf(env: Env, s: string, k: int, w: World): Object
    requires InSlice(env, s, k, w)
  {
    w.heap[env.base[s].addr]
  }

  /** The cell of a position, what it holds, and the world with something else in it. */
  function CellOf(env: Env, s: string, k: int, w: World): (cell: Value)
    requires InSlice(env, s, k, w)
    ensures cell.Element?
  {
    Element(SliceOf(env, s, k, w).cells, SliceOf(env, s, k, w).offset + k)
  }

  function At(env: Env, s: string, k: int, w: World): Value
    requires InSlice(env, s, k, w)
  {
    Content(CellOf(env, s, k, w), w.heap)
  }

  function WithAt(env: Env, s: string, k: int, x: Value, w: World): World
    requires InSlice(env, s, k, w)
  {
    var cell := CellOf(env, s, k, w);
    w.(heap := w.heap[cell.cells := ArrayObject(w.heap[cell.cells].elems[cell.index := x])])
  }

  lemma WithAtReads(env: Env, s: string, k: int, x: Value, w: World, j: int)
    requires InSlice(env, s, k, w) && InSlice(env, s, j, w)
    ensures var w' := WithAt(env, s, k, x, w);
            && w'.vars == w.vars
            && InSlice(env, s, j, w') && CellOf(env, s, j, w') == CellOf(env, s, j, w)
            && SliceOf(env, s, j, w') == SliceOf(env, s, j, w)
            && At(env, s, j, w') == (if j == k then x else At(env, s, j, w))
            && (forall u: Value :: u != CellOf(env, s, k, w) ==> Content(u, w'.heap) == Content(u, w.heap))
  {
  }

  lemma OtherVars(env: Env, s: string, k: int, vars: map<string, Value>, w: World)
    requires InSlice(env, s, k, w)
    ensures InSlice(env, s, k, w.(vars := vars)) && CellOf(env, s, k, w.(vars := vars)) == CellOf(env, s, k, w)
    ensures At(env, s, k, w.(vars := vars)) == At(env, s, k, w)
    ensures SliceOf(env, s, k, w.(vars := vars)) == SliceOf(env, s, k, w)
  {
  }

  /** The conversion to the slice's element type keeps v as it is. */
  ghost predicate Storable(env: Env, s: string, k: int, v: Value, w: World)
    requires InSlice(env, s, k, w)
  {
    v != Nil && !v.Element? && env.elem(v, SliceOf(env, s, k, w).elemType) == Some(v)
  }

  ghost predicate Swappable(env: Env, s: Name, t: Name, i: int, j: int, w: World) {
    && LocalName(env, t) && i != j && InSlice(env, s, i, w) && InSlice(env, s, j, w)
    && Storable(env, s, i, At(env, s, j, w), w) && Storable(env, s, j, At(env, s, i, w), w)
  }

  lemma ElementRead(env: Env, s: Name, k: PInteger, w: World)
    requires InSlice(env, s, Number(k), w)
    ensures MeanElement(env, PMapVar(s, KeyInt(k)), w) == Got(CellOf(env, s, Number(k), w))
  {
    hide Number;
  }

  /** Storing the value of an atom into a slice element. */
  lemma StoreStep(env: Env, h: Header, s: Name, k: PInteger, a: PAtom, v: Value, w: World)
    requires InSlice(env, s, Number(k), w) && Storable(env, s, Number(k), Content(v, w.heap), w)
    requires MeanAtom(env, h, a, w) == Eval(w, Got(v))
    ensures MeanStatement(env, h, StAssignment(Copying(TargetMapVar(PMapVar(s, KeyInt(k))), a)), w) ==
            Flow(WithAt(env, s, Number(k), Content(v, w.heap), w), Normal)
  {
    hide MeanAtom, Number;
    var m := PMapVar(s, KeyInt(k));
    assert GetValue(env, s, w) == Got(env.base[s]);
    assert MeanKey(env, m.key, w) == Keyed(FromInteger(Number(k)));
    assert MeanMath(env, h, MathAtom(a), w) == Eval(w, Got(v));
  }

  /** A rule body of three statements, each ending normally. */
  lemma ThreeStatements(env: Env, h: Header, list: seq<PStatement>, w0: World, w1: World, w2: World, w3: World)
    requires |list| == 3
    requires MeanStatement(env, h, list[0], w0) == Flow(w1, Normal)
    requires MeanStatement(env, h, list[1], w1) == Flow(w2, Normal)
    requires MeanStatement(env, h, list[2], w2) == Flow(w3, Normal)
    ensures MeanList(env, h, list, w0) == Flow(w3, Normal)
  {
    hide MeanStatement;
    assert list[..3] == list && list[..2][..1] == list[..1] && list[..3][..2] == list[..2] && list[..1][..0] == [];
    assert MeanList(env, h, list[..1], w0) == Flow(w1, Normal);
    assert MeanList(env, h, list[..2], w0) == Flow(w2, Normal);
  }

  lemma FirstStep(env: Env, h: Header, t: Name, first: PMath, w: World, v: Value)
    requires LocalName(env, t) && w.vars == map[] && MeanMath(env, h, first, w) == Eval(w, Got(v))
    ensures MeanStatement(env, h, StAssignment(PAssignment(TargetVariable(t), Set, SourceMath(first))), w) ==
            Flow(w.(vars := map[t := v]), Normal)
  {
    hide MeanMath;
  }

  lemma VariableRead(env: Env, h: Header, t: Name, v: Value, w: World, w': World)
    requires LocalName(env, t) && w.vars == map[t := v] == w'.vars
    ensures MeanAtom(env, h, AtomVariable(t), w') == Eval(w', Got(v))
  {
  }

  /** What the rule leaves, for a first source that yields a value or a reference with the content of s[i]. */
  lemma SwapRuns(env: Env, s: Name, t: Name, i: PInteger, j: PInteger, first: PMath, w: World, v: Value)
    requires Swappable(env, s, t, Number(i), Number(j), w)
    requires MeanMath(env, HeaderOf(SwapRule(s, t, i, j, first)), first, w.(vars := map[])) == Eval(w.(vars := map[]), Got(v))
    requires Content(v, w.heap) == At(env, s, Number(i), w)
    ensures var f := MeanRule(env, SwapRule(s, t, i, j, first), w);
            && f.o == Normal && InSlice(env, s, Number(i), f.w) && InSlice(env, s, Number(j), f.w)
            && At(env, s, Number(i), f.w) == At(env, s, Number(j), w)
            && At(env, s, Number(j), f.w) ==
               if v == CellOf(env, s, Number(i), w) then At(env, s, Number(j), w) else At(env, s, Number(i), w)
  {
    hide MeanMath, Number, InSlice, CellOf, WithAt, Content, MeanElement, MeanStatement, HeaderOf, MeanList;
    var r := SwapRule(s, t, i, j, first);
    var h, list, p, q := HeaderOf(r), r.body.list, Number(i), Number(j);
    var w0 := w.(vars := map[]);
    var w1 := w.(vars := map[t := v]);
    OtherVars(env, s, p, w1.vars, w);
    OtherVars(env, s, q, w1.vars, w);
    FirstStep(env, h, t, first, w0, v);
    ElementRead(env, s, j, w1);
    StoreStep(env, h, s, i, AtomMapVar(PMapVar(s, KeyInt(j))), CellOf(env, s, q, w), w1);
    var w2 := WithAt(env, s, p, At(env, s, q, w), w1);
    WithAtReads(env, s, p, At(env, s, q, w), w1, p);
    WithAtReads(env, s, p, At(env, s, q, w), w1, q);
    VariableRead(env, h, t, v, w1, w2);
    StoreStep(env, h, s, j, AtomVariable(t), v, w2);
    var w3 := WithAt(env, s, q, Content(v, w2.heap), w2);
    WithAtReads(env, s, q, Content(v, w2.heap), w2, p);
    WithAtReads(env, s, q, Content(v, w2.heap), w2, q);
    ThreeStatements(env, h, list, w0, w1, w2, w3);
  }

  lemma SwapAccepted(s: Name, t: Name, i: PInteger, j: PInteger, first: PMath)
    requires InRange(i) && InRange(j) && AcceptedMath(first)
    ensures AcceptedRule(SwapRule(s, t, i, j, first))
  {
    hide InRange;
    var r := SwapRule(s, t, i, j, first);
    var list := r.body.list;
    assert list[..3] == list && list[..3][..2] == list[..2] && list[..2][..1] == list[..1] && list[..1][..0] == [];
    assert AcceptedMath(MathAtom(AtomMapVar(PMapVar(s, KeyInt(j))))) && AcceptedMath(MathAtom(AtomVariable(t)));
    assert AcceptedStatement(list[0]) && AcceptedStatement(list[1]) && AcceptedStatement(list[2]);
    assert AcceptedList(list[..0]) && AcceptedList(list[..1]);
    assert list[..2][1] == list[1] && list[..1][0] == list[0];
    assert AcceptedList(list[..2]);
    assert |list| == 3 && AcceptedList(list);
    assert AcceptedStatements(r.body);
    assert Trim("swap", '\"') == "swap";
  }

  /**
   The rule `t = s[i]  s[i] = s[j]  s[j] = t` runs without an error and leaves the old s[j] in both
   positions, so it swaps the two elements exactly if they were equal before.
   */
  lemma SwapSucceedsIff(env: Env, s: Name, t: Name, i: PInteger, j: PInteger, w: World)
    requires InRange(i) && InRange(j) && Swappable(env, s, t, Number(i), Number(j), w)
    ensures var e := Execute(env, BuildRule(SwapRule(s, t, i, j, MathAtom(AtomMapVar(PMapVar(s, KeyInt(i)))))), w);
            var a, b := At(env, s, Number(i), w), At(env, s, Number(j), w);
            && e.err == NoError && InSlice(env, s, Number(i), e.w) && InSlice(env, s, Number(j), e.w)
            && At(env, s, Number(i), e.w) == b && At(env, s, Number(j), e.w) == b
            && (At(env, s, Number(i), e.w) == b && At(env, s, Number(j), e.w) == a <==> a == b)
  {
    hide Number, InRange, Execute, MeanRule, BuildRule, InSlice, CellOf, SliceOf;
    var first := MathAtom(AtomMapVar(PMapVar(s, KeyInt(i))));
    var w0 := w.(vars := map[]);
    OtherVars(env, s, Number(i), map[], w);
    ElementRead(env, s, i, w0);
    assert MeanMath(env, HeaderOf(SwapRule(s, t, i, j, first)), first, w0) == Eval(w0, Got(CellOf(env, s, Number(i), w)));
    SwapRuns(env, s, t, i, j, first, w, CellOf(env, s, Number(i), w));
    SwapAccepted(s, t, i, j, first);
    RuleAgrees(env, SwapRule(s, t, i, j, first), w);
  }

  /** Reading the element through an operator, as in `t = s[i] + 0`, makes the swap of integers work. */
  lemma SwapThroughOperator(env: Env, s: Name, t: Name, i: PInteger, j: PInteger, zero: PInteger, w: World)
    requires InRange(i) && InRange(j) && InRange(zero) && Number(zero) == 0
    requires Swappable(env, s, t, Number(i), Number(j), w)
    requires At(env, s, Number(i), w).Int? && At(env, s, Number(i), w).sign == Signed && IsInt(At(env, s, Number(i), w))
    ensures var first := MathBinary(MathAtom(AtomMapVar(PMapVar(s, KeyInt(i)))), Plus, MathAtom(AtomConstant(PInt(zero))));
            var e := Execute(env, BuildRule(SwapRule(s, t, i, j, first)), w);
            && e.err == NoError && InSlice(env, s, Number(i), e.w) && InSlice(env, s, Number(j), e.w)
            && At(env, s, Number(i), e.w) == At(env, s, Number(j), w)
            && At(env, s, Number(j), e.w) == At(env, s, Number(i), w)
  {
    hide Number, InRange, Execute, MeanRule, BuildRule, InSlice, CellOf, SliceOf;
    var element := MathAtom(AtomMapVar(PMapVar(s, KeyInt(i))));
    var first := MathBinary(element, Plus, MathAtom(AtomConstant(PInt(zero))));
    var a, h := At(env, s, Number(i), w), HeaderOf(SwapRule(s, t, i, j, first));
    var w0 := w.(vars := map[]);
    OtherVars(env, s, Number(i), map[], w);
    ElementRead(env, s, i, w0);
    assert MeanMath(env, h, element, w0) == Eval(w0, Got(CellOf(env, s, Number(i), w)));
    assert MeanMath(env, h, first.right, w0) == Eval(w0, Got(Int(Signed, 0)));
    assert AcceptedAtom(first.right.atom) && AcceptedMath(element) && AcceptedMath(first.right);
    assert MeanMath(env, h, first, w0) == Eval(w0, Arithmetic(env, "+", a, Int(Signed, 0)));
    assert Arithmetic(env, "+", a, Int(Signed, 0)) == Got(a);
    SwapRuns(env, s, t, i, j, first, w, a);
    SwapAccepted(s, t, i, j, first);
    RuleAgrees(env, SwapRule(s, t, i, j, first), w);
  }

  lemma Digit()
    ensures var zero, one := PInteger(false, "0"), PInteger(false, "1");
            Number(zero) == 0 && Number(one) == 1 && InRange(zero) && InRange(one)
  {
  }

  lemma OneTwo(env: Env, w: World)
    requires env.base == map["s" := Ref(0, false)]
    requires w.heap == map[0 := SliceObject(0, 1, 0, 2, true), 1 := ArrayObject([Int(Signed, 1), Int(Signed, 2)])]
    requires env.elem(Int(Signed, 1), 0) == Some(Int(Signed, 1)) && env.elem(Int(Signed, 2), 0) == Some(Int(Signed, 2))
    ensures Swappable(env, "s", "t", 0, 1, w) && At(env, "s", 1, w) == Int(Signed, 2)
  {
  }

  /** The input s = [1, 2]: after `t = s[0]  s[0] = s[1]  s[1] = t` the slice holds [2, 2]. */
  lemma SwapOverwrites(env: Env, w: World)
    requires env.base == map["s" := Ref(0, false)]
    requires w.heap == map[0 := SliceObject(0, 1, 0, 2, true), 1 := ArrayObject([Int(Signed, 1), Int(Signed, 2)])]
    requires env.elem(Int(Signed, 1), 0) == Some(Int(Signed, 1)) && env.elem(Int(Signed, 2), 0) == Some(Int(Signed, 2))
    ensures var zero, one := PInteger(false, "0"), PInteger(false, "1");
            var e := Execute(env, BuildRule(SwapRule("s", "t", zero, one, MathAtom(AtomMapVar(PMapVar("s", KeyInt(zero)))))), w);
            && e.err == NoError && InSlice(env, "s", 0, e.w) && InSlice(env, "s", 1, e.w)
            && At(env, "s", 0, e.w) == Int(Signed, 2) && At(env, "s", 1, e.w) == Int(Signed, 2)
  {
    hide Number, InRange, Execute, BuildRule, InSlice, At, SwapRule, Swappable, Storable;
    Digit();
    OneTwo(env, w);
    SwapSucceedsIff(env, "s", "t", PInteger(false, "0"), PInteger(false, "1"), w);
  }
}
