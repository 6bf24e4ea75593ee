/**
 Conc blocks: every task runs in its own goroutine, and the tasks interleave at each access to a
 shared variable, map element or host function. The code of a task is the sequence of these steps
 in the order in which evaluation makes them. Expressions have no conditional evaluation, so the
 sequence is a straight line, and a fault cuts it short.

 `SoloAssignment` and `SoloCall` show that the code run without interruption does what the
 evaluators do.
 */
module Conc {
  import opened Values
  import opened Ast
  import opened ParseTree
  import opened Runtime
  import opened Evaluator

  // ---------- Steps ----------

  /** Steps work on a stack of intermediate values; only some touch shared state. */
  datatype Instr =
    | Push(v: Value)
    | Drop
    | Load(name: string)
    | Read(m: MapVar)
    | Binary(op: string)
    | Both(logical: bool, operator: string)
    | Last(notOperator: string)
    | Calling(kind: CallKind, callee: string, arity: nat)
    | Compound(assign: string)
    | Save(variable: string)
    | Write(target: MapVar)
    | Abort

  type Code = seq<Instr>

  /** The world after a step and the stack, or no stack after a fault. */
  datatype Did = Did(w: World, stack: Option<seq<Value>>)

  /** The key of an indexing whose variable key, if it has one, was just loaded. */
  function LoadedKey(m: MapVar, loaded: Value): Key {
    if m.varkey != "" then FromVariable(loaded)
    else if m.strkey != "" then FromString(m.strkey)
    else FromInteger(m.intkey)
  }

  /** How many values an indexing finds on the stack: the holder, and a variable key. */
  function Operands(m: MapVar): nat {
    if m.varkey != "" then 2 else 1
  }

  function Pushed(w: World, rest: seq<Value>, r: Result): Did {
    Did(w, match r case Got(v) => Some(rest + [v]) case Lost(_) => None)
  }

  function Exec(env: Env, ins: Instr, st: seq<Value>, w: World): Did {
    var n := |st|;
    match ins
    case Push(v) => Did(w, Some(st + [v]))
    case Drop => Did(w, if n < 1 then None else Some(st[..n - 1]))
    case Load(name) => Pushed(w, st, GetValue(env, name, w))
    case Read(m) =>
      var k := Operands(m);
      if n < k then Did(w, None)
      else Pushed(w, st[..n - k], ReadAt(env, st[n - k], LoadedKey(m, st[n - 1]), w.heap))
    case Binary(op) =>
      if n < 2 then Did(w, None) else Pushed(w, st[..n - 2], Arithmetic(env, op, Content(st[n - 2], w.heap), Content(st[n - 1], w.heap)))
    case Both(logical, op) =>
      if n < 3 then Did(w, None)
      else
        var vs := st[n - 2..];
        var r := if logical then Logically(op, vs, w.heap) else Compared(env, op, vs, w.heap);
        Pushed(w, st[..n - 3], if r == Got(Nil) then Got(st[n - 3]) else r)
    case Last(notOperator) =>
      if n < 3 then Did(w, None) else Pushed(w, st[..n - 3], Finish(notOperator, st[n - 3], st[n - 2], st[n - 1], w.heap))
    case Calling(kind, callee, arity) =>
      if n < arity then Did(w, None)
      else
        var e := Invoke(env, kind, callee, st[n - arity..], w);
        Pushed(e.w, st[..n - arity], e.r)
    case Compound(op) =>
      if n < 2 then Did(w, None) else Pushed(w, st[..n - 2], CompoundValue(env, op, st[n - 1], st[n - 2], w.heap))
    case Save(variable) =>
      if n < 1 then Did(w, None)
      else
        var e := SetValue(env, variable, st[n - 1], w);
        Did(e.w, if e.r.Got? then Some(st[..n - 1]) else None)
    case Write(m) =>
      var k := Operands(m);
      if n < k + 1 then Did(w, None)
      else if !Indexable(st[n - k], w.heap) then Did(w, None)
      else
        var e := WriteAt(env, st[n - k], LoadedKey(m, st[n - 1]), st[n - k - 1], w);
        Did(e.w, if e.r.Got? then Some(st[..n - k - 1]) else None)
    case Abort => Did(w, None)
  }

  // ---------- The code of a task ----------

  function KeyCode(m: MapVar): Code {
    [Load(m.name)] + if m.varkey != "" then [Load(m.varkey)] else []
  }

  function AtomCode(e: ExpressionAtom): Code
    decreases e
  {
    if e.variable != "" then [Load(e.variable)]
    else if e.constant.Some? then [Push(e.constant.value.value)]
    else if e.functionCall.Some? then CallCode(Function, e.functionCall.value)
    else if e.methodCall.Some? then CallCode(Method, e.methodCall.value)
    else if e.mapVar.Some? then KeyCode(e.mapVar.value) + [Read(e.mapVar.value)]
    else if e.threeLevelCall.Some? then CallCode(ThreeLevel, e.threeLevelCall.value)
    else [Abort]
  }

  function CallCode(kind: CallKind, c: Call): Code
    decreases c
  {
    if c.args == None then [Calling(kind, c.name, 0)]
    else ArgsCode(c.args.value.argList) + [Calling(kind, c.name, |c.args.value.argList|)]
  }

  function ArgsCode(list: seq<Arg>): Code
    decreases list, 0
  {
    if list == [] then [] else ArgsCode(list[..|list| - 1]) + ArgCode(list[|list| - 1])
  }

  function ArgCode(a: Arg): Code
    decreases a
  {
    if a.variable != "" then [Load(a.variable)]
    else if a.constant.Some? then [Push(a.constant.value.value)]
    else if a.functionCall.Some? then CallCode(Function, a.functionCall.value)
    else if a.methodCall.Some? then CallCode(Method, a.methodCall.value)
    else if a.threeLevelCall.Some? then CallCode(ThreeLevel, a.threeLevelCall.value)
    else if a.mapVar.Some? then KeyCode(a.mapVar.value) + [Read(a.mapVar.value)]
    else if a.expression.Some? then ExpressionCode(a.expression.value)
    else [Abort]
  }

  function MathCode(e: MathExpression): Code
    decreases e
  {
    if e.atom.Some? then AtomCode(e.atom.value)
    else if e.left == None then [Abort]
    else if e.right == None then MathCode(e.left.value)
    else
      MathCode(e.left.value) + MathCode(e.right.value) +
      [if e.pmOperator == "+" || e.pmOperator == "-" then Binary(e.pmOperator)
       else if e.mdOperator == "*" || e.mdOperator == "/" then Binary(e.mdOperator)
       else Abort]
  }

  function BothCode(e: Expression): Code
    decreases e, 0
  {
    if e.left == None then [Abort]
    else if e.right == None then ExpressionCode(e.left.value) + [Abort]
    else ExpressionCode(e.left.value) + ExpressionCode(e.right.value)
  }

  function OperandsCode(e: Expression): Code
    decreases e, 1
  {
    (if e.right == None && e.left.Some? then ExpressionCode(e.left.value) else [Push(Nil)]) +
    (if e.logicalOperator == "" then [] else BothCode(e) + [Both(true, e.logicalOperator)]) +
    (if e.comparisonOperator == "" then [] else BothCode(e) + [Both(false, e.comparisonOperator)])
  }

  function MathPart(e: Option<MathExpression>): Code
    decreases e, 0
  {
    if e == None then [Push(Nil)] else MathCode(e.value)
  }

  function AtomPart(e: Option<ExpressionAtom>): Code
    decreases e, 0
  {
    if e == None then [Push(Nil)] else AtomCode(e.value)
  }

  function ExpressionCode(e: Expression): Code
    decreases e, 2
  {
    MathPart(e.math) + AtomPart(e.atom) + OperandsCode(e) + [Last(e.notOperator)]
  }

  function SourceCode(a: Assignment): Code {
    MathPart(a.math) + if a.expression == None then [] else [Drop] + ExpressionCode(a.expression.value)
  }

  function CurrentCode(a: Assignment): Code {
    (if a.variable == "" then [Push(Nil)] else [Load(a.variable)]) +
    if a.mapVar == None then [] else [Drop] + KeyCode(a.mapVar.value) + [Read(a.mapVar.value)]
  }

  /** Everything an assignment does before it stores: it leaves the new value on the stack. */
  function ValueCode(a: Assignment): Code {
    SourceCode(a) + if Plain(a.assignOperator) then [] else CurrentCode(a) + [Compound(a.assignOperator)]
  }

  function StoreCode(a: Assignment): Code {
    if a.variable != "" then [Save(a.variable)]
    else if a.mapVar.Some? then KeyCode(a.mapVar.value) + [Write(a.mapVar.value)]
    else [Drop]
  }

  function AssignmentCode(a: Assignment): Code {
    ValueCode(a) + StoreCode(a)
  }

  // ---------- A task on its own ----------

  function Solo(env: Env, code: Code, st: seq<Value>, w: World): Did
    decreases |code|
  {
    if code == [] then Did(w, Some(st))
    else
      var d := Exec(env, code[0], st, w);
      if d.stack == None then d else Solo(env, code[1..], d.stack.value, d.w)
  }

  lemma {:induction false} SoloConcat(env: Env, a: Code, b: Code, st: seq<Value>, w: World)
    ensures var d := Solo(env, a, st, w);
            Solo(env, a + b, st, w) == if d.stack == None then d else Solo(env, b, d.stack.value, d.w)
    decreases |a|
  {
    hide Exec;
    if a == [] {
      assert a + b == b;
    } else {
      assert (a + b)[1..] == a[1..] + b;
      var d := Exec(env, a[0], st, w);
      if d.stack.Some? {
        SoloConcat(env, a[1..], b, d.stack.value, d.w);
      }
    }
  }

  lemma SoloOne(env: Env, ins: Instr, st: seq<Value>, w: World)
    ensures Solo(env, [ins], st, w) == Exec(env, ins, st, w)
  {
    hide Exec;
    var d := Exec(env, ins, st, w);
    if d.stack.Some? {
      assert Solo(env, [ins][1..], d.stack.value, d.w) == Did(d.w, d.stack);
    }
  }

  /** The code computes what the evaluator does: one more value on the stack, or a fault. */
  ghost predicate Computes(env: Env, code: Code, st: seq<Value>, w: World, e: Eval) {
    Solo(env, code, st, w) == Pushed(e.w, st, e.r)
  }

  /** One stretch of code after another. */
  lemma SoloThen(env: Env, a: Code, b: Code, st: seq<Value>, w: World, e: Eval)
    requires Computes(env, a, st, w, e)
    ensures Solo(env, a + b, st, w) == if e.r.Lost? then Did(e.w, None) else Solo(env, b, st + [e.r.v], e.w)
  {
    SoloConcat(env, a, b, st, w);
  }

  lemma SoloThenOne(env: Env, a: Code, ins: Instr, st: seq<Value>, w: World, e: Eval)
    requires Computes(env, a, st, w, e)
    ensures Solo(env, a + [ins], st, w) == if e.r.Lost? then Did(e.w, None) else Exec(env, ins, st + [e.r.v], e.w)
  {
    hide Exec;
    SoloThen(env, a, [ins], st, w, e);
    if e.r.Got? {
      SoloOne(env, ins, st + [e.r.v], e.w);
    }
  }

  // ---------- The code does what the evaluators do ----------

  /** The holder of an indexing and its variable key on the stack, or a fault. */
  function Loaded(env: Env, m: MapVar, st: seq<Value>, w: World): Did {
    var holder, key := GetValue(env, m.name, w), GetValue(env, m.varkey, w);
    if holder.Lost? then Did(w, None)
    else if m.varkey == "" then Did(w, Some(st + [holder.v]))
    else Pushed(w, st + [holder.v], key)
  }

  lemma KeyRuns(env: Env, m: MapVar, st: seq<Value>, w: World)
    ensures Solo(env, KeyCode(m), st, w) == Loaded(env, m, st, w)
  {
    hide GetValue;
    var holder := GetValue(env, m.name, w);
    SoloOne(env, Load(m.name), st, w);
    if m.varkey == "" {
      assert [Load(m.name)] + [] == [Load(m.name)];
    } else {
      SoloThenOne(env, [Load(m.name)], Load(m.varkey), st, w, Eval(w, holder));
    }
  }

  lemma ReadRuns(env: Env, m: MapVar, st: seq<Value>, w: World)
    ensures Computes(env, KeyCode(m) + [Read(m)], st, w, Eval(w, ReadMapVar(env, m, w)))
  {
    hide GetValue, Exec, ReadAt, KeyCode;
    KeyRuns(env, m, st, w);
    SoloConcat(env, KeyCode(m), [Read(m)], st, w);
    var d := Solo(env, KeyCode(m), st, w);
    if d.stack.Some? {
      SoloOne(env, Read(m), d.stack.value, w);
      var key := if m.varkey == "" then GetValue(env, m.name, w).v else GetValue(env, m.varkey, w).v;
      ReadStep(env, m, st, w, GetValue(env, m.name, w).v, key);
      Readable(env, m, w, st, GetValue(env, m.name, w).v, key);
    } else {
      Unreadable(env, m, w);
    }
  }

  lemma ReadStep(env: Env, m: MapVar, st: seq<Value>, w: World, holder: Value, key: Value)
    ensures Exec(env, Read(m), if m.varkey == "" then st + [holder] else st + [holder] + [key], w) ==
            Pushed(w, st, ReadAt(env, holder, LoadedKey(m, key), w.heap))
  {
    hide ReadAt;
    assert (st + [holder])[..|st|] == st;
    assert (st + [holder] + [key])[..|st|] == st;
  }

  lemma Readable(env: Env, m: MapVar, w: World, st: seq<Value>, holder: Value, key: Value)
    requires GetValue(env, m.name, w) == Got(holder) && (m.varkey != "" ==> GetValue(env, m.varkey, w) == Got(key))
    ensures Pushed(w, st, ReadMapVar(env, m, w)) == Pushed(w, st, ReadAt(env, holder, LoadedKey(m, key), w.heap))
  {
    hide GetValue;
  }

  lemma Unreadable(env: Env, m: MapVar, w: World)
    requires GetValue(env, m.name, w).Lost? || (m.varkey != "" && GetValue(env, m.varkey, w).Lost?)
    ensures ReadMapVar(env, m, w).Lost?
  {
  }

  lemma AtomRuns(env: Env, e: ExpressionAtom, st: seq<Value>, w: World)
    ensures Computes(env, AtomCode(e), st, w, EvalAtom(env, e, w))
    decreases e
  {
    hide ReadMapVar, GetValue;
    if e.variable != "" {
      SoloOne(env, Load(e.variable), st, w);
    } else if e.constant.Some? {
      SoloOne(env, Push(e.constant.value.value), st, w);
    } else if e.functionCall.Some? {
      CallRuns(env, Function, e.functionCall.value, st, w);
    } else if e.methodCall.Some? {
      CallRuns(env, Method, e.methodCall.value, st, w);
    } else if e.mapVar.Some? {
      ReadRuns(env, e.mapVar.value, st, w);
    } else if e.threeLevelCall.Some? {
      CallRuns(env, ThreeLevel, e.threeLevelCall.value, st, w);
    } else {
      SoloOne(env, Abort, st, w);
    }
  }

  lemma CallRuns(env: Env, kind: CallKind, c: Call, st: seq<Value>, w: World)
    ensures Computes(env, CallCode(kind, c), st, w, EvalCall(env, kind, c, w))
    decreases c
  {
    hide Invoke;
    if c.args == None {
      SoloOne(env, Calling(kind, c.name, 0), st, w);
      assert st[|st|..] == [] && st[..|st|] == st;
    } else {
      var list := c.args.value.argList;
      var args := EvalArgs(env, list, w);
      ArgsRuns(env, list, st, w);
      SoloConcat(env, ArgsCode(list), [Calling(kind, c.name, |list|)], st, w);
      if args.fault == None {
        var st' := st + args.vs;
        SoloOne(env, Calling(kind, c.name, |list|), st', args.w);
        assert st'[|st'| - |list|..] == args.vs && st'[..|st'| - |list|] == st;
      }
    }
  }

  lemma {:induction false} ArgsRuns(env: Env, list: seq<Arg>, st: seq<Value>, w: World)
    ensures var args := EvalArgs(env, list, w);
            && Solo(env, ArgsCode(list), st, w) == Did(args.w, if args.fault.Some? then None else Some(st + args.vs))
            && (args.fault == None ==> |args.vs| == |list|)
    decreases list, 0
  {
    if list == [] {
      assert st + [] == st;
    } else {
      var front, last := list[..|list| - 1], list[|list| - 1];
      var args := EvalArgs(env, front, w);
      ArgsRuns(env, front, st, w);
      SoloConcat(env, ArgsCode(front), ArgCode(last), st, w);
      if args.fault == None {
        ArgRuns(env, last, st + args.vs, args.w);
        var r := EvalArg(env, last, args.w).r;
        if r.Got? {
          assert st + args.vs + [r.v] == st + (args.vs + [r.v]);
        }
      }
    }
  }

  lemma ArgRuns(env: Env, a: Arg, st: seq<Value>, w: World)
    ensures Computes(env, ArgCode(a), st, w, EvalArg(env, a, w))
    decreases a
  {
    hide ReadMapVar, GetValue;
    if a.variable != "" {
      SoloOne(env, Load(a.variable), st, w);
    } else if a.constant.Some? {
      SoloOne(env, Push(a.constant.value.value), st, w);
    } else if a.functionCall.Some? {
      CallRuns(env, Function, a.functionCall.value, st, w);
    } else if a.methodCall.Some? {
      CallRuns(env, Method, a.methodCall.value, st, w);
    } else if a.threeLevelCall.Some? {
      CallRuns(env, ThreeLevel, a.threeLevelCall.value, st, w);
    } else if a.mapVar.Some? {
      ReadRuns(env, a.mapVar.value, st, w);
    } else if a.expression.Some? {
      ExpressionRuns(env, a.expression.value, st, w);
    } else {
      SoloOne(env, Abort, st, w);
    }
  }

  lemma MathRuns(env: Env, e: MathExpression, st: seq<Value>, w: World)
    ensures Computes(env, MathCode(e), st, w, EvalMath(env, e, w))
    decreases e
  {
    hide Arithmetic, Exec;
    if e.atom.Some? {
      AtomRuns(env, e.atom.value, st, w);
    } else if e.left == None {
      AbortRuns(env, st, w);
    } else if e.right == None {
      MathRuns(env, e.left.value, st, w);
    } else {
      var op := if e.pmOperator == "+" || e.pmOperator == "-" then Binary(e.pmOperator)
                else if e.mdOperator == "*" || e.mdOperator == "/" then Binary(e.mdOperator)
                else Abort;
      var l := EvalMath(env, e.left.value, w);
      MathRuns(env, e.left.value, st, w);
      SoloConcat(env, MathCode(e.left.value) + MathCode(e.right.value), [op], st, w);
      SoloThen(env, MathCode(e.left.value), MathCode(e.right.value), st, w, l);
      if l.r.Got? {
        var r := EvalMath(env, e.right.value, l.w);
        MathRuns(env, e.right.value, st + [l.r.v], l.w);
        if r.r.Got? {
          BinaryStep(env, op, st, l.r.v, r.r.v, r.w);
        }
      }
    }
  }

  lemma AbortRuns(env: Env, st: seq<Value>, w: World)
    ensures Solo(env, [Abort], st, w) == Did(w, None)
  {
    SoloOne(env, Abort, st, w);
  }

  lemma BinaryStep(env: Env, op: Instr, st: seq<Value>, a: Value, b: Value, w: World)
    requires op.Binary? || op == Abort
    ensures Solo(env, [op], st + [a] + [b], w) == if op == Abort then Did(w, None) else Pushed(w, st, Arithmetic(env, op.op, Content(a, w.heap), Content(b, w.heap)))
  {
    hide Arithmetic;
    SoloOne(env, op, st + [a] + [b], w);
    assert (st + [a] + [b])[..|st|] == st;
  }

  lemma BothRuns(env: Env, e: Expression, st: seq<Value>, w: World)
    ensures var both := EvalBoth(env, e, w);
            && Solo(env, BothCode(e), st, w) == Did(both.w, if both.fault.Some? then None else Some(st + both.vs))
            && (both.fault == None ==> |both.vs| == 2)
    decreases e, 0
  {
    hide Exec;
    if e.left == None {
      AbortRuns(env, st, w);
    } else {
      var a := EvalExpression(env, e.left.value, w);
      ExpressionRuns(env, e.left.value, st, w);
      if e.right == None {
        SoloThen(env, ExpressionCode(e.left.value), [Abort], st, w, a);
        if a.r.Got? {
          AbortRuns(env, st + [a.r.v], a.w);
        }
      } else {
        SoloThen(env, ExpressionCode(e.left.value), ExpressionCode(e.right.value), st, w, a);
        if a.r.Got? {
          var b := EvalExpression(env, e.right.value, a.w);
          ExpressionRuns(env, e.right.value, st + [a.r.v], a.w);
          if b.r.Got? {
            assert st + [a.r.v] + [b.r.v] == st + [a.r.v, b.r.v];
          }
        }
      }
    }
  }

  /** What a logical or comparison operator makes of the operand value b. */
  function Operated(env: Env, logical: bool, op: string, e: Expression, b: Value, w: World): Eval {
    var both := EvalBoth(env, e, w);
    Combined(both, b,
             if |both.vs| != 2 then Got(Nil)
             else if logical then Logically(op, both.vs, both.w.heap) else Compared(env, op, both.vs, both.w.heap))
  }

  lemma OperatorRuns(env: Env, logical: bool, op: string, e: Expression, st: seq<Value>, b: Value, w: World)
    ensures Solo(env, BothCode(e) + [Both(logical, op)], st + [b], w) ==
            var r := Operated(env, logical, op, e, b, w); Pushed(r.w, st, r.r)
    decreases e, 1
  {
    hide Logical, Compare, EvalBoth, BothCode;
    BothRuns(env, e, st + [b], w);
    var both := EvalBoth(env, e, w);
    SoloConcat(env, BothCode(e), [Both(logical, op)], st + [b], w);
    if both.fault == None {
      var st' := st + [b] + both.vs;
      SoloOne(env, Both(logical, op), st', both.w);
      assert st'[..|st'| - 3] == st;
    }
  }

  lemma OperandsRuns(env: Env, e: Expression, st: seq<Value>, w: World)
    ensures Computes(env, OperandsCode(e), st, w, EvalOperands(env, e, w))
    decreases e, 2
  {
    hide Exec, EvalBoth, BothCode;
    var c1 := if e.right == None && e.left.Some? then ExpressionCode(e.left.value) else [Push(Nil)];
    var c2 := if e.logicalOperator == "" then [] else BothCode(e) + [Both(true, e.logicalOperator)];
    var c3 := if e.comparisonOperator == "" then [] else BothCode(e) + [Both(false, e.comparisonOperator)];
    var single := if e.right == None && e.left.Some? then EvalExpression(env, e.left.value, w) else Eval(w, Got(Nil));
    if e.right == None && e.left.Some? {
      ExpressionRuns(env, e.left.value, st, w);
    } else {
      PushRuns(env, Nil, st, w);
    }
    SoloThen(env, c1, c2, st, w, single);
    var logical := if single.r.Lost? || e.logicalOperator == "" then single
                   else Operated(env, true, e.logicalOperator, e, single.r.v, single.w);
    if single.r.Got? && e.logicalOperator != "" {
      OperatorRuns(env, true, e.logicalOperator, e, st, single.r.v, single.w);
    }
    SoloThen(env, c1 + c2, c3, st, w, logical);
    if logical.r.Got? && e.comparisonOperator != "" {
      OperatorRuns(env, false, e.comparisonOperator, e, st, logical.r.v, logical.w);
    }
    OperandsParts(env, e, w, single, logical);
  }

  lemma OperandsParts(env: Env, e: Expression, w: World, single: Eval, logical: Eval)
    requires single == if e.right == None && e.left.Some? then EvalExpression(env, e.left.value, w) else Eval(w, Got(Nil))
    requires logical == if single.r.Lost? || e.logicalOperator == "" then single
                        else Operated(env, true, e.logicalOperator, e, single.r.v, single.w)
    ensures EvalOperands(env, e, w) == if logical.r.Lost? || e.comparisonOperator == "" then logical
                                       else Operated(env, false, e.comparisonOperator, e, logical.r.v, logical.w)
  {
    hide EvalBoth, EvalExpression, Logical, Compare, Combined;
  }

  lemma PushRuns(env: Env, v: Value, st: seq<Value>, w: World)
    ensures Solo(env, [Push(v)], st, w) == Did(w, Some(st + [v]))
  {
    SoloOne(env, Push(v), st, w);
  }

  lemma ExpressionRuns(env: Env, e: Expression, st: seq<Value>, w: World)
    ensures Computes(env, ExpressionCode(e), st, w, EvalExpression(env, e, w))
    decreases e, 3
  {
    hide Exec, Finish, EvalOperands, OperandsCode, MathCode, EvalMath, AtomCode, EvalAtom;
    var math := if e.math.Some? then EvalMath(env, e.math.value, w) else Eval(w, Got(Nil));
    if e.math.Some? { MathRuns(env, e.math.value, st, w); } else { PushRuns(env, Nil, st, w); }
    SoloConcat(env, MathPart(e.math) + AtomPart(e.atom) + OperandsCode(e), [Last(e.notOperator)], st, w);
    SoloConcat(env, MathPart(e.math) + AtomPart(e.atom), OperandsCode(e), st, w);
    SoloThen(env, MathPart(e.math), AtomPart(e.atom), st, w, math);
    if math.r.Got? {
      var atom := if e.atom.Some? then EvalAtom(env, e.atom.value, math.w) else Eval(math.w, Got(Nil));
      if e.atom.Some? { AtomRuns(env, e.atom.value, st + [math.r.v], math.w); } else { PushRuns(env, Nil, st + [math.r.v], math.w); }
      if atom.r.Got? {
        var b := EvalOperands(env, e, atom.w);
        OperandsRuns(env, e, st + [math.r.v] + [atom.r.v], atom.w);
        if b.r.Got? {
          LastStep(env, e.notOperator, st, math.r.v, atom.r.v, b.r.v, b.w);
        }
      }
    }
  }

  lemma LastStep(env: Env, notOperator: string, st: seq<Value>, math: Value, atom: Value, b: Value, w: World)
    ensures Solo(env, [Last(notOperator)], st + [math] + [atom] + [b], w) == Pushed(w, st, Finish(notOperator, math, atom, b, w.heap))
  {
    hide Finish;
    SoloOne(env, Last(notOperator), st + [math] + [atom] + [b], w);
    assert (st + [math] + [atom] + [b])[..|st|] == st;
  }

  // ---------- Whole tasks ----------

  lemma SourceRuns(env: Env, a: Assignment, st: seq<Value>, w: World)
    ensures Computes(env, SourceCode(a), st, w, EvalSource(env, a, w))
  {
    hide Exec, MathCode, EvalMath, ExpressionCode, EvalExpression;
    var math := if a.math.Some? then EvalMath(env, a.math.value, w) else Eval(w, Got(Nil));
    if a.math.Some? { MathRuns(env, a.math.value, st, w); } else { PushRuns(env, Nil, st, w); }
    if a.expression == None {
      assert MathPart(a.math) + [] == MathPart(a.math);
    } else {
      var code := ExpressionCode(a.expression.value);
      SoloThen(env, MathPart(a.math), [Drop] + code, st, w, math);
      if math.r.Got? {
        Dropped(env, code, st, math.r.v, math.w);
        ExpressionRuns(env, a.expression.value, st, math.w);
      }
    }
  }

  lemma Dropped(env: Env, code: Code, st: seq<Value>, v: Value, w: World)
    ensures Solo(env, [Drop] + code, st + [v], w) == Solo(env, code, st, w)
  {
    SoloConcat(env, [Drop], code, st + [v], w);
    SoloOne(env, Drop, st + [v], w);
    assert (st + [v])[..|st|] == st;
  }

  lemma CurrentRuns(env: Env, a: Assignment, st: seq<Value>, w: World)
    ensures Computes(env, CurrentCode(a), st, w, Eval(w, CurrentValue(env, a, w)))
  {
    hide GetValue, ReadMapVar, KeyCode;
    var first := if a.variable == "" then [Push(Nil)] else [Load(a.variable)];
    var v := if a.variable != "" then GetValue(env, a.variable, w) else Got(Nil);
    SoloOne(env, first[0], st, w);
    if a.mapVar == None {
      assert first + [] == first;
    } else {
      var code := KeyCode(a.mapVar.value) + [Read(a.mapVar.value)];
      assert [Drop] + KeyCode(a.mapVar.value) + [Read(a.mapVar.value)] == [Drop] + code;
      SoloThen(env, first, [Drop] + code, st, w, Eval(w, v));
      if v.Got? {
        Dropped(env, code, st, v.v, w);
        ReadRuns(env, a.mapVar.value, st, w);
      }
    }
  }

  /** The value an assignment is about to store, or the fault before it. */
  function NewValue(env: Env, a: Assignment, w: World): Eval {
    var source := EvalSource(env, a, w);
    if source.r.Lost? || Plain(a.assignOperator) then source
    else
      var current := CurrentValue(env, a, source.w);
      Eval(source.w, if current.Lost? then current else CompoundValue(env, a.assignOperator, current.v, source.r.v, source.w.heap))
  }

  lemma ValueRuns(env: Env, a: Assignment, st: seq<Value>, w: World)
    ensures Computes(env, ValueCode(a), st, w, NewValue(env, a, w))
  {
    hide Exec, SourceCode, EvalSource, CurrentCode, CurrentValue, CompoundValue;
    var source := EvalSource(env, a, w);
    SourceRuns(env, a, st, w);
    if Plain(a.assignOperator) {
      assert SourceCode(a) + [] == SourceCode(a);
    } else {
      var rest := CurrentCode(a) + [Compound(a.assignOperator)];
      SoloThen(env, SourceCode(a), rest, st, w, source);
      if source.r.Got? {
        var current := CurrentValue(env, a, source.w);
        CurrentRuns(env, a, st + [source.r.v], source.w);
        SoloThen(env, CurrentCode(a), [Compound(a.assignOperator)], st + [source.r.v], source.w, Eval(source.w, current));
        if current.Got? {
          CompoundStep(env, a.assignOperator, st, source.r.v, current.v, source.w);
        }
      }
    }
  }

  lemma CompoundStep(env: Env, op: string, st: seq<Value>, v: Value, current: Value, w: World)
    ensures Solo(env, [Compound(op)], st + [v] + [current], w) == Pushed(w, st, CompoundValue(env, op, current, v, w.heap))
  {
    hide CompoundValue;
    SoloOne(env, Compound(op), st + [v] + [current], w);
    assert (st + [v] + [current])[..|st|] == st;
  }

  lemma StoreRuns(env: Env, a: Assignment, v: Value, w: World)
    ensures var e := Store(env, a, v, w);
            Solo(env, StoreCode(a), [v], w) == Did(e.w, if e.r.Got? then Some([]) else None)
  {
    hide SetValue, WriteMapVar, KeyCode;
    if a.variable != "" {
      SoloOne(env, Save(a.variable), [v], w);
    } else if a.mapVar.Some? {
      WriteRuns(env, a.mapVar.value, v, w);
    } else {
      SoloOne(env, Drop, [v], w);
    }
  }

  lemma WriteRuns(env: Env, m: MapVar, v: Value, w: World)
    ensures var e := WriteMapVar(env, m, v, w);
            Solo(env, KeyCode(m) + [Write(m)], [v], w) == Did(e.w, if e.r.Got? then Some([]) else None)
  {
    hide GetValue, Exec, WriteAt, KeyCode;
    KeyRuns(env, m, [v], w);
    SoloConcat(env, KeyCode(m), [Write(m)], [v], w);
    var d := Loaded(env, m, [v], w);
    if d.stack.Some? {
      SoloOne(env, Write(m), d.stack.value, w);
      var key := if m.varkey == "" then GetValue(env, m.name, w).v else GetValue(env, m.varkey, w).v;
      WriteStep(env, m, v, w, GetValue(env, m.name, w).v, key);
    }
  }

  lemma WriteStep(env: Env, m: MapVar, v: Value, w: World, holder: Value, key: Value)
    requires m.varkey == "" ==> key == holder
    requires GetValue(env, m.name, w) == Got(holder) && (m.varkey != "" ==> GetValue(env, m.varkey, w) == Got(key))
    ensures var e := WriteMapVar(env, m, v, w);
            Exec(env, Write(m), if m.varkey == "" then [v] + [holder] else [v] + [holder] + [key], w) ==
            Did(e.w, if e.r.Got? then Some([]) else None)
  {
    hide GetValue, WriteAt;
  }

  /** A conc assignment left alone does what EvalAssignment does. */
  lemma SoloAssignment(env: Env, a: Assignment, w: World)
    ensures var e := EvalAssignment(env, a, w);
            Solo(env, AssignmentCode(a), [], w) == Did(e.w, if e.r.Got? then Some([]) else None)
  {
    hide ValueCode, StoreCode, Store, EvalSource, CurrentValue, CompoundValue;
    var v := NewValue(env, a, w);
    ValueRuns(env, a, [], w);
    SoloThen(env, ValueCode(a), StoreCode(a), [], w, v);
    if v.r.Got? {
      assert [] + [v.r.v] == [v.r.v];
      StoreRuns(env, a, v.r.v, v.w);
    }
  }

  /** So does a conc call. */
  lemma SoloCall(env: Env, kind: CallKind, c: Call, w: World)
    ensures var e := EvalCall(env, kind, c, w);
            Solo(env, CallCode(kind, c), [], w) == Did(e.w, if e.r.Got? then Some([e.r.v]) else None)
  {
    CallRuns(env, kind, c, [], w);
    var e := EvalCall(env, kind, c, w);
    if e.r.Got? {
      assert [] + [e.r.v] == [e.r.v];
    }
  }
}
