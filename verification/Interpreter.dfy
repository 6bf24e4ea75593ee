/**
 The interpreter as it runs: loops, early returns and updates in place, on the variables of one run
 and on what its host calls change. Each method is proved to leave exactly the state and to return
 exactly the results that `Execution` describes.
 */
module Interpreter {
  import opened Values
  import opened Ast
  import opened ParseTree
  import Runtime
  import opened Evaluator
  import opened Conc
  import opened Interleaving
  import opened Execution

  type World = Runtime.World
  type Env = Runtime.Env
  type Result = Runtime.Result

  /** The iterator of a slice counts up to the length it found; that of a map walks the keys it found. */
  class Iteration {
    const ofSlice: bool
    const max: nat
    const keys: seq<Value>
    var cur: nat

    constructor OverSlice(n: nat)
      ensures All() == Indexes(n) && cur == 0
    {
      ofSlice, max, keys, cur := true, n, [], 0;
    }

    constructor OverMap(ks: seq<Value>)
      ensures All() == ks && cur == 0
    {
      ofSlice, max, keys, cur := false, 0, ks, 0;
    }

    /** Every key the iterator yields, in order. */
    ghost function All(): seq<Value> {
      if ofSlice then Indexes(max) else keys
    }

    method Next() returns (more: bool)
      ensures more <==> cur < |All()|
    {
      more := if ofSlice then cur < max else cur < |keys|;
    }

    /** The next key. Past the end an index is counted on, a map yields the invalid value. */
    method Key() returns (key: Value)
      modifies this
      ensures old(cur) < |All()| ==> key == All()[old(cur)]
      ensures old(cur) >= |All()| ==> key == if ofSlice then Int(Signed, old(cur)) else Nil
      ensures cur == if ofSlice || old(cur) < |All()| then old(cur) + 1 else old(cur)
    {
      if ofSlice {
        key := Int(Signed, cur);
        cur := cur + 1;
        return;
      }
      if cur >= |keys| {
        return Nil;
      }
      key := keys[cur];
      cur := cur + 1;
    }
  }

  class Run {
    const env: Env
    var vars: map<string, Value>
    var heap: Runtime.Heap
    var host: nat
    var calls: nat
    var ticks: nat

    constructor (env: Env, w: World)
      ensures Now() == w && this.env == env
    {
      this.env := env;
      vars, heap, host, calls, ticks := w.vars, w.heap, w.host, w.calls, w.ticks;
    }

    function Now(): World
      reads this
    {
      Runtime.World(vars, heap, host, calls, ticks)
    }

    /** The result of an expression; what its host calls changed is in force afterwards. */
    method Take(e: Runtime.Eval) returns (r: Result)
      modifies this
      ensures Now() == e.w && r == e.r
    {
      vars, heap, host, calls, ticks := e.w.vars, e.w.heap, e.w.host, e.w.calls, e.w.ticks;
      r := e.r;
    }

    method SetValue(name: string, v: Value) returns (r: Result)
      modifies this
      ensures Now() == Runtime.SetValue(env, name, v, old(Now())).w && r == Runtime.SetValue(env, name, v, old(Now())).r
    {
      if '.' in name {
        var owner := Runtime.Find(env, Runtime.Owner(name), Now());
        if owner == None {
          return Runtime.Lost(Runtime.Failed);
        }
        var reply := env.setField(owner.value, name, Runtime.Content(v, heap), heap, host);
        heap, host := reply.heap, reply.host;
        return reply.r;
      }
      if name in env.base {
        var reply := env.setBase(env.base[name], Runtime.Content(v, heap), heap, host);
        heap, host := reply.heap, reply.host;
        return reply.r;
      }
      vars := vars[name := v];
      return Runtime.Got(Nil);
    }

    method Assign(a: Assignment) returns (err: Err)
      modifies this
      ensures Triple(Now(), Nil, err, false) == Simple(EvalAssignment(env, a, old(Now())))
    {
      hide EvalMath, EvalExpression, Runtime.Arithmetic, Runtime.GetValue, ReadMapVar, WriteMapVar, Runtime.SetValue;
      var mv := Nil;
      if a.math.Some? {
        var r := Take(EvalMath(env, a.math.value, Now()));
        if r.Lost? {
          return Raised(Runtime.Failed);
        }
        mv := r.v;
      }
      if a.expression.Some? {
        var r := Take(EvalExpression(env, a.expression.value, Now()));
        if r.Lost? {
          return Raised(Runtime.Failed);
        }
        mv := r.v;
      }
      ghost var source := EvalSource(env, a, old(Now()));
      assert source == Runtime.Eval(Now(), Runtime.Got(mv));
      if a.assignOperator != "=" && a.assignOperator != ":=" {
        var sv := Nil;
        if a.variable != "" {
          var r := Runtime.GetValue(env, a.variable, Now());
          if r.Lost? {
            return Raised(Runtime.Failed);
          }
          sv := r.v;
        }
        if a.mapVar.Some? {
          var r := ReadMapVar(env, a.mapVar.value, Now());
          if r.Lost? {
            return Raised(Runtime.Failed);
          }
          sv := r.v;
        }
        var r := CompoundValue(env, a.assignOperator, sv, mv, heap);
        if r.Lost? {
          return Raised(Runtime.Failed);
        }
        mv := r.v;
      }
      var r := Runtime.Got(Nil);
      if a.variable != "" {
        r := SetValue(a.variable, mv);
      } else if a.mapVar.Some? {
        r := Take(WriteMapVar(env, a.mapVar.value, mv, Now()));
      }
      return if r.Got? then NoError else Raised(Runtime.Failed);
    }

    method Statements(s: Statements) returns (value: Value, err: Err, flag: bool)
      modifies this
      ensures Triple(Now(), value, err, flag) == EvalStatements(env, s, old(Now()))
      decreases s
    {
      hide EvalStatement;
      ghost var w := Now();
      var i := 0;
      while i < |s.list|
        invariant 0 <= i <= |s.list|
        invariant Going(EvalList(env, s.list[..i], w)) && EvalList(env, s.list[..i], w).w == Now()
      {
        assert s.list[..i + 1][..i] == s.list[..i];
        var v, e, b := Statement(s.list[i]);
        ListStops(env, s.list, i + 1, w);
        if e != NoError {
          return Nil, e, false;
        }
        if b {
          return v, NoError, b;
        }
        i := i + 1;
      }
      assert s.list[..i] == s.list;
      if s.ret.Some? {
        value, err, flag := Return(s.ret.value);
        return;
      }
      return Nil, NoError, false;
    }

    method Return(r: ReturnStatement) returns (value: Value, err: Err, flag: bool)
      modifies this
      ensures Triple(Now(), value, err, flag) == EvalReturn(env, r, old(Now()))
    {
      if r.expression.Some? {
        var e := Take(EvalExpression(env, r.expression.value, Now()));
        match e
        case Got(v) => return v, NoError, true;
        case Lost(f) => return Nil, Raised(f), true;
      }
      return Nil, NoError, true;
    }

    method Statement(s: Statement) returns (value: Value, err: Err, flag: bool)
      modifies this
      ensures Triple(Now(), value, err, flag) == EvalStatement(env, s, old(Now()))
      decreases s
    {
      hide EvalCall, EvalAssignment, EvalConc, EvalIf, EvalFor, EvalForRange;
      if s.ifStmt.Some? {
        value, err, flag := If(s.ifStmt.value);
      } else if s.methodCall.Some? {
        value, err, flag := Calls(Method, s.methodCall.value);
      } else if s.functionCall.Some? {
        value, err, flag := Calls(Function, s.functionCall.value);
      } else if s.assignment.Some? {
        err := Assign(s.assignment.value);
        value, flag := Nil, false;
        AssignmentHasNoValue(env, s.assignment.value, old(Now()));
      } else if s.concStatement.Some? {
        err := Concurrently(s.concStatement.value);
        value, flag := Nil, false;
      } else if s.threeLevelCall.Some? {
        value, err, flag := Calls(ThreeLevel, s.threeLevelCall.value);
      } else if s.forStmt.Some? {
        value, err, flag := For(s.forStmt.value);
      } else if s.forRangeStmt.Some? {
        value, err, flag := ForRange(s.forRangeStmt.value);
      } else if s.isBreak {
        return Nil, BreakFlag, true;
      } else if s.isContinue {
        return Nil, ContinueFlag, true;
      } else {
        return Nil, Raised(Runtime.Failed), false;
      }
    }

    method Calls(kind: CallKind, c: Call) returns (value: Value, err: Err, flag: bool)
      modifies this
      ensures Triple(Now(), value, err, flag) == Simple(EvalCall(env, kind, c, old(Now())))
    {
      hide EvalCall;
      var r := Take(EvalCall(env, kind, c, Now()));
      match r
      case Got(v) => return v, NoError, false;
      case Lost(f) => return Nil, Raised(f), false;
    }

    /** A condition: Some(true or false), or the fault. */
    method Test(e: Option<Expression>) returns (r: Result)
      modifies this
      ensures Runtime.Eval(Now(), r) == Condition(env, e, old(Now()))
    {
      hide EvalExpression;
      if e == None {
        return Runtime.Lost(Runtime.Panicked);
      }
      var it := Take(EvalExpression(env, e.value, Now()));
      r := Runtime.Truth(it, heap);
    }

    method Block(s: Option<Statements>) returns (value: Value, err: Err, flag: bool)
      modifies this
      ensures Triple(Now(), value, err, flag) == EvalBlock(env, s, old(Now()))
      decreases s
    {
      if s == None {
        return Nil, NoError, false;
      }
      value, err, flag := Statements(s.value);
    }

    method If(i: IfStmt) returns (value: Value, err: Err, flag: bool)
      modifies this
      ensures Triple(Now(), value, err, flag) == EvalIf(env, i, old(Now()))
      decreases i
    {
      hide Condition, EvalBlock, EvalStatements;
      var it := Test(i.expression);
      if it.Lost? {
        return Nil, Raised(it.f), false;
      }
      if it.v == Bool(true) {
        value, err, flag := Block(i.statements);
        return;
      }
      ghost var w := Now();
      var k := 0;
      while k < |i.elseIfs|
        invariant 0 <= k <= |i.elseIfs|
        invariant EvalElseIfs(env, i, k, Now()) == EvalElseIfs(env, i, 0, w)
      {
        var v := Test(i.elseIfs[k].expression);
        if v.Lost? {
          return Nil, Raised(v.f), false;
        }
        if v.v == Bool(true) {
          if i.elseIfs[k].statements == None {
            return Nil, Raised(Runtime.Panicked), false;
          }
          value, err, flag := Statements(i.elseIfs[k].statements.value);
          return;
        }
        k := k + 1;
      }
      if i.elseStmt.Some? {
        value, err, flag := Block(i.elseStmt.value.statements);
        return;
      }
      return Nil, NoError, false;
    }

    method For(f: ForStmt) returns (value: Value, err: Err, flag: bool)
      modifies this
      ensures Triple(Now(), value, err, flag) == EvalFor(env, f, old(Now()))
      decreases f
    {
      hide Condition, EvalStatements, EvalAssignment;
      if |f.assignments| < 2 {
        return Nil, Raised(Runtime.Failed), false;
      }
      var init := Assign(f.assignments[0]);
      if init != NoError {
        return Nil, init, false;
      }
      ghost var w := Now();
      var iCount := 0;
      while true
        invariant iCount <= MAX_EXECUTE_NUM
        invariant ForLoop(env, f, iCount, Now()) == ForLoop(env, f, 0, w)
        decreases MAX_EXECUTE_NUM - iCount
      {
        iCount := iCount + 1;
        if iCount > MAX_EXECUTE_NUM {
          return Nil, Raised(Runtime.Failed), false;
        }
        var it := Test(f.expression);
        if it.Lost? {
          return Nil, Raised(it.f), false;
        }
        if it.v == Bool(true) {
          if f.statements == None {
            break;
          }
          var v, e, b := Statements(f.statements.value);
          if e.Raised? {
            return Nil, e, false;
          }
          if e == BreakFlag {
            break;
          }
          if b && e != ContinueFlag {
            return v, NoError, b;
          }
          var update := Assign(f.assignments[1]);
          if update != NoError {
            return Nil, update, false;
          }
        } else {
          break;
        }
      }
      return Nil, NoError, false;
    }

    method ForRange(f: ForRangeStmt) returns (value: Value, err: Err, flag: bool)
      modifies this
      ensures Triple(Now(), value, err, flag) == EvalForRange(env, f, old(Now()))
      decreases f
    {
      hide EvalStatements, Runtime.SetValue, Runtime.GetValue;
      var v := Runtime.GetValue(env, f.name, Now());
      if v.Lost? {
        return Nil, Raised(v.f), false;
      }
      var iter, fault := NewIterator(v.v);
      if iter == null {
        return Nil, Raised(fault), false;
      }
      ghost var w := Now();
      ghost var keys := iter.All();
      var iCount := 0;
      var more := iter.Next();
      while more
        invariant iCount == iter.cur <= |keys| && keys == iter.All() && iCount <= MAX_EXECUTE_NUM
        invariant more <==> iter.cur < |keys|
        invariant ForRangeLoop(env, f, keys, iter.cur, Now()) == ForRangeLoop(env, f, keys, 0, w)
        decreases |keys| - iter.cur
      {
        iCount := iCount + 1;
        if iCount > MAX_EXECUTE_NUM {
          return Nil, Raised(Runtime.Failed), false;
        }
        var key := iter.Key();
        var stored := SetValue(f.keyName, key);
        if stored.Lost? {
          return Nil, Raised(stored.f), false;
        }
        if f.statements == None {
          break;
        }
        var v', e, b := Statements(f.statements.value);
        if e.Raised? {
          return Nil, e, false;
        }
        if e == BreakFlag {
          break;
        }
        if b && e != ContinueFlag {
          return v', e, b;
        }
        more := iter.Next();
      }
      return Nil, NoError, false;
    }

    method NewIterator(v: Value) returns (iter: Iteration?, fault: Runtime.Fault)
      modifies this
      ensures iter == null ==> RangeKeys(env, v, old(Now())) == NotIterable(fault) && Now() == old(Now())
      ensures iter != null ==>
        && fresh(iter) && iter.cur == 0
        && RangeKeys(env, v, old(Now())) == Iterable(iter.All()) && Now() == Tick(old(Now()))
    {
      iter, fault := null, Runtime.Failed;
      var c := Runtime.Content(v, heap);
      if c == Nil {
        fault := Runtime.Panicked;
      } else if Runtime.Indexable(v, heap) && !c.pointer {
        var found := heap[c.addr];
        if found.SliceObject? {
          iter := new Iteration.OverSlice(found.length);
        } else {
          iter := new Iteration.OverMap(env.keyOrder(found.entries, ticks));
        }
        ticks := ticks + 1;
      }
    }

    /** Fork, let the scheduler interleave the tasks, and join. */
    method Concurrently(c: ConcStatement) returns (err: Err)
      modifies this
      ensures Triple(Now(), Nil, err, false) == Simple(EvalConc(env, c, old(Now())))
    {
      hide Advance, Next, ConcCodes;
      var m := Fork(ConcCodes(c), Now());
      ghost var start := m;
      var tasks, eMsg := m.tasks, m.errors;
      var next := Next(env, m);
      while next.Some?
        invariant next == Next(env, Machine(Now(), tasks, eMsg))
        invariant Join(env, Machine(Now(), tasks, eMsg)) == Join(env, start)
        decreases Remaining(tasks)
      {
        AdvanceShrinks(env, Machine(Now(), tasks, eMsg), next.value);
        var m' := Advance(env, Machine(Now(), tasks, eMsg), next.value);
        var _ := Take(Runtime.Eval(m'.w, Runtime.Got(Nil)));
        tasks, eMsg := m'.tasks, m'.errors;
        next := Next(env, Machine(Now(), tasks, eMsg));
      }
      return if eMsg == [] then NoError else Raised(Runtime.Failed);
    }
  }

  // ---------- Facts about the specification ----------

  /** No error and no return so far. */
  predicate Going(t: Triple) {
    t.err == NoError && !t.flag
  }

  /** A list of statements stops where a prefix of it stops. */
  lemma {:induction false} ListStops(env: Env, list: seq<Statement>, k: nat, w: World)
    requires k <= |list|
    ensures !Going(EvalList(env, list[..k], w)) ==> EvalList(env, list, w) == EvalList(env, list[..k], w)
    decreases |list|
  {
    hide EvalStatement;
    if k == |list| {
      assert list[..k] == list;
    } else {
      var front := list[..|list| - 1];
      assert front[..k] == list[..k];
      ListStops(env, front, k, w);
    }
  }

  lemma AssignmentHasNoValue(env: Env, a: Assignment, w: World)
    ensures Simple(EvalAssignment(env, a, w)).value == Nil
  {
    hide Assigned;
  }
}
