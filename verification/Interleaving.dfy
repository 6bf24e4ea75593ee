/**
 Running a conc block: the tasks' steps interleave in any order the scheduler picks, and every task
 that faults adds one entry to the shared error list.

 `ConcIsSequential` is the main result: assignments to distinct local variables, none reading
 another's target and none calling a function with side effects, end in the same state for every
 schedule as run one after another in source order.
 */
module Interleaving {
  import opened Values
  import opened Ast
  import opened ParseTree
  import opened Runtime
  import opened Evaluator
  import opened Conc

  datatype Task = Task(code: Code, stack: seq<Value>, failed: bool)

  /** `errors` lists the tasks in the order in which their errors were appended. */
  datatype Machine = Machine(w: World, tasks: seq<Task>, errors: seq<nat>)

  function Fork(codes: seq<Code>, w: World): (m: Machine)
  {
    Machine(w, seq(|codes|, i requires 0 <= i < |codes| => Task(codes[i], [], false)), [])
  }

  // ---------- Steps ----------

  /** The first n tasks that still have something to do. */
  function Live(tasks: seq<Task>, n: nat): (r: seq<nat>)
    requires n <= |tasks|
    ensures forall i <- r :: i < n && tasks[i].code != []
    ensures forall i | 0 <= i < n && tasks[i].code != [] :: i in r
  {
    if n == 0 then []
    else Live(tasks, n - 1) + if tasks[n - 1].code != [] then [n - 1] else []
  }

  function Advance(env: Env, m: Machine, i: nat): Machine
    requires i < |m.tasks| && m.tasks[i].code != []
  {
    var t := m.tasks[i];
    var d := Exec(env, t.code[0], t.stack, m.w);
    var w := d.w.(ticks := d.w.ticks + 1);
    match d.stack
    case None => Machine(w, m.tasks[i := Task([], [], true)], m.errors + [i])
    case Some(st) => Machine(w, m.tasks[i := Task(t.code[1..], st, false)], m.errors)
  }

  function Remaining(tasks: seq<Task>): nat {
    if tasks == [] then 0 else Remaining(tasks[..|tasks| - 1]) + |tasks[|tasks| - 1].code|
  }

  lemma {:induction false} RemainingShrinks(tasks: seq<Task>, i: nat, t: Task)
    requires i < |tasks| && |t.code| < |tasks[i].code|
    ensures Remaining(tasks[i := t]) < Remaining(tasks)
  {
    var front := tasks[..|tasks| - 1];
    if i == |tasks| - 1 {
      assert tasks[i := t][..|tasks| - 1] == front;
    } else {
      assert tasks[i := t][..|tasks| - 1] == front[i := t];
      RemainingShrinks(front, i, t);
    }
  }

  lemma AdvanceShrinks(env: Env, m: Machine, i: nat)
    requires i < |m.tasks| && m.tasks[i].code != []
    ensures Remaining(Advance(env, m, i).tasks) < Remaining(m.tasks)
  {
    hide Exec;
    RemainingShrinks(m.tasks, i, Advance(env, m, i).tasks[i]);
  }

  /** The task the scheduler picks among those left, if any. */
  function Next(env: Env, m: Machine): (r: Option<nat>)
    ensures r.Some? ==> r.value < |m.tasks| && m.tasks[r.value].code != []
    ensures r == None ==> forall i | 0 <= i < |m.tasks| :: m.tasks[i].code == []
  {
    var live := Live(m.tasks, |m.tasks|);
    if live == [] then None
    else
      var i := live[env.pick(m.w.ticks, |live|) % |live|];
      assert i in live;
      Some(i)
  }

  /** Until every task has finished, one of those left makes the next step. */
  function Join(env: Env, m: Machine): Machine
    decreases Remaining(m.tasks)
  {
    match Next(env, m)
    case None => m
    case Some(i) =>
      AdvanceShrinks(env, m, i);
      Join(env, Advance(env, m, i))
  }

  function CallCodes(kind: CallKind, calls: seq<Call>): seq<Code> {
    seq(|calls|, i requires 0 <= i < |calls| => CallCode(kind, calls[i]))
  }

  function AssignmentCodes(assignments: seq<Assignment>): seq<Code> {
    seq(|assignments|, i requires 0 <= i < |assignments| => AssignmentCode(assignments[i]))
  }

  function ConcCodes(c: ConcStatement): seq<Code> {
    AssignmentCodes(c.assignments) + CallCodes(Function, c.functionCalls) + CallCodes(Method, c.methodCalls) +
    CallCodes(ThreeLevel, c.threeLevelCalls)
  }

  function EvalConc(env: Env, c: ConcStatement, w: World): Eval {
    var end := Join(env, Fork(ConcCodes(c), w));
    Eval(end.w, if end.errors == [] then Got(Nil) else Lost(Failed))
  }

  // ---------- One entry per failing task ----------

  ghost predicate ErrorsMatch(m: Machine) {
    && (forall i <- m.errors :: i < |m.tasks|)
    && (forall i | 0 <= i < |m.tasks| :: i in m.errors <==> m.tasks[i].failed)
    && (forall j, k | 0 <= j < k < |m.errors| :: m.errors[j] != m.errors[k])
    && (forall i | 0 <= i < |m.tasks| :: m.tasks[i].failed ==> m.tasks[i].code == [])
  }

  lemma AdvanceErrors(env: Env, m: Machine, i: nat)
    requires i < |m.tasks| && m.tasks[i].code != [] && ErrorsMatch(m)
    ensures ErrorsMatch(Advance(env, m, i))
  {
    hide Exec;
    var m' := Advance(env, m, i);
    assert !m.tasks[i].failed && i !in m.errors;
    forall j | 0 <= j < |m'.tasks| ensures j in m'.errors <==> m'.tasks[j].failed {
      if j != i {
        assert m'.tasks[j] == m.tasks[j];
        assert j in m'.errors <==> j in m.errors;
      }
    }
  }

  lemma {:induction false} JoinErrors(env: Env, m: Machine)
    requires ErrorsMatch(m)
    ensures ErrorsMatch(Join(env, m))
    ensures |Join(env, m).tasks| == |m.tasks|
    ensures forall i | 0 <= i < |m.tasks| :: Join(env, m).tasks[i].code == []
    decreases Remaining(m.tasks)
  {
    hide Advance, ErrorsMatch, Next;
    var next := Next(env, m);
    if next.Some? {
      var i := next.value;
      AdvanceErrors(env, m, i);
      AdvanceShrinks(env, m, i);
      AdvanceLength(env, m, i);
      JoinErrors(env, Advance(env, m, i));
    }
  }

  lemma AdvanceLength(env: Env, m: Machine, i: nat)
    requires i < |m.tasks| && m.tasks[i].code != []
    ensures |Advance(env, m, i).tasks| == |m.tasks|
  {
    hide Exec;
  }

  /**
   Whatever the tasks and the schedule: all tasks finish, the error list has exactly one entry for
   every task that failed, and the block reports an error exactly when a task did.
   */
  lemma OneErrorPerFailure(env: Env, c: ConcStatement, w: World)
    ensures var end := Join(env, Fork(ConcCodes(c), w));
            && |end.tasks| == |c.assignments| + |c.functionCalls| + |c.methodCalls| + |c.threeLevelCalls|
            && (forall i | 0 <= i < |end.tasks| :: end.tasks[i].code == [])
            && (forall i | 0 <= i < |end.tasks| :: multiset(end.errors)[i] == if end.tasks[i].failed then 1 else 0)
            && (EvalConc(env, c, w).r.Lost? <==> exists i | 0 <= i < |end.tasks| :: end.tasks[i].failed)
  {
    hide Join;
    var start := Fork(ConcCodes(c), w);
    JoinErrors(env, start);
    var end := Join(env, start);
    forall i | 0 <= i < |end.tasks| ensures multiset(end.errors)[i] == if end.tasks[i].failed then 1 else 0 {
      CountOfDistinct(end.errors, i);
    }
    if end.errors != [] {
      var i := end.errors[0];
      assert i in end.errors;
      assert end.tasks[i].failed;
    }
  }

  lemma {:induction false} CountOfDistinct(s: seq<nat>, x: nat)
    requires forall j, k | 0 <= j < k < |s| :: s[j] != s[k]
    ensures multiset(s)[x] == if x in s then 1 else 0
  {
    if s != [] {
      var front := s[..|s| - 1];
      assert s == front + [s[|s| - 1]];
      CountOfDistinct(front, x);
    }
  }

  // ---------- What a step depends on ----------

  /** The variable a step looks up, if any: that of a name it loads, or that of the function it calls. */
  function Looked(ins: Instr): Option<string> {
    match ins
    case Load(name) => Some(Root(name))
    case Calling(kind, callee, _) => Some(if kind == Function then callee else Owner(callee))
    case _ => None
  }

  function Reads(code: Code): set<string> {
    set i | 0 <= i < |code| && Looked(code[i]).Some? :: Looked(code[i]).value
  }

  /** Injected functions that change nothing: their result may depend on the heap and the host's state. */
  ghost predicate PureHost(env: Env) {
    forall callee, args, heap, host ::
      env.host(callee, args, heap, host).heap == heap && env.host(callee, args, heap, host).host == host
  }

  /** No step that could change anything shared. */
  ghost predicate Quiet(env: Env, code: Code) {
    forall i | 0 <= i < |code| :: QuietStep(env, code[i])
  }

  ghost predicate QuietStep(env: Env, ins: Instr) {
    !ins.Save? && !ins.Write? && (ins.Calling? ==> PureHost(env))
  }

  ghost predicate SameVar(w: World, w': World, name: string) {
    (name in w.vars <==> name in w'.vars) && (name in w.vars ==> w.vars[name] == w'.vars[name])
  }

  ghost predicate Agree(w: World, w': World, names: set<string>) {
    w.heap == w'.heap && w.host == w'.host && (forall name <- names :: SameVar(w, w', name))
  }

  /** The count of host calls is all that a quiet step changes. */
  ghost predicate OnlyCalls(w: World, w': World) {
    w' == w.(calls := w'.calls)
  }

  lemma InvokeFrame(env: Env, kind: CallKind, callee: string, args: seq<Value>, w: World, w': World)
    requires PureHost(env) && Agree(w, w', {if kind == Function then callee else Owner(callee)})
    ensures OnlyCalls(w, Invoke(env, kind, callee, args, w).w)
    ensures Invoke(env, kind, callee, args, w').r == Invoke(env, kind, callee, args, w).r
  {
    assert SameVar(w, w', if kind == Function then callee else Owner(callee));
  }

  lemma ExecFrame(env: Env, ins: Instr, st: seq<Value>, w: World, w': World)
    requires QuietStep(env, ins) && Agree(w, w', Reads([ins]))
    ensures OnlyCalls(w, Exec(env, ins, st, w).w)
    ensures Exec(env, ins, st, w').stack == Exec(env, ins, st, w).stack
  {
    hide ReadAt, Arithmetic, Logically, Compared, Content, Finish, CompoundValue, Invoke, SetValue, WriteAt, PureHost;
    assert [ins][0] == ins;
    if ins.Load? {
      assert Root(ins.name) in Reads([ins]);
      assert SameVar(w, w', Root(ins.name));
    } else if ins.Calling? && |st| >= ins.arity {
      assert Looked(ins).value in Reads([ins]);
      InvokeFrame(env, ins.kind, ins.callee, st[|st| - ins.arity..], w, w');
    }
  }

  lemma {:induction false} SoloFrame(env: Env, code: Code, st: seq<Value>, w: World, w': World)
    requires Quiet(env, code) && Agree(w, w', Reads(code))
    ensures OnlyCalls(w, Solo(env, code, st, w).w)
    ensures Solo(env, code, st, w').stack == Solo(env, code, st, w).stack
    decreases |code|
  {
    hide Exec, QuietStep;
    if code != [] {
      HeadAndTail(env, code);
      ExecFrame(env, code[0], st, w, w');
      AgreeBack(w, w', Reads([code[0]]));
      ExecFrame(env, code[0], st, w', w);
      var d, d' := Exec(env, code[0], st, w), Exec(env, code[0], st, w');
      if d.stack.Some? {
        AgreeLess(w, w', Reads(code), Reads(code[1..]));
        AgreeCalls(w, w', d.w, d'.w, Reads(code[1..]));
        SoloFrame(env, code[1..], d.stack.value, d.w, d'.w);
      }
    }
  }

  lemma AgreeLess(w: World, w': World, names: set<string>, fewer: set<string>)
    requires Agree(w, w', names) && fewer <= names
    ensures Agree(w, w', fewer)
  {
  }

  lemma AgreeCalls(w: World, w': World, v: World, v': World, names: set<string>)
    requires Agree(w, w', names) && OnlyCalls(w, v) && OnlyCalls(w', v')
    ensures Agree(v, v', names)
  {
    forall name <- names ensures SameVar(v, v', name) {
      assert SameVar(w, w', name);
    }
  }

  lemma AgreeBack(w: World, w': World, names: set<string>)
    requires Agree(w, w', names)
    ensures Agree(w', w, names)
  {
    forall name <- names ensures SameVar(w', w, name) {
      assert SameVar(w, w', name);
    }
  }

  lemma HeadAndTail(env: Env, code: Code)
    requires code != []
    ensures Reads([code[0]]) <= Reads(code) && Reads(code[1..]) <= Reads(code)
    ensures Quiet(env, code) ==> QuietStep(env, code[0]) && Quiet(env, code[1..])
  {
    hide QuietStep, Looked;
    assert [code[0]][0] == code[0];
    forall name <- Reads(code[1..]) ensures name in Reads(code) {
      var i :| 0 <= i < |code[1..]| && Looked(code[1..][i]).Some? && Looked(code[1..][i]).value == name;
      assert code[i + 1] == code[1..][i];
    }
    if Quiet(env, code) {
      forall i | 0 <= i < |code[1..]| ensures QuietStep(env, code[1..][i]) {
        assert code[1..][i] == code[i + 1];
      }
    }
  }

  // ---------- Independent assignments ----------

  /** An assignment to a simple local variable that calls no injected function with side effects. */
  ghost predicate Local(env: Env, a: Assignment) {
    a.variable != "" && '.' !in a.variable && a.variable !in env.base && a.mapVar == None && Quiet(env, ValueCode(a))
  }

  /** Pairwise distinct targets, and no assignment reads the target of another. */
  ghost predicate Independent(env: Env, list: seq<Assignment>) {
    && (forall i | 0 <= i < |list| :: Local(env, list[i]))
    && (forall i, j | 0 <= i < |list| && 0 <= j < |list| && i != j ::
          list[i].variable != list[j].variable && list[j].variable !in Reads(ValueCode(list[i])))
  }

  /** The value assignment a computes from w. */
  function Outcome(env: Env, a: Assignment, w: World): Result {
    NewValue(env, a, w).r
  }

  lemma OutcomeFrame(env: Env, a: Assignment, w: World, w': World)
    requires Local(env, a) && Agree(w, w', Reads(ValueCode(a)))
    ensures Outcome(env, a, w).Got? <==> Outcome(env, a, w').Got?
    ensures Outcome(env, a, w).Got? ==> Outcome(env, a, w) == Outcome(env, a, w')
    ensures OnlyCalls(w', NewValue(env, a, w').w)
  {
    hide Solo, ValueCode, NewValue;
    ValueRuns(env, a, [], w);
    ValueRuns(env, a, [], w');
    SoloFrame(env, ValueCode(a), [], w, w');
    AgreeBack(w, w', Reads(ValueCode(a)));
    SoloFrame(env, ValueCode(a), [], w', w);
    if Outcome(env, a, w).Got? {
      assert ([] + [Outcome(env, a, w).v])[0] == Outcome(env, a, w).v;
      assert ([] + [Outcome(env, a, w').v])[0] == Outcome(env, a, w').v;
    }
  }

  /** w with the targets of all successful assignments of list set, each computed from w0. */
  ghost predicate Settled(env: Env, list: seq<Assignment>, w0: World, w: World) {
    && w.heap == w0.heap && w.host == w0.host
    && (forall i | 0 <= i < |list| :: TargetSettled(env, list[i], w0, w))
    && (forall name | forall i | 0 <= i < |list| :: list[i].variable != name :: SameVar(w0, w, name))
  }

  ghost predicate TargetSettled(env: Env, a: Assignment, w0: World, w: World) {
    match Outcome(env, a, w0)
    case Got(v) => a.variable in w.vars && w.vars[a.variable] == v
    case Lost(_) => SameVar(w0, w, a.variable)
  }

  lemma SettledUnique(env: Env, list: seq<Assignment>, w0: World, w: World, w': World)
    requires Settled(env, list, w0, w) && Settled(env, list, w0, w')
    ensures w.vars == w'.vars
  {
    hide Outcome;
    forall name ensures SameVar(w, w', name) {
      if i :| 0 <= i < |list| && list[i].variable == name {
        assert TargetSettled(env, list[i], w0, w) && TargetSettled(env, list[i], w0, w');
      } else {
        assert SameVar(w0, w, name) && SameVar(w0, w', name);
      }
    }
    assert w.vars.Keys == w'.vars.Keys by {
      forall name ensures name in w.vars.Keys <==> name in w'.vars.Keys {
        assert SameVar(w, w', name);
      }
    }
    forall name <- w.vars ensures w.vars[name] == w'.vars[name] {
      assert SameVar(w, w', name);
    }
  }

  // ---------- The main result ----------

  /** Where task i stands: failed, finished, or with a rest that still computes its outcome from w0. */
  ghost predicate TaskInv(env: Env, a: Assignment, t: Task, w0: World, w: World) {
    if t.failed then t.code == [] && Outcome(env, a, w0).Lost? && SameVar(w0, w, a.variable)
    else if t.code == [] then Outcome(env, a, w0).Got? && TargetSettled(env, a, w0, w)
    else Pending(env, a, t, w0) && SameVar(w0, w, a.variable)
  }

  ghost predicate Pending(env: Env, a: Assignment, t: Task, w0: World) {
    && t.code != []
    && t.code[|t.code| - 1] == Save(a.variable)
    && var rest := t.code[..|t.code| - 1];
       && Quiet(env, rest) && Reads(rest) <= Reads(ValueCode(a))
       && Solo(env, rest, t.stack, w0).stack == Pushed(w0, [], Outcome(env, a, w0)).stack
  }

  ghost predicate Inv(env: Env, list: seq<Assignment>, w0: World, m: Machine) {
    && |m.tasks| == |list|
    && m.w.heap == w0.heap && m.w.host == w0.host
    && (forall i | 0 <= i < |list| :: TaskInv(env, list[i], m.tasks[i], w0, m.w))
    && (forall name | forall i | 0 <= i < |list| :: list[i].variable != name :: SameVar(w0, m.w, name))
  }

  lemma InvStart(env: Env, list: seq<Assignment>, w0: World)
    requires Independent(env, list)
    ensures Inv(env, list, w0, Fork(AssignmentCodes(list), w0))
  {
    hide ValueCode, Solo, Outcome;
    var m := Fork(AssignmentCodes(list), w0);
    forall i | 0 <= i < |list| ensures TaskInv(env, list[i], m.tasks[i], w0, m.w) {
      PendingStart(env, list[i], w0);
    }
  }

  lemma PendingStart(env: Env, a: Assignment, w0: World)
    requires Local(env, a)
    ensures Pending(env, a, Task(AssignmentCode(a), [], false), w0)
  {
    hide ValueCode, Solo, NewValue;
    assert AssignmentCode(a)[..|AssignmentCode(a)| - 1] == ValueCode(a);
    ValueRuns(env, a, [], w0);
    OutcomeFrame(env, a, w0, w0);
  }

  /** A task still running sees its own target and everything it reads as they were at the start. */
  lemma SeesStart(env: Env, list: seq<Assignment>, w0: World, m: Machine, i: nat)
    requires Independent(env, list) && Inv(env, list, w0, m) && i < |list| && m.tasks[i].code != []
    ensures Agree(w0, m.w, Reads(ValueCode(list[i])))
  {
    hide ValueCode, Outcome, Pending;
    forall name <- Reads(ValueCode(list[i])) ensures SameVar(w0, m.w, name) {
      assert TaskInv(env, list[i], m.tasks[i], w0, m.w);
      if j :| 0 <= j < |list| && list[j].variable == name {
        assert j == i;
      }
    }
  }

  /** The step a task makes in w: its rest and the world afterwards. */
  function TaskAfter(t: Task, d: Did): Task
    requires t.code != []
  {
    if d.stack == None then Task([], [], true) else Task(t.code[1..], d.stack.value, false)
  }

  /** What one step does to the task that makes it and to the world. */
  lemma StepTask(env: Env, a: Assignment, t: Task, w0: World, w: World)
    requires Local(env, a) && Pending(env, a, t, w0) && SameVar(w0, w, a.variable) && Agree(w0, w, Reads(ValueCode(a)))
    ensures var d := Exec(env, t.code[0], t.stack, w);
            && TaskInv(env, a, TaskAfter(t, d), w0, d.w)
            && d.w.heap == w.heap && d.w.host == w.host && d.w.ticks == w.ticks
            && (forall name | name != a.variable :: SameVar(w, d.w, name))
  {
    hide ValueCode, Outcome, Exec, Solo, Reads, Quiet;
    var rest := t.code[..|t.code| - 1];
    if rest == [] {
      assert t.code == [Save(a.variable)];
      SaveStep(env, a, t, w0, w);
    } else {
      StepOn(env, a, t, w0, w, rest);
    }
  }

  lemma StepOn(env: Env, a: Assignment, t: Task, w0: World, w: World, rest: Code)
    requires Pending(env, a, t, w0) && SameVar(w0, w, a.variable) && Agree(w0, w, Reads(ValueCode(a)))
    requires rest == t.code[..|t.code| - 1] && rest != []
    ensures OnlyCalls(w, Exec(env, t.code[0], t.stack, w).w)
    ensures TaskInv(env, a, TaskAfter(t, Exec(env, t.code[0], t.stack, w)), w0, Exec(env, t.code[0], t.stack, w).w)
  {
    hide ValueCode, Outcome, Exec, Reads, QuietStep;
    assert t.code[0] == rest[0] && t.code[1..][..|t.code[1..]| - 1] == rest[1..];
    HeadAndTail(env, rest);
    AgreeLess(w0, w, Reads(ValueCode(a)), Reads([rest[0]]));
    ExecFrame(env, rest[0], t.stack, w0, w);
    AgreeBack(w0, w, Reads([rest[0]]));
    ExecFrame(env, rest[0], t.stack, w, w0);
    var d := Exec(env, rest[0], t.stack, w0);
    assert Solo(env, rest, t.stack, w0) == if d.stack == None then d else Solo(env, rest[1..], d.stack.value, d.w);
    if d.stack.Some? {
      RestFrame(env, rest[1..], d.stack.value, w0, d.w);
    }
    assert t.code[1..] != [] && t.code[1..][|t.code[1..]| - 1] == Save(a.variable);
  }

  /** A change of the call count alone makes no difference to quiet code. */
  lemma RestFrame(env: Env, code: Code, st: seq<Value>, w: World, w': World)
    requires Quiet(env, code) && OnlyCalls(w, w')
    ensures Solo(env, code, st, w').stack == Solo(env, code, st, w).stack
  {
    assert Agree(w, w', Reads(code));
    SoloFrame(env, code, st, w, w');
  }

  lemma SaveStep(env: Env, a: Assignment, t: Task, w0: World, w: World)
    requires Local(env, a) && Pending(env, a, t, w0) && t.code == [Save(a.variable)]
    ensures var v := Outcome(env, a, w0);
            v.Got? && Exec(env, t.code[0], t.stack, w) == Did(w.(vars := w.vars[a.variable := v.v]), Some([]))
  {
    hide ValueCode, Outcome;
    assert t.code[..0] == [];
    var v := Outcome(env, a, w0);
    assert Solo(env, [], t.stack, w0) == Did(w0, Some(t.stack));
    assert t.stack == [] + [v.v];
  }

  lemma InvStep(env: Env, list: seq<Assignment>, w0: World, m: Machine, i: nat)
    requires Independent(env, list) && Inv(env, list, w0, m) && i < |list| && m.tasks[i].code != []
    ensures Inv(env, list, w0, Advance(env, m, i))
  {
    hide ValueCode, Outcome, Exec, Pending;
    SeesStart(env, list, w0, m, i);
    assert TaskInv(env, list[i], m.tasks[i], w0, m.w);
    StepTask(env, list[i], m.tasks[i], w0, m.w);
    var m' := Advance(env, m, i);
    var d := Exec(env, m.tasks[i].code[0], m.tasks[i].stack, m.w);
    forall j | 0 <= j < |list| ensures TaskInv(env, list[j], m'.tasks[j], w0, m'.w) {
      assert TaskInv(env, list[j], m.tasks[j], w0, m.w);
      if j != i {
        assert SameVar(m.w, d.w, list[j].variable);
      }
    }
    forall name | forall j | 0 <= j < |list| :: list[j].variable != name ensures SameVar(w0, m'.w, name) {
      assert list[i].variable != name;
      assert SameVar(w0, m.w, name) && SameVar(m.w, d.w, name);
    }
  }

  lemma {:induction false} InvJoin(env: Env, list: seq<Assignment>, w0: World, m: Machine)
    requires Independent(env, list) && Inv(env, list, w0, m) && ErrorsMatch(m)
    ensures Settled(env, list, w0, Join(env, m).w)
    ensures forall i | 0 <= i < |list| :: i in Join(env, m).errors <==> Outcome(env, list[i], w0).Lost?
    decreases Remaining(m.tasks)
  {
    hide Advance, Next, Outcome, Independent, Pending;
    var next := Next(env, m);
    if next.Some? {
      hide Inv, ErrorsMatch;
      var i := next.value;
      AdvanceErrors(env, m, i);
      AdvanceShrinks(env, m, i);
      TasksLength(env, list, w0, m);
      InvStep(env, list, w0, m, i);
      InvJoin(env, list, w0, Advance(env, m, i));
    } else {
      forall i | 0 <= i < |list|
        ensures TargetSettled(env, list[i], w0, m.w) && (i in m.errors <==> Outcome(env, list[i], w0).Lost?)
      {
        assert TaskInv(env, list[i], m.tasks[i], w0, m.w);
      }
    }
  }

  lemma TasksLength(env: Env, list: seq<Assignment>, w0: World, m: Machine)
    requires Inv(env, list, w0, m)
    ensures |m.tasks| == |list|
  {
  }

  /** The assignments one after another, each whatever became of those before it. */
  function InOrder(env: Env, list: seq<Assignment>, w: World): World {
    if list == [] then w
    else EvalAssignment(env, list[|list| - 1], InOrder(env, list[..|list| - 1], w)).w
  }

  lemma AssignLocal(env: Env, a: Assignment, w0: World, w: World)
    requires Local(env, a) && Agree(w0, w, Reads(ValueCode(a)))
    ensures var e := EvalAssignment(env, a, w);
            && (e.r.Got? <==> Outcome(env, a, w0).Got?)
            && OnlyCalls(if Outcome(env, a, w0).Got? then w.(vars := w.vars[a.variable := Outcome(env, a, w0).v]) else w, e.w)
  {
    OutcomeFrame(env, a, w0, w);
    AssignIs(env, a, w);
  }

  lemma AssignIs(env: Env, a: Assignment, w: World)
    requires Local(env, a)
    ensures var v := NewValue(env, a, w);
            EvalAssignment(env, a, w) ==
            if v.r.Lost? then Eval(v.w, Lost(Failed)) else Eval(v.w.(vars := v.w.vars[a.variable := v.r.v]), Got(Nil))
  {
    hide EvalSource, CurrentValue, CompoundValue, ValueCode;
  }

  lemma {:induction false} InOrderSettles(env: Env, list: seq<Assignment>, w0: World)
    requires Independent(env, list)
    ensures Settled(env, list, w0, InOrder(env, list, w0))
  {
    hide ValueCode, Outcome, EvalAssignment;
    if list != [] {
      var n := |list| - 1;
      var front, a := list[..n], list[n];
      assert Independent(env, front);
      InOrderSettles(env, front, w0);
      var w := InOrder(env, front, w0);
      forall name <- Reads(ValueCode(a)) ensures SameVar(w0, w, name) {
        assert forall i | 0 <= i < |front| :: front[i].variable == list[i].variable != name;
      }
      AssignLocal(env, a, w0, w);
      SettledSnoc(env, front, a, w0, w, InOrder(env, list, w0));
      assert front + [a] == list;
    }
  }

  lemma SettledSnoc(env: Env, front: seq<Assignment>, a: Assignment, w0: World, w: World, w': World)
    requires Settled(env, front, w0, w) && forall i | 0 <= i < |front| :: front[i].variable != a.variable
    requires OnlyCalls(if Outcome(env, a, w0).Got? then w.(vars := w.vars[a.variable := Outcome(env, a, w0).v]) else w, w')
    ensures Settled(env, front + [a], w0, w')
  {
    hide Outcome;
    var list := front + [a];
    assert SameVar(w0, w, a.variable);
    forall i | 0 <= i < |list| ensures TargetSettled(env, list[i], w0, w') {
      if i < |front| {
        assert TargetSettled(env, front[i], w0, w);
      }
    }
    forall name | forall i | 0 <= i < |list| :: list[i].variable != name ensures SameVar(w0, w', name) {
      assert list[|front|] == a;
      assert forall i | 0 <= i < |front| :: list[i] == front[i];
      assert SameVar(w0, w, name);
    }
  }

  /**
   For every schedule, a conc block of independent assignments leaves the variables, the heap and the
   host as the same assignments run in source order do, and its error list names exactly the
   assignments that fail when evaluated from the block's start.
   */
  lemma ConcIsSequential(env: Env, list: seq<Assignment>, w: World)
    requires Independent(env, list)
    ensures var end := Join(env, Fork(ConcCodes(ConcStatement(list, [], [], [])), w));
            var serial := InOrder(env, list, w);
            && end.w.vars == serial.vars && end.w.heap == serial.heap && end.w.host == serial.host
            && (forall i | 0 <= i < |list| :: i in end.errors <==> EvalAssignment(env, list[i], w).r.Lost?)
  {
    hide ValueCode, Outcome, Join, Settled, EvalAssignment, InOrder;
    var codes := ConcCodes(ConcStatement(list, [], [], []));
    assert codes == AssignmentCodes(list);
    var start := Fork(codes, w);
    InvStart(env, list, w);
    InvJoin(env, list, w, start);
    InOrderSettles(env, list, w);
    SettledUnique(env, list, w, Join(env, start).w, InOrder(env, list, w));
    SettledShared(env, list, w, Join(env, start).w);
    SettledShared(env, list, w, InOrder(env, list, w));
    forall i | 0 <= i < |list| ensures Outcome(env, list[i], w).Got? <==> EvalAssignment(env, list[i], w).r.Got? {
      AssignLocal(env, list[i], w, w);
    }
  }

  lemma SettledShared(env: Env, list: seq<Assignment>, w0: World, w: World)
    requires Settled(env, list, w0, w)
    ensures w.heap == w0.heap && w.host == w0.host
  {
  }

  // ---------- One task, and the choice of the next ----------

  /** Any task that has something left can be the next to move: some pick of the scheduler makes it so. */
  lemma AnyTaskCanMove(env: Env, m: Machine, i: nat) returns (n: nat, j: nat)
    requires i < |m.tasks| && m.tasks[i].code != []
    ensures j < n && (env.pick(m.w.ticks, n) == j ==> Next(env, m) == Some(i))
  {
    var live := Live(m.tasks, |m.tasks|);
    n := |live|;
    j :| 0 <= j < n && live[j] == i;
  }

  /** Everything but the count of scheduling decisions is the same. */
  ghost predicate SameButTicks(w: World, w': World) {
    w' == w.(ticks := w'.ticks)
  }

  /** A step does not look at the count of scheduling decisions. */
  lemma ExecTicks(env: Env, ins: Instr, st: seq<Value>, w: World, w': World)
    requires SameButTicks(w, w')
    ensures Exec(env, ins, st, w').stack == Exec(env, ins, st, w).stack
    ensures SameButTicks(Exec(env, ins, st, w).w, Exec(env, ins, st, w').w)
  {
    hide ReadAt, Arithmetic, Logically, Compared, Content, Finish, CompoundValue, Root;
  }

  lemma {:induction false} SoloTicks(env: Env, code: Code, st: seq<Value>, w: World, w': World)
    requires SameButTicks(w, w')
    ensures Solo(env, code, st, w').stack == Solo(env, code, st, w).stack
    ensures SameButTicks(Solo(env, code, st, w).w, Solo(env, code, st, w').w)
    decreases |code|
  {
    hide Exec;
    if code != [] {
      ExecTicks(env, code[0], st, w, w');
      var d, d' := Exec(env, code[0], st, w), Exec(env, code[0], st, w');
      if d.stack.Some? {
        SoloTicks(env, code[1..], d.stack.value, d.w, d'.w);
      }
    }
  }

  lemma {:induction false} JoinOfOne(env: Env, m: Machine)
    requires |m.tasks| == 1 && (m.tasks[0].failed ==> m.tasks[0].code == []) && (m.errors == [] <==> !m.tasks[0].failed)
    ensures var t := m.tasks[0];
            var d, end := Solo(env, t.code, t.stack, m.w), Join(env, m);
            && SameButTicks(d.w, end.w)
            && (end.errors == [] <==> !t.failed && d.stack.Some?)
    decreases Remaining(m.tasks)
  {
    hide Exec;
    var t := m.tasks[0];
    var next := Next(env, m);
    if next.Some? {
      var d := Exec(env, t.code[0], t.stack, m.w);
      AdvanceShrinks(env, m, 0);
      var m' := Advance(env, m, 0);
      assert SameButTicks(d.w, m'.w);
      JoinOfOne(env, m');
      if d.stack.Some? {
        SoloTicks(env, t.code[1..], d.stack.value, d.w, m'.w);
      } else {
        assert Solo(env, m'.tasks[0].code, m'.tasks[0].stack, m'.w) == Did(m'.w, Some([]));
      }
    } else {
      assert Solo(env, [], t.stack, m.w) == Did(m.w, Some(t.stack));
    }
  }

  /** A block with one task does what the task does on its own, and fails exactly if it does. */
  lemma BlockOfOne(env: Env, code: Code, w: World)
    ensures var d, end := Solo(env, code, [], w), Join(env, Fork([code], w));
            SameButTicks(d.w, end.w) && (end.errors == [] <==> d.stack.Some?)
  {
    JoinOfOne(env, Fork([code], w));
  }

  /** `conc { a }` for an assignment, and `conc { f(…) }` for a call of any kind. */
  lemma ConcOfAssignment(env: Env, a: Assignment, w: World)
    ensures var e, x := EvalConc(env, ConcStatement([a], [], [], []), w), EvalAssignment(env, a, w);
            SameButTicks(x.w, e.w) && (e.r.Got? <==> x.r.Got?)
  {
    hide AssignmentCode, EvalAssignment, Join;
    assert ConcCodes(ConcStatement([a], [], [], [])) == [AssignmentCode(a)];
    BlockOfOne(env, AssignmentCode(a), w);
    SoloAssignment(env, a, w);
  }

  lemma ConcOfCall(env: Env, kind: CallKind, c: Call, w: World)
    ensures var block := ConcStatement([], if kind == Function then [c] else [], if kind == Method then [c] else [],
                                       if kind == ThreeLevel then [c] else []);
            var e, x := EvalConc(env, block, w), EvalCall(env, kind, c, w);
            SameButTicks(x.w, e.w) && (e.r.Got? <==> x.r.Got?)
  {
    hide CallCode, EvalCall, Join;
    var block := ConcStatement([], if kind == Function then [c] else [], if kind == Method then [c] else [],
                               if kind == ThreeLevel then [c] else []);
    assert ConcCodes(block) == [CallCode(kind, c)];
    BlockOfOne(env, CallCode(kind, c), w);
    SoloCall(env, kind, c, w);
  }
}
