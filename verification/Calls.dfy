/**
 Calls into the host, on the engine's own record: which callee is called, with what, and what becomes of
 its answer. And the order in which the arguments of a call are evaluated.
 */
module Calls {
  import opened Values
  import opened Ast
  import opened ParseTree
  import opened FrontEnd
  import opened Runtime
  import opened Evaluator
  import opened Meaning
  import opened Preservation

  /** What a name stands for in w: an injected value, else a variable of the rule. */
  predicate StandsFor(env: Env, name: string, w: World, v: Value) {
    if name in env.base then v == env.base[name] else name in w.vars && v == w.vars[name]
  }

  predicate StandsForNothing(env: Env, name: string, w: World) {
    name !in env.base && name !in w.vars
  }

  /** The object of a method call's name: what stands before its first dot. */
  lemma OwnerIsPrefix(owner: string, rest: string)
    requires '.' !in owner
    ensures Owner(owner + "." + rest) == owner
  {
    var name := owner + "." + rest;
    if owner != [] {
      assert name[1..] == owner[1..] + "." + rest;
      OwnerIsPrefix(owner[1..], rest);
    }
  }

  /** The values v1, v2, … an argument list has been evaluated to, each as it reads in w. */
  predicate Read(vs: seq<Value>, xs: seq<Value>, w: World) {
    |xs| == |vs| && forall i | 0 <= i < |vs| :: xs[i] == Content(vs[i], w.heap)
  }

  /** The host has been called once, with exactly this callee and these arguments, in w1. */
  ghost predicate CalledOnce(env: Env, callee: Callee, xs: seq<Value>, w1: World, e: Eval) {
    var reply := env.host(callee, xs, w1.heap, w1.host);
    && e.w == World(w1.vars, reply.heap, reply.host, w1.calls + 1, w1.ticks)
    && (reply.r.Got? ==> e.r == reply.r)
    && (reply.r.Lost? ==> e.r == Lost(Failed))
  }

  /**
   A function call whose arguments evaluate to vs hands the function found the contents of vs, in this
   order, and yields its answer; heap and host are as the function left them.
   */
  lemma FunctionCalls(env: Env, c: Call, w: World, w1: World, vs: seq<Value>, xs: seq<Value>, v: Value)
    requires c.args.Some? && EvalArgs(env, c.args.value.argList, w) == Many(w1, vs, None)
    requires StandsFor(env, c.name, w1, v) && Read(vs, xs, w1)
    ensures CalledOnce(env, FunctionValue(Content(v, w1.heap)), xs, w1, EvalCall(env, Function, c, w))
  {
    hide EvalArgs;
    assert Contents(vs, w1.heap) == xs;
  }

  /** A method call hands them to the method of the object before the first dot. */
  lemma MethodCalls(env: Env, kind: CallKind, c: Call, w: World, w1: World, vs: seq<Value>, xs: seq<Value>, owner: string,
      rest: string, v: Value)
    requires kind != Function && c.name == owner + "." + rest && '.' !in owner
    requires c.args.Some? && EvalArgs(env, c.args.value.argList, w) == Many(w1, vs, None)
    requires StandsFor(env, owner, w1, v) && Read(vs, xs, w1)
    ensures CalledOnce(env, Member(v, c.name), xs, w1, EvalCall(env, kind, c, w))
  {
    hide EvalArgs;
    OwnerIsPrefix(owner, rest);
    assert Contents(vs, w1.heap) == xs;
  }

  /** A call without an argument list hands over none. */
  lemma BareCalls(env: Env, kind: CallKind, c: Call, w: World, owner: string, rest: string, v: Value)
    requires c.args == None && '.' !in owner && (kind == Function || c.name == owner + "." + rest)
    requires StandsFor(env, if kind == Function then c.name else owner, w, v)
    ensures CalledOnce(env, if kind == Function then FunctionValue(Content(v, w.heap)) else Member(v, c.name), [], w,
                       EvalCall(env, kind, c, w))
  {
    if kind != Function {
      OwnerIsPrefix(owner, rest);
    }
    assert Contents([], w.heap) == [];
  }

  /** Without a callee, or with an argument that fails, the host is not called and the call is an error. */
  lemma FailsUncalled(env: Env, kind: CallKind, c: Call, w: World, owner: string, rest: string)
    requires c.args.Some? && '.' !in owner && (kind == Function || c.name == owner + "." + rest)
    requires var args := EvalArgs(env, c.args.value.argList, w);
             args.fault.Some? || StandsForNothing(env, if kind == Function then c.name else owner, args.w)
    ensures EvalCall(env, kind, c, w) == Eval(EvalArgs(env, c.args.value.argList, w).w, Lost(Failed))
  {
    hide EvalArgs;
    if kind != Function {
      OwnerIsPrefix(owner, rest);
    }
  }

  /** The arguments are evaluated from the first to the last, each in the world the one before left. */
  ghost predicate InTurn(env: Env, list: seq<Arg>, vs: seq<Value>, worlds: seq<World>) {
    && |vs| == |list| && |worlds| == |list| + 1
    && forall i | 0 <= i < |list| :: EvalArg(env, list[i], worlds[i]) == Eval(worlds[i + 1], Got(vs[i]))
  }

  lemma {:induction false} ArgumentsInTurn(env: Env, list: seq<Arg>, vs: seq<Value>, worlds: seq<World>)
    requires InTurn(env, list, vs, worlds)
    ensures EvalArgs(env, list, worlds[0]) == Many(worlds[|list|], vs, None)
    decreases |list|
  {
    hide EvalArg;
    if list != [] {
      var n := |list| - 1;
      forall i | 0 <= i < n ensures EvalArg(env, list[..n][i], worlds[..n + 1][i]) == Eval(worlds[..n + 1][i + 1], Got(vs[..n][i])) {
        assert EvalArg(env, list[i], worlds[i]) == Eval(worlds[i + 1], Got(vs[i]));
      }
      ArgumentsInTurn(env, list[..n], vs[..n], worlds[..n + 1]);
      assert vs[..n] + [vs[n]] == vs;
    }
  }

  /** `f(x, y)` on two integer literals calls f with the first and the second, in this order. */
  lemma TwoLiterals(env: Env, h: Header, f: string, x: PInteger, y: PInteger, w: World)
    requires f in env.base && !env.base[f].Element?
    requires AcceptedCall(Calling(f, x, y))
    ensures CalledOnce(env, FunctionValue(env.base[f]), [Int(Signed, Number(x)), Int(Signed, Number(y))], w,
                       EvalCall(env, Function, BuildCall(Calling(f, x, y), h), w))
  {
    hide Number, AcceptedCall;
    var args := Calling(f, x, y).args.value.list;
    var c := BuildCall(Calling(f, x, y), h);
    var vs := [Int(Signed, Number(x)), Int(Signed, Number(y))];
    assert args[..1][..0] == [] && args[..1][0] == args[0];
    assert BuildArgs(args[..1], h) == [BuildArg(args[0], h)];
    assert BuildArgs(args, h) == [BuildArg(args[0], h), BuildArg(args[1], h)];
    ArgumentsInTurn(env, c.args.value.argList, vs, [w, w, w]);
    FunctionCalls(env, c, w, w, vs, vs, env.base[f]);
  }

  function Calling(f: string, x: PInteger, y: PInteger): PCall {
    PCall(Function, f, Some(PArgs([ArgConstant(PInt(x)), ArgConstant(PInt(y))])))
  }
}
