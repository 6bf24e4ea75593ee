/**
 The engine as it runs: loops over the resolved rules, errors accumulated on the way, results written
 into the shared map. `clock` and `trace` are the model's view of the run: the time at which the
 context, the stop tag and the scheduler are asked, and the events so far.

 Each method is proved to leave the log and to return the errors that `Strategies` describes.
 */
module Engine {
  import opened Values
  import opened Ast
  import opened RuleOrder
  import opened Traces
  import opened Concurrency
  import opened Strategies
  import opened Modes

  /** A return, a panic that leaves the engine, or a refusal before any rule has run. */
  datatype Exit = Normal | Panic | Refused

  class Gengine {
    var returnResult: map<string, Value>
    var trace: seq<Event>
    var clock: nat
    const o: Oracle

    constructor (o: Oracle)
      ensures this.o == o && returnResult == map[] && trace == []
    {
      this.o := o;
      returnResult, trace, clock := map[], [], 0;
    }

    function Now(): Log
      reads this
    {
      Log(trace, returnResult, clock)
    }

    method AddResult(name: string, v: Value)
      modifies this`returnResult
      ensures returnResult == old(returnResult)[name := v]
    {
      returnResult := returnResult[name := v];
    }

    /** A copy, entry by entry. */
    method GetRulesResultMap() returns (out: map<string, Value>)
      ensures out == returnResult
    {
      out := map[];
      var rest := returnResult.Keys;
      while rest != {}
        invariant rest <= returnResult.Keys && out.Keys == returnResult.Keys - rest
        invariant forall k <- out :: out[k] == returnResult[k]
        decreases rest
      {
        var k :| k in rest;
        out := out[k := returnResult[k]];
        rest := rest - {k};
      }
    }

    /** Executes one rule of a serial phase. */
    method Execute(p: nat, at: nat, r: RuleEntity) returns (b: Behaviour)
      modifies this
      ensures (Now(), b) == ExecRule(o, p, at, r, old(Now()))
    {
      b := o.behave(r, clock);
      trace := trace + [Start(p, at), Finish(p, at, r.ruleName, b)];
      if b.Ran? && b.flag {
        AddResult(r.ruleName, b.v);
      }
      clock := clock + 1;
    }

    /** Launches a goroutine per rule and waits; the scheduler says who moves next. */
    method RunRulesConcurrently(p: nat, lo: nat, rules: seq<RuleEntity>) returns (errs: seq<Entry>)
      modifies this
      ensures (Now(), errs) == RunRules(o, p, lo, rules, old(Now()))
    {
      hide Step, Pick, Left, Launching;
      if |rules| == 0 {
        return [];
      }
      ForkLaunching(|rules|, Now());
      var g := Fork(|rules|, Now());
      ghost var start := g;
      assert start == Fork(|rules|, old(Now()));
      var next := Pick(o, g);
      while next.Some?
        invariant |g.threads| == |rules| && Launching(g) && next == Pick(o, g)
        invariant Wait(o, p, lo, rules, g) == Wait(o, p, lo, rules, start)
        decreases Left(g)
      {
        StepLess(o, p, lo, rules, g, next.value);
        g := Step(o, p, lo, rules, g, next.value);
        next := Pick(o, g);
      }
      assert Wait(o, p, lo, rules, start) == g;
      trace, returnResult, clock := g.log.trace, g.log.results, g.log.tick;
      errs := g.errs;
      if o.cancelled(clock) {
        errs := errs + [Cancelled];
      }
      assert g.errs + [] == g.errs;
    }

    /**
     The loop of a serial phase, fail-fast or collecting: the context is asked before each rule, the
     stop tag after it.
     */
    method RunSerially(p: nat, lo: nat, rules: seq<RuleEntity>, continueOnErr: bool,
        sTag: bool) returns (eMsg: seq<Entry>, stop: SerialStop)
      modifies this
      ensures SerialEnd(Now(), eMsg, stop) == Serial(o, p, lo, rules, 0, continueOnErr, sTag, old(Now()), [])
    {
      hide ExecRule;
      ghost var log := Now();
      eMsg, stop := [], Through;
      var i := 0;
      while i < |rules|
        invariant 0 <= i <= |rules|
        invariant Serial(o, p, lo, rules, i, continueOnErr, sTag, Now(), eMsg) == Serial(o, p, lo, rules, 0, continueOnErr, sTag, log, [])
      {
        if o.cancelled(clock) {
          return eMsg + [Cancelled], Halted;
        }
        var b := Execute(p, lo + i, rules[i]);
        if b.Panics? {
          return eMsg + [Failure(lo + i)], Panicked;
        }
        if b.failed {
          eMsg := eMsg + [Failure(lo + i)];
          if !continueOnErr {
            return eMsg, FailedFast;
          }
        }
        if sTag && o.stopped(clock) {
          return eMsg, Halted;
        }
        i := i + 1;
      }
    }

    /** The method has left what the specification says; a refusal leaves the log as it was. */
    ghost predicate Ends(ret: Ret, before: Log, exit: Exit, errors: seq<Entry>)
      reads this
    {
      match ret
      case Returned(log, errs) => exit == Normal && Now() == log && errors == errs
      case Crashed(log) => exit == Panic && Now() == log
      case Rejected(_) => exit == Refused && Now() == before
    }

    /**
     What a mode promises: the events follow the plan, the result map is that of the events, the errors
     are exactly the failures, and without an error or a stop every rule of the plan has run. After a
     panic the events still follow the plan; a refusal comes before any event.
     */
    ghost predicate Keeps(plan: seq<Phase>, exit: Exit, errors: seq<Entry>, stag: bool)
      reads this
    {
      && (exit == Normal ==> Obeys(plan, 0, 0, trace, errors, errors == [] && !stag))
      && (if exit == Refused then trace == [] && returnResult == map[] else Planned(plan, Now()))
    }

    /** Nothing has run yet in this execution. */
    ghost predicate Starting()
      reads this
    {
      trace == [] && returnResult == map[]
    }

    method ExecSort(rules: seq<RuleEntity>, continueOnErr: bool, sTag: bool) returns (exit: Exit, errors: seq<Entry>)
      modifies this
      ensures Ends(Strategies.ExecSort(o, rules, continueOnErr, sTag, old(Now())), old(Now()), exit, errors)
    {
      hide Serial;
      var eMsg, stop := RunSerially(0, 0, rules, continueOnErr, sTag);
      return if stop == Panicked then Panic else Normal, eMsg;
    }

    method ExecMix(rules: seq<RuleEntity>, sTag: bool) returns (exit: Exit, errors: seq<Entry>)
      modifies this
      ensures Ends(Strategies.ExecMix(o, rules, sTag, old(Now())), old(Now()), exit, errors)
      ensures Lasting(o) && old(Starting()) && rules != [] ==>
                Keeps([Phase(rules[..1], true), Phase(rules[1..], false)], exit, errors, MayStop(o, sTag))
    {
      hide Obeys, Planned, MayStop;
      if Lasting(o) && Starting() && rules != [] {
        MixGood(o, rules, sTag, Now());
      }
      hide RunRules, ExecRule;
      if o.cancelled(clock) {
        return Normal, [Cancelled];
      }
      if |rules| == 0 {
        return Refused, [];
      }
      var b := Execute(0, 0, rules[0]);
      if b.Panics? {
        return Panic, [];
      }
      if b.failed {
        return Normal, [Failure(0)];
      }
      if sTag && o.stopped(clock) {
        return Normal, [];
      }
      errors := RunRulesConcurrently(1, 1, rules[1..]);
      exit := Normal;
    }

    method ExecInverseMix(rules: seq<RuleEntity>) returns (exit: Exit, errors: seq<Entry>)
      modifies this
      ensures Ends(Strategies.ExecInverseMix(o, rules, old(Now())), old(Now()), exit, errors)
      ensures Lasting(o) && old(Starting()) && rules != [] ==>
                Keeps(if |rules| <= 2 then [Phase(rules, true)] else [Phase(rules[..|rules| - 1], false), Phase(rules[|rules| - 1..], true)],
                      exit, errors, false)
    {
      hide Obeys, Planned;
      if Lasting(o) && Starting() && rules != [] {
        InverseMixGood(o, rules, false, Now());
      }
      hide RunRules, ExecRule, Serial;
      if |rules| == 0 {
        return Refused, [];
      }
      if |rules| <= 2 {
        exit, errors := ExecSort(rules, true, false);
        return;
      }
      var n := |rules|;
      var concErr := RunRulesConcurrently(0, 0, rules[..n - 1]);
      if o.cancelled(clock) {
        return Normal, concErr + [Cancelled];
      }
      var b := Execute(1, n - 1, rules[n - 1]);
      if b.Panics? {
        return Panic, [];
      }
      return Normal, concErr + if b.failed then [Failure(n - 1)] else [];
    }

    /** The rules that exist under the given names. */
    method Listed(entities: Registry, names: seq<string>) returns (rules: seq<RuleEntity>)
      ensures rules == Existing(entities, names)
    {
      rules := [];
      var j := 0;
      while j < |names|
        invariant 0 <= j <= |names| && rules == Existing(entities, names[..j])
      {
        assert names[..j + 1][..j] == names[..j];
        if names[j] in entities {
          rules := rules + [entities[names[j]]];
        }
        j := j + 1;
      }
      assert names[..j] == names;
    }

    method ExecDAG(entities: Registry, dag: seq<seq<string>>) returns (exit: Exit, errors: seq<Entry>)
      modifies this
      ensures Ends(Strategies.ExecDAG(o, entities, dag, 0, 0, old(Now())), old(Now()), exit, errors)
    {
      hide RunRules, Existing;
      ghost var log := Now();
      var i: nat, lo: nat := 0, 0;
      while i < |dag|
        invariant 0 <= i <= |dag|
        invariant Strategies.ExecDAG(o, entities, dag, i, lo, Now()) == Strategies.ExecDAG(o, entities, dag, 0, 0, log)
      {
        if o.cancelled(clock) {
          return Normal, [Cancelled];
        }
        var rules := Listed(entities, dag[i]);
        var errs := RunRulesConcurrently(i, lo, rules);
        if errs != [] {
          return Normal, errs;
        }
        i, lo := i + 1, lo + |rules|;
      }
      return Normal, [];
    }

    method ExecNSortM(nRules: seq<RuleEntity>, mRules: seq<RuleEntity>, continueOnErr: bool) returns (exit: Exit,
        errors: seq<Entry>)
      modifies this
      ensures Ends(Strategies.ExecNSortM(o, nRules, mRules, continueOnErr, old(Now())), old(Now()), exit, errors)
      ensures Lasting(o) && old(Starting()) ==> Keeps([Phase(nRules, true), Phase(mRules, false)], exit, errors, false)
    {
      hide Obeys, Planned;
      if Lasting(o) && Starting() {
        NSortMGood(o, nRules, mRules, continueOnErr, false, Now());
      }
      hide RunRules, Serial;
      var eMsg, stop := RunSerially(0, 0, nRules, continueOnErr, false);
      if stop == Panicked {
        return Panic, [];
      }
      if stop == FailedFast {
        return Normal, eMsg;
      }
      var errs := RunRulesConcurrently(1, |nRules|, mRules);
      return Normal, eMsg + errs;
    }

    method ExecNConcurrentM(nRules: seq<RuleEntity>, mRules: seq<RuleEntity>, continueOnErr: bool,
        mConcurrent: bool) returns (exit: Exit, errors: seq<Entry>)
      modifies this
      ensures Ends(Strategies.ExecNConcurrentM(o, nRules, mRules, continueOnErr, mConcurrent, old(Now())), old(Now()), exit, errors)
      ensures Lasting(o) && old(Starting()) ==> Keeps([Phase(nRules, false), Phase(mRules, !mConcurrent)], exit, errors, false)
    {
      hide Obeys, Planned;
      if Lasting(o) && Starting() {
        NConcurrentMGood(o, nRules, mRules, continueOnErr, mConcurrent, false, Now());
      }
      hide RunRules, Serial;
      var concErr := RunRulesConcurrently(0, 0, nRules);
      if !continueOnErr && concErr != [] {
        return Normal, concErr;
      }
      if mConcurrent {
        var mErr := RunRulesConcurrently(1, |nRules|, mRules);
        return Normal, concErr + mErr;
      }
      var eMsg, stop := RunSerially(1, |nRules|, mRules, continueOnErr, false);
      return if stop == Panicked then Panic else Normal, concErr + eMsg;
    }

    /** Each access to the builder's context is a read of its own; what the reads found is a parameter. */
    method ResolveRules(found: Found, opts: Options) returns (r: Resolved)
      ensures r == Resolve(found, opts)
    {
      hide Existing, StableSort;
      if |opts.selected| == 0 {
        return if found.counted == 0 then NoRule(NoRules) else Rules(found.sorted);
      }
      var entities := found.entities;
      if |entities| == 0 {
        return NoRule(NoRules);
      }
      var rules := Listed(entities, opts.selected);
      if |rules| == 0 {
        return NoRule(NoMatch);
      }
      if !opts.preserveOrder && |rules| > 1 {
        rules := StableSort(rules);
      }
      return Rules(rules);
    }

    /** The branch of the entry point for the three windowed modes. */
    method ExecWindow(rules: seq<RuleEntity>, opts: Options) returns (exit: Exit, errors: seq<Entry>)
      requires Windowed(opts.mode)
      modifies this
      ensures Ends(Strategies.ExecWindow(o, rules, opts, old(Now())), old(Now()), exit, errors)
    {
      hide Strategies.ExecNSortM, Strategies.ExecNConcurrentM, Keeps, Lasting;
      if opts.n <= 0 || opts.m <= 0 || WrapAdd(opts.n, opts.m) > |rules| {
        return Refused, [];
      }
      if opts.n + opts.m > |rules| {
        return Panic, [];
      }
      var nRules, mRules := rules[..opts.n], rules[opts.n..opts.n + opts.m];
      if opts.mode == ModeNSortMConcurrent {
        exit, errors := ExecNSortM(nRules, mRules, opts.continueOnError);
      } else {
        exit, errors := ExecNConcurrentM(nRules, mRules, opts.continueOnError, opts.mode == ModeNConcurrentMConcurrent);
      }
    }

    /** The single entry point. */
    method ExecuteOpts(found: Found, opts: Options) returns (exit: Exit, errors: seq<Entry>, ghost ran: nat)
      modifies this
      ensures Ends(Strategies.ExecuteOpts(o, found, opts, old(clock)), Begun(old(clock)), exit, errors)
      ensures Lasting(o) ==> Keeps(Laid(found, opts), exit, errors, Stoppable(o, opts))
      ensures exit == Refused <==> Refuses(o, found, opts, old(clock))
      ensures opts.mode == ModeSort && exit != Refused ==>
                EndsSerially(o, Resolve(found, opts).rules, opts.continueOnError, opts.stopTag, old(clock),
                             if exit == Panic then Crashed(Now()) else Returned(Now(), errors), ran)
    {
      hide Obeys, Planned, Stoppable, Laid, EndsSerially, Refuses;
      RefusedIff(o, found, opts, clock);
      ran := 0;
      if opts.mode == ModeSort && Resolve(found, opts).Rules? {
        ran := SortMode(o, found, opts, clock, Resolve(found, opts).rules);
      }
      if Lasting(o) {
        ExecuteObeys(o, found, opts, clock);
      }
      hide Strategies.ExecSort, Strategies.ExecMix, Strategies.ExecInverseMix, Strategies.ExecDAG;
      hide Strategies.ExecWindow, RunRules, Resolve;
      trace, returnResult := [], map[];
      if opts.mode == ModeDAG {
        exit, errors := ExecDAG(found.entities, opts.dag);
        return;
      }
      var resolved := ResolveRules(found, opts);
      if resolved.NoRule? {
        return Refused, [], ran;
      }
      var rules := resolved.rules;
      if Windowed(opts.mode) {
        exit, errors := ExecWindow(rules, opts);
        return;
      }
      match opts.mode {
        case ModeSort => exit, errors := ExecSort(rules, opts.continueOnError, opts.stopTag);
        case ModeConcurrent =>
          errors := RunRulesConcurrently(0, 0, rules);
          exit := Normal;
        case ModeMix => exit, errors := ExecMix(rules, opts.stopTag);
        case ModeInverseMix => exit, errors := ExecInverseMix(rules);
        case _ => return Refused, [], ran;
      }
    }
  }

  lemma ForkLaunching(n: nat, log: Log)
    ensures |Fork(n, log).threads| == n && Launching(Fork(n, log))
  {
  }
}
