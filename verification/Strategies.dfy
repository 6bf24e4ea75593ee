/**
 The execution strategies: which rules a mode runs, in which phases, and when it stops early. Every
 mode is a function of what the run does not control; `ExecuteObeys` shows that its trace follows the
 mode's plan, that its errors are exactly the failures, and that a clean run leaves nothing out.
 */
module Strategies {
  import opened Values
  import opened Ast
  import opened RuleOrder
  import opened Traces
  import opened Concurrency

  datatype Mode =
    | ModeSort | ModeConcurrent | ModeMix | ModeInverseMix | ModeDAG
    | ModeNSortMConcurrent | ModeNConcurrentMSort | ModeNConcurrentMConcurrent | ModeUnknown

  /** `stopTag` says that a stop tag is given; n and m are 64-bit integers. */
  datatype Options = Options(
    mode: Mode,
    selected: seq<string>,
    preserveOrder: bool,
    continueOnError: bool,
    stopTag: bool,
    n: int,
    m: int,
    dag: seq<seq<string>>)

  datatype Reason = NoRules | NoMatch | BadN | BadM | TooMany | UnknownMode

  /**
   The end of an execution: errors returned after the run (none on success), a panic that a serial
   phase does not recover, or a refusal before any rule has run.
   */
  datatype Ret = Returned(log: Log, errors: seq<Entry>) | Crashed(log: Log) | Rejected(reason: Reason)

  // ---------- Which rules ----------

  /** The rules that exist under the given names, in the order of the names. */
  function Existing(entities: Registry, names: seq<string>): seq<RuleEntity> {
    if names == [] then []
    else
      var front := Existing(entities, names[..|names| - 1]);
      var name := names[|names| - 1];
      if name in entities then front + [entities[name]] else front
  }

  datatype Resolved = Rules(rules: seq<RuleEntity>) | NoRule(reason: Reason)

  /**
   What an execution finds in its builder's context, which may change while it looks: the length of the
   sorted list, then the list, and the registry. Module Snapshot says what these can be.
   */
  datatype Found = Found(counted: nat, sorted: seq<RuleEntity>, entities: Registry)

  /** Without selected names the list is read twice, first for its length. */
  function Resolve(found: Found, opts: Options): Resolved {
    var entities := found.entities;
    if opts.selected == [] then if found.counted == 0 then NoRule(NoRules) else Rules(found.sorted)
    else if entities == map[] then NoRule(NoRules)
    else
      var rules := Existing(entities, opts.selected);
      if rules == [] then NoRule(NoMatch)
      else if !opts.preserveOrder && |rules| > 1 then Rules(StableSort(rules))
      else Rules(rules)
  }

  /** The resolved order: by descending salience, ties in the caller's order, unless the caller's order is to be kept. */
  lemma ResolvedOrder(entities: Registry, counted: nat, sorted: seq<RuleEntity>, opts: Options)
    requires Keyed(entities) && Arranges(sorted, entities) && Resolve(Found(counted, sorted, entities), opts).Rules?
    ensures var r := Resolve(Found(counted, sorted, entities), opts).rules;
            var listed := Existing(entities, opts.selected);
            && (opts.selected == [] ==> r == sorted)
            && (opts.selected != [] ==> multiset(r) == multiset(listed))
            && (opts.selected != [] && opts.preserveOrder ==> r == listed)
            && (opts.selected == [] || !opts.preserveOrder ==> Descending(r))
            && (opts.selected != [] && !opts.preserveOrder ==>
                  forall salience :: OfSalience(r, salience) == OfSalience(listed, salience))
            && (forall x <- r :: x.ruleName in entities && entities[x.ruleName] == x)
  {
    var r := Resolve(Found(counted, sorted, entities), opts).rules;
    var listed := Existing(entities, opts.selected);
    ExistingListed(entities, opts.selected);
    if opts.selected != [] {
      forall salience ensures OfSalience(StableSort(listed), salience) == OfSalience(listed, salience) {
        StableSortIsStable(listed, salience);
      }
      forall x <- r ensures x.ruleName in entities && entities[x.ruleName] == x {
        assert x in multiset(r);
        assert x in listed;
      }
    }
  }

  lemma {:induction false} ExistingListed(entities: Registry, names: seq<string>)
    requires Keyed(entities)
    ensures forall x <- Existing(entities, names) :: x.ruleName in entities && entities[x.ruleName] == x
  {
    if names != [] {
      ExistingListed(entities, names[..|names| - 1]);
    }
  }

  /** A rule is listed as often as its name is. */
  lemma {:induction false} ExistingCounts(entities: Registry, names: seq<string>, name: string)
    requires Keyed(entities) && name in entities
    ensures multiset(Existing(entities, names))[entities[name]] == multiset(names)[name]
  {
    if names != [] {
      var front, last := names[..|names| - 1], names[|names| - 1];
      ExistingCounts(entities, front, name);
      assert names == front + [last];
      if last in entities && entities[last] == entities[name] {
        assert entities[last].ruleName == last && entities[name].ruleName == name;
      }
    }
  }

  // ---------- Serial phases ----------

  /** How a serial phase ended: all rules executed, left early, cut off by an error, or by a panic. */
  datatype SerialStop = Through | Halted | FailedFast | Panicked

  datatype SerialEnd = SerialEnd(log: Log, errors: seq<Entry>, stop: SerialStop)

  function ExecRule(o: Oracle, p: nat, at: nat, r: RuleEntity, log: Log): (Log, Behaviour) {
    var b := o.behave(r, log.tick);
    (Tock(AddResult(log.(trace := log.trace + [Start(p, at), Finish(p, at, r.ruleName, b)]), r.ruleName, b)), b)
  }

  /** The phase from rule i on. */
  function Serial(o: Oracle, p: nat, lo: nat, rules: seq<RuleEntity>, i: nat, cont: bool, stag: bool, log: Log,
      errors: seq<Entry>): SerialEnd
    requires i <= |rules|
    decreases |rules| - i
  {
    if i == |rules| then SerialEnd(log, errors, Through)
    else if o.cancelled(log.tick) then SerialEnd(log, errors + [Cancelled], Halted)
    else
      var (log1, b) := ExecRule(o, p, lo + i, rules[i], log);
      if b.Panics? then SerialEnd(log1, errors + [Failure(lo + i)], Panicked)
      else if b.failed && !cont then SerialEnd(log1, errors + [Failure(lo + i)], FailedFast)
      else
        var errors1 := if b.failed then errors + [Failure(lo + i)] else errors;
        if stag && o.stopped(log1.tick) then SerialEnd(log1, errors1, Halted)
        else Serial(o, p, lo, rules, i + 1, cont, stag, log1, errors1)
  }

  /** The first n rules have run one after another. */
  ghost predicate SerialInv(p: nat, lo: nat, rules: seq<RuleEntity>, n: nat, t: seq<Event>, errors: seq<Entry>) {
    && n <= |rules| && |t| == 2 * n
    && Tidy(t, p, lo, rules) && Serially(t, lo) && Reports(t, errors)
    && (forall at: nat :: FinishedIn(t, at) <==> lo <= at < lo + n)
    && (forall k | 0 <= k < |t| :: t[k].at < lo + n)
  }

  lemma SerialStart(p: nat, lo: nat, rules: seq<RuleEntity>)
    ensures SerialInv(p, lo, rules, 0, [], [])
  {
  }

  lemma SerialStep(p: nat, lo: nat, rules: seq<RuleEntity>, n: nat, t: seq<Event>, errors: seq<Entry>, b: Behaviour)
    requires SerialInv(p, lo, rules, n, t, errors) && n < |rules|
    ensures SerialInv(p, lo, rules, n + 1, t + [Start(p, lo + n), Finish(p, lo + n, rules[n].ruleName, b)],
                      errors + if Fails(b) then [Failure(lo + n)] else [])
  {
    hide Reports, FinishedIn, Tidy, Serially;
    var s, f := Start(p, lo + n), Finish(p, lo + n, rules[n].ruleName, b);
    assert t + [s, f] == t + [s] + [f];
    assert !FinishedIn(t, lo + n);
    FinishedSnoc(t, s, lo + n);
    SerialTidy(p, lo, rules, n, t, b);
    SerialSerially(p, lo, n, t, rules[n].ruleName, b);
    SameReports(t, s, errors);
    EndReports(t + [s], f, errors);
    forall at: nat ensures FinishedIn(t + [s] + [f], at) <==> lo <= at < lo + n + 1 {
      FinishedSnoc(t, s, at);
      FinishedSnoc(t + [s], f, at);
    }
    forall k | 0 <= k < |t + [s] + [f]| ensures (t + [s] + [f])[k].at < lo + n + 1 {
      assert k < |t| ==> (t + [s] + [f])[k] == t[k];
    }
  }

  lemma SerialTidy(p: nat, lo: nat, rules: seq<RuleEntity>, n: nat, t: seq<Event>, b: Behaviour)
    requires Tidy(t, p, lo, rules) && n < |rules| && !FinishedIn(t, lo + n) && forall k | 0 <= k < |t| :: t[k].at < lo + n
    ensures Tidy(t + [Start(p, lo + n)] + [Finish(p, lo + n, rules[n].ruleName, b)], p, lo, rules)
  {
    hide Tidy, FinishedIn;
    var s := Start(p, lo + n);
    TidySnoc(t, s, p, lo, rules);
    FinishedSnoc(t, s, lo + n);
    assert (t + [s])[|t|] == s;
    TidySnoc(t + [s], Finish(p, lo + n, rules[n].ruleName, b), p, lo, rules);
  }

  lemma SerialSerially(p: nat, lo: nat, n: nat, t: seq<Event>, name: string, b: Behaviour)
    requires Serially(t, lo) && |t| == 2 * n
    ensures Serially(t + [Start(p, lo + n)] + [Finish(p, lo + n, name, b)], lo)
  {
    var t' := t + [Start(p, lo + n)] + [Finish(p, lo + n, name, b)];
    assert forall k | 0 <= k < |t| :: t'[k] == t[k];
  }

  lemma SerialLog(log: Log, now: Log, t: seq<Event>, p: nat, at: nat, name: string, b: Behaviour)
    requires Extends(log, now, t)
    ensures Extends(log, Tock(AddResult(now.(trace := now.trace + [Start(p, at), Finish(p, at, name, b)]), name, b)),
                    t + [Start(p, at), Finish(p, at, name, b)])
  {
    hide Collect;
    var s, f := Start(p, at), Finish(p, at, name, b);
    assert t + [s, f] == t + [s] + [f];
    assert now.trace + [s, f] == log.trace + (t + [s, f]);
    CollectSnoc(log.results, t, s);
    CollectSnoc(log.results, t + [s], f);
  }

  /** What is known when a serial phase ends. */
  ghost predicate SerialResult(p: nat, lo: nat, rules: seq<RuleEntity>, stag: bool, log: Log, r: SerialEnd,
      t: seq<Event>) {
    && Extends(log, r.log, t)
    && PhaseTrace(Phase(rules, true), p, lo, t) && Reports(t, r.errors)
    && (r.stop == Through ==> AllRun(t, lo, lo + |rules|))
    && (r.stop == Halted ==> r.errors != [] || stag)
    && (r.stop == FailedFast ==> r.errors != [])
  }

  lemma SerialDone(p: nat, lo: nat, rules: seq<RuleEntity>, n: nat, t: seq<Event>, errors: seq<Entry>, stag: bool,
      log: Log, now: Log, stop: SerialStop)
    requires SerialInv(p, lo, rules, n, t, errors) && Extends(log, now, t)
    requires stop == Through ==> n == |rules|
    requires stop == Halted ==> stag || errors != []
    requires stop == FailedFast ==> errors != []
    ensures SerialResult(p, lo, rules, stag, log, SerialEnd(now, errors, stop), t)
  {
    hide Reports, FinishedIn;
    forall j | 0 <= j < |t| ensures FinishedIn(t, t[j].at) {
      assert t[j].at >= lo;
    }
  }

  lemma ReportsCancelled(t: seq<Event>, errors: seq<Entry>)
    requires Reports(t, errors)
    ensures Reports(t, errors + [Cancelled])
  {
    hide FailsAt;
    forall at: nat ensures Failure(at) in errors + [Cancelled] <==> Failure(at) in errors {
    }
  }

  lemma SerialFrom(o: Oracle, p: nat, lo: nat, rules: seq<RuleEntity>, i: nat, cont: bool, stag: bool, log0: Log,
      log: Log, errors: seq<Entry>, t: seq<Event>) returns (t': seq<Event>)
    requires i <= |rules| && SerialInv(p, lo, rules, i, t, errors) && Extends(log0, log, t)
    ensures SerialResult(p, lo, rules, stag && exists tick: nat :: o.stopped(tick), log0, Serial(o, p, lo, rules, i, cont, stag, log, errors), t')
    decreases |rules| - i
  {
    hide SerialInv, SerialResult, Extends, Reports;
    var st := stag && exists tick: nat :: o.stopped(tick);
    t' := t;
    if i == |rules| {
      SerialDone(p, lo, rules, i, t, errors, st, log0, log, Through);
    } else if o.cancelled(log.tick) {
      SerialCancelled(p, lo, rules, i, t, errors);
      SerialDone(p, lo, rules, i, t, errors + [Cancelled], st, log0, log, Halted);
    } else {
      var (log1, b) := ExecRule(o, p, lo + i, rules[i], log);
      SerialStep(p, lo, rules, i, t, errors, b);
      SerialLog(log0, log, t, p, lo + i, rules[i].ruleName, b);
      t' := t + [Start(p, lo + i), Finish(p, lo + i, rules[i].ruleName, b)];
      var errors1 := errors + if Fails(b) then [Failure(lo + i)] else [];
      assert !Fails(b) ==> errors1 == errors;
      if b.Panics? {
        SerialDone(p, lo, rules, i + 1, t', errors1, st, log0, log1, Panicked);
      } else if b.failed && !cont {
        SerialDone(p, lo, rules, i + 1, t', errors1, st, log0, log1, FailedFast);
      } else if stag && o.stopped(log1.tick) {
        SerialDone(p, lo, rules, i + 1, t', errors1, st, log0, log1, Halted);
      } else {
        t' := SerialFrom(o, p, lo, rules, i + 1, cont, stag, log0, log1, errors1, t');
      }
    }
  }

  lemma SerialCancelled(p: nat, lo: nat, rules: seq<RuleEntity>, n: nat, t: seq<Event>, errors: seq<Entry>)
    requires SerialInv(p, lo, rules, n, t, errors)
    ensures SerialInv(p, lo, rules, n, t, errors + [Cancelled])
  {
    hide Reports, FinishedIn, Tidy;
    ReportsCancelled(t, errors);
  }

  /** Whether the stop tag can have an effect. */
  ghost predicate MayStop(o: Oracle, stag: bool) {
    stag && exists tick: nat :: o.stopped(tick)
  }

  /** A serial phase: see SerialResult. */
  lemma SerialObeys(o: Oracle, p: nat, lo: nat, rules: seq<RuleEntity>, cont: bool, stag: bool,
      log: Log) returns (t: seq<Event>)
    ensures SerialResult(p, lo, rules, MayStop(o, stag), log, Serial(o, p, lo, rules, 0, cont, stag, log, []), t)
  {
    hide Serial, SerialResult;
    SerialStart(p, lo, rules);
    assert log.trace + [] == log.trace;
    t := SerialFrom(o, p, lo, rules, 0, cont, stag, log, log, [], []);
  }

  // ---------- The modes ----------

  function Returning(s: SerialEnd): Ret {
    if s.stop == Panicked then Crashed(s.log) else Returned(s.log, s.errors)
  }

  function ExecSort(o: Oracle, rules: seq<RuleEntity>, cont: bool, stag: bool, log: Log): Ret {
    Returning(Serial(o, 0, 0, rules, 0, cont, stag, log, []))
  }

  function ExecConcurrent(o: Oracle, rules: seq<RuleEntity>, log: Log): Ret {
    var (log1, errs) := RunRules(o, 0, 0, rules, log);
    Returned(log1, errs)
  }

  /** The first rule alone, fail-fast; then the others concurrently. */
  function ExecMix(o: Oracle, rules: seq<RuleEntity>, stag: bool, log: Log): Ret {
    if o.cancelled(log.tick) then Returned(log, [Cancelled])
    else if rules == [] then Rejected(NoRules)
    else
      var (log1, b) := ExecRule(o, 0, 0, rules[0], log);
      if b.Panics? then Crashed(log1)
      else if b.failed then Returned(log1, [Failure(0)])
      else if stag && o.stopped(log1.tick) then Returned(log1, [])
      else
        var (log2, errs) := RunRules(o, 1, 1, rules[1..], log1);
        Returned(log2, errs)
  }

  /** All but the last concurrently, then the last; up to two rules run serially, collecting errors. */
  function ExecInverseMix(o: Oracle, rules: seq<RuleEntity>, log: Log): Ret {
    var n := |rules|;
    if n == 0 then Rejected(NoRules)
    else if n <= 2 then ExecSort(o, rules, true, false, log)
    else
      var (log1, errs) := RunRules(o, 0, 0, rules[..n - 1], log);
      if o.cancelled(log1.tick) then Returned(log1, errs + [Cancelled])
      else
        var (log2, b) := ExecRule(o, 1, n - 1, rules[n - 1], log1);
        if b.Panics? then Crashed(log2)
        else Returned(log2, errs + if b.failed then [Failure(n - 1)] else [])
  }

  /** Layer by layer from layer i on; a layer with an error is the last. */
  function ExecDAG(o: Oracle, entities: Registry, dag: seq<seq<string>>, i: nat, lo: nat, log: Log): Ret
    requires i <= |dag|
    decreases |dag| - i
  {
    if i == |dag| then Returned(log, [])
    else if o.cancelled(log.tick) then Returned(log, [Cancelled])
    else
      var rules := Existing(entities, dag[i]);
      var (log1, errs) := RunRules(o, i, lo, rules, log);
      if errs != [] then Returned(log1, errs) else ExecDAG(o, entities, dag, i + 1, lo + |rules|, log1)
  }

  function ExecNSortM(o: Oracle, nRules: seq<RuleEntity>, mRules: seq<RuleEntity>, cont: bool, log: Log): Ret {
    var s := Serial(o, 0, 0, nRules, 0, cont, false, log, []);
    if s.stop == Panicked || s.stop == FailedFast then Returning(s)
    else
      var (log2, errs) := RunRules(o, 1, |nRules|, mRules, s.log);
      Returned(log2, s.errors + errs)
  }

  function ExecNConcurrentM(o: Oracle, nRules: seq<RuleEntity>, mRules: seq<RuleEntity>, cont: bool,
      mConcurrent: bool, log: Log): Ret {
    var (log1, errs) := RunRules(o, 0, 0, nRules, log);
    if !cont && errs != [] then Returned(log1, errs)
    else if mConcurrent then
      var (log2, mErrs) := RunRules(o, 1, |nRules|, mRules, log1);
      Returned(log2, errs + mErrs)
    else
      var s := Serial(o, 1, |nRules|, mRules, 0, cont, false, log1, []);
      if s.stop == Panicked then Crashed(s.log) else Returned(s.log, errs + s.errors)
  }

  const MAX_INT64: int := 0x7FFF_FFFF_FFFF_FFFF

  /** Signed 64-bit addition of two positive numbers. */
  function WrapAdd(a: int, b: int): int {
    if a + b > MAX_INT64 then a + b - 0x1_0000_0000_0000_0000 else a + b
  }

  /**
   The n-m modes check their bounds only after the rules are resolved; a sum that overflows passes the
   check and the slicing panics.
   */
  function ExecWindow(o: Oracle, rules: seq<RuleEntity>, opts: Options, log: Log): Ret {
    if opts.n <= 0 then Rejected(BadN)
    else if opts.m <= 0 then Rejected(BadM)
    else if WrapAdd(opts.n, opts.m) > |rules| then Rejected(TooMany)
    else if opts.n + opts.m > |rules| then Crashed(log)
    else
      var nRules, mRules := rules[..opts.n], rules[opts.n..opts.n + opts.m];
      match opts.mode
      case ModeNSortMConcurrent => ExecNSortM(o, nRules, mRules, opts.continueOnError, log)
      case ModeNConcurrentMSort => ExecNConcurrentM(o, nRules, mRules, opts.continueOnError, false, log)
      case _ => ExecNConcurrentM(o, nRules, mRules, opts.continueOnError, true, log)
  }

  predicate Windowed(mode: Mode) {
    mode == ModeNSortMConcurrent || mode == ModeNConcurrentMSort || mode == ModeNConcurrentMConcurrent
  }

  function Begun(tick: nat): Log {
    Log([], map[], tick)
  }

  function ExecuteOpts(o: Oracle, found: Found, opts: Options, tick: nat): Ret {
    var log := Begun(tick);
    if opts.mode == ModeDAG then ExecDAG(o, found.entities, opts.dag, 0, 0, log)
    else
      match Resolve(found, opts)
      case NoRule(reason) => Rejected(reason)
      case Rules(rules) =>
        if Windowed(opts.mode) then ExecWindow(o, rules, opts, log)
        else
          match opts.mode
          case ModeSort => ExecSort(o, rules, opts.continueOnError, opts.stopTag, log)
          case ModeConcurrent => ExecConcurrent(o, rules, log)
          case ModeMix => ExecMix(o, rules, opts.stopTag, log)
          case ModeInverseMix => ExecInverseMix(o, rules, log)
          case _ => Rejected(UnknownMode)
  }

  // ---------- Plans ----------

  /** One phase per layer of a DAG, of the names that exist. */
  function LayersFrom(entities: Registry, dag: seq<seq<string>>, i: nat): seq<Phase>
    requires i <= |dag|
    decreases |dag| - i
  {
    if i == |dag| then [] else [Phase(Existing(entities, dag[i]), false)] + LayersFrom(entities, dag, i + 1)
  }

  /** The phases of a mode over the resolved rules. */
  function PlanOf(opts: Options, rules: seq<RuleEntity>): seq<Phase>
    requires Windowed(opts.mode) ==> opts.n > 0 && opts.m > 0 && opts.n + opts.m <= |rules|
    requires opts.mode in {ModeMix, ModeInverseMix} ==> rules != []
  {
    match opts.mode
    case ModeSort => [Phase(rules, true)]
    case ModeConcurrent => [Phase(rules, false)]
    case ModeMix => [Phase(rules[..1], true), Phase(rules[1..], false)]
    case ModeInverseMix =>
      if |rules| <= 2 then [Phase(rules, true)]
      else [Phase(rules[..|rules| - 1], false), Phase(rules[|rules| - 1..], true)]
    case ModeNSortMConcurrent => [Phase(rules[..opts.n], true), Phase(rules[opts.n..opts.n + opts.m], false)]
    case ModeNConcurrentMSort => [Phase(rules[..opts.n], false), Phase(rules[opts.n..opts.n + opts.m], true)]
    case ModeNConcurrentMConcurrent => [Phase(rules[..opts.n], false), Phase(rules[opts.n..opts.n + opts.m], false)]
    case _ => []
  }

  /** The log grew by the events of one phase, whose failures are the errors e. */
  ghost predicate Seg(ph: Phase, p: nat, lo: nat, log: Log, log1: Log, t: seq<Event>, e: seq<Entry>) {
    Extends(log, log1, t) && PhaseTrace(ph, p, lo, t) && Reports(t, e)
  }

  /** What is promised of a log: its trace follows the plan, its results are those of the trace. */
  ghost predicate Planned(plan: seq<Phase>, log: Log) {
    Follows(plan, 0, 0, log.trace) && log.results == Collect(map[], log.trace)
  }

  /** What is promised of an end: besides, the errors are the failures, and a clean run leaves nothing out. */
  ghost predicate Good(plan: seq<Phase>, ret: Ret, stag: bool) {
    match ret
    case Rejected(_) => true
    case Crashed(log) => Planned(plan, log)
    case Returned(log, errors) => Planned(plan, log) && Obeys(plan, 0, 0, log.trace, errors, errors == [] && !stag)
  }

  /** Only the first phase has run. */
  lemma FirstOnly(ph: Phase, rest: seq<Phase>, log: Log, log1: Log, t: seq<Event>, e: seq<Entry>)
    requires log.trace == [] && log.results == map[] && Seg(ph, 0, 0, log, log1, t, e)
    ensures Planned([ph] + rest, log1) && Obeys([ph] + rest, 0, 0, log1.trace, e, false)
  {
    hide PhaseTrace, Reports, AllRun, Collect, Follows;
    assert log1.trace == t;
    ObeysNothing(rest, 1, |ph.rules|);
    assert Obeys(rest, 1, |ph.rules|, [], [], false);
    ObeysCons(ph, rest, 0, 0, t, e, [], [], false);
    assert t + [] == t && e + [] == e;
  }

  /** The only phase has run. */
  lemma OnePhase(ph: Phase, log: Log, log1: Log, t: seq<Event>, e: seq<Entry>, whole: bool)
    requires log.trace == [] && log.results == map[] && Seg(ph, 0, 0, log, log1, t, e)
    requires whole ==> AllRun(t, 0, |ph.rules|)
    ensures Planned([ph], log1) && Obeys([ph], 0, 0, log1.trace, e, whole)
  {
    hide PhaseTrace, Reports, AllRun, Collect, Follows;
    assert log1.trace == t;
    ObeysOne(ph, 0, 0, t, e, whole);
  }

  /** Both phases have run. */
  lemma TwoPhases(ph0: Phase, ph1: Phase, log: Log, log1: Log, t0: seq<Event>, e0: seq<Entry>, log2: Log,
      t1: seq<Event>, e1: seq<Entry>, whole: bool)
    requires log.trace == [] && log.results == map[]
    requires Seg(ph0, 0, 0, log, log1, t0, e0) && Seg(ph1, 1, |ph0.rules|, log1, log2, t1, e1)
    requires whole ==> AllRun(t0, 0, |ph0.rules|) && AllRun(t1, |ph0.rules|, |ph0.rules| + |ph1.rules|)
    ensures Planned([ph0, ph1], log2) && Obeys([ph0, ph1], 0, 0, log2.trace, e0 + e1, whole)
  {
    hide PhaseTrace, Reports, AllRun, Collect, Follows;
    assert log2.trace == t0 + t1;
    CollectConcat(map[], t0, t1);
    ObeysOne(ph1, 1, |ph0.rules|, t1, e1, whole);
    ObeysCons(ph0, [ph1], 0, 0, t0, e0, t1, e1, whole);
    assert [ph0] + [ph1] == [ph0, ph1];
  }

  lemma NothingRun(plan: seq<Phase>, log: Log)
    requires log.trace == [] && log.results == map[]
    ensures Planned(plan, log) && Obeys(plan, 0, 0, log.trace, [Cancelled], false)
  {
    ObeysNothing(plan, 0, 0);
  }

  /** A group is a segment; without an error all of it has run. */
  lemma GroupSeg(o: Oracle, p: nat, lo: nat, rules: seq<RuleEntity>, log: Log) returns (t: seq<Event>)
    requires Lasting(o)
    ensures var (log1, errs) := RunRules(o, p, lo, rules, log);
            Seg(Phase(rules, false), p, lo, log, log1, t, errs) && (errs == [] ==> AllRun(t, lo, lo + |rules|))
  {
    hide RunRules, PhaseTrace, Reports, AllRun, Collect;
    t := RunObeys(o, p, lo, rules, log);
  }

  lemma SerialSeg(o: Oracle, p: nat, lo: nat, rules: seq<RuleEntity>, cont: bool, stag: bool,
      log: Log) returns (t: seq<Event>)
    ensures var s := Serial(o, p, lo, rules, 0, cont, stag, log, []);
            && Seg(Phase(rules, true), p, lo, log, s.log, t, s.errors)
            && (s.stop == Through ==> AllRun(t, lo, lo + |rules|))
            && (s.stop == Halted ==> s.errors != [] || MayStop(o, stag))
            && (s.stop == FailedFast ==> s.errors != [])
  {
    hide Serial, PhaseTrace, Reports, AllRun, Collect, MayStop;
    t := SerialObeys(o, p, lo, rules, cont, stag, log);
  }

  // ---------- Each mode keeps its plan ----------

  lemma SortGood(o: Oracle, rules: seq<RuleEntity>, cont: bool, stag: bool, log: Log)
    requires log.trace == [] && log.results == map[]
    ensures Good([Phase(rules, true)], ExecSort(o, rules, cont, stag, log), MayStop(o, stag))
  {
    hide Serial, Seg, Planned, Obeys, MayStop, AllRun;
    var t := SerialSeg(o, 0, 0, rules, cont, stag, log);
    var s := Serial(o, 0, 0, rules, 0, cont, stag, log, []);
    if s.stop == Panicked {
      OnePhase(Phase(rules, true), log, s.log, t, s.errors, false);
    } else {
      OnePhase(Phase(rules, true), log, s.log, t, s.errors, s.errors == [] && !MayStop(o, stag));
    }
  }

  lemma ConcurrentGood(o: Oracle, rules: seq<RuleEntity>, stag: bool, log: Log)
    requires Lasting(o) && log.trace == [] && log.results == map[]
    ensures Good([Phase(rules, false)], ExecConcurrent(o, rules, log), stag)
  {
    hide RunRules, Seg, Planned, Obeys, AllRun;
    var t := GroupSeg(o, 0, 0, rules, log);
    var (log1, errs) := RunRules(o, 0, 0, rules, log);
    OnePhase(Phase(rules, false), log, log1, t, errs, errs == [] && !stag);
  }

  /** The first rule of the mixed mode is a serial phase of one rule, fail-fast. */
  lemma MixIsSerialThenGroup(o: Oracle, rules: seq<RuleEntity>, stag: bool, log: Log)
    requires rules != [] && !o.cancelled(log.tick)
    ensures var s := Serial(o, 0, 0, rules[..1], 0, false, stag, log, []);
            ExecMix(o, rules, stag, log) ==
            if s.stop == Panicked then Crashed(s.log)
            else if s.stop == FailedFast || s.stop == Halted then Returned(s.log, s.errors)
            else var (log2, errs) := RunRules(o, 1, 1, rules[1..], s.log); Returned(log2, errs)
    ensures Serial(o, 0, 0, rules[..1], 0, false, stag, log, []).stop == Through ==>
            Serial(o, 0, 0, rules[..1], 0, false, stag, log, []).errors == []
  {
    hide RunRules;
    var first := rules[..1];
    assert first[0] == rules[0];
    var (log1, b) := ExecRule(o, 0, 0, first[0], log);
    assert Serial(o, 0, 0, first, 1, false, stag, log1, []) == SerialEnd(log1, [], Through);
  }

  lemma MixGood(o: Oracle, rules: seq<RuleEntity>, stag: bool, log: Log)
    requires Lasting(o) && rules != [] && log.trace == [] && log.results == map[]
    ensures Good([Phase(rules[..1], true), Phase(rules[1..], false)], ExecMix(o, rules, stag, log), MayStop(o, stag))
  {
    hide Serial, RunRules, Seg, Planned, Obeys, MayStop, AllRun;
    var first, rest := Phase(rules[..1], true), Phase(rules[1..], false);
    if o.cancelled(log.tick) {
      NothingRun([first, rest], log);
    } else {
      MixIsSerialThenGroup(o, rules, stag, log);
      var t0 := SerialSeg(o, 0, 0, rules[..1], false, stag, log);
      var s := Serial(o, 0, 0, rules[..1], 0, false, stag, log, []);
      if s.stop == Through {
        var t1 := GroupSeg(o, 1, 1, rules[1..], s.log);
        var (log2, errs) := RunRules(o, 1, 1, rules[1..], s.log);
        TwoPhases(first, rest, log, s.log, t0, [], log2, t1, errs, errs == [] && !MayStop(o, stag));
        assert [] + errs == errs;
      } else {
        FirstOnly(first, [rest], log, s.log, t0, s.errors);
        assert [first] + [rest] == [first, rest];
      }
    }
  }

  lemma InverseMixIsGroupThenSerial(o: Oracle, rules: seq<RuleEntity>, log: Log)
    requires |rules| > 2
    ensures var n := |rules|;
            var (log1, errs) := RunRules(o, 0, 0, rules[..n - 1], log);
            var s := Serial(o, 1, n - 1, rules[n - 1..], 0, true, false, log1, []);
            && ExecInverseMix(o, rules, log) == (if s.stop == Panicked then Crashed(s.log) else Returned(s.log, errs + s.errors))
            && s.stop != FailedFast
  {
    hide RunRules;
    var n := |rules|;
    var (log1, errs) := RunRules(o, 0, 0, rules[..n - 1], log);
    var last := rules[n - 1..];
    if !o.cancelled(log1.tick) {
      assert last[0] == rules[n - 1];
      var (log2, b) := ExecRule(o, 1, n - 1, last[0], log1);
      LastOne(o, n - 1, last, log2, if Fails(b) then [Failure(n - 1)] else []);
    }
  }

  lemma LastOne(o: Oracle, lo: nat, rules: seq<RuleEntity>, log: Log, errors: seq<Entry>)
    requires |rules| == 1
    ensures Serial(o, 1, lo, rules, 1, true, false, log, errors) == SerialEnd(log, errors, Through)
  {
  }

  lemma InverseMixGood(o: Oracle, rules: seq<RuleEntity>, stag: bool, log: Log)
    requires Lasting(o) && rules != [] && log.trace == [] && log.results == map[]
    ensures Good(if |rules| <= 2 then [Phase(rules, true)] else [Phase(rules[..|rules| - 1], false), Phase(rules[|rules| - 1..], true)],
                 ExecInverseMix(o, rules, log), stag)
  {
    hide Serial, RunRules, Seg, Planned, Obeys, AllRun;
    if |rules| <= 2 {
      SortGood(o, rules, true, false, log);
      StopMatters([Phase(rules, true)], ExecInverseMix(o, rules, log), MayStop(o, false), stag);
    } else {
      var n := |rules|;
      InverseMixIsGroupThenSerial(o, rules, log);
      var t0 := GroupSeg(o, 0, 0, rules[..n - 1], log);
      var (log1, errs) := RunRules(o, 0, 0, rules[..n - 1], log);
      var t1 := SerialSeg(o, 1, n - 1, rules[n - 1..], true, false, log1);
      var s := Serial(o, 1, n - 1, rules[n - 1..], 0, true, false, log1, []);
      TwoPhases(Phase(rules[..n - 1], false), Phase(rules[n - 1..], true), log, log1, t0, errs, s.log, t1, s.errors,
                s.stop != Panicked && errs + s.errors == [] && !stag);
    }
  }

  /** A promise that does not mention stopping is the stronger one. */
  lemma StopMatters(plan: seq<Phase>, ret: Ret, stag: bool, stag': bool)
    requires Good(plan, ret, stag) && (stag ==> stag')
    ensures Good(plan, ret, stag')
  {
  }

  lemma NSortMGood(o: Oracle, nRules: seq<RuleEntity>, mRules: seq<RuleEntity>, cont: bool, stag: bool, log: Log)
    requires Lasting(o) && log.trace == [] && log.results == map[]
    ensures Good([Phase(nRules, true), Phase(mRules, false)], ExecNSortM(o, nRules, mRules, cont, log), stag)
  {
    hide Serial, RunRules, Seg, Planned, Obeys, AllRun;
    var ph0, ph1 := Phase(nRules, true), Phase(mRules, false);
    var t0 := SerialSeg(o, 0, 0, nRules, cont, false, log);
    var s := Serial(o, 0, 0, nRules, 0, cont, false, log, []);
    if s.stop == Panicked || s.stop == FailedFast {
      FirstOnly(ph0, [ph1], log, s.log, t0, s.errors);
      assert [ph0] + [ph1] == [ph0, ph1];
    } else {
      var t1 := GroupSeg(o, 1, |nRules|, mRules, s.log);
      var (log2, errs) := RunRules(o, 1, |nRules|, mRules, s.log);
      TwoPhases(ph0, ph1, log, s.log, t0, s.errors, log2, t1, errs, s.errors + errs == [] && !stag);
    }
  }

  lemma NConcurrentMGood(o: Oracle, nRules: seq<RuleEntity>, mRules: seq<RuleEntity>, cont: bool,
      mConcurrent: bool, stag: bool, log: Log)
    requires Lasting(o) && log.trace == [] && log.results == map[]
    ensures Good([Phase(nRules, false), Phase(mRules, !mConcurrent)], ExecNConcurrentM(o, nRules, mRules, cont, mConcurrent, log), stag)
  {
    hide Serial, RunRules, Seg, Planned, Obeys, AllRun;
    var ph0, ph1 := Phase(nRules, false), Phase(mRules, !mConcurrent);
    var t0 := GroupSeg(o, 0, 0, nRules, log);
    var (log1, errs) := RunRules(o, 0, 0, nRules, log);
    if !cont && errs != [] {
      FirstOnly(ph0, [ph1], log, log1, t0, errs);
      assert [ph0] + [ph1] == [ph0, ph1];
    } else if mConcurrent {
      var t1 := GroupSeg(o, 1, |nRules|, mRules, log1);
      var (log2, mErrs) := RunRules(o, 1, |nRules|, mRules, log1);
      TwoPhases(ph0, ph1, log, log1, t0, errs, log2, t1, mErrs, errs + mErrs == [] && !stag);
    } else {
      var t1 := SerialSeg(o, 1, |nRules|, mRules, cont, false, log1);
      var s := Serial(o, 1, |nRules|, mRules, 0, cont, false, log1, []);
      TwoPhases(ph0, ph1, log, log1, t0, errs, s.log, t1, s.errors, s.stop != Panicked && errs + s.errors == [] && !stag);
    }
  }

  lemma DagFrom(o: Oracle, entities: Registry, dag: seq<seq<string>>, i: nat, lo: nat, log: Log) returns (t: seq<Event>)
    requires Lasting(o) && i <= |dag|
    ensures var ret := ExecDAG(o, entities, dag, i, lo, log);
            && ret.Returned? && Extends(log, ret.log, t)
            && Obeys(LayersFrom(entities, dag, i), i, lo, t, ret.errors, ret.errors == [])
    decreases |dag| - i
  {
    hide RunRules, PhaseTrace, Reports, AllRun, Collect, Obeys, Existing;
    t := [];
    assert log.trace + [] == log.trace && Collect(log.results, []) == log.results by {
      CollectNothing(log.results);
    }
    if i == |dag| {
      NothingObeys(i, lo, true);
    } else if o.cancelled(log.tick) {
      CancelledLayers(LayersFrom(entities, dag, i), i, lo);
    } else {
      var rules := Existing(entities, dag[i]);
      var rest := LayersFrom(entities, dag, i + 1);
      var (log1, errs) := RunRules(o, i, lo, rules, log);
      var t0 := GroupSeg(o, i, lo, rules, log);
      if errs != [] {
        t := t0;
        FalseObeys(rest, i + 1, lo + |rules|);
        ObeysCons(Phase(rules, false), rest, i, lo, t0, errs, [], [], false);
        assert t0 + [] == t0 && errs + [] == errs;
      } else {
        var t1 := DagFrom(o, entities, dag, i + 1, lo + |rules|, log1);
        var ret := ExecDAG(o, entities, dag, i + 1, lo + |rules|, log1);
        t := t0 + t1;
        CollectConcat(log.results, t0, t1);
        assert log.trace + t0 + t1 == log.trace + t;
        ObeysCons(Phase(rules, false), rest, i, lo, t0, [], t1, ret.errors, ret.errors == []);
        assert [] + ret.errors == ret.errors;
      }
    }
  }

  lemma CollectNothing(results: map<string, Value>)
    ensures Collect(results, []) == results
  {
  }

  lemma FalseObeys(plan: seq<Phase>, p: nat, lo: nat)
    ensures Obeys(plan, p, lo, [], [], false)
  {
    ObeysNothing(plan, p, lo);
  }

  lemma CancelledLayers(plan: seq<Phase>, p: nat, lo: nat)
    ensures Obeys(plan, p, lo, [], [Cancelled], false)
  {
    ObeysNothing(plan, p, lo);
  }

  // ---------- The main result ----------

  /** The plan a call lays out, if it is not refused. */
  function Laid(found: Found, opts: Options): seq<Phase> {
    if opts.mode == ModeDAG then LayersFrom(found.entities, opts.dag, 0)
    else
      match Resolve(found, opts)
      case NoRule(_) => []
      case Rules(rules) =>
        if rules == [] || (Windowed(opts.mode) && !(opts.n > 0 && opts.m > 0 && opts.n + opts.m <= |rules|)) then []
        else PlanOf(opts, rules)
  }

  /** The stop tag matters to the serial and the mixed mode only. */
  ghost predicate Stoppable(o: Oracle, opts: Options) {
    (opts.mode == ModeSort || opts.mode == ModeMix) && MayStop(o, opts.stopTag)
  }

  /**
   Every mode, under every schedule, cancellation and stop: the trace follows the mode's plan, the
   result map is that of the trace, the returned errors have exactly one entry per failed rule, and
   without an error or a stop every rule of the plan has run.
   */
  lemma ExecuteObeys(o: Oracle, found: Found, opts: Options, tick: nat)
    requires Lasting(o)
    ensures Good(Laid(found, opts), ExecuteOpts(o, found, opts, tick), Stoppable(o, opts))
  {
    hide Good, ExecSort, ExecConcurrent, ExecMix, ExecInverseMix, ExecDAG, ExecWindow, MayStop, Resolve;
    var log := Begun(tick);
    if opts.mode == ModeDAG {
      DagGood(o, found.entities, opts.dag, log, Stoppable(o, opts));
    } else {
      match Resolve(found, opts)
      case NoRule(reason) => RejectedGood(Laid(found, opts), reason, Stoppable(o, opts));
      case Rules(rules) =>
        if rules == [] {
          EmptyGood(o, opts, log, Stoppable(o, opts));
        } else if Windowed(opts.mode) {
          WindowGood(o, rules, opts, log, Stoppable(o, opts));
        } else {
          match opts.mode
          case ModeSort => SortGood(o, rules, opts.continueOnError, opts.stopTag, log);
          case ModeConcurrent => ConcurrentGood(o, rules, Stoppable(o, opts), log);
          case ModeMix => MixGood(o, rules, opts.stopTag, log);
          case ModeInverseMix => InverseMixGood(o, rules, Stoppable(o, opts), log);
          case _ => RejectedGood(Laid(found, opts), UnknownMode, Stoppable(o, opts));
        }
    }
  }

  lemma RejectedGood(plan: seq<Phase>, reason: Reason, stag: bool)
    ensures Good(plan, Rejected(reason), stag)
  {
  }

  /** What the modes make of an empty list, as a clear between the two reads leaves it. */
  function OnNothing(o: Oracle, opts: Options, log: Log): Ret {
    if Windowed(opts.mode) then ExecWindow(o, [], opts, log)
    else
      match opts.mode
      case ModeSort => ExecSort(o, [], opts.continueOnError, opts.stopTag, log)
      case ModeConcurrent => ExecConcurrent(o, [], log)
      case ModeMix => ExecMix(o, [], opts.stopTag, log)
      case ModeInverseMix => ExecInverseMix(o, [], log)
      case _ => Rejected(UnknownMode)
  }

  lemma EmptyList(o: Oracle, opts: Options, log: Log)
    requires opts.mode != ModeDAG
    ensures match OnNothing(o, opts, log)
            case Returned(log', errors) =>
              && log' == log
              && (errors == [] <==> opts.mode == ModeSort || opts.mode == ModeConcurrent)
              && (errors != [] ==> opts.mode == ModeMix && o.cancelled(log.tick))
            case Crashed(log') => log' == log && Windowed(opts.mode)
            case Rejected(_) => true
  {
  }

  lemma EmptyGood(o: Oracle, opts: Options, log: Log, stag: bool)
    requires opts.mode != ModeDAG && log.trace == [] && log.results == map[]
    ensures Good([], OnNothing(o, opts, log), stag)
  {
    EmptyList(o, opts, log);
    hide OnNothing;
    match OnNothing(o, opts, log)
    case Returned(log', errors) =>
      ObeysNothing([], 0, 0);
      NothingObeys(0, 0, true);
      if errors != [] {
        EmptyMix(o, opts, log);
      }
    case _ =>
  }

  lemma EmptyMix(o: Oracle, opts: Options, log: Log)
    requires OnNothing(o, opts, log).Returned? && OnNothing(o, opts, log).errors != []
    ensures OnNothing(o, opts, log).errors == [Cancelled]
  {
  }

  /**
   An execution that sees a positive length and is then handed an empty list runs nothing; it reports
   success exactly in the sort and the concurrent mode.
   */
  lemma EmptiedRunsNothing(o: Oracle, found: Found, opts: Options, tick: nat)
    requires opts.selected == [] && opts.mode != ModeDAG && found.counted > 0 && found.sorted == []
    ensures var ret := ExecuteOpts(o, found, opts, tick);
            && (ret.Rejected? || (ret.log.trace == [] && ret.log.results == map[]))
            && (ret.Returned? && ret.errors == [] <==> opts.mode == ModeSort || opts.mode == ModeConcurrent)
  {
    EmptyList(o, opts, Begun(tick));
    hide ExecSort, ExecConcurrent, ExecMix, ExecInverseMix, ExecWindow;
  }

  lemma DagGood(o: Oracle, entities: Registry, dag: seq<seq<string>>, log: Log, stag: bool)
    requires Lasting(o) && log.trace == [] && log.results == map[]
    ensures Good(LayersFrom(entities, dag, 0), ExecDAG(o, entities, dag, 0, 0, log), stag)
  {
    hide ExecDAG, Follows, Reports, AllRun;
    var t := DagFrom(o, entities, dag, 0, 0, log);
    assert [] + t == t;
  }

  lemma WindowGood(o: Oracle, rules: seq<RuleEntity>, opts: Options, log: Log, stag: bool)
    requires Lasting(o) && rules != [] && Windowed(opts.mode) && log.trace == [] && log.results == map[]
    ensures Good(if opts.n > 0 && opts.m > 0 && opts.n + opts.m <= |rules| then PlanOf(opts, rules) else [],
                 ExecWindow(o, rules, opts, log), stag)
  {
    hide Good, ExecNSortM, ExecNConcurrentM;
    if opts.n <= 0 {
      RejectedGood([], BadN, stag);
    } else if opts.m <= 0 {
      RejectedGood([], BadM, stag);
    } else if WrapAdd(opts.n, opts.m) > |rules| {
      TooManyGood(o, rules, opts, log, stag);
    } else if opts.n + opts.m > |rules| {
      EmptyCrash(log, stag);
    } else {
      var nRules, mRules := rules[..opts.n], rules[opts.n..opts.n + opts.m];
      match opts.mode
      case ModeNSortMConcurrent => NSortMGood(o, nRules, mRules, opts.continueOnError, stag, log);
      case ModeNConcurrentMSort => NConcurrentMGood(o, nRules, mRules, opts.continueOnError, false, stag, log);
      case _ => NConcurrentMGood(o, nRules, mRules, opts.continueOnError, true, stag, log);
    }
  }

  lemma TooManyGood(o: Oracle, rules: seq<RuleEntity>, opts: Options, log: Log, stag: bool)
    requires Windowed(opts.mode) && opts.n > 0 && opts.m > 0 && WrapAdd(opts.n, opts.m) > |rules|
    ensures ExecWindow(o, rules, opts, log) == Rejected(TooMany)
    ensures forall plan :: Good(plan, Rejected(TooMany), stag)
  {
  }

  lemma EmptyCrash(log: Log, stag: bool)
    requires log.trace == [] && log.results == map[]
    ensures Good([], Crashed(log), stag)
  {
  }

  // ---------- What a clean run runs, and what stops a run ----------

  /** The window of a mode: all resolved rules, the first n + m of them, or the existing names of every layer. */
  lemma WindowOf(opts: Options, rules: seq<RuleEntity>)
    requires rules != [] && opts.mode != ModeDAG && opts.mode != ModeUnknown
    requires Windowed(opts.mode) ==> opts.n > 0 && opts.m > 0 && opts.n + opts.m <= |rules|
    ensures Window(PlanOf(opts, rules)) == if Windowed(opts.mode) then rules[..opts.n + opts.m] else rules
  {
    var plan := PlanOf(opts, rules);
    assert Window(plan) == if |plan| == 1 then plan[0].rules else plan[0].rules + plan[1].rules by {
      WindowOfTwo(plan);
    }
  }

  lemma WindowOfTwo(plan: seq<Phase>)
    requires 1 <= |plan| <= 2
    ensures Window(plan) == if |plan| == 1 then plan[0].rules else plan[0].rules + plan[1].rules
  {
    if |plan| == 2 {
      assert plan[1..][1..] == [];
      assert Window(plan[1..]) == plan[1].rules + [];
    } else {
      assert plan[1..] == [];
      assert plan[0].rules + [] == plan[0].rules;
    }
  }

  /** Without an error and a stop, every position of the window has finished exactly once, under its rule's name. */
  lemma CleanRun(o: Oracle, found: Found, opts: Options, tick: nat, at: nat)
    requires Lasting(o) && !Stoppable(o, opts)
    requires ExecuteOpts(o, found, opts, tick).Returned? && ExecuteOpts(o, found, opts, tick).errors == []
    requires at < |Window(Laid(found, opts))|
    ensures var t := ExecuteOpts(o, found, opts, tick).log.trace;
            && (exists k | 0 <= k < |t| :: t[k].Finish? && t[k].at == at)
            && (forall j, k | 0 <= j < k < |t| :: !(t[j].Finish? && t[k].Finish? && t[j].at == t[k].at))
            && !FailsAt(t, at)
  {
    hide ExecuteOpts, Laid, Follows, Stoppable, FailsAt;
    ExecuteObeys(o, found, opts, tick);
    var plan, t := Laid(found, opts), ExecuteOpts(o, found, opts, tick).log.trace;
    assert FinishedIn(t, at);
    forall j, k | 0 <= j < k < |t| ensures !(t[j].Finish? && t[k].Finish? && t[j].at == t[k].at) {
      PlanOrder(plan, 0, 0, t, j, k);
    }
  }

  /** Collecting errors, only a cancellation, a stop or a panic keeps a serial phase from running every rule. */
  lemma SerialContinues(o: Oracle, p: nat, lo: nat, rules: seq<RuleEntity>, i: nat, stag: bool, log: Log,
      errors: seq<Entry>)
    requires i <= |rules| && NeverCancelled(o) && !MayStop(o, stag) && forall r, tick :: !o.behave(r, tick).Panics?
    ensures Serial(o, p, lo, rules, i, true, stag, log, errors).stop == Through
    decreases |rules| - i
  {
    if i < |rules| {
      var (log1, b) := ExecRule(o, p, lo + i, rules[i], log);
      SerialContinues(o, p, lo, rules, i + 1, stag, log1, if b.failed then errors + [Failure(lo + i)] else errors);
    }
  }

  /** No rule before the last event has failed. */
  ghost predicate OnlyLastFails(t: seq<Event>) {
    forall k | 0 <= k < |t| - 1 && t[k].Finish? :: !Fails(t[k].b)
  }

  ghost predicate NoneFails(t: seq<Event>) {
    forall k | 0 <= k < |t| && t[k].Finish? :: !Fails(t[k].b)
  }

  /** Failing fast, nothing runs after the first failing rule. */
  lemma SerialFailsFast(o: Oracle, p: nat, lo: nat, rules: seq<RuleEntity>, i: nat, stag: bool, log: Log,
      errors: seq<Entry>)
    requires i <= |rules| && NoneFails(log.trace)
    ensures OnlyLastFails(Serial(o, p, lo, rules, i, false, stag, log, errors).log.trace)
    decreases |rules| - i
  {
    if i < |rules| && !o.cancelled(log.tick) {
      var (log1, b) := ExecRule(o, p, lo + i, rules[i], log);
      assert log1.trace == log.trace + [Start(p, lo + i), Finish(p, lo + i, rules[i].ruleName, b)];
      if !Fails(b) {
        SerialFailsFast(o, p, lo, rules, i + 1, stag, log1, errors);
      }
    }
  }

  /** A layer with a failing rule is the last one with an event. */
  lemma DagFailsFast(o: Oracle, entities: Registry, dag: seq<seq<string>>, i: nat, lo: nat,
      log: Log) returns (t: seq<Event>)
    requires Lasting(o) && i <= |dag|
    ensures var ret := ExecDAG(o, entities, dag, i, lo, log);
            && ret.Returned? && ret.log.trace == log.trace + t
            && (forall k | 0 <= k < |t| :: t[k].phase >= i)
            && (forall j, k | 0 <= j < |t| && 0 <= k < |t| && t[j].Finish? && Fails(t[j].b) :: t[k].phase <= t[j].phase)
    decreases |dag| - i
  {
    hide RunRules, Reports, AllRun, Collect, Existing;
    t := [];
    assert log.trace + [] == log.trace;
    if i < |dag| && !o.cancelled(log.tick) {
      var rules := Existing(entities, dag[i]);
      var (log1, errs) := RunRules(o, i, lo, rules, log);
      var t0 := GroupSeg(o, i, lo, rules, log);
      PhaseFacts(Phase(rules, false), i, lo, t0);
      t := t0;
      if errs == [] {
        NoErrorNoFailure(t0);
        var t1 := DagFailsFast(o, entities, dag, i + 1, lo + |rules|, log1);
        assert log.trace + t0 + t1 == log.trace + (t0 + t1);
        t := t0 + t1;
      }
    }
  }

  lemma NoErrorNoFailure(t: seq<Event>)
    requires Reports(t, [])
    ensures NoneFails(t)
  {
    forall k | 0 <= k < |t| && t[k].Finish? ensures !Fails(t[k].b) {
      assert Failure(t[k].at) !in [] ==> !FailsAt(t, t[k].at);
    }
  }

  /**
   The size check of the n-m modes lets a window through that does not exist exactly when n + m
   overflows; the slicing then panics before any rule has run.
   */
  lemma OverflowingWindow(o: Oracle, rules: seq<RuleEntity>, opts: Options, log: Log)
    requires Windowed(opts.mode) && 0 < opts.n <= MAX_INT64 && 0 < opts.m <= MAX_INT64 && |rules| <= MAX_INT64
    ensures opts.n + opts.m > |rules| && ExecWindow(o, rules, opts, log) != Rejected(TooMany) <==> opts.n + opts.m > MAX_INT64
    ensures opts.n + opts.m > MAX_INT64 ==> ExecWindow(o, rules, opts, log) == Crashed(log)
  {
    hide ExecNSortM, ExecNConcurrentM;
    if opts.n + opts.m > |rules| && opts.n + opts.m <= MAX_INT64 {
      assert ExecWindow(o, rules, opts, log) == Rejected(TooMany);
    }
  }

  /** Rule k of a phase that began at the given time is executed at time tick + k, and comes to this. */
  function BehaviourAt(o: Oracle, rules: seq<RuleEntity>, tick: nat, k: nat): Behaviour
    requires k < |rules|
  {
    o.behave(rules[k], tick + k)
  }

  /** After rule k the phase goes on: no panic, no error that counts, no stop. */
  ghost predicate GoesOn(o: Oracle, rules: seq<RuleEntity>, cont: bool, stag: bool, tick: nat, k: nat)
    requires k < |rules|
  {
    var b := BehaviourAt(o, rules, tick, k);
    !b.Panics? && (cont || !b.failed) && !(stag && o.stopped(tick + k + 1))
  }

  predicate CancelledAt(o: Oracle, tick: nat, k: nat) {
    o.cancelled(tick + k)
  }

  /** The phase executes exactly the first n rules. */
  ghost predicate Extent(o: Oracle, rules: seq<RuleEntity>, cont: bool, stag: bool, tick: nat, n: nat) {
    && n <= |rules|
    && (forall k | 0 <= k < n :: !CancelledAt(o, tick, k))
    && (forall k | 0 <= k < n - 1 :: GoesOn(o, rules, cont, stag, tick, k))
    && (n < |rules| ==> CancelledAt(o, tick, n) || (n > 0 && !GoesOn(o, rules, cont, stag, tick, n - 1)))
  }

  lemma SerialExtentFrom(o: Oracle, p: nat, lo: nat, rules: seq<RuleEntity>, i: nat, cont: bool, stag: bool, log: Log,
      errors: seq<Entry>, tick: nat) returns (n: nat)
    requires i <= |rules| && log.tick == tick + i
    requires forall k | 0 <= k < i :: !CancelledAt(o, tick, k) && GoesOn(o, rules, cont, stag, tick, k)
    ensures var s := Serial(o, p, lo, rules, i, cont, stag, log, errors);
            i <= n && Extent(o, rules, cont, stag, tick, n) && |s.log.trace| == |log.trace| + 2 * (n - i) && s.log.tick == tick + n
    decreases |rules| - i
  {
    n := i;
    if i < |rules| && !o.cancelled(log.tick) {
      var (log1, b) := ExecRule(o, p, lo + i, rules[i], log);
      assert b == BehaviourAt(o, rules, tick, i) && log1.tick == tick + i + 1;
      n := i + 1;
      if !b.Panics? && !(b.failed && !cont) && !(stag && o.stopped(log1.tick)) {
        var errors1 := if b.failed then errors + [Failure(lo + i)] else errors;
        n := SerialExtentFrom(o, p, lo, rules, i + 1, cont, stag, log1, errors1, tick);
      }
    }
  }

  /**
   How far a serial phase gets: the context is asked before every rule and the stop tag after it, and
   the phase ends exactly at the first cancellation, stop, panic or, failing fast, error.
   */
  lemma SerialExtent(o: Oracle, p: nat, lo: nat, rules: seq<RuleEntity>, cont: bool, stag: bool, log: Log) returns (n: nat)
    ensures var s := Serial(o, p, lo, rules, 0, cont, stag, log, []);
            Extent(o, rules, cont, stag, log.tick, n) && |s.log.trace| == |log.trace| + 2 * n && s.log.tick == log.tick + n
    ensures forall m | Extent(o, rules, cont, stag, log.tick, m) :: m == n
  {
    n := SerialExtentFrom(o, p, lo, rules, 0, cont, stag, log, [], log.tick);
    forall m | Extent(o, rules, cont, stag, log.tick, m) ensures m == n {
      ExtentUnique(o, rules, cont, stag, log.tick, m, n);
      ExtentUnique(o, rules, cont, stag, log.tick, n, m);
    }
  }

  lemma ExtentUnique(o: Oracle, rules: seq<RuleEntity>, cont: bool, stag: bool, tick: nat, m: nat, n: nat)
    requires Extent(o, rules, cont, stag, tick, m) && Extent(o, rules, cont, stag, tick, n)
    ensures m >= n
  {
    hide GoesOn, CancelledAt;
  }

  /** Called under a cancelled context no mode runs a rule, and whatever is not refused reports the cancellation. */
  lemma CancelledFromStart(o: Oracle, found: Found, opts: Options, tick: nat)
    requires Lasting(o) && o.cancelled(tick)
    ensures match ExecuteOpts(o, found, opts, tick)
            case Rejected(_) => true
            case Crashed(log) => log.trace == []
            case Returned(log, errors) => log.trace == [] && log.results == map[] && (Cancelled in errors || Laid(found, opts) == [])
  {
    hide Resolve, RunRules;
    var log := Begun(tick);
    if opts.mode != ModeDAG && Resolve(found, opts).Rules? {
      if Resolve(found, opts).rules == [] {
        EmptyList(o, opts, log);
      } else {
        CancelledModes(o, Resolve(found, opts).rules, opts, log);
      }
    }
  }

  lemma CancelledModes(o: Oracle, rules: seq<RuleEntity>, opts: Options, log: Log)
    requires Lasting(o) && o.cancelled(log.tick) && rules != []
    ensures Untouched(ExecSort(o, rules, opts.continueOnError, opts.stopTag, log), log)
    ensures Untouched(ExecConcurrent(o, rules, log), log)
    ensures Untouched(ExecMix(o, rules, opts.stopTag, log), log)
    ensures Untouched(ExecInverseMix(o, rules, log), log)
    ensures Windowed(opts.mode) ==> ExecWindow(o, rules, opts, log).Rejected? || ExecWindow(o, rules, opts, log) == Crashed(log) ||
                                    Untouched(ExecWindow(o, rules, opts, log), log)
  {
    hide RunRules;
    CancelledGroup(o, 0, 0, rules, log);
    if |rules| > 2 {
      CancelledGroup(o, 0, 0, rules[..|rules| - 1], log);
    }
    if opts.n > 0 && opts.m > 0 && opts.n + opts.m <= |rules| {
      CancelledGroup(o, 1, opts.n, rules[opts.n..opts.n + opts.m], log);
      CancelledGroup(o, 0, 0, rules[..opts.n], log);
      var (log1, errs) := RunRules(o, 0, 0, rules[..opts.n], log);
      CancelledGroup(o, 1, opts.n, rules[opts.n..opts.n + opts.m], log1);
    }
  }

  /** Nothing has run, and the cancellation is reported. */
  ghost predicate Untouched(ret: Ret, log: Log) {
    ret.Returned? && ret.log.trace == log.trace && ret.log.results == log.results && Cancelled in ret.errors
  }
}
