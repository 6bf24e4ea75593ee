/**
 What each mode does with the options it is given, read off the rules' behaviours, the cancellation and
 the stop tag: how far a serial phase gets, whether a second phase runs, and which calls are refused.
 */
module Modes {
  import opened Values
  import opened Ast
  import opened RuleOrder
  import opened Traces
  import opened Concurrency
  import opened Strategies

  // ---------- Serial phases ----------

  /** The events of the first n rules of a serial phase that begins at the given time. */
  function RuleEvents(o: Oracle, p: nat, lo: nat, rules: seq<RuleEntity>, tick: nat, n: nat): (t: seq<Event>)
    requires n <= |rules|
    ensures |t| == 2 * n
  {
    if n == 0 then []
    else
      RuleEvents(o, p, lo, rules, tick, n - 1) +
      [Start(p, lo + n - 1), Finish(p, lo + n - 1, rules[n - 1].ruleName, BehaviourAt(o, rules, tick, n - 1))]
  }

  /** One entry for each of the first n rules that fails. */
  function Failures(o: Oracle, lo: nat, rules: seq<RuleEntity>, tick: nat, n: nat): seq<Entry>
    requires n <= |rules|
  {
    if n == 0 then []
    else Failures(o, lo, rules, tick, n - 1) + if Fails(BehaviourAt(o, rules, tick, n - 1)) then [Failure(lo + n - 1)] else []
  }

  /** Nothing but a cancellation kept rule n from running. */
  ghost predicate CutShort(o: Oracle, rules: seq<RuleEntity>, cont: bool, stag: bool, tick: nat, n: nat) {
    n < |rules| && (n == 0 || GoesOn(o, rules, cont, stag, tick, n - 1))
  }

  predicate LastPanics(o: Oracle, rules: seq<RuleEntity>, tick: nat, n: nat) {
    0 < n <= |rules| && BehaviourAt(o, rules, tick, n - 1).Panics?
  }

  predicate LastFails(o: Oracle, rules: seq<RuleEntity>, tick: nat, n: nat) {
    0 < n <= |rules| && BehaviourAt(o, rules, tick, n - 1).Ran? && BehaviourAt(o, rules, tick, n - 1).failed
  }

  /** A serial phase that has run the first n rules: its events, its errors and why it ended. */
  ghost predicate RanSerially(o: Oracle, p: nat, lo: nat, rules: seq<RuleEntity>, cont: bool, stag: bool, log: Log,
      s: SerialEnd, n: nat) {
    && Extent(o, rules, cont, stag, log.tick, n)
    && s.log.trace == log.trace + RuleEvents(o, p, lo, rules, log.tick, n) && s.log.tick == log.tick + n
    && s.errors == Failures(o, lo, rules, log.tick, n) + (if CutShort(o, rules, cont, stag, log.tick, n) then [Cancelled] else [])
    && (s.stop == Panicked <==> LastPanics(o, rules, log.tick, n))
    && (s.stop == FailedFast <==> !cont && LastFails(o, rules, log.tick, n))
  }

  lemma RuleStep(o: Oracle, p: nat, lo: nat, rules: seq<RuleEntity>, i: nat, start: Log, log: Log)
    requires i < |rules| && log.tick == start.tick + i && log.trace == start.trace + RuleEvents(o, p, lo, rules, start.tick, i)
    ensures var (log1, b) := ExecRule(o, p, lo + i, rules[i], log);
            && b == BehaviourAt(o, rules, start.tick, i) && log1.tick == start.tick + i + 1
            && log1.trace == start.trace + RuleEvents(o, p, lo, rules, start.tick, i + 1)
  {
  }

  /** What the extent of a phase is at its end, by the reason for which it ends. */
  lemma EndExtent(o: Oracle, rules: seq<RuleEntity>, cont: bool, stag: bool, tick: nat, n: nat)
    requires n <= |rules| && (forall k | 0 <= k < n :: !CancelledAt(o, tick, k))
    requires forall k | 0 <= k < n - 1 :: GoesOn(o, rules, cont, stag, tick, k)
    requires n < |rules| ==> CancelledAt(o, tick, n) || (n > 0 && !GoesOn(o, rules, cont, stag, tick, n - 1))
    ensures Extent(o, rules, cont, stag, tick, n)
  {
    hide CancelledAt, GoesOn;
  }

  lemma SerialFromExact(o: Oracle, p: nat, lo: nat, rules: seq<RuleEntity>, i: nat, cont: bool, stag: bool, start: Log, log: Log)
    returns (n: nat)
    requires i <= |rules| && log.tick == start.tick + i
    requires log.trace == start.trace + RuleEvents(o, p, lo, rules, start.tick, i)
    requires forall k | 0 <= k < i :: !CancelledAt(o, start.tick, k) && GoesOn(o, rules, cont, stag, start.tick, k)
    ensures RanSerially(o, p, lo, rules, cont, stag, start,
                        Serial(o, p, lo, rules, i, cont, stag, log, Failures(o, lo, rules, start.tick, i)), n)
    decreases |rules| - i
  {
    hide ExecRule, Extent, RuleEvents;
    var tick, errors := start.tick, Failures(o, lo, rules, start.tick, i);
    n := i;
    assert errors + [] == errors;
    assert i > 0 ==> GoesOn(o, rules, cont, stag, tick, i - 1);
    if i < |rules| && !o.cancelled(log.tick) {
      RuleStep(o, p, lo, rules, i, start, log);
      var log1 := ExecRule(o, p, lo + i, rules[i], log).0;
      assert !CancelledAt(o, tick, i);
      assert Failures(o, lo, rules, tick, i + 1) + [] == Failures(o, lo, rules, tick, i + 1);
      if GoesOn(o, rules, cont, stag, tick, i) {
        n := SerialFromExact(o, p, lo, rules, i + 1, cont, stag, start, log1);
      } else {
        n := i + 1;
        EndExtent(o, rules, cont, stag, tick, n);
      }
    } else {
      EndExtent(o, rules, cont, stag, tick, n);
    }
  }

  lemma SerialExact(o: Oracle, p: nat, lo: nat, rules: seq<RuleEntity>, cont: bool, stag: bool, log: Log) returns (n: nat)
    ensures RanSerially(o, p, lo, rules, cont, stag, log, Serial(o, p, lo, rules, 0, cont, stag, log, []), n)
  {
    assert log.trace + [] == log.trace;
    n := SerialFromExact(o, p, lo, rules, 0, cont, stag, log, log);
  }

  // ---------- The modes ----------

  predicate Resolves(found: Found, opts: Options, rules: seq<RuleEntity>) {
    Resolve(found, opts) == Rules(rules)
  }

  /** How a call that runs one serial phase ends. */
  ghost predicate EndsSerially(o: Oracle, rules: seq<RuleEntity>, cont: bool, stag: bool, tick: nat, ret: Ret, n: nat) {
    && Extent(o, rules, cont, stag, tick, n)
    && match ret
       case Rejected(_) => false
       case Crashed(log) => LastPanics(o, rules, tick, n) && log.trace == RuleEvents(o, 0, 0, rules, tick, n)
       case Returned(log, errors) =>
         && !LastPanics(o, rules, tick, n) && log.trace == RuleEvents(o, 0, 0, rules, tick, n)
         && errors == Failures(o, 0, rules, tick, n) + (if CutShort(o, rules, cont, stag, tick, n) then [Cancelled] else [])
  }

  lemma ExtentInside(o: Oracle, rules: seq<RuleEntity>, cont: bool, stag: bool, tick: nat, n: nat)
    requires Extent(o, rules, cont, stag, tick, n)
    ensures n <= |rules|
  {
  }

  lemma ExecSortExact(o: Oracle, rules: seq<RuleEntity>, cont: bool, stag: bool, tick: nat) returns (n: nat)
    ensures EndsSerially(o, rules, cont, stag, tick, ExecSort(o, rules, cont, stag, Begun(tick)), n)
  {
    hide Serial, Extent, CutShort, RuleEvents, Failures;
    n := SerialExact(o, 0, 0, rules, cont, stag, Begun(tick));
    assert n <= |rules| by { ExtentInside(o, rules, cont, stag, tick, n); }
    assert [] + RuleEvents(o, 0, 0, rules, tick, n) == RuleEvents(o, 0, 0, rules, tick, n);
  }

  /**
   The sort mode executes the resolved rules one after another, exactly as far as the first panic, the
   first stop if a tag is given, the first cancellation, or the first error unless it is to continue.
   */
  lemma SortMode(o: Oracle, found: Found, opts: Options, tick: nat, rules: seq<RuleEntity>) returns (n: nat)
    requires opts.mode == ModeSort && Resolves(found, opts, rules)
    ensures EndsSerially(o, rules, opts.continueOnError, opts.stopTag, tick, ExecuteOpts(o, found, opts, tick), n)
  {
    hide EndsSerially, ExecSort;
    n := ExecSortExact(o, rules, opts.continueOnError, opts.stopTag, tick);
  }

  function LogOf(ret: Ret): Log
    requires !ret.Rejected?
  {
    ret.log
  }

  /** Without continueOnError nothing follows the first rule that fails. */
  lemma SortFailsFast(o: Oracle, found: Found, opts: Options, tick: nat, rules: seq<RuleEntity>)
    requires opts.mode == ModeSort && !opts.continueOnError && Resolves(found, opts, rules)
    ensures var ret := ExecuteOpts(o, found, opts, tick);
            !ret.Rejected? && OnlyLastFails(LogOf(ret).trace)
  {
    hide ExecuteOpts, GoesOn;
    var n := SortMode(o, found, opts, tick, rules);
    var t := LogOf(ExecuteOpts(o, found, opts, tick)).trace;
    forall k | 0 <= k < |t| - 1 && t[k].Finish? ensures !Fails(t[k].b) {
      EventAt(o, 0, 0, rules, tick, n, k);
      assert GoesOn(o, rules, false, opts.stopTag, tick, k / 2);
      Goes(o, rules, opts.stopTag, tick, k / 2);
    }
  }

  lemma Goes(o: Oracle, rules: seq<RuleEntity>, stag: bool, tick: nat, k: nat)
    requires k < |rules| && GoesOn(o, rules, false, stag, tick, k)
    ensures !Fails(BehaviourAt(o, rules, tick, k))
  {
  }

  /** Event 2k starts rule k, event 2k + 1 finishes it. */
  lemma {:induction false} EventAt(o: Oracle, p: nat, lo: nat, rules: seq<RuleEntity>, tick: nat, n: nat, j: nat)
    requires n <= |rules| && j < 2 * n
    ensures RuleEvents(o, p, lo, rules, tick, n)[j] ==
            if j % 2 == 0 then Start(p, lo + j / 2)
            else Finish(p, lo + j / 2, rules[j / 2].ruleName, BehaviourAt(o, rules, tick, j / 2))
  {
    if j < 2 * (n - 1) {
      EventAt(o, p, lo, rules, tick, n - 1, j);
    }
  }

  /** With it, an error ends nothing: every rule finishes unless there is a panic, a cancellation or a stop. */
  lemma SortContinues(o: Oracle, found: Found, opts: Options, tick: nat, rules: seq<RuleEntity>, at: nat)
    requires opts.mode == ModeSort && opts.continueOnError && Resolves(found, opts, rules) && at < |rules|
    requires NeverCancelled(o) && !MayStop(o, opts.stopTag) && forall r, time :: !o.behave(r, time).Panics?
    ensures var ret := ExecuteOpts(o, found, opts, tick);
            ret.Returned? && FinishedIn(ret.log.trace, at)
  {
    hide ExecuteOpts;
    var n := SortMode(o, found, opts, tick, rules);
    EventAt(o, 0, 0, rules, tick, n, 2 * at + 1);
  }

  predicate StoppedAfter(o: Oracle, tick: nat, k: nat) {
    o.stopped(tick + k + 1)
  }

  /** With a stop tag, the rule after which it is first set is the last one. */
  lemma SortStops(o: Oracle, found: Found, opts: Options, tick: nat, rules: seq<RuleEntity>, k: nat)
    requires opts.mode == ModeSort && opts.stopTag && Resolves(found, opts, rules) && k < |rules|
    requires NeverCancelled(o) && forall j | 0 <= j <= k :: !Fails(BehaviourAt(o, rules, tick, j))
    requires StoppedAfter(o, tick, k) && forall j | 0 <= j < k :: !StoppedAfter(o, tick, j)
    ensures var ret := ExecuteOpts(o, found, opts, tick);
            ret.Returned? && ret.errors == [] && ret.log.trace == RuleEvents(o, 0, 0, rules, tick, k + 1)
  {
    hide ExecuteOpts, Resolve, StoppedAfter, EndsSerially, GoesOn;
    var n := SortMode(o, found, opts, tick, rules);
    StopExtent(o, rules, opts.continueOnError, tick, k);
    EndsAtStop(o, rules, opts.continueOnError, tick, ExecuteOpts(o, found, opts, tick), n, k);
  }

  lemma EndsAtStop(o: Oracle, rules: seq<RuleEntity>, cont: bool, tick: nat, ret: Ret, n: nat, k: nat)
    requires k < |rules| && EndsSerially(o, rules, cont, true, tick, ret, n) && Extent(o, rules, cont, true, tick, k + 1)
    requires !GoesOn(o, rules, cont, true, tick, k) && forall j | 0 <= j <= k :: !Fails(BehaviourAt(o, rules, tick, j))
    ensures ret.Returned? && ret.errors == [] && ret.log.trace == RuleEvents(o, 0, 0, rules, tick, k + 1)
  {
    ExtentUnique(o, rules, cont, true, tick, n, k + 1);
    ExtentUnique(o, rules, cont, true, tick, k + 1, n);
    hide Extent, GoesOn;
    NoFailures(o, rules, tick, n);
    assert !Fails(BehaviourAt(o, rules, tick, k));
  }

  lemma StopExtent(o: Oracle, rules: seq<RuleEntity>, cont: bool, tick: nat, k: nat)
    requires k < |rules| && NeverCancelled(o) && forall j | 0 <= j <= k :: !Fails(BehaviourAt(o, rules, tick, j))
    requires StoppedAfter(o, tick, k) && forall j | 0 <= j < k :: !StoppedAfter(o, tick, j)
    ensures Extent(o, rules, cont, true, tick, k + 1) && !GoesOn(o, rules, cont, true, tick, k)
  {
    forall j | 0 <= j < k ensures GoesOn(o, rules, cont, true, tick, j) {
      assert !Fails(BehaviourAt(o, rules, tick, j)) && !StoppedAfter(o, tick, j);
    }
  }

  lemma {:induction false} NoFailures(o: Oracle, rules: seq<RuleEntity>, tick: nat, n: nat)
    requires n <= |rules| && forall j | 0 <= j < n :: !Fails(BehaviourAt(o, rules, tick, j))
    ensures Failures(o, 0, rules, tick, n) == []
  {
    if n > 0 {
      NoFailures(o, rules, tick, n - 1);
    }
  }

  /** The concurrent mode is one group of all resolved rules. */
  lemma ConcurrentMode(o: Oracle, found: Found, opts: Options, tick: nat, rules: seq<RuleEntity>)
    requires opts.mode == ModeConcurrent && Resolves(found, opts, rules)
    ensures var (log, errs) := RunRules(o, 0, 0, rules, Begun(tick));
            ExecuteOpts(o, found, opts, tick) == Returned(log, errs)
  {
    hide RunRules;
  }

  /** The behaviour of the mixed mode's first rule. */
  function First(o: Oracle, rules: seq<RuleEntity>, tick: nat): Behaviour
    requires rules != []
  {
    BehaviourAt(o, rules, tick, 0)
  }

  /**
   The mixed mode executes its first rule unless the context is cancelled. A panic or an error of that
   rule ends it, and so does a stop tag set by then; otherwise the other rules run as a group.
   */
  lemma MixMode(o: Oracle, found: Found, opts: Options, tick: nat, rules: seq<RuleEntity>)
    requires opts.mode == ModeMix && Resolves(found, opts, rules) && rules != []
    ensures var ret, first := ExecuteOpts(o, found, opts, tick), RuleEvents(o, 0, 0, rules, tick, 1);
            if o.cancelled(tick) then ret == Returned(Begun(tick), [Cancelled])
            else if First(o, rules, tick).Panics? then ret.Crashed? && ret.log.trace == first
            else if First(o, rules, tick).failed then ret.Returned? && ret.log.trace == first && ret.errors == [Failure(0)]
            else if opts.stopTag && o.stopped(tick + 1) then ret.Returned? && ret.log.trace == first && ret.errors == []
            else
              exists log1: Log :: log1.trace == first && log1.tick == tick + 1 && log1.results == Collect(map[], first) &&
                var (log2, errs) := RunRules(o, 1, 1, rules[1..], log1);
                ret == Returned(log2, errs)
  {
    hide RunRules, ExecRule, RuleEvents, Resolve, Collect;
    FirstRule(o, rules, tick);
  }

  lemma FirstRule(o: Oracle, rules: seq<RuleEntity>, tick: nat)
    requires rules != []
    ensures var (log1, b) := ExecRule(o, 0, 0, rules[0], Begun(tick));
            var first := RuleEvents(o, 0, 0, rules, tick, 1);
            b == First(o, rules, tick) && log1.trace == first && log1.tick == tick + 1 && log1.results == Collect(map[], first)
  {
    var first := RuleEvents(o, 0, 0, rules, tick, 1);
    assert first == [Start(0, 0), Finish(0, 0, rules[0].ruleName, BehaviourAt(o, rules, tick, 0))];
    assert first[..1] == [Start(0, 0)] && [Start(0, 0)][..0] == [];
    assert Collect(map[], first[..1]) == map[];
  }

  /** The inverse mixed mode runs up to two rules serially, collecting errors, whatever its options say. */
  lemma InverseMixOfFew(o: Oracle, found: Found, opts: Options, tick: nat, rules: seq<RuleEntity>) returns (n: nat)
    requires opts.mode == ModeInverseMix && Resolves(found, opts, rules) && 0 < |rules| <= 2
    ensures EndsSerially(o, rules, true, false, tick, ExecuteOpts(o, found, opts, tick), n)
  {
    hide EndsSerially, ExecSort;
    n := ExecSortExact(o, rules, true, false, tick);
  }

  /**
   Of three or more rules it runs all but the last as a group, and then the last, whatever failed in the
   group, unless the context has been cancelled by then.
   */
  lemma InverseMixOfMany(o: Oracle, found: Found, opts: Options, tick: nat, rules: seq<RuleEntity>)
    requires opts.mode == ModeInverseMix && Resolves(found, opts, rules) && |rules| > 2
    ensures var n, ret := |rules| - 1, ExecuteOpts(o, found, opts, tick);
            var (log1, errs) := RunRules(o, 0, 0, rules[..n], Begun(tick));
            if o.cancelled(log1.tick) then ret == Returned(log1, errs + [Cancelled])
            else
              var b := o.behave(rules[n], log1.tick);
              && !ret.Rejected? && LogOf(ret).trace == log1.trace + [Start(1, n), Finish(1, n, rules[n].ruleName, b)]
              && (ret.Crashed? <==> b.Panics?)
              && (ret.Returned? ==> ret.errors == errs + if b.failed then [Failure(n)] else [])
  {
    hide RunRules;
  }

  // ---------- Two phases ----------

  /** The call gets past its checks, and its window exists. */
  predicate InWindow(found: Found, opts: Options, rules: seq<RuleEntity>) {
    Resolves(found, opts, rules) && opts.n > 0 && opts.m > 0 && opts.n + opts.m <= |rules| <= MAX_INT64
  }

  function NRules(opts: Options, rules: seq<RuleEntity>): seq<RuleEntity>
    requires opts.n > 0 && opts.m > 0 && opts.n + opts.m <= |rules|
  {
    rules[..opts.n]
  }

  function MRules(opts: Options, rules: seq<RuleEntity>): seq<RuleEntity>
    requires opts.n > 0 && opts.m > 0 && opts.n + opts.m <= |rules|
  {
    rules[opts.n..opts.n + opts.m]
  }

  /**
   N rules serially and then M concurrently. A panic in the serial phase ends the call, and so does an
   error unless it is to continue: then no rule of the second phase runs. Otherwise the second phase is
   the group of the M rules, whatever failed before.
   */
  lemma NSortMMode(o: Oracle, found: Found, opts: Options, tick: nat, rules: seq<RuleEntity>) returns (k: nat)
    requires opts.mode == ModeNSortMConcurrent && InWindow(found, opts, rules)
    ensures Extent(o, NRules(opts, rules), opts.continueOnError, false, tick, k)
    ensures var ret, ns := ExecuteOpts(o, found, opts, tick), NRules(opts, rules);
            var t0, cut := RuleEvents(o, 0, 0, ns, tick, k), CutShort(o, ns, opts.continueOnError, false, tick, k);
            var errs0 := Failures(o, 0, ns, tick, k) + (if cut then [Cancelled] else []);
            if LastPanics(o, ns, tick, k) then ret.Crashed? && ret.log.trace == t0
            else if !opts.continueOnError && LastFails(o, ns, tick, k) then ret.Returned? && ret.log.trace == t0 && ret.errors == errs0
            else
              exists log1: Log :: log1.trace == t0 && log1.tick == tick + k &&
                var (log2, errs) := RunRules(o, 1, |ns|, MRules(opts, rules), log1);
                ret == Returned(log2, errs0 + errs)
  {
    hide Serial, RunRules, CutShort, Resolve;
    var ns := NRules(opts, rules);
    k := SerialExact(o, 0, 0, ns, opts.continueOnError, false, Begun(tick));
    ExtentInside(o, ns, opts.continueOnError, false, tick, k);
    hide Extent;
    var t0 := RuleEvents(o, 0, 0, ns, tick, k);
    assert [] + t0 == t0;
    WindowOpens(o, found, opts, tick, rules);
    var s := Serial(o, 0, 0, ns, 0, opts.continueOnError, false, Begun(tick), []);
    assert s.log.trace == t0 && s.log.tick == tick + k;
  }

  lemma WindowOpens(o: Oracle, found: Found, opts: Options, tick: nat, rules: seq<RuleEntity>)
    requires Windowed(opts.mode) && InWindow(found, opts, rules)
    ensures ExecuteOpts(o, found, opts, tick) ==
            if opts.mode == ModeNSortMConcurrent then
              ExecNSortM(o, NRules(opts, rules), MRules(opts, rules), opts.continueOnError, Begun(tick))
            else
              ExecNConcurrentM(o, NRules(opts, rules), MRules(opts, rules), opts.continueOnError,
                               opts.mode == ModeNConcurrentMConcurrent, Begun(tick))
  {
    hide ExecNSortM, ExecNConcurrentM, Resolve;
  }

  /**
   N rules as a group and then M, as a group or serially. If anything is reported of the first phase the
   call ends there, unless it is to continue: then no rule of the second phase runs. Otherwise the second
   phase runs, as a group, or serially as far as the first panic, the first cancellation or, unless it is
   to continue, the first error.
   */
  lemma NConcurrentMMode(o: Oracle, found: Found, opts: Options, tick: nat, rules: seq<RuleEntity>) returns (k: nat)
    requires (opts.mode == ModeNConcurrentMSort || opts.mode == ModeNConcurrentMConcurrent) && InWindow(found, opts, rules)
    ensures var ret, ms := ExecuteOpts(o, found, opts, tick), MRules(opts, rules);
            var (log1, errs) := RunRules(o, 0, 0, NRules(opts, rules), Begun(tick));
            if !opts.continueOnError && errs != [] then ret == Returned(log1, errs)
            else if opts.mode == ModeNConcurrentMConcurrent then
              var (log2, errs2) := RunRules(o, 1, opts.n, ms, log1);
              ret == Returned(log2, errs + errs2)
            else
              && Extent(o, ms, opts.continueOnError, false, log1.tick, k)
              && !ret.Rejected? && LogOf(ret).trace == log1.trace + RuleEvents(o, 1, opts.n, ms, log1.tick, k)
              && (ret.Crashed? <==> LastPanics(o, ms, log1.tick, k))
              && (ret.Returned? ==>
                    ret.errors == errs + (Failures(o, opts.n, ms, log1.tick, k) +
                                          if CutShort(o, ms, opts.continueOnError, false, log1.tick, k) then [Cancelled] else []))
  {
    hide Serial, RunRules, CutShort, Resolve;
    var (log1, errs) := RunRules(o, 0, 0, NRules(opts, rules), Begun(tick));
    k := SerialExact(o, 1, opts.n, MRules(opts, rules), opts.continueOnError, false, log1);
    ExtentInside(o, MRules(opts, rules), opts.continueOnError, false, log1.tick, k);
    hide Extent;
    WindowOpens(o, found, opts, tick, rules);
  }

  /** Without continueOnError, a failure in the first of two concurrent phases keeps the second from running. */
  lemma FirstPhaseDecides(o: Oracle, found: Found, opts: Options, tick: nat, rules: seq<RuleEntity>, at: nat)
    requires Lasting(o) && (opts.mode == ModeNConcurrentMSort || opts.mode == ModeNConcurrentMConcurrent)
    requires InWindow(found, opts, rules) && !opts.continueOnError
    requires var ret := ExecuteOpts(o, found, opts, tick); !ret.Rejected? && FailsAt(LogOf(ret).trace, at) && at < opts.n
    ensures var t := LogOf(ExecuteOpts(o, found, opts, tick)).trace;
            forall k | 0 <= k < |t| :: t[k].phase == 0
  {
    hide RunRules, ExecuteOpts, FailsAt, Extent, CutShort, PhaseTrace, Reports;
    var ns, ms := NRules(opts, rules), MRules(opts, rules);
    var k := NConcurrentMMode(o, found, opts, tick, rules);
    var ret := ExecuteOpts(o, found, opts, tick);
    var (log1, errs) := RunRules(o, 0, 0, ns, Begun(tick));
    var t0 := RunObeys(o, 0, 0, ns, Begun(tick));
    assert [] + t0 == t0;
    PhaseFacts(Phase(ns, false), 0, 0, t0);
    if errs == [] {
      NoErrorNoFailure(t0);
      var t1: seq<Event>;
      if opts.mode == ModeNConcurrentMConcurrent {
        t1 := RunObeys(o, 1, opts.n, ms, log1);
        PhaseFacts(Phase(ms, false), 1, opts.n, t1);
      } else {
        ExtentInside(o, ms, opts.continueOnError, false, log1.tick, k);
        t1 := RuleEvents(o, 1, opts.n, ms, log1.tick, k);
        forall j | 0 <= j < |t1| ensures t1[j].at >= opts.n {
          EventAt(o, 1, opts.n, ms, log1.tick, k, j);
        }
      }
      assert LogOf(ret).trace == t0 + t1;
      FailsSomewhere(t0, t1, at, opts.n);
      assert false;
    }
  }

  lemma FailsSomewhere(t0: seq<Event>, t1: seq<Event>, at: nat, n: nat)
    requires NoneFails(t0) && at < n && forall j | 0 <= j < |t1| :: t1[j].at >= n
    ensures !FailsAt(t0 + t1, at)
  {
  }

  // ---------- Refusals ----------

  /** No rule is found to run. */
  ghost predicate NothingFound(found: Found, opts: Options) {
    if opts.selected == [] then found.counted == 0
    else forall name | name in opts.selected :: name !in found.entities
  }

  /** What makes a call refuse before any rule runs. */
  ghost predicate Refuses(o: Oracle, found: Found, opts: Options, tick: nat) {
    opts.mode != ModeDAG &&
    (|| NothingFound(found, opts)
     || opts.mode == ModeUnknown
     || (Windowed(opts.mode) && (opts.n <= 0 || opts.m <= 0 || TooWide(opts, Length(found, opts))))
     || (opts.selected == [] && found.sorted == [] && (opts.mode == ModeInverseMix || (opts.mode == ModeMix && !o.cancelled(tick)))))
  }

  /** The window is too wide, and its width does not overflow. */
  predicate TooWide(opts: Options, length: nat) {
    length < opts.n + opts.m <= MAX_INT64 || length < opts.n + opts.m - 0x1_0000_0000_0000_0000
  }

  /** How many rules are resolved. */
  function Length(found: Found, opts: Options): nat {
    if opts.selected == [] then |found.sorted| else |Existing(found.entities, opts.selected)|
  }

  lemma {:induction false} ExistingSome(entities: Registry, names: seq<string>)
    ensures Existing(entities, names) == [] <==> forall name | name in names :: name !in entities
  {
    if names != [] {
      var front, last := names[..|names| - 1], names[|names| - 1];
      assert names == front + [last];
      ExistingSome(entities, front);
    }
  }

  /** The resolved rules, as far as the refusals need them. */
  lemma ResolvedLength(found: Found, opts: Options)
    ensures Resolve(found, opts).NoRule? <==> NothingFound(found, opts)
    ensures Resolve(found, opts).Rules? ==> |Resolve(found, opts).rules| == Length(found, opts)
    ensures Resolve(found, opts).Rules? ==> (Resolve(found, opts).rules == [] <==> opts.selected == [] && found.sorted == [])
  {
    if opts.selected != [] {
      ExistingSome(found.entities, opts.selected);
      assert opts.selected[0] in opts.selected;
      var listed := Existing(found.entities, opts.selected);
      assert |multiset(StableSort(listed))| == |multiset(listed)|;
    }
  }

  /** A call is refused exactly for one of these reasons; in all other cases it runs. */
  lemma RefusedIff(o: Oracle, found: Found, opts: Options, tick: nat)
    ensures ExecuteOpts(o, found, opts, tick).Rejected? <==> Refuses(o, found, opts, tick)
  {
    hide Resolve, Length, NothingFound, Existing, RunRules, Serial, ExecRule, ExecNSortM, ExecNConcurrentM;
    ResolvedLength(found, opts);
    if opts.mode == ModeDAG {
      DagRuns(o, found.entities, opts.dag, 0, 0, Begun(tick));
    } else if Windowed(opts.mode) && Resolve(found, opts).Rules? {
      NeverRejects(o, Resolve(found, opts).rules, opts, Begun(tick));
    }
  }

  lemma DagRuns(o: Oracle, entities: Registry, dag: seq<seq<string>>, i: nat, lo: nat, log: Log)
    requires i <= |dag|
    ensures ExecDAG(o, entities, dag, i, lo, log).Returned?
    decreases |dag| - i
  {
    hide RunRules, Existing;
    if i < |dag| {
      var rules := Existing(entities, dag[i]);
      DagRuns(o, entities, dag, i + 1, lo + |rules|, RunRules(o, i, lo, rules, log).0);
    }
  }

  lemma NeverRejects(o: Oracle, rules: seq<RuleEntity>, opts: Options, log: Log)
    requires Windowed(opts.mode)
    ensures ExecWindow(o, rules, opts, log).Rejected? <==> opts.n <= 0 || opts.m <= 0 || TooWide(opts, |rules|)
  {
    hide RunRules, Serial;
  }
}
