/**
 Running a group of rules concurrently: a launcher starts one goroutine per rule unless the context
 has been cancelled, each goroutine looks at the context once more, runs its rule, and adds its
 result and its error. Launcher and goroutines interleave as the scheduler picks.

 `RunObeys` shows what every interleaving has in common; without cancellation every rule runs exactly
 once, whatever the others do.
 */
module Concurrency {
  import opened Values
  import opened Ast
  import opened Traces

  /**
   What the run does not control, as functions of time: how a rule behaves when it is executed, when
   the context is cancelled, when the stop tag is set, and what the scheduler picks.
   */
  datatype Oracle = Oracle(
    behave: (RuleEntity, nat) -> Behaviour,
    cancelled: nat -> bool,
    stopped: nat -> bool,
    pick: nat -> nat)

  /** A cancelled context stays cancelled. */
  ghost predicate Lasting(o: Oracle) {
    forall s: nat, t: nat | s <= t && o.cancelled(s) :: o.cancelled(t)
  }

  /** What a run has done so far: its events, the result map, and the time. */
  datatype Log = Log(trace: seq<Event>, results: map<string, Value>, tick: nat)

  function Tock(log: Log): Log {
    log.(tick := log.tick + 1)
  }

  function AddResult(log: Log, name: string, b: Behaviour): Log {
    if b.Ran? && b.flag then log.(results := log.results[name := b.v]) else log
  }

  // ---------- The group ----------

  datatype Status = Waiting | Launched | Running | Ended | Skipped

  /** `next` is the next rule to launch; `broken` says the launch loop was left early. */
  datatype Group = Group(log: Log, next: nat, broken: bool, threads: seq<Status>, errs: seq<Entry>)

  /** Actors are the threads, and the launcher as number |threads|. */
  predicate Enabled(g: Group, a: nat) {
    if a < |g.threads| then g.threads[a] == Launched || g.threads[a] == Running
    else a == |g.threads| && !g.broken && g.next < |g.threads|
  }

  function Launch(o: Oracle, g: Group): Group
    requires g.next < |g.threads|
  {
    if o.cancelled(g.log.tick) then g.(broken := true, log := Tock(g.log))
    else g.(threads := g.threads[g.next := Launched], next := g.next + 1, log := Tock(g.log))
  }

  /** A goroutine's first step: it gives up, or starts its rule. */
  function Begin(o: Oracle, p: nat, lo: nat, g: Group, i: nat): Group
    requires i < |g.threads|
  {
    if o.cancelled(g.log.tick) then g.(threads := g.threads[i := Skipped], log := Tock(g.log))
    else g.(threads := g.threads[i := Running], log := Tock(g.log.(trace := g.log.trace + [Start(p, lo + i)])))
  }

  /** Its second: the rule has come to something, even if to a panic. */
  function End(o: Oracle, p: nat, lo: nat, rules: seq<RuleEntity>, g: Group, i: nat): Group
    requires i < |g.threads| == |rules|
  {
    var b := o.behave(rules[i], g.log.tick);
    var name := rules[i].ruleName;
    var log := AddResult(g.log.(trace := g.log.trace + [Finish(p, lo + i, name, b)]), name, b);
    g.(threads := g.threads[i := Ended], log := Tock(log), errs := g.errs + if Fails(b) then [Failure(lo + i)] else [])
  }

  function Step(o: Oracle, p: nat, lo: nat, rules: seq<RuleEntity>, g: Group, a: nat): (r: Group)
    requires |g.threads| == |rules| && Enabled(g, a)
    ensures |r.threads| == |rules|
  {
    if a == |g.threads| then Launch(o, g)
    else if g.threads[a] == Launched then Begin(o, p, lo, g, a)
    else End(o, p, lo, rules, g, a)
  }

  function Actors(g: Group, n: nat): (r: seq<nat>)
    ensures forall a <- r :: a < n && Enabled(g, a)
    ensures forall a: nat | a < n && Enabled(g, a) :: a in r
  {
    if n == 0 then [] else Actors(g, n - 1) + if Enabled(g, n - 1) then [n - 1] else []
  }

  function Pick(o: Oracle, g: Group): (r: Option<nat>)
    ensures r.Some? ==> Enabled(g, r.value)
    ensures r == None ==> forall a: nat | a <= |g.threads| :: !Enabled(g, a)
  {
    var actors := Actors(g, |g.threads| + 1);
    if actors == [] then None
    else
      var a := actors[o.pick(g.log.tick) % |actors|];
      assert a in actors;
      Some(a)
  }

  function Work(threads: seq<Status>): nat {
    if threads == [] then 0
    else Work(threads[..|threads| - 1]) + StatusWork(threads[|threads| - 1])
  }

  function StatusWork(s: Status): nat {
    match s
    case Waiting => 3
    case Launched => 2
    case Running => 1
    case _ => 0
  }

  function Left(g: Group): nat {
    Work(g.threads) + if g.broken then 0 else 1
  }

  lemma {:induction false} WorkReplace(threads: seq<Status>, i: nat, s: Status)
    requires i < |threads|
    ensures Work(threads[i := s]) == Work(threads) - StatusWork(threads[i]) + StatusWork(s)
  {
    var front := threads[..|threads| - 1];
    if i == |threads| - 1 {
      assert threads[i := s][..|threads| - 1] == front;
    } else {
      assert threads[i := s][..|threads| - 1] == front[i := s];
      WorkReplace(front, i, s);
    }
  }

  /** Threads from `next` on have not been launched; those before have. */
  ghost predicate Launching(g: Group) {
    g.next <= |g.threads| && (forall i | 0 <= i < |g.threads| :: g.threads[i] == Waiting <==> i >= g.next)
  }

  lemma StepLess(o: Oracle, p: nat, lo: nat, rules: seq<RuleEntity>, g: Group, a: nat)
    requires |g.threads| == |rules| && Enabled(g, a) && Launching(g)
    ensures var g' := Step(o, p, lo, rules, g, a);
            Left(g') < Left(g) && Launching(g')
  {
    var g' := Step(o, p, lo, rules, g, a);
    if a < |g.threads| {
      WorkReplace(g.threads, a, g'.threads[a]);
    } else if !g'.broken {
      WorkReplace(g.threads, g.next, Launched);
    }
  }

  /** Until nobody can move. */
  function Wait(o: Oracle, p: nat, lo: nat, rules: seq<RuleEntity>, g: Group): Group
    requires |g.threads| == |rules| && Launching(g)
    decreases Left(g)
  {
    match Pick(o, g)
    case None => g
    case Some(a) =>
      StepLess(o, p, lo, rules, g, a);
      Wait(o, p, lo, rules, Step(o, p, lo, rules, g, a))
  }

  function Fork(n: nat, log: Log): Group {
    Group(log, 0, false, seq(n, i => Waiting), [])
  }

  /** The log after the whole group, and its joined errors. */
  function RunRules(o: Oracle, p: nat, lo: nat, rules: seq<RuleEntity>, log: Log): (Log, seq<Entry>) {
    if rules == [] then (log, [])
    else
      var g := Wait(o, p, lo, rules, Fork(|rules|, log));
      (g.log, g.errs + if o.cancelled(g.log.tick) then [Cancelled] else [])
  }

  // ---------- The invariant ----------

  /** Where each thread is shows in the events. */
  ghost predicate Tracks(p: nat, lo: nat, threads: seq<Status>, t: seq<Event>) {
    && (forall at: nat | lo <= at < lo + |threads| :: Start(p, at) in t <==> threads[at - lo] == Running || threads[at - lo] == Ended)
    && (forall at: nat | lo <= at < lo + |threads| :: FinishedIn(t, at) <==> threads[at - lo] == Ended)
  }

  predicate DoesAt(o: Oracle, r: RuleEntity, b: Behaviour, tick: nat) {
    o.behave(r, tick) == b
  }

  ghost predicate Does(o: Oracle, r: RuleEntity, b: Behaviour) {
    exists tick: nat :: DoesAt(o, r, b, tick)
  }

  /** What a rule came to is what it does at some moment. */
  ghost predicate Sourced(o: Oracle, lo: nat, rules: seq<RuleEntity>, t: seq<Event>) {
    forall k | 0 <= k < |t| && t[k].Finish? && lo <= t[k].at < lo + |rules| :: Does(o, rules[t[k].at - lo], t[k].b)
  }

  ghost predicate AnySkipped(threads: seq<Status>) {
    exists i | 0 <= i < |threads| :: threads[i] == Skipped
  }

  ghost predicate CancelledBy(o: Oracle, tick: nat) {
    exists s: nat | s <= tick :: o.cancelled(s)
  }

  ghost predicate Inv(o: Oracle, p: nat, lo: nat, rules: seq<RuleEntity>, log: Log, g: Group, t: seq<Event>) {
    && |g.threads| == |rules| && Launching(g)
    && g.log.trace == log.trace + t && g.log.results == Collect(log.results, t) && g.log.tick >= log.tick
    && Tidy(t, p, lo, rules)
    && Tracks(p, lo, g.threads, t) && Sourced(o, lo, rules, t)
    && Reports(t, g.errs) && Cancelled !in g.errs
    && (g.broken || AnySkipped(g.threads) ==> CancelledBy(o, g.log.tick))
  }

  lemma FinishedSnoc(t: seq<Event>, e: Event, at: nat)
    ensures FinishedIn(t + [e], at) <==> FinishedIn(t, at) || (e.Finish? && e.at == at)
  {
    FinishedConcat(t, [e], at);
    if e.Finish? && e.at == at {
      assert (t + [e])[|t|] == e;
    }
    if FinishedIn(t + [e], at) {
      var k :| 0 <= k < |t + [e]| && (t + [e])[k].Finish? && (t + [e])[k].at == at;
      if k < |t| {
        assert t[k] == (t + [e])[k];
      }
    }
  }

  lemma FailsSnoc(t: seq<Event>, e: Event, at: nat)
    ensures FailsAt(t + [e], at) <==> FailsAt(t, at) || (e.Finish? && e.at == at && Fails(e.b))
  {
    FailsConcat(t, [e], at);
    if e.Finish? && e.at == at && Fails(e.b) {
      assert [e][0].Finish? && [e][0].at == at && Fails([e][0].b);
    }
  }

  lemma TidySnoc(t: seq<Event>, e: Event, p: nat, lo: nat, rules: seq<RuleEntity>)
    requires Tidy(t, p, lo, rules) && e.phase == p && lo <= e.at < lo + |rules| && !FinishedIn(t, e.at)
    requires e.Start? ==> forall k | 0 <= k < |t| :: t[k].at != e.at
    requires e.Finish? ==> e.name == rules[e.at - lo].ruleName && Start(p, e.at) in t
    ensures Tidy(t + [e], p, lo, rules)
  {
    hide FinishedIn, Ranged, Paired, Started;
    RangedSnoc(t, e, p, lo, rules);
    PairedSnoc(t, e);
    StartedSnoc(t, e, p);
  }

  lemma RangedSnoc(t: seq<Event>, e: Event, p: nat, lo: nat, rules: seq<RuleEntity>)
    requires Ranged(t, p, lo, rules) && e.phase == p && lo <= e.at < lo + |rules|
    requires e.Finish? ==> e.name == rules[e.at - lo].ruleName
    ensures Ranged(t + [e], p, lo, rules)
  {
  }

  lemma StartedSnoc(t: seq<Event>, e: Event, p: nat)
    requires Started(t, p) && (e.Finish? ==> Start(p, e.at) in t)
    ensures Started(t + [e], p)
  {
    var t' := t + [e];
    forall k | 0 <= k < |t'| && t'[k].Finish? ensures Start(p, t'[k].at) in t'[..k] {
      if k < |t| {
        assert t'[k] == t[k] && t'[..k] == t[..k];
      } else {
        assert t'[..k] == t;
      }
    }
  }

  lemma PairedSnoc(t: seq<Event>, e: Event)
    requires Paired(t) && !FinishedIn(t, e.at)
    requires e.Start? ==> forall i | 0 <= i < |t| :: t[i].at != e.at
    ensures Paired(t + [e])
  {
    hide FinishedIn;
    var t' := t + [e];
    forall j, k | 0 <= j < k < |t'| && t'[j].at == t'[k].at ensures t'[j].Start? && t'[k].Finish? {
      assert t'[j] == t[j];
      if k < |t| {
        assert t'[k] == t[k];
      } else {
        NotFinished(t, j, e.at);
      }
    }
  }

  lemma NotFinished(t: seq<Event>, j: nat, at: nat)
    requires j < |t| && !FinishedIn(t, at) && t[j].at == at
    ensures t[j].Start?
  {
  }

  lemma CollectSnoc(results: map<string, Value>, t: seq<Event>, e: Event)
    ensures Collect(results, t + [e]) ==
            if e.Finish? && e.b.Ran? && e.b.flag then Collect(results, t)[e.name := e.b.v] else Collect(results, t)
  {
    assert (t + [e])[..|t|] == t;
  }

  lemma SkippedKept(threads: seq<Status>, i: nat, s: Status)
    requires i < |threads| && s != Skipped && AnySkipped(threads[i := s])
    ensures AnySkipped(threads)
  {
    var threads' := threads[i := s];
    var j :| 0 <= j < |threads'| && threads'[j] == Skipped;
    assert threads[j] == Skipped;
  }

  lemma Later(o: Oracle, tick: nat)
    requires CancelledBy(o, tick)
    ensures CancelledBy(o, tick + 1)
  {
    var s: nat :| s <= tick && o.cancelled(s);
    assert s <= tick + 1;
  }

  lemma BeginInv(o: Oracle, p: nat, lo: nat, rules: seq<RuleEntity>, log: Log, g: Group, t: seq<Event>, i: nat)
    requires Inv(o, p, lo, rules, log, g, t) && i < |rules| && g.threads[i] == Launched && !o.cancelled(g.log.tick)
    ensures Inv(o, p, lo, rules, log, Begin(o, p, lo, g, i), t + [Start(p, lo + i)])
  {
    hide FinishedIn, FailsAt, Tidy, Tracks, Sourced, AnySkipped, CancelledBy, Reports;
    var e := Start(p, lo + i);
    var g' := Begin(o, p, lo, g, i);
    BeginTidy(p, lo, rules, g.threads, t, i);
    SourcedSnoc(o, lo, rules, t, e);
    TracksStart(p, lo, g.threads, t, i);
    CollectSnoc(log.results, t, e);
    assert g'.log.trace == log.trace + (t + [e]);
    SameReports(t, e, g.errs);
    if AnySkipped(g'.threads) {
      SkippedKept(g.threads, i, Running);
    }
    if CancelledBy(o, g.log.tick) {
      Later(o, g.log.tick);
    }
  }

  lemma SourcedSnoc(o: Oracle, lo: nat, rules: seq<RuleEntity>, t: seq<Event>, e: Event)
    requires Sourced(o, lo, rules, t)
    requires e.Finish? && lo <= e.at < lo + |rules| ==> Does(o, rules[e.at - lo], e.b)
    ensures Sourced(o, lo, rules, t + [e])
  {
    hide Does;
  }

  lemma SameReports(t: seq<Event>, e: Event, errs: seq<Entry>)
    requires Reports(t, errs) && e.Start?
    ensures Reports(t + [e], errs)
  {
    forall at: nat ensures FailsAt(t + [e], at) <==> FailsAt(t, at) {
      FailsSnoc(t, e, at);
    }
  }

  lemma TracksStart(p: nat, lo: nat, threads: seq<Status>, t: seq<Event>, i: nat)
    requires Tracks(p, lo, threads, t) && i < |threads| && threads[i] == Launched
    ensures Tracks(p, lo, threads[i := Running], t + [Start(p, lo + i)])
  {
    hide FinishedIn;
    var t', threads' := t + [Start(p, lo + i)], threads[i := Running];
    forall at: nat | lo <= at < lo + |threads'|
      ensures FinishedIn(t', at) <==> threads'[at - lo] == Ended
      ensures Start(p, at) in t' <==> threads'[at - lo] == Running || threads'[at - lo] == Ended
    {
      FinishedSnoc(t, Start(p, lo + i), at);
      assert Start(p, at) in t' <==> Start(p, at) in t || at == lo + i;
    }
  }

  lemma TracksFinish(p: nat, lo: nat, threads: seq<Status>, t: seq<Event>, i: nat, name: string, b: Behaviour)
    requires Tracks(p, lo, threads, t) && i < |threads| && threads[i] == Running
    ensures Tracks(p, lo, threads[i := Ended], t + [Finish(p, lo + i, name, b)])
  {
    hide FinishedIn;
    var t', threads' := t + [Finish(p, lo + i, name, b)], threads[i := Ended];
    forall at: nat | lo <= at < lo + |threads'|
      ensures FinishedIn(t', at) <==> threads'[at - lo] == Ended
      ensures Start(p, at) in t' <==> threads'[at - lo] == Running || threads'[at - lo] == Ended
    {
      FinishedSnoc(t, Finish(p, lo + i, name, b), at);
      assert Start(p, at) in t' <==> Start(p, at) in t;
    }
  }

  lemma BeginTidy(p: nat, lo: nat, rules: seq<RuleEntity>, threads: seq<Status>, t: seq<Event>, i: nat)
    requires Tidy(t, p, lo, rules) && |threads| == |rules| && Tracks(p, lo, threads, t) && i < |rules| && threads[i] == Launched
    ensures Tidy(t + [Start(p, lo + i)], p, lo, rules)
  {
    hide Tidy;
    var at := lo + i;
    assert Start(p, at) !in t && !FinishedIn(t, at);
    forall k | 0 <= k < |t| ensures t[k].at != at {
      PhaseOf(t, p, lo, rules, k);
      assert t[k].Start? ==> t[k] == Start(p, t[k].at);
    }
    TidySnoc(t, Start(p, at), p, lo, rules);
  }

  lemma PhaseOf(t: seq<Event>, p: nat, lo: nat, rules: seq<RuleEntity>, k: nat)
    requires Tidy(t, p, lo, rules) && k < |t|
    ensures t[k].phase == p
  {
  }

  lemma EndInv(o: Oracle, p: nat, lo: nat, rules: seq<RuleEntity>, log: Log, g: Group, t: seq<Event>, i: nat)
    requires Inv(o, p, lo, rules, log, g, t) && i < |rules| && g.threads[i] == Running
    ensures Inv(o, p, lo, rules, log, End(o, p, lo, rules, g, i),
                t + [Finish(p, lo + i, rules[i].ruleName, o.behave(rules[i], g.log.tick))])
  {
    hide FinishedIn, FailsAt, Tidy, Tracks, Sourced, AnySkipped, CancelledBy, Reports, Collect;
    var b := o.behave(rules[i], g.log.tick);
    EndLog(log, g.log, t, p, lo + i, rules[i].ruleName, b);
    EndParts(o, p, lo, rules, g, t, i, b);
    if AnySkipped(g.threads[i := Ended]) {
      SkippedKept(g.threads, i, Ended);
    }
    if CancelledBy(o, g.log.tick) {
      Later(o, g.log.tick);
    }
  }

  lemma EndLog(log: Log, now: Log, t: seq<Event>, p: nat, at: nat, name: string, b: Behaviour)
    requires now.trace == log.trace + t && now.results == Collect(log.results, t)
    ensures var e := Finish(p, at, name, b);
            var log' := AddResult(now.(trace := now.trace + [e]), name, b);
            log'.trace == log.trace + (t + [e]) && log'.results == Collect(log.results, t + [e])
  {
    hide Collect;
    CollectSnoc(log.results, t, Finish(p, at, name, b));
  }

  lemma EndParts(o: Oracle, p: nat, lo: nat, rules: seq<RuleEntity>, g: Group, t: seq<Event>, i: nat, b: Behaviour)
    requires |g.threads| == |rules| && Tidy(t, p, lo, rules) && Tracks(p, lo, g.threads, t) && Sourced(o, lo, rules, t)
    requires Reports(t, g.errs) && i < |rules| && g.threads[i] == Running && b == o.behave(rules[i], g.log.tick)
    ensures var t' := t + [Finish(p, lo + i, rules[i].ruleName, b)];
            && Tidy(t', p, lo, rules) && Tracks(p, lo, g.threads[i := Ended], t') && Sourced(o, lo, rules, t')
            && Reports(t', g.errs + if Fails(b) then [Failure(lo + i)] else [])
  {
    hide FinishedIn, FailsAt, Tidy, Tracks, Sourced, Reports;
    var e := Finish(p, lo + i, rules[i].ruleName, b);
    EndTidy(p, lo, rules, g.threads, t, i, b);
    assert DoesAt(o, rules[i], b, g.log.tick);
    SourcedSnoc(o, lo, rules, t, e);
    TracksFinish(p, lo, g.threads, t, i, rules[i].ruleName, b);
    EndReports(t, e, g.errs);
  }

  lemma EndTidy(p: nat, lo: nat, rules: seq<RuleEntity>, threads: seq<Status>, t: seq<Event>, i: nat, b: Behaviour)
    requires Tidy(t, p, lo, rules) && |threads| == |rules| && Tracks(p, lo, threads, t) && i < |rules| && threads[i] == Running
    ensures Tidy(t + [Finish(p, lo + i, rules[i].ruleName, b)], p, lo, rules)
    ensures !FinishedIn(t, lo + i)
  {
    hide Tidy, FinishedIn;
    var at := lo + i;
    assert Start(p, at) in t && !FinishedIn(t, at);
    TidySnoc(t, Finish(p, at, rules[i].ruleName, b), p, lo, rules);
  }

  lemma EndReports(t: seq<Event>, e: Event, errs: seq<Entry>)
    requires Reports(t, errs) && e.Finish? && !FinishedIn(t, e.at)
    ensures Reports(t + [e], errs + if Fails(e.b) then [Failure(e.at)] else [])
  {
    forall at: nat ensures FailsAt(t + [e], at) <==> FailsAt(t, at) || (at == e.at && Fails(e.b)) {
      FailsSnoc(t, e, at);
    }
    assert !FailsAt(t, e.at);
  }

  /** A step without an event: a launch, or a rule skipped or a launch loop left because of a cancellation. */
  lemma QuietInv(o: Oracle, p: nat, lo: nat, rules: seq<RuleEntity>, log: Log, g: Group, t: seq<Event>, a: nat)
    requires Inv(o, p, lo, rules, log, g, t) && Enabled(g, a)
    requires a == |rules| || (g.threads[a] == Launched && o.cancelled(g.log.tick))
    ensures Inv(o, p, lo, rules, log, Step(o, p, lo, rules, g, a), t)
  {
    hide FinishedIn, FailsAt, Tidy, Sourced, Reports, AnySkipped, CancelledBy;
    var g' := Step(o, p, lo, rules, g, a);
    StepLess(o, p, lo, rules, g, a);
    if o.cancelled(g.log.tick) {
      CancelledNow(o, g.log.tick);
    } else {
      if AnySkipped(g'.threads) {
        SkippedKept(g.threads, g.next, Launched);
      }
      if CancelledBy(o, g.log.tick) {
        Later(o, g.log.tick);
      }
    }
  }

  lemma CancelledNow(o: Oracle, tick: nat)
    requires o.cancelled(tick)
    ensures CancelledBy(o, tick + 1)
  {
    assert tick <= tick + 1;
  }

  /** The events a step adds. */
  function Added(o: Oracle, p: nat, lo: nat, rules: seq<RuleEntity>, g: Group, a: nat): seq<Event>
    requires |g.threads| == |rules| && Enabled(g, a)
  {
    if a == |g.threads| then []
    else if g.threads[a] == Running then [Finish(p, lo + a, rules[a].ruleName, o.behave(rules[a], g.log.tick))]
    else if o.cancelled(g.log.tick) then []
    else [Start(p, lo + a)]
  }

  lemma StepInv(o: Oracle, p: nat, lo: nat, rules: seq<RuleEntity>, log: Log, g: Group, t: seq<Event>, a: nat)
    requires Inv(o, p, lo, rules, log, g, t) && Enabled(g, a)
    ensures Inv(o, p, lo, rules, log, Step(o, p, lo, rules, g, a), t + Added(o, p, lo, rules, g, a))
  {
    hide Inv, Launch, Begin, End;
    LengthOf(o, p, lo, rules, log, g, t);
    if a < |rules| && g.threads[a] == Running {
      EndInv(o, p, lo, rules, log, g, t, a);
    } else if a < |rules| && !o.cancelled(g.log.tick) {
      BeginInv(o, p, lo, rules, log, g, t, a);
    } else {
      assert t + [] == t;
      QuietInv(o, p, lo, rules, log, g, t, a);
    }
  }

  /** The invariant holds when everybody has finished; t is what the group has done. */
  lemma {:induction false} WaitInv(o: Oracle, p: nat, lo: nat, rules: seq<RuleEntity>, log: Log, g: Group,
      t: seq<Event>) returns (t': seq<Event>)
    requires Inv(o, p, lo, rules, log, g, t)
    ensures var end := Wait(o, p, lo, rules, g);
            Inv(o, p, lo, rules, log, end, t') && forall a: nat | a <= |rules| :: !Enabled(end, a)
    decreases Left(g)
  {
    hide Step, Pick, Inv;
    LengthOf(o, p, lo, rules, log, g, t);
    var a := Pick(o, g);
    if a == None {
      t' := t;
    } else {
      StepLess(o, p, lo, rules, g, a.value);
      StepInv(o, p, lo, rules, log, g, t, a.value);
      t' := WaitInv(o, p, lo, rules, log, Step(o, p, lo, rules, g, a.value), t + Added(o, p, lo, rules, g, a.value));
    }
  }

  lemma LengthOf(o: Oracle, p: nat, lo: nat, rules: seq<RuleEntity>, log: Log, g: Group, t: seq<Event>)
    requires Inv(o, p, lo, rules, log, g, t)
    ensures |g.threads| == |rules| && Launching(g)
  {
  }

  lemma ForkInv(o: Oracle, p: nat, lo: nat, rules: seq<RuleEntity>, log: Log)
    ensures Inv(o, p, lo, rules, log, Fork(|rules|, log), [])
  {
    assert log.trace + [] == log.trace;
  }

  // ---------- What every interleaving has in common ----------

  /** The log grew by t, and the results are those of t. */
  ghost predicate Extends(log: Log, log': Log, t: seq<Event>) {
    log'.trace == log.trace + t && log'.results == Collect(log.results, t) && log'.tick >= log.tick
  }

  /**
   A group's events are those of its rules, each started at most once and finished if started; the
   joined errors have exactly one entry for every rule that failed or panicked; and unless the
   context is cancelled by the end, every rule has run.
   */
  lemma RunObeys(o: Oracle, p: nat, lo: nat, rules: seq<RuleEntity>, log: Log) returns (t: seq<Event>)
    requires Lasting(o)
    ensures var (log', errs) := RunRules(o, p, lo, rules, log);
            && Extends(log, log', t)
            && PhaseTrace(Phase(rules, false), p, lo, t) && Reports(t, errs) && Sourced(o, lo, rules, t)
            && (Cancelled in errs <==> rules != [] && o.cancelled(log'.tick))
            && (Cancelled !in errs ==> AllRun(t, lo, lo + |rules|))
  {
    hide Wait;
    if rules == [] {
      t := [];
      assert log.trace + [] == log.trace;
    } else {
      ForkInv(o, p, lo, rules, log);
      t := WaitInv(o, p, lo, rules, log, Fork(|rules|, log), []);
      var g := Wait(o, p, lo, rules, Fork(|rules|, log));
      GroupEnds(o, p, lo, rules, log, g, t);
      var errs := g.errs + if o.cancelled(g.log.tick) then [Cancelled] else [];
      forall at: nat ensures Failure(at) in errs <==> Failure(at) in g.errs {
      }
    }
  }

  lemma GroupEnds(o: Oracle, p: nat, lo: nat, rules: seq<RuleEntity>, log: Log, g: Group, t: seq<Event>)
    requires Lasting(o) && rules != [] && Inv(o, p, lo, rules, log, g, t) && forall a: nat | a <= |rules| :: !Enabled(g, a)
    ensures Whole(t)
    ensures !o.cancelled(g.log.tick) ==> AllRun(t, lo, lo + |rules|)
  {
    hide FailsAt, Collect, FinishedIn, Tidy, Sourced, Reports;
    forall i | 0 <= i < |rules| ensures g.threads[i] != Running && g.threads[i] != Launched {
      assert !Enabled(g, i);
    }
    assert !Enabled(g, |rules|);
    forall j | 0 <= j < |t| ensures FinishedIn(t, t[j].at) {
      StartedOrFinished(t, p, lo, rules, j);
    }
    if !o.cancelled(g.log.tick) {
      assert !CancelledBy(o, g.log.tick);
      forall at: nat | lo <= at < lo + |rules| ensures FinishedIn(t, at) {
        assert g.threads[at - lo] == Ended;
      }
    }
  }

  lemma StartedOrFinished(t: seq<Event>, p: nat, lo: nat, rules: seq<RuleEntity>, j: nat)
    requires Tidy(t, p, lo, rules) && j < |t|
    ensures lo <= t[j].at < lo + |rules| && Start(p, t[j].at) in t
  {
    if t[j].Finish? {
      assert Start(p, t[j].at) in t[..j];
    }
  }

  // ---------- Cancellation ----------

  /** Cancelled, and no rule under way. */
  ghost predicate Stalled(o: Oracle, g: Group) {
    o.cancelled(g.log.tick) && forall i | 0 <= i < |g.threads| :: g.threads[i] != Running
  }

  lemma {:induction false} WaitStalled(o: Oracle, p: nat, lo: nat, rules: seq<RuleEntity>, g: Group)
    requires Lasting(o) && |g.threads| == |rules| && Launching(g) && Stalled(o, g)
    ensures var end := Wait(o, p, lo, rules, g);
            end.log.trace == g.log.trace && end.log.results == g.log.results && end.errs == g.errs && o.cancelled(end.log.tick)
    decreases Left(g)
  {
    hide Pick, Launching, Left;
    var a := Pick(o, g);
    if a.Some? {
      StepLess(o, p, lo, rules, g, a.value);
      WaitStalled(o, p, lo, rules, Step(o, p, lo, rules, g, a.value));
    }
  }

  /** A group begun under a cancelled context runs nothing and reports the cancellation once. */
  lemma CancelledGroup(o: Oracle, p: nat, lo: nat, rules: seq<RuleEntity>, log: Log)
    requires Lasting(o) && o.cancelled(log.tick) && rules != []
    ensures var (log', errs) := RunRules(o, p, lo, rules, log);
            log'.trace == log.trace && log'.results == log.results && errs == [Cancelled] && o.cancelled(log'.tick)
  {
    hide Wait;
    WaitStalled(o, p, lo, rules, Fork(|rules|, log));
  }

  // ---------- The result map ----------

  /** Every rule does the same whenever it is executed. */
  ghost predicate Steady(o: Oracle, does: RuleEntity -> Behaviour) {
    forall r, tick :: o.behave(r, tick) == does(r)
  }

  ghost predicate NeverCancelled(o: Oracle) {
    forall tick :: !o.cancelled(tick)
  }

  predicate Distinct(rules: seq<RuleEntity>) {
    forall i, j | 0 <= i < j < |rules| :: rules[i].ruleName != rules[j].ruleName
  }

  /** The results if each rule of the list contributes what it does. */
  function Contributions(results: map<string, Value>, rules: seq<RuleEntity>,
      does: RuleEntity -> Behaviour): map<string, Value> {
    if rules == [] then results
    else
      var r := Contributions(results, rules[..|rules| - 1], does);
      var b := does(rules[|rules| - 1]);
      if b.Ran? && b.flag then r[rules[|rules| - 1].ruleName := b.v] else r
  }

  predicate Flagged(rules: seq<RuleEntity>, does: RuleEntity -> Behaviour, i: nat, name: string) {
    i < |rules| && rules[i].ruleName == name && does(rules[i]).Ran? && does(rules[i]).flag
  }

  predicate SameAt(before: map<string, Value>, after: map<string, Value>, name: string) {
    (name in after <==> name in before) && (name in before ==> after[name] == before[name])
  }

  /** Under `name`, `after` holds what the finished rule of that name contributes, or else what `before` does. */
  ghost predicate ResultAt(before: map<string, Value>, after: map<string, Value>, rules: seq<RuleEntity>,
      done: set<nat>, does: RuleEntity -> Behaviour, name: string) {
    && (forall i <- done :: Flagged(rules, does, i, name) ==> name in after && after[name] == does(rules[i]).v)
    && ((forall i <- done :: !Flagged(rules, does, i, name)) ==> SameAt(before, after, name))
  }

  lemma ResultUnique(before: map<string, Value>, a: map<string, Value>, b: map<string, Value>,
      rules: seq<RuleEntity>, done: set<nat>, does: RuleEntity -> Behaviour)
    requires forall name :: ResultAt(before, a, rules, done, does, name) && ResultAt(before, b, rules, done, does, name)
    ensures a == b
  {
    forall name ensures SameAt(a, b, name) {
      assert ResultAt(before, a, rules, done, does, name) && ResultAt(before, b, rules, done, does, name);
      if i :| i in done && Flagged(rules, does, i, name) {
      } else {
        assert SameAt(before, a, name) && SameAt(before, b, name);
      }
    }
    assert a.Keys == b.Keys by {
      forall name ensures name in a.Keys <==> name in b.Keys {
        assert SameAt(a, b, name);
      }
    }
    forall name <- a ensures a[name] == b[name] {
      assert SameAt(a, b, name);
    }
  }

  /** One more rule is done. */
  lemma ResultMore(before: map<string, Value>, after: map<string, Value>, rules: seq<RuleEntity>, done: set<nat>,
      does: RuleEntity -> Behaviour, i: nat)
    requires Distinct(rules) && i < |rules| && (forall j <- done :: j < |rules|)
    requires forall name :: ResultAt(before, after, rules, done, does, name)
    ensures var b := does(rules[i]);
            var after' := if b.Ran? && b.flag then after[rules[i].ruleName := b.v] else after;
            forall name :: ResultAt(before, after', rules, done + {i}, does, name)
  {
    var b := does(rules[i]);
    var after' := if b.Ran? && b.flag then after[rules[i].ruleName := b.v] else after;
    forall name ensures ResultAt(before, after', rules, done + {i}, does, name) {
      assert ResultAt(before, after, rules, done, does, name);
      if Flagged(rules, does, i, name) {
        assert i in done + {i};
      }
    }
  }

  function FirstRules(n: nat): (r: set<nat>)
    ensures forall i :: i in r <==> 0 <= i < n
  {
    if n == 0 then {} else FirstRules(n - 1) + {n - 1}
  }

  lemma {:induction false} ContributionsAre(results: map<string, Value>, rules: seq<RuleEntity>, n: nat,
      does: RuleEntity -> Behaviour)
    requires Distinct(rules) && n <= |rules|
    ensures forall name :: ResultAt(results, Contributions(results, rules[..n], does), rules, FirstRules(n), does, name)
  {
    hide ResultAt;
    if n == 0 {
      NothingDone(results, rules, FirstRules(0), does);
    } else {
      ContributionsAre(results, rules, n - 1, does);
      ResultMore(results, Contributions(results, rules[..n - 1], does), rules, FirstRules(n - 1), does, n - 1);
      assert rules[..n][..n - 1] == rules[..n - 1] && rules[..n][n - 1] == rules[n - 1];
      assert FirstRules(n) == FirstRules(n - 1) + {n - 1};
    }
  }

  lemma NothingDone(results: map<string, Value>, rules: seq<RuleEntity>, done: set<nat>, does: RuleEntity -> Behaviour)
    requires done == {}
    ensures forall name :: ResultAt(results, results, rules, done, does, name)
  {
  }

  /** The rules of a group that have finished in t. */
  function DoneIn(t: seq<Event>, lo: nat): set<nat> {
    if t == [] then {}
    else
      var e := t[|t| - 1];
      DoneIn(t[..|t| - 1], lo) + if e.Finish? && e.at >= lo then {e.at - lo} else {}
  }

  lemma {:induction false} DoneIsFinished(t: seq<Event>, lo: nat, i: nat)
    ensures i in DoneIn(t, lo) <==> FinishedIn(t, lo + i)
  {
    hide FinishedIn;
    if t == [] {
      NoneFinished(lo + i);
    } else {
      DoneIsFinished(t[..|t| - 1], lo, i);
      FinishedSnoc(t[..|t| - 1], t[|t| - 1], lo + i);
      assert t == t[..|t| - 1] + [t[|t| - 1]];
    }
  }

  lemma NoneFinished(at: nat)
    ensures !FinishedIn([], at)
  {
  }

  lemma {:induction false} CollectIs(o: Oracle, results: map<string, Value>, t: seq<Event>, p: nat, lo: nat,
      rules: seq<RuleEntity>, does: RuleEntity -> Behaviour)
    requires Tidy(t, p, lo, rules) && Sourced(o, lo, rules, t) && Steady(o, does) && Distinct(rules)
    ensures forall i <- DoneIn(t, lo) :: i < |rules|
    ensures forall name :: ResultAt(results, Collect(results, t), rules, DoneIn(t, lo), does, name)
  {
    hide ResultAt, FinishedIn, Distinct, Tidy, Sourced;
    if t == [] {
      NothingDone(results, rules, DoneIn(t, lo), does);
    } else {
      var n := |t| - 1;
      var front, e := t[..n], t[n];
      assert t == front + [e];
      Front(o, t, p, lo, rules);
      CollectIs(o, results, front, p, lo, rules, does);
      if e.Finish? {
        LastFinish(o, t, p, lo, rules, does);
        ResultMore(results, Collect(results, front), rules, DoneIn(front, lo), does, e.at - lo);
        assert DoneIn(t, lo) == DoneIn(front, lo) + {e.at - lo};
      } else {
        assert DoneIn(t, lo) == DoneIn(front, lo);
      }
    }
  }

  lemma Front(o: Oracle, t: seq<Event>, p: nat, lo: nat, rules: seq<RuleEntity>)
    requires t != [] && Tidy(t, p, lo, rules) && Sourced(o, lo, rules, t)
    ensures Tidy(t[..|t| - 1], p, lo, rules) && Sourced(o, lo, rules, t[..|t| - 1])
  {
    hide Does, Started;
    StartedFront(t, p);
  }

  lemma StartedFront(t: seq<Event>, p: nat)
    requires t != [] && Started(t, p)
    ensures Started(t[..|t| - 1], p)
  {
    var front := t[..|t| - 1];
    forall k | 0 <= k < |front| && front[k].Finish? ensures Start(p, front[k].at) in front[..k] {
      assert front[k] == t[k] && front[..k] == t[..k];
    }
  }

  lemma LastFinish(o: Oracle, t: seq<Event>, p: nat, lo: nat, rules: seq<RuleEntity>, does: RuleEntity -> Behaviour)
    requires t != [] && Tidy(t, p, lo, rules) && Sourced(o, lo, rules, t) && Steady(o, does) && t[|t| - 1].Finish?
    ensures var e := t[|t| - 1];
            lo <= e.at < lo + |rules| && e.name == rules[e.at - lo].ruleName && e.b == does(rules[e.at - lo])
  {
    var e := t[|t| - 1];
    assert Does(o, rules[e.at - lo], e.b);
    var tick: nat :| DoesAt(o, rules[e.at - lo], e.b, tick);
  }

  /**
   Without cancellation, and for rules of distinct names that do the same whenever they are executed,
   the result map after a group is the same for every schedule: the one before, with what each rule
   contributes.
   */
  lemma ResultsIndependentOfSchedule(o: Oracle, p: nat, lo: nat, rules: seq<RuleEntity>, log: Log,
      does: RuleEntity -> Behaviour)
    requires Steady(o, does) && NeverCancelled(o) && Distinct(rules)
    ensures RunRules(o, p, lo, rules, log).0.results == Contributions(log.results, rules, does)
  {
    hide RunRules, ResultAt, FinishedIn, Tidy, Sourced, Distinct, Collect, Contributions;
    var t := RunObeys(o, p, lo, rules, log);
    CollectIs(o, log.results, t, p, lo, rules, does);
    forall i: nat ensures i in DoneIn(t, lo) <==> i in FirstRules(|rules|) {
      DoneIsFinished(t, lo, i);
    }
    assert DoneIn(t, lo) == FirstRules(|rules|);
    ContributionsAre(log.results, rules, |rules|, does);
    assert rules[..|rules|] == rules;
    ResultUnique(log.results, Collect(log.results, t), Contributions(log.results, rules, does), rules, FirstRules(|rules|), does);
  }

  /**
   Without cancellation every rule of a group runs exactly once, whatever fails or panics, and the
   errors are exactly the failures.
   */
  lemma RunExactlyOnce(o: Oracle, p: nat, lo: nat, rules: seq<RuleEntity>, log: Log, at: nat)
    requires NeverCancelled(o) && lo <= at < lo + |rules|
    ensures var (log', errs) := RunRules(o, p, lo, rules, log);
            && log.trace <= log'.trace
            && var t := log'.trace[|log.trace|..];
               && Cancelled !in errs
               && (exists k | 0 <= k < |t| :: t[k].Finish? && t[k].at == at && forall j | 0 <= j < |t| && t[j].Finish? && t[j].at == at :: j == k)
               && multiset(errs)[Failure(at)] == if FailsAt(t, at) then 1 else 0
  {
    hide RunRules, FailsAt, Collect, Tidy, Whole, Sourced;
    var t := RunObeys(o, p, lo, rules, log);
    var (log', errs) := RunRules(o, p, lo, rules, log);
    assert log'.trace[|log.trace|..] == t;
    assert FinishedIn(t, at);
    FinishedOnce(t, p, lo, rules, at);
    CountFailure(errs, at);
  }

  lemma FinishedOnce(t: seq<Event>, p: nat, lo: nat, rules: seq<RuleEntity>, at: nat)
    requires Tidy(t, p, lo, rules) && FinishedIn(t, at)
    ensures exists k | 0 <= k < |t| :: t[k].Finish? && t[k].at == at && forall j | 0 <= j < |t| && t[j].Finish? && t[j].at == at :: j == k
  {
    var k :| 0 <= k < |t| && t[k].Finish? && t[k].at == at;
    forall j | 0 <= j < |t| && t[j].Finish? && t[j].at == at ensures j == k {
      NotTwice(t, p, lo, rules, j, k);
    }
  }

  lemma NotTwice(t: seq<Event>, p: nat, lo: nat, rules: seq<RuleEntity>, j: nat, k: nat)
    requires Tidy(t, p, lo, rules) && j < |t| && k < |t| && t[j].Finish? && t[k].Finish? && t[j].at == t[k].at
    ensures j == k
  {
  }

  lemma {:induction false} CountFailure(errs: seq<Entry>, at: nat)
    requires forall i, j | 0 <= i < j < |errs| && errs[i].Failure? :: errs[i] != errs[j]
    ensures multiset(errs)[Failure(at)] == if Failure(at) in errs then 1 else 0
  {
    if errs != [] {
      var front := errs[..|errs| - 1];
      assert errs == front + [errs[|errs| - 1]];
      CountFailure(front, at);
    }
  }

  // ---------- Single steps ----------

  /** Any goroutine or the launcher, if it has something left to do, can be the next to move. */
  lemma AnyActorCanMove(o: Oracle, g: Group, a: nat) returns (n: nat, j: nat)
    requires a <= |g.threads| && Enabled(g, a)
    ensures j < n && (o.pick(g.log.tick) % n == j ==> Pick(o, g) == Some(a))
  {
    var actors := Actors(g, |g.threads| + 1);
    n := |actors|;
    j :| 0 <= j < n && actors[j] == a;
  }

  /**
   One step adds at most one event. A rule is launched, and a rule starts, only while the context is not
   cancelled; a rule that has started comes to its end even if it is.
   */
  lemma StepAdds(o: Oracle, p: nat, lo: nat, rules: seq<RuleEntity>, g: Group, a: nat)
    requires |g.threads| == |rules| && Enabled(g, a)
    ensures var g', cancelled := Step(o, p, lo, rules, g, a), o.cancelled(g.log.tick);
            && g'.log.tick == g.log.tick + 1
            && (a == |rules| ==> g'.log.trace == g.log.trace && (g'.next > g.next <==> !cancelled))
            && (a < |rules| && g.threads[a] == Launched ==>
                  g'.log.trace == g.log.trace + (if cancelled then [] else [Start(p, lo + a)]) && g'.errs == g.errs)
            && (a < |rules| && g.threads[a] == Running ==>
                  var b := o.behave(rules[a], g.log.tick);
                  && g'.log.trace == g.log.trace + [Finish(p, lo + a, rules[a].ruleName, b)]
                  && g'.errs == g.errs + if b.Panics? || b.failed then [Failure(lo + a)] else [])
  {
  }
}
