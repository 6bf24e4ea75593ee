/**
 Event traces of an execution. A mode lays its rules out in a plan of phases, each serial or
 concurrent; `Follows` says when a trace is one the plan allows, and `PlanOrder` what that means:
 phases do not overlap, serial phases keep the resolved order, and no position runs twice.
 */
module Traces {
  import opened Values
  import opened Ast

  /** What one execution of a rule comes to: a value, whether it returned an error, the return flag; or a panic. */
  datatype Behaviour = Ran(v: Value, failed: bool, flag: bool) | Panics

  predicate Fails(b: Behaviour) {
    b.Panics? || b.failed
  }

  /** `at` is the position of the rule in the mode's window. */
  datatype Event =
    | Start(phase: nat, at: nat)
    | Finish(phase: nat, at: nat, name: string, b: Behaviour)

  datatype Entry = Failure(at: nat) | Cancelled

  // ---------- Results and errors of a trace ----------

  /** The result map after a stretch of events: a rule that finishes with the flag set adds its value. */
  function Collect(results: map<string, Value>, t: seq<Event>): map<string, Value> {
    if t == [] then results
    else
      var r := Collect(results, t[..|t| - 1]);
      var e := t[|t| - 1];
      if e.Finish? && e.b.Ran? && e.b.flag then r[e.name := e.b.v] else r
  }

  lemma {:induction false} CollectConcat(results: map<string, Value>, a: seq<Event>, b: seq<Event>)
    ensures Collect(results, a + b) == Collect(Collect(results, a), b)
    decreases |b|
  {
    if b == [] {
      assert a + b == a;
    } else {
      assert (a + b)[..|a + b| - 1] == a + b[..|b| - 1];
      CollectConcat(results, a, b[..|b| - 1]);
    }
  }

  ghost predicate FailsAt(t: seq<Event>, at: nat) {
    exists k | 0 <= k < |t| :: t[k].Finish? && t[k].at == at && Fails(t[k].b)
  }

  /** The error list has exactly one entry for every position whose rule failed. */
  ghost predicate Reports(t: seq<Event>, errors: seq<Entry>) {
    && (forall at: nat :: Failure(at) in errors <==> FailsAt(t, at))
    && (forall i, j | 0 <= i < j < |errors| && errors[i].Failure? :: errors[i] != errors[j])
  }

  // ---------- Plans ----------

  datatype Phase = Phase(rules: seq<RuleEntity>, serial: bool)

  /** All rules of a plan, in the order of their positions. */
  function Window(plan: seq<Phase>): seq<RuleEntity> {
    if plan == [] then [] else plan[0].rules + Window(plan[1..])
  }

  /** The events are those of phase p, of its own positions, under the names of its rules. */
  ghost predicate Ranged(t: seq<Event>, p: nat, lo: nat, rules: seq<RuleEntity>) {
    && (forall k | 0 <= k < |t| :: t[k].phase == p && lo <= t[k].at < lo + |rules|)
    && (forall k | 0 <= k < |t| && t[k].Finish? :: lo <= t[k].at < lo + |rules| && t[k].name == rules[t[k].at - lo].ruleName)
  }

  /** Two events of one position are a start and then a finish. */
  ghost predicate Paired(t: seq<Event>) {
    forall j, k | 0 <= j < k < |t| && t[j].at == t[k].at :: t[j].Start? && t[k].Finish?
  }

  /** Whatever has finished was started before. */
  ghost predicate Started(t: seq<Event>, p: nat) {
    forall k | 0 <= k < |t| && t[k].Finish? :: Start(p, t[k].at) in t[..k]
  }

  /** The events of phase p are those of its own positions, each started and then finished at most once. */
  ghost predicate Tidy(t: seq<Event>, p: nat, lo: nat, rules: seq<RuleEntity>) {
    Ranged(t, p, lo, rules) && Paired(t) && Started(t, p)
  }

  ghost predicate FinishedIn(t: seq<Event>, at: nat) {
    exists k | 0 <= k < |t| :: t[k].Finish? && t[k].at == at
  }

  /** Whatever was started has finished. */
  ghost predicate Whole(t: seq<Event>) {
    forall j | 0 <= j < |t| :: FinishedIn(t, t[j].at)
  }

  /** Positions one after another, each finished before the next is started. */
  ghost predicate Serially(t: seq<Event>, lo: nat) {
    forall k | 0 <= k < |t| :: t[k].at == lo + k / 2 && (t[k].Start? <==> k % 2 == 0)
  }

  ghost predicate PhaseTrace(ph: Phase, p: nat, lo: nat, t: seq<Event>) {
    Tidy(t, p, lo, ph.rules) && Whole(t) && (ph.serial ==> Serially(t, lo))
  }

  /** The trace splits into one stretch per phase. */
  ghost predicate Follows(plan: seq<Phase>, p: nat, lo: nat, t: seq<Event>) {
    if plan == [] then t == []
    else
      exists k | 0 <= k <= |t| ::
        PhaseTrace(plan[0], p, lo, t[..k]) && Follows(plan[1..], p + 1, lo + |plan[0].rules|, t[k..])
  }

  ghost predicate AllRun(t: seq<Event>, lo: nat, hi: nat) {
    forall at: nat | lo <= at < hi :: FinishedIn(t, at)
  }

  /** Everything the modes promise about the events and errors of a stretch of phases. */
  ghost predicate Obeys(plan: seq<Phase>, p: nat, lo: nat, t: seq<Event>, errors: seq<Entry>, whole: bool) {
    Follows(plan, p, lo, t) && Reports(t, errors) && (whole ==> AllRun(t, lo, lo + |Window(plan)|))
  }

  // ---------- Composition ----------

  lemma FollowsCons(ph: Phase, rest: seq<Phase>, p: nat, lo: nat, t0: seq<Event>, t1: seq<Event>)
    requires PhaseTrace(ph, p, lo, t0) && Follows(rest, p + 1, lo + |ph.rules|, t1)
    ensures Follows([ph] + rest, p, lo, t0 + t1)
  {
    hide PhaseTrace;
    assert ([ph] + rest)[1..] == rest;
    assert (t0 + t1)[..|t0|] == t0 && (t0 + t1)[|t0|..] == t1;
  }

  lemma FailsConcat(t0: seq<Event>, t1: seq<Event>, at: nat)
    ensures FailsAt(t0 + t1, at) <==> FailsAt(t0, at) || FailsAt(t1, at)
  {
    var t := t0 + t1;
    if FailsAt(t0, at) {
      var k :| 0 <= k < |t0| && t0[k].Finish? && t0[k].at == at && Fails(t0[k].b);
      assert t[k] == t0[k];
    }
    if FailsAt(t1, at) {
      var k :| 0 <= k < |t1| && t1[k].Finish? && t1[k].at == at && Fails(t1[k].b);
      assert t[|t0| + k] == t1[k];
    }
  }

  lemma FinishedConcat(t0: seq<Event>, t1: seq<Event>, at: nat)
    ensures FinishedIn(t0, at) || FinishedIn(t1, at) ==> FinishedIn(t0 + t1, at)
  {
    var t := t0 + t1;
    if FinishedIn(t0, at) {
      var k :| 0 <= k < |t0| && t0[k].Finish? && t0[k].at == at;
      assert t[k] == t0[k];
    }
    if FinishedIn(t1, at) {
      var k :| 0 <= k < |t1| && t1[k].Finish? && t1[k].at == at;
      assert t[|t0| + k] == t1[k];
    }
  }

  /** Error lists of disjoint stretches of positions concatenate. */
  lemma ReportsConcat(t0: seq<Event>, e0: seq<Entry>, t1: seq<Event>, e1: seq<Entry>)
    requires Reports(t0, e0) && Reports(t1, e1)
    requires forall at: nat :: !(FailsAt(t0, at) && FailsAt(t1, at))
    ensures Reports(t0 + t1, e0 + e1)
  {
    hide FailsAt;
    forall at: nat ensures Failure(at) in e0 + e1 <==> FailsAt(t0 + t1, at) {
      FailsConcat(t0, t1, at);
    }
    var e := e0 + e1;
    forall i, j | 0 <= i < j < |e| && e[i].Failure? ensures e[i] != e[j] {
      if i < |e0| <= j {
        assert e[i] == Failure(e[i].at) && e[i] in e0 && FailsAt(t0, e[i].at);
        assert e[j] in e1;
      }
    }
  }

  lemma PhaseFacts(ph: Phase, p: nat, lo: nat, t: seq<Event>)
    requires PhaseTrace(ph, p, lo, t)
    ensures forall k | 0 <= k < |t| :: t[k].phase == p && lo <= t[k].at < lo + |ph.rules| && FinishedIn(t, t[k].at)
  {
  }

  lemma {:induction false} FollowsRange(plan: seq<Phase>, p: nat, lo: nat, t: seq<Event>)
    requires Follows(plan, p, lo, t)
    ensures forall k | 0 <= k < |t| :: t[k].phase >= p && lo <= t[k].at < lo + |Window(plan)|
    decreases plan
  {
    hide PhaseTrace;
    if plan != [] {
      var m :| 0 <= m <= |t| && PhaseTrace(plan[0], p, lo, t[..m]) && Follows(plan[1..], p + 1, lo + |plan[0].rules|, t[m..]);
      PhaseFacts(plan[0], p, lo, t[..m]);
      FollowsRange(plan[1..], p + 1, lo + |plan[0].rules|, t[m..]);
      forall k | 0 <= k < |t| ensures t[k].phase >= p && lo <= t[k].at < lo + |Window(plan)| {
        if k < m {
          assert t[..m][k] == t[k];
        } else {
          assert t[m..][k - m] == t[k];
        }
      }
    }
  }

  lemma NotBoth(ph: Phase, rest: seq<Phase>, p: nat, lo: nat, t0: seq<Event>, t1: seq<Event>, at: nat)
    requires PhaseTrace(ph, p, lo, t0) && Follows(rest, p + 1, lo + |ph.rules|, t1)
    ensures !(FailsAt(t0, at) && FailsAt(t1, at))
  {
    hide Follows;
    FollowsRange(rest, p + 1, lo + |ph.rules|, t1);
  }

  /** One phase before a stretch of others. */
  lemma ObeysCons(ph: Phase, rest: seq<Phase>, p: nat, lo: nat, t0: seq<Event>, e0: seq<Entry>, t1: seq<Event>,
      e1: seq<Entry>, whole: bool)
    requires PhaseTrace(ph, p, lo, t0) && Reports(t0, e0) && (whole ==> AllRun(t0, lo, lo + |ph.rules|))
    requires Obeys(rest, p + 1, lo + |ph.rules|, t1, e1, whole)
    ensures Obeys([ph] + rest, p, lo, t0 + t1, e0 + e1, whole)
  {
    hide PhaseTrace, Follows, Reports, FailsAt, FinishedIn;
    FollowsCons(ph, rest, p, lo, t0, t1);
    forall at: nat ensures !(FailsAt(t0, at) && FailsAt(t1, at)) {
      NotBoth(ph, rest, p, lo, t0, t1, at);
    }
    ReportsConcat(t0, e0, t1, e1);
    assert ([ph] + rest)[1..] == rest;
    if whole {
      forall at: nat | lo <= at < lo + |Window([ph] + rest)| ensures FinishedIn(t0 + t1, at) {
        FinishedConcat(t0, t1, at);
      }
    }
  }

  /** A run that stops before the rest of its plan. */
  lemma {:induction false} ObeysNothing(plan: seq<Phase>, p: nat, lo: nat)
    ensures Obeys(plan, p, lo, [], [], plan == [])
  {
    EmptyFollows(plan, p, lo);
  }

  lemma {:induction false} EmptyFollows(plan: seq<Phase>, p: nat, lo: nat)
    ensures Follows(plan, p, lo, [])
  {
    if plan != [] {
      EmptyFollows(plan[1..], p + 1, lo + |plan[0].rules|);
      var t: seq<Event> := [];
      assert t[..0] == t && t[0..] == t;
    }
  }

  /** One phase alone. */
  lemma ObeysOne(ph: Phase, p: nat, lo: nat, t: seq<Event>, e: seq<Entry>, whole: bool)
    requires PhaseTrace(ph, p, lo, t) && Reports(t, e) && (whole ==> AllRun(t, lo, lo + |ph.rules|))
    ensures Obeys([ph], p, lo, t, e, whole)
  {
    hide PhaseTrace, Reports, AllRun, Obeys;
    assert Obeys([], p + 1, lo + |ph.rules|, [], [], whole) by {
      NothingObeys(p + 1, lo + |ph.rules|, whole);
    }
    ObeysCons(ph, [], p, lo, t, e, [], [], whole);
    assert [ph] + [] == [ph] && t + [] == t && e + [] == e;
  }

  lemma NothingObeys(p: nat, lo: nat, whole: bool)
    ensures Obeys([], p, lo, [], [], whole)
  {
  }

  // ---------- What following a plan means ----------

  ghost predicate InOrder(plan: seq<Phase>, p: nat, t: seq<Event>, j: nat, k: nat)
    requires j < k < |t|
  {
    // Phases come one after another, and all of a phase has finished before the next one starts.
    && t[j].phase <= t[k].phase
    && (t[j].phase < t[k].phase ==> FinishedIn(t[..k], t[j].at))
    // No position runs twice.
    && (t[j].at == t[k].at ==> t[j].Start? && t[k].Finish?)
    // In a serial phase a rule finishes before one further down the resolved order starts.
    && (t[j].phase == t[k].phase && SerialAt(plan, p, t[j].phase) ==>
          t[j].at <= t[k].at && (t[k].Start? ==> t[j].at < t[k].at && FinishedIn(t[..k], t[j].at)))
  }

  predicate SerialAt(plan: seq<Phase>, p: nat, phase: nat) {
    p <= phase < p + |plan| && plan[phase - p].serial
  }

  lemma PhaseOrder(ph: Phase, p: nat, lo: nat, t: seq<Event>, j: nat, k: nat)
    requires PhaseTrace(ph, p, lo, t) && j < k < |t|
    ensures InOrder([ph], p, t, j, k)
  {
    if ph.serial && t[k].Start? {
      var f := if t[j].Start? then j + 1 else j;
      assert t[..k][f] == t[f];
    }
  }

  lemma FinishedPrefix(t: seq<Event>, m: nat, k: nat, at: nat)
    requires m <= k <= |t| && FinishedIn(t[..m], at)
    ensures FinishedIn(t[..k], at)
  {
    var f :| 0 <= f < |t[..m]| && t[..m][f].Finish? && t[..m][f].at == at;
    assert t[..k][f] == t[..m][f];
  }

  /** The split of a trace that follows a plan. */
  lemma {:induction false} PlanOrder(plan: seq<Phase>, p: nat, lo: nat, t: seq<Event>, j: nat, k: nat)
    requires Follows(plan, p, lo, t) && j < k < |t|
    ensures InOrder(plan, p, t, j, k)
    decreases plan
  {
    hide PhaseTrace, FinishedIn;
    if plan != [] {
      var lo' := lo + |plan[0].rules|;
      var m :| 0 <= m <= |t| && PhaseTrace(plan[0], p, lo, t[..m]) && Follows(plan[1..], p + 1, lo', t[m..]);
      PhaseFacts(plan[0], p, lo, t[..m]);
      FollowsRange(plan[1..], p + 1, lo', t[m..]);
      if k < m {
        assert t[..m][j] == t[j] && t[..m][k] == t[k] && t[..m][..k] == t[..k];
        PhaseOrder(plan[0], p, lo, t[..m], j, k);
      } else if j < m {
        assert t[..m][j] == t[j] && t[m..][k - m] == t[k];
        FinishedPrefix(t, m, k, t[j].at);
      } else {
        assert t[m..][j - m] == t[j] && t[m..][k - m] == t[k];
        PlanOrder(plan[1..], p + 1, lo', t[m..], j - m, k - m);
        if FinishedIn(t[m..][..k - m], t[j].at) {
          assert t[..m] + t[m..][..k - m] == t[..k];
          FinishedConcat(t[..m], t[m..][..k - m], t[j].at);
        }
      }
    }
  }
}
