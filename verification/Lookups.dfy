/**
 Executions with selected names, and layered ones, look each name up in the registry of the moment. The
 rules they work on may come from different versions, but each of them is the rule of its name in some
 version in force when the execution entered or later, and a name is only missed if some such version
 does not have it.
 */
module Lookups {
  import opened Values
  import opened Ast
  import opened RuleOrder
  import opened Snapshot

  /** The versions put in force; an incremental update puts its registry in force before its list. */
  function InForce(s: State): seq<Version> {
    s.versions +
    if s.updater.Storing? && s.main.Some? && s.main.value in s.contexts
    then [Version(s.contexts[s.main.value].entities, IncrementalUpdate)] else []
  }

  ghost predicate OfVersion(vs: seq<Version>, since: int, rules: Registry) {
    exists v: nat :: since <= v < |vs| && vs[v].rules == rules
  }

  /** Every worker's registry is that of a version an execution entering now may meet. */
  ghost predicate WorkersCurrent(s: State) {
    forall w | 0 <= w < |s.workers| :: s.workers[w] in s.contexts && OfVersion(InForce(s), Oldest(s), s.contexts[s.workers[w]].entities)
  }

  /** The rule is that of its name in some version from `since` on. */
  ghost predicate RuleOf(vs: seq<Version>, since: int, r: RuleEntity) {
    exists v: nat :: since <= v < |vs| && r.ruleName in vs[v].rules && vs[v].rules[r.ruleName] == r
  }

  /** Some version from `since` on has no rule of that name. */
  ghost predicate MissingIn(vs: seq<Version>, since: int, name: string) {
    exists v: nat :: since <= v < |vs| && name !in vs[v].rules
  }

  ghost predicate Named(list: seq<RuleEntity>, name: string) {
    exists r :: r in list && r.ruleName == name
  }

  /** What looking up the names in `done` has given. */
  ghost predicate LookedUp(vs: seq<Version>, since: int, done: seq<string>, list: seq<RuleEntity>) {
    && (forall r | r in list :: r.ruleName in done && RuleOf(vs, since, r))
    && (forall name | name in done :: Named(list, name) || MissingIn(vs, since, name))
  }

  /** The names an execution has looked up so far. */
  function Done(e: Execution): seq<string> {
    if e.Gathering? && |e.rest| <= |e.names| then e.names[..|e.names| - |e.rest|]
    else if e.Selected? then e.names
    else []
  }

  /** The rules come in the order of the names they were found under, some names having none. */
  ghost predicate InOrder(list: seq<RuleEntity>, names: seq<string>) {
    if names == [] then list == []
    else
      || InOrder(list, names[..|names| - 1])
      || (list != [] && list[|list| - 1].ruleName == names[|names| - 1] && InOrder(list[..|list| - 1], names[..|names| - 1]))
  }

  /** The final list: in the order of the names, or stably sorted by descending salience. */
  ghost predicate Arranged(list: seq<RuleEntity>, names: seq<string>, bySalience: bool) {
    exists found :: InOrder(found, names) && list == if bySalience then StableSort(found) else found
  }

  ghost predicate Gathered(s: State, e: Execution) {
    && (e.Gathering? ==> |e.rest| <= |e.names| && e.rest == e.names[|e.names| - |e.rest|..])
    && (e.Gathering? || e.Selected? ==> LookedUp(InForce(s), e.since, Done(e), Window(s.arrays, e.list)))
    && (e.Gathering? ==> InOrder(Window(s.arrays, e.list), Done(e)))
    && (e.Selected? ==> Arranged(Window(s.arrays, e.list), e.names, e.bySalience))
  }

  ghost predicate Sound(s: State) {
    Inv(s) && WorkersCurrent(s) && forall t | 0 <= t < |s.executions| :: Gathered(s, s.executions[t])
  }

  // ---------- Updates ----------

  /** At rest, and while rules are being removed, the phase itself says which version each worker has. */
  lemma CurrentByPhase(s: State)
    requires Inv(s)
    requires s.updater.Unlocked? || s.updater.RemovingMain? || s.updater.Built? || s.updater.Removing?
    ensures WorkersCurrent(s)
  {
    hide Arranges, Inverts, Executions, ContextOk, Emptying;
    forall w | 0 <= w < |s.workers|
      ensures s.workers[w] in s.contexts && OfVersion(InForce(s), Oldest(s), s.contexts[s.workers[w]].entities)
    {
      var v: nat := if Has(s, s.workers[w], Last(s)) then Last(s) else Last(s) - 1;
      assert Complete(s, s.workers[w], Last(s)) || Has(s, s.workers[w], Last(s) - 1);
      assert InForce(s)[v] == s.versions[v];
    }
  }

  /** The workers' registries stay, or become that of the last version. */
  ghost predicate Changes(s: State, s': State) {
    && |s'.workers| == |s.workers| && Oldest(s') <= Oldest(s) && InForce(s') != [] && Oldest(s') < |InForce(s')|
    && (forall w | 0 <= w < |s.workers| && s.workers[w] in s.contexts :: s'.workers[w] in s'.contexts &&
          (s'.contexts[s'.workers[w]].entities == s.contexts[s.workers[w]].entities ||
           s'.contexts[s'.workers[w]].entities == InForce(s')[|InForce(s')| - 1].rules))
  }

  lemma CurrentChanged(s: State, s': State)
    requires WorkersCurrent(s) && Changes(s, s') && Extends(InForce(s), InForce(s'))
    ensures WorkersCurrent(s')
  {
    hide InForce, Oldest;
    forall w | 0 <= w < |s'.workers|
      ensures s'.workers[w] in s'.contexts && OfVersion(InForce(s'), Oldest(s'), s'.contexts[s'.workers[w]].entities)
    {
      assert OfVersion(InForce(s), Oldest(s), s.contexts[s.workers[w]].entities);
      var last: nat := |InForce(s')| - 1;
      assert InForce(s')[last] == InForce(s')[last];
    }
  }

  /** An update only adds versions. */
  lemma InForceGrows(s: State, a: Action)
    requires Heap(s) && Enabled(s, a) && !OfExecution(a)
    ensures Extends(InForce(s), InForce(Apply(s, a)))
  {
    hide ContextOk, Sorts, Merges;
  }

  lemma MainSetChanges(s: State, kc: nat)
    requires Heap(s) && s.versions != [] && s.updater.Built? && kc !in s.contexts
    ensures Changes(s, MainSet(s, kc))
  {
  }

  lemma NextSharedChanges(s: State)
    requires s.versions != [] && s.updater.Sharing? && SharingOk(s) && s.updater.next < |s.workers|
    ensures Changes(s, NextShared(s))
  {
    hide Inverts, Window, Stamped;
  }

  lemma CopiedChanges(s: State, parsed: Registry, arr: nat)
    requires s.versions != [] && s.updater.Unlocked? && s.main.Some? && s.main.value in s.contexts
    ensures Changes(s, Copied(s, parsed, arr))
  {
    hide Window;
  }

  lemma OneMergedChanges(s: State, name: string, arr: nat, cells: seq<RuleEntity>, len: nat, index: map<string, nat>)
    requires s.versions != [] && s.updater.Merging? && name in s.updater.parsed && s.main.Some? && s.main.value in s.contexts
    ensures Changes(s, OneMerged(s, name, arr, cells, len, index))
  {
  }

  lemma EntitiesPutChanges(s: State)
    requires s.versions != [] && s.updater.Merging? && s.main.Some? && s.main.value in s.contexts
    ensures Changes(s, EntitiesPut(s))
  {
  }

  lemma SortedPutChanges(s: State)
    requires s.versions != [] && s.updater.Storing? && s.main.Some? && s.main.value in s.contexts
    ensures Changes(s, SortedPut(s))
  {
  }

  lemma ClearChanges(s: State, a: Action)
    requires Heap(s) && s.versions != [] && Enabled(s, a) && (a.BeginClear? || a.SetClear?)
    ensures Changes(s, Apply(s, a))
  {
    hide ContextOk;
  }

  lemma ClearingChanges(s: State, a: Action)
    requires Heap(s) && s.versions != [] && s.updater.Clearing? && s.versions[Last(s)].rules == map[]
    requires Enabled(s, a) && (a.ClearEntities? || a.ClearSorted? || a.ClearIndex?)
    ensures Changes(s, Apply(s, a))
  {
    hide ContextOk;
  }

  /** The steps after which the phase says nothing of the workers' registries. */
  predicate Changing(a: Action) {
    a.SetMain? || a.ShareNext? || a.BeginIncremental? || a.MergeOne? || a.PutEntities? || a.PutSorted? || ClearingStep(a)
  }

  predicate ClearingStep(a: Action) {
    a.BeginClear? || a.SetClear? || a.ClearEntities? || a.ClearSorted? || a.ClearIndex?
  }

  lemma Resting(s: State, a: Action)
    requires Enabled(s, a) && !OfExecution(a) && !Changing(a)
    ensures var u := Apply(s, a).updater; u.Unlocked? || u.RemovingMain? || u.Built? || u.Removing?
  {
  }

  lemma ClearingStepChanges(s: State, a: Action)
    requires Inv(s) && Enabled(s, a) && ClearingStep(a)
    ensures Changes(s, Apply(s, a))
  {
    assert s.updater.Clearing? ==> ClearingOk(s);
    hide Changes, Inv, Apply;
    assert Heap(s) && s.versions != [] by { BaseOf(s); }
    if a.BeginClear? || a.SetClear? {
      ClearChanges(s, a);
    } else {
      ClearingChanges(s, a);
    }
  }

  lemma BaseOf(s: State)
    requires Inv(s)
    ensures Heap(s) && s.versions != [] && (s.updater.Sharing? ==> SharingOk(s))
  {
  }

  lemma StepChanges(s: State, a: Action)
    requires Inv(s) && Enabled(s, a) && Changing(a) && !ClearingStep(a)
    ensures Changes(s, Apply(s, a))
  {
    BaseOf(s);
    hide Inv, Changes, Heap, Sorts, Merges, Keyed, MainSet, NextShared, Copied, OneMerged, EntitiesPut, SortedPut;
    if a.SetMain? {
      MainSetChanges(s, a.kc);
    } else if a.ShareNext? {
      NextSharedChanges(s);
    } else if a.BeginIncremental? {
      CopiedChanges(s, a.parsed, a.arr);
    } else if a.MergeOne? {
      OneMergedChanges(s, a.name, a.arr, a.cells, a.len, a.index);
    } else if a.PutEntities? {
      EntitiesPutChanges(s);
    } else {
      SortedPutChanges(s);
    }
  }

  lemma CurrentStep(s: State, a: Action)
    requires Inv(s) && WorkersCurrent(s) && Enabled(s, a) && !OfExecution(a)
    ensures WorkersCurrent(Apply(s, a)) && Extends(InForce(s), InForce(Apply(s, a)))
  {
    BaseOf(s);
    InForceGrows(s, a);
    StepInv(s, a);
    var s' := Apply(s, a);
    hide Inv, Enabled, Apply, Extends, InForce, WorkersCurrent, Changes, Heap;
    if !Changing(a) {
      Resting(s, a);
      CurrentByPhase(s');
    } else if ClearingStep(a) {
      ClearingStepChanges(s, a);
      CurrentChanged(s, s');
    } else {
      StepChanges(s, a);
      CurrentChanged(s, s');
    }
  }

  // ---------- What has been looked up ----------

  /** More versions do not invalidate what was looked up. */
  lemma LookedUpGrows(vs: seq<Version>, vs': seq<Version>, since: int, done: seq<string>, list: seq<RuleEntity>)
    requires LookedUp(vs, since, done, list) && Extends(vs, vs')
    ensures LookedUp(vs', since, done, list)
  {
    forall r | r in list ensures RuleOf(vs', since, r) {
      var v: nat :| since <= v < |vs| && r.ruleName in vs[v].rules && vs[v].rules[r.ruleName] == r;
      assert vs'[v] == vs[v];
    }
    forall name | name in done ensures Named(list, name) || MissingIn(vs', since, name) {
      if !Named(list, name) {
        var v: nat :| since <= v < |vs| && name !in vs[v].rules;
        assert vs'[v] == vs[v];
      }
    }
  }

  lemma GatheredKept(s: State, s': State, e: Execution)
    requires Gathered(s, e) && Extends(InForce(s), InForce(s'))
    requires e.Gathering? || e.Selected? ==> Window(s'.arrays, e.list) == Window(s.arrays, e.list)
    ensures Gathered(s', e)
  {
    hide LookedUp, InForce, Window, Arranged;
    if e.Gathering? || e.Selected? {
      LookedUpGrows(InForce(s), InForce(s'), e.since, Done(e), Window(s.arrays, e.list));
    }
  }

  /** A name that the registry of the moment has. */
  lemma FoundOne(vs: seq<Version>, since: int, done: seq<string>, list: seq<RuleEntity>, entities: Registry, name: string)
    requires LookedUp(vs, since, done, list) && OfVersion(vs, since, entities) && Keyed(entities) && name in entities
    ensures LookedUp(vs, since, done + [name], list + [entities[name]])
  {
    var r, list' := entities[name], list + [entities[name]];
    var v: nat :| since <= v < |vs| && vs[v].rules == entities;
    assert RuleOf(vs, since, r);
    assert r in list' && r.ruleName == name;
    forall n | n in done + [name] ensures Named(list', n) || MissingIn(vs, since, n) {
      if n != name && Named(list, n) {
        var q :| q in list && q.ruleName == n;
        assert q in list';
      }
    }
  }

  /** A name that it does not have. */
  lemma MissedOne(vs: seq<Version>, since: int, done: seq<string>, list: seq<RuleEntity>, entities: Registry, name: string)
    requires LookedUp(vs, since, done, list) && OfVersion(vs, since, entities) && name !in entities
    ensures LookedUp(vs, since, done + [name], list)
  {
    var v: nat :| since <= v < |vs| && vs[v].rules == entities;
    assert MissingIn(vs, since, name);
  }

  lemma Reordered(vs: seq<Version>, since: int, done: seq<string>, list: seq<RuleEntity>, list': seq<RuleEntity>)
    requires LookedUp(vs, since, done, list) && multiset(list) == multiset(list')
    ensures LookedUp(vs, since, done, list')
  {
    assert forall r :: r in list <==> r in multiset(list);
    assert forall r :: r in list' <==> r in multiset(list');
    forall name | name in done && Named(list, name) ensures Named(list', name) {
      var r :| r in list && r.ruleName == name;
      assert r in list';
    }
  }

  /** The registry of a worker is that of a version, and keyed by name. */
  lemma WorkerRegistry(s: State, w: nat, since: int)
    requires Inv(s) && WorkersCurrent(s) && w < |s.workers| && since <= Oldest(s)
    ensures s.workers[w] in s.contexts && OfVersion(InForce(s), since, s.contexts[s.workers[w]].entities)
    ensures Keyed(s.contexts[s.workers[w]].entities)
  {
    var vs, entities := InForce(s), s.contexts[s.workers[w]].entities;
    InForceKeyed(s);
    hide Inv, InForce, Keyed;
    var v: nat :| Oldest(s) <= v < |vs| && vs[v].rules == entities;
  }

  lemma InForceKeyed(s: State)
    requires Inv(s)
    ensures forall v | 0 <= v < |InForce(s)| :: Keyed(InForce(s)[v].rules)
  {
    hide Heap, Executions, Arranges, Inverts, Emptying;
    if s.updater.Storing? {
      JoinedKeyed(s.versions, s.updater.parsed);
    }
  }

  // ---------- Every step ----------

  lemma UpdateSound(s: State, a: Action)
    requires Sound(s) && Enabled(s, a) && !OfExecution(a)
    ensures Sound(Apply(s, a))
  {
    var s' := Apply(s, a);
    CurrentStep(s, a);
    StepInv(s, a);
    UpdateStep(s, a);
    assert s'.executions == s.executions;
    forall t | 0 <= t < |s.executions| ensures Gathered(s', s.executions[t]) {
      WindowKept(s, s', t);
      hide Inv, Enabled, Apply, Grows, WorkersCurrent;
      GatheredKept(s, s', s.executions[t]);
    }
  }

  lemma WindowKept(s: State, s': State, t: nat)
    requires Inv(s) && Grows(s, s') && t < |s.executions|
    ensures var e := s.executions[t];
            e.Gathering? || e.Selected? ==> Window(s'.arrays, e.list) == Window(s.arrays, e.list)
  {
    hide Arranges, Phase, Heap, StampsGrow;
    assert ExecutionOk(s, s.executions[t]);
  }

  lemma OwnWindow(s: State, s': State, t: nat, u: nat)
    requires Inv(s) && t < |s.executions| && OwnStep(s, s', t) && u < |s.executions| && u != t
    ensures var e := s.executions[u];
            && |s'.executions| == |s.executions| && s'.executions[u] == e
            && (e.Gathering? || e.Selected? ==> Window(s'.arrays, e.list) == Window(s.arrays, e.list))
  {
    DistinctOwn(s, t, u);
    hide Heap, Phase, Causes, Arranges;
    assert ExecutionOk(s, s.executions[u]);
  }

  lemma SameInForce(s: State, s': State)
    requires OnlyOwn(s, s')
    ensures InForce(s') == InForce(s)
  {
  }

  lemma OtherGathered(s: State, s': State, t: nat, u: nat)
    requires Sound(s) && t < |s.executions| && OwnStep(s, s', t) && u < |s.executions| && u != t
    ensures u < |s'.executions| && Gathered(s', s'.executions[u])
  {
    OwnWindow(s, s', t, u);
    SameInForce(s, s');
    hide Inv, WorkersCurrent, Gathered, InForce, Window, OnlyOwn;
    GatheredKept(s, s', s.executions[u]);
  }

  lemma OwnReading(s: State, a: Action)
    requires Enabled(s, a) && Reading(a)
    ensures a.t < |s.executions| && a.t < |Apply(s, a).executions| && Gathered(Apply(s, a), Apply(s, a).executions[a.t])
  {
    hide LookedUp, InForce, Window;
  }

  lemma OwnSelect(s: State, a: Action)
    requires Enabled(s, a) && a.Select?
    ensures a.t < |s.executions| && a.t < |Apply(s, a).executions| && Gathered(Apply(s, a), Apply(s, a).executions[a.t])
  {
    hide InForce;
    var e' := Apply(s, a).executions[a.t];
    assert Done(e') == [] && e'.names[|e'.names| - |e'.rest|..] == e'.rest;
    assert Window(Apply(s, a).arrays, e'.list) == [];
  }

  /** The first name of the rest is looked up; the names done grow by it. */
  lemma DoneNext(e: Execution, e': Execution)
    requires e.Gathering? && e.rest != [] && |e.rest| <= |e.names| && e.rest == e.names[|e.names| - |e.rest|..]
    requires e'.Gathering? && e'.names == e.names && e'.rest == e.rest[1..]
    ensures |e'.rest| <= |e'.names| && e'.rest == e'.names[|e'.names| - |e'.rest|..] && Done(e') == Done(e) + [e.rest[0]]
  {
    assert e.names[|e.names| - |e.rest|] == e.rest[0];
  }

  /** What the step does to the execution and its list. */
  lemma GatherEffect(s: State, a: Action)
    requires Enabled(s, a) && a.GatherOne?
    ensures a.t < |s.executions| && a.t < |Apply(s, a).executions| && InForce(Apply(s, a)) == InForce(s)
    ensures var s', e := Apply(s, a), s.executions[a.t];
            var e' := s'.executions[a.t];
            && e.Gathering? && e.rest != [] && e.w < |s.workers| && s.workers[e.w] in s.contexts
            && e'.Gathering? && e'.names == e.names && e'.rest == e.rest[1..] && e'.since == e.since
            && var entities, list := s.contexts[s.workers[e.w]].entities, Window(s.arrays, e.list);
               Window(s'.arrays, e'.list) == if e.rest[0] in entities then list + [entities[e.rest[0]]] else list
  {
    var e := s.executions[a.t];
    var entities, list := s.contexts[s.workers[e.w]].entities, Window(s.arrays, e.list);
    if e.rest[0] in entities {
      assert (list + [entities[e.rest[0]]])[..e.list.len + 1] == list + [entities[e.rest[0]]];
    }
  }

  lemma OwnGather(s: State, a: Action)
    requires Sound(s) && Enabled(s, a) && a.GatherOne?
    ensures a.t < |s.executions| && a.t < |Apply(s, a).executions| && Gathered(Apply(s, a), Apply(s, a).executions[a.t])
  {
    GatherEffect(s, a);
    var s', e := Apply(s, a), s.executions[a.t];
    hide Enabled, Apply, InForce, WorkersCurrent, LookedUp, OfVersion, Window;
    SinceOldest(s, a.t);
    WorkerRegistry(s, e.w, e.since);
    hide Inv;
    assert Gathered(s, e);
    var entities, name, list := s.contexts[s.workers[e.w]].entities, e.rest[0], Window(s.arrays, e.list);
    NextInOrder(list, Done(e), entities, name);
    DoneNext(e, s'.executions[a.t]);
    if name in entities {
      FoundOne(InForce(s), e.since, Done(e), list, entities, name);
    } else {
      MissedOne(InForce(s), e.since, Done(e), list, entities, name);
    }
  }

  lemma NextInOrder(list: seq<RuleEntity>, done: seq<string>, entities: Registry, name: string)
    requires InOrder(list, done) && Keyed(entities)
    ensures InOrder(list, done + [name])
    ensures name in entities ==> InOrder(list + [entities[name]], done + [name])
  {
    assert (done + [name])[..|done + [name]| - 1] == done;
    if name in entities {
      assert (list + [entities[name]])[..|list + [entities[name]]| - 1] == list;
    }
  }

  lemma SinceOldest(s: State, t: nat)
    requires Inv(s) && t < |s.executions| && s.executions[t].Gathering?
    ensures s.executions[t].since <= Oldest(s)
  {
    hide Heap, Phase, Causes, OwnList, Oldest;
    assert ExecutionOk(s, s.executions[t]);
  }

  lemma OwnEnd(s: State, a: Action)
    requires Sound(s) && Enabled(s, a) && a.EndGather?
    ensures a.t < |s.executions| && a.t < |Apply(s, a).executions| && Gathered(Apply(s, a), Apply(s, a).executions[a.t])
  {
    var s', e := Apply(s, a), s.executions[a.t];
    assert Gathered(s, e) && InForce(s') == InForce(s);
    hide InForce, Inv, WorkersCurrent, LookedUp, StableSort;
    var list := Window(s.arrays, e.list);
    var rules := if a.sort then StableSort(list) else list;
    assert rules[..|rules|] == rules && e.names[..|e.names|] == e.names;
    Reordered(InForce(s), e.since, Done(e), list, rules);
  }

  lemma OwnGathered(s: State, a: Action)
    requires Sound(s) && Enabled(s, a) && OfExecution(a)
    ensures a.t < |s.executions| && a.t < |Apply(s, a).executions| && Gathered(Apply(s, a), Apply(s, a).executions[a.t])
  {
    hide Sound, Gathered, Apply;
    if a.Select? {
      OwnSelect(s, a);
    } else if a.GatherOne? {
      OwnGather(s, a);
    } else if a.EndGather? {
      OwnEnd(s, a);
    } else {
      OwnReading(s, a);
    }
  }

  lemma CurrentSame(s: State, s': State)
    requires WorkersCurrent(s) && OnlyOwn(s, s')
    ensures WorkersCurrent(s')
  {
    assert InForce(s') == InForce(s) && Oldest(s') == Oldest(s);
    hide InForce, Oldest, OfVersion;
  }

  lemma OwnLength(s: State, s': State, t: nat)
    requires t < |s.executions| && OwnStep(s, s', t)
    ensures |s'.executions| == |s.executions|
  {
  }

  lemma ExecutionSound(s: State, a: Action)
    requires Sound(s) && Enabled(s, a) && OfExecution(a)
    ensures Sound(Apply(s, a))
  {
    hide Enabled, Apply, Gathered, Inv, WorkersCurrent, OnlyOwn, OwnStep;
    ExecutionStep(s, a);
    OwnGathered(s, a);
    var s', t := Apply(s, a), a.t;
    CurrentSame(s, s');
    OwnLength(s, s', t);
    forall u | 0 <= u < |s'.executions| ensures Gathered(s', s'.executions[u]) {
      if u != t {
        OtherGathered(s, s', t, u);
      }
    }
  }

  lemma {:induction false} RunSound(s: State, run: seq<Action>)
    requires Sound(s) && Legal(s, run)
    ensures Sound(After(s, run))
    decreases |run|
  {
    hide Sound, Enabled, Apply;
    if run != [] {
      if OfExecution(run[0]) {
        ExecutionSound(s, run[0]);
      } else {
        UpdateSound(s, run[0]);
      }
      RunSound(Apply(s, run[0]), run[1..]);
    }
  }

  lemma FreshSound(s: State)
    requires Fresh(s)
    ensures Sound(s)
  {
    hide Arranges, Inverts, Keyed, Inv;
    var rules, list, index, workers: nat, executions: nat :|
      Keyed(rules) && Sorts(list, index, rules) && s == Init(rules, list, index, workers, executions);
    InitInv(rules, list, index, workers, executions);
    assert InForce(s)[0].rules == rules;
  }

  lemma ReachableSound(s: State)
    requires Reachable(s)
    ensures Sound(s)
  {
    hide Sound, Legal, After, Fresh;
    var start, run :| Fresh(start) && Legal(start, run) && s == After(start, run);
    FreshSound(start);
    RunSound(start, run);
  }

  /**
   Whatever updates run beside it: every rule an execution has looked up is, under a name it was asked
   for, that of a version in force when it entered or later, and a name it looked up without success is
   missing in such a version. The rules come in the order of the names, or stably sorted. If no version
   has come into force since, the list is that of this one.
   */
  lemma RulesOfVersions(s: State, t: nat)
    requires Reachable(s) && t < |s.executions| && (s.executions[t].Gathering? || s.executions[t].Selected?)
    ensures var e := s.executions[t];
            var vs, list := InForce(s), Window(s.arrays, e.list);
            && LookedUp(vs, e.since, Done(e), list) && e.since < |vs|
            && (e.Gathering? ==> InOrder(list, Done(e))) && (e.Selected? ==> Arranged(list, e.names, e.bySalience))
            && (0 <= e.since == |vs| - 1 ==>
                  && (forall r | r in list :: r.ruleName in vs[e.since].rules && vs[e.since].rules[r.ruleName] == r)
                  && (forall name | name in Done(e) :: Named(list, name) <==> name in vs[e.since].rules))
  {
    ReachableSound(s);
    var e := s.executions[t];
    assert Gathered(s, e) && ExecutionOk(s, e) && Oldest(s) < |InForce(s)|;
    hide Inv, WorkersCurrent, InForce, Window, ExecutionOk, Oldest;
    var vs, list := InForce(s), Window(s.arrays, e.list);
    if 0 <= e.since == |vs| - 1 {
      LatestOnly(vs, e.since, Done(e), list);
    }
  }

  lemma LatestOnly(vs: seq<Version>, since: nat, done: seq<string>, list: seq<RuleEntity>)
    requires LookedUp(vs, since, done, list) && since == |vs| - 1
    ensures forall r | r in list :: r.ruleName in vs[since].rules && vs[since].rules[r.ruleName] == r
    ensures forall name | name in done :: Named(list, name) <==> name in vs[since].rules
  {
    forall r | r in list ensures r.ruleName in vs[since].rules && vs[since].rules[r.ruleName] == r {
      assert RuleOf(vs, since, r);
    }
    forall name | name in done ensures Named(list, name) <==> name in vs[since].rules {
      if Named(list, name) {
        var r :| r in list && r.ruleName == name;
        assert RuleOf(vs, since, r);
      } else {
        assert MissingIn(vs, since, name);
      }
    }
  }

  // ---------- Two versions in one execution ----------

  lemma OneStep(s: State, a: Action, s': State)
    requires Enabled(s, a) && Apply(s, a) == s'
    ensures Legal(s, [a]) && After(s, [a]) == s'
  {
    hide Enabled, Apply;
    assert [a][1..] == [];
  }

  /** The pool once its first worker has the second version, with one execution that stands at e. */
  function Updated(start: State, arrays: Arrays, parsed: Registry, list: seq<RuleEntity>, index: map<string, nat>, e: Execution): State
    requires start.workers != []
  {
    start.(arrays := arrays[2 := list], contexts := start.contexts[1 := Context(parsed, Header(2, |list|), index)], main := Some(1),
           workers := start.workers[0 := 1], updater := Sharing(1), executions := [e],
           versions := start.versions + [Version(parsed, FullUpdate)], stamp := start.stamp[1 := 1], frozen := start.frozen + {2})
  }

  /** The pool before the update, its one execution having found the given rules. */
  function Asked(start: State, list: seq<RuleEntity>, found: seq<RuleEntity>, e: Execution): State {
    Alone(start, e).(arrays := map[0 := list, 1 := found])
  }

  lemma SelectTwo(start: State, rules: Registry, list: seq<RuleEntity>, index: map<string, nat>, workers: nat, a: string, b: string)
    requires workers >= 2 && start == Init(rules, list, index, workers, 1)
    ensures var s1, s2 := Alone(start, Entered(0, 0)), Asked(start, list, [], Gathering(0, 0, [a, b], [a, b], Header(1, 0)));
            && Enabled(start, Enter(0, 0)) && Apply(start, Enter(0, 0)) == s1
            && Enabled(s1, Select(0, [a, b], 1)) && Apply(s1, Select(0, [a, b], 1)) == s2
  {
    var s1 := Alone(start, Entered(0, 0));
    assert s1.arrays[1 := []] == map[0 := list, 1 := []];
  }

  lemma GatherFirst(start: State, rules: Registry, list: seq<RuleEntity>, index: map<string, nat>, workers: nat, a: string, b: string)
    requires workers >= 2 && start == Init(rules, list, index, workers, 1) && a in rules
    ensures var s2 := Asked(start, list, [], Gathering(0, 0, [a, b], [a, b], Header(1, 0)));
            var s3 := Asked(start, list, [rules[a]], Gathering(0, 0, [a, b], [b], Header(1, 1)));
            Enabled(s2, GatherOne(0)) && Apply(s2, GatherOne(0)) == s3
  {
    var s2 := Asked(start, list, [], Gathering(0, 0, [a, b], [a, b], Header(1, 0)));
    assert Window(s2.arrays, Header(1, 0)) == [] && [] + [rules[a]] == [rules[a]] && [a, b][1..] == [b];
    assert s2.arrays[1 := [rules[a]]] == map[0 := list, 1 := [rules[a]]];
  }

  lemma FirstName(start: State, rules: Registry, list: seq<RuleEntity>, index: map<string, nat>, workers: nat, a: string, b: string)
    requires workers >= 2 && start == Init(rules, list, index, workers, 1) && a in rules
    ensures var run := [Enter(0, 0), Select(0, [a, b], 1), GatherOne(0)];
            Legal(start, run) && After(start, run) == Asked(start, list, [rules[a]], Gathering(0, 0, [a, b], [b], Header(1, 1)))
  {
    hide Enabled, Apply;
    SelectTwo(start, rules, list, index, workers, a, b);
    GatherFirst(start, rules, list, index, workers, a, b);
    ThreeSteps(start, Alone(start, Entered(0, 0)), Asked(start, list, [], Gathering(0, 0, [a, b], [a, b], Header(1, 0))),
               Asked(start, list, [rules[a]], Gathering(0, 0, [a, b], [b], Header(1, 1))), Enter(0, 0), Select(0, [a, b], 1), GatherOne(0));
  }

  lemma BuildStep(s: State, parsed: Registry, list: seq<RuleEntity>, index: map<string, nat>)
    requires s.updater.Unlocked? && 2 !in s.arrays && 1 !in s.contexts
    requires Keyed(parsed) && parsed != map[] && Sorts(list, index, parsed)
    ensures Enabled(s, BeginFull(parsed, 2, list, index)) && Apply(s, BeginFull(parsed, 2, list, index)) == FullBuilt(s, parsed, 2, list, index)
    ensures var s1 := FullBuilt(s, parsed, 2, list, index);
            Enabled(s1, SetMain(1)) && Apply(s1, SetMain(1)) == MainSet(s1, 1)
  {
    hide Sorts, Keyed;
  }

  lemma ShareStep(start: State, rules: Registry, list: seq<RuleEntity>, index: map<string, nat>, workers: nat, e: Execution,
      found: seq<RuleEntity>, parsed: Registry, list': seq<RuleEntity>, index': map<string, nat>)
    requires workers >= 2 && start == Init(rules, list, index, workers, 1)
    ensures var s2 := MainSet(FullBuilt(Asked(start, list, found, e), parsed, 2, list', index'), 1);
            && Enabled(s2, ShareNext)
            && Apply(s2, ShareNext) == Updated(start, map[0 := list, 1 := found], parsed, list', index', e)
  {
  }

  lemma UpdateBetween(start: State, rules: Registry, list: seq<RuleEntity>, index: map<string, nat>, workers: nat, e: Execution,
      found: seq<RuleEntity>, parsed: Registry, list': seq<RuleEntity>, index': map<string, nat>)
    requires workers >= 2 && start == Init(rules, list, index, workers, 1)
    requires Keyed(parsed) && parsed != map[] && Sorts(list', index', parsed)
    ensures var run := [BeginFull(parsed, 2, list', index'), SetMain(1), ShareNext];
            var s := Asked(start, list, found, e);
            Legal(s, run) && After(s, run) == Updated(start, map[0 := list, 1 := found], parsed, list', index', e)
  {
    var s := Asked(start, list, found, e);
    BuildStep(s, parsed, list', index');
    ShareStep(start, rules, list, index, workers, e, found, parsed, list', index');
    hide Enabled, Apply, Sorts, Keyed, Updated;
    var s1 := FullBuilt(s, parsed, 2, list', index');
    ThreeSteps(s, s1, MainSet(s1, 1), Updated(start, map[0 := list, 1 := found], parsed, list', index', e),
               BeginFull(parsed, 2, list', index'), SetMain(1), ShareNext);
  }

  lemma SecondName(start: State, list: seq<RuleEntity>, parsed: Registry, list': seq<RuleEntity>, index': map<string, nat>, r: RuleEntity,
      a: string, b: string)
    requires |start.workers| >= 2 && b in parsed
    ensures var s := Updated(start, map[0 := list, 1 := [r]], parsed, list', index', Gathering(0, 0, [a, b], [b], Header(1, 1)));
            var s' := Updated(start, map[0 := list, 1 := [r, parsed[b]]], parsed, list', index', Gathering(0, 0, [a, b], [], Header(1, 2)));
            Enabled(s, GatherOne(0)) && Apply(s, GatherOne(0)) == s'
  {
    var s := Updated(start, map[0 := list, 1 := [r]], parsed, list', index', Gathering(0, 0, [a, b], [b], Header(1, 1)));
    var s' := Updated(start, map[0 := list, 1 := [r, parsed[b]]], parsed, list', index', Gathering(0, 0, [a, b], [], Header(1, 2)));
    assert Window(s.arrays, Header(1, 1)) == [r] && [r] + [parsed[b]] == [r, parsed[b]] && [b][1..] == [];
    assert s.arrays[1 := [r, parsed[b]]] == s'.arrays;
  }

  lemma GatherEnds(start: State, list: seq<RuleEntity>, parsed: Registry, list': seq<RuleEntity>, index': map<string, nat>,
      found: seq<RuleEntity>, names: seq<string>)
    requires |start.workers| >= 2
    ensures var s := Updated(start, map[0 := list, 1 := found], parsed, list', index', Gathering(0, 0, names, [], Header(1, |found|)));
            var s' := Updated(start, map[0 := list, 1 := found], parsed, list', index', Selected(0, 0, names, false, Header(1, |found|), found));
            Enabled(s, EndGather(0, false)) && Apply(s, EndGather(0, false)) == s'
  {
    var s := Updated(start, map[0 := list, 1 := found], parsed, list', index', Gathering(0, 0, names, [], Header(1, |found|)));
    assert Window(s.arrays, Header(1, |found|)) == found && s.arrays[1 := found] == s.arrays;
  }

  lemma SecondHalf(start: State, list: seq<RuleEntity>, parsed: Registry, list': seq<RuleEntity>, index': map<string, nat>, r: RuleEntity,
      a: string, b: string)
    requires |start.workers| >= 2 && b in parsed
    ensures var s := Updated(start, map[0 := list, 1 := [r]], parsed, list', index', Gathering(0, 0, [a, b], [b], Header(1, 1)));
            var run := [GatherOne(0), EndGather(0, false)];
            Legal(s, run) && After(s, run).executions == [Selected(0, 0, [a, b], false, Header(1, 2), [r, parsed[b]])]
  {
    var found := [r, parsed[b]];
    var s7 := Updated(start, map[0 := list, 1 := found], parsed, list', index', Gathering(0, 0, [a, b], [], Header(1, 2)));
    var s8 := Updated(start, map[0 := list, 1 := found], parsed, list', index', Selected(0, 0, [a, b], false, Header(1, 2), found));
    assert s8.executions == [Selected(0, 0, [a, b], false, Header(1, 2), found)];
    hide Enabled, Apply, Updated;
    SecondName(start, list, parsed, list', index', r, a, b);
    GatherEnds(start, list, parsed, list', index', found, [a, b]);
    OneStep(s7, EndGather(0, false), s8);
    assert [GatherOne(0), EndGather(0, false)][1..] == [EndGather(0, false)];
  }

  /**
   And they may differ: in a pool of any rules, updated to any others while an execution looks up two
   names, the execution gets the old rule of the first name and the new rule of the second.
   */
  lemma TwoVersionsInOne(rules: Registry, list: seq<RuleEntity>, index: map<string, nat>, workers: nat, parsed: Registry,
      list': seq<RuleEntity>, index': map<string, nat>, a: string, b: string) returns (run: seq<Action>)
    requires workers >= 2 && Keyed(rules) && Sorts(list, index, rules) && Keyed(parsed) && Sorts(list', index', parsed)
    requires a in rules && b in parsed
    ensures Legal(Init(rules, list, index, workers, 1), run)
    ensures var s := After(Init(rules, list, index, workers, 1), run);
            |s.executions| == 1 && s.executions[0].Selected? && s.executions[0].snapshot == [rules[a], parsed[b]]
  {
    var start := Init(rules, list, index, workers, 1);
    var first, update, last :=
      [Enter(0, 0), Select(0, [a, b], 1), GatherOne(0)], [BeginFull(parsed, 2, list', index'), SetMain(1), ShareNext],
      [GatherOne(0), EndGather(0, false)];
    assert |start.workers| >= 2;
    hide Legal, After, Updated, Init, Sorts, Keyed, Asked;
    FirstName(start, rules, list, index, workers, a, b);
    UpdateBetween(start, rules, list, index, workers, Gathering(0, 0, [a, b], [b], Header(1, 1)), [rules[a]], parsed, list', index');
    SecondHalf(start, list, parsed, list', index', rules[a], a, b);
    LegalConcat(start, first, update);
    LegalConcat(start, first + update, last);
    run := first + update + last;
  }
}
