/**
 The steps of module Snapshot that stand for whole stretches of the rule index's code do what that code
 does: what the methods of module RuleBuilder promise is what the steps allow.
 */
module UpdateSteps {
  import opened Ast
  import opened RuleOrder
  import opened GoSlice
  import opened RuleBuilder
  import opened Snapshot

  /** One round of the incremental loop is a step `MergeOne`. */
  method MergeRound(kc: KnowledgeContext, entities: Registry, rules: Slice<RuleEntity>, v: RuleEntity, ghost names: set<string>)
    returns (newRules: Slice<RuleEntity>)
    requires GoSlice.Valid(rules) && Indexed(entities, Elems(rules), kc.sortRulesIndexMap) && v.ruleName in names
    modifies rules.arr, kc`sortRulesIndexMap
    ensures GoSlice.Valid(newRules) && (newRules.arr == rules.arr || fresh(newRules.arr))
    ensures Merges(entities, v.ruleName, v, Elems(newRules), kc.sortRulesIndexMap, newRules.arr == rules.arr)
  {
    newRules := UpdateOne(kc, entities, rules, v, names);
  }

  /** Sorting a registry gives what the steps that build a context take. */
  method SortRound(m: Registry) returns (rules: Slice<RuleEntity>, index: map<string, nat>)
    requires Keyed(m)
    ensures GoSlice.Valid(rules) && fresh(rules.arr) && Sorts(Elems(rules), index, m)
  {
    rules, index := SortRegistry(m);
  }

  /**
   While an incremental update merges, the working copy meets what a round asks for, and whatever a round
   may leave, with the rules not named in their old order, is an enabled step that keeps the invariant.
   */
  lemma RoundIsStep(s: State, name: string, arr: nat, cells: seq<RuleEntity>, list: seq<RuleEntity>, index: map<string, nat>)
    requires Inv(s) && s.updater.Merging? && name in s.updater.todo
    requires list <= cells && (arr == s.updater.work.arr || (arr !in s.arrays && name !in s.updater.entities))
    requires name in s.updater.parsed ==>
               Joined(Window(s.arrays, s.updater.work), list, s.updater.entities, s.updater.parsed[name], s.updater.parsed.Keys)
    requires Inverts(index, list)
    ensures s.main.Some? && s.main.value in s.contexts && name in s.updater.parsed && s.updater.parsed[name].ruleName == name
    ensures Indexed(s.updater.entities, Window(s.arrays, s.updater.work), s.contexts[s.main.value].index)
    ensures Enabled(s, MergeOne(name, arr, cells, |list|, index)) && Inv(Apply(s, MergeOne(name, arr, cells, |list|, index)))
  {
    MergingKeyed(s);
    assert cells[..|list|] == list;
    var a := MergeOne(name, arr, cells, |list|, index);
    assert Enabled(s, a) by {
      hide Arranges, Inverts, Heap, Executions, Causes, Outside;
    }
    hide Inv, Enabled, Apply;
    StepInv(s, a);
  }

  lemma MergingKeyed(s: State)
    requires Inv(s) && s.updater.Merging?
    ensures s.main.Some? && s.main.value in s.contexts
    ensures Keyed(s.updater.entities) && Keyed(s.updater.parsed) && s.updater.todo <= s.updater.parsed.Keys
    ensures Indexed(s.updater.entities, Window(s.arrays, s.updater.work), s.contexts[s.main.value].index)
  {
    hide Arranges, Inverts, Heap, Executions, Emptying;
  }

  /**
   Which version a step puts in force: a full update that of the text it was begun with, an incremental
   update the last one overridden by its text, a removal the last one without its names, a clear none.
   No other step puts one in force, and what an update was begun with stays until then.
   */
  lemma Publishes(s: State, a: Action)
    requires Reachable(s) && Enabled(s, a)
    ensures var s', u := Apply(s, a), s.updater;
            && (match a
                case SetMain(_) => s'.versions == s.versions + [Version(u.ctx.entities, FullUpdate)]
                case PutSorted =>
                  s.versions != [] && s'.versions == s.versions + [Version(Overridden(s.versions[Last(s)].rules, u.parsed), IncrementalUpdate)]
                case RemoveMain(_, _, _, _) =>
                  s.versions != [] && s'.versions == s.versions + [Version(s.versions[Last(s)].rules - u.names, Removal(u.names))]
                case BeginClear => s'.versions == s.versions + [Version(map[], Cleared)]
                case _ => s'.versions == s.versions)
            && (a.BeginFull? ==> s'.updater.Built? && s'.updater.ctx.entities == a.parsed)
            && (a.BeginIncremental? ==> s'.updater.Merging? && s'.updater.parsed == a.parsed)
            && (a.MergeOne? ==> s'.updater.Merging? && s'.updater.parsed == u.parsed)
            && (a.PutEntities? ==> s'.updater.Storing? && s'.updater.parsed == u.parsed)
            && (a.BeginRemove? ==> s'.updater.RemovingMain? && s'.updater.names == a.names)
  {
    PhaseHas(s);
    hide Sorts, Merges, Keyed, AfterRead, StableSort, Reachable;
  }

  lemma PhaseHas(s: State)
    requires Reachable(s)
    ensures s.versions != []
    ensures s.updater.Storing? ==>
              s.main.Some? && s.main.value in s.contexts && s.contexts[s.main.value].entities == s.versions[Last(s)].rules + s.updater.parsed
    ensures s.updater.RemovingMain? ==>
              s.main.Some? && s.main.value in s.contexts && s.contexts[s.main.value].entities == s.versions[Last(s)].rules
  {
    ReachableInv(s);
    hide Arranges, Inverts, Heap, Executions, Emptying;
  }

  // ---------- Nothing gets stuck ----------

  lemma {:induction false} Splits(s: seq<RuleEntity>, salience: int) returns (p: nat)
    requires Descending(s)
    ensures SplitsAt(s, p, salience)
  {
    if s == [] {
      p := 0;
    } else if s[|s| - 1].salience >= salience {
      p := |s|;
    } else {
      var n := |s| - 1;
      p := Splits(s[..n], salience);
      assert forall i | p <= i < n :: s[..n][i] == s[i];
    }
  }

  /** Every registry can be sorted. */
  lemma {:induction false} Sortable(m: Registry) returns (list: seq<RuleEntity>, index: map<string, nat>)
    requires Keyed(m)
    ensures Sorts(list, index, m)
    decreases m.Keys
  {
    list := [];
    if m != map[] {
      var k :| k in m;
      var rest, _ := Sortable(m - {k});
      var p := Splits(rest, m[k].salience);
      InsertArranges(rest, m - {k}, p, m[k]);
      list := InsertAt(rest, p, m[k]);
      assert (m - {k})[k := m[k]] == m;
    }
    index := Numbered(list);
  }

  /** The positions of the rules of a list without repetition. */
  lemma {:induction false} Numbered(list: seq<RuleEntity>) returns (index: map<string, nat>)
    requires DistinctNames(list)
    ensures Inverts(index, list)
  {
    index := map[];
    if list != [] {
      var n := |list| - 1;
      var front := Numbered(list[..n]);
      index := front[list[n].ruleName := n];
      forall i | 0 <= i < |list| ensures list[i].ruleName in index && index[list[i].ruleName] == i {
        if i < n {
          assert list[..n][i] == list[i];
        }
      }
      forall k | k in index ensures index[k] < |list| && list[index[k]].ruleName == k {
        if k != list[n].ruleName {
          assert k in front && list[..n][front[k]] == list[front[k]];
        }
      }
    }
  }

  /** There is always an address that is not in use. */
  lemma {:induction false} Unused(used: set<nat>) returns (n: nat)
    ensures forall k | k in used :: k < n
  {
    n := 0;
    if used != {} {
      var k :| k in used;
      var m := Unused(used - {k});
      n := if k < m then m else k + 1;
      assert forall j | j in used :: j == k || j in used - {k};
    }
  }

  lemma Allocated(s: State) returns (arr: nat, kc: nat)
    ensures arr !in s.arrays && kc !in s.contexts
  {
    arr := Unused(s.arrays.Keys);
    kc := Unused(s.contexts.Keys);
  }

  /** A pool at rest can be updated in full by any rules, cleared, and, unless cleared, updated incrementally and thinned out. */
  lemma UpdatesBegin(s: State, parsed: Registry, names: set<string>) returns (full: Action, incremental: Action)
    requires Reachable(s) && s.updater.Unlocked? && Keyed(parsed) && parsed != map[] && names != {}
    ensures full.BeginFull? && full.parsed == parsed && Enabled(s, full)
    ensures Enabled(s, BeginClear)
    ensures incremental.BeginIncremental? && incremental.parsed == parsed
    ensures !s.clear ==> Enabled(s, incremental) && Enabled(s, BeginRemove(names))
  {
    MainUnlessCleared(s);
    var list, index := Sortable(parsed);
    var arr, kc := Allocated(s);
    full, incremental := BeginFull(parsed, arr, list, index), BeginIncremental(parsed, arr);
    hide *;
    BeginsFull(s, parsed, arr, list, index);
    BeginsOthers(s, parsed, arr, names);
  }

  lemma BeginsFull(s: State, parsed: Registry, arr: nat, list: seq<RuleEntity>, index: map<string, nat>)
    requires s.updater.Unlocked? && Keyed(parsed) && parsed != map[] && arr !in s.arrays && Sorts(list, index, parsed)
    ensures Enabled(s, BeginFull(parsed, arr, list, index))
  {
    hide Sorts, Keyed;
  }

  lemma BeginsOthers(s: State, parsed: Registry, arr: nat, names: set<string>)
    requires s.updater.Unlocked? && Keyed(parsed) && parsed != map[] && arr !in s.arrays && names != {}
    ensures Enabled(s, BeginClear)
    ensures s.main.Some? && s.main.value in s.contexts ==> Enabled(s, BeginIncremental(parsed, arr)) && Enabled(s, BeginRemove(names))
  {
    hide Keyed;
  }

  lemma MainUnlessCleared(s: State)
    requires Reachable(s) && s.updater.Unlocked?
    ensures !s.clear ==> s.main.Some? && s.main.value in s.contexts
  {
    ReachableInv(s);
    hide Arranges, Inverts, ContextOk, Executions, Emptying;
  }

  lemma MergeMoves(s: State, name: string, list: seq<RuleEntity>, index: map<string, nat>)
    requires s.updater.Merging? && name in s.updater.todo && name in s.updater.parsed && s.main.Some? && s.main.value in s.contexts
    requires Sorts(list, index, s.updater.entities[name := s.updater.parsed[name]])
    ensures Enabled(s, MergeOne(name, s.updater.work.arr, list, |list|, index))
  {
    hide Sorts;
    assert list[..|list|] == list;
  }

  lemma RemoveMoves(s: State, kc: nat, arr: nat, list: seq<RuleEntity>, index: map<string, nat>)
    requires kc !in s.contexts && arr !in s.arrays
    ensures (&& s.updater.RemovingMain? && s.main.Some? && s.main.value in s.contexts
             && Sorts(list, index, s.contexts[s.main.value].entities - s.updater.names)) ==>
              Enabled(s, RemoveMain(kc, arr, list, index))
    ensures (&& s.updater.Removing? && s.updater.next < |s.workers| && s.workers[s.updater.next] in s.contexts
             && Sorts(list, index, s.contexts[s.workers[s.updater.next]].entities - s.updater.names)) ==>
              Enabled(s, RemoveNext(kc, arr, list, index))
  {
    hide Sorts;
  }

  lemma ShareMoves(s: State, kc: nat)
    requires kc !in s.contexts
    ensures s.updater.Built? ==> Enabled(s, SetMain(kc))
    ensures s.updater.Merging? && s.updater.todo == {} && s.main.Some? && s.main.value in s.contexts ==> Enabled(s, PutEntities)
    ensures s.updater.Storing? && s.main.Some? && s.main.value in s.contexts ==> Enabled(s, PutSorted)
    ensures s.updater.Sharing? && s.main.Some? && s.updater.next <= |s.workers| ==>
              Enabled(s, if s.updater.next < |s.workers| then ShareNext else EndShare)
    ensures s.updater.Removing? && s.updater.next == |s.workers| ==> Enabled(s, EndRemove)
  {
  }

  /** The next step of a clear. */
  function ClearStep(next: nat, fields: nat, workers: nat, arr: nat): Action {
    if fields == 1 then ClearSorted(arr) else if fields == 2 then ClearIndex else if next < workers then ClearEntities else EndClear
  }

  lemma ClearMoves(s: State, arr: nat)
    requires arr !in s.arrays && forall w | 0 <= w < |s.workers| :: s.workers[w] in s.contexts
    ensures s.updater.Closing? ==> Enabled(s, SetClear)
    ensures s.updater.Clearing? && s.updater.next <= |s.workers| && s.updater.fields <= 2 && (s.updater.fields > 0 ==> s.updater.next < |s.workers|) ==>
              Enabled(s, ClearStep(s.updater.next, s.updater.fields, |s.workers|, arr))
  {
  }

  /** An update under way can always make its next step. */
  lemma UpdaterMoves(s: State) returns (a: Action)
    requires Reachable(s) && !s.updater.Unlocked?
    ensures !OfExecution(a) && Enabled(s, a)
  {
    PhaseFacts(s);
    hide Reachable, Sorts, Keyed, Enabled;
    var arr, kc := Allocated(s);
    ShareMoves(s, kc);
    ClearMoves(s, arr);
    var u := s.updater;
    match u
    case Built(_) => a := SetMain(kc);
    case Merging(parsed, todo, entities, work) =>
      if todo == {} {
        a := PutEntities;
      } else {
        var name :| name in todo;
        var list, index := Sortable(entities[name := parsed[name]]);
        MergeMoves(s, name, list, index);
        a := MergeOne(name, work.arr, list, |list|, index);
      }
    case Storing(_, _) => a := PutSorted;
    case Sharing(next) => a := if next < |s.workers| then ShareNext else EndShare;
    case RemovingMain(names) =>
      var list, index := Sortable(s.contexts[s.main.value].entities - names);
      RemoveMoves(s, kc, arr, list, index);
      a := RemoveMain(kc, arr, list, index);
    case Removing(names, next) =>
      if next < |s.workers| {
        var list, index := Sortable(s.contexts[s.workers[next]].entities - names);
        RemoveMoves(s, kc, arr, list, index);
        a := RemoveNext(kc, arr, list, index);
      } else {
        a := EndRemove;
      }
    case Closing => a := SetClear;
    case Clearing(next, fields) => a := ClearStep(next, fields, |s.workers|, arr);
  }

  lemma PhaseFacts(s: State)
    requires Reachable(s)
    ensures forall w | 0 <= w < |s.workers| :: s.workers[w] in s.contexts
    ensures var u := s.updater;
            match u
            case Merging(parsed, todo, entities, _) =>
              && s.main.Some? && s.main.value in s.contexts && todo <= parsed.Keys
              && forall name | name in todo :: Keyed(entities[name := parsed[name]])
            case Storing(_, _) => s.main.Some? && s.main.value in s.contexts
            case Sharing(next) => s.main.Some? && next <= |s.workers|
            case RemovingMain(names) => s.main.Some? && s.main.value in s.contexts && Keyed(s.contexts[s.main.value].entities - names)
            case Removing(names, next) =>
              next <= |s.workers| && (next < |s.workers| ==> Keyed(s.contexts[s.workers[next]].entities - names))
            case Clearing(next, fields) => next <= |s.workers| && fields <= 2 && (fields > 0 ==> next < |s.workers|)
            case _ => true
  {
    ReachableInv(s);
    if s.updater.Merging? {
      MergingKeyed(s);
    }
    hide Arranges, Inverts, ContextOk, Executions, Emptying, Reached;
  }

  /** What an execution needs for its next step. */
  ghost predicate CanGoOn(s: State, e: Execution) {
    && (e.Entered? || e.Measured? || e.Gathering? ==> e.w < |s.workers| && s.workers[e.w] in s.contexts)
    && (e.Measuring? || e.Fetching? ==> e.kc in s.contexts && e.kc in s.stamp)
    && (e.Gathering? ==> InArrays(s.arrays, e.list))
  }

  lemma ExecutionReady(s: State, t: nat)
    requires Reachable(s) && t < |s.executions|
    ensures CanGoOn(s, s.executions[t])
  {
    ReachableInv(s);
    assert ExecutionOk(s, s.executions[t]) && Heap(s);
    hide Phase, Executions, Arranges, Causes, Reachable, ContextOk, Reached;
  }

  lemma ExecutionEnabled(s: State, a: Action)
    requires OfExecution(a) && a.t < |s.executions| && EnabledExecution(s, a, s.executions[a.t])
    ensures Enabled(s, a)
  {
  }

  /** An execution under way can always make its next step. */
  lemma ExecutionMoves(s: State, t: nat) returns (a: Action)
    requires Reachable(s) && t < |s.executions| && !s.executions[t].Ready?
    ensures OfExecution(a) && a.t == t && Enabled(s, a)
  {
    ExecutionReady(s, t);
    hide Reachable, Enabled;
    var e := s.executions[t];
    match e {
      case Entered(_, _) => a := LoadForLength(t);
      case Measuring(_, _, _) => a := LoadLength(t);
      case Measured(_, _, _) => a := LoadAgain(t);
      case Fetching(_, _, _, _) => a := LoadList(t);
      case Gathering(_, _, _, rest, _) => a := if rest == [] then EndGather(t, false) else GatherOne(t);
      case _ => a := Leave(t);
    }
    ExecutionEnabled(s, a);
  }
}
