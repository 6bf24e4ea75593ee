/**
 The rule index of a builder: full build, incremental update, removal and lookup.

 Text is parsed elsewhere (module Listener); here a rule string has already become either a
 registry of parsed rules or a rejection. The iteration order of a Go map is a nondeterministic
 choice of the next key, so every contract below holds for all orders.
 */
module RuleBuilder {
  import opened Ast
  import opened RuleOrder
  import opened GoSlice

  /** What parsing a rule string gives: its rules by name, or an error. */
  datatype Parsed = Rules(rules: Registry) | Rejected

  // ---------- Searching and splicing the sorted slice ----------

  /**
   Binary search in a descending slice. The loop's own `mid` shadows the outer one, so a miss
   reports (low, 0). The two results are read as one position: mid unless it is 0, else low.
   */
  method BinarySearch(re: Slice<RuleEntity>, salience: int) returns (low: nat, mid: nat)
    requires GoSlice.Valid(re) && Descending(Elems(re))
    ensures SplitsAt(Elems(re), if mid == 0 then low else mid, salience)
    ensures mid != 0 ==> mid < re.len && Elems(re)[mid].salience == salience
    ensures mid == 0 && (exists i :: 0 <= i < re.len && Elems(re)[i].salience == salience) ==>
              low == 0 && Elems(re)[0].salience == salience
  {
    var lo, high := 0, re.len - 1;
    while lo <= high
      invariant 0 <= lo <= high + 1 <= re.len
      invariant forall i | 0 <= i < lo :: Elems(re)[i].salience > salience
      invariant forall i | high < i < re.len :: Elems(re)[i].salience < salience
    {
      var m := (lo + high) / 2;
      var at := Get(re, m);
      if at.salience == salience {
        return lo, m;
      }
      if at.salience < salience {
        high := m - 1;
      } else {
        lo := m + 1;
      }
    }
    return lo, 0;
  }

  /**
   Inserts v at position `at` by two appends. With room in the backing array the result is the
   same window, one longer; otherwise it is a new array and the old one is untouched.
   */
  method Splice(rules: Slice<RuleEntity>, at: nat, v: RuleEntity) returns (r: Slice<RuleEntity>)
    requires GoSlice.Valid(rules) && at <= rules.len
    modifies rules.arr
    ensures GoSlice.Valid(r) && Elems(r) == InsertAt(old(Elems(rules)), at, v)
    ensures rules.len < rules.cap ==> r == rules.(len := rules.len + 1)
    ensures rules.len == rules.cap ==> fresh(r.arr) && rules.arr[..] == old(rules.arr[..])
  {
    hide Elems;
    ghost var was := Elems(rules);
    CutElems(rules, at);
    var ire := FromSeq([v]);
    var newRe := Append(ire, From(rules, at));
    r := Append(Upto(rules, at), newRe);
    assert Elems(r) == was[..at] + ([v] + was[at..]);
    assert was[..at] + ([v] + was[at..]) == was[..at] + [v] + was[at..];
  }

  /** Inserts v where the search says, keeping the order. */
  method InsertSorted(rules: Slice<RuleEntity>, v: RuleEntity) returns (r: Slice<RuleEntity>, ghost p: nat)
    requires GoSlice.Valid(rules) && Descending(Elems(rules))
    modifies rules.arr
    ensures GoSlice.Valid(r) && SplitsAt(old(Elems(rules)), p, v.salience)
    ensures Elems(r) == InsertAt(old(Elems(rules)), p, v)
    ensures rules.len < rules.cap ==> r == rules.(len := rules.len + 1)
    ensures rules.len == rules.cap ==> fresh(r.arr) && rules.arr[..] == old(rules.arr[..])
  {
    var low, mid := BinarySearch(rules, v.salience);
    if mid == 0 {
      r := Splice(rules, low, v);
      p := low;
    } else {
      r := Splice(rules, mid, v);
      p := mid;
    }
  }

  /**
   The changed-salience branch. Both appends go to a variable that shadows the caller's slice, and
   nothing is returned: the caller sees the result because cutting one rule out and putting one
   back in never outgrows its own backing array and ends at its own length.
   */
  method Reposition(rules: Slice<RuleEntity>, index: nat, v: RuleEntity) returns (ghost p: nat)
    requires GoSlice.Valid(rules) && index < rules.len
    requires Descending(Elems(rules)) && DistinctNames(Elems(rules))
    modifies rules.arr
    ensures SplitsAt(RemoveAt(old(Elems(rules)), index), p, v.salience)
    ensures Elems(rules) == InsertAt(RemoveAt(old(Elems(rules)), index), p, v)
  {
    hide Elems;
    ghost var was := Elems(rules);
    RemoveOrder(was, index);
    CutElems(rules, index);
    CutElems(rules, index + 1);
    var inner := Append(Upto(rules, index), From(rules, index + 1));
    assert Elems(inner) == RemoveAt(was, index);
    inner, p := InsertSorted(inner, v);
    assert inner == rules;
  }

  /** Rebuilds the index map from the sorted slice. */
  method IndexOf(rules: Slice<RuleEntity>) returns (index: map<string, nat>)
    requires GoSlice.Valid(rules) && DistinctNames(Elems(rules))
    ensures Inverts(index, Elems(rules))
  {
    index := map[];
    for k := 0 to rules.len
      invariant Inverts(index, Elems(rules)[..k])
    {
      var v := Get(rules, k);
      index := index[v.ruleName := k];
      assert Elems(rules)[..k + 1] == Elems(rules)[..k] + [v];
    }
    assert Elems(rules)[..rules.len] == Elems(rules);
  }

  // ---------- The knowledge context ----------

  class KnowledgeContext {
    var ruleEntities: Registry
    var sortRules: Slice<RuleEntity>
    var sortRulesIndexMap: map<string, nat>

    ghost predicate Valid()
      reads this, sortRules.arr
    {
      && GoSlice.Valid(sortRules)
      && Indexed(ruleEntities, Elems(sortRules), sortRulesIndexMap)
    }

    /** The rules in execution order. */
    ghost function Order(): seq<RuleEntity>
      requires GoSlice.Valid(sortRules)
      reads this, sortRules.arr
    {
      Elems(sortRules)
    }

    constructor ()
      ensures Valid() && fresh(sortRules.arr)
      ensures ruleEntities == map[] && Order() == []
    {
      var none := FromSeq([]);
      ruleEntities, sortRules, sortRulesIndexMap := map[], none, map[];
    }

    method ClearRules()
      modifies this
      ensures Valid() && fresh(sortRules.arr)
      ensures ruleEntities == map[] && Order() == []
    {
      ruleEntities := map[];
      sortRules := FromSeq([]);
      sortRulesIndexMap := map[];
    }
  }

  /** Lists a registry in whatever order the map gives and sorts it: the full rebuild. */
  method SortRegistry(m: Registry) returns (rules: Slice<RuleEntity>, index: map<string, nat>)
    requires Keyed(m)
    ensures GoSlice.Valid(rules) && fresh(rules.arr)
    ensures Indexed(m, Elems(rules), index)
  {
    var listed: seq<RuleEntity> := [];
    var rest := m.Keys;
    while rest != {}
      invariant rest <= m.Keys
      invariant forall i | 0 <= i < |listed| ::
                  listed[i].ruleName in m.Keys - rest && m[listed[i].ruleName] == listed[i]
      invariant forall k | k in m.Keys - rest :: m[k] in listed
      invariant DistinctNames(listed)
      decreases rest
    {
      var k :| k in rest;
      ghost var before := listed;
      listed := listed + [m[k]];
      rest := rest - {k};
      assert m[k] == listed[|before|];
      assert forall v | v in before :: v in listed;
    }
    var sorted := if |listed| > 1 then StableSort(listed) else listed;
    SortedArranges(listed, sorted, m);
    rules := FromSeq(sorted);
    index := IndexOf(rules);
  }

  /** Sorting a list of a registry's rules arranges the registry. */
  lemma SortedArranges(listed: seq<RuleEntity>, sorted: seq<RuleEntity>, m: Registry)
    requires DistinctNames(listed) && Lists(listed, m)
    requires Descending(sorted) && multiset(sorted) == multiset(listed)
    ensures Arranges(sorted, m)
  {
    SameMultisetDistinct(listed, sorted, m);
    forall i | 0 <= i < |sorted|
      ensures sorted[i].ruleName in m && m[sorted[i].ruleName] == sorted[i]
    {
      assert sorted[i] in multiset(listed);
      assert sorted[i] in listed;
    }
    forall k | k in m ensures m[k] in sorted {
      assert m[k] in multiset(sorted);
    }
  }

  lemma SameMultisetDistinct(listed: seq<RuleEntity>, sorted: seq<RuleEntity>, m: Registry)
    requires DistinctNames(listed) && Lists(listed, m)
    requires multiset(sorted) == multiset(listed)
    ensures DistinctNames(sorted)
  {
    forall i, j | 0 <= i < j < |sorted| ensures sorted[i].ruleName != sorted[j].ruleName {
      if sorted[i].ruleName == sorted[j].ruleName {
        assert sorted[i] in multiset(listed) && sorted[j] in multiset(listed);
        assert sorted[i] == sorted[j];
        var front, back := sorted[..j], sorted[j..];
        assert sorted == front + back;
        assert sorted[i] == front[i] && sorted[j] == back[0];
        assert multiset(sorted)[sorted[i]] >= 2;
        OnceEach(listed, sorted[i]);
        assert false;
      }
    }
  }

  // ---------- Incremental update ----------

  /** The registry an update aims at: old rules overridden by new ones, name by name. */
  function Overridden(old_: Registry, new_: Registry): Registry {
    old_ + new_
  }

  /** What one step of the incremental loop makes of the list: v's rule is in, the unnamed stay. */
  ghost predicate Joined(was: seq<RuleEntity>, now: seq<RuleEntity>, entities: Registry, v: RuleEntity,
      names: set<string>) {
    Arranges(now, entities[v.ruleName := v]) && Outside(now, names) == Outside(was, names)
  }

  lemma ReplacedJoins(was: seq<RuleEntity>, entities: Registry, i: nat, v: RuleEntity, names: set<string>)
    requires Keyed(entities) && Arranges(was, entities) && v.ruleName in names
    requires i < |was| && was[i].ruleName == v.ruleName && was[i].salience == v.salience
    ensures Joined(was, was[i := v], entities, v, names)
  {
    ReplaceArranges(was, entities, i, v);
    OutsideReplace(was, i, v, names);
  }

  lemma RepositionedJoins(was: seq<RuleEntity>, entities: Registry, i: nat, p: nat, v: RuleEntity, names: set<string>)
    requires Keyed(entities) && Arranges(was, entities) && v.ruleName in names
    requires i < |was| && was[i].ruleName == v.ruleName && SplitsAt(RemoveAt(was, i), p, v.salience)
    ensures Joined(was, InsertAt(RemoveAt(was, i), p, v), entities, v, names)
  {
    RemoveArranges(was, entities, i);
    InsertArranges(RemoveAt(was, i), entities - {v.ruleName}, p, v);
    assert (entities - {v.ruleName})[v.ruleName := v] == entities[v.ruleName := v];
    OutsideRemove(was, i, names);
    OutsideInsert(RemoveAt(was, i), p, v, names);
  }

  lemma AddedJoins(was: seq<RuleEntity>, entities: Registry, p: nat, v: RuleEntity, names: set<string>)
    requires Arranges(was, entities) && v.ruleName !in entities && v.ruleName in names
    requires SplitsAt(was, p, v.salience)
    ensures Joined(was, InsertAt(was, p, v), entities, v, names)
  {
    InsertArranges(was, entities, p, v);
    OutsideInsert(was, p, v, names);
  }

  /** Replacing a listed rule under its own name leaves the index map right. */
  lemma ReplacedInverts(index: map<string, nat>, was: seq<RuleEntity>, i: nat, v: RuleEntity)
    requires Inverts(index, was) && i < |was| && was[i].ruleName == v.ruleName
    ensures Inverts(index, was[i := v])
  {
  }

  /** One step of the incremental loop: rule v joins the copied slice and the live index map. */
  method UpdateOne(kc: KnowledgeContext, entities: Registry, rules: Slice<RuleEntity>, v: RuleEntity,
      ghost names: set<string>)
    returns (newRules: Slice<RuleEntity>)
    requires GoSlice.Valid(rules) && Indexed(entities, Elems(rules), kc.sortRulesIndexMap)
    requires v.ruleName in names
    modifies rules.arr, kc`sortRulesIndexMap
    ensures GoSlice.Valid(newRules) && (newRules.arr == rules.arr || fresh(newRules.arr))
    ensures Joined(old(Elems(rules)), Elems(newRules), entities, v, names)
    ensures Inverts(kc.sortRulesIndexMap, Elems(newRules))
    ensures v.ruleName in entities ==> newRules == rules
    ensures v.ruleName in entities && entities[v.ruleName].salience == v.salience ==>
              kc.sortRulesIndexMap == old(kc.sortRulesIndexMap)
  {
    hide Outside, InsertAt, RemoveAt, SplitsAt, Descending, DistinctNames, Lists, Inverts, Keyed;
    ghost var was := Elems(rules);
    newRules := rules;
    if v.ruleName in entities {
      var index := IndexAt(kc.sortRulesIndexMap, v.ruleName, was, entities);
      if v.salience == entities[v.ruleName].salience {
        rules.arr[rules.off + index] := v;
        assert Elems(rules) == was[index := v];
        ReplacedJoins(was, entities, index, v, names);
        ReplacedInverts(kc.sortRulesIndexMap, was, index, v);
        return;
      }
      ghost var p := Reposition(rules, index, v);
      RepositionedJoins(was, entities, index, p, v, names);
    } else {
      ghost var p;
      newRules, p := InsertSorted(rules, v);
      AddedJoins(was, entities, p, v, names);
    }
    kc.sortRulesIndexMap := IndexOf(newRules);
  }

  /** The index map lookup of the loop: it finds the old rule's position. */
  method IndexAt(index: map<string, nat>, name: string, ghost s: seq<RuleEntity>, ghost m: Registry) returns (i: nat)
    requires Indexed(m, s, index) && name in m
    ensures name in index && i == index[name] && i < |s| && s[i] == m[name] && s[i].ruleName == name
  {
    assert m[name] in s;
    i := index[name];
  }

  lemma OneMoreRule(old_: Registry, parsed: Registry, rest: set<string>, k: string)
    requires Keyed(parsed) && Keyed(old_) && k in rest && rest <= parsed.Keys
    ensures parsed[k].ruleName == k
    ensures (old_ + (parsed - rest))[k := parsed[k]] == old_ + (parsed - (rest - {k}))
    ensures Keyed(old_ + (parsed - (rest - {k})))
  {
  }

  /**
   The incremental update of a knowledge context, on copies of its registry and sorted slice that
   replace the originals at the end. Whatever the order of the parsed rules, the result arranges
   the overridden registry, the rules not named keep their relative order, and no array that was
   reachable before is written.
   */
  method UpdateIncremental(parsed: Registry, kc: KnowledgeContext)
    requires kc.Valid() && Keyed(parsed)
    modifies kc
    ensures kc.Valid() && fresh(kc.sortRules.arr)
    ensures kc.ruleEntities == Overridden(old(kc.ruleEntities), parsed)
    ensures Outside(kc.Order(), parsed.Keys) == old(Outside(kc.Order(), parsed.Keys))
  {
    hide Arranges, Inverts, Outside, Keyed;
    var base := kc.ruleEntities;
    var entities := base;
    var rules := FromSeq(Copied(kc.sortRules));
    var rest := parsed.Keys;
    ghost var was, now := Elems(rules), Elems(rules);
    while rest != {}
      invariant rest <= parsed.Keys
      invariant kc.ruleEntities == base
      invariant GoSlice.Valid(rules) && fresh(rules.arr) && now == Elems(rules)
      invariant Indexed(entities, now, kc.sortRulesIndexMap)
      invariant entities == base + (parsed - rest)
      invariant Outside(now, parsed.Keys) == Outside(was, parsed.Keys)
      decreases rest
    {
      var k :| k in rest;
      OneMoreRule(base, parsed, rest, k);
      rules := UpdateOne(kc, entities, rules, parsed[k], parsed.Keys);
      entities := entities[k := parsed[k]];
      rest := rest - {k};
      now := Elems(rules);
    }
    assert parsed - rest == parsed;
    kc.ruleEntities := entities;
    kc.sortRules := rules;
  }

  /** The elements of a slice, to be copied. */
  function Copied(s: Slice<RuleEntity>): (r: seq<RuleEntity>)
    requires GoSlice.Valid(s)
    reads s.arr
    ensures r == Elems(s)
  {
    s.arr[s.off..s.off + s.len]
  }

  /** The rules whose name is not listed, found by two nested loops. */
  method Kept(m: Registry, ruleNames: seq<string>) returns (kept: Registry)
    ensures kept == m - (set n | n in ruleNames)
  {
    kept := map[];
    var rest := m.Keys;
    while rest != {}
      invariant rest <= m.Keys
      invariant kept == map k | k in m.Keys - rest && k !in ruleNames :: m[k]
      decreases rest
    {
      var name :| name in rest;
      var flag := true;
      for i := 0 to |ruleNames|
        invariant flag && name !in ruleNames[..i]
      {
        if ruleNames[i] == name {
          flag := false;
          break;
        }
      }
      if flag {
        kept := kept[name := m[name]];
      }
      rest := rest - {name};
    }
  }

  // ---------- The builder ----------

  class RuleBuilder {
    var kc: KnowledgeContext

    ghost predicate Valid()
      reads this, kc, kc.sortRules.arr
    {
      kc.Valid()
    }

    constructor ()
      ensures Valid() && fresh(kc) && fresh(kc.sortRules.arr) && kc.ruleEntities == map[]
    {
      kc := new KnowledgeContext();
    }

    /** Full update: a rejected text changes nothing, an accepted one replaces everything. */
    method BuildRuleFromString(parsed: Parsed) returns (ok: bool)
      requires Valid() && (parsed.Rules? ==> Keyed(parsed.rules))
      modifies this
      ensures Valid() && ok == parsed.Rules?
      ensures ok ==> fresh(kc) && fresh(kc.sortRules.arr) && kc.ruleEntities == parsed.rules
      ensures !ok ==> kc == old(kc)
    {
      if parsed.Rejected? {
        return false;
      }
      var fresh_ := new KnowledgeContext();
      fresh_.ruleEntities := parsed.rules;
      fresh_.sortRules, fresh_.sortRulesIndexMap := SortRegistry(parsed.rules);
      kc := fresh_;
      return true;
    }

    /** Incremental update of this builder's own context, in place. */
    method BuildRuleWithIncremental(parsed: Parsed) returns (ok: bool)
      requires Valid() && (parsed.Rules? ==> Keyed(parsed.rules))
      modifies kc
      ensures Valid() && ok == (parsed.Rules? && parsed.rules != map[])
      ensures ok ==> fresh(kc.sortRules.arr)
      ensures ok ==> kc.ruleEntities == Overridden(old(kc.ruleEntities), parsed.rules)
      ensures ok ==> Outside(kc.Order(), parsed.rules.Keys) == old(Outside(kc.Order(), parsed.rules.Keys))
      ensures !ok ==> unchanged(kc)
    {
      if parsed.Rejected? {
        return false;
      }
      if |parsed.rules| == 0 {
        return false;
      }
      UpdateIncremental(parsed.rules, kc);
      return true;
    }

    /** Removal builds a new context of the rules whose name is not listed. */
    method RemoveRules(ruleNames: seq<string>) returns (ok: bool)
      requires Valid()
      modifies this
      ensures Valid() && ok == (ruleNames != [])
      ensures ok ==> fresh(kc) && fresh(kc.sortRules.arr)
      ensures ok ==> kc.ruleEntities == old(kc.ruleEntities) - (set n | n in ruleNames)
      ensures !ok ==> kc == old(kc)
    {
      if |ruleNames| == 0 {
        return false;
      }
      var kept := Kept(kc.ruleEntities, ruleNames);
      var fresh_ := new KnowledgeContext();
      fresh_.ruleEntities := kept;
      fresh_.sortRules, fresh_.sortRulesIndexMap := SortRegistry(kept);
      kc := fresh_;
      return true;
    }

    /** Answers, name by name, whether a rule of that name is registered. */
    method IsExist(ruleNames: seq<string>) returns (exist: seq<bool>)
      ensures |exist| == |ruleNames|
      ensures forall i | 0 <= i < |ruleNames| :: exist[i] <==> ruleNames[i] in kc.ruleEntities
    {
      exist := [];
      for i := 0 to |ruleNames|
        invariant |exist| == i
        invariant forall j | 0 <= j < i :: exist[j] <==> ruleNames[j] in kc.ruleEntities
      {
        exist := exist + [ruleNames[i] in kc.ruleEntities];
      }
    }
  }

  /** The same rules, with the same salience at every position. */
  ghost predicate SameUpToTies(a: seq<RuleEntity>, b: seq<RuleEntity>) {
    |a| == |b| && multiset(a) == multiset(b) && forall i | 0 <= i < |a| :: a[i].salience == b[i].salience
  }

  /**
   Incremental update refines full rebuild: the order it leaves and the order a full build of the
   overridden registry would leave hold the same rules with the same salience at every position.
   */
  lemma IncrementalRefinesRebuild(updated: seq<RuleEntity>, rebuilt: seq<RuleEntity>, before: Registry, parsed: Registry)
    requires Arranges(updated, Overridden(before, parsed)) && Arranges(rebuilt, Overridden(before, parsed))
    ensures SameUpToTies(updated, rebuilt)
  {
    ArrangementsAgree(updated, rebuilt, Overridden(before, parsed));
  }

  /**
   The two updates of the same old rules by the same text: incrementally, and by building the overridden
   registry in full. The builders end with the same registry, and with lists that hold the same rules
   with the same salience at every position.
   */
  method UpdateBothWays(incremental: RuleBuilder, full: RuleBuilder, parsed: Registry)
    requires incremental.Valid() && full.Valid() && incremental != full
    requires Keyed(parsed) && parsed != map[]
    modifies incremental.kc, full
    ensures incremental.Valid() && full.Valid()
    ensures incremental.kc.ruleEntities == full.kc.ruleEntities == Overridden(old(incremental.kc.ruleEntities), parsed)
    ensures SameUpToTies(incremental.kc.Order(), full.kc.Order())
  {
    var before := incremental.kc.ruleEntities;
    KeyedOverride(before, parsed);
    hide Arranges, Inverts, Keyed, Outside, Overridden, SameUpToTies;
    var _ := full.BuildRuleFromString(Rules(Overridden(before, parsed)));
    var _ := incremental.BuildRuleWithIncremental(Rules(parsed));
    IncrementalRefinesRebuild(incremental.kc.Order(), full.kc.Order(), before, parsed);
  }

  lemma KeyedOverride(before: Registry, parsed: Registry)
    requires Keyed(before) && Keyed(parsed)
    ensures Keyed(Overridden(before, parsed))
  {
  }
}
