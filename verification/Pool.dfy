/**
 The rule side of the engine pool: one main builder for queries and one builder per worker, whose
 knowledge contexts may be one shared object or separate objects depending on the last update.
 Every method runs under the pool's update lock, so a method boundary is a quiescent state.
 (Taking and returning workers is module PoolProtocol.)
 */
module Pool {
  import opened Values
  import opened Ast
  import opened RuleOrder
  import opened GoSlice
  import opened RuleBuilder

  datatype Salience = Found(salience: int) | NoRules | NoSuchRule

  class GenginePool {
    var ruleBuilder: RuleBuilder?
    var clear: bool
    var execModel: int
    const rbSlice: seq<RuleBuilder>

    ghost predicate Shape()
      reads this
    {
      && (forall i, j | 0 <= i < j < |rbSlice| :: rbSlice[i] != rbSlice[j])
      && (ruleBuilder != null ==> ruleBuilder !in rbSlice)
      && (clear <==> ruleBuilder == null)
      && 1 <= execModel <= 4
    }

    /** The registry the pool stands for: the main builder's, and none after a clear. */
    ghost function Registered(): Registry
      reads this, ruleBuilder, if ruleBuilder == null then {} else {ruleBuilder.kc}
    {
      if ruleBuilder == null then map[] else ruleBuilder.kc.ruleEntities
    }

    /** A worker's builder holds exactly the registry m, arranged and indexed. */
    ghost predicate Serves(rb: RuleBuilder, m: Registry)
      reads rb, rb.kc, rb.kc.sortRules.arr
    {
      rb.Valid() && rb.kc.ruleEntities == m
    }

    /** Every worker serves the registry the pool stands for. */
    ghost predicate Valid()
      reads *
    {
      && Shape()
      && (ruleBuilder != null ==> ruleBuilder.Valid())
      && (forall rb | rb in rbSlice :: Serves(rb, Registered()))
    }

    lemma AllServe()
      requires Valid()
      ensures forall i | 0 <= i < |rbSlice| :: rbSlice[i].kc.ruleEntities == Registered()
    {
      forall i | 0 <= i < |rbSlice| ensures rbSlice[i].kc.ruleEntities == Registered() {
        assert Serves(rbSlice[i], Registered());
      }
    }

    constructor (rbs: seq<RuleBuilder>, main: RuleBuilder, em: int)
      requires main.Valid() && main !in rbs && 1 <= em <= 4
      requires forall i, j | 0 <= i < j < |rbs| :: rbs[i] != rbs[j]
      requires forall rb | rb in rbs :: rb.kc == main.kc
      ensures Valid() && Registered() == main.kc.ruleEntities && rbSlice == rbs && ruleBuilder == main && execModel == em
    {
      rbSlice, ruleBuilder, clear, execModel := rbs, main, false, em;
      new;
      hide Indexed;
    }

    /** Points every worker at the main builder's context. */
    method ShareMain()
      requires ruleBuilder != null && ruleBuilder.Valid() && Shape()
      modifies rbSlice
      ensures ruleBuilder.kc == old(ruleBuilder.kc) && Valid()
    {
      hide Indexed;
      for i := 0 to |rbSlice|
        invariant ruleBuilder.kc == old(ruleBuilder.kc)
        invariant forall j | 0 <= j < i :: rbSlice[j].kc == ruleBuilder.kc
      {
        rbSlice[i].kc := ruleBuilder.kc;
      }
    }

    method UpdatePooledRules(parsed: Parsed) returns (ok: bool)
      requires Valid() && (parsed.Rules? ==> Keyed(parsed.rules))
      modifies this, rbSlice
      ensures Valid() && ok == (parsed.Rules? && parsed.rules != map[]) && execModel == old(execModel)
      ensures Registered() == if ok then parsed.rules else old(Registered())
      ensures forall a: array<RuleEntity> | old(allocated(a)) :: a[..] == old(a[..])
    {
      hide Indexed;
      var rbi := new RuleBuilder();
      var built := rbi.BuildRuleFromString(parsed);
      if !built {
        return false;
      }
      if |rbi.kc.ruleEntities| == 0 {
        return false;
      }
      ruleBuilder := rbi;
      clear := false;
      ShareMain();
      return true;
    }

    method UpdatePooledRulesIncremental(parsed: Parsed) returns (ok: bool)
      requires Valid() && ruleBuilder != null && (parsed.Rules? ==> Keyed(parsed.rules))
      modifies this, rbSlice, ruleBuilder.kc
      ensures Valid() && ok == (parsed.Rules? && parsed.rules != map[]) && execModel == old(execModel)
      ensures Registered() == if ok then Overridden(old(Registered()), parsed.rules) else old(Registered())
      ensures forall a: array<RuleEntity> | old(allocated(a)) :: a[..] == old(a[..])
    {
      hide Indexed;
      if parsed.Rejected? {
        return false;
      }
      if |parsed.rules| == 0 {
        return false;
      }
      UpdateIncremental(parsed.rules, ruleBuilder.kc);
      ShareMain();
      clear := false;
      return true;
    }

    method ClearPoolRules()
      requires Valid()
      modifies this, set i | 0 <= i < |rbSlice| :: rbSlice[i].kc
      ensures Valid() && Registered() == map[] && clear && execModel == old(execModel)
      ensures forall a: array<RuleEntity> | old(allocated(a)) :: a[..] == old(a[..])
    {
      hide Indexed;
      ruleBuilder := null;
      clear := true;
      for n := 0 to |rbSlice|
        invariant ruleBuilder == null && clear && execModel == old(execModel)
        invariant forall rb | rb in rbSlice :: rb.Valid()
        invariant forall rb | rb in rbSlice[..n] :: rb.kc.ruleEntities == map[]
        invariant forall a: array<RuleEntity> | old(allocated(a)) :: a[..] == old(a[..])
      {
        rbSlice[n].kc.ClearRules();
      }
    }

    method RemoveRules(ruleNames: seq<string>) returns (ok: bool)
      requires Valid() && ruleBuilder != null
      modifies ruleBuilder, rbSlice
      ensures Valid() && ok == (ruleNames != []) && execModel == old(execModel)
      ensures Registered() == if ok then old(Registered()) - (set n | n in ruleNames) else old(Registered())
      ensures forall a: array<RuleEntity> | old(allocated(a)) :: a[..] == old(a[..])
    {
      hide Indexed;
      ghost var before := Registered();
      ok := ruleBuilder.RemoveRules(ruleNames);
      if ok {
        assert forall rb | rb in rbSlice :: Serves(rb, before);
        RemoveFromWorkers(ruleNames, before);
      }
    }

    /** Removes the rules from every worker's builder; each worker gets a context of its own. */
    method RemoveFromWorkers(ruleNames: seq<string>, ghost before: Registry)
      requires Shape() && ruleNames != []
      requires forall rb | rb in rbSlice :: Serves(rb, before)
      modifies rbSlice
      ensures forall rb | rb in rbSlice :: Serves(rb, before - (set n | n in ruleNames))
      ensures forall a: array<RuleEntity> | old(allocated(a)) :: a[..] == old(a[..])
    {
      hide Indexed;
      ghost var after := before - (set n | n in ruleNames);
      assert forall i | 0 <= i < |rbSlice| :: Serves(rbSlice[i], before);
      for n := 0 to |rbSlice|
        invariant forall rb | rb in rbSlice :: rb.Valid()
        invariant forall i | 0 <= i < n :: rbSlice[i].kc.ruleEntities == after
        invariant forall i | n <= i < |rbSlice| :: rbSlice[i].kc.ruleEntities == before
      {
        var _ := rbSlice[n].RemoveRules(ruleNames);
      }
    }

    method SetExecModel(em: int) returns (ok: bool)
      requires Valid()
      modifies this`execModel
      ensures Valid() && ok == (1 <= em <= 4) && execModel == if ok then em else old(execModel)
    {
      hide Indexed;
      ok := em == 1 || em == 2 || em == 3 || em == 4;
      if ok {
        execModel := em;
      }
    }

    /** The answer about each name is right for every worker. */
    method IsExist(ruleNames: seq<string>) returns (exist: seq<bool>)
      requires Valid()
      ensures |exist| == |ruleNames|
      ensures forall n, i | 0 <= n < |ruleNames| && 0 <= i < |rbSlice| ::
                exist[n] <==> ruleNames[n] in rbSlice[i].kc.ruleEntities
    {
      hide Indexed;
      AllServe();
      if |ruleNames| == 0 {
        return [];
      }
      exist := [];
      if clear || ruleBuilder == null {
        for n := 0 to |ruleNames|
          invariant |exist| == n && forall k | 0 <= k < n :: !exist[k]
        {
          exist := exist + [false];
        }
        return;
      }
      for n := 0 to |ruleNames|
        invariant |exist| == n && forall k | 0 <= k < n :: exist[k] <==> ruleNames[k] in Registered()
      {
        exist := exist + [ruleNames[n] in ruleBuilder.kc.ruleEntities];
      }
    }

    method GetRuleSalience(ruleName: string) returns (r: Salience)
      requires Valid()
      ensures forall i | 0 <= i < |rbSlice| ::
                match r
                case Found(salience) => ruleName in rbSlice[i].kc.ruleEntities && rbSlice[i].kc.ruleEntities[ruleName].salience == salience
                case NoRules => rbSlice[i].kc.ruleEntities == map[]
                case NoSuchRule => ruleName !in rbSlice[i].kc.ruleEntities
    {
      hide Indexed;
      AllServe();
      if clear || ruleBuilder == null {
        return NoRules;
      }
      if ruleName in ruleBuilder.kc.ruleEntities {
        return Found(ruleBuilder.kc.ruleEntities[ruleName].salience);
      }
      return NoSuchRule;
    }

    /** The count is the number of rules each worker would run. */
    method GetRulesNumber() returns (n: nat)
      requires Valid()
      ensures forall rb | rb in rbSlice ::
                rb.Valid() && n == |rb.kc.ruleEntities| == |rb.kc.Order()|
    {
      forall rb | rb in rbSlice
        ensures |rb.kc.Order()| == |Registered()| && Serves(rb, Registered())
      {
        assert Serves(rb, Registered());
        ArrangementSize(rb.kc.Order(), Registered());
      }
      if clear || ruleBuilder == null {
        return 0;
      }
      return |ruleBuilder.kc.ruleEntities|;
    }
  }

  /**
   NewGenginePool: the lengths and the model are checked, the rules are built once, and every
   worker gets a builder of its own that shares the one knowledge context.
   */
  method NewGenginePool(poolMinLen: int, poolMaxLen: int, em: int, parsed: Parsed) returns (p: GenginePool?)
    requires parsed.Rules? ==> Keyed(parsed.rules)
    ensures p != null <==> 0 < poolMinLen < poolMaxLen && 1 <= em <= 4 && parsed.Rules?
    ensures p != null ==> p.Valid() && fresh(p) && |p.rbSlice| == poolMaxLen && p.Registered() == parsed.rules && p.execModel == em
  {
    if !(0 < poolMinLen && poolMinLen < poolMaxLen) {
      return null;
    }
    if em != 1 && em != 2 && em != 3 && em != 4 {
      return null;
    }
    hide Indexed;
    var srcRb := new RuleBuilder();
    var ok := srcRb.BuildRuleFromString(parsed);
    if !ok {
      return null;
    }
    var rbs: seq<RuleBuilder> := [];
    for i := 0 to poolMaxLen
      invariant |rbs| == i && srcRb !in rbs && srcRb.Valid() && srcRb.kc.ruleEntities == parsed.rules
      invariant forall k, j | 0 <= k < j < |rbs| :: rbs[k] != rbs[j]
      invariant forall rb | rb in rbs :: rb.kc == srcRb.kc && fresh(rb)
    {
      var rb := new RuleBuilder();
      rb.kc := srcRb.kc;
      rbs := rbs + [rb];
    }
    p := new GenginePool(rbs, srcRb, em);
  }
}
