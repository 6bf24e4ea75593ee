/**
 The order of rules: what it means for a list to be the salience-descending arrangement of a rule
 registry, how the single-rule edits of an incremental update act on it, and why any two
 arrangements of one registry agree up to the order of rules of equal salience.
 */
module RuleOrder {
  import opened Ast

  type Registry = map<string, RuleEntity>

  // ---------- Arrangements ----------

  /** Every rule is registered under its own name. */
  ghost predicate Keyed(m: Registry) {
    forall k | k in m :: m[k].ruleName == k
  }

  ghost predicate Descending(s: seq<RuleEntity>) {
    forall i, j | 0 <= i < j < |s| :: s[i].salience >= s[j].salience
  }

  ghost predicate DistinctNames(s: seq<RuleEntity>) {
    forall i, j | 0 <= i < j < |s| :: s[i].ruleName != s[j].ruleName
  }

  /** The list holds exactly the rules of the registry. */
  ghost predicate Lists(s: seq<RuleEntity>, m: Registry) {
    && (forall i | 0 <= i < |s| :: s[i].ruleName in m && m[s[i].ruleName] == s[i])
    && (forall k | k in m :: m[k] in s)
  }

  ghost predicate Arranges(s: seq<RuleEntity>, m: Registry) {
    Descending(s) && DistinctNames(s) && Lists(s, m)
  }

  /** The index map sends each listed name to its position, and knows no other name. */
  ghost predicate Inverts(index: map<string, nat>, s: seq<RuleEntity>) {
    && (forall i | 0 <= i < |s| :: s[i].ruleName in index && index[s[i].ruleName] == i)
    && (forall k | k in index :: index[k] < |s| && s[index[k]].ruleName == k)
  }

  /** The three fields of a KnowledgeContext are consistent. */
  ghost predicate Indexed(m: Registry, s: seq<RuleEntity>, index: map<string, nat>) {
    Keyed(m) && Arranges(s, m) && Inverts(index, s)
  }

  /** An arrangement of a registry has one entry per rule. */
  lemma {:induction false} ArrangementSize(s: seq<RuleEntity>, m: Registry)
    requires Keyed(m) && DistinctNames(s) && Lists(s, m)
    ensures |s| == |m|
    decreases |s|
  {
    if s == [] {
      assert m.Keys == {};
    } else {
      var n := |s| - 1;
      var k := s[n].ruleName;
      var m' := m - {k};
      assert Lists(s[..n], m') by {
        forall q | q in m' ensures m'[q] in s[..n] {
          var i :| 0 <= i < |s| && s[i] == m[q];
          assert i != n;
          assert s[..n][i] == m'[q];
        }
      }
      ArrangementSize(s[..n], m');
      assert m.Keys == m'.Keys + {k};
    }
  }

  // ---------- Editing one place ----------

  function InsertAt(s: seq<RuleEntity>, p: nat, v: RuleEntity): (t: seq<RuleEntity>)
    requires p <= |s|
    ensures |t| == |s| + 1 && t[p] == v
    ensures forall i | 0 <= i < p :: t[i] == s[i]
    ensures forall i | p < i < |t| :: t[i] == s[i - 1]
  {
    s[..p] + [v] + s[p..]
  }

  function RemoveAt(s: seq<RuleEntity>, i: nat): (t: seq<RuleEntity>)
    requires i < |s|
    ensures |t| == |s| - 1
    ensures forall j | 0 <= j < i :: t[j] == s[j]
    ensures forall j | i <= j < |t| :: t[j] == s[j + 1]
  {
    s[..i] + s[i + 1..]
  }

  /** Position p splits s into rules of at least and rules of at most the given salience. */
  ghost predicate SplitsAt(s: seq<RuleEntity>, p: nat, salience: int) {
    && p <= |s|
    && (forall i | 0 <= i < p :: s[i].salience >= salience)
    && (forall i | p <= i < |s| :: s[i].salience <= salience)
  }

  lemma InsertDescends(s: seq<RuleEntity>, p: nat, v: RuleEntity)
    requires Descending(s) && SplitsAt(s, p, v.salience)
    ensures Descending(InsertAt(s, p, v))
  {
    var t := InsertAt(s, p, v);
    forall i, j | 0 <= i < j < |t| ensures t[i].salience >= t[j].salience {
      var i' := if i < p then i else i - 1;
      var j' := if j < p then j else j - 1;
      if i != p && j != p {
        assert s[i'].salience >= s[j'].salience;
      }
    }
  }

  lemma InsertDistinct(s: seq<RuleEntity>, m: Registry, p: nat, v: RuleEntity)
    requires DistinctNames(s) && Lists(s, m) && v.ruleName !in m && p <= |s|
    ensures DistinctNames(InsertAt(s, p, v))
  {
    var t := InsertAt(s, p, v);
    forall i, j | 0 <= i < j < |t| ensures t[i].ruleName != t[j].ruleName {
      if i != p && j != p {
        assert s[if i < p then i else i - 1].ruleName != s[if j < p then j else j - 1].ruleName;
      }
    }
  }

  lemma InsertLists(s: seq<RuleEntity>, m: Registry, p: nat, v: RuleEntity)
    requires Lists(s, m) && v.ruleName !in m && p <= |s|
    ensures Lists(InsertAt(s, p, v), m[v.ruleName := v])
  {
    var t := InsertAt(s, p, v);
    forall k | k in m ensures m[k] in t {
      var i :| 0 <= i < |s| && s[i] == m[k];
      assert m[k] == t[if i < p then i else i + 1];
    }
    assert t[p] == v;
  }

  /** Inserting a rule with a fresh name at a split position extends an arrangement. */
  lemma InsertArranges(s: seq<RuleEntity>, m: Registry, p: nat, v: RuleEntity)
    requires Arranges(s, m) && v.ruleName !in m && SplitsAt(s, p, v.salience)
    ensures Arranges(InsertAt(s, p, v), m[v.ruleName := v])
  {
    InsertDescends(s, p, v);
    InsertDistinct(s, m, p, v);
    InsertLists(s, m, p, v);
  }

  /** Removing one entry leaves an arrangement of the registry without that name. */
  lemma RemoveArranges(s: seq<RuleEntity>, m: Registry, i: nat)
    requires Keyed(m) && Arranges(s, m) && i < |s|
    ensures Arranges(RemoveAt(s, i), m - {s[i].ruleName})
  {
    var t := RemoveAt(s, i);
    var m' := m - {s[i].ruleName};
    RemoveOrder(s, i);
    forall j | 0 <= j < |t| ensures t[j].ruleName in m' && m'[t[j].ruleName] == t[j] {
      assert t[j] == s[if j < i then j else j + 1];
    }
    forall k | k in m' ensures m'[k] in t {
      var j :| 0 <= j < |s| && s[j] == m[k];
      assert m'[k] == t[if j < i then j else j - 1];
    }
  }

  lemma RemoveOrder(s: seq<RuleEntity>, i: nat)
    requires Descending(s) && DistinctNames(s) && i < |s|
    ensures Descending(RemoveAt(s, i)) && DistinctNames(RemoveAt(s, i))
  {
    var t := RemoveAt(s, i);
    forall j, k | 0 <= j < k < |t|
      ensures t[j].salience >= t[k].salience && t[j].ruleName != t[k].ruleName
    {
      var j' := if j < i then j else j + 1;
      var k' := if k < i then k else k + 1;
      assert s[j'].salience >= s[k'].salience && s[j'].ruleName != s[k'].ruleName;
    }
  }

  /** Replacing a rule by one of the same name and salience keeps an arrangement and its index. */
  lemma ReplaceArranges(s: seq<RuleEntity>, m: Registry, i: nat, v: RuleEntity)
    requires Keyed(m) && Arranges(s, m) && i < |s|
    requires s[i].ruleName == v.ruleName && s[i].salience == v.salience
    ensures Arranges(s[i := v], m[v.ruleName := v])
  {
    var t := s[i := v];
    forall k | k in m && k != v.ruleName ensures m[k] in t {
      var j :| 0 <= j < |s| && s[j] == m[k];
      assert m[k] == t[j];
    }
    assert t[i] == v;
  }

  // ---------- Rules an update does not name ----------

  /** The rules of s whose name is not in the given set, in order. */
  function Outside(s: seq<RuleEntity>, names: set<string>): seq<RuleEntity> {
    if s == [] then []
    else (if s[0].ruleName in names then [] else [s[0]]) + Outside(s[1..], names)
  }

  lemma {:induction false} OutsideConcat(a: seq<RuleEntity>, b: seq<RuleEntity>, names: set<string>)
    ensures Outside(a + b, names) == Outside(a, names) + Outside(b, names)
  {
    if a == [] {
      assert a + b == b;
    } else {
      assert (a + b)[1..] == a[1..] + b;
      OutsideConcat(a[1..], b, names);
    }
  }

  /** Inserting a named rule does not disturb the unnamed ones. */
  lemma OutsideInsert(s: seq<RuleEntity>, p: nat, v: RuleEntity, names: set<string>)
    requires p <= |s| && v.ruleName in names
    ensures Outside(InsertAt(s, p, v), names) == Outside(s, names)
  {
    var front, back := s[..p], s[p..];
    calc {
      Outside(InsertAt(s, p, v), names);
      Outside(front + [v] + back, names);
      { OutsideConcat(front + [v], back, names); OutsideConcat(front, [v], names); }
      Outside(front, names) + Outside([v], names) + Outside(back, names);
      { OutsideNamed(v, names); }
      Outside(front, names) + Outside(back, names);
      { OutsideConcat(front, back, names); }
      Outside(front + back, names);
      { assert s == front + back; }
      Outside(s, names);
    }
  }

  lemma OutsideNamed(v: RuleEntity, names: set<string>)
    requires v.ruleName in names
    ensures Outside([v], names) == []
  {
    assert [v][1..] == [];
  }

  /** Nor does removing one. */
  lemma OutsideRemove(s: seq<RuleEntity>, i: nat, names: set<string>)
    requires i < |s| && s[i].ruleName in names
    ensures Outside(RemoveAt(s, i), names) == Outside(s, names)
  {
    OutsideInsert(RemoveAt(s, i), i, s[i], names);
    assert InsertAt(RemoveAt(s, i), i, s[i]) == s;
  }

  /** Nor does replacing one by a rule of the same name. */
  lemma OutsideReplace(s: seq<RuleEntity>, i: nat, v: RuleEntity, names: set<string>)
    requires i < |s| && s[i].ruleName == v.ruleName && v.ruleName in names
    ensures Outside(s[i := v], names) == Outside(s, names)
  {
    OutsideRemove(s, i, names);
    OutsideRemove(s[i := v], i, names);
    assert RemoveAt(s[i := v], i) == RemoveAt(s, i);
  }

  // ---------- Two arrangements of one registry ----------

  lemma {:induction false} OnceEach(s: seq<RuleEntity>, v: RuleEntity)
    requires DistinctNames(s)
    ensures multiset(s)[v] == if v in s then 1 else 0
  {
    if s != [] {
      var n := |s| - 1;
      assert s == s[..n] + [s[n]];
      OnceEach(s[..n], v);
    }
  }

  lemma SameRules(a: seq<RuleEntity>, b: seq<RuleEntity>, m: Registry)
    requires DistinctNames(a) && Lists(a, m) && DistinctNames(b) && Lists(b, m)
    ensures multiset(a) == multiset(b)
  {
    forall v: RuleEntity ensures multiset(a)[v] == multiset(b)[v] {
      OnceEach(a, v);
      OnceEach(b, v);
      assert v in a <==> v.ruleName in m && m[v.ruleName] == v;
    }
  }

  /** The first rules of two descending lists of the same rules have the same salience. */
  lemma SameHead(a: seq<RuleEntity>, b: seq<RuleEntity>) returns (j: nat)
    requires Descending(a) && Descending(b) && multiset(a) == multiset(b) && a != []
    ensures j < |b| && b[j] == a[0] && a[0].salience == b[0].salience
  {
    assert a[0] in multiset(a);
    assert a[0] in b;
    j :| j < |b| && b[j] == a[0];
    assert b[0] in multiset(b);
    assert b[0] in a;
  }

  lemma DropHead(a: seq<RuleEntity>, b: seq<RuleEntity>, j: nat)
    requires a != [] && j < |b| && b[j] == a[0] && multiset(a) == multiset(b)
    ensures multiset(a[1..]) == multiset(RemoveAt(b, j))
  {
    var front, back := b[..j], b[j + 1..];
    assert a == [a[0]] + a[1..];
    assert b == front + [b[j]] + back;
    assert RemoveAt(b, j) == front + back;
    assert multiset(a[1..]) == multiset(a) - multiset{a[0]};
    assert multiset(front + back) == multiset(b) - multiset{a[0]};
  }

  /** Descending lists of the same rules have the same salience at every position. */
  lemma {:induction false} SameProfile(a: seq<RuleEntity>, b: seq<RuleEntity>)
    requires Descending(a) && Descending(b) && DistinctNames(b) && multiset(a) == multiset(b)
    ensures |a| == |b| && forall i | 0 <= i < |a| :: a[i].salience == b[i].salience
    decreases |a|
  {
    assert |multiset(a)| == |a| && |multiset(b)| == |b|;
    if a != [] {
      var j := SameHead(a, b);
      var rest := RemoveAt(b, j);
      DropHead(a, b, j);
      RemoveOrder(b, j);
      SameProfile(a[1..], rest);
      forall i | 1 <= i < |a| ensures a[i].salience == b[i].salience {
        assert a[1..][i - 1].salience == rest[i - 1].salience;
        if i <= j {
          assert b[0].salience >= b[i - 1].salience >= b[i].salience >= b[j].salience;
        }
      }
    }
  }

  /**
   Any two arrangements of one registry agree up to the order of rules of equal salience: the
   saliences match position by position and the rules are the same.
   */
  lemma ArrangementsAgree(a: seq<RuleEntity>, b: seq<RuleEntity>, m: Registry)
    requires Arranges(a, m) && Arranges(b, m)
    ensures |a| == |b| && multiset(a) == multiset(b)
    ensures forall i | 0 <= i < |a| :: a[i].salience == b[i].salience
  {
    SameRules(a, b, m);
    SameProfile(a, b);
  }

  // ---------- sort.SliceStable by descending salience ----------

  /** The stable sort: every rule goes after all rules met earlier of at least its salience. */
  function StableSort(s: seq<RuleEntity>): (r: seq<RuleEntity>)
    ensures Descending(r) && multiset(r) == multiset(s)
  {
    if s == [] then []
    else
      var n := |s| - 1;
      assert s == s[..n] + [s[n]];
      Place(StableSort(s[..n]), s[n])
  }

  function Place(s: seq<RuleEntity>, v: RuleEntity): (r: seq<RuleEntity>)
    requires Descending(s)
    ensures Descending(r) && multiset(r) == multiset(s) + multiset{v}
  {
    if s == [] || s[|s| - 1].salience >= v.salience then s + [v]
    else
      var n := |s| - 1;
      assert s == s[..n] + [s[n]];
      var t := Place(s[..n], v);
      assert forall x | x in t :: x.salience >= s[n].salience by {
        AboveLast(s, v, t);
      }
      t + [s[n]]
  }

  lemma AboveLast(s: seq<RuleEntity>, v: RuleEntity, t: seq<RuleEntity>)
    requires s != [] && Descending(s) && s[|s| - 1].salience < v.salience
    requires multiset(t) == multiset(s[..|s| - 1]) + multiset{v}
    ensures forall x | x in t :: x.salience >= s[|s| - 1].salience
  {
    forall x | x in t ensures x.salience >= s[|s| - 1].salience {
      assert x in multiset(t);
      assert x == v || x in s[..|s| - 1];
    }
  }

  /** The rules of one salience, in order. */
  function OfSalience(s: seq<RuleEntity>, salience: int): seq<RuleEntity> {
    if s == [] then []
    else
      var n := |s| - 1;
      OfSalience(s[..n], salience) + (if s[n].salience == salience then [s[n]] else [])
  }

  lemma OfSalienceLast(s: seq<RuleEntity>, v: RuleEntity, salience: int)
    ensures OfSalience(s + [v], salience) ==
            OfSalience(s, salience) + (if v.salience == salience then [v] else [])
  {
    assert (s + [v])[..|s|] == s;
  }

  lemma {:induction false} PlaceKeepsOrder(s: seq<RuleEntity>, v: RuleEntity, salience: int)
    requires Descending(s)
    ensures OfSalience(Place(s, v), salience) ==
            OfSalience(s, salience) + (if v.salience == salience then [v] else [])
  {
    if s == [] || s[|s| - 1].salience >= v.salience {
      OfSalienceLast(s, v, salience);
    } else {
      var front, last := s[..|s| - 1], s[|s| - 1];
      var t := Place(front, v);
      calc {
        OfSalience(Place(s, v), salience);
        OfSalience(t + [last], salience);
        { OfSalienceLast(t, last, salience); }
        OfSalience(t, salience) + (if last.salience == salience then [last] else []);
        { PlaceKeepsOrder(front, v, salience); }
        OfSalience(front, salience) + (if v.salience == salience then [v] else []) + (if last.salience == salience then [last] else []);
        OfSalience(s, salience) + (if v.salience == salience then [v] else []);
      }
    }
  }

  /** Rules of equal salience keep the order in which the sort found them. */
  lemma {:induction false} StableSortIsStable(s: seq<RuleEntity>, salience: int)
    ensures OfSalience(StableSort(s), salience) == OfSalience(s, salience)
  {
    if s != [] {
      var n := |s| - 1;
      StableSortIsStable(s[..n], salience);
      PlaceKeepsOrder(StableSort(s[..n]), s[n], salience);
    }
  }
}
