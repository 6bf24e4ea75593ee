/**
 What loops promise: break and continue never leave them, a loop runs a bounded number of times, and
 a forRange visits every key its collection had on entry exactly once.
 */
module Loops {
  import opened Values
  import opened ParseTree
  import opened FrontEnd
  import opened Runtime
  import opened Evaluator
  import opened Execution
  import opened Meaning
  import opened Preservation
  import opened Conditions

  predicate Escapes(o: Outcome) {
    o == Break || o == Continue
  }

  // ---------- Break and continue ----------

  lemma ForNeverLeaks(env: Env, h: Header, t: PStatement, count: nat, w: World)
    requires t.StFor? && count <= MAX_EXECUTE_NUM
    ensures !Escapes(MeanForFrom(env, h, t, count, w).o)
    decreases MAX_EXECUTE_NUM - count
  {
    hide MeanCondition, MeanStatements, MeanAssignment;
    if count < MAX_EXECUTE_NUM {
      var it := MeanCondition(env, h, t.condition, w);
      var body := MeanStatements(env, h, t.body, it.w);
      var update := MeanAssignment(env, h, t.update, body.w);
      ForNeverLeaks(env, h, t, count + 1, update.0);
    }
  }

  lemma ForRangeNeverLeaks(env: Env, h: Header, t: PStatement, keys: seq<Value>, cur: nat, w: World)
    requires t.StForRange? && cur <= |keys|
    ensures !Escapes(MeanForRangeFrom(env, h, t, keys, cur, w).o)
    decreases |keys| - cur
  {
    hide SetValue, MeanStatements;
    if cur < |keys| {
      var stored := SetValue(env, t.key, keys[cur], w);
      var body := MeanStatements(env, h, t.body, stored.w);
      ForRangeNeverLeaks(env, h, t, keys, cur + 1, body.w);
    }
  }

  /** Whatever its body does, a loop does not end by break or continue. */
  lemma LoopNeverLeaks(env: Env, h: Header, t: PStatement, w: World)
    requires t.StFor? || t.StForRange?
    ensures !Escapes(MeanStatement(env, h, t, w).o)
  {
    hide MeanAssignment, MeanForFrom, MeanForRangeFrom, GetValue, RangeKeys;
    if t.StFor? {
      var init := MeanAssignment(env, h, t.init, w);
      ForNeverLeaks(env, h, t, 0, init.0);
    } else {
      var v := GetValue(env, t.name, w);
      if v.Got? {
        var keys := RangeKeys(env, v.v, w);
        if keys.Iterable? {
          ForRangeNeverLeaks(env, h, t, keys.keys, 0, Tick(w));
        }
      }
    }
  }

  /** Every break and continue lies inside a loop. */
  predicate Contained(t: PStatement)
    decreases t
  {
    match t
    case StBreak => false
    case StContinue => false
    case StIf(_, body, elseIfs, otherwise) =>
      && ContainedStatements(body)
      && (forall k | 0 <= k < |elseIfs| :: ContainedStatements(elseIfs[k].body))
      && (otherwise.Some? ==> ContainedStatements(otherwise.value))
    case _ => true
  }

  predicate ContainedStatements(t: PStatements)
    decreases t
  {
    forall k | 0 <= k < |t.list| :: Contained(t.list[k])
  }

  lemma ContainedStatement(env: Env, h: Header, t: PStatement, w: World)
    requires Contained(t)
    ensures !Escapes(MeanStatement(env, h, t, w).o)
    decreases t, 1
  {
    hide MeanCondition, MeanElseIfs, MeanStatements, MeanFor, MeanForRange, MeanCall, MeanAssignment;
    match t
    case StIf(condition, body, _, _) =>
      var it := MeanCondition(env, h, condition, w);
      ContainedBody(env, h, body, it.w);
      ContainedElseIfs(env, h, t, 0, it.w);
    case StFor(_, _, _, _) => LoopNeverLeaks(env, h, t, w);
    case StForRange(_, _, _) => LoopNeverLeaks(env, h, t, w);
    case _ =>
  }

  lemma ContainedElseIfs(env: Env, h: Header, t: PStatement, k: nat, w: World)
    requires t.StIf? && Contained(t) && k <= |t.elseIfs|
    ensures !Escapes(MeanElseIfs(env, h, t, k, w).o)
    decreases t, 0, |t.elseIfs| - k
  {
    hide MeanCondition, MeanStatements;
    if k == |t.elseIfs| {
      if t.otherwise.Some? {
        ContainedBody(env, h, t.otherwise.value, w);
      }
    } else {
      var it := MeanCondition(env, h, t.elseIfs[k].condition, w);
      ContainedBody(env, h, t.elseIfs[k].body, it.w);
      ContainedElseIfs(env, h, t, k + 1, it.w);
    }
  }

  lemma {:induction false} ContainedList(env: Env, h: Header, list: seq<PStatement>, w: World)
    requires forall k | 0 <= k < |list| :: Contained(list[k])
    ensures !Escapes(MeanList(env, h, list, w).o)
    decreases list, 0
  {
    hide MeanStatement, Contained;
    if list != [] {
      var front := list[..|list| - 1];
      ContainedList(env, h, front, w);
      ContainedStatement(env, h, list[|list| - 1], MeanList(env, h, front, w).w);
    }
  }

  lemma ContainedBody(env: Env, h: Header, t: PStatements, w: World)
    requires ContainedStatements(t)
    ensures !Escapes(MeanStatements(env, h, t, w).o)
    decreases t
  {
    hide MeanList;
    ContainedList(env, h, t.list, w);
  }

  /** A rule whose breaks and continues all lie inside loops never ends with one of the sentinels as its error. */
  lemma RuleNeverLeaks(env: Env, r: PRule, w: World)
    requires AcceptedRule(r) && ContainedStatements(r.body)
    ensures Execute(env, BuildRule(r), w).err != BreakFlag && Execute(env, BuildRule(r), w).err != ContinueFlag
  {
    hide Execute, BuildRule, MeanStatements, ContainedStatements;
    RuleAgrees(env, r, w);
    ContainedBody(env, HeaderOf(r), r.body, w.(vars := map[]));
  }

  /** Outside a loop a break does reach the end of the rule, as an error. */
  lemma BareBreakLeaks(env: Env, r: PRule, w: World)
    requires AcceptedRule(r) && r.body == PStatements([StBreak], None)
    ensures Execute(env, BuildRule(r), w).err == BreakFlag
  {
    hide Execute, BuildRule;
    RuleAgrees(env, r, w);
    var own := w.(vars := map[]);
    assert [StBreak][..0] == [];
    assert MeanList(env, HeaderOf(r), [], own) == Flow(own, Normal);
    assert MeanList(env, HeaderOf(r), [StBreak], own).o == Break;
  }

  // ---------- How often a for loop runs ----------

  /** The world after n runs of the body, if each is uneventful: the condition reads as true, no break, return or error. */
  function Iterated(env: Env, h: Header, t: PStatement, n: nat, w: World): Option<World>
    requires t.StFor?
  {
    if n == 0 then Some(w)
    else
      match Iterated(env, h, t, n - 1, w)
      case None => None
      case Some(w1) =>
        var c := MeanExpression(env, h, t.condition, w1);
        var body := MeanStatements(env, h, t.body, c.w);
        var update := MeanAssignment(env, h, t.update, body.w);
        if Decide(c) == Yes && (body.o == Normal || body.o == Continue) && update.1 then Some(update.0) else None
  }

  /** After n uneventful runs the condition reads as false. */
  ghost predicate Quits(env: Env, h: Header, t: PStatement, n: nat, w: World)
    requires t.StFor?
  {
    match Iterated(env, h, t, n, w)
    case None => false
    case Some(w1) => Decide(MeanExpression(env, h, t.condition, w1)) == No
  }

  lemma {:induction false} ForUnrolls(env: Env, h: Header, t: PStatement, n: nat, w: World)
    requires t.StFor? && n <= MAX_EXECUTE_NUM && Iterated(env, h, t, n, w).Some?
    ensures MeanForFrom(env, h, t, 0, w) == MeanForFrom(env, h, t, n, Iterated(env, h, t, n, w).value)
  {
    hide MeanCondition, MeanExpression, MeanStatements, MeanAssignment;
    if n > 0 {
      ForUnrolls(env, h, t, n - 1, w);
      ConditionDecides(env, h, t.condition, Iterated(env, h, t, n - 1, w).value);
    }
  }

  lemma {:induction false} ForQuits(env: Env, h: Header, t: PStatement, n: nat, w: World, w0: World)
    requires t.StFor? && n <= MAX_EXECUTE_NUM && Iterated(env, h, t, n, w0) == Some(w)
    ensures var e := MeanForFrom(env, h, t, n, w);
            e.o == Normal && !e.broke ==> n <= e.runs < MAX_EXECUTE_NUM && Quits(env, h, t, e.runs, w0)
    decreases MAX_EXECUTE_NUM - n
  {
    hide MeanCondition, MeanExpression, MeanStatements, MeanAssignment;
    if n < MAX_EXECUTE_NUM {
      ConditionDecides(env, h, t.condition, w);
      var it := MeanCondition(env, h, t.condition, w);
      if it.r == Got(Bool(true)) {
        var body := MeanStatements(env, h, t.body, it.w);
        var update := MeanAssignment(env, h, t.update, body.w);
        if (body.o == Normal || body.o == Continue) && update.1 {
          ForQuits(env, h, t, n + 1, update.0, w0);
        }
      }
    }
  }

  /**
   Without a break, a for loop succeeds exactly when its condition turns false after at most 9999
   uneventful runs; a loop that gets through 10000 of them is an error.
   */
  lemma ForSucceedsIff(env: Env, h: Header, t: PStatement, w: World)
    requires t.StFor? && MeanAssignment(env, h, t.init, w).1
    ensures var start := MeanAssignment(env, h, t.init, w).0;
            var e := MeanFor(env, h, t, w);
            && (e.o == Normal && !e.broke <==> exists n: nat | n < MAX_EXECUTE_NUM :: Quits(env, h, t, n, start))
            && (e.o == Normal && !e.broke ==> Quits(env, h, t, e.runs, start) && e.runs < MAX_EXECUTE_NUM)
            && (Iterated(env, h, t, MAX_EXECUTE_NUM, start).Some? ==> e.o == Error(Failed, false))
  {
    hide MeanCondition, MeanExpression, MeanAssignment;
    var start := MeanAssignment(env, h, t.init, w).0;
    ForQuits(env, h, t, 0, start, start);
    if n: nat :| n < MAX_EXECUTE_NUM && Quits(env, h, t, n, start) {
      ForUnrolls(env, h, t, n, start);
      ConditionDecides(env, h, t.condition, Iterated(env, h, t, n, start).value);
    }
    if Iterated(env, h, t, MAX_EXECUTE_NUM, start).Some? {
      ForUnrolls(env, h, t, MAX_EXECUTE_NUM, start);
    }
  }

  /**
   How a for loop ends: after n uneventful runs by what its condition, its body or its update then comes
   to. A false condition or a break ends it normally, a return returns, a fault is an error.
   */
  lemma ForEndsAt(env: Env, h: Header, t: PStatement, w: World, n: nat)
    requires t.StFor? && n < MAX_EXECUTE_NUM && MeanAssignment(env, h, t.init, w).1
    requires Iterated(env, h, t, n, MeanAssignment(env, h, t.init, w).0).Some?
    ensures var w1 := Iterated(env, h, t, n, MeanAssignment(env, h, t.init, w).0).value;
            var c, e := MeanExpression(env, h, t.condition, w1), MeanFor(env, h, t, w);
            match Decide(c)
            case No => e == LoopEnd(c.w, Normal, n, false)
            case Fault(f) => e == LoopEnd(c.w, Error(f, false), n, false)
            case Yes =>
              var body := MeanStatements(env, h, t.body, c.w);
              match body.o
              case Break => e == LoopEnd(body.w, Normal, n + 1, true)
              case Return(v) => e == LoopEnd(body.w, Return(v), n + 1, false)
              case Error(f, _) => e == LoopEnd(body.w, Error(f, false), n + 1, false)
              case _ =>
                var update := MeanAssignment(env, h, t.update, body.w);
                !update.1 ==> e == LoopEnd(update.0, Error(Failed, false), n + 1, false)
  {
    hide MeanCondition, MeanExpression, MeanStatements, MeanAssignment, Iterated;
    var start := MeanAssignment(env, h, t.init, w).0;
    ForUnrolls(env, h, t, n, start);
    ConditionDecides(env, h, t.condition, Iterated(env, h, t, n, start).value);
  }

  /** A for loop whose first assignment fails does nothing else. */
  lemma ForNeedsInit(env: Env, h: Header, t: PStatement, w: World)
    requires t.StFor? && !MeanAssignment(env, h, t.init, w).1
    ensures MeanFor(env, h, t, w) == LoopEnd(MeanAssignment(env, h, t.init, w).0, Error(Failed, false), 0, false)
  {
  }

  // ---------- What a forRange visits ----------

  /** The world after the first n keys have been visited, each uneventfully: key assigned, body run. */
  function Visited(env: Env, h: Header, t: PStatement, keys: seq<Value>, n: nat, w: World): Option<World>
    requires t.StForRange? && n <= |keys|
  {
    if n == 0 then Some(w)
    else
      match Visited(env, h, t, keys, n - 1, w)
      case None => None
      case Some(w1) =>
        var stored := SetValue(env, t.key, keys[n - 1], w1);
        var body := MeanStatements(env, h, t.body, stored.w);
        if stored.r.Got? && (body.o == Normal || body.o == Continue) then Some(body.w) else None
  }

  lemma {:induction false} RangeUnrolls(env: Env, h: Header, t: PStatement, keys: seq<Value>, n: nat, w: World)
    requires t.StForRange? && n <= |keys| && n <= MAX_EXECUTE_NUM && Visited(env, h, t, keys, n, w).Some?
    ensures MeanForRangeFrom(env, h, t, keys, 0, w) == MeanForRangeFrom(env, h, t, keys, n, Visited(env, h, t, keys, n, w).value)
  {
    hide SetValue, MeanStatements;
    if n > 0 {
      RangeUnrolls(env, h, t, keys, n - 1, w);
    }
  }

  lemma {:induction false} RangeEnds(env: Env, h: Header, t: PStatement, keys: seq<Value>, n: nat, w: World, w0: World)
    requires t.StForRange? && n <= |keys| && n <= MAX_EXECUTE_NUM && Visited(env, h, t, keys, n, w0) == Some(w)
    ensures var e := MeanForRangeFrom(env, h, t, keys, n, w);
            e.o == Normal && !e.broke ==>
              e.runs == |keys| <= MAX_EXECUTE_NUM && Visited(env, h, t, keys, |keys|, w0) == Some(e.w)
    decreases |keys| - n
  {
    hide SetValue, MeanStatements;
    if n < |keys| && n < MAX_EXECUTE_NUM {
      var stored := SetValue(env, t.key, keys[n], w);
      var body := MeanStatements(env, h, t.body, stored.w);
      if stored.r.Got? && (body.o == Normal || body.o == Continue) {
        RangeEnds(env, h, t, keys, n + 1, body.w, w0);
      }
    }
  }

  /**
   Without a break, a forRange over given keys succeeds exactly when it gets through all of them and
   they are at most 10000.
   */
  lemma RangeSucceedsIff(env: Env, h: Header, t: PStatement, keys: seq<Value>, w: World)
    requires t.StForRange?
    ensures var e := MeanForRangeFrom(env, h, t, keys, 0, w);
            e.o == Normal && !e.broke <==> |keys| <= MAX_EXECUTE_NUM && Visited(env, h, t, keys, |keys|, w).Some?
  {
    RangeEnds(env, h, t, keys, 0, w, w);
    if |keys| <= MAX_EXECUTE_NUM && Visited(env, h, t, keys, |keys|, w).Some? {
      RangeUnrolls(env, h, t, keys, |keys|, w);
    }
  }

  /** How a forRange ends: after n uneventful visits by what the next key's assignment or the body comes to. */
  lemma RangeEndsAt(env: Env, h: Header, t: PStatement, keys: seq<Value>, n: nat, w: World)
    requires t.StForRange? && n <= |keys| && n <= MAX_EXECUTE_NUM && Visited(env, h, t, keys, n, w).Some?
    ensures var w1, e := Visited(env, h, t, keys, n, w).value, MeanForRangeFrom(env, h, t, keys, 0, w);
            if n == |keys| then e == LoopEnd(w1, Normal, n, false)
            else if n == MAX_EXECUTE_NUM then e == LoopEnd(w1, Error(Failed, false), n, false)
            else
              var stored := SetValue(env, t.key, keys[n], w1);
              if stored.r.Lost? then e == LoopEnd(stored.w, Error(stored.r.f, false), n, false)
              else
                var body := MeanStatements(env, h, t.body, stored.w);
                match body.o
                case Break => e == LoopEnd(body.w, Normal, n + 1, true)
                case Return(v) => e == LoopEnd(body.w, Return(v), n + 1, false)
                case Error(f, _) => e == LoopEnd(body.w, Error(f, false), n + 1, false)
                case _ => true
  {
    hide SetValue, MeanStatements, Visited;
    RangeUnrolls(env, h, t, keys, n, w);
  }

  /**
   What can be ranged over, and in which order: slices by their indexes from 0 up, maps by their keys;
   a pointer to either, or anything else, is an error, and the invalid value a panic.
   */
  lemma RangeKeysIff(env: Env, v: Value, w: World)
    ensures var c := Content(v, w.heap);
            match RangeKeys(env, v, w)
            case Iterable(keys) =>
              && c.Ref? && !c.pointer && c.addr in w.heap
              && (match w.heap[c.addr]
                  case SliceObject(_, _, _, length, _) => |keys| == length && forall i | 0 <= i < length :: keys[i] == Int(Signed, i)
                  case MapObject(_, _, entries, _) => Lawful(env) ==> ListsOnce(keys, entries.Keys)
                  case ArrayObject(_) => false)
            case NotIterable(f) =>
              (f == Panicked <==> c == Nil) && !(c.Ref? && !c.pointer && c.addr in w.heap && !w.heap[c.addr].ArrayObject?)
  {
  }

  /** The keys of a collection: those of a map, the indexes of a slice. */
  function KeysOf(o: Object): set<Value> {
    match o
    case MapObject(_, _, entries, _) => entries.Keys
    case SliceObject(_, _, _, length, _) => set i | 0 <= i < length :: Int(Signed, i)
    case ArrayObject(_) => {}
  }

  /**
   A forRange that ends without break, return or error has visited each key its collection had when
   the loop was entered, and each exactly once, whatever its body did to the collection or to the
   key variable. It ends that way exactly when no visit is eventful and there are at most 10000 keys.
   */
  lemma ForRangeVisitsOnce(env: Env, h: Header, t: PStatement, w: World)
    requires Lawful(env) && t.StForRange?
    requires GetValue(env, t.name, w).Got? && RangeKeys(env, GetValue(env, t.name, w).v, w).Iterable?
    ensures var holder := Content(GetValue(env, t.name, w).v, w.heap);
            var keys := RangeKeys(env, GetValue(env, t.name, w).v, w).keys;
            var e := MeanForRange(env, h, t, w);
            && Indexable(GetValue(env, t.name, w).v, w.heap) && ListsOnce(keys, KeysOf(w.heap[holder.addr]))
            && (e.o == Normal && !e.broke <==> |keys| <= MAX_EXECUTE_NUM && Visited(env, h, t, keys, |keys|, Tick(w)).Some?)
            && (e.o == Normal && !e.broke ==> Visited(env, h, t, keys, |keys|, Tick(w)) == Some(e.w))
  {
    hide GetValue, SetValue, MeanStatements;
    var holder := Content(GetValue(env, t.name, w).v, w.heap);
    var keys := RangeKeys(env, GetValue(env, t.name, w).v, w).keys;
    RangeSucceedsIff(env, h, t, keys, Tick(w));
    RangeEnds(env, h, t, keys, 0, Tick(w), Tick(w));
    var o := w.heap[holder.addr];
    if o.SliceObject? {
      IndexesOnce(o.length);
    }
  }

  lemma IndexesOnce(n: nat)
    ensures ListsOnce(Indexes(n), set i | 0 <= i < n :: Int(Signed, i))
  {
    forall k ensures k in Indexes(n) <==> k in set i | 0 <= i < n :: Int(Signed, i) {
      if k.Int? && k.sign == Signed && 0 <= k.n < n {
        assert Indexes(n)[k.n] == k;
      }
    }
  }

  // ---------- Statement lists ----------

  /** The worlds a list of statements passes through, each of the first n ending normally. */
  ghost predicate Passes(env: Env, h: Header, list: seq<PStatement>, n: nat, worlds: seq<World>) {
    && n <= |list| && |worlds| == n + 1
    && forall i | 0 <= i < n :: MeanStatement(env, h, list[i], worlds[i]) == Flow(worlds[i + 1], Normal)
  }

  lemma {:induction false} ListPasses(env: Env, h: Header, list: seq<PStatement>, n: nat, worlds: seq<World>)
    requires Passes(env, h, list, n, worlds)
    ensures MeanList(env, h, list[..n], worlds[0]) == Flow(worlds[n], Normal)
  {
    hide MeanStatement;
    if n > 0 {
      assert list[..n][..n - 1] == list[..n - 1] && list[..n][n - 1] == list[n - 1];
      assert worlds[..n][0] == worlds[0];
      ListPasses(env, h, list, n - 1, worlds[..n]);
      assert worlds[..n][n - 1] == worlds[n - 1];
    } else {
      assert list[..0] == [];
    }
  }

  lemma {:induction false} ListStopsAt(env: Env, h: Header, list: seq<PStatement>, k: nat, w: World)
    requires k <= |list| && MeanList(env, h, list[..k], w).o != Normal
    ensures MeanList(env, h, list, w) == MeanList(env, h, list[..k], w)
    decreases |list|
  {
    hide MeanStatement;
    if k == |list| {
      assert list[..k] == list;
    } else {
      var front := list[..|list| - 1];
      assert front[..k] == list[..k];
      ListStopsAt(env, h, front, k, w);
    }
  }

  /**
   A block runs its statements in order, each from the world the one before left, up to the first that
   does not end normally: that one's outcome is the block's. After all of them comes the return.
   */
  lemma BlockEndsAt(env: Env, h: Header, t: PStatements, n: nat, worlds: seq<World>)
    requires Passes(env, h, t.list, n, worlds)
    requires n < |t.list| ==> MeanStatement(env, h, t.list[n], worlds[n]).o != Normal
    ensures var e := MeanStatements(env, h, t, worlds[0]);
            if n == |t.list| then
              match t.ret
              case None => e == Flow(worlds[n], Normal)
              case Some(r) =>
                (match r.value
                 case None => e == Flow(worlds[n], Return(Nil))
                 case Some(x) =>
                   var v := MeanExpression(env, h, x, worlds[n]);
                   e == Flow(v.w, match v.r case Got(y) => Return(y) case Lost(f) => Error(f, true)))
            else
              var last := MeanStatement(env, h, t.list[n], worlds[n]);
              e == if last.o.Error? then Flow(last.w, Error(last.o.f, false)) else last
  {
    hide MeanStatement, MeanExpression;
    ListPasses(env, h, t.list, n, worlds);
    if n == |t.list| {
      assert t.list[..n] == t.list;
    } else {
      assert t.list[..n + 1][..n] == t.list[..n] && t.list[..n + 1][n] == t.list[n];
      assert MeanList(env, h, t.list[..n + 1], worlds[0]) == MeanStatement(env, h, t.list[n], worlds[n]);
      ListStopsAt(env, h, t.list, n + 1, worlds[0]);
    }
  }
}
