/**
 Taking and returning workers, at lock granularity. Any number of callers run ExecuteOpts at the
 same time; each takes a worker under the getter lock, binds its data one name at a time, runs, unbinds,
 and leaves the worker to a goroutine that puts it back later under one of the two list locks.
 An action is one step of one caller or one returner between two points where others may run.
 */
module PoolProtocol {
  import opened Values

  type Bindings = map<string, Value>

  /** Workers below `min` belong to the free list, the others up to `max` to the addition list. */
  datatype Config = Config(min: nat, max: nat, apis: Bindings)

  /** Where a caller stands. Workers are named by their tag. */
  datatype Caller =
    | Idle
    | Wanting(data: Bindings)         // at the head of the getter's loop
    | Looking(data: Bindings)         // holds the getter lock
    | SawFree(data: Bindings)         // has read a positive length of the free list
    | TakingFree(data: Bindings)      // holds the running lock as well
    | TookFree(w: nat, data: Bindings)
    | SawNoFree(data: Bindings)       // has read length 0 of the free list
    | SawAddition(data: Bindings)
    | TakingAddition(data: Bindings)  // holds the addition lock as well
    | TookAddition(w: nat, data: Bindings)
    | Leaving(w: nat, data: Bindings) // list lock given back, getter lock not yet
    | Spinning(data: Bindings)        // found nothing, about to give the getter lock back
    | Binding(w: nat, data: Bindings, rest: set<string>)
    | Executing(w: nat, data: Bindings)
    | Unbound(w: nat, data: Bindings) // names deleted, about to start the returner

  /** Where a returner stands: before its lock, holding it, or done appending but still holding it. */
  datatype Returner = Waiting | Locked | Appended

  datatype Owner = ByCaller(t: nat) | ByReturner(w: nat)

  /**
   `erased[w]` is a history variable: all names ever passed to Del for worker w.
   `broken` records an index out of range.
   */
  datatype State = State(
    free: seq<nat>,
    addition: seq<nat>,
    callers: seq<Caller>,
    returning: map<nat, Returner>,
    getLock: Option<nat>,
    runningLock: Option<Owner>,
    additionLock: Option<Owner>,
    contexts: seq<Bindings>,
    erased: seq<set<string>>,
    broken: bool)

  function Init(c: Config, callers: nat): State
    requires c.min <= c.max
  {
    State(seq(c.min, i => i), seq(c.max - c.min, i => c.min + i), seq(callers, _ => Idle), map[],
          None, None, None, seq(c.max, _ => c.apis), seq(c.max, _ => {}), false)
  }

  datatype Action =
    | Begin(t: nat, data: Bindings)
    | LockGetter(t: nat)
    | ReadFree(t: nat)
    | LockRunning(t: nat)
    | TakeFree(t: nat)
    | UnlockRunning(t: nat)
    | ReadAddition(t: nat)
    | LockAddition(t: nat)
    | TakeAddition(t: nat)
    | UnlockAddition(t: nat)
    | UnlockGetter(t: nat)
    | Spin(t: nat)
    | Bind(t: nat, name: string)
    | Run(t: nat)
    | Unbind(t: nat)
    | StartReturner(t: nat)
    | ReturnerLock(w: nat)
    | ReturnerAppend(w: nat)
    | ReturnerUnlock(w: nat)

  predicate Enabled(c: Config, s: State, a: Action) {
    match a
    case Begin(t, _) => t < |s.callers| && s.callers[t].Idle?
    case LockGetter(t) => t < |s.callers| && s.callers[t].Wanting? && s.getLock == None
    case ReadFree(t) => t < |s.callers| && s.callers[t].Looking?
    case LockRunning(t) => t < |s.callers| && s.callers[t].SawFree? && s.runningLock == None
    case TakeFree(t) => t < |s.callers| && s.callers[t].TakingFree?
    case UnlockRunning(t) => t < |s.callers| && s.callers[t].TookFree?
    case ReadAddition(t) => t < |s.callers| && s.callers[t].SawNoFree?
    case LockAddition(t) => t < |s.callers| && s.callers[t].SawAddition? && s.additionLock == None
    case TakeAddition(t) => t < |s.callers| && s.callers[t].TakingAddition?
    case UnlockAddition(t) => t < |s.callers| && s.callers[t].TookAddition?
    case UnlockGetter(t) => t < |s.callers| && s.callers[t].Leaving?
    case Spin(t) => t < |s.callers| && s.callers[t].Spinning?
    case Bind(t, name) => t < |s.callers| && s.callers[t].Binding? && name in s.callers[t].rest && name in s.callers[t].data &&
      s.callers[t].w < |s.contexts|
    case Run(t) => t < |s.callers| && s.callers[t].Binding? && s.callers[t].rest == {}
    case Unbind(t) => t < |s.callers| && s.callers[t].Executing? && s.callers[t].w < |s.contexts| == |s.erased|
    case StartReturner(t) => t < |s.callers| && s.callers[t].Unbound?
    case ReturnerLock(w) =>
      w in s.returning && s.returning[w] == Waiting && (if w < c.min then s.runningLock else s.additionLock) == None
    case ReturnerAppend(w) => w in s.returning && s.returning[w] == Locked
    case ReturnerUnlock(w) => w in s.returning && s.returning[w] == Appended
  }

  function Move(s: State, t: nat, p: Caller): State
    requires t < |s.callers|
  {
    s.(callers := s.callers[t := p])
  }

  function Apply(c: Config, s: State, a: Action): State
    requires Enabled(c, s, a)
  {
    match a
    case Begin(t, data) => Move(s, t, Wanting(data))
    case LockGetter(t) => Move(s, t, Looking(s.callers[t].data)).(getLock := Some(t))
    case ReadFree(t) =>
      Move(s, t, if |s.free| > 0 then SawFree(s.callers[t].data) else SawNoFree(s.callers[t].data))
    case LockRunning(t) => Move(s, t, TakingFree(s.callers[t].data)).(runningLock := Some(ByCaller(t)))
    case TakeFree(t) =>
      if s.free == [] then s.(broken := true)
      else Move(s, t, TookFree(s.free[0], s.callers[t].data)).(free := s.free[1..])
    case UnlockRunning(t) => Move(s, t, Leaving(s.callers[t].w, s.callers[t].data)).(runningLock := None)
    case ReadAddition(t) =>
      Move(s, t, if |s.addition| > 0 then SawAddition(s.callers[t].data) else Spinning(s.callers[t].data))
    case LockAddition(t) => Move(s, t, TakingAddition(s.callers[t].data)).(additionLock := Some(ByCaller(t)))
    case TakeAddition(t) =>
      if s.addition == [] then s.(broken := true)
      else Move(s, t, TookAddition(s.addition[0], s.callers[t].data)).(addition := s.addition[1..])
    case UnlockAddition(t) => Move(s, t, Leaving(s.callers[t].w, s.callers[t].data)).(additionLock := None)
    case UnlockGetter(t) =>
      var p := s.callers[t];
      Move(s, t, Binding(p.w, p.data, p.data.Keys)).(getLock := None)
    case Spin(t) => Move(s, t, Wanting(s.callers[t].data)).(getLock := None)
    case Bind(t, name) =>
      var p := s.callers[t];
      var s' := Move(s, t, p.(rest := p.rest - {name}));
      if name != "" && p.data[name] != Nil
      then s'.(contexts := s.contexts[p.w := s.contexts[p.w][name := p.data[name]]])
      else s'
    case Run(t) => Move(s, t, Executing(s.callers[t].w, s.callers[t].data))
    case Unbind(t) =>
      var p := s.callers[t];
      Move(s, t, Unbound(p.w, p.data)).(
        contexts := s.contexts[p.w := s.contexts[p.w] - p.data.Keys],
        erased := s.erased[p.w := s.erased[p.w] + p.data.Keys])
    case StartReturner(t) => Move(s, t, Idle).(returning := s.returning[s.callers[t].w := Waiting])
    case ReturnerLock(w) =>
      var s' := s.(returning := s.returning[w := Locked]);
      if w < c.min then s'.(runningLock := Some(ByReturner(w))) else s'.(additionLock := Some(ByReturner(w)))
    case ReturnerAppend(w) =>
      var s' := s.(returning := s.returning[w := Appended]);
      if w < c.min then s'.(free := s.free + [w]) else s'.(addition := s.addition + [w])
    case ReturnerUnlock(w) =>
      var s' := s.(returning := s.returning - {w});
      if w < c.min then s'.(runningLock := None) else s'.(additionLock := None)
  }

  ghost predicate Legal(c: Config, s: State, run: seq<Action>)
    decreases |run|
  {
    run == [] || (Enabled(c, s, run[0]) && Legal(c, Apply(c, s, run[0]), run[1..]))
  }

  function After(c: Config, s: State, run: seq<Action>): State
    requires Legal(c, s, run)
    decreases |run|
  {
    if run == [] then s else After(c, Apply(c, s, run[0]), run[1..])
  }

  // ---------- The invariant ----------

  /** The worker a caller has taken and not yet handed to a returner. */
  function Worker(p: Caller): Option<nat> {
    if p.TookFree? || p.TookAddition? || p.Leaving? || p.Binding? || p.Executing? || p.Unbound? then Some(p.w)
    else None
  }

  /** A returner has been started for w and has not yet put it back. */
  predicate Pending(s: State, w: nat) {
    w in s.returning && s.returning[w] != Appended
  }

  predicate HasGetter(p: Caller) {
    !p.Idle? && !p.Wanting? && !p.Binding? && !p.Executing? && !p.Unbound?
  }

  predicate HasRunning(p: Caller) {
    p.TakingFree? || p.TookFree?
  }

  predicate HasAddition(p: Caller) {
    p.TakingAddition? || p.TookAddition?
  }

  datatype Place = Listed | Held(t: nat) | Back

  ghost predicate NoRepeat(q: seq<nat>) {
    forall i, j | 0 <= i < j < |q| :: q[i] != q[j]
  }

  /** `place` says of every worker where it is, and the state agrees. */
  ghost predicate Placed(c: Config, s: State, place: seq<Place>) {
    && |place| == c.max && c.min <= c.max
    && ListsPlaced(c, s.free, s.addition, place)
    && ReturnersPlaced(s.returning, place)
    && CallersPlaced(s.callers, place)
  }

  ghost predicate ListsPlaced(c: Config, free: seq<nat>, addition: seq<nat>, place: seq<Place>)
    requires |place| == c.max
  {
    && NoRepeat(free) && NoRepeat(addition)
    && (forall w | w in free :: w < c.min && w < c.max && place[w] == Listed)
    && (forall w | w in addition :: c.min <= w < c.max && place[w] == Listed)
    && (forall w | 0 <= w < c.max && place[w] == Listed :: if w < c.min then w in free else w in addition)
  }

  ghost predicate ReturnersPlaced(returning: map<nat, Returner>, place: seq<Place>) {
    && (forall w | w in returning :: w < |place| && place[w] == if returning[w] == Appended then Listed else Back)
    && (forall w | 0 <= w < |place| && place[w] == Back :: w in returning)
  }

  ghost predicate CallersPlaced(callers: seq<Caller>, place: seq<Place>) {
    && (forall t | 0 <= t < |callers| && Worker(callers[t]).Some? ::
          callers[t].w < |place| && place[callers[t].w] == Held(t))
    && (forall w | 0 <= w < |place| && place[w].Held? ::
          place[w].t < |callers| && Worker(callers[place[w].t]) == Some(w))
  }

  /** Each lock is owned exactly by the step that is between taking it and giving it back. */
  ghost predicate Locking(c: Config, s: State) {
    GetterLocked(s) && RunningLocked(c, s) && AdditionLocked(c, s)
  }

  ghost predicate GetterLocked(s: State) {
    && (forall t | 0 <= t < |s.callers| :: HasGetter(s.callers[t]) <==> s.getLock == Some(t))
    && (s.getLock.Some? ==> s.getLock.value < |s.callers|)
  }

  ghost predicate RunningLocked(c: Config, s: State) {
    && (forall t | 0 <= t < |s.callers| :: HasRunning(s.callers[t]) <==> s.runningLock == Some(ByCaller(t)))
    && (forall w | w in s.returning && s.returning[w] != Waiting && w < c.min :: s.runningLock == Some(ByReturner(w)))
    && (s.runningLock.Some? ==>
          match s.runningLock.value
          case ByCaller(t) => t < |s.callers|
          case ByReturner(w) => w < c.min && w in s.returning && s.returning[w] != Waiting)
  }

  ghost predicate AdditionLocked(c: Config, s: State) {
    && (forall t | 0 <= t < |s.callers| :: HasAddition(s.callers[t]) <==> s.additionLock == Some(ByCaller(t)))
    && (forall w | w in s.returning && s.returning[w] != Waiting && w >= c.min :: s.additionLock == Some(ByReturner(w)))
    && (s.additionLock.Some? ==>
          match s.additionLock.value
          case ByCaller(t) => t < |s.callers|
          case ByReturner(w) => w >= c.min && w in s.returning && s.returning[w] != Waiting)
  }

  /** A positive length once read stays positive until its reader takes element 0. */
  ghost predicate Counted(s: State) {
    && !s.broken
    && (forall t | 0 <= t < |s.callers| && (s.callers[t].SawFree? || s.callers[t].TakingFree?) :: s.free != [])
    && (forall t | 0 <= t < |s.callers| && (s.callers[t].SawAddition? || s.callers[t].TakingAddition?) :: s.addition != [])
  }

  /** The names of a request that reach a data context: not "", not nil. */
  function Usable(data: Bindings, names: set<string>): Bindings {
    map k | k in data && k in names && k != "" && data[k] != Nil :: data[k]
  }

  /** What worker w's data context must hold given what its holder has done so far. */
  function Expected(c: Config, s: State, w: nat, p: Caller): Bindings
    requires w < |s.erased|
  {
    var own := c.apis - s.erased[w];
    match p
    case Binding(_, data, rest) => own + Usable(data, data.Keys - rest)
    case Executing(_, data) => own + Usable(data, data.Keys)
    case _ => own
  }

  ghost predicate Isolated(c: Config, s: State, place: seq<Place>) {
    && |s.contexts| == |s.erased| == |place| == c.max
    && (forall w | 0 <= w < c.max && !place[w].Held? :: s.contexts[w] == c.apis - s.erased[w])
    && (forall w | 0 <= w < c.max && place[w].Held? && place[w].t < |s.callers| ::
          s.contexts[w] == Expected(c, s, w, s.callers[place[w].t]))
    && (forall t | 0 <= t < |s.callers| && s.callers[t].Binding? :: s.callers[t].rest <= s.callers[t].data.Keys)
  }

  ghost predicate Inv(c: Config, s: State, place: seq<Place>) {
    Placed(c, s, place) && Locking(c, s) && Counted(s) && Isolated(c, s, place)
  }

  lemma InitInv(c: Config, callers: nat)
    requires c.min <= c.max
    ensures Inv(c, Init(c, callers), seq(c.max, _ => Listed))
  {
    var s := Init(c, callers);
    forall w | 0 <= w < c.max ensures if w < c.min then w in s.free else w in s.addition {
      if w < c.min {
        assert s.free[w] == w;
      } else {
        assert s.addition[w - c.min] == w;
      }
    }
    assert ListsPlaced(c, s.free, s.addition, seq(c.max, _ => Listed));
    forall w | 0 <= w < c.max ensures s.contexts[w] == c.apis - s.erased[w] {
      assert c.apis - {} == c.apis;
    }
  }

  /** How one action moves a worker between places. */
  function Moved(s: State, a: Action, place: seq<Place>): seq<Place> {
    match a
    case TakeFree(t) => if s.free != [] && s.free[0] < |place| then place[s.free[0] := Held(t)] else place
    case TakeAddition(t) => if s.addition != [] && s.addition[0] < |place| then place[s.addition[0] := Held(t)] else place
    case StartReturner(t) =>
      if t < |s.callers| && s.callers[t].Unbound? && s.callers[t].w < |place| then place[s.callers[t].w := Back] else place
    case ReturnerAppend(w) => if w < |place| then place[w := Listed] else place
    case _ => place
  }

  // ---------- What one action changes ----------

  predicate OfCaller(a: Action) {
    !a.ReturnerLock? && !a.ReturnerAppend? && !a.ReturnerUnlock?
  }

  /** Actions that move no worker between places. */
  predicate Quiet(a: Action) {
    !a.TakeFree? && !a.TakeAddition? && !a.StartReturner? && !a.ReturnerAppend?
  }

  /** Actions that change what some data context holds or must hold. */
  predicate Touching(a: Action) {
    a.Bind? || a.Unbind? || a.UnlockGetter? || a.Run?
  }

  lemma CallersEffect(c: Config, s: State, a: Action)
    requires Enabled(c, s, a)
    ensures OfCaller(a) ==>
              a.t < |s.callers| == |Apply(c, s, a).callers| &&
              Apply(c, s, a).callers == s.callers[a.t := Apply(c, s, a).callers[a.t]]
    ensures OfCaller(a) && Quiet(a) ==> Worker(Apply(c, s, a).callers[a.t]) == Worker(s.callers[a.t])
    ensures !OfCaller(a) ==> Apply(c, s, a).callers == s.callers
  {
  }

  lemma ListsEffect(c: Config, s: State, a: Action)
    requires Enabled(c, s, a)
    ensures var s' := Apply(c, s, a);
            match a
            case TakeFree(_) => s'.addition == s.addition && (s.free != [] ==> s'.free == s.free[1..])
            case TakeAddition(_) => s'.free == s.free && (s.addition != [] ==> s'.addition == s.addition[1..])
            case ReturnerAppend(w) =>
              && s'.free == (if w < c.min then s.free + [w] else s.free)
              && s'.addition == (if w < c.min then s.addition else s.addition + [w])
            case _ => s'.free == s.free && s'.addition == s.addition
  {
  }

  lemma ReturningEffect(c: Config, s: State, a: Action)
    requires Enabled(c, s, a)
    ensures var now := Apply(c, s, a).returning;
            match a
            case StartReturner(t) => t < |s.callers| && s.callers[t].Unbound? && now == s.returning[s.callers[t].w := Waiting]
            case ReturnerLock(w) => w in s.returning && s.returning[w] == Waiting && now == s.returning[w := Locked]
            case ReturnerAppend(w) => w in s.returning && s.returning[w] == Locked && now == s.returning[w := Appended]
            case ReturnerUnlock(w) => w in s.returning && s.returning[w] == Appended && now == s.returning - {w}
            case _ => now == s.returning
  {
  }

  /** A caller's step takes a list lock, gives it back, or leaves the lock alone. */
  lemma ListLockEffect(c: Config, s: State, a: Action)
    requires Enabled(c, s, a) && OfCaller(a)
    ensures var s' := Apply(c, s, a);
            a.t < |s.callers| == |s'.callers| &&
            var p, q := s.callers[a.t], s'.callers[a.t];
            && (HasRunning(p) == HasRunning(q) ==> s'.runningLock == s.runningLock)
            && (HasRunning(p) && !HasRunning(q) ==> s'.runningLock == None)
            && (!HasRunning(p) && HasRunning(q) ==> s.runningLock == None && s'.runningLock == Some(ByCaller(a.t)))
            && (HasAddition(p) == HasAddition(q) ==> s'.additionLock == s.additionLock)
            && (HasAddition(p) && !HasAddition(q) ==> s'.additionLock == None)
            && (!HasAddition(p) && HasAddition(q) ==> s.additionLock == None && s'.additionLock == Some(ByCaller(a.t)))
  {
  }

  lemma GetterEffect(c: Config, s: State, a: Action)
    requires Enabled(c, s, a)
    ensures !OfCaller(a) ==> Apply(c, s, a).getLock == s.getLock
    ensures OfCaller(a) ==>
              var s' := Apply(c, s, a);
              a.t < |s.callers| == |s'.callers| &&
              var p, q := s.callers[a.t], s'.callers[a.t];
              && (HasGetter(p) == HasGetter(q) ==> s'.getLock == s.getLock)
              && (HasGetter(p) && !HasGetter(q) ==> s'.getLock == None)
              && (!HasGetter(p) && HasGetter(q) ==> s.getLock == None && s'.getLock == Some(a.t))
  {
  }

  lemma ReturnerLockEffect(c: Config, s: State, a: Action)
    requires Enabled(c, s, a) && !OfCaller(a)
    ensures var s' := Apply(c, s, a);
            var low := a.w < c.min;
            && (!low ==> s'.runningLock == s.runningLock) && (low ==> s'.additionLock == s.additionLock)
            && (a.ReturnerAppend? ==> s'.runningLock == s.runningLock && s'.additionLock == s.additionLock)
            && (a.ReturnerLock? ==> (if low then s.runningLock else s.additionLock) == None &&
                                    (if low then s'.runningLock else s'.additionLock) == Some(ByReturner(a.w)))
            && (a.ReturnerUnlock? ==> (if low then s'.runningLock else s'.additionLock) == None)
  {
  }

  lemma ContextsEffect(c: Config, s: State, a: Action)
    requires Enabled(c, s, a)
    ensures !Touching(a) ==> Apply(c, s, a).contexts == s.contexts && Apply(c, s, a).erased == s.erased
    ensures Touching(a) ==> a.t < |s.callers| && Worker(s.callers[a.t]) == Some(s.callers[a.t].w)
    ensures Touching(a) ==>
              var s' := Apply(c, s, a);
              |s'.contexts| == |s.contexts| && |s'.erased| == |s.erased| &&
              (forall w | 0 <= w < |s.contexts| && w != s.callers[a.t].w :: s'.contexts[w] == s.contexts[w]) &&
              (forall w | 0 <= w < |s.erased| && w != s.callers[a.t].w :: s'.erased[w] == s.erased[w])
  {
  }

  // ---------- Every action keeps the invariant ----------

  lemma HeadTaken(c: Config, free: seq<nat>, addition: seq<nat>, place: seq<Place>, t: nat)
    requires |place| == c.max && ListsPlaced(c, free, addition, place)
    ensures free != [] ==> free[0] < c.max && ListsPlaced(c, free[1..], addition, place[free[0] := Held(t)])
    ensures addition != [] ==>
              addition[0] < c.max && ListsPlaced(c, free, addition[1..], place[addition[0] := Held(t)])
  {
    if free != [] {
      RestAfterHead(c, free);
    }
    if addition != [] {
      RestAfterHead(c, addition);
    }
  }

  lemma RestAfterHead(c: Config, q: seq<nat>)
    requires q != [] && NoRepeat(q)
    ensures NoRepeat(q[1..]) && q[0] !in q[1..]
    ensures forall w :: w in q <==> w == q[0] || w in q[1..]
  {
    assert q == [q[0]] + q[1..];
  }

  lemma TailPut(c: Config, free: seq<nat>, addition: seq<nat>, place: seq<Place>, w: nat)
    requires |place| == c.max && ListsPlaced(c, free, addition, place) && w < c.max && place[w] == Back
    ensures ListsPlaced(c, if w < c.min then free + [w] else free, if w < c.min then addition else addition + [w],
                        place[w := Listed])
  {
  }

  lemma GoneBack(c: Config, free: seq<nat>, addition: seq<nat>, place: seq<Place>, w: nat)
    requires |place| == c.max && ListsPlaced(c, free, addition, place) && w < c.max && place[w].Held?
    ensures ListsPlaced(c, free, addition, place[w := Back])
  {
  }

  lemma StepLists(c: Config, s: State, a: Action, place: seq<Place>)
    requires Placed(c, s, place) && Counted(s) && Enabled(c, s, a)
    ensures var s' := Apply(c, s, a); ListsPlaced(c, s'.free, s'.addition, Moved(s, a, place))
  {
    ListsEffect(c, s, a);
    ReturningEffect(c, s, a);
    ElementZero(c, s, a);
    hide Apply, ListsPlaced, Enabled;
    match a
    case TakeFree(t) => HeadTaken(c, s.free, s.addition, place, t);
      HeadPlaced(c, s, place);
    case TakeAddition(t) => HeadTaken(c, s.free, s.addition, place, t);
      HeadPlaced(c, s, place);
    case ReturnerAppend(w) => TailPut(c, s.free, s.addition, place, w);
    case StartReturner(t) => assert Worker(s.callers[t]) == Some(s.callers[t].w);
      GoneBack(c, s.free, s.addition, place, s.callers[t].w);
    case _ =>
  }

  lemma ElementZero(c: Config, s: State, a: Action)
    requires Counted(s) && Enabled(c, s, a)
    ensures a.TakeFree? ==> s.free != []
    ensures a.TakeAddition? ==> s.addition != []
  {
  }

  lemma HeadPlaced(c: Config, s: State, place: seq<Place>)
    requires Placed(c, s, place)
    ensures s.free != [] ==> s.free[0] < c.max && s.free[0] < c.min && place[s.free[0]] == Listed
    ensures s.addition != [] ==> c.min <= s.addition[0] < c.max && place[s.addition[0]] == Listed
  {
    assert s.free != [] ==> s.free[0] in s.free;
    assert s.addition != [] ==> s.addition[0] in s.addition;
  }

  /** Only the holder of a list lock takes from a list, and then no returner is between its steps. */
  lemma NoneAppended(c: Config, s: State, t: nat, w: nat)
    requires Locking(c, s) && t < |s.callers| && w in s.returning && s.returning[w] == Appended
    ensures w < c.min ==> !HasRunning(s.callers[t])
    ensures w >= c.min ==> !HasAddition(s.callers[t])
  {
  }

  lemma StepReturners(c: Config, s: State, a: Action, place: seq<Place>)
    requires Placed(c, s, place) && Locking(c, s) && Counted(s) && Enabled(c, s, a)
    ensures ReturnersPlaced(Apply(c, s, a).returning, Moved(s, a, place))
  {
    hide Apply, Enabled, ListsPlaced, Locking, Counted;
    ReturningEffect(c, s, a);
    ElementZero(c, s, a);
    HeadPlaced(c, s, place);
    if a.StartReturner? {
      assert Worker(s.callers[a.t]) == Some(s.callers[a.t].w);
    } else if a.TakeFree? || a.TakeAddition? {
      TakenHasNoReturner(c, s, a, place);
    }
  }

  lemma TakenHasNoReturner(c: Config, s: State, a: Action, place: seq<Place>)
    requires Placed(c, s, place) && Locking(c, s) && Enabled(c, s, a)
    ensures a.TakeFree? && s.free != [] ==> s.free[0] !in s.returning
    ensures a.TakeAddition? && s.addition != [] ==> s.addition[0] !in s.returning
  {
    hide Apply, ListsPlaced, CallersPlaced, Locking;
    HeadPlaced(c, s, place);
    if a.TakeFree? && s.free != [] && s.free[0] in s.returning {
      NoneAppended(c, s, a.t, s.free[0]);
    }
    if a.TakeAddition? && s.addition != [] && s.addition[0] in s.returning {
      NoneAppended(c, s, a.t, s.addition[0]);
    }
  }

  lemma TakingCallers(callers: seq<Caller>, t: nat, w: nat, p: Caller, place: seq<Place>)
    requires CallersPlaced(callers, place) && t < |callers| && Worker(callers[t]) == None
    requires w < |place| && place[w] == Listed && Worker(p) == Some(w)
    ensures CallersPlaced(callers[t := p], place[w := Held(t)])
  {
  }

  lemma LeavingCallers(callers: seq<Caller>, t: nat, place: seq<Place>)
    requires CallersPlaced(callers, place) && t < |callers| && callers[t].Unbound?
    ensures callers[t].w < |place| && CallersPlaced(callers[t := Idle], place[callers[t].w := Back])
  {
  }

  lemma QuietCallers(callers: seq<Caller>, t: nat, p: Caller, place: seq<Place>)
    requires CallersPlaced(callers, place) && t < |callers| && Worker(p) == Worker(callers[t])
    ensures CallersPlaced(callers[t := p], place)
  {
    assert forall u | 0 <= u < |callers| :: Worker(callers[t := p][u]) == Worker(callers[u]);
  }

  lemma StepCallers(c: Config, s: State, a: Action, place: seq<Place>)
    requires Placed(c, s, place) && Counted(s) && Enabled(c, s, a)
    ensures CallersPlaced(Apply(c, s, a).callers, Moved(s, a, place))
  {
    hide CallersPlaced, ListsPlaced, Counted;
    CallersEffect(c, s, a);
    if Quiet(a) {
      hide Apply, Enabled;
      if OfCaller(a) {
        QuietCallers(s.callers, a.t, Apply(c, s, a).callers[a.t], place);
      }
    } else {
      MovingCallers(c, s, a, place);
    }
  }

  lemma MovingCallers(c: Config, s: State, a: Action, place: seq<Place>)
    requires Placed(c, s, place) && Counted(s) && Enabled(c, s, a) && !Quiet(a)
    ensures CallersPlaced(Apply(c, s, a).callers, Moved(s, a, place))
  {
    hide CallersPlaced, ListsPlaced, Counted;
    ElementZero(c, s, a);
    HeadPlaced(c, s, place);
    match a
    case TakeFree(t) => TakingCallers(s.callers, t, s.free[0], TookFree(s.free[0], s.callers[t].data), place);
    case TakeAddition(t) => TakingCallers(s.callers, t, s.addition[0], TookAddition(s.addition[0], s.callers[t].data), place);
    case StartReturner(t) => LeavingCallers(s.callers, t, place);
    case ReturnerAppend(w) => SameCallers(s.callers, place, w);
  }

  lemma SameCallers(callers: seq<Caller>, place: seq<Place>, w: nat)
    requires CallersPlaced(callers, place) && w < |place| && place[w] == Back
    ensures CallersPlaced(callers, place[w := Listed])
  {
  }

  lemma StepGetter(c: Config, s: State, a: Action)
    requires GetterLocked(s) && Enabled(c, s, a)
    ensures GetterLocked(Apply(c, s, a))
  {
    hide Apply, Enabled, HasGetter;
    CallersEffect(c, s, a);
    GetterEffect(c, s, a);
  }

  lemma CallerRunning(c: Config, s: State, a: Action, place: seq<Place>)
    requires RunningLocked(c, s) && Placed(c, s, place) && Enabled(c, s, a) && OfCaller(a)
    ensures RunningLocked(c, Apply(c, s, a))
  {
    hide Apply, Enabled, HasRunning, HasAddition, ListsPlaced, ReturnersPlaced, CallersPlaced;
    CallersEffect(c, s, a);
    ReturningEffect(c, s, a);
    ListLockEffect(c, s, a);
    if a.StartReturner? {
      NotReturning(c, s, a.t, place);
    }
  }

  lemma ReturnerRunning(c: Config, s: State, a: Action)
    requires RunningLocked(c, s) && Enabled(c, s, a) && !OfCaller(a)
    ensures RunningLocked(c, Apply(c, s, a))
  {
    hide Apply, Enabled, HasRunning, HasAddition;
    CallersEffect(c, s, a);
    ReturningEffect(c, s, a);
    ReturnerLockEffect(c, s, a);
  }

  lemma StepRunning(c: Config, s: State, a: Action, place: seq<Place>)
    requires RunningLocked(c, s) && Placed(c, s, place) && Enabled(c, s, a)
    ensures RunningLocked(c, Apply(c, s, a))
  {
    hide Apply, Enabled, RunningLocked, Placed;
    if OfCaller(a) {
      CallerRunning(c, s, a, place);
    } else {
      ReturnerRunning(c, s, a);
    }
  }

  lemma CallerAddition(c: Config, s: State, a: Action, place: seq<Place>)
    requires AdditionLocked(c, s) && Placed(c, s, place) && Enabled(c, s, a) && OfCaller(a)
    ensures AdditionLocked(c, Apply(c, s, a))
  {
    hide Apply, Enabled, HasRunning, HasAddition, ListsPlaced, ReturnersPlaced, CallersPlaced;
    CallersEffect(c, s, a);
    ReturningEffect(c, s, a);
    ListLockEffect(c, s, a);
    if a.StartReturner? {
      NotReturning(c, s, a.t, place);
    }
  }

  lemma ReturnerAddition(c: Config, s: State, a: Action)
    requires AdditionLocked(c, s) && Enabled(c, s, a) && !OfCaller(a)
    ensures AdditionLocked(c, Apply(c, s, a))
  {
    hide Apply, Enabled, HasRunning, HasAddition;
    CallersEffect(c, s, a);
    ReturningEffect(c, s, a);
    ReturnerLockEffect(c, s, a);
  }

  lemma StepAddition(c: Config, s: State, a: Action, place: seq<Place>)
    requires AdditionLocked(c, s) && Placed(c, s, place) && Enabled(c, s, a)
    ensures AdditionLocked(c, Apply(c, s, a))
  {
    hide Apply, Enabled, AdditionLocked, Placed;
    if OfCaller(a) {
      CallerAddition(c, s, a, place);
    } else {
      ReturnerAddition(c, s, a);
    }
  }

  /** A worker that is held has no returner, not even one that is about to give its lock back. */
  lemma NotReturning(c: Config, s: State, t: nat, place: seq<Place>)
    requires Placed(c, s, place) && t < |s.callers| && s.callers[t].Unbound?
    ensures s.callers[t].w !in s.returning
  {
    assert Worker(s.callers[t]) == Some(s.callers[t].w);
  }

  lemma StepCounted(c: Config, s: State, a: Action)
    requires GetterLocked(s) && Counted(s) && Enabled(c, s, a)
    ensures Counted(Apply(c, s, a))
  {
    hide Apply, Enabled;
    CallersEffect(c, s, a);
    ListsEffect(c, s, a);
    ElementZero(c, s, a);
    OwnCount(c, s, a);
  }

  /** What the acting caller itself claims about the lengths is right; others hold no getter lock. */
  lemma OwnCount(c: Config, s: State, a: Action)
    requires Counted(s) && Enabled(c, s, a)
    ensures !Apply(c, s, a).broken
    ensures OfCaller(a) ==>
              a.t < |s.callers| == |Apply(c, s, a).callers| &&
              var q := Apply(c, s, a).callers[a.t];
              && ((q.SawFree? || q.TakingFree?) ==> Apply(c, s, a).free != [])
              && ((q.SawAddition? || q.TakingAddition?) ==> Apply(c, s, a).addition != [])
    ensures a.TakeFree? || a.TakeAddition? ==> HasGetter(s.callers[a.t])
  {
  }

  /** Contexts and holders that an action leaves alone stay as expected. */
  lemma OthersIsolated(c: Config, s: State, s': State, place: seq<Place>, w: nat)
    requires CallersPlaced(s.callers, place) && Isolated(c, s, place) && w < c.max && place[w].Held?
    requires |s'.callers| == |s.callers| && s'.callers[place[w].t] == s.callers[place[w].t]
    requires |s'.contexts| == |s'.erased| == c.max
    requires s'.contexts[w] == s.contexts[w] && s'.erased[w] == s.erased[w]
    ensures s'.contexts[w] == Expected(c, s', w, s'.callers[place[w].t])
  {
  }

  /** The worker an action passes on, or whose holder acts, if any. */
  function Concerned(s: State, a: Action): Option<nat> {
    match a
    case TakeFree(_) => if s.free != [] then Some(s.free[0]) else None
    case TakeAddition(_) => if s.addition != [] then Some(s.addition[0]) else None
    case ReturnerAppend(w) => Some(w)
    case ReturnerLock(_) => None
    case ReturnerUnlock(_) => None
    case _ => if a.t < |s.callers| then Worker(s.callers[a.t]) else None
  }

  /** The context of the worker concerned is as expected after the action. */
  ghost predicate ConcernedIsolated(c: Config, s': State, place': seq<Place>, w: nat) {
    && w < |place'| == c.max == |s'.contexts| == |s'.erased|
    && (!place'[w].Held? ==> s'.contexts[w] == c.apis - s'.erased[w])
    && (place'[w].Held? && place'[w].t < |s'.callers| ==>
          s'.contexts[w] == Expected(c, s', w, s'.callers[place'[w].t]))
  }

  lemma StepIsolated(c: Config, s: State, a: Action, place: seq<Place>)
    requires Placed(c, s, place) && Counted(s) && Isolated(c, s, place) && Enabled(c, s, a)
    ensures Isolated(c, Apply(c, s, a), Moved(s, a, place))
  {
    hide Apply, Enabled, Expected, ListsPlaced, ReturnersPlaced, Moved, Concerned, Counted;
    var s', place' := Apply(c, s, a), Moved(s, a, place);
    ContextsEffect(c, s, a);
    ConcernedStep(c, s, a, place);
    RestsStep(c, s, a, place);
    OthersPlaces(c, s, a, place);
    forall w | 0 <= w < c.max && place'[w].Held? && place'[w].t < |s'.callers|
      ensures s'.contexts[w] == Expected(c, s', w, s'.callers[place'[w].t])
    {
      if Concerned(s, a) != Some(w) {
        OtherHeld(c, s, a, place, w);
      }
    }
  }

  lemma OtherHeld(c: Config, s: State, a: Action, place: seq<Place>, w: nat)
    requires Placed(c, s, place) && Isolated(c, s, place) && Enabled(c, s, a)
    requires |Apply(c, s, a).contexts| == |Apply(c, s, a).erased| == c.max
    requires w < c.max && Concerned(s, a) != Some(w) && place[w].Held? && place[w].t < |s.callers|
    ensures place[w].t < |Apply(c, s, a).callers|
    ensures Apply(c, s, a).contexts[w] == Expected(c, Apply(c, s, a), w, Apply(c, s, a).callers[place[w].t])
  {
    hide Apply, Enabled, Expected, ListsPlaced, ReturnersPlaced, Moved, Concerned;
    CallersEffect(c, s, a);
    ContextsEffect(c, s, a);
    OthersPlaces(c, s, a, place);
    assert Worker(s.callers[place[w].t]) == Some(w);
    OthersIsolated(c, s, Apply(c, s, a), place, w);
  }

  /** Workers not concerned keep place, context, erased names and holder. */
  lemma OthersPlaces(c: Config, s: State, a: Action, place: seq<Place>)
    requires Placed(c, s, place) && Enabled(c, s, a)
    ensures |Moved(s, a, place)| == |place|
    ensures forall w | 0 <= w < c.max && Concerned(s, a) != Some(w) :: Moved(s, a, place)[w] == place[w]
    ensures OfCaller(a) && a.t < |s.callers| && Worker(s.callers[a.t]).Some? ==>
              Concerned(s, a) == Worker(s.callers[a.t])
    ensures Touching(a) ==> Concerned(s, a) == Worker(s.callers[a.t])
  {
    hide Apply;
  }

  lemma RestsStep(c: Config, s: State, a: Action, place: seq<Place>)
    requires Isolated(c, s, place) && Enabled(c, s, a)
    ensures forall t | 0 <= t < |Apply(c, s, a).callers| && Apply(c, s, a).callers[t].Binding? ::
              Apply(c, s, a).callers[t].rest <= Apply(c, s, a).callers[t].data.Keys
  {
    hide Apply, Enabled, Expected;
    CallersEffect(c, s, a);
    if OfCaller(a) {
      OwnRest(c, s, a, place);
    }
  }

  lemma OwnRest(c: Config, s: State, a: Action, place: seq<Place>)
    requires Isolated(c, s, place) && Enabled(c, s, a) && OfCaller(a)
    ensures a.t < |Apply(c, s, a).callers|
    ensures var q := Apply(c, s, a).callers[a.t]; q.Binding? ==> q.rest <= q.data.Keys
  {
  }

  /** Binding one more name; deleting all of them; before any is bound. */
  lemma BindOne(own: Bindings, data: Bindings, rest: set<string>, name: string)
    requires name in rest && rest <= data.Keys
    ensures var bound := own + Usable(data, data.Keys - rest);
            own + Usable(data, data.Keys - (rest - {name})) ==
            if name != "" && data[name] != Nil then bound[name := data[name]] else bound
  {
  }

  lemma DeleteAll(apis: Bindings, erased: set<string>, data: Bindings)
    ensures (apis - erased + Usable(data, data.Keys)) - data.Keys == apis - (erased + data.Keys)
  {
  }

  lemma NothingBound(own: Bindings, data: Bindings)
    ensures own + Usable(data, data.Keys - data.Keys) == own
  {
  }

  lemma HolderPlace(callers: seq<Caller>, place: seq<Place>, t: nat)
    requires CallersPlaced(callers, place) && t < |callers| && Worker(callers[t]).Some?
    ensures callers[t].w < |place| && place[callers[t].w] == Held(t)
  {
  }

  lemma BindStep(c: Config, s: State, a: Action, place: seq<Place>)
    requires CallersPlaced(s.callers, place) && Isolated(c, s, place) && Enabled(c, s, a) && a.Bind?
    ensures ConcernedIsolated(c, Apply(c, s, a), place, s.callers[a.t].w)
  {
    hide Usable, CallersPlaced;
    var p := s.callers[a.t];
    HolderPlace(s.callers, place, a.t);
    BindOne(c.apis - s.erased[p.w], p.data, p.rest, a.name);
  }

  lemma UnbindStep(c: Config, s: State, a: Action, place: seq<Place>)
    requires CallersPlaced(s.callers, place) && Isolated(c, s, place) && Enabled(c, s, a) && a.Unbind?
    ensures ConcernedIsolated(c, Apply(c, s, a), place, s.callers[a.t].w)
  {
    hide Usable, CallersPlaced;
    var p := s.callers[a.t];
    HolderPlace(s.callers, place, a.t);
    DeleteAll(c.apis, s.erased[p.w], p.data);
  }

  lemma TouchingStep(c: Config, s: State, a: Action, place: seq<Place>)
    requires CallersPlaced(s.callers, place) && Isolated(c, s, place) && Enabled(c, s, a) && Touching(a)
    ensures a.t < |s.callers| && Worker(s.callers[a.t]) == Some(s.callers[a.t].w)
    ensures ConcernedIsolated(c, Apply(c, s, a), place, s.callers[a.t].w)
  {
    hide Usable, CallersPlaced;
    var p := s.callers[a.t];
    HolderPlace(s.callers, place, a.t);
    if a.Bind? {
      BindStep(c, s, a, place);
    } else if a.Unbind? {
      UnbindStep(c, s, a, place);
    } else if a.UnlockGetter? {
      NothingBound(c.apis - s.erased[p.w], p.data);
    } else {
      assert p.data.Keys - p.rest == p.data.Keys;
    }
  }

  lemma PassingStep(c: Config, s: State, a: Action, place: seq<Place>)
    requires CallersPlaced(s.callers, place) && Isolated(c, s, place) && Enabled(c, s, a)
    requires a.UnlockRunning? || a.UnlockAddition? || a.StartReturner?
    ensures a.t < |s.callers| && Worker(s.callers[a.t]) == Some(s.callers[a.t].w)
    ensures ConcernedIsolated(c, Apply(c, s, a), Moved(s, a, place), s.callers[a.t].w)
  {
    assert Worker(s.callers[a.t]) == Some(s.callers[a.t].w);
  }

  lemma TakingStep(c: Config, s: State, a: Action, place: seq<Place>)
    requires Placed(c, s, place) && Isolated(c, s, place) && Enabled(c, s, a)
    requires (a.TakeFree? && s.free != []) || (a.TakeAddition? && s.addition != [])
    ensures ConcernedIsolated(c, Apply(c, s, a), Moved(s, a, place), Concerned(s, a).value)
  {
    hide ListsPlaced, ReturnersPlaced, CallersPlaced, Usable;
    HeadPlaced(c, s, place);
  }

  lemma AppendStep(c: Config, s: State, a: Action, place: seq<Place>)
    requires Placed(c, s, place) && Isolated(c, s, place) && Enabled(c, s, a) && a.ReturnerAppend?
    ensures ConcernedIsolated(c, Apply(c, s, a), Moved(s, a, place), a.w)
  {
    hide ListsPlaced, CallersPlaced, Usable;
  }

  lemma BareStep(c: Config, s: State, a: Action, place: seq<Place>)
    requires CallersPlaced(s.callers, place) && Enabled(c, s, a)
    requires !Touching(a) && !a.UnlockRunning? && !a.UnlockAddition? && !a.StartReturner?
    requires !a.TakeFree? && !a.TakeAddition? && !a.ReturnerAppend?
    ensures Concerned(s, a) == None
  {
  }

  lemma ConcernedStep(c: Config, s: State, a: Action, place: seq<Place>)
    requires Placed(c, s, place) && Counted(s) && Isolated(c, s, place) && Enabled(c, s, a)
    ensures Concerned(s, a).Some? ==> ConcernedIsolated(c, Apply(c, s, a), Moved(s, a, place), Concerned(s, a).value)
  {
    hide ListsPlaced, ReturnersPlaced, CallersPlaced, Isolated, ConcernedIsolated, Counted, Apply, Enabled;
    ElementZero(c, s, a);
    CallersEffect(c, s, a);
    if Touching(a) {
      ContextsEffect(c, s, a);
      TouchingStep(c, s, a, place);
    } else if a.UnlockRunning? || a.UnlockAddition? || a.StartReturner? {
      PassingStep(c, s, a, place);
    } else if a.TakeFree? || a.TakeAddition? {
      TakingStep(c, s, a, place);
    } else if a.ReturnerAppend? {
      AppendStep(c, s, a, place);
    } else {
      BareStep(c, s, a, place);
    }
  }

  lemma StepInv(c: Config, s: State, a: Action, place: seq<Place>)
    requires Inv(c, s, place) && Enabled(c, s, a)
    ensures Inv(c, Apply(c, s, a), Moved(s, a, place))
  {
    hide ListsPlaced, ReturnersPlaced, CallersPlaced, GetterLocked, RunningLocked, AdditionLocked, Counted, Isolated;
    StepLists(c, s, a, place);
    StepReturners(c, s, a, place);
    StepCallers(c, s, a, place);
    StepGetter(c, s, a);
    StepRunning(c, s, a, place);
    StepAddition(c, s, a, place);
    StepCounted(c, s, a);
    StepIsolated(c, s, a, place);
  }

  lemma {:induction false} RunInv(c: Config, s: State, run: seq<Action>, place: seq<Place>) returns (place': seq<Place>)
    requires Inv(c, s, place) && Legal(c, s, run)
    ensures Inv(c, After(c, s, run), place')
    decreases |run|
  {
    hide Inv, Apply, Enabled;
    if run == [] {
      place' := place;
    } else {
      StepInv(c, s, run[0], place);
      place' := RunInv(c, Apply(c, s, run[0]), run[1..], Moved(s, run[0], place));
    }
  }

  // ---------- What every run keeps ----------

  /** A state some interleaving of any number of callers and returners leads to. */
  ghost predicate Reachable(c: Config, s: State) {
    c.min <= c.max && exists callers: nat, run ::
      Legal(c, Init(c, callers), run) && s == After(c, Init(c, callers), run)
  }

  lemma ReachableInv(c: Config, s: State) returns (place: seq<Place>)
    requires Reachable(c, s)
    ensures Inv(c, s, place)
  {
    hide Inv, Apply, Enabled;
    var callers: nat, run :| Legal(c, Init(c, callers), run) && s == After(c, Init(c, callers), run);
    InitInv(c, callers);
    place := RunInv(c, Init(c, callers), run, seq(c.max, _ => Listed));
  }

  ghost predicate HeldBySome(s: State, w: nat) {
    exists t | 0 <= t < |s.callers| :: Worker(s.callers[t]) == Some(w)
  }

  /** Conservation: each worker is at every moment in exactly one place. */
  lemma ExactlyOnePlace(c: Config, s: State, w: nat)
    requires Reachable(c, s) && w < c.max
    ensures (if w in s.free then 1 else 0) + (if w in s.addition then 1 else 0)
            + (if HeldBySome(s, w) then 1 else 0) + (if Pending(s, w) then 1 else 0) == 1
    ensures NoRepeat(s.free) && NoRepeat(s.addition)
    ensures w in s.free ==> w < c.min
    ensures w in s.addition ==> w >= c.min
  {
    var place := ReachableInv(c, s);
    assert HeldBySome(s, w) <==> place[w].Held?;
  }

  /** Two callers never have the same worker, hence never the same data context. */
  lemma NeverShared(c: Config, s: State, t: nat, u: nat)
    requires Reachable(c, s) && t < u < |s.callers|
    requires Worker(s.callers[t]).Some? && Worker(s.callers[u]).Some?
    ensures Worker(s.callers[t]) != Worker(s.callers[u])
  {
    var place := ReachableInv(c, s);
  }

  /** Element 0, taken after an unlocked look at the length, is always there. */
  lemma ElementZeroExists(c: Config, s: State, t: nat)
    requires Reachable(c, s) && t < |s.callers|
    ensures !s.broken
    ensures s.callers[t].TakingFree? ==> s.free != []
    ensures s.callers[t].TakingAddition? ==> s.addition != []
  {
    var place := ReachableInv(c, s);
  }

  /** As long as a request or a returner is under way, something can happen. */
  lemma DeadlockFree(c: Config, s: State) returns (a: Action)
    requires Reachable(c, s)
    requires s.returning != map[] || exists t | 0 <= t < |s.callers| :: !s.callers[t].Idle?
    ensures Enabled(c, s, a) && !a.Begin?
  {
    var place := ReachableInv(c, s);
    hide ListsPlaced, ReturnersPlaced, Counted;
    if s.runningLock.Some? {
      a := RunningOwnerMoves(c, s);
    } else if s.additionLock.Some? {
      a := AdditionOwnerMoves(c, s);
    } else if s.getLock.Some? {
      var t := s.getLock.value;
      a := GetterMoves(c, s, t);
    } else if s.returning != map[] {
      var w :| w in s.returning;
      a := ReturnerLock(w);
    } else {
      var t :| 0 <= t < |s.callers| && !s.callers[t].Idle?;
      assert !HasGetter(s.callers[t]);
      a := HolderMoves(c, s, place, t);
    }
  }

  lemma RunningOwnerMoves(c: Config, s: State) returns (a: Action)
    requires RunningLocked(c, s) && s.runningLock.Some?
    ensures Enabled(c, s, a) && !a.Begin?
  {
    match s.runningLock.value
    case ByCaller(t) =>
      assert HasRunning(s.callers[t]);
      a := if s.callers[t].TakingFree? then TakeFree(t) else UnlockRunning(t);
    case ByReturner(w) =>
      a := if s.returning[w] == Locked then ReturnerAppend(w) else ReturnerUnlock(w);
  }

  lemma AdditionOwnerMoves(c: Config, s: State) returns (a: Action)
    requires AdditionLocked(c, s) && s.additionLock.Some?
    ensures Enabled(c, s, a) && !a.Begin?
  {
    match s.additionLock.value
    case ByCaller(t) =>
      assert HasAddition(s.callers[t]);
      a := if s.callers[t].TakingAddition? then TakeAddition(t) else UnlockAddition(t);
    case ByReturner(w) =>
      a := if s.returning[w] == Locked then ReturnerAppend(w) else ReturnerUnlock(w);
  }

  lemma GetterMoves(c: Config, s: State, t: nat) returns (a: Action)
    requires t < |s.callers| && HasGetter(s.callers[t]) && s.runningLock == None && s.additionLock == None
    requires RunningLocked(c, s) && AdditionLocked(c, s)
    ensures Enabled(c, s, a) && !a.Begin?
  {
    assert !HasRunning(s.callers[t]) && !HasAddition(s.callers[t]);
    match s.callers[t]
    case Looking(_) => a := ReadFree(t);
    case SawFree(_) => a := LockRunning(t);
    case SawNoFree(_) => a := ReadAddition(t);
    case SawAddition(_) => a := LockAddition(t);
    case Leaving(_, _) => a := UnlockGetter(t);
    case Spinning(_) => a := Spin(t);
  }

  lemma HolderMoves(c: Config, s: State, place: seq<Place>, t: nat) returns (a: Action)
    requires Placed(c, s, place) && Isolated(c, s, place) && s.getLock == None
    requires t < |s.callers| && !s.callers[t].Idle? && !HasGetter(s.callers[t])
    ensures Enabled(c, s, a) && !a.Begin?
  {
    assert Worker(s.callers[t]).Some? ==> s.callers[t].w < c.max;
    match s.callers[t]
    case Wanting(_) => a := LockGetter(t);
    case Binding(_, _, rest) =>
      if rest == {} {
        a := Run(t);
      } else {
        var name :| name in rest;
        a := Bind(t, name);
      }
    case Executing(_, _) => a := Unbind(t);
    case Unbound(_, _) => a := StartReturner(t);
  }

  // ---------- Request isolation ----------

  /**
   What a run sees: the APIs minus every name an earlier request on this worker deleted, plus its
   own data, and nothing of any other request. A worker nobody holds has exactly the first part.
   */
  lemma RunSeesOnlyItsOwn(c: Config, s: State, w: nat)
    requires Reachable(c, s) && w < c.max
    ensures |s.contexts| == |s.erased| == c.max
    ensures !HeldBySome(s, w) ==> s.contexts[w] == c.apis - s.erased[w]
    ensures forall t | 0 <= t < |s.callers| && s.callers[t].Executing? && s.callers[t].w == w ::
              s.contexts[w] == c.apis - s.erased[w] + Usable(s.callers[t].data, s.callers[t].data.Keys)
  {
    var place := ReachableInv(c, s);
    if !HeldBySome(s, w) {
      assert !place[w].Held?;
    }
    forall t | 0 <= t < |s.callers| && s.callers[t].Executing? && s.callers[t].w == w
      ensures s.contexts[w] == c.apis - s.erased[w] + Usable(s.callers[t].data, s.callers[t].data.Keys)
    {
      assert Worker(s.callers[t]) == Some(w);
    }
  }

  /** All names passed by the requests that worker w has served in a run, whether usable or not. */
  function Served(c: Config, s: State, run: seq<Action>, w: nat): set<string>
    requires Legal(c, s, run)
    decreases |run|
  {
    if run == [] then {}
    else
      (if run[0].Unbind? && s.callers[run[0].t].w == w then s.callers[run[0].t].data.Keys else {}) +
      Served(c, Apply(c, s, run[0]), run[1..], w)
  }

  lemma StepErases(c: Config, s: State, a: Action, w: nat)
    requires Enabled(c, s, a) && w < |s.erased|
    ensures |Apply(c, s, a).erased| == |s.erased|
    ensures Apply(c, s, a).erased[w] ==
            s.erased[w] + if a.Unbind? && s.callers[a.t].w == w then s.callers[a.t].data.Keys else {}
  {
    assert s.erased[w] + {} == s.erased[w];
  }

  lemma {:induction false} ErasedIsServed(c: Config, s: State, run: seq<Action>, w: nat)
    requires Legal(c, s, run) && w < |s.erased|
    ensures |After(c, s, run).erased| == |s.erased|
    ensures After(c, s, run).erased[w] == s.erased[w] + Served(c, s, run, w)
    decreases |run|
  {
    hide Apply, Enabled;
    if run != [] {
      StepErases(c, s, run[0], w);
      ErasedIsServed(c, Apply(c, s, run[0]), run[1..], w);
    }
  }

  /**
   After any run, the context of a worker nobody holds is as the pool created it exactly when none of
   the requests it served passed a name of an API.
   */
  lemma ContextRestoredIff(c: Config, callers: nat, run: seq<Action>, w: nat)
    requires c.min <= c.max && w < c.max && Legal(c, Init(c, callers), run)
    requires !HeldBySome(After(c, Init(c, callers), run), w)
    ensures |After(c, Init(c, callers), run).contexts| == c.max
    ensures After(c, Init(c, callers), run).contexts[w] == c.apis <==> Served(c, Init(c, callers), run, w) !! c.apis.Keys
  {
    hide Apply, Enabled, Legal, After, Served;
    var s := After(c, Init(c, callers), run);
    assert Reachable(c, s);
    RunSeesOnlyItsOwn(c, s, w);
    ErasedIsServed(c, Init(c, callers), run, w);
    if s.contexts[w] == c.apis {
      forall k | k in Served(c, Init(c, callers), run, w) ensures k !in c.apis {
        assert k !in s.contexts[w];
      }
    }
  }

  /** All names of all requests of a run, whether usable or not. */
  function Requested(run: seq<Action>): set<string> {
    if run == [] then {}
    else (if run[0].Begin? then run[0].data.Keys else {}) + Requested(run[1..])
  }

  function DataOf(p: Caller): set<string> {
    if p.Idle? then {} else p.data.Keys
  }

  /** What a worker has served was requested in the run, or under way when it began. */
  lemma {:induction false} ServedWasRequested(c: Config, s: State, run: seq<Action>, w: nat, names: set<string>)
    requires Legal(c, s, run) && Requested(run) <= names
    requires forall t | 0 <= t < |s.callers| :: DataOf(s.callers[t]) <= names
    ensures Served(c, s, run, w) <= names
    decreases |run|
  {
    if run != [] {
      StepRequested(c, s, run[0], names);
      hide Apply, Enabled;
      ServedWasRequested(c, Apply(c, s, run[0]), run[1..], w, names);
    }
  }

  lemma StepRequested(c: Config, s: State, a: Action, names: set<string>)
    requires Enabled(c, s, a) && (a.Begin? ==> a.data.Keys <= names)
    requires forall t | 0 <= t < |s.callers| :: DataOf(s.callers[t]) <= names
    ensures forall t | 0 <= t < |Apply(c, s, a).callers| :: DataOf(Apply(c, s, a).callers[t]) <= names
    ensures a.Unbind? ==> s.callers[a.t].data.Keys <= names
  {
    if a.Unbind? {
      assert DataOf(s.callers[a.t]) <= names;
    }
  }

  /**
   Over any history of requests whose names avoid the API names, a worker nobody holds has the
   context it was created with. Names bound to nil count too: they are not bound, but are deleted.
   */
  lemma ContextRestored(c: Config, callers: nat, run: seq<Action>, w: nat)
    requires c.min <= c.max && w < c.max && Legal(c, Init(c, callers), run)
    requires Requested(run) !! c.apis.Keys
    requires !HeldBySome(After(c, Init(c, callers), run), w)
    ensures |After(c, Init(c, callers), run).contexts| == c.max
    ensures After(c, Init(c, callers), run).contexts[w] == c.apis
  {
    hide Apply, Enabled;
    ServedWasRequested(c, Init(c, callers), run, w, Requested(run));
    ContextRestoredIff(c, callers, run, w);
  }

  /** The run takes s to s', and may go on with the actions that follow. */
  ghost predicate Leads(c: Config, s: State, run: seq<Action>, s': State) {
    Legal(c, s, run) && After(c, s, run) == s'
  }

  lemma Leading(c: Config, s: State, a: Action, s1: State, rest: seq<Action>, s': State)
    requires Enabled(c, s, a) && Apply(c, s, a) == s1 && Leads(c, s1, rest, s')
    ensures Leads(c, s, [a] + rest, s')
  {
    hide Enabled, Apply;
    assert ([a] + rest)[1..] == rest;
  }

  /** What the constructor of a pool asks for. */
  predicate Sized(c: Config) {
    0 < c.min < c.max
  }

  /** The state in which the only caller of a pool stands at p, having taken worker 0. */
  function Alone(c: Config, p: Caller, getLock: Option<nat>, runningLock: Option<Owner>, context: Bindings,
      gone: set<string>): State
    requires Sized(c)
  {
    var s := Init(c, 1);
    State(s.free[1..], s.addition, [p], map[], getLock, runningLock, None, s.contexts[0 := context], s.erased[0 := gone], false)
  }

  /** The same before it has taken the worker. */
  function Before(c: Config, p: Caller, getLock: Option<nat>, runningLock: Option<Owner>): State
    requires Sized(c)
  {
    Init(c, 1).(callers := [p], getLock := getLock, runningLock := runningLock)
  }

  lemma LookAlone(c: Config, data: Bindings, rest: seq<Action>, end: State)
    requires Sized(c) && Leads(c, Before(c, SawFree(data), Some(0), None), rest, end)
    ensures Leads(c, Init(c, 1), [Begin(0, data)] + ([LockGetter(0)] + ([ReadFree(0)] + rest)), end)
  {
    hide Leads;
    assert Init(c, 1) == Before(c, Idle, None, None);
    Leading(c, Before(c, Looking(data), Some(0), None), ReadFree(0), Before(c, SawFree(data), Some(0), None), rest, end);
    Leading(c, Before(c, Wanting(data), None, None), LockGetter(0), Before(c, Looking(data), Some(0), None), [ReadFree(0)] + rest, end);
    Leading(c, Init(c, 1), Begin(0, data), Before(c, Wanting(data), None, None), [LockGetter(0)] + ([ReadFree(0)] + rest), end);
  }

  lemma LockAlone(c: Config, data: Bindings, rest: seq<Action>, end: State)
    requires Sized(c) && Leads(c, Alone(c, TookFree(0, data), Some(0), Some(ByCaller(0)), c.apis, {}), rest, end)
    ensures Leads(c, Before(c, SawFree(data), Some(0), None), [LockRunning(0)] + ([TakeFree(0)] + rest), end)
  {
    hide Leads;
    var s3, s4 := Before(c, SawFree(data), Some(0), None), Before(c, TakingFree(data), Some(0), Some(ByCaller(0)));
    assert Init(c, 1).contexts[0 := c.apis] == Init(c, 1).contexts && Init(c, 1).erased[0 := {}] == Init(c, 1).erased;
    Leading(c, s4, TakeFree(0), Alone(c, TookFree(0, data), Some(0), Some(ByCaller(0)), c.apis, {}), rest, end);
    Leading(c, s3, LockRunning(0), s4, [TakeFree(0)] + rest, end);
  }

  lemma UnlockAlone(c: Config, data: Bindings, rest: seq<Action>, end: State)
    requires Sized(c) && Leads(c, Alone(c, Binding(0, data, data.Keys), None, None, c.apis, {}), rest, end)
    ensures Leads(c, Alone(c, TookFree(0, data), Some(0), Some(ByCaller(0)), c.apis, {}), [UnlockRunning(0)] + ([UnlockGetter(0)] + rest), end)
  {
    hide Leads;
    var s6 := Alone(c, Leaving(0, data), Some(0), None, c.apis, {});
    Leading(c, s6, UnlockGetter(0), Alone(c, Binding(0, data, data.Keys), None, None, c.apis, {}), rest, end);
    Leading(c, Alone(c, TookFree(0, data), Some(0), Some(ByCaller(0)), c.apis, {}), UnlockRunning(0), s6, [UnlockGetter(0)] + rest, end);
  }

  /** Nil is not bound. */
  lemma BindNil(c: Config, api: string, rest: seq<Action>, end: State)
    requires Sized(c) && Leads(c, Alone(c, Executing(0, map[api := Nil]), None, None, c.apis, {}), rest, end)
    ensures Leads(c, Alone(c, Binding(0, map[api := Nil], {api}), None, None, c.apis, {}), [Bind(0, api)] + ([Run(0)] + rest), end)
  {
    hide Leads;
    var data: Bindings := map[api := Nil];
    var s8 := Alone(c, Binding(0, data, {}), None, None, c.apis, {});
    Leading(c, s8, Run(0), Alone(c, Executing(0, data), None, None, c.apis, {}), rest, end);
    assert {api} - {api} == {};
    Leading(c, Alone(c, Binding(0, data, {api}), None, None, c.apis, {}), Bind(0, api), s8, [Run(0)] + rest, end);
  }

  /** But its name is deleted. */
  lemma UnbindNil(c: Config, api: string, rest: seq<Action>, end: State)
    requires Sized(c) && Leads(c, Alone(c, Unbound(0, map[api := Nil]), None, None, c.apis - {api}, {api}), rest, end)
    ensures Leads(c, Alone(c, Executing(0, map[api := Nil]), None, None, c.apis, {}), [Unbind(0)] + rest, end)
  {
    hide Leads;
    var data: Bindings := map[api := Nil];
    assert data.Keys == {api} && {} + data.Keys == {api};
    Leading(c, Alone(c, Executing(0, data), None, None, c.apis, {}), Unbind(0),
            Alone(c, Unbound(0, data), None, None, c.apis - {api}, {api}), rest, end);
  }

  lemma ReturnAlone(c: Config, api: string)
    requires Sized(c)
    ensures Leads(c, Alone(c, Unbound(0, map[api := Nil]), None, None, c.apis - {api}, {api}), [StartReturner(0)] + [], Finally(c, api))
  {
    hide Leads;
    NoActions(c, Finally(c, api));
    Leading(c, Alone(c, Unbound(0, map[api := Nil]), None, None, c.apis - {api}, {api}), StartReturner(0), Finally(c, api), [], Finally(c, api));
  }

  /** The request is over; the worker is on its way back. */
  function Finally(c: Config, api: string): State
    requires Sized(c)
  {
    Alone(c, Idle, None, None, c.apis - {api}, {api}).(returning := map[0 := Waiting])
  }

  lemma NoActions(c: Config, s: State)
    ensures Leads(c, s, [], s)
  {
  }

  /**
   In every pool there can be, a request that passes nil under an API's name binds nothing, yet the API
   is gone from the worker's context when the request is over: its names are deleted whether they were
   bound or not.
   */
  lemma NilErasesApi(c: Config, api: string) returns (run: seq<Action>)
    requires Sized(c) && api in c.apis
    ensures Legal(c, Init(c, 1), run) && Usable(map[api := Nil], {api}) == map[]
    ensures var s := After(c, Init(c, 1), run);
            !HeldBySome(s, 0) && s.contexts == Init(c, 1).contexts[0 := c.apis - {api}]
  {
    hide Legal, After;
    var data: Bindings := map[api := Nil];
    var end := Finally(c, api);
    assert data.Keys == {api};
    ReturnAlone(c, api);
    var unbind := [Unbind(0)] + ([StartReturner(0)] + []);
    UnbindNil(c, api, [StartReturner(0)] + [], end);
    var bind := [Bind(0, api)] + ([Run(0)] + unbind);
    BindNil(c, api, unbind, end);
    var unlock := [UnlockRunning(0)] + ([UnlockGetter(0)] + bind);
    UnlockAlone(c, data, bind, end);
    var taking := [LockRunning(0)] + ([TakeFree(0)] + unlock);
    LockAlone(c, data, unlock, end);
    LookAlone(c, data, taking, end);
    run := [Begin(0, data)] + ([LockGetter(0)] + ([ReadFree(0)] + taking));
  }

  // ---------- What a getter takes ----------

  predicate ByCallerT(a: Action, t: nat) {
    OfCaller(a) && a.t == t
  }

  /**
   A getter gives up only after it has read both lists empty: it comes to spin only by a step at which
   the addition list is empty, having come past the free list only by a step at which that was empty.
   It goes for a list exactly if it has read it non-empty.
   */
  lemma SpinsOnlyWhenEmpty(c: Config, s: State, a: Action, t: nat)
    requires Enabled(c, s, a) && t < |s.callers|
    ensures |Apply(c, s, a).callers| == |s.callers|
    ensures var p, p' := s.callers[t], Apply(c, s, a).callers[t];
            p' != p ==>
              && (p'.Spinning? ==> p.SawNoFree? && s.addition == [])
              && (p'.SawAddition? ==> p.SawNoFree? && s.addition != [])
              && (p'.SawNoFree? ==> p.Looking? && s.free == [])
              && (p'.SawFree? ==> p.Looking? && s.free != [])
              && (p'.TookFree? ==> s.free != [] && p'.w == s.free[0] && Apply(c, s, a).free == s.free[1..])
              && (p'.TookAddition? ==> s.addition != [] && p'.w == s.addition[0] && Apply(c, s, a).addition == s.addition[1..])
  {
  }

  /** The run takes s to s', and all its actions are those of caller t. */
  ghost predicate OwnRun(c: Config, s: State, run: seq<Action>, s': State, t: nat) {
    Leads(c, s, run, s') && forall a | a in run :: ByCallerT(a, t)
  }

  lemma OwnCons(c: Config, s: State, a: Action, s1: State, run: seq<Action>, s': State, t: nat)
    requires Enabled(c, s, a) && Apply(c, s, a) == s1 && ByCallerT(a, t) && OwnRun(c, s1, run, s', t)
    ensures OwnRun(c, s, [a] + run, s', t)
  {
    hide Enabled, Apply, Leads;
    Leading(c, s, a, s1, run, s');
  }

  lemma {:induction false} OwnConcat(c: Config, s: State, first: seq<Action>, s1: State, second: seq<Action>, s': State, t: nat)
    requires OwnRun(c, s, first, s1, t) && OwnRun(c, s1, second, s', t)
    ensures OwnRun(c, s, first + second, s', t)
    decreases |first|
  {
    hide Enabled, Apply;
    if first == [] {
      assert first + second == second;
    } else {
      assert (first + second)[1..] == first[1..] + second;
      assert OwnRun(c, Apply(c, s, first[0]), first[1..], s1, t);
      OwnConcat(c, Apply(c, s, first[0]), first[1..], s1, second, s', t);
    }
  }

  lemma OwnNothing(c: Config, s: State, t: nat)
    ensures OwnRun(c, s, [], s, t)
  {
  }

  /** The state after caller t has taken worker w and given all locks back. */
  function Taken(s: State, t: nat, w: nat): State
    requires t < |s.callers| && !s.callers[t].Idle?
  {
    var data := s.callers[t].data;
    s.(callers := s.callers[t := Binding(w, data, data.Keys)],
       free := if s.free != [] then s.free[1..] else s.free,
       addition := if s.free == [] && s.addition != [] then s.addition[1..] else s.addition)
  }

  lemma ThreeOwn(c: Config, s: State, s1: State, s2: State, s3: State, a: Action, b: Action, d: Action, t: nat)
    requires Enabled(c, s, a) && Apply(c, s, a) == s1 && Enabled(c, s1, b) && Apply(c, s1, b) == s2
    requires Enabled(c, s2, d) && Apply(c, s2, d) == s3 && ByCallerT(a, t) && ByCallerT(b, t) && ByCallerT(d, t)
    ensures OwnRun(c, s, [a] + ([b] + ([d] + [])), s3, t)
  {
    hide Enabled, Apply, OwnRun;
    OwnNothing(c, s3, t);
    OwnCons(c, s2, d, s3, [], s3, t);
    OwnCons(c, s1, b, s2, [d] + [], s3, t);
    OwnCons(c, s, a, s1, [b] + ([d] + []), s3, t);
  }

  lemma ReachesFree(c: Config, s: State, t: nat) returns (run: seq<Action>, s': State)
    requires t < |s.callers| && s.callers[t].Wanting? && s.getLock == None && s.runningLock == None && s.free != []
    ensures s' == Move(s, t, TakingFree(s.callers[t].data)).(getLock := Some(t), runningLock := Some(ByCaller(t)))
    ensures OwnRun(c, s, run, s', t)
  {
    var data := s.callers[t].data;
    var s1 := Move(s, t, Looking(data)).(getLock := Some(t));
    var s2 := Move(s1, t, SawFree(data));
    s' := Move(s2, t, TakingFree(data)).(runningLock := Some(ByCaller(t)));
    ThreeOwn(c, s, s1, s2, s', LockGetter(t), ReadFree(t), LockRunning(t), t);
    run := [LockGetter(t)] + ([ReadFree(t)] + ([LockRunning(t)] + []));
  }

  lemma TakesFree(c: Config, s: State, t: nat) returns (run: seq<Action>)
    requires t < |s.callers| && s.callers[t].Wanting? && s.getLock == None && s.runningLock == None && s.free != []
    ensures OwnRun(c, s, run, Taken(s, t, s.free[0]), t)
  {
    var data, w := s.callers[t].data, s.free[0];
    var first, s3 := ReachesFree(c, s, t);
    hide OwnRun;
    var s4 := Move(s3, t, TookFree(w, data)).(free := s.free[1..]);
    var s5 := Move(s4, t, Leaving(w, data)).(runningLock := None);
    ThreeOwn(c, s3, s4, s5, Taken(s, t, w), TakeFree(t), UnlockRunning(t), UnlockGetter(t), t);
    run := [TakeFree(t)] + ([UnlockRunning(t)] + ([UnlockGetter(t)] + []));
    OwnConcat(c, s, first, s3, run, Taken(s, t, w), t);
    run := first + run;
  }

  lemma ReachesAddition(c: Config, s: State, t: nat) returns (run: seq<Action>, s': State)
    requires t < |s.callers| && s.callers[t].Wanting? && s.getLock == None && s.free == [] && s.addition != []
    ensures s' == Move(s, t, SawAddition(s.callers[t].data)).(getLock := Some(t))
    ensures OwnRun(c, s, run, s', t)
  {
    var data := s.callers[t].data;
    var s1 := Move(s, t, Looking(data)).(getLock := Some(t));
    var s2 := Move(s1, t, SawNoFree(data));
    s' := Move(s2, t, SawAddition(data));
    ThreeOwn(c, s, s1, s2, s', LockGetter(t), ReadFree(t), ReadAddition(t), t);
    run := [LockGetter(t)] + ([ReadFree(t)] + ([ReadAddition(t)] + []));
  }

  lemma LeavesAddition(c: Config, s: State, t: nat) returns (run: seq<Action>, s': State)
    requires t < |s.callers| && s.callers[t].SawAddition? && s.additionLock == None && s.addition != []
    ensures s' == Move(s, t, Leaving(s.addition[0], s.callers[t].data)).(addition := s.addition[1..])
    ensures OwnRun(c, s, run, s', t)
  {
    var data, w := s.callers[t].data, s.addition[0];
    var s1 := Move(s, t, TakingAddition(data)).(additionLock := Some(ByCaller(t)));
    var s2 := Move(s1, t, TookAddition(w, data)).(addition := s.addition[1..]);
    s' := Move(s2, t, Leaving(w, data)).(additionLock := None);
    hide OwnRun;
    ThreeOwn(c, s, s1, s2, s', LockAddition(t), TakeAddition(t), UnlockAddition(t), t);
    run := [LockAddition(t)] + ([TakeAddition(t)] + ([UnlockAddition(t)] + []));
  }

  lemma TakesAddition(c: Config, s: State, t: nat) returns (run: seq<Action>)
    requires t < |s.callers| && s.callers[t].Wanting? && s.getLock == None && s.additionLock == None
    requires s.free == [] && s.addition != []
    ensures OwnRun(c, s, run, Taken(s, t, s.addition[0]), t)
  {
    hide OwnRun;
    var first, s1 := ReachesAddition(c, s, t);
    var second, s2 := LeavesAddition(c, s1, t);
    var s3 := Taken(s, t, s.addition[0]);
    assert Enabled(c, s2, UnlockGetter(t)) && Apply(c, s2, UnlockGetter(t)) == s3;
    hide Enabled, Apply, Taken;
    OwnNothing(c, s3, t);
    OwnCons(c, s2, UnlockGetter(t), s3, [], s3, t);
    OwnConcat(c, s1, second, s2, [UnlockGetter(t)] + [], s3, t);
    OwnConcat(c, s, first, s1, second + ([UnlockGetter(t)] + []), s3, t);
    run := first + (second + ([UnlockGetter(t)] + []));
  }

  /**
   A getter that finds the locks free and a worker in either list gets one by steps of its own: the head
   of the free list, or of the addition list if the free list is empty; everything else stays.
   */
  lemma GetterTakesHead(c: Config, s: State, t: nat) returns (run: seq<Action>)
    requires t < |s.callers| && s.callers[t].Wanting?
    requires s.getLock == None && s.runningLock == None && s.additionLock == None && (s.free != [] || s.addition != [])
    ensures var w := if s.free != [] then s.free[0] else s.addition[0];
            OwnRun(c, s, run, Taken(s, t, w), t)
  {
    hide OwnRun, Taken;
    if s.free != [] {
      run := TakesFree(c, s, t);
    } else {
      run := TakesAddition(c, s, t);
    }
  }

  /** Having taken a worker, a caller binds its data and executes, by steps of its own. */
  lemma {:induction false} BindsAll(c: Config, s: State, t: nat) returns (run: seq<Action>, s': State)
    requires t < |s.callers| && s.callers[t].Binding? && s.callers[t].w < |s.contexts| && s.callers[t].rest <= s.callers[t].data.Keys
    ensures OwnRun(c, s, run, s', t) && |s'.callers| == |s.callers|
    ensures s'.callers[t] == Executing(s.callers[t].w, s.callers[t].data)
    decreases s.callers[t].rest
  {
    var p := s.callers[t];
    if p.rest == {} {
      s' := Apply(c, s, Run(t));
      OwnNothing(c, s', t);
      OwnCons(c, s, Run(t), s', [], s', t);
      run := [Run(t)] + [];
    } else {
      var name :| name in p.rest;
      var s1 := Apply(c, s, Bind(t, name));
      assert s1.callers[t] == p.(rest := p.rest - {name}) && |s1.contexts| == |s.contexts|;
      run, s' := BindsAll(c, s1, t);
      OwnCons(c, s, Bind(t, name), s1, run, s', t);
      run := [Bind(t, name)] + run;
    }
  }

  lemma {:induction false} ReachableMore(c: Config, start: State, run: seq<Action>, more: seq<Action>, s: State, s': State)
    requires Leads(c, start, run, s) && Leads(c, s, more, s')
    ensures Leads(c, start, run + more, s')
    decreases |run|
  {
    hide Enabled, Apply;
    if run == [] {
      assert run + more == more;
    } else {
      assert (run + more)[1..] == run[1..] + more;
      ReachableMore(c, Apply(c, start, run[0]), run[1..], more, s, s');
    }
  }

  lemma StaysReachable(c: Config, s: State, more: seq<Action>, s': State)
    requires Reachable(c, s) && Leads(c, s, more, s')
    ensures Reachable(c, s')
  {
    hide Legal, After;
    var callers: nat, run :| Legal(c, Init(c, callers), run) && s == After(c, Init(c, callers), run);
    ReachableMore(c, Init(c, callers), run, more, s, s');
    assert Legal(c, Init(c, callers), run + more);
  }

  /**
   A request is served: from any reachable state with an idle caller, free locks and a worker in either
   list, steps of the caller's own lead to the execution of its request on the head of the first list
   that has one, in a context of the worker's remaining APIs and the request's usable data.
   */
  lemma RequestServed(c: Config, s: State, t: nat, data: Bindings) returns (run: seq<Action>, s': State)
    requires Reachable(c, s) && t < |s.callers| && s.callers[t].Idle?
    requires s.getLock == None && s.runningLock == None && s.additionLock == None && (s.free != [] || s.addition != [])
    ensures var w := if s.free != [] then s.free[0] else s.addition[0];
            && OwnRun(c, s, run, s', t) && |s'.callers| == |s.callers| && s'.callers[t] == Executing(w, data)
            && w < |s'.contexts| == |s'.erased| == c.max
            && s'.contexts[w] == c.apis - s'.erased[w] + Usable(data, data.Keys)
  {
    var w := if s.free != [] then s.free[0] else s.addition[0];
    var s1 := Apply(c, s, Begin(t, data));
    assert s1 == Move(s, t, Wanting(data));
    var take := GetterTakesHead(c, s1, t);
    var s2 := Taken(s1, t, w);
    HeadIsWorker(c, s);
    var bind;
    bind, s' := BindsAll(c, s2, t);
    OwnCons(c, s, Begin(t, data), s1, take, s2, t);
    run := ([Begin(t, data)] + take) + bind;
    OwnConcat(c, s, [Begin(t, data)] + take, s2, bind, s', t);
    hide Enabled, Apply, Taken;
    StaysReachable(c, s, run, s');
    RunSeesOnlyItsOwn(c, s', w);
  }

  lemma HeadIsWorker(c: Config, s: State)
    requires Reachable(c, s) && (s.free != [] || s.addition != [])
    ensures |s.contexts| == c.max && (if s.free != [] then s.free[0] else s.addition[0]) < c.max
  {
    var place := ReachableInv(c, s);
    if s.free != [] {
      assert s.free[0] in s.free;
    } else {
      assert s.addition[0] in s.addition;
    }
  }

  /** A returner that finds its lock free puts its worker at the end of the worker's own list. */
  lemma ReturnerAppends(c: Config, s: State, w: nat) returns (s': State)
    requires w in s.returning && s.returning[w] == Waiting && (if w < c.min then s.runningLock else s.additionLock) == None
    ensures Leads(c, s, [ReturnerLock(w), ReturnerAppend(w), ReturnerUnlock(w)], s')
    ensures s' == s.(free := if w < c.min then s.free + [w] else s.free, addition := if w < c.min then s.addition else s.addition + [w],
                     returning := s.returning - {w})
  {
    var s1 := Apply(c, s, ReturnerLock(w));
    var s2 := Apply(c, s1, ReturnerAppend(w));
    s' := Apply(c, s2, ReturnerUnlock(w));
    assert s.returning[w := Locked][w := Appended] - {w} == s.returning - {w};
    hide Enabled, Apply;
    assert [ReturnerLock(w), ReturnerAppend(w), ReturnerUnlock(w)][1..] == [ReturnerAppend(w), ReturnerUnlock(w)];
    assert [ReturnerAppend(w), ReturnerUnlock(w)][1..] == [ReturnerUnlock(w)] && [ReturnerUnlock(w)][1..] == [];
    assert Legal(c, s2, [ReturnerUnlock(w)]) && After(c, s2, [ReturnerUnlock(w)]) == s';
    assert Leads(c, s1, [ReturnerAppend(w), ReturnerUnlock(w)], s');
  }
}
