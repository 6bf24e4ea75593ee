/**
 Rule updates running against executions. One updater at a time (they hold the pool's update lock)
 rewrites the knowledge contexts field by field; any number of executions read them without a lock:
 the builder's context pointer, then the list in it, once for its length and once more for the list.
 An action is one read or write of a shared field; a step on memory nobody else can reach yet, such
 as building a context or merging a rule into the working copy, is one action as well.

 Slices are headers onto arrays, and arrays live in a heap that every step could write.
 */
module Snapshot {
  import opened Values
  import opened Ast
  import opened RuleOrder

  // ---------- State ----------

  type Arrays = map<nat, seq<RuleEntity>>

  /** A slice of an array that begins at its first cell. */
  datatype Header = Header(arr: nat, len: nat)

  /** The fields of a KnowledgeContext. */
  datatype Context = Context(entities: Registry, sorted: Header, index: map<string, nat>)

  /** History: which registry was put in force, and by what. */
  datatype Cause = Created | FullUpdate | IncrementalUpdate | Removal(names: set<string>) | Cleared

  datatype Version = Version(rules: Registry, cause: Cause)

  /** Where the holder of the update lock stands. */
  datatype Update =
    | Unlocked
    | Built(ctx: Context)               // full update: a context nobody else knows is ready
    | Merging(parsed: Registry, todo: set<string>, entities: Registry, work: Header)
    | Storing(parsed: Registry, work: Header) // new registry stored, list not yet
    | Sharing(next: nat)                // workers from next on do not have the main context yet
    | RemovingMain(names: set<string>)
    | Removing(names: set<string>, next: nat)
    | Closing                           // main builder dropped, clear flag not set yet
    | Clearing(next: nat, fields: nat)  // so many fields of the next worker's context are reset

  /** A rule read from a position of the list in the course of an execution. */
  datatype Fetched = Fetched(at: nat, rule: RuleEntity)

  /**
   Where an execution stands. An execution with selected names gathers them once, a layered one once
   for every layer. History: `since` is the oldest version it could have met on entering,
   `saw` the version whose length it read, `version` that of the list it took, `snapshot` what the
   list held then.
   */
  datatype Execution =
    | Ready
    | Entered(w: nat, since: int)
    | Measuring(w: nat, since: int, kc: nat)             // has read the context pointer
    | Measured(w: nat, since: int, saw: nat)             // has read a positive length
    | Fetching(w: nat, since: int, saw: nat, kc: nat)    // has read the pointer once more
    | Running(list: Header, since: int, saw: nat, version: nat, snapshot: seq<RuleEntity>, got: seq<Fetched>)
    | Refused                                            // "no rule has been injected"
    // looks the names up one by one into a list of its own
    | Gathering(w: nat, since: int, names: seq<string>, rest: seq<string>, list: Header)
    | Selected(w: nat, since: int, names: seq<string>, bySalience: bool, list: Header, snapshot: seq<RuleEntity>)

  /**
   Contexts are named by address; `workers[i]` is the context of worker i's builder, `main` that of
   the pool's. History: `versions`, the version each context's list arranges, and `frozen`, the arrays
   that were ever in a context.
   */
  datatype State = State(
    arrays: Arrays,
    contexts: map<nat, Context>,
    main: Option<nat>,
    workers: seq<nat>,
    clear: bool,
    updater: Update,
    executions: seq<Execution>,
    versions: seq<Version>,
    stamp: map<nat, nat>,
    frozen: set<nat>)

  function Window(arrays: Arrays, h: Header): seq<RuleEntity> {
    if h.arr in arrays && h.len <= |arrays[h.arr]| then arrays[h.arr][..h.len] else []
  }

  predicate InArrays(arrays: Arrays, h: Header) {
    h.arr in arrays && h.len <= |arrays[h.arr]|
  }

  /** A new pool: one context, shared by the main builder and all workers. */
  function Init(rules: Registry, list: seq<RuleEntity>, index: map<string, nat>, workers: nat, executions: nat): State {
    State(map[0 := list], map[0 := Context(rules, Header(0, |list|), index)], Some(0), seq(workers, _ => 0), false,
          Unlocked, seq(executions, _ => Ready), [Version(rules, Created)], map[0 := 0], {0})
  }

  /** Some workers may still have the version before the last one. */
  predicate Publishing(u: Update) {
    u.Sharing? || u.Removing? || u.Closing? || u.Clearing?
  }

  function Oldest(s: State): int {
    if Publishing(s.updater) then |s.versions| - 2 else |s.versions| - 1
  }

  // ---------- Actions ----------

  /**
   The parameters stand for addresses newly allocated and for results the rule index determines only
   up to the order of equal saliences: an arrangement and its index.
   */
  datatype Action =
    | BeginFull(parsed: Registry, arr: nat, list: seq<RuleEntity>, index: map<string, nat>)
    | SetMain(kc: nat)
    | ShareNext
    | EndShare
    | BeginIncremental(parsed: Registry, arr: nat)
    | MergeOne(name: string, arr: nat, cells: seq<RuleEntity>, len: nat, index: map<string, nat>)
    | PutEntities
    | PutSorted
    | BeginRemove(names: set<string>)
    | RemoveMain(kc: nat, arr: nat, list: seq<RuleEntity>, index: map<string, nat>)
    | RemoveNext(kc: nat, arr: nat, list: seq<RuleEntity>, index: map<string, nat>)
    | EndRemove
    | BeginClear
    | SetClear
    | ClearEntities
    | ClearSorted(arr: nat)
    | ClearIndex
    | EndClear
    | Enter(t: nat, w: nat)
    | LoadForLength(t: nat)
    | LoadLength(t: nat)
    | LoadAgain(t: nat)
    | LoadList(t: nat)
    | Fetch(t: nat, at: nat)
    | Select(t: nat, selected: seq<string>, arr: nat)
    | GatherOne(t: nat)
    | EndGather(t: nat, sort: bool)
    | Leave(t: nat)

  predicate OfExecution(a: Action) {
    a.Enter? || a.LoadForLength? || a.LoadLength? || a.LoadAgain? || a.LoadList? || a.Fetch? || a.Select? ||
    a.GatherOne? || a.EndGather? || a.Leave?
  }

  /** What sorting a registry gives: an arrangement of it and its index. */
  ghost predicate Sorts(list: seq<RuleEntity>, index: map<string, nat>, m: Registry) {
    Arranges(list, m) && Inverts(index, list)
  }

  /** What merging a rule into the working copy gives; the array changes only when a rule is added. */
  ghost predicate Merges(entities: Registry, name: string, v: RuleEntity, list: seq<RuleEntity>, index: map<string, nat>,
      inPlace: bool) {
    Sorts(list, index, entities[name := v]) && (inPlace || name !in entities)
  }

  ghost predicate Enabled(s: State, a: Action) {
    var u := s.updater;
    if OfExecution(a) then a.t < |s.executions| && EnabledExecution(s, a, s.executions[a.t])
    else
      match a
      case BeginFull(parsed, arr, list, index) =>
        u.Unlocked? && Keyed(parsed) && parsed != map[] && arr !in s.arrays && Sorts(list, index, parsed)
      case SetMain(kc) => u.Built? && kc !in s.contexts
      case ShareNext => u.Sharing? && u.next < |s.workers| && s.main.Some?
      case EndShare => u.Sharing? && u.next == |s.workers|
      case BeginIncremental(parsed, arr) =>
        u.Unlocked? && s.main.Some? && s.main.value in s.contexts && Keyed(parsed) && parsed != map[] && arr !in s.arrays
      case MergeOne(name, arr, cells, len, index) =>
        && u.Merging? && name in u.todo && name in u.parsed && s.main.Some? && s.main.value in s.contexts
        && (arr == u.work.arr || arr !in s.arrays) && len <= |cells|
        && Merges(u.entities, name, u.parsed[name], cells[..len], index, arr == u.work.arr)
      case PutEntities => u.Merging? && u.todo == {} && s.main.Some? && s.main.value in s.contexts
      case PutSorted => u.Storing? && s.main.Some? && s.main.value in s.contexts
      case BeginRemove(names) => u.Unlocked? && s.main.Some? && names != {}
      case RemoveMain(kc, arr, list, index) =>
        && u.RemovingMain? && kc !in s.contexts && arr !in s.arrays && s.main.Some? && s.main.value in s.contexts
        && Sorts(list, index, s.contexts[s.main.value].entities - u.names)
      case RemoveNext(kc, arr, list, index) =>
        && u.Removing? && u.next < |s.workers| && kc !in s.contexts && arr !in s.arrays
        && s.workers[u.next] in s.contexts && Sorts(list, index, s.contexts[s.workers[u.next]].entities - u.names)
      case EndRemove => u.Removing? && u.next == |s.workers|
      case BeginClear => u.Unlocked?
      case SetClear => u.Closing?
      case ClearEntities => u.Clearing? && u.fields == 0 && u.next < |s.workers| && s.workers[u.next] in s.contexts
      case ClearSorted(arr) =>
        u.Clearing? && u.fields == 1 && u.next < |s.workers| && s.workers[u.next] in s.contexts && arr !in s.arrays
      case ClearIndex => u.Clearing? && u.fields == 2 && u.next < |s.workers| && s.workers[u.next] in s.contexts
      case EndClear => u.Clearing? && u.fields == 0 && u.next == |s.workers|
  }

  predicate EnabledExecution(s: State, a: Action, e: Execution) {
    match a
    case Enter(_, w) => e.Ready? && w < |s.workers|
    case LoadForLength(_) => e.Entered? && e.w < |s.workers|
    case LoadLength(_) => e.Measuring? && e.kc in s.contexts && e.kc in s.stamp
    case LoadAgain(_) => e.Measured? && e.w < |s.workers|
    case LoadList(_) => e.Fetching? && e.kc in s.contexts && e.kc in s.stamp
    case Fetch(_, at) => e.Running? && at < e.list.len && InArrays(s.arrays, e.list)
    case Select(_, _, arr) => (e.Entered? || e.Selected?) && arr !in s.arrays
    case GatherOne(_) => e.Gathering? && e.rest != [] && e.w < |s.workers| && s.workers[e.w] in s.contexts && InArrays(s.arrays, e.list)
    case EndGather(_, _) => e.Gathering? && e.rest == [] && InArrays(s.arrays, e.list)
    case Leave(_) => e.Running? || e.Refused? || e.Selected?
    case _ => false
  }

  ghost function Apply(s: State, a: Action): State
    requires Enabled(s, a)
  {
    if OfExecution(a) then ApplyExecution(s, a) else ApplyUpdate(s, a)
  }

  ghost function ApplyUpdate(s: State, a: Action): State
    requires Enabled(s, a) && !OfExecution(a)
  {
    match a
    case BeginFull(parsed, arr, list, index) => FullBuilt(s, parsed, arr, list, index)
    case SetMain(kc) => MainSet(s, kc)
    case ShareNext => NextShared(s)
    case EndShare => s.(clear := false, updater := Unlocked)
    case BeginIncremental(parsed, arr) => Copied(s, parsed, arr)
    case MergeOne(name, arr, cells, len, index) => OneMerged(s, name, arr, cells, len, index)
    case PutEntities => EntitiesPut(s)
    case PutSorted => SortedPut(s)
    case BeginRemove(names) => s.(updater := RemovingMain(names))
    case RemoveMain(kc, arr, list, index) => MainRemoved(s, kc, arr, list, index)
    case RemoveNext(kc, arr, list, index) => NextRemoved(s, kc, arr, list, index)
    case EndRemove => s.(updater := Unlocked)
    case BeginClear => s.(main := None, updater := Closing, versions := s.versions + [Version(map[], Cleared)])
    case SetClear => s.(clear := true, updater := Clearing(0, 0))
    case ClearEntities => EntitiesCleared(s)
    case ClearSorted(arr) => SortedCleared(s, arr)
    case ClearIndex => IndexCleared(s)
    case EndClear => s.(updater := Unlocked)
  }

  function FullBuilt(s: State, parsed: Registry, arr: nat, list: seq<RuleEntity>, index: map<string, nat>): State {
    s.(arrays := s.arrays[arr := list], updater := Built(Context(parsed, Header(arr, |list|), index)))
  }

  function MainSet(s: State, kc: nat): State
    requires s.updater.Built?
  {
    var ctx := s.updater.ctx;
    Install(s, kc, ctx, |s.versions|).(main := Some(kc), updater := Sharing(0),
                                       versions := s.versions + [Version(ctx.entities, FullUpdate)])
  }

  function NextShared(s: State): State
    requires s.updater.Sharing? && s.updater.next < |s.workers| && s.main.Some?
  {
    s.(workers := s.workers[s.updater.next := s.main.value], updater := Sharing(s.updater.next + 1))
  }

  /** The incremental update starts on copies of the registry and the list. */
  function Copied(s: State, parsed: Registry, arr: nat): State
    requires s.main.Some? && s.main.value in s.contexts
  {
    var kc := s.contexts[s.main.value];
    var list := Window(s.arrays, kc.sorted);
    s.(arrays := s.arrays[arr := list], updater := Merging(parsed, parsed.Keys, kc.entities, Header(arr, |list|)))
  }

  /** It writes the index map of the live context at every step. */
  function OneMerged(s: State, name: string, arr: nat, cells: seq<RuleEntity>, len: nat, index: map<string, nat>): State
    requires s.updater.Merging? && name in s.updater.parsed && s.main.Some? && s.main.value in s.contexts
  {
    var m, u := s.main.value, s.updater;
    s.(arrays := s.arrays[arr := cells],
       contexts := s.contexts[m := s.contexts[m].(index := index)],
       updater := Merging(u.parsed, u.todo - {name}, u.entities[name := u.parsed[name]], Header(arr, len)))
  }

  function EntitiesPut(s: State): State
    requires s.updater.Merging? && s.main.Some? && s.main.value in s.contexts
  {
    var m, u := s.main.value, s.updater;
    s.(contexts := s.contexts[m := s.contexts[m].(entities := u.entities)], updater := Storing(u.parsed, u.work))
  }

  function SortedPut(s: State): State
    requires s.updater.Storing? && s.main.Some? && s.main.value in s.contexts
  {
    var m := s.main.value;
    Install(s, m, s.contexts[m].(sorted := s.updater.work), |s.versions|).(
      updater := Sharing(0), versions := s.versions + [Version(s.contexts[m].entities, IncrementalUpdate)])
  }

  function MainRemoved(s: State, kc: nat, arr: nat, list: seq<RuleEntity>, index: map<string, nat>): State
    requires s.updater.RemovingMain? && s.main.Some? && s.main.value in s.contexts
  {
    var names := s.updater.names;
    var rules := s.contexts[s.main.value].entities - names;
    Install(s, kc, Context(rules, Header(arr, |list|), index), |s.versions|).(
      arrays := s.arrays[arr := list], main := Some(kc), updater := Removing(names, 0),
      versions := s.versions + [Version(rules, Removal(names))])
  }

  function NextRemoved(s: State, kc: nat, arr: nat, list: seq<RuleEntity>, index: map<string, nat>): State
    requires s.updater.Removing? && s.updater.next < |s.workers| && s.workers[s.updater.next] in s.contexts
  {
    var names, next := s.updater.names, s.updater.next;
    var rules := s.contexts[s.workers[next]].entities - names;
    Install(s, kc, Context(rules, Header(arr, |list|), index), |s.versions| - 1).(
      arrays := s.arrays[arr := list], workers := s.workers[next := kc], updater := Removing(names, next + 1))
  }

  function EntitiesCleared(s: State): State
    requires s.updater.Clearing? && s.updater.next < |s.workers| && s.workers[s.updater.next] in s.contexts
  {
    var k := s.workers[s.updater.next];
    s.(contexts := s.contexts[k := s.contexts[k].(entities := map[])], updater := Clearing(s.updater.next, 1))
  }

  function SortedCleared(s: State, arr: nat): State
    requires s.updater.Clearing? && s.updater.next < |s.workers| && s.workers[s.updater.next] in s.contexts
  {
    var k := s.workers[s.updater.next];
    Install(s, k, s.contexts[k].(sorted := Header(arr, 0)), |s.versions| - 1).(
      arrays := s.arrays[arr := []], updater := Clearing(s.updater.next, 2))
  }

  function IndexCleared(s: State): State
    requires s.updater.Clearing? && s.updater.next < |s.workers| && s.workers[s.updater.next] in s.contexts
  {
    var k := s.workers[s.updater.next];
    s.(contexts := s.contexts[k := s.contexts[k].(index := map[])], updater := Clearing(s.updater.next + 1, 0))
  }

  /** A context with a list of the given version; its array may from now on be read by anyone. */
  function Install(s: State, kc: nat, ctx: Context, version: int): State {
    s.(contexts := s.contexts[kc := ctx], stamp := s.stamp[kc := if version < 0 then 0 else version],
       frozen := s.frozen + {ctx.sorted.arr})
  }

  function Move(s: State, t: nat, e: Execution): State
    requires t < |s.executions|
  {
    s.(executions := s.executions[t := e])
  }

  function ApplyExecution(s: State, a: Action): State
    requires OfExecution(a) && a.t < |s.executions| && EnabledExecution(s, a, s.executions[a.t])
  {
    var e := s.executions[a.t];
    if Reading(a) then Move(s, a.t, AfterRead(s, a, e))
    else
      match a
      case Select(t, selected, arr) => Move(s, t, Gathering(e.w, e.since, selected, selected, Header(arr, 0))).(arrays := s.arrays[arr := []])
      case GatherOne(t) =>
        var entities, name := s.contexts[s.workers[e.w]].entities, e.rest[0];
        if name in entities then
          Move(s, t, Gathering(e.w, e.since, e.names, e.rest[1..], Header(e.list.arr, e.list.len + 1))).(
            arrays := s.arrays[e.list.arr := Window(s.arrays, e.list) + [entities[name]]])
        else Move(s, t, e.(rest := e.rest[1..]))
      case EndGather(t, sort) =>
        var found := Window(s.arrays, e.list);
        var rules := if sort then StableSort(found) else found;
        Move(s, t, Selected(e.w, e.since, e.names, sort, Header(e.list.arr, |rules|), rules)).(arrays := s.arrays[e.list.arr := rules])
  }

  predicate Reading(a: Action) {
    OfExecution(a) && !a.Select? && !a.GatherOne? && !a.EndGather?
  }

  /** Where a step that only reads shared state leaves the execution that makes it. */
  function AfterRead(s: State, a: Action, e: Execution): Execution
    requires Reading(a) && EnabledExecution(s, a, e)
  {
    match a
    case Enter(_, w) => if s.clear then e else Entered(w, Oldest(s))
    case LoadForLength(_) => Measuring(e.w, e.since, s.workers[e.w])
    case LoadLength(_) => if s.contexts[e.kc].sorted.len == 0 then Refused else Measured(e.w, e.since, s.stamp[e.kc])
    case LoadAgain(_) => Fetching(e.w, e.since, e.saw, s.workers[e.w])
    case LoadList(_) =>
      var list := s.contexts[e.kc].sorted;
      Running(list, e.since, e.saw, s.stamp[e.kc], Window(s.arrays, list), [])
    case Fetch(_, at) => e.(got := e.got + [Fetched(at, s.arrays[e.list.arr][at])])
    case Leave(_) => Ready
  }

  // ---------- The invariant ----------

  function Last(s: State): int {
    |s.versions| - 1
  }

  /** The version empties a registry: a clear, or a removal of all rules there were. */
  predicate Emptying(versions: seq<Version>, v: int) {
    && 0 < v < |versions|
    && (versions[v].cause.Cleared? ||
        (versions[v].cause.Removal? && versions[v - 1].rules.Keys <= versions[v].cause.names))
  }

  ghost predicate Causes(versions: seq<Version>) {
    && versions != []
    && (forall v | 0 <= v < |versions| :: Keyed(versions[v].rules))
    && (forall v | 0 < v < |versions| :: versions[v].rules == map[] <==> Emptying(versions, v))
  }

  /** Every context's list is a complete sorted list of one version, in an array that is marked as seen. */
  ghost predicate ContextOk(s: State, k: nat) {
    && k in s.contexts && k in s.stamp && s.stamp[k] < |s.versions|
    && InArrays(s.arrays, s.contexts[k].sorted) && s.contexts[k].sorted.arr in s.frozen
    && Arranges(Window(s.arrays, s.contexts[k].sorted), s.versions[s.stamp[k]].rules)
  }

  ghost predicate Heap(s: State) {
    && s.contexts.Keys == s.stamp.Keys && s.frozen <= s.arrays.Keys
    && (forall k | k in s.contexts :: ContextOk(s, k))
    && (forall w | 0 <= w < |s.workers| :: s.workers[w] in s.contexts)
    && (s.main.Some? ==> s.main.value in s.contexts)
  }

  /** The context has the registry and the list of version v. */
  ghost predicate Has(s: State, k: nat, v: int) {
    k in s.contexts && k in s.stamp && s.stamp[k] == v && 0 <= v < |s.versions| && s.contexts[k].entities == s.versions[v].rules
  }

  /** And its index inverts the list. */
  ghost predicate Complete(s: State, k: nat, v: int) {
    Has(s, k, v) && Inverts(s.contexts[k].index, Window(s.arrays, s.contexts[k].sorted))
  }

  /** Nothing is under way: all contexts in use are complete and of the last version. */
  ghost predicate Settled(s: State)
    requires s.versions != []
  {
    && (forall w | 0 <= w < |s.workers| :: Complete(s, s.workers[w], Last(s)))
    && (s.main.Some? ==> Complete(s, s.main.value, Last(s)) && !s.clear)
    && (s.main == None ==> s.clear && s.versions[Last(s)].rules == map[])
  }

  /** The array only the updater can reach. */
  function WorkArray(u: Update): Option<nat> {
    match u
    case Built(ctx) => Some(ctx.sorted.arr)
    case Merging(_, _, _, work) => Some(work.arr)
    case Storing(_, work) => Some(work.arr)
    case _ => None
  }

  ghost predicate Working(s: State, work: Header) {
    InArrays(s.arrays, work) && work.arr !in s.frozen
  }

  ghost predicate Stamped(s: State, v: int) {
    forall w | 0 <= w < |s.workers| :: s.workers[w] in s.stamp && s.stamp[s.workers[w]] >= v
  }

  ghost predicate Phase(s: State)
    requires s.versions != []
  {
    match s.updater
    case Unlocked => Settled(s)
    case RemovingMain(names) => Settled(s) && s.main.Some? && names != {}
    case Built(_) => Settled(s) && BuiltOk(s)
    case Merging(_, _, _, _) => MergingOk(s)
    case Storing(_, _) => StoringOk(s)
    case Sharing(_) => SharingOk(s)
    case Removing(_, _) => RemovingOk(s)
    case Closing => ClosingOk(s)
    case Clearing(_, _) => ClearingOk(s)
  }

  ghost predicate BuiltOk(s: State)
    requires s.updater.Built?
  {
    var ctx := s.updater.ctx;
    && Working(s, ctx.sorted) && Keyed(ctx.entities) && ctx.entities != map[]
    && Sorts(Window(s.arrays, ctx.sorted), ctx.index, ctx.entities)
  }

  /** The live context has the old registry and list, and the index of the working copy. */
  ghost predicate MergingOk(s: State)
    requires s.versions != [] && s.updater.Merging?
  {
    var u := s.updater;
    && Stamped(s, Last(s)) && s.main.Some? && Has(s, s.main.value, Last(s)) && !s.clear
    && Working(s, u.work) && Keyed(u.parsed) && u.parsed != map[] && u.todo <= u.parsed.Keys
    && u.entities == s.versions[Last(s)].rules + (u.parsed - u.todo)
    && Sorts(Window(s.arrays, u.work), s.contexts[s.main.value].index, u.entities)
  }

  /** It has the new registry and index, and still the old list. */
  ghost predicate StoringOk(s: State)
    requires s.versions != [] && s.updater.Storing?
  {
    var u := s.updater;
    && Stamped(s, Last(s)) && s.main.Some? && s.main.value in s.contexts && !s.clear
    && s.main.value in s.stamp && s.stamp[s.main.value] == Last(s)
    && Working(s, u.work) && Keyed(u.parsed) && u.parsed != map[]
    && s.contexts[s.main.value].entities == s.versions[Last(s)].rules + u.parsed
    && Sorts(Window(s.arrays, u.work), s.contexts[s.main.value].index, s.contexts[s.main.value].entities)
  }

  ghost predicate SharingOk(s: State)
    requires s.versions != [] && s.updater.Sharing?
  {
    var next := s.updater.next;
    && Last(s) > 0 && Stamped(s, Last(s) - 1) && next <= |s.workers|
    && s.main.Some? && Complete(s, s.main.value, Last(s))
    && (forall w | 0 <= w < next :: s.workers[w] == s.main.value)
  }

  ghost predicate RemovingOk(s: State)
    requires s.versions != [] && s.updater.Removing?
  {
    var next := s.updater.next;
    && Last(s) > 0 && next <= |s.workers| && s.main.Some? && Complete(s, s.main.value, Last(s)) && !s.clear
    && s.versions[Last(s)].rules == s.versions[Last(s) - 1].rules - s.updater.names
    && (forall w | 0 <= w < next :: Complete(s, s.workers[w], Last(s)))
    && (forall w | next <= w < |s.workers| :: Has(s, s.workers[w], Last(s) - 1) && s.workers[w] !in Reached(s))
  }

  ghost predicate ClosingOk(s: State)
    requires s.versions != []
  {
    Last(s) > 0 && Stamped(s, Last(s) - 1) && s.main == None && s.versions[Last(s)].rules == map[]
  }

  ghost predicate ClearingOk(s: State)
    requires s.versions != [] && s.updater.Clearing?
  {
    var next, fields := s.updater.next, s.updater.fields;
    && ClosingOk(s) && s.clear
    && next <= |s.workers| && fields <= 2 && (fields > 0 ==> next < |s.workers|)
    && (forall w | 0 <= w < next :: Complete(s, s.workers[w], Last(s)))
    && (fields >= 1 ==> s.workers[next] in s.contexts && s.contexts[s.workers[next]].entities == map[])
    && (fields >= 2 ==> s.workers[next] in s.stamp && s.stamp[s.workers[next]] == Last(s))
  }

  /** Contexts in use that a pointer read earlier from some other place cannot be. */
  function Reached(s: State): set<nat> {
    (if s.main.Some? then {s.main.value} else {}) +
    match s.updater
    case Sharing(_) => {}
    case Removing(_, next) => set w | 0 <= w < next && w < |s.workers| :: s.workers[w]
    case _ => set w | 0 <= w < |s.workers| :: s.workers[w]
  }

  /** A context pointer read from worker w: still the current one, or out of use for good. */
  ghost predicate Held(s: State, w: nat, k: nat) {
    && w < |s.workers| && k in s.stamp && s.workers[w] in s.stamp
    && (k == s.workers[w] || k !in Reached(s))
    && s.stamp[k] <= s.stamp[s.workers[w]]
  }

  ghost predicate Saw(s: State, since: int, saw: nat) {
    since <= saw < |s.versions| && s.versions[saw].rules != map[]
  }

  ghost predicate OwnList(s: State, list: Header) {
    InArrays(s.arrays, list) && list.arr !in s.frozen && WorkArray(s.updater) != Some(list.arr)
  }

  ghost predicate ExecutionOk(s: State, e: Execution) {
    match e
    case Ready => true
    case Refused => true
    case Entered(w, since) => w < |s.workers| && since <= Oldest(s)
    case Measuring(w, since, kc) => Held(s, w, kc) && kc in s.contexts && since <= s.stamp[kc]
    case Measured(w, since, saw) =>
      w < |s.workers| && s.workers[w] in s.stamp && Saw(s, since, saw) && saw <= s.stamp[s.workers[w]]
    case Fetching(_, since, saw, kc) => kc in s.contexts && kc in s.stamp && Saw(s, since, saw) && saw <= s.stamp[kc]
    case Running(list, since, saw, version, snapshot, got) =>
      && InArrays(s.arrays, list) && list.arr in s.frozen && Window(s.arrays, list) == snapshot
      && Saw(s, since, saw) && saw <= version < |s.versions|
      && Arranges(snapshot, s.versions[version].rules)
      && (forall i | 0 <= i < |got| :: got[i].at < |snapshot| && got[i].rule == snapshot[got[i].at])
    case Gathering(w, since, _, _, list) => w < |s.workers| && since <= Oldest(s) && OwnList(s, list)
    case Selected(w, since, _, _, list, snapshot) =>
      w < |s.workers| && since <= Oldest(s) && OwnList(s, list) && Window(s.arrays, list) == snapshot
  }

  function OwnArray(e: Execution): Option<nat> {
    if e.Gathering? || e.Selected? then Some(e.list.arr) else None
  }

  ghost predicate Executions(s: State) {
    && (forall t | 0 <= t < |s.executions| :: ExecutionOk(s, s.executions[t]))
    && (forall t, u | 0 <= t < u < |s.executions| :: OwnArray(s.executions[t]).Some? ==>
          OwnArray(s.executions[t]) != OwnArray(s.executions[u]))
  }

  ghost predicate Inv(s: State) {
    Causes(s.versions) && Heap(s) && Phase(s) && Executions(s)
  }

  // ---------- What an update does to executions ----------

  ghost predicate Extends(versions: seq<Version>, versions': seq<Version>) {
    |versions| <= |versions'| && forall v | 0 <= v < |versions| :: versions'[v] == versions[v]
  }

  /** No array that was ever in a context is written; nor is any other but the updater's own. */
  ghost predicate ArraysKept(s: State, s': State) {
    && s.frozen <= s'.frozen
    && (forall a | a in s.arrays :: a in s'.arrays && (WorkArray(s.updater) != Some(a) ==> s'.arrays[a] == s.arrays[a]))
    && (forall a | a in s.frozen :: WorkArray(s.updater) != Some(a))
    && (forall a | a in s.arrays && a !in s.frozen && WorkArray(s.updater) != Some(a) ::
          a !in s'.frozen && WorkArray(s'.updater) != Some(a))
  }

  ghost predicate StampsGrow(s: State, s': State) {
    && (forall k | k in s.contexts && k in s.stamp :: k in s'.contexts && k in s'.stamp && s.stamp[k] <= s'.stamp[k])
    && |s'.workers| == |s.workers|
    && (forall w | 0 <= w < |s.workers| && s.workers[w] in s.stamp ::
          s'.workers[w] in s'.stamp && s.stamp[s.workers[w]] <= s'.stamp[s'.workers[w]])
    && (forall w, k | k in s.contexts && Held(s, w, k) :: Held(s', w, k))
  }

  ghost predicate Grows(s: State, s': State) {
    && s'.executions == s.executions && Extends(s.versions, s'.versions) && Oldest(s) <= Oldest(s')
    && ArraysKept(s, s') && StampsGrow(s, s') && s.frozen <= s.arrays.Keys
  }

  lemma ExecutionKept(s: State, s': State, e: Execution)
    requires Grows(s, s') && ExecutionOk(s, e)
    ensures ExecutionOk(s', e)
  {
    hide Reached, Arranges;
  }

  lemma ExecutionsKept(s: State, s': State)
    requires Grows(s, s') && Executions(s)
    ensures Executions(s')
  {
    hide ExecutionOk, ArraysKept, StampsGrow;
    forall t | 0 <= t < |s'.executions| ensures ExecutionOk(s', s'.executions[t]) {
      ExecutionKept(s, s', s.executions[t]);
    }
  }

  // ---------- Every update step keeps the invariant ----------

  /** What remains to be shown for one step of the updater. */
  ghost predicate Good(s: State, s': State) {
    Causes(s'.versions) && Heap(s') && Phase(s') && Grows(s, s')
  }

  /** All contexts but one, if any, keep their list and its version. */
  ghost predicate OthersKept(s: State, s': State, changed: Option<nat>) {
    && s'.contexts.Keys == s'.stamp.Keys == s.contexts.Keys + (if changed.Some? then {changed.value} else {})
    && (forall k | k in s.contexts && k in s.stamp && changed != Some(k) :: 
          k in s'.stamp && k in s'.contexts && s'.stamp[k] == s.stamp[k] && s'.contexts[k].sorted == s.contexts[k].sorted)
  }

  /** A context that keeps its list and its version stays as it was. */
  lemma ContextKept(s: State, s': State, k: nat)
    requires ContextOk(s, k) && Extends(s.versions, s'.versions) && ArraysKept(s, s') && s.frozen <= s.arrays.Keys
    requires k in s'.contexts && k in s'.stamp && s'.stamp[k] == s.stamp[k] && s'.contexts[k].sorted == s.contexts[k].sorted
    ensures ContextOk(s', k) && Window(s'.arrays, s'.contexts[k].sorted) == Window(s.arrays, s.contexts[k].sorted)
  {
    hide Arranges;
  }

  lemma HeapStep(s: State, s': State, changed: Option<nat>)
    requires Heap(s) && Extends(s.versions, s'.versions) && ArraysKept(s, s') && OthersKept(s, s', changed)
    requires changed.Some? ==> ContextOk(s', changed.value)
    requires s'.frozen <= s'.arrays.Keys && (s'.main.Some? ==> s'.main.value in s'.contexts)
    requires forall w | 0 <= w < |s'.workers| :: s'.workers[w] in s'.contexts
    ensures Heap(s')
    ensures forall k | k in s.contexts && changed != Some(k) ::
              Window(s'.arrays, s'.contexts[k].sorted) == Window(s.arrays, s.contexts[k].sorted)
  {
    hide ContextOk, ArraysKept, Extends, Window;
    forall k | k in s.contexts && changed != Some(k)
      ensures ContextOk(s', k) && Window(s'.arrays, s'.contexts[k].sorted) == Window(s.arrays, s.contexts[k].sorted)
    {
      assert ContextOk(s, k);
      ContextKept(s, s', k);
    }
    forall k | k in s'.contexts ensures ContextOk(s', k) {
      assert k in s.contexts || changed == Some(k);
    }
  }

  lemma CausesSnoc(versions: seq<Version>, v: Version)
    requires Causes(versions) && Keyed(v.rules)
    requires v.rules == map[] <==> v.cause.Cleared? || (v.cause.Removal? && versions[|versions| - 1].rules.Keys <= v.cause.names)
    ensures versions != [] && Causes(versions + [v]) && Extends(versions, versions + [v])
  {
    var versions' := versions + [v];
    forall i | 0 < i < |versions'| ensures versions'[i].rules == map[] <==> Emptying(versions', i) {
      if i < |versions| {
        assert versions[i].rules == map[] <==> Emptying(versions, i);
      }
    }
  }

  lemma StampsBelow(s: State)
    requires Heap(s)
    ensures forall k | k in s.contexts :: k in s.stamp && s.stamp[k] < |s.versions|
  {
    hide Arranges, Window;
    forall k | k in s.contexts ensures k in s.stamp && s.stamp[k] < |s.versions| {
      assert ContextOk(s, k);
    }
  }

  lemma ListOf(s: State, k: nat)
    requires Heap(s) && k in s.contexts
    ensures k in s.stamp && s.stamp[k] < |s.versions|
    ensures Arranges(Window(s.arrays, s.contexts[k].sorted), s.versions[s.stamp[k]].rules)
  {
    hide Arranges, Window;
    assert ContextOk(s, k);
  }

  /** An array nobody knew becomes that of a context. */
  lemma FreshArray(s: State, s': State, arr: nat, list: seq<RuleEntity>)
    requires Heap(s) && arr !in s.arrays && s'.arrays == s.arrays[arr := list] && s'.frozen == s.frozen + {arr}
    requires WorkArray(s.updater) == None && WorkArray(s'.updater) == None
    ensures ArraysKept(s, s') && s'.frozen <= s'.arrays.Keys && Window(s'.arrays, Header(arr, |list|)) == list
  {
    assert list[..|list|] == list;
  }

  /** Contexts keep their lists and versions, and workers their contexts. */
  lemma SteadyStep(s: State, s': State)
    requires Heap(s) && OthersKept(s, s', None) && ArraysKept(s, s') && Extends(s.versions, s'.versions)
    requires s'.executions == s.executions && s'.workers == s.workers && s'.stamp == s.stamp && s'.frozen == s.frozen
    requires s'.main.Some? ==> s'.main.value in s.contexts
    requires Reached(s') <= Reached(s) && Oldest(s) <= Oldest(s')
    ensures Heap(s') && Grows(s, s')
    ensures forall k | k in s.contexts ::
              Window(s'.arrays, s'.contexts[k].sorted) == Window(s.arrays, s.contexts[k].sorted)
  {
    hide Reached, Oldest, Window, ContextOk;
    HeapStep(s, s', None);
    SameStamps(s, s');
  }

  lemma SameStamps(s: State, s': State)
    requires s'.workers == s.workers && s'.stamp == s.stamp && s'.contexts.Keys == s.contexts.Keys
    requires Reached(s') <= Reached(s)
    ensures StampsGrow(s, s')
  {
    hide Reached;
  }

  lemma SettledKept(s: State, s': State)
    requires s.versions != [] && Settled(s) && Heap(s)
    requires s'.versions == s.versions && s'.workers == s.workers && s'.main == s.main && s'.clear == s.clear
    requires s'.contexts == s.contexts && s'.stamp == s.stamp
    requires forall k | k in s.contexts ::
              Window(s'.arrays, s'.contexts[k].sorted) == Window(s.arrays, s.contexts[k].sorted)
    ensures Settled(s')
  {
    hide Inverts, Window;
    forall w | 0 <= w < |s.workers| ensures Complete(s', s'.workers[w], Last(s')) {
      assert Complete(s, s.workers[w], Last(s));
    }
  }

  /** The invariant as far as the updater is concerned. */
  ghost predicate Base(s: State) {
    Causes(s.versions) && Heap(s) && Phase(s)
  }

  lemma SettledStamps(s: State)
    requires s.versions != [] && Settled(s)
    ensures Stamped(s, Last(s)) && Stamped(s, Last(s) - 1)
  {
  }

  // Full update.

  lemma FullBuiltGood(s: State, parsed: Registry, arr: nat, list: seq<RuleEntity>, index: map<string, nat>)
    requires Base(s) && s.updater.Unlocked?
    requires Keyed(parsed) && parsed != map[] && arr !in s.arrays && Sorts(list, index, parsed)
    ensures Good(s, FullBuilt(s, parsed, arr, list, index))
  {
    hide Arranges, Inverts, Keyed, Emptying, ContextOk, StampsGrow, Settled;
    var s' := FullBuilt(s, parsed, arr, list, index);
    SteadyStep(s, s');
    SettledKept(s, s');
    assert list[..|list|] == list;
  }

  /** A new context with a list of a new version, which the main builder takes up. */
  lemma NewMain(s: State, s': State, kc: nat)
    requires Heap(s) && s.versions != [] && kc !in s.contexts && kc in s'.contexts && kc in s'.stamp
    requires OthersKept(s, s', Some(kc)) && ArraysKept(s, s') && Extends(s.versions, s'.versions)
    requires s'.executions == s.executions && s'.workers == s.workers && s'.main == Some(kc)
    requires Reached(s') == {kc} && ContextOk(s', kc) && s'.frozen <= s'.arrays.Keys && Oldest(s) <= Oldest(s')
    ensures Heap(s') && Grows(s, s')
    ensures forall k | k in s.contexts ::
              Window(s'.arrays, s'.contexts[k].sorted) == Window(s.arrays, s.contexts[k].sorted)
  {
    hide Reached, Oldest, Window, ContextOk;
    HeapStep(s, s', Some(kc));
  }

  lemma MainSetHeap(s: State, s': State, kc: nat)
    requires Causes(s.versions) && Heap(s) && s.updater.Built? && BuiltOk(s) && kc !in s.contexts && s' == MainSet(s, kc)
    ensures Causes(s'.versions) && Extends(s.versions, s'.versions) && Heap(s') && Grows(s, s')
  {
    hide Arranges, Inverts, Keyed, Causes, StampsGrow, Phase;
    CausesSnoc(s.versions, Version(s.updater.ctx.entities, FullUpdate));
    assert ArraysKept(s, s');
    NewMain(s, s', kc);
  }

  lemma MainSetGood(s: State, kc: nat)
    requires Base(s) && s.updater.Built? && kc !in s.contexts
    ensures Good(s, MainSet(s, kc))
  {
    hide Arranges, Inverts, Keyed, Emptying, Heap, Grows;
    MainSetHeap(s, MainSet(s, kc), kc);
    SettledStamps(s);
  }

  lemma NextSharedGood(s: State)
    requires Base(s) && s.updater.Sharing? && s.updater.next < |s.workers| && s.main.Some?
    ensures Good(s, NextShared(s))
  {
    hide Arranges, Inverts, Keyed, Emptying, Window, ContextOk;
    var s' := NextShared(s);
    HeapStep(s, s', None);
    StampsBelow(s);
  }

  lemma EndShareGood(s: State)
    requires Base(s) && s.updater.Sharing? && s.updater.next == |s.workers|
    ensures Good(s, s.(clear := false, updater := Unlocked))
  {
    hide Arranges, Inverts, Keyed, Emptying, ContextOk, StampsGrow;
    var s' := s.(clear := false, updater := Unlocked);
    assert Reached(s') <= Reached(s);
    SteadyStep(s, s');
  }

  // Incremental update.

  lemma CopiedGood(s: State, parsed: Registry, arr: nat)
    requires Base(s) && s.updater.Unlocked? && s.main.Some? && s.main.value in s.contexts
    requires Keyed(parsed) && parsed != map[] && arr !in s.arrays
    ensures Good(s, Copied(s, parsed, arr))
  {
    hide Arranges, Inverts, Keyed, Emptying, StampsGrow;
    var s' := Copied(s, parsed, arr);
    SteadyStep(s, s');
    SettledStamps(s);
    var list := Window(s.arrays, s.contexts[s.main.value].sorted);
    assert list[..|list|] == list;
    assert parsed - parsed.Keys == map[] && s.versions[Last(s)].rules + map[] == s.versions[Last(s)].rules;
    assert ContextOk(s, s.main.value);
  }

  lemma OneMergedHeap(s: State, s': State, name: string, arr: nat, cells: seq<RuleEntity>, len: nat, index: map<string, nat>)
    requires Base(s) && s.updater.Merging? && name in s.updater.parsed && s.main.Some? && s.main.value in s.contexts
    requires arr == s.updater.work.arr || arr !in s.arrays
    requires s' == OneMerged(s, name, arr, cells, len, index)
    ensures Heap(s') && Grows(s, s') && arr !in s.frozen
  {
    hide Arranges, Inverts, Keyed, Emptying, ContextOk, StampsGrow;
    SteadyStep(s, s');
  }

  lemma OneMergedGood(s: State, name: string, arr: nat, cells: seq<RuleEntity>, len: nat, index: map<string, nat>)
    requires Base(s) && s.updater.Merging? && name in s.updater.todo && s.main.Some?
    requires arr == s.updater.work.arr || arr !in s.arrays
    requires len <= |cells| && name in s.updater.parsed && s.main.value in s.contexts
    requires Sorts(cells[..len], index, s.updater.entities[name := s.updater.parsed[name]])
    ensures Good(s, OneMerged(s, name, arr, cells, len, index))
  {
    hide Arranges, Inverts, Keyed, Emptying, Heap, Grows;
    OneMergedHeap(s, OneMerged(s, name, arr, cells, len, index), name, arr, cells, len, index);
    var u := s.updater;
    assert u.parsed - (u.todo - {name}) == (u.parsed - u.todo)[name := u.parsed[name]];
  }

  lemma EntitiesPutGood(s: State)
    requires Base(s) && s.updater.Merging? && s.updater.todo == {} && s.main.Some? && s.main.value in s.contexts
    ensures Good(s, EntitiesPut(s))
  {
    hide Arranges, Inverts, Keyed, Emptying, ContextOk, StampsGrow;
    var s' := EntitiesPut(s);
    SteadyStep(s, s');
    assert s.updater.parsed - {} == s.updater.parsed;
  }

  lemma SortedPutVersions(s: State)
    requires Causes(s.versions) && s.updater.Storing? && StoringOk(s)
    ensures var rules := s.contexts[s.main.value].entities;
            var versions' := s.versions + [Version(rules, IncrementalUpdate)];
            Causes(versions') && Extends(s.versions, versions')
  {
    hide Arranges, Inverts, Stamped, Causes;
    var rules := s.contexts[s.main.value].entities;
    JoinedKeyed(s.versions, s.updater.parsed);
    assert rules != map[] by {
      var k :| k in s.updater.parsed;
      assert k in rules;
    }
    CausesSnoc(s.versions, Version(rules, IncrementalUpdate));
  }

  lemma SortedPutHeap(s: State, s': State)
    requires Causes(s.versions) && Heap(s) && s.updater.Storing? && StoringOk(s) && s' == SortedPut(s)
    ensures Causes(s'.versions) && Heap(s') && Grows(s, s')
  {
    hide Arranges, Inverts, Keyed, Causes, Stamped, StampsGrow;
    SortedPutVersions(s);
    StampsBelow(s);
    hide Heap;
    assert s.main.value in Reached(s) && Reached(s') <= Reached(s);
    LastStamp(s, s', s.main.value);
    SortedPutArrays(s, s');
  }

  lemma SortedPutArrays(s: State, s': State)
    requires s.versions != [] && Heap(s) && s.updater.Storing? && StoringOk(s) && s' == SortedPut(s)
    requires Extends(s.versions, s'.versions)
    ensures ArraysKept(s, s') && Heap(s')
  {
    hide Arranges, Inverts, Keyed, Stamped, ContextOk, Extends, Causes;
    assert ArraysKept(s, s');
    SortedPutContext(s, s');
    hide ArraysKept, Sorts;
    HeapStep(s, s', s.main);
  }

  lemma SortedPutContext(s: State, s': State)
    requires s.versions != [] && s.updater.Storing? && StoringOk(s) && s' == SortedPut(s)
    ensures ContextOk(s', s.main.value)
  {
    hide Arranges, Inverts, Keyed, Stamped;
  }

  /** A context that gets the list of a new version while all workers had the last one. */
  lemma LastStamp(s: State, s': State, m: nat)
    requires s'.workers == s.workers && m in s.contexts && s'.contexts.Keys == s.contexts.Keys
    requires s'.stamp == s.stamp[m := |s.versions|] && m in Reached(s) && Reached(s') <= Reached(s)
    requires forall k | k in s.contexts && k in s.stamp :: s.stamp[k] < |s.versions|
    ensures StampsGrow(s, s')
  {
    hide Reached;
  }

  lemma SortedPutGood(s: State)
    requires Base(s) && s.updater.Storing? && s.main.Some? && s.main.value in s.contexts
    ensures Good(s, SortedPut(s))
  {
    hide Arranges, Inverts, Keyed, Emptying, Heap, Grows;
    SortedPutHeap(s, SortedPut(s));
  }

  lemma JoinedKeyed(versions: seq<Version>, parsed: Registry)
    requires Causes(versions) && Keyed(parsed)
    ensures versions != [] && Keyed(versions[|versions| - 1].rules + parsed)
  {
  }

  // Removal.

  lemma BeginRemoveGood(s: State, names: set<string>)
    requires Base(s) && s.updater.Unlocked? && s.main.Some? && names != {}
    ensures Good(s, s.(updater := RemovingMain(names)))
  {
    hide Arranges, Inverts, Keyed, Emptying, ContextOk, StampsGrow, Settled;
    var s' := s.(updater := RemovingMain(names));
    SteadyStep(s, s');
    SettledKept(s, s');
  }

  lemma RemovalKeyed(versions: seq<Version>, names: set<string>)
    requires Causes(versions)
    ensures versions != [] && Keyed(versions[|versions| - 1].rules - names)
    ensures versions[|versions| - 1].rules - names == map[] <==> versions[|versions| - 1].rules.Keys <= names
  {
    var rules := versions[|versions| - 1].rules;
    if rules - names == map[] {
      forall k | k in rules ensures k in names {
        assert k !in rules - names;
      }
    }
  }

  lemma MainRemovedHeap(s: State, s': State, kc: nat, arr: nat, list: seq<RuleEntity>, index: map<string, nat>)
    requires Causes(s.versions) && Heap(s) && s.updater.RemovingMain? && kc !in s.contexts && arr !in s.arrays
    requires s.main.Some? && Has(s, s.main.value, Last(s))
    requires Sorts(list, index, s.contexts[s.main.value].entities - s.updater.names)
    requires s' == MainRemoved(s, kc, arr, list, index)
    ensures Causes(s'.versions) && Extends(s.versions, s'.versions) && Heap(s') && Grows(s, s')
    ensures Window(s'.arrays, s'.contexts[kc].sorted) == list
  {
    hide Arranges, Inverts, Keyed, Causes, StampsGrow, Phase, ContextOk, Grows, ArraysKept, Extends, Window;
    var names := s.updater.names;
    RemovalKeyed(s.versions, names);
    CausesSnoc(s.versions, Version(s.versions[Last(s)].rules - names, Removal(names)));
    FreshArray(s, s', arr, list);
    MainRemovedContext(s, s', kc, arr, list, index);
    NewMain(s, s', kc);
  }

  lemma MainRemovedContext(s: State, s': State, kc: nat, arr: nat, list: seq<RuleEntity>, index: map<string, nat>)
    requires s.updater.RemovingMain? && s.main.Some? && s.main.value in s.contexts
    requires Arranges(list, s.contexts[s.main.value].entities - s.updater.names)
    requires s' == MainRemoved(s, kc, arr, list, index)
    ensures ContextOk(s', kc)
  {
    hide Arranges;
    assert list[..|list|] == list;
  }

  lemma MainRemovedGood(s: State, kc: nat, arr: nat, list: seq<RuleEntity>, index: map<string, nat>)
    requires Base(s) && s.updater.RemovingMain? && kc !in s.contexts && arr !in s.arrays
    requires s.main.Some? && s.main.value in s.contexts
    requires Sorts(list, index, s.contexts[s.main.value].entities - s.updater.names)
    ensures Good(s, MainRemoved(s, kc, arr, list, index))
  {
    hide Arranges, Inverts, Keyed, Emptying, ContextOk, Grows, Window;
    MainRemovedHeap(s, MainRemoved(s, kc, arr, list, index), kc, arr, list, index);
  }

  lemma NextRemovedHeap(s: State, s': State, kc: nat, arr: nat, list: seq<RuleEntity>, index: map<string, nat>)
    requires Base(s) && s.updater.Removing? && s.updater.next < |s.workers| && kc !in s.contexts && arr !in s.arrays
    requires s.workers[s.updater.next] in s.contexts
    requires Sorts(list, index, s.contexts[s.workers[s.updater.next]].entities - s.updater.names)
    requires s' == NextRemoved(s, kc, arr, list, index)
    ensures Heap(s') && ArraysKept(s, s') && Window(s'.arrays, s'.contexts[kc].sorted) == list
    ensures forall k | k in s.contexts ::
              Window(s'.arrays, s'.contexts[k].sorted) == Window(s.arrays, s.contexts[k].sorted)
  {
    hide Arranges, Inverts, Keyed, Emptying, Reached, ArraysKept, Window, Complete, ContextOk;
    FreshArray(s, s', arr, list);
    NextRemovedContext(s, s', kc, arr, list, index);
    HeapStep(s, s', Some(kc));
  }

  lemma NextRemovedContext(s: State, s': State, kc: nat, arr: nat, list: seq<RuleEntity>, index: map<string, nat>)
    requires s.versions != [] && s.updater.Removing? && RemovingOk(s) && s.updater.next < |s.workers|
    requires s.workers[s.updater.next] in s.contexts
    requires Arranges(list, s.contexts[s.workers[s.updater.next]].entities - s.updater.names)
    requires s' == NextRemoved(s, kc, arr, list, index)
    ensures ContextOk(s', kc)
  {
    hide Arranges, Complete, Reached;
    assert list[..|list|] == list;
  }

  lemma NextRemovedStamps(s: State, s': State, kc: nat, arr: nat, list: seq<RuleEntity>, index: map<string, nat>)
    requires Base(s) && s.updater.Removing? && s.updater.next < |s.workers| && kc !in s.contexts && arr !in s.arrays
    requires s.workers[s.updater.next] in s.contexts
    requires s' == NextRemoved(s, kc, arr, list, index)
    ensures StampsGrow(s, s')
  {
    hide Arranges, Inverts, Keyed, Causes, Window, ContextOk, Sorts;
  }

  lemma NextRemovedGood(s: State, kc: nat, arr: nat, list: seq<RuleEntity>, index: map<string, nat>)
    requires Base(s) && s.updater.Removing? && s.updater.next < |s.workers| && kc !in s.contexts && arr !in s.arrays
    requires s.workers[s.updater.next] in s.contexts
    requires Sorts(list, index, s.contexts[s.workers[s.updater.next]].entities - s.updater.names)
    ensures Good(s, NextRemoved(s, kc, arr, list, index))
  {
    hide Arranges, Inverts, Keyed, Emptying, ContextOk, Window, StampsGrow, ArraysKept;
    var s' := NextRemoved(s, kc, arr, list, index);
    NextRemovedHeap(s, s', kc, arr, list, index);
    NextRemovedStamps(s, s', kc, arr, list, index);
  }

  lemma EndRemoveGood(s: State)
    requires Base(s) && s.updater.Removing? && s.updater.next == |s.workers|
    ensures Good(s, s.(updater := Unlocked))
  {
    hide Arranges, Inverts, Keyed, Emptying, ContextOk, StampsGrow;
    var s' := s.(updater := Unlocked);
    assert Reached(s') <= Reached(s);
    SteadyStep(s, s');
  }

  // Clear.

  lemma BeginClearGood(s: State)
    requires Base(s) && s.updater.Unlocked?
    ensures Good(s, s.(main := None, updater := Closing, versions := s.versions + [Version(map[], Cleared)]))
  {
    hide Arranges, Inverts, Emptying, ContextOk, StampsGrow;
    var s' := s.(main := None, updater := Closing, versions := s.versions + [Version(map[], Cleared)]);
    CausesSnoc(s.versions, Version(map[], Cleared));
    SettledStamps(s);
    SteadyStep(s, s');
  }

  lemma SetClearGood(s: State)
    requires Base(s) && s.updater.Closing?
    ensures Good(s, s.(clear := true, updater := Clearing(0, 0)))
  {
    hide Arranges, Inverts, Keyed, Emptying, ContextOk, StampsGrow;
    SteadyStep(s, s.(clear := true, updater := Clearing(0, 0)));
  }

  lemma FieldClearedHeap(s: State, s': State, k: nat, ctx: Context)
    requires Heap(s) && s.updater.Clearing? && s'.updater.Clearing? && k in s.contexts
    requires s' == s.(contexts := s.contexts[k := ctx], updater := s'.updater) && ctx.sorted == s.contexts[k].sorted
    ensures Heap(s') && Grows(s, s')
    ensures forall k | k in s.contexts ::
              Window(s'.arrays, s'.contexts[k].sorted) == Window(s.arrays, s.contexts[k].sorted)
  {
    assert Reached(s') == Reached(s);
    SameArrays(s, s');
    hide ContextOk, StampsGrow, Window, Reached, ArraysKept, Oldest;
    assert Oldest(s) == Oldest(s') by { Publishes(s, s'); }
    SteadyStep(s, s');
  }

  lemma Publishes(s: State, s': State)
    requires Publishing(s.updater) == Publishing(s'.updater) && s'.versions == s.versions
    ensures Oldest(s) == Oldest(s')
  {
  }

  lemma SameArrays(s: State, s': State)
    requires s'.arrays == s.arrays && s'.frozen == s.frozen
    requires WorkArray(s.updater) == None && WorkArray(s'.updater) == None
    ensures ArraysKept(s, s')
  {
  }

  lemma EntitiesClearedGood(s: State)
    requires Base(s) && s.updater.Clearing? && s.updater.fields == 0
    requires s.updater.next < |s.workers| && s.workers[s.updater.next] in s.contexts
    ensures Good(s, EntitiesCleared(s))
  {
    var k := s.workers[s.updater.next];
    FieldClearedHeap(s, EntitiesCleared(s), k, s.contexts[k].(entities := map[]));
    hide Arranges, Inverts, Keyed, Emptying, Heap, Grows, Window;
  }

  lemma SortedClearedHeap(s: State, s': State, k: nat, arr: nat)
    requires s.versions != [] && Heap(s) && s.updater.Clearing? && s.updater.fields == 1 && arr !in s.arrays
    requires s.versions[Last(s)].rules == map[] && s.main == None
    requires s.updater.next < |s.workers| && k == s.workers[s.updater.next] && k in s.contexts
    requires s' == SortedCleared(s, arr)
    ensures Heap(s') && Grows(s, s')
    ensures Window(s'.arrays, s'.contexts[k].sorted) == []
    ensures forall k | k in s.contexts && k != s.workers[s.updater.next] ::
              Window(s'.arrays, s'.contexts[k].sorted) == Window(s.arrays, s.contexts[k].sorted)
  {
    hide ArraysKept, StampsGrow, ContextOk, Arranges, Window;
    FreshArray(s, s', arr, []);
    StampsBelow(s);
    SortedClearedContext(s, s', k, arr);
    HeapStep(s, s', Some(k));
    LatestStamp(s, s', k);
  }

  lemma SortedClearedContext(s: State, s': State, k: nat, arr: nat)
    requires s.versions != [] && s.updater.Clearing? && s.versions[Last(s)].rules == map[]
    requires s.updater.next < |s.workers| && k == s.workers[s.updater.next] && k in s.contexts
    requires s' == SortedCleared(s, arr)
    ensures ContextOk(s', k)
  {
  }

  lemma LatestStamp(s: State, s': State, k: nat)
    requires s'.workers == s.workers && k in s.contexts && s'.contexts.Keys == s.contexts.Keys && s.versions != []
    requires s'.stamp == s.stamp[k := |s.versions| - 1] && k in Reached(s) && Reached(s') <= Reached(s)
    requires forall k | k in s.contexts && k in s.stamp :: s.stamp[k] < |s.versions|
    ensures StampsGrow(s, s')
  {
    hide Reached;
  }

  lemma SortedClearedGood(s: State, arr: nat)
    requires Base(s) && s.updater.Clearing? && s.updater.fields == 1 && arr !in s.arrays
    requires s.updater.next < |s.workers| && s.workers[s.updater.next] in s.contexts
    ensures Good(s, SortedCleared(s, arr))
  {
    hide Keyed, Emptying, Grows, Heap, Window, Arranges;
    var k := s.workers[s.updater.next];
    SortedClearedHeap(s, SortedCleared(s, arr), k, arr);
    ListOf(s, k);
    if s.stamp[k] == Last(s) {
      EmptyList(Window(s.arrays, s.contexts[k].sorted), s.versions[Last(s)].rules);
    }
  }

  lemma IndexClearedGood(s: State)
    requires Base(s) && s.updater.Clearing? && s.updater.fields == 2
    requires s.updater.next < |s.workers| && s.workers[s.updater.next] in s.contexts
    ensures Good(s, IndexCleared(s))
  {
    hide Arranges, Keyed, Emptying, Grows, Heap, Window, Inverts;
    var k, s' := s.workers[s.updater.next], IndexCleared(s);
    FieldClearedHeap(s, s', k, s.contexts[k].(index := map[]));
    ListOf(s, k);
    EmptyList(Window(s.arrays, s.contexts[k].sorted), s.versions[Last(s)].rules);
    NothingInverts();
  }

  lemma NothingInverts()
    ensures Inverts(map[], [])
  {
  }

  lemma EmptyList(list: seq<RuleEntity>, m: Registry)
    requires Arranges(list, m) && m == map[]
    ensures list == []
  {
    ArrangementSize(list, m);
  }

  lemma EndClearGood(s: State)
    requires Base(s) && s.updater.Clearing? && s.updater.fields == 0 && s.updater.next == |s.workers|
    ensures Good(s, s.(updater := Unlocked))
  {
    hide Arranges, Inverts, Keyed, Emptying, ContextOk, StampsGrow;
    SteadyStep(s, s.(updater := Unlocked));
  }

  /** Every step of the updater keeps the invariant. */
  lemma UpdateStep(s: State, a: Action)
    requires Inv(s) && Enabled(s, a) && !OfExecution(a)
    ensures Inv(Apply(s, a)) && Grows(s, Apply(s, a))
  {
    assert Base(s);
    UpdateGood(s, a);
    hide Grows, Executions, Phase, Heap, Causes, Enabled, Apply;
    ExecutionsKept(s, Apply(s, a));
  }

  lemma UpdateGood(s: State, a: Action)
    requires Base(s) && Enabled(s, a) && !OfExecution(a)
    ensures Good(s, Apply(s, a))
  {
    hide Base, Good, Sorts, Keyed;
    match a
    case BeginFull(parsed, arr, list, index) => FullBuiltGood(s, parsed, arr, list, index);
    case SetMain(kc) => MainSetGood(s, kc);
    case ShareNext => NextSharedGood(s);
    case EndShare => EndShareGood(s);
    case BeginIncremental(parsed, arr) => CopiedGood(s, parsed, arr);
    case MergeOne(name, arr, cells, len, index) => OneMergedGood(s, name, arr, cells, len, index);
    case PutEntities => EntitiesPutGood(s);
    case PutSorted => SortedPutGood(s);
    case BeginRemove(names) => BeginRemoveGood(s, names);
    case RemoveMain(kc, arr, list, index) => MainRemovedGood(s, kc, arr, list, index);
    case RemoveNext(kc, arr, list, index) => NextRemovedGood(s, kc, arr, list, index);
    case EndRemove => EndRemoveGood(s);
    case BeginClear => BeginClearGood(s);
    case SetClear => SetClearGood(s);
    case ClearEntities => EntitiesClearedGood(s);
    case ClearSorted(arr) => SortedClearedGood(s, arr);
    case ClearIndex => IndexClearedGood(s);
    case EndClear => EndClearGood(s);
  }

  // ---------- Every step of an execution keeps the invariant ----------

  /** An execution writes at most an array of its own; no context and no other list changes. */
  ghost predicate OnlyOwn(s: State, s': State) {
    && s' == s.(arrays := s'.arrays, executions := s'.executions)
    && (forall a | a in s.arrays :: a in s'.arrays)
    && (forall a | a in s.arrays && (a in s.frozen || WorkArray(s.updater) == Some(a)) :: s'.arrays[a] == s.arrays[a])
  }

  lemma OnlyOwnHeap(s: State, s': State)
    requires Heap(s) && OnlyOwn(s, s')
    ensures Heap(s')
    ensures forall k | k in s.contexts ::
              Window(s'.arrays, s'.contexts[k].sorted) == Window(s.arrays, s.contexts[k].sorted)
  {
    hide Arranges;
    forall k | k in s.contexts
      ensures ContextOk(s', k) && Window(s'.arrays, s'.contexts[k].sorted) == Window(s.arrays, s.contexts[k].sorted)
    {
      assert ContextOk(s, k);
    }
  }

  lemma OnlyOwnSettled(s: State, s': State)
    requires s.versions != [] && Heap(s) && Phase(s) && OnlyOwn(s, s')
    requires s.updater.Unlocked? || s.updater.RemovingMain? || s.updater.Built?
    ensures Phase(s')
  {
    OnlyOwnHeap(s, s');
    SettledKept(s, s');
    hide Settled, Heap, Sorts, Keyed;
  }

  lemma OnlyOwnWorking(s: State, s': State)
    requires s.versions != [] && Heap(s) && Phase(s) && OnlyOwn(s, s') && (s.updater.Merging? || s.updater.Storing?)
    ensures Phase(s')
  {
    hide Arranges, Inverts, Keyed, ContextOk, Heap;
  }

  lemma OnlyOwnPublishing(s: State, s': State)
    requires s.versions != [] && Heap(s) && Phase(s) && OnlyOwn(s, s') && Publishing(s.updater)
    ensures Phase(s')
  {
    OnlyOwnHeap(s, s');
    assert Reached(s') == Reached(s);
    hide Inverts, Window, Heap, Reached;
  }

  lemma OnlyOwnPhase(s: State, s': State)
    requires s.versions != [] && Heap(s) && Phase(s) && OnlyOwn(s, s')
    ensures Phase(s')
  {
    hide Phase, Heap, OnlyOwn;
    if s.updater.Unlocked? || s.updater.RemovingMain? || s.updater.Built? {
      OnlyOwnSettled(s, s');
    } else if s.updater.Merging? || s.updater.Storing? {
      OnlyOwnWorking(s, s');
    } else {
      OnlyOwnPublishing(s, s');
    }
  }

  /** An execution of which only its own array, if it has one, changes. */
  lemma BystanderOk(s: State, s': State, e: Execution)
    requires ExecutionOk(s, e) && OnlyOwn(s, s')
    requires OwnArray(e).Some? && OwnArray(e).value in s.arrays ==> s'.arrays[OwnArray(e).value] == s.arrays[OwnArray(e).value]
    ensures ExecutionOk(s', e)
  {
    hide Arranges;
  }

  /** What is left to show for a step of execution t. */
  ghost predicate OwnStep(s: State, s': State, t: nat)
    requires t < |s.executions|
  {
    && OnlyOwn(s, s') && |s'.executions| == |s.executions|
    && (forall u | 0 <= u < |s.executions| && u != t :: s'.executions[u] == s.executions[u])
    && ExecutionOk(s', s'.executions[t])
    && var own, own' := OwnArray(s.executions[t]), OwnArray(s'.executions[t]);
       && (own'.Some? ==> own' == own || own'.value !in s.arrays)
       && (forall a | a in s.arrays && own != Some(a) :: s'.arrays[a] == s.arrays[a])
  }

  lemma OwnStepInv(s: State, s': State, t: nat)
    requires Inv(s) && t < |s.executions| && OwnStep(s, s', t)
    ensures Inv(s')
  {
    hide Arranges, Phase, Heap, Emptying;
    OnlyOwnHeap(s, s');
    OnlyOwnPhase(s, s');
    hide OnlyOwn;
    forall u | 0 <= u < |s.executions| && u != t ensures ExecutionOk(s', s'.executions[u]) {
      DistinctOwn(s, t, u);
      BystanderOk(s, s', s.executions[u]);
    }
    forall u | 0 <= u < |s.executions| ensures OwnArray(s.executions[u]).Some? ==> OwnArray(s.executions[u]).value in s.arrays {
      assert ExecutionOk(s, s.executions[u]);
    }
  }

  lemma DistinctOwn(s: State, t: nat, u: nat)
    requires Executions(s) && t < |s.executions| && u < |s.executions| && t != u
    ensures OwnArray(s.executions[t]).Some? ==> OwnArray(s.executions[t]) != OwnArray(s.executions[u])
    ensures ExecutionOk(s, s.executions[u])
  {
    hide ExecutionOk;
  }

  /** Every worker's list is at least of the version an execution that enters now may meet. */
  lemma StampedOldest(s: State)
    requires Base(s)
    ensures Stamped(s, Oldest(s))
    ensures forall w | 0 <= w < |s.workers| :: s.workers[w] in s.contexts
  {
    hide Arranges, Inverts, Keyed, ContextOk, Emptying, Window;
  }

  /** A step that only reads. */
  lemma ReadStep(s: State, t: nat, e: Execution)
    requires t < |s.executions| && ExecutionOk(s, e) && (OwnArray(e) == None || OwnArray(e) == OwnArray(s.executions[t]))
    ensures OwnStep(s, Move(s, t, e), t)
  {
    hide Arranges;
    var s' := Move(s, t, e);
    assert Reached(s') == Reached(s);
  }

  /** A list is empty exactly when the version it arranges is. */
  lemma LengthIff(s: State, k: nat)
    requires Heap(s) && k in s.contexts
    ensures k in s.stamp && s.stamp[k] < |s.versions|
    ensures s.contexts[k].sorted.len == 0 <==> s.versions[s.stamp[k]].rules == map[]
  {
    ListOf(s, k);
    assert ContextOk(s, k);
    var list, rules := Window(s.arrays, s.contexts[k].sorted), s.versions[s.stamp[k]].rules;
    hide Heap, ContextOk, Arranges;
    if rules == map[] {
      EmptyList(list, rules);
    } else if list == [] {
      Unlisted(list, rules);
    }
  }

  lemma Unlisted(list: seq<RuleEntity>, rules: Registry)
    requires Arranges(list, rules) && list == []
    ensures rules == map[]
  {
  }

  lemma LoadLengthOk(s: State, e: Execution)
    requires Base(s) && ExecutionOk(s, e) && e.Measuring? && s.contexts[e.kc].sorted.len != 0
    ensures ExecutionOk(s, Measured(e.w, e.since, s.stamp[e.kc]))
  {
    hide Phase, Reached, Causes, ContextOk;
    LengthIff(s, e.kc);
  }

  lemma LoadListOk(s: State, e: Execution)
    requires Base(s) && ExecutionOk(s, e) && e.Fetching?
    ensures var list := s.contexts[e.kc].sorted;
            ExecutionOk(s, Running(list, e.since, e.saw, s.stamp[e.kc], Window(s.arrays, list), []))
  {
    hide Phase, Arranges, Causes;
    assert ContextOk(s, e.kc);
  }

  lemma LoadForLengthOk(s: State, e: Execution)
    requires Base(s) && ExecutionOk(s, e) && e.Entered?
    ensures ExecutionOk(s, Measuring(e.w, e.since, s.workers[e.w]))
  {
    StampedOldest(s);
    hide Base;
  }

  lemma LoadAgainOk(s: State, e: Execution)
    requires Base(s) && ExecutionOk(s, e) && e.Measured?
    ensures ExecutionOk(s, Fetching(e.w, e.since, e.saw, s.workers[e.w]))
  {
    StampedOldest(s);
    hide Base;
  }

  lemma AfterReadOk(s: State, a: Action, e: Execution)
    requires Base(s) && ExecutionOk(s, e) && Reading(a) && EnabledExecution(s, a, e)
    ensures ExecutionOk(s, AfterRead(s, a, e))
    ensures OwnArray(AfterRead(s, a, e)) == None || OwnArray(AfterRead(s, a, e)) == OwnArray(e)
  {
    hide Base, Arranges, Held, Window, Saw;
    match a
    case LoadForLength(_) => LoadForLengthOk(s, e);
    case LoadAgain(_) => LoadAgainOk(s, e);
    case LoadLength(_) =>
      if s.contexts[e.kc].sorted.len != 0 {
        LoadLengthOk(s, e);
      }
    case LoadList(_) => LoadListOk(s, e);
    case Fetch(_, at) => FetchOk(s, e, at);
    case _ =>
  }

  lemma FetchOk(s: State, e: Execution, at: nat)
    requires ExecutionOk(s, e) && e.Running? && at < e.list.len && InArrays(s.arrays, e.list)
    ensures ExecutionOk(s, e.(got := e.got + [Fetched(at, s.arrays[e.list.arr][at])]))
  {
    hide Arranges;
  }

  lemma ReadingStep(s: State, a: Action)
    requires Inv(s) && Reading(a) && Enabled(s, a)
    ensures OwnStep(s, Apply(s, a), a.t)
  {
    var e := s.executions[a.t];
    assert Base(s) && ExecutionOk(s, e);
    hide Inv, Base, OwnStep, ExecutionOk, AfterRead;
    AfterReadOk(s, a, e);
    ReadStep(s, a.t, AfterRead(s, a, e));
  }

  lemma SelectStep(s: State, a: Action)
    requires Inv(s) && Enabled(s, a) && a.Select?
    ensures OwnStep(s, Apply(s, a), a.t)
  {
    hide Arranges, Causes;
    assert ExecutionOk(s, s.executions[a.t]);
  }

  /** Writing an array of its own, an execution leaves everything else as it is. */
  lemma WriteStep(s: State, t: nat, e: Execution, cells: seq<RuleEntity>)
    requires t < |s.executions| && ExecutionOk(s, s.executions[t]) && s.executions[t].Gathering?
    requires OwnArray(e) == OwnArray(s.executions[t]) && e.list.len <= |cells|
    requires (e.Gathering? || e.Selected?) && e.w == s.executions[t].w && e.since == s.executions[t].since
    requires e.Selected? ==> cells[..e.list.len] == e.snapshot
    ensures OwnStep(s, Move(s, t, e).(arrays := s.arrays[e.list.arr := cells]), t)
  {
    hide Arranges;
  }

  lemma GatherStep(s: State, a: Action)
    requires Inv(s) && Enabled(s, a) && a.GatherOne?
    ensures OwnStep(s, Apply(s, a), a.t)
  {
    var e := s.executions[a.t];
    assert ExecutionOk(s, e);
    hide Inv, OwnStep, Arranges;
    var entities, name := s.contexts[s.workers[e.w]].entities, e.rest[0];
    if name in entities {
      WriteStep(s, a.t, Gathering(e.w, e.since, e.names, e.rest[1..], Header(e.list.arr, e.list.len + 1)), Window(s.arrays, e.list) + [entities[name]]);
    } else {
      ReadStep(s, a.t, e.(rest := e.rest[1..]));
    }
  }

  lemma EndGatherStep(s: State, a: Action)
    requires Inv(s) && Enabled(s, a) && a.EndGather?
    ensures OwnStep(s, Apply(s, a), a.t)
  {
    var e := s.executions[a.t];
    assert ExecutionOk(s, e);
    hide Inv, OwnStep, Arranges, StableSort;
    var found := Window(s.arrays, e.list);
    var rules := if a.sort then StableSort(found) else found;
    assert rules[..|rules|] == rules;
    WriteStep(s, a.t, Selected(e.w, e.since, e.names, a.sort, Header(e.list.arr, |rules|), rules), rules);
  }

  /** Every step of an execution keeps the invariant. */
  lemma ExecutionStep(s: State, a: Action)
    requires Inv(s) && OfExecution(a) && Enabled(s, a)
    ensures OnlyOwn(s, Apply(s, a)) && Inv(Apply(s, a))
    ensures a.t < |s.executions| && OwnStep(s, Apply(s, a), a.t)
  {
    hide Inv, Enabled, Apply, OnlyOwn;
    if a.Select? {
      SelectStep(s, a);
    } else if a.GatherOne? {
      GatherStep(s, a);
    } else if a.EndGather? {
      EndGatherStep(s, a);
    } else {
      ReadingStep(s, a);
    }
    OwnIndex(s, a);
    OwnStepInv(s, Apply(s, a), a.t);
  }

  lemma OwnIndex(s: State, a: Action)
    requires OfExecution(a) && Enabled(s, a)
    ensures a.t < |s.executions|
  {
  }

  // ---------- Every run ----------

  ghost predicate Legal(s: State, run: seq<Action>)
    decreases |run|
  {
    run == [] || (Enabled(s, run[0]) && Legal(Apply(s, run[0]), run[1..]))
  }

  ghost function After(s: State, run: seq<Action>): State
    requires Legal(s, run)
    decreases |run|
  {
    if run == [] then s else After(Apply(s, run[0]), run[1..])
  }

  lemma StepInv(s: State, a: Action)
    requires Inv(s) && Enabled(s, a)
    ensures Inv(Apply(s, a))
  {
    hide Inv, Enabled, Apply;
    if OfExecution(a) {
      ExecutionStep(s, a);
    } else {
      UpdateStep(s, a);
    }
  }

  lemma {:induction false} RunInv(s: State, run: seq<Action>)
    requires Inv(s) && Legal(s, run)
    ensures Inv(After(s, run))
    decreases |run|
  {
    hide Inv, Enabled, Apply;
    if run != [] {
      StepInv(s, run[0]);
      RunInv(Apply(s, run[0]), run[1..]);
    }
  }

  /** A pool as it is created: one consistent context for all workers. */
  ghost predicate Fresh(s: State) {
    exists rules, list, index, workers: nat, executions: nat ::
      Keyed(rules) && Sorts(list, index, rules) && s == Init(rules, list, index, workers, executions)
  }

  ghost predicate Reachable(s: State) {
    exists start, run :: Fresh(start) && Legal(start, run) && s == After(start, run)
  }

  lemma InitInv(rules: Registry, list: seq<RuleEntity>, index: map<string, nat>, workers: nat, executions: nat)
    requires Keyed(rules) && Sorts(list, index, rules)
    ensures Inv(Init(rules, list, index, workers, executions))
  {
    hide Arranges, Inverts, Keyed;
    assert list[..|list|] == list;
    var s := Init(rules, list, index, workers, executions);
    assert ContextOk(s, 0) && Complete(s, 0, 0);
  }

  lemma ReachableInv(s: State)
    requires Reachable(s)
    ensures Inv(s)
  {
    hide Inv, Legal, After, Keyed, Sorts, Init;
    var start, run :| Fresh(start) && Legal(start, run) && s == After(start, run);
    var rules, list, index, workers: nat, executions: nat :|
      Keyed(rules) && Sorts(list, index, rules) && start == Init(rules, list, index, workers, executions);
    InitInv(rules, list, index, workers, executions);
    RunInv(start, run);
  }

  /**
   Whatever updates, removals and clears run beside it: what an execution has resolved to stays, for
   as long as it runs, the complete sorted list of one version that was in force when it entered or
   later, and every rule it has fetched is the one that list has at that position.
   */
  lemma OneListThroughout(s: State, t: nat)
    requires Reachable(s) && t < |s.executions| && s.executions[t].Running?
    ensures var e := s.executions[t];
            && InArrays(s.arrays, e.list) && Window(s.arrays, e.list) == e.snapshot
            && e.since <= e.version < |s.versions| && Keyed(s.versions[e.version].rules)
            && Arranges(e.snapshot, s.versions[e.version].rules)
            && (forall i | 0 <= i < |e.got| :: e.got[i].at < |e.snapshot| && e.got[i].rule == e.snapshot[e.got[i].at])
  {
    hide Arranges, Phase, Heap, Emptying, Keyed;
    ReachableInv(s);
    assert ExecutionOk(s, s.executions[t]);
  }

  /** No step, of an update or of an execution, writes an array that was ever in a knowledge context. */
  lemma PublishedNeverWritten(s: State, a: Action, arr: nat)
    requires Reachable(s) && Enabled(s, a) && arr in s.frozen
    ensures var s' := Apply(s, a);
            arr in s.arrays && arr in s'.frozen && arr in s'.arrays && s'.arrays[arr] == s.arrays[arr]
  {
    ReachableInv(s);
    FrozenKnown(s, arr);
    hide Inv, Enabled, Apply;
    if OfExecution(a) {
      ExecutionStep(s, a);
    } else {
      UpdateStep(s, a);
    }
  }

  lemma FrozenKnown(s: State, arr: nat)
    requires Inv(s) && arr in s.frozen
    ensures arr in s.arrays
  {
  }

  /**
   Whenever no update is under way, every worker's three fields are consistent and hold the last
   version, as do the main builder's; without a main builder, after a clear, that version is empty.
   */
  lemma QuiescentConsistent(s: State, w: nat)
    requires Reachable(s) && s.updater.Unlocked? && w < |s.workers|
    ensures s.versions != [] && s.workers[w] in s.contexts
    ensures var ctx, rules := s.contexts[s.workers[w]], s.versions[Last(s)].rules;
            && ctx.entities == rules && Indexed(rules, Window(s.arrays, ctx.sorted), ctx.index)
            && (s.main.Some? ==> s.main.value in s.contexts && s.contexts[s.main.value].entities == rules)
            && (s.main == None <==> s.clear) && (s.clear ==> rules == map[])
  {
    hide Arranges, Inverts, ContextOk, Executions, Emptying;
    ReachableInv(s);
    assert Complete(s, s.workers[w], Last(s));
    ListOf(s, s.workers[w]);
  }

  /**
   The list is read twice without a lock. The second read yields an empty list, although the first saw
   a positive length, exactly if a clear or a removal of all rules there were came into force in
   between and no other update after it that the execution has met.
   */
  lemma EmptyAfterLengthIff(s: State, t: nat)
    requires Reachable(s) && t < |s.executions| && s.executions[t].Running?
    ensures var e := s.executions[t];
            && e.saw < |s.versions| && s.versions[e.saw].rules != map[] && e.saw <= e.version
            && (e.snapshot == [] <==> e.saw < e.version && Emptying(s.versions, e.version))
  {
    hide Phase, Heap, Arranges, Emptying;
    ReachableInv(s);
    var e := s.executions[t];
    assert ExecutionOk(s, e);
    if s.versions[e.version].rules == map[] {
      EmptyList(e.snapshot, s.versions[e.version].rules);
    } else if e.snapshot == [] {
      Unlisted(e.snapshot, s.versions[e.version].rules);
    }
  }

  /** The execution still works on the same list, and has fetched at least the same rules. */
  ghost predicate SameList(e: Execution, e': Execution) {
    && e.Running? && e'.Running? && e'.list == e.list && e'.version == e.version && e'.snapshot == e.snapshot
    && |e.got| <= |e'.got| && e'.got[..|e.got|] == e.got
  }

  lemma StepKeepsList(s: State, a: Action, t: nat)
    requires Inv(s) && Enabled(s, a) && a != Leave(t) && t < |s.executions| && s.executions[t].Running?
    ensures |Apply(s, a).executions| == |s.executions| && SameList(s.executions[t], Apply(s, a).executions[t])
  {
    hide Inv, ApplyExecution, ApplyUpdate, EnabledExecution, SameList;
    if OfExecution(a) {
      ExecutionKeepsList(s, a, t);
    } else {
      UpdateStep(s, a);
      SameListAsItself(s.executions[t]);
    }
  }

  lemma SameListAsItself(e: Execution)
    requires e.Running?
    ensures SameList(e, e)
  {
  }

  lemma ExecutionKeepsList(s: State, a: Action, t: nat)
    requires OfExecution(a) && a.t < |s.executions| && EnabledExecution(s, a, s.executions[a.t])
    requires a != Leave(t) && t < |s.executions| && s.executions[t].Running?
    ensures var s' := ApplyExecution(s, a);
            |s'.executions| == |s.executions| && SameList(s.executions[t], s'.executions[t])
  {
    hide StableSort, Oldest;
    if a.t != t {
      hide AfterRead, EnabledExecution;
    } else {
      assert a.Fetch?;
    }
  }

  /** Whatever happens, until it leaves, an execution works on the one list it resolved. */
  lemma {:induction false} RunKeepsList(s: State, run: seq<Action>, t: nat)
    requires Inv(s) && Legal(s, run) && Leave(t) !in run && t < |s.executions| && s.executions[t].Running?
    ensures var s' := After(s, run);
            && |s'.executions| == |s.executions| && SameList(s.executions[t], s'.executions[t])
            && Window(s'.arrays, s'.executions[t].list) == Window(s.arrays, s.executions[t].list)
    decreases |run|
  {
    hide Inv, Enabled, Apply, ExecutionOk;
    WindowIs(s, t);
    if run != [] {
      StepInv(s, run[0]);
      StepKeepsList(s, run[0], t);
      WindowIs(Apply(s, run[0]), t);
      RunKeepsList(Apply(s, run[0]), run[1..], t);
    }
  }

  lemma WindowIs(s: State, t: nat)
    requires Inv(s) && t < |s.executions| && s.executions[t].Running?
    ensures Window(s.arrays, s.executions[t].list) == s.executions[t].snapshot
  {
    hide Arranges, Phase, Heap, Emptying;
    assert ExecutionOk(s, s.executions[t]);
  }

  /**
   In-flight isolation: from any state a pool can be in, through any updates, removals, clears and other
   executions, a running execution keeps the list it resolved, and the list keeps its rules.
   */
  lemma InFlightIsolation(s: State, run: seq<Action>, t: nat)
    requires Reachable(s) && Legal(s, run) && Leave(t) !in run && t < |s.executions| && s.executions[t].Running?
    ensures var s' := After(s, run);
            && |s'.executions| == |s.executions| && SameList(s.executions[t], s'.executions[t])
            && Window(s'.arrays, s'.executions[t].list) == Window(s.arrays, s.executions[t].list) == s.executions[t].snapshot
  {
    ReachableInv(s);
    WindowIs(s, t);
    RunKeepsList(s, run, t);
  }

  /** An execution gets under way exactly if the pool is not marked as cleared. */
  lemma EntersUnlessCleared(s: State, t: nat, w: nat)
    requires Enabled(s, Enter(t, w))
    ensures t < |s.executions| && w < |s.workers|
    ensures Apply(s, Enter(t, w)) == if s.clear then s else Move(s, t, Entered(w, Oldest(s)))
  {
    assert s.executions[t := s.executions[t]] == s.executions;
  }

  /** In a pool at rest, an execution that asks for the length is refused exactly if no rule is in force. */
  lemma RefusedIffNoRules(s: State, t: nat)
    requires Reachable(s) && s.updater.Unlocked? && t < |s.executions| && s.executions[t].Measuring?
    requires s.executions[t].w < |s.workers| && s.executions[t].kc == s.workers[s.executions[t].w]
    ensures Enabled(s, LoadLength(t)) && s.versions != []
    ensures Apply(s, LoadLength(t)).executions[t] == Refused <==> s.versions[Last(s)].rules == map[]
  {
    hide Arranges, Inverts, Emptying;
    ReachableInv(s);
    var e := s.executions[t];
    assert ExecutionOk(s, e) && Complete(s, s.workers[e.w], Last(s));
    LengthIff(s, e.kc);
  }

  // ---------- A clear between the two reads ----------

  /** A pool of any number of workers with one execution, which stands at e. */
  function Alone(start: State, e: Execution): State {
    start.(executions := [e])
  }

  function Dropped(start: State): State {
    start.(main := None, updater := Closing, versions := start.versions + [Version(map[], Cleared)])
  }

  function Emptied(start: State, index: map<string, nat>): State {
    Dropped(start).(clear := true, updater := Clearing(0, 2), arrays := start.arrays[1 := []],
                    contexts := map[0 := Context(map[], Header(1, 0), index)], stamp := map[0 := 1], frozen := {0, 1})
  }

  /** One step that takes s to s'. */
  ghost predicate Does(s: State, a: Action, s': State) {
    Enabled(s, a) && Apply(s, a) == s'
  }

  lemma Enters(start: State, rules: Registry, list: seq<RuleEntity>, index: map<string, nat>, workers: nat)
    requires workers >= 2 && start == Init(rules, list, index, workers, 1)
    ensures Does(start, Enter(0, 0), Alone(start, Entered(0, 0)))
  {
    hide Sorts, Merges, Keyed, StableSort;
  }

  lemma Measures(start: State, rules: Registry, list: seq<RuleEntity>, index: map<string, nat>, workers: nat)
    requires workers >= 2 && list != [] && start == Init(rules, list, index, workers, 1)
    ensures Does(Alone(start, Entered(0, 0)), LoadForLength(0), Alone(start, Measuring(0, 0, 0)))
    ensures Does(Alone(start, Measuring(0, 0, 0)), LoadLength(0), Alone(start, Measured(0, 0, 0)))
  {
    hide Sorts, Merges, Keyed, StableSort;
  }

  lemma MeasureRun(start: State, rules: Registry, list: seq<RuleEntity>, index: map<string, nat>, workers: nat)
    requires workers >= 2 && list != [] && start == Init(rules, list, index, workers, 1)
    ensures var run := [Enter(0, 0), LoadForLength(0), LoadLength(0)];
            Legal(start, run) && After(start, run) == Alone(start, Measured(0, 0, 0))
  {
    Enters(start, rules, list, index, workers);
    Measures(start, rules, list, index, workers);
    hide Enabled, Apply, Init, Alone;
    ThreeSteps(start, Alone(start, Entered(0, 0)), Alone(start, Measuring(0, 0, 0)), Alone(start, Measured(0, 0, 0)),
               Enter(0, 0), LoadForLength(0), LoadLength(0));
  }

  lemma ThreeSteps(s0: State, s1: State, s2: State, s3: State, a: Action, b: Action, c: Action)
    requires Enabled(s0, a) && Apply(s0, a) == s1 && Enabled(s1, b) && Apply(s1, b) == s2 && Enabled(s2, c) && Apply(s2, c) == s3
    ensures Legal(s0, [a, b, c]) && After(s0, [a, b, c]) == s3
  {
    hide Enabled, Apply;
    assert [a, b, c][1..] == [b, c] && [b, c][1..] == [c];
    assert Legal(s2, [c]) && After(s2, [c]) == s3;
    assert Legal(s1, [b, c]) && After(s1, [b, c]) == s3;
  }

  lemma Clears(s: State, rules: Registry, list: seq<RuleEntity>, index: map<string, nat>, workers: nat, e: Execution)
    requires workers >= 2 && s == Alone(Init(rules, list, index, workers, 1), e)
    ensures Does(s, BeginClear, Dropped(s))
    ensures Does(Dropped(s), SetClear, Dropped(s).(clear := true, updater := Clearing(0, 0)))
  {
    hide Sorts, Merges, Keyed, StableSort;
  }

  lemma ClearsEntities(s: State, rules: Registry, list: seq<RuleEntity>, index: map<string, nat>, workers: nat, e: Execution)
    requires workers >= 2 && s == Alone(Init(rules, list, index, workers, 1), e)
    ensures var s2 := Dropped(s).(clear := true, updater := Clearing(0, 0));
            Does(s2, ClearEntities, s2.(updater := Clearing(0, 1), contexts := map[0 := Context(map[], Header(0, |list|), index)]))
  {
    hide Sorts, Merges, Keyed, StableSort;
  }

  lemma ClearRun(start: State, rules: Registry, list: seq<RuleEntity>, index: map<string, nat>, workers: nat)
    requires workers >= 2 && start == Init(rules, list, index, workers, 1)
    ensures var s := Alone(start, Measured(0, 0, 0));
            var run := [BeginClear, SetClear, ClearEntities];
            Legal(s, run) &&
            After(s, run) == Dropped(s).(clear := true, updater := Clearing(0, 1), contexts := map[0 := Context(map[], Header(0, |list|), index)])
  {
    var s := Alone(start, Measured(0, 0, 0));
    Clears(s, rules, list, index, workers, Measured(0, 0, 0));
    ClearsEntities(s, rules, list, index, workers, Measured(0, 0, 0));
    hide Enabled, Apply, Init;
    var s2 := Dropped(s).(clear := true, updater := Clearing(0, 0));
    var s3 := s2.(updater := Clearing(0, 1), contexts := map[0 := Context(map[], Header(0, |list|), index)]);
    ThreeSteps(s, Dropped(s), s2, s3, BeginClear, SetClear, ClearEntities);
  }

  lemma ReadRun(start: State, rules: Registry, list: seq<RuleEntity>, index: map<string, nat>, workers: nat)
    requires workers >= 2 && start == Init(rules, list, index, workers, 1)
    ensures var s := Dropped(Alone(start, Measured(0, 0, 0))).(
                       clear := true, updater := Clearing(0, 1), contexts := map[0 := Context(map[], Header(0, |list|), index)]);
            var run := [ClearSorted(1), LoadAgain(0), LoadList(0)];
            Legal(s, run) && After(s, run) == Emptied(Alone(start, Running(Header(1, 0), 0, 0, 1, [], [])), index)
  {
    hide Sorts, Merges, Keyed, StableSort;
    var s := Dropped(Alone(start, Measured(0, 0, 0))).(
               clear := true, updater := Clearing(0, 1), contexts := map[0 := Context(map[], Header(0, |list|), index)]);
    var s1 := Emptied(Alone(start, Measured(0, 0, 0)), index);
    var s2 := Emptied(Alone(start, Fetching(0, 0, 0, 0)), index);
    var s3 := Emptied(Alone(start, Running(Header(1, 0), 0, 0, 1, [], [])), index);
    assert Enabled(s, ClearSorted(1)) && Apply(s, ClearSorted(1)) == s1 by {
      assert map[0 := list][1 := []].Keys == {0, 1};
    }
    hide Enabled, Apply;
    LoadsAfter(start, rules, list, index, workers);
    ThreeSteps(s, s1, s2, s3, ClearSorted(1), LoadAgain(0), LoadList(0));
  }

  lemma EmptyLoad(start: State, index: map<string, nat>)
    ensures var s2 := Emptied(Alone(start, Fetching(0, 0, 0, 0)), index);
            var s3 := Emptied(Alone(start, Running(Header(1, 0), 0, 0, 1, [], [])), index);
            Enabled(s2, LoadList(0)) && Apply(s2, LoadList(0)) == s3
  {
    hide Sorts, Merges, Keyed, StableSort;
  }

  lemma LoadsAfter(start: State, rules: Registry, list: seq<RuleEntity>, index: map<string, nat>, workers: nat)
    requires workers >= 2 && start == Init(rules, list, index, workers, 1)
    ensures var s1 := Emptied(Alone(start, Measured(0, 0, 0)), index);
            var s2 := Emptied(Alone(start, Fetching(0, 0, 0, 0)), index);
            var s3 := Emptied(Alone(start, Running(Header(1, 0), 0, 0, 1, [], [])), index);
            && Enabled(s1, LoadAgain(0)) && Apply(s1, LoadAgain(0)) == s2
            && Enabled(s2, LoadList(0)) && Apply(s2, LoadList(0)) == s3
  {
    hide Sorts, Merges, Keyed, StableSort;
    EmptyLoad(start, index);
  }

  lemma {:induction false} LegalConcat(s: State, a: seq<Action>, b: seq<Action>)
    requires Legal(s, a) && Legal(After(s, a), b)
    ensures Legal(s, a + b) && After(s, a + b) == After(After(s, a), b)
    decreases |a|
  {
    hide Enabled, Apply;
    if a == [] {
      assert a + b == b;
    } else {
      assert (a + b)[1..] == a[1..] + b;
      LegalConcat(Apply(s, a[0]), a[1..], b);
    }
  }

  /**
   It does happen, in a pool of any rules and any number of workers the constructor accepts (it makes
   at least two): an execution sees a positive length, the pool is cleared, and
   the execution goes on with an empty list and no error.
   */
  lemma ClearBetweenReads(rules: Registry, list: seq<RuleEntity>, index: map<string, nat>, workers: nat)
    returns (run: seq<Action>)
    requires workers >= 2 && Keyed(rules) && Sorts(list, index, rules) && rules != map[]
    ensures Legal(Init(rules, list, index, workers, 1), run)
    ensures var s := After(Init(rules, list, index, workers, 1), run);
            |s.executions| == 1 && s.executions[0].Running? && s.executions[0].snapshot == []
  {
    var start := Init(rules, list, index, workers, 1);
    if list == [] {
      Unlisted(list, rules);
    }
    hide Legal, After, Init;
    var measure, clear, read :=
      [Enter(0, 0), LoadForLength(0), LoadLength(0)], [BeginClear, SetClear, ClearEntities], [ClearSorted(1), LoadAgain(0), LoadList(0)];
    MeasureRun(start, rules, list, index, workers);
    ClearRun(start, rules, list, index, workers);
    ReadRun(start, rules, list, index, workers);
    LegalConcat(start, measure, clear);
    LegalConcat(start, measure + clear, read);
    run := measure + clear + read;
  }
}
