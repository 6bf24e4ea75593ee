/**
 The run-time state a rule works on, and the operations of the data context and of the value
 library. `Env` is what surrounds a run: the injected base map, which a run does not change, and
 everything decided outside the language, each as a function that may be any function at all:
 the injected functions, struct fields, reflective conversions, floating-point results, the
 iteration order of maps, and the scheduler.
 */
module Runtime {
  import opened Values
  import opened Ast
  import opened ParseTree
  import opened Numeric

  // ---------- State ----------

  /**
   A map, a slice, or the array of cells behind slices. A slice is a window of an array, and slices
   may overlap. A nil map and an array held by value cannot be written. Types are numbered; only the
   conversions of `Env` look into them.
   */
  datatype Object =
    | MapObject(keyType: nat, elemType: nat, entries: map<Value, Value>, writable: bool)
    | SliceObject(elemType: nat, cells: nat, offset: nat, length: nat, writable: bool)
    | ArrayObject(elems: seq<Value>)

  type Heap = map<nat, Object>

  predicate InArray(cells: nat, index: nat, heap: Heap) {
    cells in heap && heap[cells].ArrayObject? && index < |heap[cells].elems|
  }

  /**
   A value as it is when something looks into it: an element reference stands for what its cell
   holds by then. Values are handed on, stored in variables and passed around without that.
   */
  function Content(v: Value, heap: Heap): Value {
    if !v.Element? then v
    else if InArray(v.cells, v.index, heap) then heap[v.cells].elems[v.index]
    else Nil
  }

  function Contents(vs: seq<Value>, heap: Heap): seq<Value> {
    seq(|vs|, i requires 0 <= i < |vs| => Content(vs[i], heap))
  }

  /**
   `vars` are the variables of one run of one rule. `calls` counts the host calls made so far, and
   `ticks` the scheduling and iteration-order decisions.
   */
  datatype World = World(vars: map<string, Value>, heap: Heap, host: nat, calls: nat, ticks: nat)

  /** An error returned, or a panic raised. */
  datatype Fault = Failed | Panicked

  datatype Result = Got(v: Value) | Lost(f: Fault)

  datatype Eval = Eval(w: World, r: Result)

  // ---------- Surroundings ----------

  /** An injected function, or a method reached through an object by a dotted name. */
  datatype Callee = FunctionValue(f: Value) | Member(receiver: Value, name: string)

  datatype Reply = Reply(heap: Heap, host: nat, r: Result)

  datatype Env = Env(
    base: map<string, Value>,
    host: (Callee, seq<Value>, Heap, nat) -> Reply,
    field: (Value, string, Heap, nat) -> Result,
    setField: (Value, string, Value, Heap, nat) -> Reply,
    setBase: (Value, Value, Heap, nat) -> Reply,
    key: (Value, nat) -> Option<Value>,
    elem: (Value, nat) -> Option<Value>,
    zero: nat -> Value,
    math: (string, Value, Value) -> Result,
    compare: (string, Value, Value) -> Result,
    keyOrder: (map<Value, Value>, nat) -> seq<Value>,
    pick: (nat, nat) -> nat)

  /** MapKeys lists every key of a map once, in any order. */
  ghost predicate Lawful(env: Env) {
    forall m, tick :: ListsOnce(env.keyOrder(m, tick), m.Keys)
  }

  ghost predicate ListsOnce(s: seq<Value>, keys: set<Value>) {
    && (forall k :: k in s <==> k in keys)
    && (forall i, j | 0 <= i < j < |s| :: s[i] != s[j])
  }

  // ---------- The data context ----------

  /** Injected names hide the variables of the rule. */
  function Find(env: Env, name: string, w: World): Option<Value> {
    if name in env.base then Some(env.base[name])
    else if name in w.vars then Some(w.vars[name])
    else None
  }

  /** The part of a dotted name before its first dot. */
  function Owner(name: string): string {
    if name == [] || name[0] == '.' then [] else [name[0]] + Owner(name[1..])
  }

  function GetValue(env: Env, name: string, w: World): Result {
    if '.' in name then
      match Find(env, Owner(name), w)
      case None => Lost(Failed)
      case Some(owner) => env.field(owner, name, w.heap, w.host)
    else
      match Find(env, name, w)
      case None => Lost(Failed)
      case Some(v) => Got(v)
  }

  /** What remains of the world after code outside the language has run. */
  function After(w: World, reply: Reply): World {
    w.(heap := reply.heap, host := reply.host)
  }

  function SetValue(env: Env, name: string, v: Value, w: World): Eval {
    if '.' in name then
      match Find(env, Owner(name), w)
      case None => Eval(w, Lost(Failed))
      case Some(owner) =>
        var reply := env.setField(owner, name, Content(v, w.heap), w.heap, w.host);
        Eval(After(w, reply), reply.r)
    else if name in env.base then
      var reply := env.setBase(env.base[name], Content(v, w.heap), w.heap, w.host);
      Eval(After(w, reply), reply.r)
    else
      Eval(w.(vars := w.vars[name := v]), Got(Nil))
  }

  /** One call into the host on what its arguments hold by then; a panic there comes back as an error. */
  function CallHost(env: Env, callee: Callee, args: seq<Value>, w: World): Eval {
    var reply := env.host(callee, Contents(args, w.heap), w.heap, w.host);
    Eval(After(w, reply).(calls := w.calls + 1), if reply.r.Got? then reply.r else Lost(Failed))
  }

  function Invoke(env: Env, kind: CallKind, name: string, args: seq<Value>, w: World): Eval {
    match Find(env, if kind == Function then name else Owner(name), w)
    case None => Eval(w, Lost(Failed))
    case Some(v) => CallHost(env, if kind == Function then FunctionValue(Content(v, w.heap)) else Member(v, name), args, w)
  }

  // ---------- Indexing ----------

  /** The key of an indexing: a variable's value, a string or an integer. */
  datatype Key = FromVariable(v: Value) | FromString(s: string) | FromInteger(n: int)

  function KeyValue(k: Key): Value {
    match k
    case FromVariable(v) => v
    case FromString(s) => Str(s)
    case FromInteger(n) => Int(Signed, n)
  }

  /** A key as it is looked into. */
  function Solid(k: Key, heap: Heap): Key {
    match k
    case FromVariable(v) => FromVariable(Content(v, heap))
    case _ => k
  }

  /** Maps, slices and pointers to them. */
  predicate Indexable(v: Value, heap: Heap) {
    var c := Content(v, heap);
    c.Ref? && c.addr in heap && !heap[c.addr].ArrayObject?
  }

  /** The position a key denotes in a slice. */
  function Position(k: Key, length: nat): Result {
    match k
    case FromVariable(v) => if v.Int? && v.sign == Signed && 0 <= v.n < length then Got(v) else Lost(Panicked)
    case FromString(_) => Lost(Failed)
    case FromInteger(n) => if n < 0 then Lost(Failed) else if n < length then Got(Int(Signed, n)) else Lost(Panicked)
  }

  /** Indexing a map copies the value found; indexing a slice yields a reference to the element. */
  function ReadAt(env: Env, holder: Value, k: Key, heap: Heap): Result {
    if !Indexable(holder, heap) then Lost(Failed)
    else
      match heap[Content(holder, heap).addr]
      case MapObject(keyType, elemType, entries, _) =>
        (match env.key(KeyValue(Solid(k, heap)), keyType)
         case None => Lost(Panicked)
         case Some(key) => Got(if key in entries then entries[key] else env.zero(elemType)))
      case SliceObject(_, cells, offset, length, _) =>
        match Position(Solid(k, heap), length)
        case Got(at) =>
          if at.Int? && 0 <= at.n && InArray(cells, offset + at.n, heap) then Got(Element(cells, offset + at.n))
          else Lost(Panicked)
        case Lost(f) => Lost(f)
  }

  /** Writing the invalid value into a map deletes the key. What is written is always a copy. */
  function WriteAt(env: Env, holder: Value, k: Key, v: Value, w: World): Eval {
    if !Indexable(holder, w.heap) then Eval(w, Lost(Panicked))
    else
      var addr := Content(holder, w.heap).addr;
      match w.heap[addr]
      case MapObject(keyType, elemType, entries, writable) =>
        (match (env.key(KeyValue(Solid(k, w.heap)), keyType), env.elem(Content(v, w.heap), elemType))
         case (Some(key), Some(x)) =>
           if !writable then Eval(w, Lost(Panicked))
           else
             var entries' := if x == Nil then entries - {key} else entries[key := x];
             Eval(w.(heap := w.heap[addr := MapObject(keyType, elemType, entries', writable)]), Got(Nil))
         case _ => Eval(w, Lost(Panicked)))
      case SliceObject(elemType, cells, offset, length, writable) =>
        match (Position(Solid(k, w.heap), length), env.elem(Content(v, w.heap), elemType))
        case (Got(at), Some(x)) =>
          if !writable || x == Nil || !(at.Int? && 0 <= at.n && InArray(cells, offset + at.n, w.heap)) then
            Eval(w, Lost(Panicked))
          else
            Eval(w.(heap := w.heap[cells := ArrayObject(w.heap[cells].elems[offset + at.n := x])]), Got(Nil))
        case (Lost(f), _) => Eval(w, Lost(f))
        case _ => Eval(w, Lost(Panicked))
  }

  // ---------- The value library ----------

  /** Operands whose arithmetic and comparison are decided outside the model. */
  predicate Foreign(v: Value) {
    v.Float? || v.Other?
  }

  function Arithmetic(env: Env, op: string, a: Value, b: Value): Result {
    if IsInt(a) && IsInt(b) then
      (match op
       case "+" => Got(Arith(Add, a, b))
       case "-" => Got(Arith(Sub, a, b))
       case "*" => Got(Arith(Mul, a, b))
       case "/" => (match Div(a, b) case None => Lost(Failed) case Some(q) => Got(q))
       case _ => Lost(Failed))
    else if a.Str? && b.Str? && op == "+" then Got(Str(a.s + b.s))
    else if Foreign(a) || Foreign(b) then env.math(op, a, b)
    else Lost(Failed)
  }

  /** Go's string order: by the first character that differs, a prefix first. */
  predicate StringLess(a: string, b: string) {
    b != [] && (a == [] || a[0] < b[0] || (a[0] == b[0] && StringLess(a[1..], b[1..])))
  }

  function Ordered(op: string, less: bool, equal: bool): Result {
    match op
    case "==" => Got(Bool(equal))
    case "!=" => Got(Bool(!equal))
    case "<" => Got(Bool(less))
    case ">" => Got(Bool(!less && !equal))
    case "<=" => Got(Bool(less || equal))
    case ">=" => Got(Bool(!less))
    case _ => Lost(Failed)
  }

  /**
   Strings compare as strings, numbers as float64, booleans for equality only. For any other pair no
   result is set, which the caller turns into an error.
   */
  function Compare(env: Env, op: string, a: Value, b: Value): Result {
    if a.Str? && b.Str? then Ordered(op, StringLess(a.s, b.s), a.s == b.s)
    else if a.Int? && b.Int? then Ordered(op, F64(a.n) < F64(b.n), F64(a.n) == F64(b.n))
    else if Foreign(a) || Foreign(b) then env.compare(op, a, b)
    else if a.Bool? && b.Bool? then
      (if op == "==" then Got(Bool(a.b == b.b)) else if op == "!=" then Got(Bool(a.b != b.b)) else Lost(Failed))
    else Got(Nil)
  }

  function Logical(op: string, a: Value, b: Value): Result {
    if !(a.Bool? && b.Bool?) then Lost(Failed)
    else if op == "&&" then Got(Bool(a.b && b.b))
    else if op == "||" then Got(Bool(a.b || b.b))
    else Got(Nil)
  }

  /** Reading a value as a boolean panics on anything else. */
  function Truth(r: Result, heap: Heap): Result {
    match r
    case Got(v) => if Content(v, heap).Bool? then Got(Content(v, heap)) else Lost(Panicked)
    case Lost(_) => r
  }

  function Negation(v: Value): Result {
    if v.Bool? then Got(Bool(!v.b)) else Lost(Panicked)
  }

  // ---------- Storage laws ----------

  /** The variable a name is looked up through. */
  function Root(name: string): string {
    if '.' in name then Owner(name) else name
  }

  /** Setting a local variable: it then has the value, and nothing looked up through another name changes. */
  lemma SetThenGet(env: Env, name: string, v: Value, w: World)
    requires '.' !in name && name !in env.base
    ensures var e := SetValue(env, name, v, w);
            && e.r == Got(Nil) && GetValue(env, name, e.w) == Got(v)
            && (forall other | Root(other) != name :: GetValue(env, other, e.w) == GetValue(env, other, w))
  {
  }

  /** An injected name hides a variable of the same name, for reading and for writing. */
  lemma InjectedHides(env: Env, name: string, v: Value, w: World)
    requires '.' !in name && name in env.base
    ensures GetValue(env, name, w) == Got(env.base[name])
    ensures SetValue(env, name, v, w).w.vars == w.vars
  {
  }

  /** A call finds its function among the injected names first; without one, the host is not called. */
  lemma CallNeedsCallee(env: Env, kind: CallKind, name: string, args: seq<Value>, w: World)
    ensures var root := if kind == Function then name else Owner(name);
            var e := Invoke(env, kind, name, args, w);
            if root !in env.base && root !in w.vars then e == Eval(w, Lost(Failed))
            else e.w.calls == w.calls + 1 && e.w.vars == w.vars && e.r != Lost(Panicked)
  {
  }

  /** Objects other than the one at addr are the same in both heaps. */
  ghost predicate SameElsewhere(before: Heap, after: Heap, addr: nat) {
    forall a | a != addr :: (a in before <==> a in after) && (a in before ==> before[a] == after[a])
  }

  /** A successful write into a map is read back under its key, changes no other key and no other object. */
  lemma WriteThenReadMap(env: Env, holder: Value, k: Key, v: Value, w: World)
    requires holder.Ref? && holder.addr in w.heap && w.heap[holder.addr].MapObject? && WriteAt(env, holder, k, v, w).r.Got?
    ensures var o, w' := w.heap[holder.addr], WriteAt(env, holder, k, v, w).w;
            && env.key(KeyValue(Solid(k, w.heap)), o.keyType).Some? && env.elem(Content(v, w.heap), o.elemType).Some? && o.writable
            && var key, x := env.key(KeyValue(Solid(k, w.heap)), o.keyType).value, env.elem(Content(v, w.heap), o.elemType).value;
               && ReadAt(env, holder, k, w'.heap) == Got(if x == Nil then env.zero(o.elemType) else x)
               && holder.addr in w'.heap && w'.heap[holder.addr].MapObject?
               && w'.heap[holder.addr].entries - {key} == o.entries - {key}
               && SameElsewhere(w.heap, w'.heap, holder.addr) && w'.vars == w.vars
  {
  }

  /**
   A successful write into a slice changes one cell of its array, and with it what exactly those
   values read that refer to this cell: a variable assigned from the element sees the write.
   */
  lemma WriteThenReadSlice(env: Env, holder: Value, k: Key, v: Value, w: World)
    requires holder.Ref? && holder.addr in w.heap && w.heap[holder.addr].SliceObject? && WriteAt(env, holder, k, v, w).r.Got?
    ensures var o, w', at := w.heap[holder.addr], WriteAt(env, holder, k, v, w).w, KeyValue(Solid(k, w.heap));
            && env.elem(Content(v, w.heap), o.elemType).Some? && o.writable && at.Int? && 0 <= at.n < o.length
            && var cell, x := Element(o.cells, o.offset + at.n), env.elem(Content(v, w.heap), o.elemType).value;
               && ReadAt(env, holder, Solid(k, w.heap), w'.heap) == Got(cell)
               && Content(cell, w'.heap) == x
               && (forall u: Value :: Content(u, w'.heap) != Content(u, w.heap) <==> u == cell && Content(u, w.heap) != x)
               && SameElsewhere(w.heap, w'.heap, o.cells) && w'.vars == w.vars
  {
  }

  /** A write that fails changes nothing. */
  lemma FailedWrite(env: Env, holder: Value, k: Key, v: Value, w: World)
    requires WriteAt(env, holder, k, v, w).r.Lost?
    ensures WriteAt(env, holder, k, v, w).w == w
  {
  }

  /** Positions of a slice: exactly the signed integers from 0 up to the length. */
  lemma PositionIff(k: Key, length: nat)
    ensures Position(k, length).Got? <==>
            !k.FromString? && KeyValue(k).Int? && KeyValue(k).sign == Signed && 0 <= KeyValue(k).n < length
    ensures Position(k, length).Got? ==> Position(k, length).v == KeyValue(k)
  {
  }

  // ---------- String order ----------

  /** Of two strings exactly one is less, or they are equal. */
  lemma {:induction false} StringTrichotomy(a: string, b: string)
    ensures StringLess(a, b) || a == b || StringLess(b, a)
    ensures !(StringLess(a, b) && StringLess(b, a)) && !(a == b && StringLess(a, b))
  {
    if a != [] && b != [] && a[0] == b[0] {
      StringTrichotomy(a[1..], b[1..]);
      assert a == [a[0]] + a[1..] && b == [b[0]] + b[1..];
    }
  }

  lemma {:induction false} StringTransitive(a: string, b: string, c: string)
    requires StringLess(a, b) && StringLess(b, c)
    ensures StringLess(a, c)
  {
    if a != [] && a[0] == b[0] == c[0] {
      StringTransitive(a[1..], b[1..], c[1..]);
    }
  }

  /** On strings as on integers, less-than is transitive. */
  lemma LessTransitive(env: Env, a: Value, b: Value, c: Value)
    requires (a.Str? && b.Str? && c.Str?) || (a.Int? && b.Int? && c.Int?)
    requires Compare(env, "<", a, b) == Got(Bool(true)) && Compare(env, "<", b, c) == Got(Bool(true))
    ensures Compare(env, "<", a, c) == Got(Bool(true))
  {
    hide F64;
    if a.Str? {
      StringTransitive(a.s, b.s, c.s);
    }
  }

  /** On strings as on integers, the six comparisons are those of one total order. */
  lemma ComparisonsAgree(env: Env, a: Value, b: Value)
    requires (a.Str? && b.Str?) || (a.Int? && b.Int?)
    ensures (Compare(env, "<", a, b) == Got(Bool(true))) <==> (Compare(env, ">", b, a) == Got(Bool(true)))
    ensures (Compare(env, "<=", a, b) == Got(Bool(true))) <==> (Compare(env, ">", a, b) == Got(Bool(false)))
    ensures (Compare(env, ">=", a, b) == Got(Bool(true))) <==> (Compare(env, "<", a, b) == Got(Bool(false)))
    ensures (Compare(env, "==", a, b) == Got(Bool(true))) <==> (Compare(env, "!=", a, b) == Got(Bool(false)))
    ensures (Compare(env, "==", a, b) == Got(Bool(true))) <==>
            (Compare(env, "<=", a, b) == Got(Bool(true)) && Compare(env, ">=", a, b) == Got(Bool(true)))
  {
    hide F64;
    if a.Str? {
      StringTrichotomy(a.s, b.s);
    }
  }
}
