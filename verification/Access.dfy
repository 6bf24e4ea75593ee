/**
 Names and indexings: what a name reads and writes, and when reading or writing an element succeeds.
 */
module Access {
  import opened Values
  import opened ParseTree
  import opened Runtime
  import opened Evaluator
  import opened Calls

  // ---------- Names ----------

  /** A plain name reads what it stands for, and a name that stands for nothing is an error. */
  lemma NameReads(env: Env, name: string, w: World)
    requires '.' !in name
    ensures forall v | StandsFor(env, name, w, v) :: GetValue(env, name, w) == Got(v)
    ensures StandsForNothing(env, name, w) ==> GetValue(env, name, w) == Lost(Failed)
  {
  }

  /** A dotted name reads a field of the object before its first dot. */
  lemma FieldReads(env: Env, owner: string, rest: string, w: World)
    requires '.' !in owner
    ensures forall v | StandsFor(env, owner, w, v) ::
              GetValue(env, owner + "." + rest, w) == env.field(v, owner + "." + rest, w.heap, w.host)
    ensures StandsForNothing(env, owner, w) ==> GetValue(env, owner + "." + rest, w) == Lost(Failed)
  {
    OwnerIsPrefix(owner, rest);
    assert (owner + "." + rest)[|owner|] == '.';
  }

  /** What the host has done to the world, and its answer. */
  predicate HostSet(w: World, reply: Reply, e: Eval) {
    e == Eval(w.(heap := reply.heap, host := reply.host), reply.r)
  }

  /** Writing a dotted name sets the field, writing an injected name what was injected, to what the value reads as. */
  lemma NamesWrite(env: Env, name: string, owner: string, rest: string, u: Value, w: World)
    requires '.' !in name && '.' !in owner
    ensures name in env.base ==>
              HostSet(w, env.setBase(env.base[name], Content(u, w.heap), w.heap, w.host), SetValue(env, name, u, w))
    ensures forall v | StandsFor(env, owner, w, v) ::
              HostSet(w, env.setField(v, owner + "." + rest, Content(u, w.heap), w.heap, w.host), SetValue(env, owner + "." + rest, u, w))
    ensures StandsForNothing(env, owner, w) ==> SetValue(env, owner + "." + rest, u, w) == Eval(w, Lost(Failed))
  {
    OwnerIsPrefix(owner, rest);
    assert (owner + "." + rest)[|owner|] == '.';
  }

  // ---------- Elements ----------

  /** What a key reads as in w. */
  function KeyReads(k: Key, heap: Heap): Value {
    match k
    case FromVariable(v) => Content(v, heap)
    case FromString(s) => Str(s)
    case FromInteger(n) => Int(Signed, n)
  }

  /** Indexing a map: the entry, or the element type's zero; a key that does not convert panics. */
  lemma MapReads(env: Env, holder: Value, k: Key, heap: Heap)
    requires var c := Content(holder, heap); c.Ref? && c.addr in heap && heap[c.addr].MapObject?
    ensures var o := heap[Content(holder, heap).addr];
            var key := env.key(KeyReads(k, heap), o.keyType);
            && (key == None ==> ReadAt(env, holder, k, heap) == Lost(Panicked))
            && (key.Some? && key.value in o.entries ==> ReadAt(env, holder, k, heap) == Got(o.entries[key.value]))
            && (key.Some? && key.value !in o.entries ==> ReadAt(env, holder, k, heap) == Got(env.zero(o.elemType)))
  {
  }

  /** The array behind a slice is as long as the slice needs. */
  predicate WholeWindow(o: Object, heap: Heap)
    requires o.SliceObject?
  {
    o.cells in heap && heap[o.cells].ArrayObject? && o.offset + o.length <= |heap[o.cells].elems|
  }

  /** A good index of a slice of the given length. */
  predicate GoodIndex(k: Key, heap: Heap, length: nat) {
    !k.FromString? && KeyReads(k, heap).Int? && KeyReads(k, heap).sign == Signed && 0 <= KeyReads(k, heap).n < length
  }

  /** An index that is an error rather than a panic: a string literal, or a negative integer literal. */
  predicate BadLiteral(k: Key) {
    k.FromString? || (k.FromInteger? && k.n < 0)
  }

  /** Indexing a slice: a reference to the element, for exactly the good indexes. */
  lemma SliceReads(env: Env, holder: Value, k: Key, heap: Heap)
    requires var c := Content(holder, heap); c.Ref? && c.addr in heap && heap[c.addr].SliceObject?
    requires WholeWindow(heap[Content(holder, heap).addr], heap)
    ensures var o := heap[Content(holder, heap).addr];
            ReadAt(env, holder, k, heap) ==
            if GoodIndex(k, heap, o.length) then Got(Element(o.cells, o.offset + KeyReads(k, heap).n))
            else if BadLiteral(k) then Lost(Failed) else Lost(Panicked)
  {
  }

  /** Anything that is neither, nor a pointer to one, cannot be indexed. */
  lemma NothingElseReads(env: Env, holder: Value, k: Key, v: Value, w: World)
    requires var c := Content(holder, w.heap); !(c.Ref? && c.addr in w.heap && !w.heap[c.addr].ArrayObject?)
    ensures ReadAt(env, holder, k, w.heap) == Lost(Failed)
    ensures WriteAt(env, holder, k, v, w) == Eval(w, Lost(Panicked))
  {
  }

  /** A write into a map succeeds exactly if key and value convert and the map can be written. */
  lemma MapWritesIff(env: Env, holder: Value, k: Key, v: Value, w: World)
    requires var c := Content(holder, w.heap); c.Ref? && c.addr in w.heap && w.heap[c.addr].MapObject?
    ensures var o := w.heap[Content(holder, w.heap).addr];
            && (WriteAt(env, holder, k, v, w).r.Got? <==>
                o.writable && env.key(KeyReads(k, w.heap), o.keyType).Some? && env.elem(Content(v, w.heap), o.elemType).Some?)
            && WriteAt(env, holder, k, v, w).r != Lost(Failed)
  {
  }

  /** A write into a slice succeeds exactly for a good index and a value that converts, if the slice can be written. */
  lemma SliceWritesIff(env: Env, holder: Value, k: Key, v: Value, w: World)
    requires var c := Content(holder, w.heap); c.Ref? && c.addr in w.heap && w.heap[c.addr].SliceObject?
    requires WholeWindow(w.heap[Content(holder, w.heap).addr], w.heap)
    ensures var o, e := w.heap[Content(holder, w.heap).addr], WriteAt(env, holder, k, v, w);
            var x := env.elem(Content(v, w.heap), o.elemType);
            && (e.r.Got? <==> o.writable && GoodIndex(k, w.heap, o.length) && x.Some? && x.value != Nil)
            && (e.r.Got? ==>
                  var elems := w.heap[o.cells].elems[o.offset + KeyReads(k, w.heap).n := x.value];
                  e == Eval(w.(heap := w.heap[o.cells := ArrayObject(elems)]), Got(Nil)))
            && (e.r == Lost(Failed) <==> BadLiteral(k))
  {
  }
}
