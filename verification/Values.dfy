/** Run-time values of the rule language, and the optional value used for a nil pointer. */
module Values {

  datatype Option<+T> = None | Some(value: T)

  /** Numeric kinds by signedness: every signed kind is widened to int64, every unsigned one to uint64. */
  datatype Sign = Signed | Unsigned

  /**
   A `reflect.Value` as far as the language looks into it. `Nil` is the invalid value
   `reflect.ValueOf(nil)`. `Ref` is a map or a slice, shared by reference, or a pointer to one.
   `Element` is an addressable reference to one cell of an array, as indexing a slice yields it.
   `Float` and `Other` are carried around without being looked into.
   */
  datatype Value =
    | Nil
    | Bool(b: bool)
    | Int(sign: Sign, n: int)
    | Str(s: string)
    | Float(bits: nat)
    | Ref(addr: nat, pointer: bool)
    | Element(cells: nat, index: nat)
    | Other(id: nat)
}
