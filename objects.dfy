/** The tagged value type that flows through the scanner, the parser, the
    dictionary and the interpreter stack. */
module Objects {

  /** A Rust `i64`: the payload of `Object::Number`. */
  type I64 = n: int | -0x8000_0000_0000_0000 <= n < 0x8000_0000_0000_0000

  const MinI64: int := -0x8000_0000_0000_0000
  const MaxI64: int := 0x7FFF_FFFF_FFFF_FFFF

  /** The variants the scanner, parser, dictionary and builtins use.
      `Real` keeps the numeral's text: floating point is not modelled.
      `Callable` stands for a dictionary entry with behaviour; its name only
      tells callables apart in the model, equality ignores it. */
  datatype Object =
    | Nil
    | Number(n: I64)
    | Real(text: string)
    | Str(s: string)
    | Atom(name: string)
    | Word(name: string)
    | Callable(name: string)

  /** `PartialEq` for objects: structural, except that a callable equals
      nothing, not even itself. */
  predicate ObjEquals(x: Object, y: Object)
  {
    !x.Callable? && !y.Callable? && x == y
  }

  lemma ObjEqualsProperties(x: Object, y: Object)
    ensures ObjEquals(x, y) == ObjEquals(y, x)
    ensures ObjEquals(x, x) <==> !x.Callable?
    ensures x.Callable? ==> !ObjEquals(x, y)
    ensures ObjEquals(x, y) ==> x == y
  {
  }
}
