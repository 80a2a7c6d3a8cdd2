/** The values a generic list holds: each carries the type it was created as. */
module Elements {

  /** The name of a class or interface, e.g. "ArrayObject". Type checks compare tags only. */
  type TypeTag = string

  /** An element of a list: an object of type `tag` whose `name` entry is `name`. */
  datatype Elem = Elem(tag: TypeTag, name: string)

  /** Every element of `s` is of type `t`. */
  predicate Conforms(s: seq<Elem>, t: TypeTag)
  {
    forall e :: e in s ==> e.tag == t
  }
}
