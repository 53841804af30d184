/** The java.lang.reflect.Type values the validation engine works with. */
module JavaTypes {
  import opened Wrappers

  /** What a type lookup hands back: a loaded Class (primitive, array or
    * plain), or one of the parser's stand-ins for types that cannot be
    * loaded, EmulateType and its enum subclass EnumType. */
  datatype LeafType =
    | ClassType(name: string)
    | ArrayClass(component: LeafType)
    | EmulateType(typeName: string)
    | EnumType(typeName: string, constants: Option<seq<string>>)

  /** A leaf, or the parser's synthetic ParameterizedType, which keeps the raw
    * type's NAME and loads it only when getRawType is called. */
  datatype JType =
    | Leaf(leaf: LeafType)
    | Parameterized(raw: string, args: seq<JType>)

  /** Type.getTypeName: arrays print as their component followed by "[]". */
  function TypeName(t: LeafType): (r: string)
    ensures t.ArrayClass? ==> |r| >= 2 && r[|r| - 2..] == "[]"
  {
    match t
    case ClassType(n) => n
    case ArrayClass(c) => TypeName(c) + "[]"
    case EmulateType(n) => n
    case EnumType(n, _) => n
  }

  /** `type instanceof Class`. */
  predicate IsClass(t: LeafType) {
    t.ClassType? || t.ArrayClass?
  }
}
