/** The already-parsed model the generator works on: parameter descriptors
    (the result of `make_param_desc`), methods, notifications, interfaces and
    the struct and enum tables. */
module Descriptors {

  /** A struct or enum key `(interface, name)`. */
  type Key = (string, string)

  /** A parameter descriptor: the XML `type` attribute, the `mandatory` and
      `array` modifiers, whether the type names an enum or a struct, and the
      resolved `(interface, name)` of that enum or struct. */
  datatype Param = Param(
    name: string,
    typeName: string,
    mandatory: bool,
    isArray: bool,
    isEnum: bool,
    isStruct: bool,
    fulltype: Key)

  /** A request/response pair; the first response parameter is the return value. */
  datatype Method = Method(name: string, request: seq<Param>, response: seq<Param>)

  datatype Notification = Notification(name: string, params: seq<Param>)

  /** An interface with its notifications and request/response pairs, in
      document order, and the chunks `ElementTree.tostringlist` yields for its
      introspection element. */
  datatype Interface = Interface(
    name: string,
    methods: seq<Method>,
    notifications: seq<Notification>,
    introspection: seq<string>)

  /** One entry of `self.structs`: the key and the ordered field list. */
  datatype StructDecl = StructDecl(key: Key, fields: seq<Param>)

  /** The lookup table `self.structs` as a map. */
  type StructTable = map<Key, seq<Param>>

  /** `ds` lists the entries of `structs`, as `self.structs.items()` does:
      every entry exactly once, with its fields. */
  predicate ListsTable(structs: StructTable, ds: seq<StructDecl>)
  {
    (forall i :: 0 <= i < |ds| ==> ds[i].key in structs && structs[ds[i].key] == ds[i].fields) &&
    (forall k :: k in structs ==> exists i :: 0 <= i < |ds| && ds[i].key == k) &&
    (forall i, j :: 0 <= i < j < |ds| ==> ds[i].key != ds[j].key)
  }

  /** The type modifiers, outermost first. */
  datatype Modifier = Opt | Arr

  /** The modifiers the resolvers peel, in their order: optional, then array. */
  function Modifiers(p: Param): seq<Modifier>
  {
    (if p.mandatory then [] else [Opt]) + (if p.isArray then [Arr] else [])
  }

  /** The number of peeling steps left; the resolvers recurse on it. */
  function Peel(p: Param): nat
  {
    (if p.mandatory then 0 else 2) + (if p.isArray then 1 else 0)
  }

  /** The descriptor with both modifiers peeled off. */
  function Core(p: Param): Param
  {
    p.(mandatory := true, isArray := false)
  }

  /** The four primitive schema type names. */
  predicate IsPrimitiveName(t: string)
  {
    t == "Integer" || t == "String" || t == "Boolean" || t == "Float"
  }

  /** The base cases of `qt_param_type`, in the order its `if` chain tests
      them: an Integer or any enum first, then String, Boolean, Float, then a
      struct, and anything else is unknown. */
  datatype BaseKind = IntKind | StringKind | BoolKind | FloatKind | StructKind(key: Key) | UnknownKind

  function BaseKindOf(p: Param): BaseKind
  {
    if p.typeName == "Integer" || p.isEnum then IntKind
    else if p.typeName == "String" then StringKind
    else if p.typeName == "Boolean" then BoolKind
    else if p.typeName == "Float" then FloatKind
    else if p.isStruct then StructKind(p.fulltype)
    else UnknownKind
  }

  /** The "basic type" test of the notification slot (lines 362 and 374). */
  predicate IsBasic(p: Param)
  {
    IsPrimitiveName(p.typeName) || p.isEnum
  }

  /** A descriptor as `make_param_desc` builds it never flags a primitive or
      an enum as a struct. */
  predicate WellFormed(p: Param)
  {
    p.isStruct ==> !IsBasic(p)
  }

  /** An interface with neither notifications nor request/response pairs. */
  predicate IsEmptyInterface(i: Interface)
  {
    |i.notifications| == 0 && |i.methods| == 0
  }
}
