/** The two type resolvers of the generator: `qt_param_type`, which gives the
    C++ type a descriptor is held in, and `from_variant_func_name`, which gives
    the name of the conversion routine for it. Both peel the optional modifier
    first and the array modifier second. */
module Resolvers {
  import opened Wrappers
  import opened Text
  import opened Descriptors

  /** The C++ text of a base case of `qt_param_type`. */
  function BaseQtType(p: Param): string
  {
    match BaseKindOf(p)
    case IntKind => "int"
    case StringKind => "QString"
    case BoolKind => "bool"
    case FloatKind => "double"
    case StructKind(k) => k.0 + "_" + k.1
    case UnknownKind => "xxx"
  }

  /** Reference definition: wrap a base type in the given modifiers,
      outermost first. */
  function WrapType(ms: seq<Modifier>, t: string): string
  {
    if ms == [] then t
    else match ms[0]
      case Opt => "OptionalArgument<" + WrapType(ms[1..], t) + "> "
      case Arr => "QList<" + WrapType(ms[1..], t) + "> "
  }

  lemma WrapCons(m: Modifier, ms: seq<Modifier>, t: string)
    ensures WrapType([m] + ms, t) == match m
      case Opt => "OptionalArgument<" + WrapType(ms, t) + "> "
      case Arr => "QList<" + WrapType(ms, t) + "> "
  {
    assert ([m] + ms)[1..] == ms;
  }

  /** `qt_param_type`: a non-mandatory descriptor is resolved as its
      mandatory copy inside `OptionalArgument<...> `; otherwise an array one
      as its non-array copy inside `QList<...> `; otherwise the base case.
      An unknown type silently yields `xxx`. */
  function QtParamType(p: Param): string
    decreases Peel(p)
  {
    if !p.mandatory then
      "OptionalArgument<" + QtParamType(p.(mandatory := true)) + "> "
    else if p.isArray then
      "QList<" + QtParamType(p.(isArray := false)) + "> "
    else if p.typeName == "Integer" || p.isEnum then "int"
    else if p.typeName == "String" then "QString"
    else if p.typeName == "Boolean" then "bool"
    else if p.typeName == "Float" then "double"
    else if p.isStruct then p.fulltype.0 + "_" + p.fulltype.1
    else "xxx"
  }

  /** The peel order: the C++ type is the base type wrapped in the
      descriptor's modifiers, optional outermost, then array. */
  lemma {:induction false} QtParamTypeWraps(p: Param)
    ensures QtParamType(p) == WrapType(Modifiers(p), BaseQtType(p))
    decreases Peel(p)
  {
    if !p.mandatory {
      var q := p.(mandatory := true);
      QtParamTypeWraps(q);
      assert Modifiers(p) == [Opt] + Modifiers(q);
      assert BaseQtType(q) == BaseQtType(p);
      WrapCons(Opt, Modifiers(q), BaseQtType(p));
    } else if p.isArray {
      var q := p.(isArray := false);
      QtParamTypeWraps(q);
      assert Modifiers(p) == [Arr] && Modifiers(q) == [];
      assert BaseQtType(q) == BaseQtType(p);
      WrapCons(Arr, [], BaseQtType(p));
    }
  }

  /** Inverse of `WrapType` on text: strips `OptionalArgument<...> ` and
      `QList<...> ` layers from the outside in. */
  function UnwrapType(t: string): (seq<Modifier>, string)
    decreases |t|
  {
    if |t| >= 19 && StartsWith(t, "OptionalArgument<") && EndsWith(t, "> ") then
      var inner := UnwrapType(t[17..|t| - 2]);
      ([Opt] + inner.0, inner.1)
    else if |t| >= 8 && StartsWith(t, "QList<") && EndsWith(t, "> ") then
      var inner := UnwrapType(t[6..|t| - 2]);
      ([Arr] + inner.0, inner.1)
    else ([], t)
  }

  lemma {:induction false} UnwrapWrap(ms: seq<Modifier>, b: string)
    requires '<' !in b
    ensures UnwrapType(WrapType(ms, b)) == (ms, b)
    decreases |ms|
  {
    if ms == [] {
      assert !StartsWith(b, "OptionalArgument<") by {
        if |b| >= 17 { assert b[..17][16] == b[16] != '<'; }
      }
      assert !StartsWith(b, "QList<") by {
        if |b| >= 6 { assert b[..6][5] == b[5] != '<'; }
      }
    } else {
      var w := WrapType(ms[1..], b);
      UnwrapWrap(ms[1..], b);
      assert ms == [ms[0]] + ms[1..];
      match ms[0]
      case Opt =>
        var t := "OptionalArgument<" + w + "> ";
        assert t[17..|t| - 2] == w;
        assert t[..17] == "OptionalArgument<";
        assert t[|t| - 2..] == "> ";
      case Arr =>
        var t := "QList<" + w + "> ";
        assert t[6..|t| - 2] == w;
        assert t[..6] == "QList<";
        assert t[|t| - 2..] == "> ";
        assert !StartsWith(t, "OptionalArgument<") by { assert t[0] == 'Q'; }
    }
  }

  /** The C++ type text determines the descriptor's modifiers and base type,
      as long as the struct key has no `<` in it. */
  lemma QtParamTypeUnwraps(p: Param)
    requires '<' !in p.fulltype.0 && '<' !in p.fulltype.1
    ensures UnwrapType(QtParamType(p)) == (Modifiers(p), BaseQtType(p))
  {
    var b := BaseQtType(p);
    assert '<' !in b by {
      if BaseKindOf(p).StructKind? {
        assert b == p.fulltype.0 + "_" + p.fulltype.1;
        forall i | 0 <= i < |b| ensures b[i] != '<' {
          if i < |p.fulltype.0| { assert b[i] == p.fulltype.0[i]; }
          else if i > |p.fulltype.0| { assert b[i] == p.fulltype.1[i - |p.fulltype.0| - 1]; }
        }
      }
    }
    QtParamTypeWraps(p);
    UnwrapWrap(Modifiers(p), b);
  }

  /** Optional-of-array is two wrapping steps over the base type, optional
      outside, and each step is the one-step wrap of the next inner type. */
  lemma OptionalArrayComposition(p: Param)
    requires !p.mandatory && p.isArray
    ensures QtParamType(p) == "OptionalArgument<" + ("QList<" + BaseQtType(p) + "> ") + "> "
    ensures QtParamType(p) == "OptionalArgument<" + QtParamType(p.(mandatory := true)) + "> "
    ensures QtParamType(p.(mandatory := true)) == "QList<" + QtParamType(Core(p)) + "> "
  {
    var p1, p0 := p.(mandatory := true), Core(p);
    assert p1.(isArray := false) == p0;
    assert QtParamType(p) == "OptionalArgument<" + QtParamType(p1) + "> ";
    assert QtParamType(p1) == "QList<" + QtParamType(p0) + "> ";
    assert Modifiers(p0) == [];
    assert BaseQtType(p0) == BaseQtType(p);
  }

  /** The base cases, in the order the `if` chain tests them. */
  lemma QtParamTypeBaseCases(p: Param)
    requires p.mandatory && !p.isArray
    ensures p.typeName == "Integer" || p.isEnum ==> QtParamType(p) == "int"
    ensures p.typeName == "String" && !p.isEnum ==> QtParamType(p) == "QString"
    ensures p.typeName == "Boolean" && !p.isEnum ==> QtParamType(p) == "bool"
    ensures p.typeName == "Float" && !p.isEnum ==> QtParamType(p) == "double"
    ensures p.isStruct && !IsBasic(p) ==> QtParamType(p) == p.fulltype.0 + "_" + p.fulltype.1
    ensures !p.isStruct && !IsBasic(p) ==> QtParamType(p) == "xxx"
  {
  }

  // ---------------------------------------------------------------------
  // from_variant_func_name

  /** The name prefix for a modifier list: `opt_` and `arr_`, outermost first. */
  function FuncPrefix(ms: seq<Modifier>): string
  {
    if ms == [] then ""
    else (match ms[0] case Opt => "opt_" case Arr => "arr_") + FuncPrefix(ms[1..])
  }

  /** The `(interface, name)` a non-primitive type name refers to: the first
      two pieces of a dotted name, or the enclosing interface and the name. */
  function ResolveKey(typeName: string, iface: string): Key
  {
    var parts := Split(typeName, '.');
    if |parts| > 1 then (parts[0], parts[1]) else (iface, parts[0])
  }

  /** An unqualified name refers to the enclosing interface. */
  lemma ResolveUnqualified(t: string, iface: string)
    requires '.' !in t
    ensures ResolveKey(t, iface) == (iface, t)
  {
    SplitNoSep(t, '.');
  }

  /** `(iface, name)` of a qualified name `A.B` is `(A, B)`. */
  lemma ResolveQualified(a: string, b: string, iface: string)
    requires '.' !in a && '.' !in b
    ensures ResolveKey(a + "." + b, iface) == (a, b)
  {
    SplitAround(a, b, '.');
    SplitNoSep(b, '.');
  }

  lemma {:induction false} SplitAround(a: string, b: string, c: char)
    requires c !in a
    ensures Split(a + [c] + b, c) == [a] + Split(b, c)
    decreases |a|
  {
    if a == [] {
      assert a + [c] + b == [c] + b;
      assert ([c] + b)[1..] == b;
    } else {
      var s := a + [c] + b;
      assert s[1..] == a[1..] + [c] + b;
      SplitAround(a[1..], b, c);
      assert [a[0]] + a[1..] == a;
    }
  }

  lemma {:induction false} SplitNoSep(b: string, c: char)
    requires c !in b
    ensures Split(b, c) == [b]
    decreases |b|
  {
    if b != [] {
      SplitNoSep(b[1..], c);
      assert [b[0]] + b[1..] == b;
    }
  }

  /** The base of the routine name: a primitive type name verbatim, a struct
      key as `iface_name`, an enum key as `Integer`; a key in neither table is
      a failure (the source concatenates a tuple with a string there). */
  function BaseFuncName(typeName: string, iface: string, structs: StructTable, enums: set<Key>): Option<string>
  {
    if IsPrimitiveName(typeName) then Some(typeName)
    else
      var k := ResolveKey(typeName, iface);
      if k in structs then Some(k.0 + "_" + k.1)
      else if k in enums then Some("Integer")
      else None
  }

  lemma PrefixCons(m: Modifier, ms: seq<Modifier>, b: string)
    ensures (match m case Opt => "opt_" case Arr => "arr_") + (FuncPrefix(ms) + b)
         == FuncPrefix([m] + ms) + b
  {
    assert ([m] + ms)[1..] == ms;
  }

  /** `from_variant_func_name`: `opt_` for a non-mandatory descriptor, then
      `arr_` for an array one, then the base name and `_from_variant`. */
  function FromVariantFuncName(p: Param, iface: string, structs: StructTable, enums: set<Key>): (r: Option<string>)
    ensures r.Some? <==> BaseFuncName(p.typeName, iface, structs, enums).Some?
    ensures r.Some? ==> r.value == FuncPrefix(Modifiers(p)) + (BaseFuncName(p.typeName, iface, structs, enums).value + "_from_variant")
    decreases Peel(p)
  {
    if !p.mandatory then
      match FromVariantFuncName(p.(mandatory := true), iface, structs, enums)
      case Some(s) =>
        assert Modifiers(p) == [Opt] + Modifiers(p.(mandatory := true));
        PrefixCons(Opt, Modifiers(p.(mandatory := true)), BaseFuncName(p.typeName, iface, structs, enums).value + "_from_variant");
        Some("opt_" + s)
      case None => None
    else if p.isArray then
      match FromVariantFuncName(p.(isArray := false), iface, structs, enums)
      case Some(s) =>
        assert Modifiers(p) == [Arr] && Modifiers(p.(isArray := false)) == [];
        PrefixCons(Arr, [], BaseFuncName(p.typeName, iface, structs, enums).value + "_from_variant");
        Some("arr_" + s)
      case None => None
    else
      match BaseFuncName(p.typeName, iface, structs, enums)
      case Some(b) => Some(b + "_from_variant")
      case None => None
  }

  /** Every successful result ends in `_from_variant`. */
  lemma FromVariantSuffix(p: Param, iface: string, structs: StructTable, enums: set<Key>)
    requires FromVariantFuncName(p, iface, structs, enums).Some?
    ensures EndsWith(FromVariantFuncName(p, iface, structs, enums).value, "_from_variant")
  {
    var r := FromVariantFuncName(p, iface, structs, enums).value;
    var head := FuncPrefix(Modifiers(p)) + BaseFuncName(p.typeName, iface, structs, enums).value;
    assert r == head + "_from_variant";
    assert r[|r| - 13..] == "_from_variant";
  }

  /** Naming and typing stay in lockstep: the routine name's prefix is
      read off the modifiers recovered from the C++ type text. */
  lemma NamingLockstep(p: Param, iface: string, structs: StructTable, enums: set<Key>)
    requires '<' !in p.fulltype.0 && '<' !in p.fulltype.1
    requires FromVariantFuncName(p, iface, structs, enums).Some?
    ensures FromVariantFuncName(p, iface, structs, enums).value
         == FuncPrefix(UnwrapType(QtParamType(p)).0) + (BaseFuncName(p.typeName, iface, structs, enums).value + "_from_variant")
  {
    QtParamTypeUnwraps(p);
  }

  /** The four resolution outcomes for a mandatory, non-array descriptor. */
  lemma FromVariantBaseCases(p: Param, iface: string, structs: StructTable, enums: set<Key>)
    requires p.mandatory && !p.isArray
    ensures IsPrimitiveName(p.typeName) ==> FromVariantFuncName(p, iface, structs, enums) == Some(p.typeName + "_from_variant")
    ensures !IsPrimitiveName(p.typeName) && ResolveKey(p.typeName, iface) in structs ==>
      FromVariantFuncName(p, iface, structs, enums) == Some(ResolveKey(p.typeName, iface).0 + "_" + ResolveKey(p.typeName, iface).1 + "_from_variant")
    ensures !IsPrimitiveName(p.typeName) && ResolveKey(p.typeName, iface) !in structs && ResolveKey(p.typeName, iface) in enums ==>
      FromVariantFuncName(p, iface, structs, enums) == Some("Integer" + "_from_variant")
    ensures !IsPrimitiveName(p.typeName) && ResolveKey(p.typeName, iface) !in structs && ResolveKey(p.typeName, iface) !in enums ==>
      FromVariantFuncName(p, iface, structs, enums) == None
  {
  }
}
