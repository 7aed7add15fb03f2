/** What the per-struct code emitted by `write_struct_definition` does at
    run time: `ValueToVariant` packs a struct into a `QVariantMap` keyed by
    field name, and `VariantToValue` / `GetArgFromMap` unpack it again,
    field by field, stopping at the first failure.

    A `QVariant` is a `Variant`; a typed C++ value is a `Value`. The
    conversions the emitted code calls for basic, optional and list
    parameters come from a runtime library that is not part of this model;
    `Encode` and `Decode` give them the meaning that library's use here
    implies (see the README). */
module Codec {
  import opened Wrappers
  import opened Descriptors

  datatype Variant =
    | Map(entries: map<string, Variant>)
    | List(items: seq<Variant>)
    | IntV(i: int)
    | StrV(s: string)
    | BoolV(b: bool)
    | FloatV(f: real)
    | Null

  datatype Value =
    | IntVal(i: int)
    | StrVal(s: string)
    | BoolVal(b: bool)
    | FloatVal(f: real)
    | StructVal(fields: seq<Value>)
    | ListVal(elems: seq<Value>)
    | OptVal(opt: Option<Value>)

  /** `x` is a value of the C++ type the descriptor `p` resolves to. */
  predicate HasType(structs: StructTable, p: Param, x: Value)
    decreases x
  {
    if !p.mandatory then
      x.OptVal? && (x.opt.Some? ==> HasType(structs, p.(mandatory := true), x.opt.value))
    else if p.isArray then
      x.ListVal? && forall i :: 0 <= i < |x.elems| ==> HasType(structs, p.(isArray := false), x.elems[i])
    else
      match BaseKindOf(p)
      case IntKind => x.IntVal?
      case StringKind => x.StrVal?
      case BoolKind => x.BoolVal?
      case FloatKind => x.FloatVal?
      case StructKind(k) =>
        x.StructVal? && k in structs && |x.fields| == |structs[k]| &&
        forall i :: 0 <= i < |x.fields| ==> HasType(structs, structs[k][i], x.fields[i])
      case UnknownKind => false
  }

  predicate FieldsHaveTypes(structs: StructTable, fields: seq<Param>, vs: seq<Value>)
  {
    |vs| == |fields| && forall i :: 0 <= i < |vs| ==> HasType(structs, fields[i], vs[i])
  }

  predicate DistinctNames(fields: seq<Param>)
  {
    forall i, j :: 0 <= i < j < |fields| ==> fields[i].name != fields[j].name
  }

  predicate DistinctFieldNames(structs: StructTable)
  {
    forall k :: k in structs ==> DistinctNames(structs[k])
  }

  function FieldNames(fields: seq<Param>): set<string>
  {
    set i | 0 <= i < |fields| :: fields[i].name
  }

  // ---------------------------------------------------------------------
  // Encoding (ValueToVariant, PutArgToMap)

  /** The variant a value of descriptor `p` travels as: an optional as `Null`
      when absent and as its value otherwise, a list as a `List` of its
      elements, a struct as the map its `ValueToVariant` builds. */
  function Encode(structs: StructTable, p: Param, x: Value): Variant
    decreases x, 2, 0
  {
    if !p.mandatory then
      match x
      case OptVal(Some(y)) => Encode(structs, p.(mandatory := true), y)
      case _ => Null
    else if p.isArray then
      match x
      case ListVal(xs) => List(EncodeList(structs, p.(isArray := false), xs))
      case _ => Null
    else
      match BaseKindOf(p)
      case IntKind => if x.IntVal? then IntV(x.i) else Null
      case StringKind => if x.StrVal? then StrV(x.s) else Null
      case BoolKind => if x.BoolVal? then BoolV(x.b) else Null
      case FloatKind => if x.FloatVal? then FloatV(x.f) else Null
      case StructKind(k) => if x.StructVal? then EncodeStruct(structs, k, x.fields) else Null
      case UnknownKind => Null
  }

  /** `ValueToVariant(const QList<T>&)`: one variant per element, in order. */
  function EncodeList(structs: StructTable, q: Param, xs: seq<Value>): seq<Variant>
    decreases ListVal(xs), 0, 0
  {
    seq(|xs|, i requires 0 <= i < |xs| => Encode(structs, q, xs[i]))
  }

  /** `ValueToVariant(const S&)`: the map of the struct's fields. */
  function EncodeStruct(structs: StructTable, k: Key, vs: seq<Value>): Variant
    decreases StructVal(vs), 1, 0
  {
    if k in structs && |structs[k]| == |vs| then Map(EncodeFields(structs, structs[k], vs, |vs|)) else Null
  }

  /** The map after `PutArgToMap` has inserted the first `n` fields; a later
      insertion under the same name replaces an earlier one. */
  function EncodeFields(structs: StructTable, fields: seq<Param>, vs: seq<Value>, n: nat): map<string, Variant>
    requires n <= |fields| && n <= |vs|
    decreases StructVal(vs), 0, n
  {
    if n == 0 then map[]
    else EncodeFields(structs, fields, vs, n - 1)[fields[n - 1].name := Encode(structs, fields[n - 1], vs[n - 1])]
  }

  // ---------------------------------------------------------------------
  // Decoding (VariantToValue, GetArgFromMap)

  /** The value `VariantToValue` recovers for descriptor `p`, or `None` when
      it returns false. */
  function Decode(structs: StructTable, p: Param, v: Variant): Option<Value>
    decreases v, Peel(p), 2, 0
  {
    if !p.mandatory then
      if v.Null? then Some(OptVal(None))
      else
        match Decode(structs, p.(mandatory := true), v)
        case Some(y) => Some(OptVal(Some(y)))
        case None => None
    else if p.isArray then
      match v
      case List(items) =>
        (match DecodeList(structs, p.(isArray := false), items, |items|)
         case Some(ys) => Some(ListVal(ys))
         case None => None)
      case _ => None
    else
      match BaseKindOf(p)
      case IntKind => if v.IntV? then Some(IntVal(v.i)) else None
      case StringKind => if v.StrV? then Some(StrVal(v.s)) else None
      case BoolKind => if v.BoolV? then Some(BoolVal(v.b)) else None
      case FloatKind => if v.FloatV? then Some(FloatVal(v.f)) else None
      case StructKind(k) =>
        (match DecodeStruct(structs, k, v)
         case Some(fs) => Some(StructVal(fs))
         case None => None)
      case UnknownKind => None
  }

  /** The list `VariantToValue`: the first `n` elements, or `None` if one
      of them does not decode. */
  function DecodeList(structs: StructTable, q: Param, items: seq<Variant>, n: nat): Option<seq<Value>>
    requires n <= |items|
    decreases List(items), 0, 0, n
  {
    if n == 0 then Some([])
    else
      match DecodeList(structs, q, items, n - 1)
      case None => None
      case Some(ys) =>
        match Decode(structs, q, items[n - 1])
        case None => None
        case Some(y) => Some(ys + [y])
  }

  /** The struct `VariantToValue`: a map, every field of which decodes. */
  function DecodeStruct(structs: StructTable, k: Key, v: Variant): Option<seq<Value>>
    decreases v, 0, 1, 0
  {
    if k in structs && v.Map? then DecodeFields(structs, structs[k], v.entries, |structs[k]|) else None
  }

  /** `GetArgFromMap(map, name, v)` for one field: the key must be present
      and its variant must decode. */
  function DecodeEntry(structs: StructTable, f: Param, m: map<string, Variant>): Option<Value>
    decreases Map(m), 0, 0, 0
  {
    if f.name in m then Decode(structs, f, m[f.name]) else None
  }

  /** The first `n` fields taken out of `m` in declaration order. */
  function DecodeFields(structs: StructTable, fields: seq<Param>, m: map<string, Variant>, n: nat): Option<seq<Value>>
    requires n <= |fields|
    decreases Map(m), 0, 0, n
  {
    if n == 0 then Some([])
    else
      match DecodeFields(structs, fields, m, n - 1)
      case None => None
      case Some(ys) =>
        match DecodeEntry(structs, fields[n - 1], m)
        case None => None
        case Some(y) => Some(ys + [y])
  }

  // ---------------------------------------------------------------------
  // Properties of the codec

  /** `ValueToVariant` puts exactly the field names into the map. */
  lemma {:induction false} EncodeFieldsKeys(structs: StructTable, fields: seq<Param>, vs: seq<Value>, n: nat)
    requires n <= |fields| && n <= |vs|
    ensures EncodeFields(structs, fields, vs, n).Keys == FieldNames(fields[..n])
  {
    if n > 0 {
      EncodeFieldsKeys(structs, fields, vs, n - 1);
      assert fields[..n] == fields[..n - 1] + [fields[n - 1]];
      assert FieldNames(fields[..n]) == FieldNames(fields[..n - 1]) + {fields[n - 1].name};
    }
  }

  /** With distinct field names, each field sits in the map under its own
      name, holding its own encoding. */
  lemma {:induction false} EncodeFieldsLookup(structs: StructTable, fields: seq<Param>, vs: seq<Value>, n: nat, i: nat)
    requires n <= |fields| && n <= |vs| && i < n
    requires DistinctNames(fields)
    ensures fields[i].name in EncodeFields(structs, fields, vs, n)
    ensures EncodeFields(structs, fields, vs, n)[fields[i].name] == Encode(structs, fields[i], vs[i])
  {
    if i < n - 1 {
      EncodeFieldsLookup(structs, fields, vs, n - 1, i);
    }
  }

  /** A struct decodes exactly when each of its first `n` fields does, and
      then field `i` of the result is what field `i` decodes to. */
  lemma {:induction false} DecodeFieldsAll(structs: StructTable, fields: seq<Param>, m: map<string, Variant>, n: nat)
    requires n <= |fields|
    ensures DecodeFields(structs, fields, m, n).Some? <==>
      forall i :: 0 <= i < n ==> DecodeEntry(structs, fields[i], m).Some?
    ensures DecodeFields(structs, fields, m, n).Some? ==>
      |DecodeFields(structs, fields, m, n).value| == n &&
      forall i :: 0 <= i < n ==> DecodeFields(structs, fields, m, n).value[i] == DecodeEntry(structs, fields[i], m).value
  {
    if n > 0 {
      DecodeFieldsAll(structs, fields, m, n - 1);
    }
  }

  /** A well-typed value of a mandatory descriptor never travels as `Null`,
      which is what lets an absent optional be told apart. */
  lemma EncodeNotNull(structs: StructTable, p: Param, x: Value)
    requires p.mandatory && HasType(structs, p, x)
    ensures !Encode(structs, p, x).Null?
  {
  }

  /** Decoding the encoding of a well-typed value gives the value back,
      when every struct's field names are distinct. */
  lemma {:induction false} RoundTrip(structs: StructTable, p: Param, x: Value)
    requires DistinctFieldNames(structs) && HasType(structs, p, x)
    ensures Decode(structs, p, Encode(structs, p, x)) == Some(x)
    decreases x, 2, 0
  {
    if !p.mandatory {
      if x.opt.Some? {
        var q := p.(mandatory := true);
        EncodeNotNull(structs, q, x.opt.value);
        RoundTrip(structs, q, x.opt.value);
      }
    } else if p.isArray {
      var q := p.(isArray := false);
      ListRoundTrip(structs, q, x.elems, |x.elems|);
      assert x.elems[..|x.elems|] == x.elems;
    } else if BaseKindOf(p).StructKind? {
      StructRoundTrip(structs, BaseKindOf(p).key, x.fields);
    }
  }

  lemma {:induction false} ListRoundTrip(structs: StructTable, q: Param, xs: seq<Value>, n: nat)
    requires n <= |xs|
    requires DistinctFieldNames(structs)
    requires forall i :: 0 <= i < |xs| ==> HasType(structs, q, xs[i])
    ensures DecodeList(structs, q, EncodeList(structs, q, xs), n) == Some(xs[..n])
    decreases ListVal(xs), 0, n
  {
    if n > 0 {
      ListRoundTrip(structs, q, xs, n - 1);
      RoundTrip(structs, q, xs[n - 1]);
      assert xs[..n] == xs[..n - 1] + [xs[n - 1]];
    }
  }

  lemma {:induction false} StructRoundTrip(structs: StructTable, k: Key, vs: seq<Value>)
    requires DistinctFieldNames(structs) && k in structs
    requires FieldsHaveTypes(structs, structs[k], vs)
    ensures DecodeStruct(structs, k, EncodeStruct(structs, k, vs)) == Some(vs)
    decreases StructVal(vs), 1, 0
  {
    FieldsRoundTrip(structs, structs[k], vs, |vs|);
    assert vs[..|vs|] == vs;
  }

  lemma {:induction false} FieldsRoundTrip(structs: StructTable, fields: seq<Param>, vs: seq<Value>, n: nat)
    requires n <= |fields|
    requires DistinctFieldNames(structs) && DistinctNames(fields)
    requires FieldsHaveTypes(structs, fields, vs)
    ensures DecodeFields(structs, fields, EncodeFields(structs, fields, vs, |vs|), n) == Some(vs[..n])
    decreases StructVal(vs), 0, n
  {
    if n > 0 {
      FieldsRoundTrip(structs, fields, vs, n - 1);
      EncodeFieldsLookup(structs, fields, vs, |vs|, n - 1);
      RoundTrip(structs, fields[n - 1], vs[n - 1]);
      assert vs[..n] == vs[..n - 1] + [vs[n - 1]];
    }
  }

  /** Two fields under one name: the second insertion replaces the first,
      so the first field comes back with the second one's content. */
  lemma DuplicateNameLosesField()
    ensures var f := Param("a", "Integer", true, false, false, false, ("", ""));
            var st: StructTable := map[("I", "S") := [f, f]];
            DecodeStruct(st, ("I", "S"), EncodeStruct(st, ("I", "S"), [IntVal(1), IntVal(2)]))
              == Some([IntVal(2), IntVal(2)])
  {
    var f := Param("a", "Integer", true, false, false, false, ("", ""));
    var fs := [f, f];
    var st: StructTable := map[("I", "S") := fs];
    var m := map["a" := IntV(2)];
    assert EncodeStruct(st, ("I", "S"), [IntVal(1), IntVal(2)]) == Map(m);
    assert DecodeEntry(st, f, m) == Some(IntVal(2));
    assert fs[0] == f && fs[1] == f;
    var one := [IntVal(2)];
    assert DecodeFields(st, fs, m, 1) == Some([] + one);
    assert [] + one == one;
    DecodeFieldsAll(st, fs, m, 2);
    assert DecodeFields(st, fs, m, 2).value == one + [IntVal(2)];
    assert one + [IntVal(2)] == [IntVal(2), IntVal(2)];
    assert DecodeStruct(st, ("I", "S"), Map(m)) == DecodeFields(st, fs, m, 2);
  }

  /** A map that lacks one field of the struct does not decode: a `Coord`
      with fields `x` and `y` is not recovered from `{x: 1}`. */
  lemma MissingFieldFails()
    ensures var fx := Param("x", "Integer", true, false, false, false, ("", ""));
            var fy := Param("y", "Integer", true, false, false, false, ("", ""));
            var st: StructTable := map[("Common", "Coord") := [fx, fy]];
            DecodeStruct(st, ("Common", "Coord"), Map(map["x" := IntV(1)])).None?
  {
    var fx := Param("x", "Integer", true, false, false, false, ("", ""));
    var fy := Param("y", "Integer", true, false, false, false, ("", ""));
    assert DecodeEntry(map[], fy, map["x" := IntV(1)]).None?;
  }

  // ---------------------------------------------------------------------
  // The emitted per-struct functions, step by step

  /** The field loop of the emitted `ValueToVariant(const S&)`: one
      `PutArgToMap(map, "name", v.name)` per field, in declaration order. */
  method PutFields(structs: StructTable, fields: seq<Param>, vs: seq<Value>) returns (m: map<string, Variant>)
    requires |vs| == |fields|
    ensures m == EncodeFields(structs, fields, vs, |vs|)
    ensures m.Keys == FieldNames(fields)
  {
    m := map[];
    var i := 0;
    while i < |fields|
      invariant 0 <= i <= |fields|
      invariant m == EncodeFields(structs, fields, vs, i)
    {
      m := m[fields[i].name := Encode(structs, fields[i], vs[i])];
      i := i + 1;
    }
    EncodeFieldsKeys(structs, fields, vs, |vs|);
    assert fields[..|vs|] == fields;
  }

  /** The emitted `ValueToVariant(const S&)`: a map holding every field under
      its own name, when the names are distinct. */
  method StructToVariant(structs: StructTable, k: Key, vs: seq<Value>) returns (r: Variant)
    requires k in structs && |vs| == |structs[k]|
    ensures r == EncodeStruct(structs, k, vs)
    ensures r.Map? && r.entries.Keys == FieldNames(structs[k])
    ensures DistinctNames(structs[k]) ==>
      forall i :: 0 <= i < |vs| ==> r.entries[structs[k][i].name] == Encode(structs, structs[k][i], vs[i])
  {
    var m := PutFields(structs, structs[k], vs);
    r := Map(m);
    if DistinctNames(structs[k]) {
      forall i | 0 <= i < |vs|
        ensures r.entries[structs[k][i].name] == Encode(structs, structs[k][i], vs[i])
      {
        EncodeFieldsLookup(structs, structs[k], vs, |vs|, i);
      }
    }
  }

  /** The emitted `ValueToVariant(const QList<S>&)`: one map per element, in order. */
  method StructListToVariant(structs: StructTable, k: Key, xs: seq<seq<Value>>) returns (r: Variant)
    ensures r.List? && |r.items| == |xs|
    ensures forall i :: 0 <= i < |xs| ==> r.items[i] == EncodeStruct(structs, k, xs[i])
  {
    var ret: seq<Variant> := [];
    var i := 0;
    while i < |xs|
      invariant 0 <= i <= |xs| && |ret| == i
      invariant forall j :: 0 <= j < i ==> ret[j] == EncodeStruct(structs, k, xs[j])
    {
      ret := ret + [EncodeStruct(structs, k, xs[i])];
      i := i + 1;
    }
    r := List(ret);
  }

  /** How a field loop that failed left the struct: fields before `k` hold
      their decoded values, field `k` did not decode, and fields after `k`
      are untouched. Field `k` itself is left unconstrained. */
  predicate StoppedAt(structs: StructTable, fields: seq<Param>, m: map<string, Variant>,
                      before: seq<Value>, after: seq<Value>, k: int)
  {
    0 <= k < |fields| && |before| == |after| == |fields| &&
    DecodeFields(structs, fields, m, k).Some? && DecodeEntry(structs, fields[k], m).None? &&
    after[..k] == DecodeFields(structs, fields, m, k).value && after[k + 1..] == before[k + 1..]
  }

  /** The field loop shared by the emitted `VariantToValue` and
      `GetArgFromMap`: `if (!GetArgFromMap(map, "name", v.name)) return false;`
      per field, in declaration order. */
  method GetFields(structs: StructTable, fields: seq<Param>, m: map<string, Variant>, v: seq<Value>)
    returns (ok: bool, v': seq<Value>)
    requires |v| == |fields|
    ensures |v'| == |v|
    ensures ok <==> DecodeFields(structs, fields, m, |fields|).Some?
    ensures ok ==> v' == DecodeFields(structs, fields, m, |fields|).value
    ensures !ok ==> exists k :: StoppedAt(structs, fields, m, v, v', k)
  {
    v' := v;
    var i := 0;
    while i < |fields|
      invariant 0 <= i <= |fields| && |v'| == |fields|
      invariant DecodeFields(structs, fields, m, i) == Some(v'[..i])
      invariant v'[i..] == v[i..]
    {
      var r := DecodeEntry(structs, fields[i], m);
      if r.None? {
        assert StoppedAt(structs, fields, m, v, v', i);
        DecodeFieldsAll(structs, fields, m, |fields|);
        return false, v';
      }
      assert v'[i := r.value][..i + 1] == v'[..i] + [r.value];
      assert v'[i := r.value][i + 1..] == v'[i + 1..];
      v' := v'[i := r.value];
      i := i + 1;
    }
    assert v'[..i] == v';
    ok := true;
  }

  /** The emitted `VariantToValue(const QVariant&, S&)`: a non-map is
      rejected, then the fields are taken out in order. */
  method VariantToStruct(structs: StructTable, k: Key, variant: Variant, v: seq<Value>)
    returns (ok: bool, v': seq<Value>)
    requires k in structs && |v| == |structs[k]|
    ensures !variant.Map? ==> !ok && v' == v
    ensures ok <==> DecodeStruct(structs, k, variant).Some?
    ensures ok ==> v' == DecodeStruct(structs, k, variant).value
    ensures variant.Map? && !ok ==> exists j :: StoppedAt(structs, structs[k], variant.entries, v, v', j)
  {
    if !variant.Map? {
      return false, v;
    }
    ok, v' := GetFields(structs, structs[k], variant.entries, v);
  }

  /** The emitted struct `GetArgFromMap`: a missing key or a non-map value
      fails, then the fields of the inner map are taken out in order. */
  method GetStructFromMap(structs: StructTable, k: Key, m: map<string, Variant>, name: string, v: seq<Value>)
    returns (ok: bool, v': seq<Value>)
    requires k in structs && |v| == |structs[k]|
    ensures name !in m ==> !ok && v' == v
    ensures name in m && !m[name].Map? ==> !ok && v' == v
    ensures ok <==> name in m && DecodeStruct(structs, k, m[name]).Some?
    ensures ok ==> v' == DecodeStruct(structs, k, m[name]).value
    ensures name in m && m[name].Map? && !ok ==> exists j :: StoppedAt(structs, structs[k], m[name].entries, v, v', j)
  {
    if name !in m {
      return false, v;
    }
    if !m[name].Map? {
      return false, v;
    }
    ok, v' := GetFields(structs, structs[k], m[name].entries, v);
  }

  /** The first `n` elements of a list of struct variants, each decoded. */
  function DecodeStructs(structs: StructTable, k: Key, items: seq<Variant>, n: nat): Option<seq<seq<Value>>>
    requires n <= |items|
  {
    if n == 0 then Some([])
    else
      match DecodeStructs(structs, k, items, n - 1)
      case None => None
      case Some(ys) =>
        match DecodeStruct(structs, k, items[n - 1])
        case None => None
        case Some(y) => Some(ys + [y])
  }

  /** Once an element fails, every longer prefix fails too. */
  lemma {:induction false} DecodeStructsFailStays(structs: StructTable, k: Key, items: seq<Variant>, j: nat, n: nat)
    requires j <= n <= |items|
    requires DecodeStructs(structs, k, items, j).None?
    ensures DecodeStructs(structs, k, items, n).None?
    decreases n
  {
    if j < n {
      DecodeStructsFailStays(structs, k, items, j, n - 1);
    }
  }

  /** The emitted `VariantToValue(const QVariant&, QList<S>&)`: a non-list is
      rejected; the elements are decoded and appended in order, and the first
      that does not decode stops the loop with the earlier appends in place. */
  method VariantToStructList(structs: StructTable, k: Key, variant: Variant, v: seq<seq<Value>>)
    returns (ok: bool, v': seq<seq<Value>>)
    ensures !variant.List? ==> !ok && v' == v
    ensures variant.List? ==> (ok <==> DecodeStructs(structs, k, variant.items, |variant.items|).Some?)
    ensures variant.List? && ok ==> v' == v + DecodeStructs(structs, k, variant.items, |variant.items|).value
    ensures variant.List? && !ok ==>
      exists j :: (0 <= j < |variant.items| &&
                   DecodeStructs(structs, k, variant.items, j).Some? && DecodeStruct(structs, k, variant.items[j]).None? &&
                   v' == v + DecodeStructs(structs, k, variant.items, j).value)
  {
    if !variant.List? {
      return false, v;
    }
    var list := variant.items;
    v' := v;
    var i := 0;
    while i < |list|
      invariant 0 <= i <= |list|
      invariant DecodeStructs(structs, k, list, i).Some?
      invariant v' == v + DecodeStructs(structs, k, list, i).value
    {
      var s := DecodeStruct(structs, k, list[i]);
      if s.None? {
        DecodeStructsFailStays(structs, k, list, i + 1, |list|);
        return false, v';
      }
      v' := v' + [s.value];
      i := i + 1;
    }
    ok := true;
  }
}
