/** The per-struct emitters: `write_struct_declaration`,
    `write_struct_definition`, `write_struct_metatype_declaration`, the
    `make_dbus_type_*` and `make_dbus_metatype_declarations` loops over the
    struct table, and `RegisterDbusMetatypes`. */
module StructEmit {
  import opened Text
  import opened Descriptors
  import opened Resolvers
  import opened Output

  /** The C++ name of a struct: `iface_name`. */
  function StructName(k: Key): string
  {
    k.0 + "_" + k.1
  }

  /** The four ways a struct type is wrapped, in the order the generator
      declares and registers them: plain, `OptionalArgument`, `QList`,
      `OptionalArgument<QList>`. */
  const Wrappings: seq<seq<Modifier>> := [[], [Opt], [Arr], [Opt, Arr]]

  // ---------------------------------------------------------------------
  // write_struct_metatype_declaration, make_dbus_metatype_declarations

  function MetatypeDecls(d: StructDecl): (r: seq<string>)
    ensures |r| == 4
  {
    var s := StructName(d.key);
    ["Q_DECLARE_METATYPE(" + s + ")\n",
     "Q_DECLARE_METATYPE(OptionalArgument<" + s + ">)\n",
     "Q_DECLARE_METATYPE(QList<" + s + ">)\n",
     "Q_DECLARE_METATYPE(OptionalArgument<QList<" + s + "> >)\n\n"]
  }

  method WriteStructMetatypeDeclaration(d: StructDecl, out: Stream)
    modifies out
    ensures out.text == old(out.text) + MetatypeDecls(d)
  {
    var structName := d.key.0 + "_" + d.key.1;
    out.Write("Q_DECLARE_METATYPE(" + structName + ")\n");
    out.Write("Q_DECLARE_METATYPE(OptionalArgument<" + structName + ">)\n");
    out.Write("Q_DECLARE_METATYPE(QList<" + structName + ">)\n");
    out.Write("Q_DECLARE_METATYPE(OptionalArgument<QList<" + structName + "> >)\n\n");
  }

  method MakeDbusMetatypeDeclarations(ds: seq<StructDecl>, out: Stream)
    modifies out
    ensures out.text == old(out.text) + Gather(ds, MetatypeDecls)
  {
    var i := 0;
    while i < |ds|
      invariant 0 <= i <= |ds|
      invariant out.text == old(out.text) + Gather(ds[..i], MetatypeDecls)
    {
      GatherStep(ds, MetatypeDecls, i);
      WriteStructMetatypeDeclaration(ds[i], out);
      i := i + 1;
    }
    GatherAll(ds, MetatypeDecls);
  }

  /** The type a `Q_DECLARE_METATYPE` line names: the wrapped type without
      the trailing space each wrapper adds. */
  function Bare(ms: seq<Modifier>, s: string): string
  {
    var w := WrapType(ms, s);
    if ms == [] || w == [] then w else w[..|w| - 1]
  }

  lemma WrapOpt(s: string)
    ensures WrapType(Wrappings[1], s) == "OptionalArgument<" + s + "> "
  {
    WrapCons(Opt, [], s);
    assert [Opt] == [Opt] + [];
  }

  lemma WrapArr(s: string)
    ensures WrapType(Wrappings[2], s) == "QList<" + s + "> "
  {
    WrapCons(Arr, [], s);
    assert [Arr] == [Arr] + [];
  }

  lemma WrapOptArr(s: string)
    ensures WrapType(Wrappings[3], s) == "OptionalArgument<" + ("QList<" + s + "> ") + "> "
  {
    WrapArr(s);
    WrapCons(Opt, [Arr], s);
    assert [Opt, Arr] == [Opt] + [Arr];
  }

  /** Dropping the space a wrapper ends in. */
  lemma DropSpace(a: string)
    ensures (a + "> ")[..|a + "> "| - 1] == a + ">"
  {
    assert (a + "> ")[..|a + "> "| - 1] == a + ">";
  }

  lemma MetatypeLineOpt(s: string)
    ensures "Q_DECLARE_METATYPE(OptionalArgument<" + s + ">)\n" == "Q_DECLARE_METATYPE(" + Bare(Wrappings[1], s) + ")\n"
  {
    WrapOpt(s);
    DropSpace("OptionalArgument<" + s);
    assert "OptionalArgument<" + s + "> " == ("OptionalArgument<" + s) + "> ";
  }

  lemma MetatypeLineArr(s: string)
    ensures "Q_DECLARE_METATYPE(QList<" + s + ">)\n" == "Q_DECLARE_METATYPE(" + Bare(Wrappings[2], s) + ")\n"
  {
    WrapArr(s);
    DropSpace("QList<" + s);
    assert "QList<" + s + "> " == ("QList<" + s) + "> ";
  }

  lemma MetatypeLineOptArr(s: string)
    ensures "Q_DECLARE_METATYPE(OptionalArgument<QList<" + s + "> >)\n\n" == "Q_DECLARE_METATYPE(" + Bare(Wrappings[3], s) + ")\n" + "\n"
  {
    WrapOptArr(s);
    var inner := "OptionalArgument<" + ("QList<" + s + "> ");
    DropSpace(inner);
    assert Bare(Wrappings[3], s) == inner + ">";
  }

  /** Line `j` of a struct's metatype declarations names the struct under
      wrapping `j`. */
  lemma MetatypeLine(d: StructDecl, j: nat)
    requires j < 4
    ensures MetatypeDecls(d)[j] ==
      "Q_DECLARE_METATYPE(" + Bare(Wrappings[j], StructName(d.key)) + ")\n" + (if j == 3 then "\n" else "")
  {
    var s := StructName(d.key);
    if j == 1 {
      MetatypeLineOpt(s);
    } else if j == 2 {
      MetatypeLineArr(s);
    } else if j == 3 {
      MetatypeLineOptArr(s);
    }
  }

  /** Every struct gets exactly four metatype declarations, one per wrapping,
      in order; struct `i` owns lines `4 * i` to `4 * i + 3`. */
  lemma MetatypeDeclarationsInOrder(ds: seq<StructDecl>, i: nat, j: nat)
    requires i < |ds| && j < 4
    ensures |Gather(ds, MetatypeDecls)| == 4 * |ds|
    ensures Gather(ds, MetatypeDecls)[4 * i + j] ==
      "Q_DECLARE_METATYPE(" + Bare(Wrappings[j], StructName(ds[i].key)) + ")\n" + (if j == 3 then "\n" else "")
  {
    GatherUniformLength(ds, MetatypeDecls, 4);
    GatherUniformAt(ds, MetatypeDecls, 4, i, j);
    MetatypeLine(ds[i], j);
  }

  // ---------------------------------------------------------------------
  // write_struct_declaration, make_dbus_type_declarations

  function MemberLine(p: Param): string
  {
    "  " + QtParamType(p) + " " + p.name + ";\n"
  }

  // The fixed text of the generated C++, named once and shared by the
  // specification functions and the methods that write it.
  const ProtoStreamOut := "QDBusArgument& operator << (QDBusArgument&, const "
  const ProtoStreamIn := "const QDBusArgument& operator >> (const QDBusArgument&, "
  const ProtoPut := "void PutArgToMap(QVariantMap& map, const char* name, const "
  const ProtoToVariant := "QVariant ValueToVariant("
  const ProtoListToVariant := "QVariant ValueToVariant(QList<"
  const ProtoGet := "bool GetArgFromMap(const QVariantMap& map, const char* name, "
  const ProtoFromVariant := "bool VariantToValue(const QVariant& variant, "
  const ProtoListFromVariant := "bool VariantToValue(const QVariant& variant, QList<"

  /** The closing brace of the struct and the prototypes of its streaming
      operators and conversion functions. */
  function StructPrototypes(s: string): (r: seq<string>)
    ensures |r| == 9
  {
    ["};\n",
     ProtoStreamOut + s + "&);\n",
     ProtoStreamIn + s + "&);\n",
     ProtoPut + s + "& v);\n",
     ProtoToVariant + s + "& v);\n",
     ProtoListToVariant + s + " >& v);\n",
     ProtoGet + s + "& v);\n",
     ProtoFromVariant + s + "& v);\n",
     ProtoListFromVariant + s + " >& v);\n"]
  }

  /** The struct with one member per field, then its prototypes. */
  function StructDeclaration(d: StructDecl): seq<string>
  {
    var s := StructName(d.key);
    ["struct " + s + " {\n"] + Each(d.fields, MemberLine) + StructPrototypes(s)
  }

  method WritePrototypes(structName: string, out: Stream)
    modifies out
    ensures out.text == old(out.text) + StructPrototypes(structName)
  {
    out.Write("};\n");
    out.Write(ProtoStreamOut + structName + "&);\n");
    out.Write(ProtoStreamIn + structName + "&);\n");
    out.Write(ProtoPut + structName + "& v);\n");
    out.Write(ProtoToVariant + structName + "& v);\n");
    out.Write(ProtoListToVariant + structName + " >& v);\n");
    out.Write(ProtoGet + structName + "& v);\n");
    out.Write(ProtoFromVariant + structName + "& v);\n");
    out.Write(ProtoListFromVariant + structName + " >& v);\n");
  }

  method WriteStructDeclaration(d: StructDecl, out: Stream)
    modifies out
    ensures out.text == old(out.text) + StructDeclaration(d)
  {
    ghost var t0 := out.text;
    var structName := d.key.0 + "_" + d.key.1;
    out.Write("struct " + structName + " {\n");
    WriteEach(d.fields, MemberLine, out);
    WritePrototypes(structName, out);
    AppendAssoc3(t0, ["struct " + structName + " {\n"], Each(d.fields, MemberLine), StructPrototypes(structName));
  }

  /** Each struct member is declared with the type the resolver gives it. */
  lemma StructMembersTyped(d: StructDecl, i: nat)
    requires i < |d.fields|
    ensures StructDeclaration(d)[1 + i] == "  " + WrapType(Modifiers(d.fields[i]), BaseQtType(d.fields[i])) + " " + d.fields[i].name + ";\n"
  {
    QtParamTypeWraps(d.fields[i]);
    assert Each(d.fields, MemberLine)[i] == MemberLine(d.fields[i]);
    assert StructDeclaration(d)[1 + i] == Each(d.fields, MemberLine)[i];
  }

  /** The declaration is the struct line, one member per field and the nine
      closing lines; the last prototype is the list `VariantToValue`. */
  lemma StructDeclarationShape(d: StructDecl)
    ensures var r := StructDeclaration(d); var s := StructName(d.key);
            |r| == |d.fields| + 10 &&
            r[0] == "struct " + s + " {\n" &&
            r[|d.fields| + 1] == "};\n" &&
            r[|d.fields| + 9] == ProtoListFromVariant + s + " >& v);\n"
  {
    var s := StructName(d.key);
    var h, m := ["struct " + s + " {\n"], Each(d.fields, MemberLine);
    assert StructDeclaration(d)[|d.fields| + 1] == StructPrototypes(s)[0];
    assert StructDeclaration(d)[|d.fields| + 9] == StructPrototypes(s)[8];
  }

  method MakeDbusTypeDeclarations(ds: seq<StructDecl>, out: Stream)
    modifies out
    ensures out.text == old(out.text) + Gather(ds, StructDeclaration)
  {
    var i := 0;
    while i < |ds|
      invariant 0 <= i <= |ds|
      invariant out.text == old(out.text) + Gather(ds[..i], StructDeclaration)
    {
      GatherStep(ds, StructDeclaration, i);
      WriteStructDeclaration(ds[i], out);
      i := i + 1;
    }
    GatherAll(ds, StructDeclaration);
  }

  // ---------------------------------------------------------------------
  // write_struct_definition, make_dbus_type_definitions

  function StreamOutLine(p: Param): string { "  arg << v." + p.name + ";\n" }
  function StreamInLine(p: Param): string { "  arg >> v." + p.name + ";\n" }
  function PutLine(p: Param): string { "  PutArgToMap(map, \"" + p.name + "\", v." + p.name + ");\n" }
  function GetLine(p: Param): string { "  if (!GetArgFromMap(map, \"" + p.name + "\", v." + p.name + ")) return false;\n" }
  function GetInnerLine(p: Param): string { "  if (!GetArgFromMap(inmap, \"" + p.name + "\", v." + p.name + ")) return false;\n" }

  const OperatorOut := "QDBusArgument& operator << (QDBusArgument& arg, const "
  const OperatorIn := "const QDBusArgument& operator >> (const QDBusArgument& arg, "
  const BeginStructure := "  arg.beginStructure();\n"
  const EndStructure: seq<string> := ["  arg.endStructure();\n", "  return arg;\n", "}\n"]
  const ToVariant := "QVariant ValueToVariant(const "
  const ReturnMap: seq<string> := ["  return QVariant::fromValue(map);\n", "}\n"]
  const ListToVariant := "QVariant ValueToVariant(const QList<"
  const ListLoopAppend := ">::const_iterator i = v.begin(); i != v.end(); ++i) ret.append(ValueToVariant(*i));\n"
  const ReturnList: seq<string> := ["  return QVariant::fromValue(ret);\n", "}\n"]
  const PutDefinition := "void PutArgToMap(QVariantMap& map, const char* name, const "
  const PutBody: seq<string> := ["  map.insert(name, ValueToVariant(v));\n", "}\n"]
  const FromVariant := "bool VariantToValue(const QVariant& variant, "
  const MapCheck: seq<string> := ["  if (variant.type() != QVariant::Map) return false;\n", "  QVariantMap map = variant.toMap();\n"]
  const ReturnTrue: seq<string> := ["  return true;\n", "}\n"]
  const ListFromVariant := "bool VariantToValue(const QVariant& variant, QList<"
  const ListCheck: seq<string> :=
    ["  if (variant.type() != QVariant::List) return false;\n",
     "  QList<QVariant> list = variant.toList();\n",
     "  for (QList<QVariant>::const_iterator i = list.begin(); i != list.end(); ++i) {\n"]
  const ListElementTail: seq<string> :=
    ["    if (!VariantToValue(*i, s)) return false;\n", "    v.append(s);\n", "  }\n", "  return true;\n", "}\n"]
  const GetDefinition := "bool GetArgFromMap(const QVariantMap& map, const char* name, "
  const FindInner: seq<string> :=
    ["  QVariantMap::const_iterator it = map.find(name);\n",
     "  if (map.end() == it) return false;\n",
     "  if (it->type() != QVariant::Map) return false;\n",
     "  const QVariantMap& inmap = it->toMap();\n"]
  const GetTail: seq<string> := ["  return true;\n", "}\n", "\n"]

  /** `operator <<`: one `arg <<` line per field, in order. */
  function StreamOut(s: string, ps: seq<Param>): seq<string>
  {
    [OperatorOut + s + "& v) {\n", BeginStructure] + Each(ps, StreamOutLine) + EndStructure
  }

  /** `operator >>`: one `arg >>` line per field, in order. */
  function StreamIn(s: string, ps: seq<Param>): seq<string>
  {
    [OperatorIn + s + "& v) {\n", BeginStructure] + Each(ps, StreamInLine) + EndStructure
  }

  /** `ValueToVariant` of the struct: one `PutArgToMap` line per field. */
  function EncodeStruct(s: string, ps: seq<Param>): seq<string>
  {
    [ToVariant + s + "& v) {\n", "  QVariantMap map;\n"] + Each(ps, PutLine) + ReturnMap
  }

  /** `ValueToVariant` of a list of the struct, and `PutArgToMap`. */
  function EncodeList(s: string): seq<string>
  {
    [ListToVariant + s + ">& v) {\n", "  QList<QVariant> ret;\n", "  for (QList<" + s + ListLoopAppend] +
    ReturnList + [PutDefinition + s + "& v) {\n"] + PutBody
  }

  /** `VariantToValue` of the struct: one early-return `GetArgFromMap` line per field. */
  function DecodeStruct(s: string, ps: seq<Param>): seq<string>
  {
    [FromVariant + s + "& v) {\n"] + MapCheck + Each(ps, GetLine) + ReturnTrue
  }

  /** `VariantToValue` of a list of the struct. */
  function DecodeList(s: string): seq<string>
  {
    [ListFromVariant + s + ">& v) {\n"] + ListCheck + ["    " + s + " s;\n"] + ListElementTail
  }

  /** `GetArgFromMap` of the struct: one early-return line per field of the inner map. */
  function DecodeGet(s: string, ps: seq<Param>): seq<string>
  {
    [GetDefinition + s + "& v) {\n"] + FindInner + Each(ps, GetInnerLine) + GetTail
  }

  function StreamingOperators(s: string, ps: seq<Param>): seq<string>
  {
    StreamOut(s, ps) + StreamIn(s, ps)
  }

  function Encoders(s: string, ps: seq<Param>): seq<string>
  {
    EncodeStruct(s, ps) + EncodeList(s)
  }

  function Decoders(s: string, ps: seq<Param>): seq<string>
  {
    DecodeStruct(s, ps) + DecodeList(s) + DecodeGet(s, ps)
  }

  function StructDefinition(d: StructDecl): seq<string>
  {
    var s := StructName(d.key);
    StreamingOperators(s, d.fields) + Encoders(s, d.fields) + Decoders(s, d.fields)
  }

  /** Writes a block head, one line per parameter and a fixed tail. */
  method WriteBlock(head: seq<string>, params: seq<Param>, line: Param -> string, tail: seq<string>, out: Stream)
    modifies out
    ensures out.text == old(out.text) + (head + Each(params, line) + tail)
  {
    ghost var t0 := out.text;
    out.WriteLines(head);
    WriteEach(params, line, out);
    out.WriteLines(tail);
    AppendAssoc3(t0, head, Each(params, line), tail);
  }

  method WriteStreamingOperators(structName: string, params: seq<Param>, out: Stream)
    modifies out
    ensures out.text == old(out.text) + StreamingOperators(structName, params)
  {
    ghost var t0 := out.text;
    WriteBlock([OperatorOut + structName + "& v) {\n", BeginStructure], params, StreamOutLine, EndStructure, out);
    WriteBlock([OperatorIn + structName + "& v) {\n", BeginStructure], params, StreamInLine, EndStructure, out);
    AppendAssoc(t0, StreamOut(structName, params), StreamIn(structName, params));
  }

  method WriteEncodeList(structName: string, out: Stream)
    modifies out
    ensures out.text == old(out.text) + EncodeList(structName)
  {
    ghost var t0 := out.text;
    out.WriteLines([ListToVariant + structName + ">& v) {\n", "  QList<QVariant> ret;\n",
                    "  for (QList<" + structName + ListLoopAppend]);
    out.WriteLines(ReturnList);
    out.Write(PutDefinition + structName + "& v) {\n");
    out.WriteLines(PutBody);
    ghost var a := [ListToVariant + structName + ">& v) {\n", "  QList<QVariant> ret;\n",
                    "  for (QList<" + structName + ListLoopAppend];
    AppendAssoc3(t0, a, ReturnList, [PutDefinition + structName + "& v) {\n"]);
    AppendAssoc(t0, a + ReturnList + [PutDefinition + structName + "& v) {\n"], PutBody);
  }

  method WriteEncoders(structName: string, params: seq<Param>, out: Stream)
    modifies out
    ensures out.text == old(out.text) + Encoders(structName, params)
  {
    ghost var t0 := out.text;
    WriteBlock([ToVariant + structName + "& v) {\n", "  QVariantMap map;\n"], params, PutLine, ReturnMap, out);
    WriteEncodeList(structName, out);
    AppendAssoc(t0, EncodeStruct(structName, params), EncodeList(structName));
  }

  method WriteDecodeList(structName: string, out: Stream)
    modifies out
    ensures out.text == old(out.text) + DecodeList(structName)
  {
    ghost var t0 := out.text;
    out.Write(ListFromVariant + structName + ">& v) {\n");
    out.WriteLines(ListCheck);
    out.Write("    " + structName + " s;\n");
    out.WriteLines(ListElementTail);
    AppendAssoc3(t0, [ListFromVariant + structName + ">& v) {\n"], ListCheck, ["    " + structName + " s;\n"]);
    AppendAssoc(t0, [ListFromVariant + structName + ">& v) {\n"] + ListCheck + ["    " + structName + " s;\n"], ListElementTail);
  }

  method WriteDecoders(structName: string, params: seq<Param>, out: Stream)
    modifies out
    ensures out.text == old(out.text) + Decoders(structName, params)
  {
    ghost var t0 := out.text;
    WriteBlock([FromVariant + structName + "& v) {\n"] + MapCheck, params, GetLine, ReturnTrue, out);
    WriteDecodeList(structName, out);
    WriteBlock([GetDefinition + structName + "& v) {\n"] + FindInner, params, GetInnerLine, GetTail, out);
    AppendAssoc3(t0, DecodeStruct(structName, params), DecodeList(structName), DecodeGet(structName, params));
  }

  method WriteStructDefinition(d: StructDecl, out: Stream)
    modifies out
    ensures out.text == old(out.text) + StructDefinition(d)
  {
    var structName := d.key.0 + "_" + d.key.1;
    ghost var t0 := out.text;
    WriteStreamingOperators(structName, d.fields, out);
    WriteEncoders(structName, d.fields, out);
    WriteDecoders(structName, d.fields, out);
    AppendAssoc3(t0, StreamingOperators(structName, d.fields), Encoders(structName, d.fields), Decoders(structName, d.fields));
  }

  /** A struct's definition has a fixed 45 lines plus five per field: one in
      each of the two streaming operators, in `ValueToVariant`, in
      `VariantToValue` and in `GetArgFromMap`. */
  lemma StructDefinitionLength(d: StructDecl)
    ensures |StructDefinition(d)| == 45 + 5 * |d.fields|
  {
  }

  /** Writes the definitions of the next struct after those of the first `i`. */
  method WriteNextDefinition(ds: seq<StructDecl>, i: nat, ghost t0: seq<string>, out: Stream)
    requires i < |ds| && out.text == t0 + Gather(ds[..i], StructDefinition)
    modifies out
    ensures out.text == t0 + Gather(ds[..i + 1], StructDefinition)
  {
    GatherAppend(t0, ds, StructDefinition, i);
    WriteStructDefinition(ds[i], out);
  }

  method MakeDbusTypeDefinitions(ds: seq<StructDecl>, out: Stream)
    modifies out
    ensures out.text == old(out.text) + Gather(ds, StructDefinition)
  {
    ghost var t0 := out.text;
    for i := 0 to |ds|
      invariant out.text == t0 + Gather(ds[..i], StructDefinition)
    {
      WriteNextDefinition(ds, i, t0, out);
    }
    GatherAll(ds, StructDefinition);
  }

  // ---------------------------------------------------------------------
  // RegisterDbusMetatypes

  function Registrations(d: StructDecl): (r: seq<string>)
    ensures |r| == 4
  {
    var s := StructName(d.key);
    ["qDBusRegisterMetaType<" + s + ">();\n",
     "qDBusRegisterMetaType<OptionalArgument<" + s + "> >();\n",
     "qDBusRegisterMetaType<QList<" + s + "> >();\n",
     "qDBusRegisterMetaType<OptionalArgument<QList<" + s + "> > >();\n"]
  }

  function RegisterMetatypesDefinition(ds: seq<StructDecl>): seq<string>
  {
    ["void RegisterDbusMetatypes() {\n"] + Gather(ds, Registrations) + ["}\n"]
  }

  /** Registers the struct types in the order of `ds`, the same list the
      declaration, metatype and definition emitters walk. */
  method MakeDbusRegisterMetatypesDefinition(ds: seq<StructDecl>, out: Stream)
    modifies out
    ensures out.text == old(out.text) + RegisterMetatypesDefinition(ds)
  {
    out.Write("void RegisterDbusMetatypes() {\n");
    ghost var t0 := out.text;
    var i := 0;
    while i < |ds|
      invariant 0 <= i <= |ds|
      invariant out.text == t0 + Gather(ds[..i], Registrations)
    {
      GatherStep(ds, Registrations, i);
      var structName := ds[i].key.0 + "_" + ds[i].key.1;
      out.Write("qDBusRegisterMetaType<" + structName + ">();\n");
      out.Write("qDBusRegisterMetaType<OptionalArgument<" + structName + "> >();\n");
      out.Write("qDBusRegisterMetaType<QList<" + structName + "> >();\n");
      out.Write("qDBusRegisterMetaType<OptionalArgument<QList<" + structName + "> > >();\n");
      i := i + 1;
    }
    GatherAll(ds, Registrations);
    out.Write("}\n");
  }

  method MakeDbusRegisterMetatypesDeclaration(out: Stream)
    modifies out
    ensures out.text == old(out.text) + ["void RegisterDbusMetatypes();\n"]
  {
    out.Write("void RegisterDbusMetatypes();\n");
  }

  lemma RegistrationLineOpt(s: string)
    ensures "qDBusRegisterMetaType<OptionalArgument<" + s + "> >();\n" ==
            "qDBusRegisterMetaType<" + WrapType(Wrappings[1], s) + ">();\n"
  {
    WrapOpt(s);
  }

  lemma RegistrationLineArr(s: string)
    ensures "qDBusRegisterMetaType<QList<" + s + "> >();\n" ==
            "qDBusRegisterMetaType<" + WrapType(Wrappings[2], s) + ">();\n"
  {
    WrapArr(s);
  }

  lemma RegistrationLineOptArr(s: string)
    ensures "qDBusRegisterMetaType<OptionalArgument<QList<" + s + "> > >();\n" ==
            "qDBusRegisterMetaType<" + WrapType(Wrappings[3], s) + ">();\n"
  {
    WrapOptArr(s);
  }

  /** Line `j` of a struct's registrations registers the struct under
      wrapping `j`, spelled as the resolver spells it. */
  lemma RegistrationLine(d: StructDecl, j: nat)
    requires j < 4
    ensures Registrations(d)[j] == "qDBusRegisterMetaType<" + WrapType(Wrappings[j], StructName(d.key)) + ">();\n"
  {
    var s := StructName(d.key);
    if j == 1 {
      RegistrationLineOpt(s);
    } else if j == 2 {
      RegistrationLineArr(s);
    } else if j == 3 {
      RegistrationLineOptArr(s);
    }
  }

  /** `RegisterDbusMetatypes` registers exactly four types per struct, in
      the order plain, `OptionalArgument`, `QList`, `OptionalArgument<QList>`:
      line `1 + 4 * i + j` registers struct `i` under wrapping `j`. */
  lemma RegistrationsInOrder(ds: seq<StructDecl>, i: nat, j: nat)
    requires i < |ds| && j < 4
    ensures |RegisterMetatypesDefinition(ds)| == 2 + 4 * |ds|
    ensures RegisterMetatypesDefinition(ds)[1 + 4 * i + j] ==
      "qDBusRegisterMetaType<" + WrapType(Wrappings[j], StructName(ds[i].key)) + ">();\n"
  {
    GatherUniformLength(ds, Registrations, 4);
    GatherUniformAt(ds, Registrations, 4, i, j);
    RegistrationLine(ds[i], j);
  }

  /** A wrapped type is its `Q_DECLARE_METATYPE` spelling plus the space
      every wrapper ends in. */
  lemma WrapIsBareSpaced(j: nat, s: string)
    requires j < 4
    ensures WrapType(Wrappings[j], s) == Bare(Wrappings[j], s) + (if j == 0 then "" else " ")
  {
    var w := WrapType(Wrappings[j], s);
    if j == 1 {
      WrapOpt(s);
    } else if j == 2 {
      WrapArr(s);
    } else if j == 3 {
      WrapOptArr(s);
    }
    if j > 0 {
      assert w[|w| - 1] == ' ';
      assert w == w[..|w| - 1] + [w[|w| - 1]];
    }
  }

  /** Struct `i`'s metatype declaration `j` and its registration `j` name
      the same C++ type; the registration only keeps the wrapper's space. */
  lemma MetatypeMatchesRegistration(ds: seq<StructDecl>, i: nat, j: nat)
    requires i < |ds| && j < 4
    ensures 4 * i + j < |Gather(ds, MetatypeDecls)| && 1 + 4 * i + j < |RegisterMetatypesDefinition(ds)|
    ensures var t := Bare(Wrappings[j], StructName(ds[i].key));
            Gather(ds, MetatypeDecls)[4 * i + j] == "Q_DECLARE_METATYPE(" + t + ")\n" + (if j == 3 then "\n" else "") &&
            RegisterMetatypesDefinition(ds)[1 + 4 * i + j] == "qDBusRegisterMetaType<" + (t + (if j == 0 then "" else " ")) + ">();\n"
  {
    MetatypeDeclarationsInOrder(ds, i, j);
    RegistrationsInOrder(ds, i, j);
    WrapIsBareSpaced(j, StructName(ds[i].key));
  }

  /** When `ds` lists the table, every struct of the table is declared as a
      metatype and registered under each of the four wrappings. */
  lemma TableStructsRegistered(structs: StructTable, ds: seq<StructDecl>, k: Key, j: nat)
    requires ListsTable(structs, ds) && k in structs && j < 4
    ensures "Q_DECLARE_METATYPE(" + Bare(Wrappings[j], StructName(k)) + ")\n" + (if j == 3 then "\n" else "")
            in Gather(ds, MetatypeDecls)
    ensures "qDBusRegisterMetaType<" + WrapType(Wrappings[j], StructName(k)) + ">();\n" in RegisterMetatypesDefinition(ds)
  {
    var i :| 0 <= i < |ds| && ds[i].key == k;
    MetatypeDeclarationsInOrder(ds, i, j);
    RegistrationsInOrder(ds, i, j);
  }

  /** Every C++ type the resolver gives a parameter whose core is a struct
      of the table is among the registered types, when `ds` lists the table. */
  lemma StructParamTypeRegistered(structs: StructTable, ds: seq<StructDecl>, p: Param)
    requires ListsTable(structs, ds)
    requires BaseKindOf(p).StructKind? && BaseKindOf(p).key in structs
    ensures "qDBusRegisterMetaType<" + QtParamType(p) + ">();\n" in RegisterMetatypesDefinition(ds)
  {
    var i :| 0 <= i < |ds| && ds[i].key == BaseKindOf(p).key;
    QtParamTypeWraps(p);
    var j := (if p.mandatory then 0 else 1) + (if p.isArray then 2 else 0);
    assert Wrappings[j] == Modifiers(p);
    RegistrationsInOrder(ds, i, j);
  }
}
