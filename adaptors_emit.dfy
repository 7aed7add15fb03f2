/** The adaptor emitters: `write_adaptor_declaration`,
    `write_adaptor_definition` and the `make_dbus_adaptor_*` loops over the
    interfaces, which skip an interface that has neither notifications nor
    request/response pairs. */
module AdaptorEmit {
  import opened Wrappers
  import opened Text
  import opened Descriptors
  import opened Resolvers
  import opened Signatures
  import opened Slot
  import opened Bridge
  import opened Output

  // ---------------------------------------------------------------------
  // Skipping empty interfaces

  /** The interfaces that get an adaptor, in document order. */
  function NonEmpty(ifaces: seq<Interface>): seq<Interface>
  {
    if ifaces == [] then []
    else
      var init := NonEmpty(ifaces[..|ifaces| - 1]);
      var last := ifaces[|ifaces| - 1];
      if IsEmptyInterface(last) then init else init + [last]
  }

  lemma NonEmptyStep(ifaces: seq<Interface>, i: nat)
    requires i < |ifaces|
    ensures NonEmpty(ifaces[..i + 1]) ==
            NonEmpty(ifaces[..i]) + (if IsEmptyInterface(ifaces[i]) then [] else [ifaces[i]])
  {
    assert ifaces[..i + 1][..i] == ifaces[..i];
  }

  /** An interface gets an adaptor exactly when it is listed and not empty. */
  lemma {:induction false} NonEmptyMembers(ifaces: seq<Interface>)
    ensures forall x :: x in NonEmpty(ifaces) <==> x in ifaces && !IsEmptyInterface(x)
  {
    if ifaces != [] {
      var init := ifaces[..|ifaces| - 1];
      NonEmptyMembers(init);
      assert ifaces == init + [ifaces[|ifaces| - 1]];
    }
  }

  /** The filter distributes over concatenation, so it keeps document order. */
  lemma {:induction false} NonEmptyAppend(a: seq<Interface>, b: seq<Interface>)
    ensures NonEmpty(a + b) == NonEmpty(a) + NonEmpty(b)
    decreases |b|
  {
    if b == [] {
      assert a + b == a;
    } else {
      var b' := b[..|b| - 1];
      assert (a + b)[..|a + b| - 1] == a + b';
      NonEmptyAppend(a, b');
    }
  }

  /** An empty interface anywhere in the document changes nothing. */
  lemma NonEmptySkips(a: seq<Interface>, e: Interface, b: seq<Interface>)
    requires IsEmptyInterface(e)
    ensures NonEmpty(a + [e] + b) == NonEmpty(a + b)
  {
    NonEmptyAppend(a + [e], b);
    NonEmptyAppend(a, [e]);
    NonEmptyAppend(a, b);
    assert [e][..0] == [];
  }

  lemma {:induction false} NonEmptyIdempotent(ifaces: seq<Interface>)
    ensures NonEmpty(NonEmpty(ifaces)) == NonEmpty(ifaces)
  {
    if ifaces != [] {
      var init, last := ifaces[..|ifaces| - 1], ifaces[|ifaces| - 1];
      NonEmptyIdempotent(init);
      if !IsEmptyInterface(last) {
        NonEmptyAppend(NonEmpty(init), [last]);
        assert [last][..0] == [];
      }
    }
  }

  // ---------------------------------------------------------------------
  // write_adaptor_declaration

  function DeclarationHead(i: Interface, path: string): seq<string>
  {
    ["class " + i.name + "Adaptor : public QDBusAbstractAdaptor {\n",
     "  Q_OBJECT\n",
     "  Q_CLASSINFO(\"D-Bus Interface\", \"" + path + "." + i.name + "\")\n",
     "  Q_CLASSINFO(\"D-Bus Introspection\",\n"]
  }

  /** One glued chunk of the introspection XML as a C++ string literal. */
  function IntrospectionLine(c: string): string
  {
    "\"" + EscapeQuotes(c) + "\"" + "\n"
  }

  /** The public slot a request/response pair is served by. */
  function MethodDecl(iface: string): Method -> string
  {
    (m: Method) => "  " + MethodSignature(m, iface, false) + ";\n"
  }

  /** The D-Bus signal a notification is forwarded as. */
  function SignalDecl(n: Notification): string
  {
    "  " + SignalSignature(n, true) + ";\n"
  }

  /** The private slot the QML signal of a notification is connected to. */
  function QmlSlotDecl(iface: string): Notification -> string
  {
    (n: Notification) => "  " + QmlSignalSignature(n, iface, n.name + "_qml", false, false) + ";\n"
  }

  function DeclarationIntro(i: Interface, chunks: seq<string>): seq<string>
  {
    Each(chunks, IntrospectionLine) +
    ["  )\n", " public:\n", "  explicit " + i.name + "Adaptor(QObject *parent = 0);\n",
     "  void SetApi(QQuickItem*);\n", " public slots:\n"]
  }

  function DeclarationSlots(i: Interface): seq<string>
  {
    Each(i.methods, MethodDecl(i.name)) + [" signals:\n"] +
    Each(i.notifications, SignalDecl) + [" private slots:\n"]
  }

  function DeclarationTail(i: Interface): seq<string>
  {
    Each(i.notifications, QmlSlotDecl(i.name)) + [" private:\n", "  QQuickItem* api_;\n", "};\n\n"]
  }

  function DeclarationBody(i: Interface, chunks: seq<string>): seq<string>
  {
    DeclarationIntro(i, chunks) + DeclarationSlots(i) + DeclarationTail(i)
  }

  /** No introspection piece is empty, so `glue_strings` does not raise. */
  predicate Gluable(xs: seq<string>)
  {
    forall k :: 0 <= k < |xs| ==> xs[k] != ""
  }

  /** What `write_adaptor_declaration` writes, and whether it completes:
      when `glue_strings` raises, the four header lines are all there is. */
  function AdaptorDeclaration(i: Interface, path: string): (seq<string>, bool)
  {
    if Gluable(i.introspection) then (DeclarationHead(i, path) + DeclarationBody(i, Glued(i.introspection).0), true)
    else (DeclarationHead(i, path), false)
  }

  method WriteMethodDecls(iface: string, ms: seq<Method>, out: Stream)
    modifies out
    ensures out.text == old(out.text) + Each(ms, MethodDecl(iface))
  {
    for k := 0 to |ms|
      invariant out.text == old(out.text) + Each(ms[..k], MethodDecl(iface))
    {
      var signature := MakeMethodSignature(ms[k], iface, false);
      EachStep(ms, MethodDecl(iface), k);
      out.Write("  " + signature + ";\n");
    }
    assert ms[..|ms|] == ms;
  }

  method WriteSignalDecls(ns: seq<Notification>, out: Stream)
    modifies out
    ensures out.text == old(out.text) + Each(ns, SignalDecl)
  {
    for k := 0 to |ns|
      invariant out.text == old(out.text) + Each(ns[..k], SignalDecl)
    {
      var signature := MakeSignalSignature(ns[k], true);
      EachStep(ns, SignalDecl, k);
      out.Write("  " + signature + ";\n");
    }
    assert ns[..|ns|] == ns;
  }

  method WriteQmlSlotDecls(iface: string, ns: seq<Notification>, out: Stream)
    modifies out
    ensures out.text == old(out.text) + Each(ns, QmlSlotDecl(iface))
  {
    for k := 0 to |ns|
      invariant out.text == old(out.text) + Each(ns[..k], QmlSlotDecl(iface))
    {
      var signature := MakeQmlSignalSignature(ns[k], iface, ns[k].name + "_qml", false, false);
      EachStep(ns, QmlSlotDecl(iface), k);
      out.Write("  " + signature + ";\n");
    }
    assert ns[..|ns|] == ns;
  }

  method WriteDeclarationIntro(i: Interface, chunks: seq<string>, out: Stream)
    modifies out
    ensures out.text == old(out.text) + DeclarationIntro(i, chunks)
  {
    ghost var t0 := out.text;
    WriteEach(chunks, IntrospectionLine, out);
    var lines := ["  )\n", " public:\n", "  explicit " + i.name + "Adaptor(QObject *parent = 0);\n",
                  "  void SetApi(QQuickItem*);\n", " public slots:\n"];
    out.WriteLines(lines);
    AppendAssoc(t0, Each(chunks, IntrospectionLine), lines);
  }

  method WriteDeclarationSlots(i: Interface, out: Stream)
    modifies out
    ensures out.text == old(out.text) + DeclarationSlots(i)
  {
    ghost var t0 := out.text;
    WriteMethodDecls(i.name, i.methods, out);
    out.Write(" signals:\n");
    WriteSignalDecls(i.notifications, out);
    out.Write(" private slots:\n");
    ghost var a, b := Each(i.methods, MethodDecl(i.name)), Each(i.notifications, SignalDecl);
    assert out.text == t0 + a + [" signals:\n"] + b + [" private slots:\n"];
    assert t0 + a + [" signals:\n"] + b + [" private slots:\n"] == t0 + (a + [" signals:\n"] + b + [" private slots:\n"]);
  }

  method WriteDeclarationTail(i: Interface, out: Stream)
    modifies out
    ensures out.text == old(out.text) + DeclarationTail(i)
  {
    ghost var t0 := out.text;
    WriteQmlSlotDecls(i.name, i.notifications, out);
    var lines := [" private:\n", "  QQuickItem* api_;\n", "};\n\n"];
    out.WriteLines(lines);
    AppendAssoc(t0, Each(i.notifications, QmlSlotDecl(i.name)), lines);
  }

  /** `write_adaptor_declaration`; `ok` is false when `glue_strings` raised. */
  method WriteAdaptorDeclaration(i: Interface, path: string, out: Stream) returns (ok: bool)
    modifies out
    ensures ok == AdaptorDeclaration(i, path).1
    ensures out.text == old(out.text) + AdaptorDeclaration(i, path).0
  {
    ghost var t0 := out.text;
    out.WriteLines(DeclarationHead(i, path));
    var introspection := GlueStrings(i.introspection);
    if introspection.None? {
      return false;
    }
    ghost var t1 := out.text;
    var chunks := introspection.value;
    WriteDeclarationIntro(i, chunks, out);
    WriteDeclarationSlots(i, out);
    WriteDeclarationTail(i, out);
    AppendAssoc3(t1, DeclarationIntro(i, chunks), DeclarationSlots(i), DeclarationTail(i));
    AppendAssoc(t0, DeclarationHead(i, path), DeclarationBody(i, chunks));
    ok := true;
  }

  // ---------------------------------------------------------------------
  // write_adaptor_definition: constructor and SetApi

  /** The `connect` that routes a QML signal (the notification's name with
      its first letter lower-cased) to the adaptor's private slot. */
  function ConnectLine(iface: string): Notification -> string
  {
    (n: Notification) =>
      "  connect(api_, SIGNAL(" + QmlSignalSignature(n, iface, LowerFirst(n.name), true, false) +
      "), this, SLOT(" + QmlSignalSignature(n, iface, n.name + "_qml", true, false) + "));\n"
  }

  function DefinitionHead(i: Interface): seq<string>
  {
    var c := i.name + "Adaptor";
    [c + "::" + c + "(QObject* parent) : QDBusAbstractAdaptor(parent) {}\n",
     "void " + c + "::SetApi(QQuickItem* api) {\n",
     "  api_ = api;\n"] +
    Each(i.notifications, ConnectLine(i.name)) + ["}\n\n"]
  }

  method WriteConnects(iface: string, ns: seq<Notification>, out: Stream)
    modifies out
    ensures out.text == old(out.text) + Each(ns, ConnectLine(iface))
  {
    for k := 0 to |ns|
      invariant out.text == old(out.text) + Each(ns[..k], ConnectLine(iface))
    {
      var n := ns[k];
      var signame := LowerFirst(n.name);
      var slotname := n.name + "_qml";
      var sigSignature := MakeQmlSignalSignature(n, iface, signame, true, false);
      var slotSignature := MakeQmlSignalSignature(n, iface, slotname, true, false);
      EachStep(ns, ConnectLine(iface), k);
      out.Write("  connect(api_, SIGNAL(" + sigSignature + "), this, SLOT(" + slotSignature + "));\n");
    }
    assert ns[..|ns|] == ns;
  }

  method WriteDefinitionHead(i: Interface, out: Stream)
    modifies out
    ensures out.text == old(out.text) + DefinitionHead(i)
  {
    ghost var t0 := out.text;
    var classname := i.name + "Adaptor";
    var lines := [classname + "::" + classname + "(QObject* parent) : QDBusAbstractAdaptor(parent) {}\n",
                  "void " + classname + "::SetApi(QQuickItem* api) {\n",
                  "  api_ = api;\n"];
    out.WriteLines(lines);
    WriteConnects(i.name, i.notifications, out);
    out.Write("}\n\n");
    ghost var c := Each(i.notifications, ConnectLine(i.name));
    assert out.text == t0 + lines + c + ["}\n\n"];
    AppendAssoc3(t0, lines, c, ["}\n\n"]);
  }

  // ---------------------------------------------------------------------
  // write_adaptor_definition: the bridge of a request/response pair

  /** How every early exit of the bridge returns: with `ret` when the method
      has a return value. */
  function ReturnStatement(m: Method): string
  {
    if |m.response| > 0 then "return ret" else "return"
  }

  function PutArgLine(p: Param): string
  {
    "  PutArgToMap(in_arg, \"" + p.name + "\", " + p.name + "_in);\n"
  }

  // The fixed text of the bridge, named once and shared by the
  // specification functions and the methods that write it.
  const InvokeHead := "  if (!QMetaObject::invokeMethod(api_, \""
  const InvokeConnection := "Qt::BlockingQueuedConnection, Q_RETURN_ARG(QVariant, out_arg_v), "
  const InvokeArgs := "Q_ARG(QVariant, QVariant(in_arg)))) {RaiseDbusError(this); "
  const ReplyCheck := "  if (out_arg_v.type() != QVariant::Map) {RaiseDbusError(this); "
  const ReplyToMap := "  QVariantMap out_arg = out_arg_v.toMap();\n"
  const GetOutHead := "  if (!GetArgFromMap(out_arg, \""
  const GetOutFail := "_out)) {RaiseDbusError(this); "
  const GetResultTail := "\", ret)) RaiseDbusError(this);\n"

  /** The fail-fast extraction of a secondary out-parameter. */
  function GetOutLine(rs: string): Param -> string
  {
    (p: Param) => GetOutHead + p.name + "\", " + p.name + GetOutFail + rs + ";}\n"
  }

  function BridgeHead(iface: string, m: Method): seq<string>
  {
    [MethodSignature(m, iface, true) + " {\n"] +
    (if |m.response| > 0 then ["  " + QtParamType(m.response[0]) + " ret;\n"] else []) +
    ["  QVariantMap in_arg;\n", "  QVariant out_arg_v;\n"]
  }

  /** The blocking call into QML and the check that its reply is a map. */
  function InvokeLines(m: Method): seq<string>
  {
    var rs := ReturnStatement(m);
    [InvokeHead + LowerFirst(m.name) + "\",",
     InvokeConnection,
     InvokeArgs + rs + ";}\n",
     ReplyCheck + rs + ";}\n",
     ReplyToMap]
  }

  /** The lenient extraction of the return value, last of all. */
  function PrimaryLines(m: Method): seq<string>
  {
    if |m.response| > 0 then
      [GetOutHead + m.response[0].name + GetResultTail,
       "  return ret;\n"]
    else []
  }

  function BridgeTail(m: Method): seq<string>
  {
    Each(Secondary(m), GetOutLine(ReturnStatement(m))) + PrimaryLines(m) + ["}\n\n"]
  }

  /** Packing the request into `in_arg`, then the call. */
  function BridgeCall(m: Method): seq<string>
  {
    Each(m.request, PutArgLine) + InvokeLines(m)
  }

  function BridgeLines(iface: string, m: Method): seq<string>
  {
    BridgeHead(iface, m) + BridgeCall(m) + BridgeTail(m)
  }

  function BridgeText(iface: string): Method -> seq<string>
  {
    (m: Method) => BridgeLines(iface, m)
  }

  method WriteBridgeHead(iface: string, m: Method, out: Stream)
    modifies out
    ensures out.text == old(out.text) + BridgeHead(iface, m)
  {
    ghost var t0 := out.text;
    var signature := MakeMethodSignature(m, iface, true);
    out.Write(signature + " {\n");
    ghost var ret: seq<string> := [];
    if |m.response| > 0 {
      var paramType := QtParamType(m.response[0]);
      out.Write("  " + paramType + " ret;\n");
      ret := ["  " + paramType + " ret;\n"];
    }
    out.WriteLines(["  QVariantMap in_arg;\n", "  QVariant out_arg_v;\n"]);
    assert out.text == t0 + [signature + " {\n"] + ret + ["  QVariantMap in_arg;\n", "  QVariant out_arg_v;\n"];
    AppendAssoc3(t0, [signature + " {\n"], ret, ["  QVariantMap in_arg;\n", "  QVariant out_arg_v;\n"]);
  }

  method WriteBridgeTail(m: Method, out: Stream)
    modifies out
    ensures out.text == old(out.text) + BridgeTail(m)
  {
    ghost var t0 := out.text;
    var returnStatement := if |m.response| > 0 then "return ret" else "return";
    WriteEach(Secondary(m), GetOutLine(returnStatement), out);
    if |m.response| > 0 {
      var name := m.response[0].name;
      out.Write(GetOutHead + name + GetResultTail);
      out.Write("  return ret;\n");
    }
    out.Write("}\n\n");
    ghost var a := Each(Secondary(m), GetOutLine(returnStatement));
    assert out.text == t0 + a + PrimaryLines(m) + ["}\n\n"];
    AppendAssoc3(t0, a, PrimaryLines(m), ["}\n\n"]);
  }

  method WriteBridgeCall(m: Method, out: Stream)
    modifies out
    ensures out.text == old(out.text) + BridgeCall(m)
  {
    ghost var t0 := out.text;
    WriteEach(m.request, PutArgLine, out);
    var methodName := LowerFirst(m.name);
    var returnStatement := if |m.response| > 0 then "return ret" else "return";
    var lines := [InvokeHead + methodName + "\",",
                  InvokeConnection,
                  InvokeArgs + returnStatement + ";}\n",
                  ReplyCheck + returnStatement + ";}\n",
                  ReplyToMap];
    assert lines == InvokeLines(m);
    out.WriteLines(lines);
    ghost var puts := Each(m.request, PutArgLine);
    assert out.text == t0 + puts + InvokeLines(m);
    AppendAssoc(t0, puts, InvokeLines(m));
  }

  /** The bridge text of one request/response pair. */
  method WriteBridge(iface: string, m: Method, out: Stream)
    modifies out
    ensures out.text == old(out.text) + BridgeLines(iface, m)
  {
    ghost var t0 := out.text;
    WriteBridgeHead(iface, m, out);
    WriteBridgeCall(m, out);
    WriteBridgeTail(m, out);
    AppendAssoc3(t0, BridgeHead(iface, m), BridgeCall(m), BridgeTail(m));
  }

  // ---------------------------------------------------------------------
  // write_adaptor_definition: the slot of a notification

  /** The local a decoded parameter is held in. */
  function LocalName(p: Param): string
  {
    "p_" + p.name
  }

  /** The declaration and decoding of a parameter's local: none for a
      mandatory scalar, a fail-fast decode for a mandatory array or struct,
      and for an optional parameter a presence test that gates the decode. */
  function LocalLines(p: Param): seq<string>
  {
    var decl := "  " + QtParamType(p) + " " + LocalName(p) + ";\n";
    if !DeclaresLocal(p) then []
    else if p.mandatory then
      [decl, "  if (!VariantToValue(" + p.name + ", " + LocalName(p) + ")) return;\n"]
    else
      [decl,
       "  " + LocalName(p) + ".presence = !" + p.name + ".isNull();\n",
       "  if (" + LocalName(p) + ".presence) {\n",
       "    if (!VariantToValue(" + p.name + ", " + LocalName(p) + ".val)) return;\n",
       "  }\n"]
  }

  /** What the `emit` passes for a parameter: its local, or the raw argument. */
  function EmitName(p: Param): string
  {
    if EmitsLocal(p) then LocalName(p) else p.name
  }

  function EmitWrites(ps: seq<Param>): seq<string>
  {
    SepWrites(Each(ps, EmitName), ", ", [], |ps|)
  }

  function SlotHead(iface: string, n: Notification): seq<string>
  {
    [QmlSignalSignature(n, iface, n.name + "_qml", false, true) + " {\n"] + Gather(n.params, LocalLines)
  }

  function SlotEmit(n: Notification): seq<string>
  {
    ["  emit " + n.name + "("] + EmitWrites(n.params) + [");\n", "}\n\n"]
  }

  function SlotLines(iface: string, n: Notification): seq<string>
  {
    SlotHead(iface, n) + SlotEmit(n)
  }

  function SlotText(iface: string): Notification -> seq<string>
  {
    (n: Notification) => SlotLines(iface, n)
  }

  method WriteLocal(p: Param, out: Stream)
    modifies out
    ensures out.text == old(out.text) + LocalLines(p)
  {
    var paramType := QtParamType(p);
    var paramName := "p_" + p.name;
    if p.mandatory {
      if p.isArray || (!IsPrimitiveName(p.typeName) && !p.isEnum) {
        out.Write("  " + paramType + " " + paramName + ";\n");
        out.Write("  if (!VariantToValue(" + p.name + ", " + paramName + ")) return;\n");
      }
    } else {
      out.Write("  " + paramType + " " + paramName + ";\n");
      out.Write("  " + paramName + ".presence = !" + p.name + ".isNull();\n");
      out.Write("  if (" + paramName + ".presence) {\n");
      out.Write("    if (!VariantToValue(" + p.name + ", " + paramName + ".val)) return;\n");
      out.Write("  }\n");
    }
  }

  method WriteLocals(ps: seq<Param>, out: Stream)
    modifies out
    ensures out.text == old(out.text) + Gather(ps, LocalLines)
  {
    ghost var t0 := out.text;
    for k := 0 to |ps|
      invariant out.text == t0 + Gather(ps[..k], LocalLines)
    {
      GatherAppend(t0, ps, LocalLines, k);
      WriteLocal(ps[k], out);
    }
    GatherAll(ps, LocalLines);
  }

  method WriteEmitArgs(ps: seq<Param>, out: Stream)
    modifies out
    ensures out.text == old(out.text) + EmitWrites(ps)
  {
    ghost var names := Each(ps, EmitName);
    for i := 0 to |ps|
      invariant out.text == old(out.text) + SepWrites(names, ", ", [], i)
    {
      var p := ps[i];
      var isBasic := IsPrimitiveName(p.typeName) || p.isEnum;
      var paramName := if p.isArray || !p.mandatory || !isBasic then "p_" + p.name else p.name;
      assert paramName == EmitName(p);
      assert names[i] == EmitName(p);
      out.Write(paramName);
      if i != |ps| - 1 {
        out.Write(", ");
      }
      assert SepWrites(names, ", ", [], i + 1) ==
             SepWrites(names, ", ", [], i) + [names[i]] + (if i != |names| - 1 then [", "] else []) + [];
    }
  }

  method WriteSlot(iface: string, n: Notification, out: Stream)
    modifies out
    ensures out.text == old(out.text) + SlotLines(iface, n)
  {
    ghost var t0 := out.text;
    var signature := MakeQmlSignalSignature(n, iface, n.name + "_qml", false, true);
    out.Write(signature + " {\n");
    WriteLocals(n.params, out);
    ghost var t1 := out.text;
    assert t1 == t0 + SlotHead(iface, n);
    out.Write("  emit " + n.name + "(");
    WriteEmitArgs(n.params, out);
    out.WriteLines([");\n", "}\n\n"]);
    assert out.text == t1 + SlotEmit(n);
    AppendAssoc(t0, SlotHead(iface, n), SlotEmit(n));
  }

  // ---------------------------------------------------------------------
  // write_adaptor_definition

  function AdaptorDefinition(i: Interface): seq<string>
  {
    DefinitionHead(i) + Gather(i.methods, BridgeText(i.name)) + Gather(i.notifications, SlotText(i.name))
  }

  method WriteNextBridge(iface: string, ms: seq<Method>, k: nat, ghost t0: seq<string>, out: Stream)
    requires k < |ms| && out.text == t0 + Gather(ms[..k], BridgeText(iface))
    modifies out
    ensures out.text == t0 + Gather(ms[..k + 1], BridgeText(iface))
  {
    GatherAppend(t0, ms, BridgeText(iface), k);
    WriteBridge(iface, ms[k], out);
  }

  method WriteBridges(iface: string, ms: seq<Method>, out: Stream)
    modifies out
    ensures out.text == old(out.text) + Gather(ms, BridgeText(iface))
  {
    ghost var t0 := out.text;
    for k := 0 to |ms|
      invariant out.text == t0 + Gather(ms[..k], BridgeText(iface))
    {
      WriteNextBridge(iface, ms, k, t0, out);
    }
    GatherAll(ms, BridgeText(iface));
  }

  method WriteSlots(iface: string, ns: seq<Notification>, out: Stream)
    modifies out
    ensures out.text == old(out.text) + Gather(ns, SlotText(iface))
  {
    ghost var t0 := out.text;
    for k := 0 to |ns|
      invariant out.text == t0 + Gather(ns[..k], SlotText(iface))
    {
      GatherAppend(t0, ns, SlotText(iface), k);
      WriteSlot(iface, ns[k], out);
    }
    GatherAll(ns, SlotText(iface));
  }

  method WriteAdaptorDefinition(i: Interface, out: Stream)
    modifies out
    ensures out.text == old(out.text) + AdaptorDefinition(i)
  {
    ghost var t0 := out.text;
    WriteDefinitionHead(i, out);
    WriteBridges(i.name, i.methods, out);
    WriteSlots(i.name, i.notifications, out);
    AppendAssoc3(t0, DefinitionHead(i), Gather(i.methods, BridgeText(i.name)), Gather(i.notifications, SlotText(i.name)));
  }

  // ---------------------------------------------------------------------
  // make_dbus_adaptor_declarations, make_dbus_adaptor_definitions

  /** What `make_dbus_adaptor_declarations` writes, and whether it
      completes: the first declaration that raises ends the run. */
  function AdaptorDeclarations(ifaces: seq<Interface>, path: string): (seq<string>, bool)
  {
    if ifaces == [] then ([], true)
    else
      var prev := AdaptorDeclarations(ifaces[..|ifaces| - 1], path);
      var last := ifaces[|ifaces| - 1];
      if !prev.1 || IsEmptyInterface(last) then prev
      else
        var d := AdaptorDeclaration(last, path);
        (prev.0 + d.0, d.1)
  }

  function AdaptorDefinitions(ifaces: seq<Interface>): seq<string>
  {
    Gather(NonEmpty(ifaces), AdaptorDefinition)
  }

  lemma DeclarationsStep(ifaces: seq<Interface>, path: string, i: nat)
    requires i < |ifaces|
    ensures AdaptorDeclarations(ifaces[..i + 1], path) ==
            (var prev := AdaptorDeclarations(ifaces[..i], path);
             if !prev.1 || IsEmptyInterface(ifaces[i]) then prev
             else (prev.0 + AdaptorDeclaration(ifaces[i], path).0, AdaptorDeclaration(ifaces[i], path).1))
  {
    assert ifaces[..i + 1][..i] == ifaces[..i];
  }

  /** Once a declaration has raised, later interfaces add nothing. */
  lemma {:induction false} DeclarationsStayFailed(ifaces: seq<Interface>, path: string, i: nat)
    requires i <= |ifaces| && !AdaptorDeclarations(ifaces[..i], path).1
    ensures AdaptorDeclarations(ifaces, path) == AdaptorDeclarations(ifaces[..i], path)
    decreases |ifaces| - i
  {
    if i == |ifaces| {
      assert ifaces[..i] == ifaces;
    } else {
      DeclarationsStep(ifaces, path, i);
      DeclarationsStayFailed(ifaces, path, i + 1);
    }
  }

  method WriteNextDeclaration(ifaces: seq<Interface>, path: string, i: nat, ghost t0: seq<string>, out: Stream)
    returns (ok: bool)
    requires i < |ifaces| && !IsEmptyInterface(ifaces[i])
    requires AdaptorDeclarations(ifaces[..i], path).1
    requires out.text == t0 + AdaptorDeclarations(ifaces[..i], path).0
    modifies out
    ensures ok == AdaptorDeclarations(ifaces[..i + 1], path).1
    ensures out.text == t0 + AdaptorDeclarations(ifaces[..i + 1], path).0
  {
    DeclarationsStep(ifaces, path, i);
    ghost var prev := AdaptorDeclarations(ifaces[..i], path).0;
    ok := WriteAdaptorDeclaration(ifaces[i], path, out);
    AppendAssoc(t0, prev, AdaptorDeclaration(ifaces[i], path).0);
  }

  /** `make_dbus_adaptor_declarations`; `ok` is false when a declaration
      raised, and the run stops there. */
  method MakeDbusAdaptorDeclarations(ifaces: seq<Interface>, path: string, out: Stream) returns (ok: bool)
    modifies out
    ensures ok == AdaptorDeclarations(ifaces, path).1
    ensures out.text == old(out.text) + AdaptorDeclarations(ifaces, path).0
  {
    ghost var t0 := out.text;
    for i := 0 to |ifaces|
      invariant AdaptorDeclarations(ifaces[..i], path).1
      invariant out.text == t0 + AdaptorDeclarations(ifaces[..i], path).0
    {
      DeclarationsStep(ifaces, path, i);
      if !IsEmptyInterface(ifaces[i]) {
        ok := WriteNextDeclaration(ifaces, path, i, t0, out);
        if !ok {
          DeclarationsStayFailed(ifaces, path, i + 1);
          return;
        }
      }
    }
    assert ifaces[..|ifaces|] == ifaces;
    ok := true;
  }

  method WriteNextDefinition(ifaces: seq<Interface>, i: nat, ghost t0: seq<string>, out: Stream)
    requires i < |ifaces| && !IsEmptyInterface(ifaces[i])
    requires out.text == t0 + AdaptorDefinitions(ifaces[..i])
    modifies out
    ensures out.text == t0 + AdaptorDefinitions(ifaces[..i + 1])
  {
    NonEmptyStep(ifaces, i);
    GatherSnoc(NonEmpty(ifaces[..i]), AdaptorDefinition, ifaces[i]);
    WriteAdaptorDefinition(ifaces[i], out);
    AppendAssoc(t0, AdaptorDefinitions(ifaces[..i]), AdaptorDefinition(ifaces[i]));
  }

  method MakeDbusAdaptorDefinitions(ifaces: seq<Interface>, out: Stream)
    modifies out
    ensures out.text == old(out.text) + AdaptorDefinitions(ifaces)
  {
    ghost var t0 := out.text;
    for i := 0 to |ifaces|
      invariant out.text == t0 + AdaptorDefinitions(ifaces[..i])
    {
      if !IsEmptyInterface(ifaces[i]) {
        WriteNextDefinition(ifaces, i, t0, out);
      } else {
        DefinitionsSkip(ifaces, i);
      }
    }
    assert ifaces[..|ifaces|] == ifaces;
  }

  lemma DefinitionsSkip(ifaces: seq<Interface>, i: nat)
    requires i < |ifaces| && IsEmptyInterface(ifaces[i])
    ensures AdaptorDefinitions(ifaces[..i + 1]) == AdaptorDefinitions(ifaces[..i])
  {
    NonEmptyStep(ifaces, i);
    assert NonEmpty(ifaces[..i + 1]) == NonEmpty(ifaces[..i]);
  }

  // ---------------------------------------------------------------------
  // Properties of the emitted adaptors

  /** The declarations depend on the non-empty interfaces only. */
  lemma {:induction false} DeclarationsOfNonEmpty(ifaces: seq<Interface>, path: string)
    ensures AdaptorDeclarations(ifaces, path) == AdaptorDeclarations(NonEmpty(ifaces), path)
  {
    if ifaces != [] {
      var init, last := ifaces[..|ifaces| - 1], ifaces[|ifaces| - 1];
      DeclarationsOfNonEmpty(init, path);
      if !IsEmptyInterface(last) {
        var ne := NonEmpty(init) + [last];
        assert ne[..|ne| - 1] == NonEmpty(init);
      }
    }
  }

  /** An interface with neither notifications nor request/response pairs
      gets no adaptor declaration: removing it changes nothing. */
  lemma DeclarationsSkipEmpty(a: seq<Interface>, e: Interface, b: seq<Interface>, path: string)
    requires IsEmptyInterface(e)
    ensures AdaptorDeclarations(a + [e] + b, path) == AdaptorDeclarations(a + b, path)
  {
    DeclarationsOfNonEmpty(a + [e] + b, path);
    DeclarationsOfNonEmpty(a + b, path);
    NonEmptySkips(a, e, b);
  }

  /** ... and no adaptor definition. */
  lemma DefinitionsSkipEmpty(a: seq<Interface>, e: Interface, b: seq<Interface>)
    requires IsEmptyInterface(e)
    ensures AdaptorDefinitions(a + [e] + b) == AdaptorDefinitions(a + b)
  {
    NonEmptySkips(a, e, b);
  }

  /** The declarations complete exactly when no non-empty interface has an
      empty introspection piece. */
  lemma {:induction false} DeclarationsComplete(ifaces: seq<Interface>, path: string)
    ensures AdaptorDeclarations(ifaces, path).1 <==>
            forall k :: 0 <= k < |ifaces| && !IsEmptyInterface(ifaces[k]) ==> Gluable(ifaces[k].introspection)
  {
    if ifaces != [] {
      var init := ifaces[..|ifaces| - 1];
      DeclarationsComplete(init, path);
      assert forall k :: 0 <= k < |init| ==> init[k] == ifaces[k];
    }
  }

  /** The `emit` passes a parameter's local exactly when the slot declared
      and decoded one, which is exactly when the QML signal carries that
      parameter as a `QVariant`; the local is declared with the resolver's
      type. */
  lemma EmitUsesDeclaredLocals(p: Param)
    requires WellFormed(p)
    ensures EmitName(p) == LocalName(p) <==> LocalLines(p) != []
    ensures LocalLines(p) != [] <==> QmlArgType(p) == "QVariant"
    ensures EmitName(p) != LocalName(p) ==> EmitName(p) == p.name
    ensures LocalLines(p) != [] ==> LocalLines(p)[0] == "  " + QtParamType(p) + " " + LocalName(p) + ";\n"
  {
    LocalsMatchQmlSignature(p);
    if !EmitsLocal(p) {
      assert |LocalName(p)| == |p.name| + 2;
    }
  }

  /** The arguments of the `emit` are the emit names separated by `", "`,
      with no separator after the last. */
  lemma EmitText(ps: seq<Param>)
    ensures ps == [] ==> EmitWrites(ps) == []
    ensures ps != [] ==> Concat(EmitWrites(ps)) == Join(", ", Each(ps, EmitName))
  {
    if ps != [] {
      var names := Each(ps, EmitName);
      SepWritesConcat(names, ", ", [], |ps|);
      assert Concat([]) == "";
      assert ", " + "" == ", ";
      assert names[..|ps|] == names;
      var j := Join(", ", names);
      assert j + "" + "" == j;
    }
  }

  /** The signal and the slot a `connect` pairs carry the same parameter
      types: their short signatures differ in the name only. */
  lemma ConnectSignaturesAgree(n: Notification, iface: string, a: string, b: string)
    ensures QmlSignalSignature(n, iface, a, true, false)[|a|..] == QmlSignalSignature(n, iface, b, true, false)[|b|..]
  {
    var rest := "(" + Join(Sep, QmlParamTexts(n, true)) + ")";
    assert QmlSignalSignature(n, iface, a, true, false) == a + rest;
    assert QmlSignalSignature(n, iface, b, true, false) == b + rest;
  }

  /** Where the bridge's body starts: after the signature, the `ret` local
      when there is a return value, and the two maps. */
  function BridgeBodyStart(m: Method): nat
  {
    if |m.response| > 0 then 4 else 3
  }

  lemma BridgeHeadLength(iface: string, m: Method)
    ensures |BridgeHead(iface, m)| == BridgeBodyStart(m)
  {
  }

  /** The request parameters are packed into `in_arg` in order, one line each. */
  lemma BridgePacksInOrder(iface: string, m: Method, k: nat)
    requires k < |m.request|
    ensures BridgeBodyStart(m) + k < |BridgeLines(iface, m)|
    ensures BridgeLines(iface, m)[BridgeBodyStart(m) + k] == PutArgLine(m.request[k])
  {
    BridgeHeadLength(iface, m);
    CallPacksAt(m, k);
    IndexSecond(BridgeHead(iface, m), BridgeCall(m), BridgeTail(m), k);
  }

  lemma CallPacksAt(m: Method, k: nat)
    requires k < |m.request|
    ensures k < |BridgeCall(m)| && BridgeCall(m)[k] == PutArgLine(m.request[k])
  {
    assert Each(m.request, PutArgLine)[k] == PutArgLine(m.request[k]);
  }

  /** Indexing past the first part of a three-part sequence. */
  lemma IndexSecond<T>(h: seq<T>, c: seq<T>, t: seq<T>, k: nat)
    requires k < |c|
    ensures |h| + k < |h + c + t|
    ensures (h + c + t)[|h| + k] == c[k]
  {
  }

  /** Where the extraction of the out-parameters starts: after the body's
      packing lines and the five lines of the call. */
  function ExtractStart(m: Method): nat
  {
    BridgeBodyStart(m) + |m.request| + 5
  }

  /** Indexing past the first two parts of a three-part sequence. */
  lemma IndexThird<T>(h: seq<T>, c: seq<T>, t: seq<T>, k: nat)
    requires k < |t|
    ensures |h| + |c| + k < |h + c + t|
    ensures (h + c + t)[|h| + |c| + k] == t[k]
  {
  }

  lemma TailSecondaryAt(m: Method, j: nat)
    requires 1 <= j < |m.response|
    ensures j - 1 < |BridgeTail(m)|
    ensures BridgeTail(m)[j - 1] == GetOutLine("return ret")(m.response[j])
  {
    var sec := Each(Secondary(m), GetOutLine("return ret"));
    assert BridgeTail(m) == sec + PrimaryLines(m) + ["}\n\n"];
    assert sec[j - 1] == GetOutLine("return ret")(m.response[j]);
  }

  /** After the call, the secondary out-parameters are extracted in order,
      each one returning `ret` at once on failure. */
  lemma BridgeExtractsInOrder(iface: string, m: Method, j: nat)
    requires 1 <= j < |m.response|
    ensures ExtractStart(m) + j - 1 < |BridgeLines(iface, m)|
    ensures BridgeLines(iface, m)[ExtractStart(m) + j - 1] == GetOutLine("return ret")(m.response[j])
  {
    BridgeHeadLength(iface, m);
    BridgeCallAt(m, 0);
    TailSecondaryAt(m, j);
    IndexThird(BridgeHead(iface, m), BridgeCall(m), BridgeTail(m), j - 1);
  }

  /** The return value is extracted last; its failure only raises, and
      `ret` is returned either way. */
  lemma BridgeExtractsResultLast(iface: string, m: Method)
    requires |m.response| > 0
    ensures |BridgeLines(iface, m)| == ExtractStart(m) + |m.response| + 2
    ensures BridgeLines(iface, m)[ExtractStart(m) + |m.response| - 1] ==
            GetOutHead + m.response[0].name + GetResultTail
    ensures BridgeLines(iface, m)[ExtractStart(m) + |m.response|] == "  return ret;\n"
  {
    var h, c, t := BridgeHead(iface, m), BridgeCall(m), BridgeTail(m);
    BridgeHeadLength(iface, m);
    assert |c| == |m.request| + 5;
    var sec := Each(Secondary(m), GetOutLine("return ret"));
    assert t == sec + PrimaryLines(m) + ["}\n\n"];
    assert |sec| == |m.response| - 1;
    assert (h + c + t)[|h| + |c| + |m.response| - 1] == t[|m.response| - 1];
    assert (h + c + t)[|h| + |c| + |m.response|] == t[|m.response|];
  }

  /** The call lines follow the packing lines. */
  lemma BridgeCallAt(m: Method, k: nat)
    requires k < 5
    ensures |BridgeCall(m)| == |m.request| + 5
    ensures BridgeCall(m)[|m.request| + k] == InvokeLines(m)[k]
  {
  }

  lemma InvokeReturnsBare(m: Method)
    requires |m.response| == 0
    ensures BridgeTail(m) == ["}\n\n"]
    ensures InvokeLines(m)[2] == InvokeArgs + "return" + ";}\n"
  {
    assert Secondary(m) == [];
  }

  /** A bridge without a return value has no `ret` and returns bare. */
  lemma BridgeWithoutResult(iface: string, m: Method)
    requires |m.response| == 0
    ensures |BridgeLines(iface, m)| == BridgeBodyStart(m) + |m.request| + 6
    ensures BridgeLines(iface, m)[BridgeBodyStart(m) + |m.request| + 2] ==
            InvokeArgs + "return" + ";}\n"
  {
    var h, c, t := BridgeHead(iface, m), BridgeCall(m), BridgeTail(m);
    BridgeHeadLength(iface, m);
    InvokeReturnsBare(m);
    BridgeCallAt(m, 2);
    assert (h + c + t)[|h| + |m.request| + 2] == c[|m.request| + 2];
  }
}
