/** `make_api_adaptors_class`: the `ApiAdaptors` struct that owns one
    adaptor per non-empty interface, with its member, initializer, `Init`
    and `SetApi` sections. */
module ApiAdaptors {
  import opened Text
  import opened Descriptors
  import opened Output
  import opened AdaptorEmit

  function AdaptorName(i: Interface): string
  {
    i.name + "Adaptor"
  }

  function MemberLine(i: Interface): string
  {
    "  " + AdaptorName(i) + "* " + AdaptorName(i) + "_;\n"
  }

  /** One entry of the constructor's initializer list, without separator. */
  function Initializer(i: Interface): string
  {
    "    " + AdaptorName(i) + "_(NULL)"
  }

  function InitLine(i: Interface): string
  {
    "    " + AdaptorName(i) + "_ = new " + AdaptorName(i) + "(p);\n"
  }

  function SetApiLine(i: Interface): string
  {
    "    " + AdaptorName(i) + "_->SetApi(p->findChild<QQuickItem*>(\"" + i.name + "\"));\n"
  }

  /** The initializer entries, each followed by `,` unless it is the last,
      and by a line break. */
  function InitializerWrites(fs: seq<Interface>): seq<string>
  {
    SepWrites(Each(fs, Initializer), ",", ["\n"], |fs|)
  }

  function ClassMembers(fs: seq<Interface>): seq<string>
  {
    ["struct ApiAdaptors {\n"] + Each(fs, MemberLine) + ["  ApiAdaptors() :\n"]
  }

  function ClassInit(fs: seq<Interface>): seq<string>
  {
    InitializerWrites(fs) + ["  {}\n", "  void Init(QObject* p) {\n"] + Each(fs, InitLine) + ["  }\n"]
  }

  function ClassSetApi(fs: seq<Interface>): seq<string>
  {
    ["  void SetApi(QObject* p) {\n"] + Each(fs, SetApiLine) + ["  }\n", "};\n\n"]
  }

  /** What `make_api_adaptors_class` writes: every section lists the
      non-empty interfaces only, in document order. */
  function ApiAdaptorsClass(ifaces: seq<Interface>): seq<string>
  {
    var fs := NonEmpty(ifaces);
    ClassMembers(fs) + ClassInit(fs) + ClassSetApi(fs)
  }

  method WriteClassMembers(fs: seq<Interface>, out: Stream)
    modifies out
    ensures out.text == old(out.text) + ClassMembers(fs)
  {
    ghost var t0 := out.text;
    out.Write("struct ApiAdaptors {\n");
    WriteEach(fs, MemberLine, out);
    out.Write("  ApiAdaptors() :\n");
    AppendAssoc3(t0, ["struct ApiAdaptors {\n"], Each(fs, MemberLine), ["  ApiAdaptors() :\n"]);
  }

  method WriteInitializers(fs: seq<Interface>, out: Stream)
    modifies out
    ensures out.text == old(out.text) + InitializerWrites(fs)
  {
    ghost var inits := Each(fs, Initializer);
    for i := 0 to |fs|
      invariant out.text == old(out.text) + SepWrites(inits, ",", ["\n"], i)
    {
      var name := fs[i].name + "Adaptor";
      out.Write("    " + name + "_(NULL)");
      if i != |fs| - 1 {
        out.Write(",");
      }
      out.Write("\n");
      assert inits[i] == Initializer(fs[i]);
      assert SepWrites(inits, ",", ["\n"], i + 1) ==
             SepWrites(inits, ",", ["\n"], i) + [inits[i]] + (if i != |inits| - 1 then [","] else []) + ["\n"];
    }
  }

  method WriteClassInit(fs: seq<Interface>, out: Stream)
    modifies out
    ensures out.text == old(out.text) + ClassInit(fs)
  {
    ghost var t0 := out.text;
    WriteInitializers(fs, out);
    out.WriteLines(["  {}\n", "  void Init(QObject* p) {\n"]);
    WriteEach(fs, InitLine, out);
    out.Write("  }\n");
    ghost var a, b, c, d := InitializerWrites(fs), ["  {}\n", "  void Init(QObject* p) {\n"], Each(fs, InitLine), ["  }\n"];
    assert out.text == t0 + a + b + c + d;
    assert t0 + a + b + c + d == t0 + (a + b + c + d);
  }

  method WriteClassSetApi(fs: seq<Interface>, out: Stream)
    modifies out
    ensures out.text == old(out.text) + ClassSetApi(fs)
  {
    ghost var t0 := out.text;
    out.Write("  void SetApi(QObject* p) {\n");
    WriteEach(fs, SetApiLine, out);
    out.WriteLines(["  }\n", "};\n\n"]);
    AppendAssoc3(t0, ["  void SetApi(QObject* p) {\n"], Each(fs, SetApiLine), ["  }\n", "};\n\n"]);
  }

  method MakeApiAdaptorsClass(ifaces: seq<Interface>, out: Stream)
    modifies out
    ensures out.text == old(out.text) + ApiAdaptorsClass(ifaces)
  {
    ghost var t0 := out.text;
    var interfaces := NonEmpty(ifaces);
    WriteClassMembers(interfaces, out);
    WriteClassInit(interfaces, out);
    WriteClassSetApi(interfaces, out);
    AppendAssoc3(t0, ClassMembers(interfaces), ClassInit(interfaces), ClassSetApi(interfaces));
  }

  // ---------------------------------------------------------------------
  // Properties

  /** An empty interface gets no member, initializer, `Init` or `SetApi`
      line: removing it changes nothing. */
  lemma ClassSkipsEmpty(a: seq<Interface>, e: Interface, b: seq<Interface>)
    requires IsEmptyInterface(e)
    ensures ApiAdaptorsClass(a + [e] + b) == ApiAdaptorsClass(a + b)
  {
    NonEmptySkips(a, e, b);
  }

  /** Filtering the interfaces first changes nothing either. */
  lemma ClassOfNonEmpty(ifaces: seq<Interface>)
    ensures ApiAdaptorsClass(NonEmpty(ifaces)) == ApiAdaptorsClass(ifaces)
  {
    NonEmptyIdempotent(ifaces);
  }

  /** The initializer list is the entries joined by `,` and a line break,
      and ends in a line break. */
  lemma InitializerList(fs: seq<Interface>)
    requires fs != []
    ensures Concat(InitializerWrites(fs)) == Join(",\n", Each(fs, Initializer)) + "\n"
  {
    var inits := Each(fs, Initializer);
    SepWritesConcat(inits, ",", ["\n"], |fs|);
    assert Concat(["\n"]) == "\n" by {
      assert ["\n"][..0] == [];
    }
    assert ",\n" == "," + "\n";
    assert inits[..|fs|] == inits;
    var j := Join(",\n", inits);
    assert j + "" + "\n" == j + "\n";
  }

  lemma InitializerCloses(i: Interface)
    ensures |Initializer(i)| > 0 && Initializer(i)[|Initializer(i)| - 1] == ')'
  {
  }

  /** No comma trails the list: its last entry closes with `)`, followed by
      the line break. */
  lemma InitializerListNoTrailingComma(fs: seq<Interface>)
    requires fs != []
    ensures var text := Concat(InitializerWrites(fs));
            |text| >= 2 && text[|text| - 2] == ')' && text[|text| - 1] == '\n'
  {
    InitializerList(fs);
    var inits := Each(fs, Initializer);
    var last := inits[|fs| - 1];
    assert last == Initializer(fs[|fs| - 1]);
    InitializerCloses(fs[|fs| - 1]);
    var j := Join(",\n", inits);
    JoinEndsWithLast(",\n", inits);
    EndsWithLastChar(j, last);
    assert (j + "\n")[|j| - 1] == j[|j| - 1];
  }

  /** The member section declares exactly the non-empty interfaces' adaptors,
      one line each, in document order. */
  lemma MembersAreNonEmpty(ifaces: seq<Interface>)
    ensures var fs := NonEmpty(ifaces);
            |ClassMembers(fs)| == |fs| + 2 &&
            forall k :: 0 <= k < |fs| ==> ClassMembers(fs)[k + 1] == MemberLine(fs[k]) &&
                                          fs[k] in ifaces && !IsEmptyInterface(fs[k])
  {
    NonEmptyMembers(ifaces);
  }
}
