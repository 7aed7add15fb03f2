/** The signature builders (`make_method_signature`, `make_signal_signature`,
    `make_qml_signal_signature`) and `glue_strings`. Each is a loop that
    accumulates a string or a list, as in the generator, proved against a
    declarative definition built on `Join`. */
module Signatures {
  import opened Wrappers
  import opened Text
  import opened Descriptors
  import opened Resolvers

  const Sep := ", "

  lemma JoinStep(sep: string, xs: seq<string>, k: nat)
    requires k < |xs|
    ensures Join(sep, xs[..k + 1]) == if k == 0 then xs[0] else Join(sep, xs[..k]) + sep + xs[k]
  {
    assert xs[..k + 1] == xs[..k] + [xs[k]];
    JoinSnoc(sep, xs[..k], xs[k]);
  }

  /** The text a separated loop has produced after `i` items: each item is
      appended, followed by `", "` unless it is the last one of `xs`. */
  function SepFold(acc: string, xs: seq<string>, i: nat): string
    requires i <= |xs|
  {
    if i == 0 then acc
    else SepFold(acc, xs, i - 1) + xs[i - 1] + (if i - 1 != |xs| - 1 then Sep else "")
  }

  /** A completed separated loop appends exactly the join of its items. */
  lemma {:induction false} SepFoldJoin(acc: string, xs: seq<string>, i: nat)
    requires i <= |xs|
    ensures SepFold(acc, xs, i) == acc + Join(Sep, xs[..i]) + (if 0 < i < |xs| then Sep else "")
  {
    if i > 0 {
      SepFoldJoin(acc, xs, i - 1);
      JoinStep(Sep, xs, i - 1);
      var j := Join(Sep, xs[..i - 1]);
      if i - 1 > 0 {
        assert acc + j + Sep + xs[i - 1] == acc + (j + Sep + xs[i - 1]);
      }
    }
  }

  /** One step of a separated loop: the item, then `", "` unless it is the last. */
  lemma SepFoldStep(acc: string, xs: seq<string>, i: nat, piece: string)
    requires i < |xs| && xs[i] == piece
    ensures SepFold(acc, xs, i + 1) == SepFold(acc, xs, i) + piece + (if i != |xs| - 1 then Sep else "")
  {
  }

  lemma SepFoldDone(acc: string, xs: seq<string>)
    ensures SepFold(acc, xs, |xs|) == acc + Join(Sep, xs)
  {
    SepFoldJoin(acc, xs, |xs|);
    assert xs[..|xs|] == xs;
  }

  // ---------------------------------------------------------------------
  // make_method_signature

  /** `T name_in` for a request parameter. */
  function InParamText(p: Param): string
  {
    QtParamType(p) + " " + p.name + "_in"
  }

  /** `T& name_out` for a response parameter after the first. */
  function OutParamText(p: Param): string
  {
    QtParamType(p) + "& " + p.name + "_out"
  }

  function InTexts(ps: seq<Param>): (r: seq<string>)
    ensures |r| == |ps|
  {
    seq(|ps|, i requires 0 <= i < |ps| => InParamText(ps[i]))
  }

  function OutTexts(ps: seq<Param>): (r: seq<string>)
    ensures |r| == |ps|
  {
    seq(|ps|, i requires 0 <= i < |ps| => OutParamText(ps[i]))
  }

  /** The parameter list of a bridge: every request parameter, then every
      response parameter but the first. */
  function MethodParamTexts(m: Method): seq<string>
  {
    InTexts(m.request) + (if |m.response| > 1 then OutTexts(m.response[1..]) else [])
  }

  lemma {:induction false} OutParamAt(m: Method, j: nat)
    requires 1 <= j < |m.response|
    ensures MethodParamTexts(m)[|m.request| + j - 1] == OutParamText(m.response[j])
  {
    assert m.response[1..][j - 1] == m.response[j];
  }

  /** A bridge has `len(in) + max(0, len(out) - 1)` parameters: the request
      parameters in order, then the response parameters after the first. */
  lemma MethodParamShape(m: Method)
    ensures |MethodParamTexts(m)| == |m.request| + (if |m.response| > 1 then |m.response| - 1 else 0)
    ensures forall i :: 0 <= i < |m.request| ==> MethodParamTexts(m)[i] == InParamText(m.request[i])
    ensures forall j :: 1 <= j < |m.response| ==> MethodParamTexts(m)[|m.request| + j - 1] == OutParamText(m.response[j])
  {
  }

  /** The bridge's return type: the first response parameter's, or `void`. */
  function ReturnType(m: Method): string
  {
    if |m.response| > 0 then QtParamType(m.response[0]) else "void"
  }

  function ClassPrefix(iface: string, addClassname: bool): string
  {
    if addClassname then iface + "Adaptor::" else ""
  }

  /** The declared shape of a bridge signature. */
  function MethodSignature(m: Method, iface: string, addClassname: bool): string
  {
    ReturnType(m) + " " + ClassPrefix(iface, addClassname) + m.name + "(" + Join(Sep, MethodParamTexts(m)) + ")"
  }

  /** `make_method_signature`: `", "` is written after every parameter but
      the last of each loop, plus once between the two loops when both are
      non-empty, which is exactly a join of the whole list. */
  method MakeMethodSignature(m: Method, iface: string, addClassname: bool) returns (retstr: string)
    ensures retstr == MethodSignature(m, iface, addClassname)
  {
    var retType := if |m.response| > 0 then QtParamType(m.response[0]) else "void";
    retstr := retType + " ";
    if addClassname {
      retstr := retstr + (iface + "Adaptor::");
    }
    retstr := retstr + m.name + "(";
    ghost var head := retstr;
    assert head == ReturnType(m) + " " + ClassPrefix(iface, addClassname) + m.name + "(";
    ghost var ins := InTexts(m.request);
    var inNum := |m.request|;
    var i := 0;
    while i < inNum
      invariant 0 <= i <= inNum
      invariant retstr == SepFold(head, ins, i)
    {
      var paramType := QtParamType(m.request[i]);
      var piece := paramType + " " + m.request[i].name + "_in";
      SepFoldStep(head, ins, i, piece);
      retstr := retstr + piece;
      if i != inNum - 1 {
        retstr := retstr + Sep;
      }
      i := i + 1;
    }
    ghost var outs: seq<string> := [];
    ghost var mid := retstr;
    var outNum := |m.response|;
    if outNum > 1 {
      if inNum > 0 {
        retstr := retstr + Sep;
      }
      mid := retstr;
      outs := OutTexts(m.response[1..]);
      var j := 1;
      ghost var k := 0;
      while j < outNum
        invariant 1 <= j <= outNum && k == j - 1 && |outs| == outNum - 1
        invariant retstr == SepFold(mid, outs, k)
      {
        var paramType := QtParamType(m.response[j]);
        var piece := paramType + "& " + m.response[j].name + "_out";
        assert m.response[1..][k] == m.response[j];
        SepFoldStep(mid, outs, k, piece);
        retstr := retstr + piece;
        if j != outNum - 1 {
          retstr := retstr + Sep;
        }
        j := j + 1;
        k := k + 1;
      }
    }
    SignatureAssembly(head, ins, outs, mid, retstr);
    assert ins + outs == MethodParamTexts(m);
    ghost var params := Join(Sep, MethodParamTexts(m));
    assert retstr == head + params;
    retstr := retstr + ")";
  }

  /** Two separated loops, with one `", "` between them when both wrote
      something, append the join of both item lists. */
  lemma SignatureAssembly(head: string, ins: seq<string>, outs: seq<string>, mid: string, acc: string)
    requires outs == [] ==> acc == SepFold(head, ins, |ins|)
    requires outs != [] ==> mid == SepFold(head, ins, |ins|) + (if ins != [] then Sep else "")
    requires outs != [] ==> acc == SepFold(mid, outs, |outs|)
    ensures acc == head + Join(Sep, ins + outs)
  {
    SepFoldDone(head, ins);
    if outs == [] {
      assert ins + outs == ins;
    } else {
      SepFoldDone(mid, outs);
      JoinAppend(Sep, ins, outs);
      if ins == [] {
        assert ins + outs == outs;
      } else {
        var ji, jo := Join(Sep, ins), Join(Sep, outs);
        assert acc == head + ji + Sep + jo;
        Assoc4(head, ji, Sep, jo);
      }
    }
  }

  // ---------------------------------------------------------------------
  // make_signal_signature

  function SignalParamTexts(n: Notification): (r: seq<string>)
    ensures |r| == |n.params|
    ensures forall i :: 0 <= i < |n.params| ==> r[i] == QtParamType(n.params[i]) + " " + n.params[i].name
  {
    seq(|n.params|, i requires 0 <= i < |n.params| => QtParamType(n.params[i]) + " " + n.params[i].name)
  }

  function SignalSignature(n: Notification, addVoid: bool): string
  {
    (if addVoid then "void " else "") + n.name + "(" + Join(Sep, SignalParamTexts(n)) + ")"
  }

  /** `make_signal_signature`: the outbound signal, one `T name` per parameter. */
  method MakeSignalSignature(n: Notification, addVoid: bool) returns (retstr: string)
    ensures retstr == SignalSignature(n, addVoid)
  {
    retstr := if addVoid then "void " else "";
    retstr := retstr + n.name + "(";
    ghost var head := retstr;
    ghost var all := SignalParamTexts(n);
    var num := |n.params|;
    var i := 0;
    while i < num
      invariant 0 <= i <= num
      invariant retstr == SepFold(head, all, i)
    {
      var paramType := QtParamType(n.params[i]);
      retstr := retstr + (paramType + " " + n.params[i].name);
      if i != num - 1 {
        retstr := retstr + Sep;
      }
      i := i + 1;
    }
    SepFoldDone(head, all);
    retstr := retstr + ")";
  }

  // ---------------------------------------------------------------------
  // make_qml_signal_signature

  /** The type a QML-side signal or slot carries a parameter as: a struct, an
      array or an optional parameter travels as `QVariant`, a primitive or
      enum as its native type, anything else as `QVariant`. */
  function QmlArgType(p: Param): string
  {
    if p.isStruct || p.isArray || !p.mandatory then "QVariant"
    else if p.typeName == "Integer" || p.isEnum then "int"
    else if p.typeName == "Boolean" then "bool"
    else if p.typeName == "Float" then "double"
    else if p.typeName == "String" then "QString"
    else "QVariant"
  }

  /** Where the QML side carries a parameter natively, that native type is
      the C++ type the resolver gives the same descriptor. */
  lemma QmlNativeTypeIsQtType(p: Param)
    requires QmlArgType(p) != "QVariant"
    ensures QmlArgType(p) == QtParamType(p)
    ensures p.mandatory && !p.isArray && !p.isStruct && IsBasic(p)
  {
  }

  /** One QML parameter: its type, then its name unless `short`. */
  function QmlParamText(p: Param, short: bool): string
  {
    if short then QmlArgType(p) else QmlArgType(p) + " " + p.name
  }

  function QmlParamTexts(n: Notification, short: bool): (r: seq<string>)
    ensures |r| == |n.params|
    ensures forall i :: 0 <= i < |n.params| ==> r[i] == QmlParamText(n.params[i], short)
  {
    seq(|n.params|, i requires 0 <= i < |n.params| => QmlParamText(n.params[i], short))
  }

  function QmlSignalSignature(n: Notification, iface: string, name: string, short: bool, addClassname: bool): string
  {
    (if short then "" else "void ") + ClassPrefix(iface, addClassname) + name + "(" + Join(Sep, QmlParamTexts(n, short)) + ")"
  }

  /** `make_qml_signal_signature`: types only when `short`, otherwise typed
      and named parameters after `void ` and the optional class prefix. */
  method MakeQmlSignalSignature(n: Notification, iface: string, name: string, short: bool, addClassname: bool)
    returns (retstr: string)
    ensures retstr == QmlSignalSignature(n, iface, name, short, addClassname)
  {
    retstr := if short then "" else "void ";
    if addClassname {
      retstr := retstr + (iface + "Adaptor::");
    }
    retstr := retstr + name + "(";
    ghost var head := retstr;
    ghost var all := QmlParamTexts(n, short);
    var num := |n.params|;
    var i := 0;
    while i < num
      invariant 0 <= i <= num
      invariant retstr == SepFold(head, all, i)
    {
      var p := n.params[i];
      var typ := QmlArgType(p);
      var piece := if short then typ else typ + " " + p.name;
      SepFoldStep(head, all, i, piece);
      retstr := retstr + piece;
      if i != num - 1 {
        retstr := retstr + Sep;
      }
      i := i + 1;
    }
    SepFoldDone(head, all);
    retstr := retstr + ")";
  }

  // ---------------------------------------------------------------------
  // glue_strings

  predicate EndsInGt(x: string)
  {
    x != "" && x[|x| - 1] == '>'
  }

  /** What the loop of `glue_strings` holds after a prefix of the pieces: the
      finished chunks and the pending text. */
  function Glued(xs: seq<string>): (seq<string>, string)
  {
    if xs == [] then ([], "")
    else
      var prev := Glued(xs[..|xs| - 1]);
      var x := xs[|xs| - 1];
      if EndsInGt(x) then (prev.0 + [prev.1 + x], "") else (prev.0, prev.1 + x)
  }

  /** `glue_strings`: pieces are appended to the pending text, and a piece
      ending in `>` closes a chunk. The source indexes `str[-1]`, which
      raises on an empty piece: that is the `None` result. */
  method GlueStrings(strings: seq<string>) returns (r: Option<seq<string>>)
    ensures r.Some? <==> forall i :: 0 <= i < |strings| ==> strings[i] != ""
    ensures r.Some? ==> r.value == Glued(strings).0
  {
    var ret := [];
    var curstr := "";
    var i := 0;
    while i < |strings|
      invariant 0 <= i <= |strings|
      invariant (ret, curstr) == Glued(strings[..i])
      invariant forall j :: 0 <= j < i ==> strings[j] != ""
    {
      var str := strings[i];
      assert strings[..i + 1][..i] == strings[..i];
      curstr := curstr + str;
      if |str| == 0 {
        return None;
      }
      if str[|str| - 1] == '>' {
        ret := ret + [curstr];
        curstr := "";
      }
      i := i + 1;
    }
    assert strings[..i] == strings;
    r := Some(ret);
  }

  /** The index just past the last piece that ends in `>` (0 if none). */
  function TailStart(xs: seq<string>): (t: nat)
    ensures t <= |xs|
  {
    if xs == [] then 0
    else if EndsInGt(xs[|xs| - 1]) then |xs|
    else TailStart(xs[..|xs| - 1])
  }

  /** Every chunk `glue_strings` closes ends in `>`. */
  lemma {:induction false} GluedChunksEndInGt(xs: seq<string>)
    ensures forall c :: c in Glued(xs).0 ==> EndsInGt(c)
  {
    if xs != [] {
      var init, x := xs[..|xs| - 1], xs[|xs| - 1];
      GluedChunksEndInGt(init);
      var cur := Glued(init).1 + x;
      if EndsInGt(x) {
        assert EndsInGt(cur) by { assert cur[|cur| - 1] == x[|x| - 1]; }
      }
    }
  }

  /** The pending text is the concatenation of the pieces after the last
      `>`-terminated one, and none of those pieces ends in `>`. */
  lemma {:induction false} GluedPending(xs: seq<string>)
    ensures Glued(xs).1 == Concat(xs[TailStart(xs)..])
    ensures forall i :: TailStart(xs) <= i < |xs| ==> !EndsInGt(xs[i])
  {
    if xs != [] {
      var n := |xs|;
      var init, x := xs[..n - 1], xs[n - 1];
      GluedPending(init);
      if EndsInGt(x) {
        assert xs[n..] == [];
      } else {
        var t := TailStart(init);
        assert xs[t..] == init[t..] + [x];
        assert (init[t..] + [x])[..|init[t..]|] == init[t..];
      }
    }
  }

  /** A piece ending in `>` closes a chunk holding everything pending, so
      the chunks then concatenate to all the pieces. */
  lemma GluedClose(xs: seq<string>)
    requires xs != [] && EndsInGt(xs[|xs| - 1])
    requires Concat(Glued(xs[..|xs| - 1]).0) == Concat(xs[..|xs| - 1][..TailStart(xs[..|xs| - 1])])
    ensures Concat(Glued(xs).0) == Concat(xs)
  {
    var n := |xs|;
    var init, x := xs[..n - 1], xs[n - 1];
    GluedPending(init);
    var prev := Glued(init);
    var cur := prev.1 + x;
    assert Glued(xs).0 == prev.0 + [cur];
    ConcatAppend(prev.0, [cur]);
    assert Concat([cur]) == cur by { assert [cur][..0] == []; }
    var t := TailStart(init);
    ConcatSplit(init, t);
    var a, b := Concat(init[..t]), Concat(init[t..]);
    assert prev.1 == b;
    assert Concat(prev.0) == a;
    assert Concat(Glued(xs).0) == a + (b + x);
    Assoc3(a, b, x);
  }

  /** The chunks concatenate to the pieces up to the last `>`-terminated
      one: the trailing pieces are dropped. */
  lemma {:induction false} GluedChunksConcat(xs: seq<string>)
    ensures Concat(Glued(xs).0) == Concat(xs[..TailStart(xs)])
  {
    if xs != [] {
      var n := |xs|;
      var init := xs[..n - 1];
      GluedChunksConcat(init);
      if EndsInGt(xs[n - 1]) {
        GluedClose(xs);
        assert xs[..n] == xs;
      } else {
        var t := TailStart(init);
        assert init[..t] == xs[..t];
      }
    }
  }

  /** The concatenated output is a prefix of the concatenated input. */
  lemma GluedIsPrefix(xs: seq<string>)
    ensures StartsWith(Concat(xs), Concat(Glued(xs).0))
  {
    GluedChunksConcat(xs);
    ConcatSplit(xs, TailStart(xs));
  }
}
