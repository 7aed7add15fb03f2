/** What the bridge method emitted by `write_adaptor_definition` does at run
    time for one request/response pair: pack the request parameters into a
    map, call the QML side, then unpack the secondary out-parameters
    fail-fast and the return value leniently. */
module Bridge {
  import opened Wrappers
  import opened Text
  import opened Descriptors
  import opened Codec

  /** What `QMetaObject::invokeMethod` yields: a failed call, or the
      `QVariant` the QML method returned. */
  datatype Reply = InvokeFailed | Replied(outArg: Variant)

  /** The value a bridge returns: nothing for a `void` bridge; `ret` as
      declared and never assigned when the bridge returns before the return
      value's extraction starts (indeterminate for a scalar type or a struct
      with scalar members); `ret` as a failed `GetArgFromMap` left it,
      possibly partly written (a struct's earlier fields, a list's earlier
      elements); or the extracted return value. */
  datatype RetVal = Void | Default | Leftover(v: Value) | Returned(v: Value)

  /** The response parameters passed back through `T& name_out`. */
  function Secondary(m: Method): (r: seq<Param>)
    ensures |m.response| > 0 ==> r == m.response[1..]
  {
    if |m.response| > 1 then m.response[1..] else []
  }

  predicate RepliedMap(r: Reply)
  {
    r.Replied? && r.outArg.Map?
  }

  /** The generated bridge body:
      - the request parameters go into `in_arg` under their names;
      - a failed invoke or a reply that is not a map raises the D-Bus error
        and returns at once, leaving every out-parameter untouched;
      - the secondary out-parameters are extracted in order, and the first
        that is missing or does not decode raises and returns, leaving the
        later ones untouched and the return value unextracted;
      - the return value is extracted last, into `ret` itself: a failure
        raises the error but the bridge still returns `ret` as the failed
        extraction left it. What that is, `leftover`, is decided by the
        runtime library's `GetArgFromMap` overload, which is not part of
        this model. */
  method CallBridge(structs: StructTable, m: Method, inArgs: seq<Value>, outArgs: seq<Value>,
                    host: (string, Variant) -> Reply, leftover: Value)
    returns (raised: bool, ret: RetVal, outs: seq<Value>, sent: Variant)
    requires |inArgs| == |m.request| && |outArgs| == |Secondary(m)|
    ensures sent == Map(EncodeFields(structs, m.request, inArgs, |inArgs|))
    ensures |outs| == |outArgs|
    ensures ret.Void? <==> |m.response| == 0
    ensures !RepliedMap(host(LowerFirst(m.name), sent)) ==>
      raised && outs == outArgs && (|m.response| > 0 ==> ret == Default)
    ensures RepliedMap(host(LowerFirst(m.name), sent)) ==>
      var om := host(LowerFirst(m.name), sent).outArg.entries;
      var secondary := DecodeFields(structs, Secondary(m), om, |Secondary(m)|);
      (secondary.None? ==>
         raised && (|m.response| > 0 ==> ret == Default) && exists k :: StoppedAt(structs, Secondary(m), om, outArgs, outs, k)) &&
      (secondary.Some? ==>
         outs == secondary.value &&
         (|m.response| == 0 ==> !raised) &&
         (|m.response| > 0 ==>
            var primary := DecodeEntry(structs, m.response[0], om);
            raised == primary.None? &&
            ret == if primary.Some? then Returned(primary.value) else Leftover(leftover)))
  {
    var retDefault := if |m.response| > 0 then Default else Void;
    var inArg := PutFields(structs, m.request, inArgs);
    sent := Map(inArg);
    var methodName := LowerFirst(m.name);
    var reply := host(methodName, sent);
    if reply.InvokeFailed? {
      return true, retDefault, outArgs, sent;
    }
    if !reply.outArg.Map? {
      return true, retDefault, outArgs, sent;
    }
    var outArg := reply.outArg.entries;
    var ok;
    ok, outs := GetFields(structs, Secondary(m), outArg, outArgs);
    if !ok {
      return true, retDefault, outs, sent;
    }
    raised, ret := false, retDefault;
    if |m.response| > 0 {
      var r := DecodeEntry(structs, m.response[0], outArg);
      if r.Some? {
        ret := Returned(r.value);
      } else {
        raised, ret := true, Leftover(leftover);
      }
    }
  }

  /** Taking fields out of a map in order succeeds with `vs` when each field
      is present and decodes to its element of `vs`. */
  lemma {:induction false} DecodeFieldsFrom(structs: StructTable, fields: seq<Param>, om: map<string, Variant>,
                                            vs: seq<Value>, n: nat)
    requires n <= |fields| && n <= |vs|
    requires forall i :: 0 <= i < n ==> DecodeEntry(structs, fields[i], om) == Some(vs[i])
    ensures DecodeFields(structs, fields, om, n) == Some(vs[..n])
  {
    if n > 0 {
      DecodeFieldsFrom(structs, fields, om, vs, n - 1);
      assert vs[..n] == vs[..n - 1] + [vs[n - 1]];
    }
  }

  /** When the QML side answers with the encoding of well-typed response
      values under distinct names, the bridge raises nothing, fills every
      out-parameter and returns the first value. */
  lemma ReplyRoundTrip(structs: StructTable, m: Method, vals: seq<Value>)
    requires DistinctFieldNames(structs) && DistinctNames(m.response)
    requires FieldsHaveTypes(structs, m.response, vals)
    ensures var om := EncodeFields(structs, m.response, vals, |vals|);
            DecodeFields(structs, Secondary(m), om, |Secondary(m)|) == Some(if |vals| > 0 then vals[1..] else []) &&
            (|vals| > 0 ==> DecodeEntry(structs, m.response[0], om) == Some(vals[0]))
  {
    var om := EncodeFields(structs, m.response, vals, |vals|);
    var sec := Secondary(m);
    var rest := if |vals| > 0 then vals[1..] else [];
    forall i | 0 <= i < |vals|
      ensures DecodeEntry(structs, m.response[i], om) == Some(vals[i])
    {
      EncodeFieldsLookup(structs, m.response, vals, |vals|, i);
      RoundTrip(structs, m.response[i], vals[i]);
    }
    forall i | 0 <= i < |sec|
      ensures DecodeEntry(structs, sec[i], om) == Some(rest[i])
    {
      assert sec[i] == m.response[i + 1];
    }
    DecodeFieldsFrom(structs, sec, om, rest, |sec|);
    assert rest[..|sec|] == rest;
  }
}
