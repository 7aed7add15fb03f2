/** What the slot emitted by `write_adaptor_definition` for one notification
    does at run time: decode the parameters that need it into `p_<name>`
    locals, returning without emitting if one fails, then emit the signal
    with those locals and the other parameters passed through. */
module Slot {
  import opened Wrappers
  import opened Descriptors
  import opened Signatures
  import opened Codec

  /** A signal argument: the slot's own parameter, or the decoded local. */
  datatype EmitArg = Raw(v: Variant) | Local(x: Value)

  /** The slot declares and fills a `p_<name>` local: a mandatory array or
      non-basic parameter, or any optional one. */
  predicate DeclaresLocal(p: Param)
  {
    if p.mandatory then p.isArray || !IsBasic(p) else true
  }

  /** The emit passes `p_<name>`: an array, an optional or a non-basic
      parameter. */
  predicate EmitsLocal(p: Param)
  {
    p.isArray || !p.mandatory || !IsBasic(p)
  }

  /** The slot calls `VariantToValue` on the parameter: whenever it declares
      a local, except for an optional parameter that arrived as null. */
  predicate CallsDecoder(p: Param, a: Variant)
  {
    DeclaresLocal(p) && (p.mandatory || !a.Null?)
  }

  /** The locals the decoding pass has filled: `Some` exactly for the
      parameters that declare one, holding what that parameter decodes to. */
  predicate LocalsFilled(structs: StructTable, params: seq<Param>, args: seq<Variant>, locals: seq<Option<Value>>)
    requires |locals| <= |params| && |args| == |params|
  {
    forall j :: 0 <= j < |locals| ==>
      (locals[j].Some? <==> DeclaresLocal(params[j])) &&
      (locals[j].Some? ==> Decode(structs, params[j], args[j]) == locals[j])
  }

  /** `calls` names, in increasing order, parameters below `i` whose decoder
      is called. */
  predicate CallsSound(params: seq<Param>, args: seq<Variant>, calls: seq<nat>, i: nat)
    requires |args| == |params|
  {
    (forall j :: 0 <= j < |calls| ==> calls[j] < i && calls[j] < |params| && CallsDecoder(params[calls[j]], args[calls[j]])) &&
    (forall j, k :: 0 <= j < k < |calls| ==> calls[j] < calls[k])
  }

  /** Parameter `k` is the first that declares a local and does not decode. */
  predicate FirstFailure(structs: StructTable, params: seq<Param>, args: seq<Variant>, k: nat)
    requires |args| == |params|
  {
    k < |params| && DeclaresLocal(params[k]) && Decode(structs, params[k], args[k]).None? &&
    forall j :: 0 <= j < k && DeclaresLocal(params[j]) ==> Decode(structs, params[j], args[j]).Some?
  }

  /** The slot's code for one parameter: `called` says whether it calls
      `VariantToValue`, `ok` is false when it returns without emitting, and
      `local` is the `p_<name>` local where one is declared. */
  method DecodeLocal(structs: StructTable, p: Param, a: Variant)
    returns (called: bool, ok: bool, local: Option<Value>)
    ensures called <==> CallsDecoder(p, a)
    ensures ok <==> (DeclaresLocal(p) ==> Decode(structs, p, a).Some?)
    ensures ok ==> (local.Some? <==> DeclaresLocal(p))
    ensures ok && local.Some? ==> Decode(structs, p, a) == local
  {
    if p.mandatory {
      if p.isArray || !(IsPrimitiveName(p.typeName) || p.isEnum) {
        var d := Decode(structs, p, a);
        return true, d.Some?, d;
      }
      return false, true, None;
    }
    var presence := !a.Null?;
    if !presence {
      return false, true, Some(OptVal(None));
    }
    var d := Decode(structs, p.(mandatory := true), a);
    if d.None? {
      return true, false, None;
    }
    return true, true, Some(OptVal(Some(d.value)));
  }

  lemma FilledStep(structs: StructTable, params: seq<Param>, args: seq<Variant>,
                   ls: seq<Option<Value>>, local: Option<Value>)
    requires |ls| < |params| && |args| == |params|
    requires LocalsFilled(structs, params, args, ls)
    requires local.Some? <==> DeclaresLocal(params[|ls|])
    requires local.Some? ==> Decode(structs, params[|ls|], args[|ls|]) == local
    ensures LocalsFilled(structs, params, args, ls + [local])
  {
  }

  lemma CallsStep(params: seq<Param>, args: seq<Variant>, calls: seq<nat>, i: nat, called: bool)
    requires i < |params| && |args| == |params|
    requires CallsSound(params, args, calls, i)
    requires forall j :: 0 <= j < i && CallsDecoder(params[j], args[j]) ==> j in calls
    requires called <==> CallsDecoder(params[i], args[i])
    ensures var calls' := if called then calls + [i] else calls;
            CallsSound(params, args, calls', i + 1) &&
            forall j :: 0 <= j < i + 1 && CallsDecoder(params[j], args[j]) ==> j in calls'
  {
  }

  lemma FailureStep(structs: StructTable, params: seq<Param>, args: seq<Variant>, ls: seq<Option<Value>>)
    requires |ls| < |params| && |args| == |params|
    requires LocalsFilled(structs, params, args, ls)
    requires DeclaresLocal(params[|ls|]) && Decode(structs, params[|ls|], args[|ls|]).None?
    ensures FirstFailure(structs, params, args, |ls|)
  {
    forall j | 0 <= j < |ls| && DeclaresLocal(params[j])
      ensures Decode(structs, params[j], args[j]).Some?
    {
      assert ls[j].Some?;
    }
  }

  /** The slot's code for parameter `|ls|`, after the locals `ls` and the
      decoder calls `calls` of the parameters before it. */
  method DecodeNext(structs: StructTable, params: seq<Param>, args: seq<Variant>,
                    ls: seq<Option<Value>>, calls: seq<nat>)
    returns (ok: bool, ls': seq<Option<Value>>, calls': seq<nat>)
    requires |ls| < |params| && |args| == |params|
    requires LocalsFilled(structs, params, args, ls)
    requires CallsSound(params, args, calls, |ls|)
    requires forall j :: 0 <= j < |ls| && CallsDecoder(params[j], args[j]) ==> j in calls
    ensures CallsSound(params, args, calls', |ls| + 1)
    ensures forall j :: 0 <= j <= |ls| && CallsDecoder(params[j], args[j]) ==> j in calls'
    ensures ok ==> |ls'| == |ls| + 1 && LocalsFilled(structs, params, args, ls')
    ensures !ok ==> FirstFailure(structs, params, args, |ls|)
  {
    var i := |ls|;
    var called, local;
    called, ok, local := DecodeLocal(structs, params[i], args[i]);
    CallsStep(params, args, calls, i, called);
    calls' := if called then calls + [i] else calls;
    if !ok {
      FailureStep(structs, params, args, ls);
      return false, ls, calls';
    }
    FilledStep(structs, params, args, ls, local);
    ls' := ls + [local];
  }

  /** The first part of the slot: a `p_<name>` local for each parameter that
      needs one, `presence = !isNull()` for an optional one, and a return
      without emitting at the first `VariantToValue` that fails. */
  method DecodeLocals(structs: StructTable, params: seq<Param>, args: seq<Variant>)
    returns (locals: Option<seq<Option<Value>>>, calls: seq<nat>)
    requires |args| == |params|
    ensures locals.Some? <==>
      forall i :: 0 <= i < |args| && DeclaresLocal(params[i]) ==> Decode(structs, params[i], args[i]).Some?
    ensures locals.Some? ==> |locals.value| == |params| && LocalsFilled(structs, params, args, locals.value)
    ensures CallsSound(params, args, calls, |params|)
    ensures locals.Some? ==> forall i :: 0 <= i < |args| && CallsDecoder(params[i], args[i]) ==> i in calls
    ensures locals.None? ==> exists k: nat :: FirstFailure(structs, params, args, k) && CallsSound(params, args, calls, k + 1) &&
                                              forall j :: 0 <= j <= k && CallsDecoder(params[j], args[j]) ==> j in calls
  {
    var ls: seq<Option<Value>> := [];
    calls := [];
    var i := 0;
    while i < |params|
      invariant 0 <= i <= |params| && |ls| == i
      invariant LocalsFilled(structs, params, args, ls)
      invariant CallsSound(params, args, calls, i)
      invariant forall j :: 0 <= j < i && CallsDecoder(params[j], args[j]) ==> j in calls
    {
      var ok;
      ok, ls, calls := DecodeNext(structs, params, args, ls, calls);
      if !ok {
        assert FirstFailure(structs, params, args, i);
        return None, calls;
      }
      i := i + 1;
    }
    locals := Some(ls);
  }

  /** The emit: `p_<name>` for an array, optional or non-basic parameter,
      the parameter itself otherwise. */
  method EmitArgs(structs: StructTable, params: seq<Param>, args: seq<Variant>, locals: seq<Option<Value>>)
    returns (out: seq<EmitArg>)
    requires |args| == |params| == |locals|
    requires LocalsFilled(structs, params, args, locals)
    ensures |out| == |params|
    ensures forall j :: 0 <= j < |params| ==>
      out[j] == if DeclaresLocal(params[j]) then Local(Decode(structs, params[j], args[j]).value) else Raw(args[j])
  {
    out := [];
    var i := 0;
    while i < |params|
      invariant 0 <= i <= |params| && |out| == i
      invariant forall j :: 0 <= j < i ==>
        out[j] == if DeclaresLocal(params[j]) then Local(Decode(structs, params[j], args[j]).value) else Raw(args[j])
    {
      var p := params[i];
      var basicType := IsPrimitiveName(p.typeName) || p.isEnum;
      if p.isArray || !p.mandatory || !basicType {
        out := out + [Local(locals[i].value)];
      } else {
        out := out + [Raw(args[i])];
      }
      i := i + 1;
    }
  }

  /** The generated slot body. `emitted` is the signal's argument list, or
      `None` when the slot returned without emitting; `calls` lists, in
      order, the parameters `VariantToValue` was called on. */
  method NotificationSlot(structs: StructTable, n: Notification, args: seq<Variant>)
    returns (emitted: Option<seq<EmitArg>>, calls: seq<nat>)
    requires |args| == |n.params|
    ensures emitted.Some? <==>
      forall i :: 0 <= i < |args| && DeclaresLocal(n.params[i]) ==> Decode(structs, n.params[i], args[i]).Some?
    ensures emitted.Some? ==> |emitted.value| == |args|
    ensures emitted.Some? ==> forall i :: 0 <= i < |args| ==>
      emitted.value[i] == if DeclaresLocal(n.params[i]) then Local(Decode(structs, n.params[i], args[i]).value)
                          else Raw(args[i])
    ensures CallsSound(n.params, args, calls, |args|)
    ensures emitted.Some? ==> forall i :: 0 <= i < |args| && CallsDecoder(n.params[i], args[i]) ==> i in calls
    ensures emitted.None? ==> exists k: nat :: FirstFailure(structs, n.params, args, k) && CallsSound(n.params, args, calls, k + 1) &&
                                          forall j :: 0 <= j <= k && CallsDecoder(n.params[j], args[j]) ==> j in calls
  {
    var locals;
    locals, calls := DecodeLocals(structs, n.params, args);
    if locals.None? {
      return None, calls;
    }
    var out := EmitArgs(structs, n.params, args, locals.value);
    emitted := Some(out);
  }

  /** Under a well-formed descriptor, the slot works on a local exactly for
      the parameters its QML-side signature carries as `QVariant`. */
  lemma LocalsMatchQmlSignature(p: Param)
    requires WellFormed(p)
    ensures EmitsLocal(p) <==> QmlArgType(p) == "QVariant"
    ensures DeclaresLocal(p) <==> EmitsLocal(p)
  {
  }
}
