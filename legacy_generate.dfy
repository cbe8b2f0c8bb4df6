/**
 * The generators of the legacy `ctrlgen-derive` pipeline: the message enum,
 * the dispatcher and the single struct proxy.  They differ from the live ones
 * in that every marker is a `[...]` group written after one `#`, the items
 * have no generics, the dispatcher returns `()` when no return channel is
 * configured, and the proxy sends through its field `sender`.
 */
module LegacyGenerate {
  import opened Wrappers
  import opened Syntax
  import opened Diagnostics
  import opened Model
  import opened Emit
  import opened LegacyModel
  import Generate

  // ---------------------------------------------------------------------------
  // The message enum
  // ---------------------------------------------------------------------------

  /** Each group written after one `#`: two tokens per group, in order. */
  lemma {:induction false} GroupAttrsLayout(gs: seq<Group>)
    ensures |Generate.GroupAttrs(gs)| == 2 * |gs|
    ensures forall i :: 0 <= i < |gs| ==>
      Generate.GroupAttrs(gs)[2 * i] == Punct('#') && Generate.GroupAttrs(gs)[2 * i + 1] == GroupTok(gs[i])
    decreases |gs|
  {
    if gs != [] {
      var init := gs[..|gs| - 1];
      GroupAttrsLayout(init);
      assert forall i :: 0 <= i < |init| ==> init[i] == gs[i];
    }
  }

  predicate LegacySendsReturn(m: LegacyMethod, rv: Option<Ty>) { m.ret.Some? && rv.Some? }

  /** The `ret` field: the method's return groups, each after a `#`, and the sender half of the channel. */
  function LegacyRetField(m: LegacyMethod, rv: Option<Ty>): Field
    requires LegacySendsReturn(m, rv)
  {
    Field(Generate.GroupAttrs(m.returnAttr), "ret", RetSender(rv.value, m.ret.value))
  }

  /** The variant of one method, as the loop body of `generate_enum` builds it. */
  function LegacyVariantOf(m: LegacyMethod, rv: Option<Ty>): Result<Variant, Error>
  {
    var fields :- Generate.ArgFields(m.args);
    var attrs := Generate.GroupAttrs(m.enumAttr);
    if m.ret.Some? then
      Ok(Variant(attrs, LegacyVariantName(m), if rv.Some? then fields + [LegacyRetField(m, rv)] else fields))
    else if m.returnAttr != [] then Err(Panic(ReturnAttrWithoutReturnType))
    else Ok(Variant(attrs, LegacyVariantName(m), fields))
  }

  function LegacyVariants(ms: seq<LegacyMethod>, rv: Option<Ty>): Result<seq<Variant>, Error>
    decreases |ms|
  {
    if ms == [] then Ok([])
    else
      var init :- LegacyVariants(ms[..|ms| - 1], rv);
      var v :- LegacyVariantOf(ms[|ms| - 1], rv);
      Ok(init + [v])
  }

  /** `generate_enum` as a value; `Err` is the panic that aborts expansion. */
  function LegacyEnumSpec(d: LegacyInputData): Result<EnumDef, Error>
  {
    var variants :- LegacyVariants(d.methods, d.params.returnval);
    Ok(EnumDef(Generate.GroupAttrs(d.params.enumAttr), AccessVisibility(d.params.accessMode),
      d.params.enumName, Generate.ReturnvalBounds(d.params.returnval), variants))
  }

  lemma {:induction false} LegacyVariantsErrPrefix(ms: seq<LegacyMethod>, rv: Option<Ty>, k: nat)
    requires k <= |ms| && LegacyVariants(ms[..k], rv).Err?
    ensures LegacyVariants(ms, rv) == LegacyVariants(ms[..k], rv)
    decreases |ms|
  {
    if k == |ms| {
      assert ms[..k] == ms;
    } else {
      var init := ms[..|ms| - 1];
      assert init[..k] == ms[..k];
      LegacyVariantsErrPrefix(init, rv, k);
    }
  }

  /** The body of the method loop in `generate_enum`: one variant. */
  method GenerateLegacyVariant(m: LegacyMethod, rv: Option<Ty>) returns (r: Result<Variant, Error>)
    ensures r == LegacyVariantOf(m, rv)
  {
    var name := LegacyVariantName(m);
    var fields: seq<Field> := [];
    for i := 0 to |m.args|
      invariant Generate.ArgFields(m.args[..i]) == Ok(fields)
    {
      var arg := m.args[i];
      assert m.args[..i + 1][..i] == m.args[..i];
      var ty: FieldTy;
      if !arg.toOwned {
        ty := Declared(arg.ty);
      } else if arg.ty.TyRef? {
        ty := Owned(arg.ty.elem);
      } else {
        Generate.ArgFieldsErrPrefix(m.args, i + 1);
        return Err(Panic(ToOwnedNotReference));
      }
      var attrs := Generate.GroupAttrTokens(arg.enumAttr);
      fields := fields + [Field(attrs, arg.name, ty)];
    }
    assert m.args[..|m.args|] == m.args;
    if m.ret.Some? {
      var retAttrs := Generate.GroupAttrTokens(m.returnAttr);
      if rv.Some? {
        fields := fields + [Field(retAttrs, "ret", RetSender(rv.value, m.ret.value))];
      }
    } else if m.returnAttr != [] {
      return Err(Panic(ReturnAttrWithoutReturnType));
    }
    var attrs := Generate.GroupAttrTokens(m.enumAttr);
    r := Ok(Variant(attrs, name, fields));
  }

  /** `generate_enum`. */
  method GenerateLegacyEnum(d: LegacyInputData) returns (r: Result<EnumDef, Error>)
    ensures r == LegacyEnumSpec(d)
  {
    var rv := d.params.returnval;
    var variants: seq<Variant> := [];
    for i := 0 to |d.methods|
      invariant LegacyVariants(d.methods[..i], rv) == Ok(variants)
    {
      assert d.methods[..i + 1][..i] == d.methods[..i];
      var v := GenerateLegacyVariant(d.methods[i], rv);
      if v.Err? {
        LegacyVariantsErrPrefix(d.methods, rv, i + 1);
        return Err(v.error);
      }
      variants := variants + [v.value];
    }
    assert d.methods[..|d.methods|] == d.methods;
    var customAttrs := Generate.GroupAttrTokens(d.params.enumAttr);
    var maybeWhere := if rv.Some? then [ReturnvalBound(rv.value)] else [];
    r := Ok(EnumDef(customAttrs, AccessVisibility(d.params.accessMode), d.params.enumName, maybeWhere, variants));
  }

  /**
   * One variant per method: named by `variant_name`, its enum groups in
   * front, one field per argument (the declared type, or the owned type for
   * `to_owned`) carrying the argument's groups, and a last `ret` field iff
   * the method has a return type and a return channel is configured.  A
   * `to_owned` argument that is not a reference panics first; return groups
   * on a method without a return type panic next.
   */
  lemma LegacyVariantShape(m: LegacyMethod, rv: Option<Ty>)
    ensures LegacyVariantOf(m, rv).Ok? <==>
      (forall j :: 0 <= j < |m.args| ==> Generate.ArgFieldOk(m.args[j])) && (m.ret.None? ==> m.returnAttr == [])
    ensures LegacyVariantOf(m, rv).Err? ==>
      LegacyVariantOf(m, rv).error ==
        (if exists j :: 0 <= j < |m.args| && !Generate.ArgFieldOk(m.args[j]) then Panic(ToOwnedNotReference)
         else Panic(ReturnAttrWithoutReturnType))
    ensures LegacyVariantOf(m, rv).Ok? ==>
      var v := LegacyVariantOf(m, rv).value;
      v.name == LegacyVariantName(m)
      && v.attrs == Generate.GroupAttrs(m.enumAttr)
      && |v.fields| == |m.args| + (if LegacySendsReturn(m, rv) then 1 else 0)
      && (forall j :: 0 <= j < |m.args| ==>
            v.fields[j].name == m.args[j].name
            && v.fields[j].attrs == Generate.GroupAttrs(m.args[j].enumAttr)
            && v.fields[j].ty == (if m.args[j].toOwned then Owned(m.args[j].ty.elem) else Declared(m.args[j].ty)))
      && (LegacySendsReturn(m, rv) ==> v.fields[|m.args|] == LegacyRetField(m, rv))
  {
    Generate.ArgFieldsMeaning(m.args);
    if Generate.ArgFields(m.args).Ok? {
      var fs := Generate.ArgFields(m.args).value;
      forall j | 0 <= j < |m.args|
        ensures fs[j].name == m.args[j].name && fs[j].attrs == Generate.GroupAttrs(m.args[j].enumAttr)
        ensures fs[j].ty == (if m.args[j].toOwned then Owned(m.args[j].ty.elem) else Declared(m.args[j].ty))
      {
        assert Generate.ArgFieldOk(m.args[j]);
      }
    }
  }

  lemma {:induction false} LegacyVariantsMeaning(ms: seq<LegacyMethod>, rv: Option<Ty>)
    ensures LegacyVariants(ms, rv).Ok? <==> forall i :: 0 <= i < |ms| ==> LegacyVariantOf(ms[i], rv).Ok?
    ensures LegacyVariants(ms, rv).Ok? ==>
      var vs := LegacyVariants(ms, rv).value;
      |vs| == |ms| && forall i :: 0 <= i < |ms| ==> vs[i] == LegacyVariantOf(ms[i], rv).value
    decreases |ms|
  {
    LegacyVariantsOk(ms, rv);
    if LegacyVariants(ms, rv).Ok? {
      LegacyVariantsValues(ms, rv, LegacyVariants(ms, rv).value);
    }
  }

  /** The variants are built iff every method's variant is. */
  lemma {:induction false} LegacyVariantsOk(ms: seq<LegacyMethod>, rv: Option<Ty>)
    ensures LegacyVariants(ms, rv).Ok? <==> forall i :: 0 <= i < |ms| ==> LegacyVariantOf(ms[i], rv).Ok?
    decreases |ms|
  {
    if ms != [] {
      var init := ms[..|ms| - 1];
      LegacyVariantsOk(init, rv);
      assert forall i :: 0 <= i < |init| ==> init[i] == ms[i];
    }
  }

  /** Built variants are the methods' variants, one each, in order. */
  lemma {:induction false} LegacyVariantsValues(ms: seq<LegacyMethod>, rv: Option<Ty>, vs: seq<Variant>)
    requires LegacyVariants(ms, rv) == Ok(vs)
    ensures |vs| == |ms|
    ensures forall i :: 0 <= i < |ms| ==> LegacyVariantOf(ms[i], rv).Ok? && vs[i] == LegacyVariantOf(ms[i], rv).value
    decreases |ms|
  {
    if ms != [] {
      var init := ms[..|ms| - 1];
      var prev := LegacyVariants(init, rv).value;
      LegacyVariantsValues(init, rv, prev);
      assert vs == prev + [LegacyVariantOf(ms[|ms| - 1], rv).value];
      forall i | 0 <= i < |ms| ensures LegacyVariantOf(ms[i], rv).Ok? && vs[i] == LegacyVariantOf(ms[i], rv).value {
        if i < |init| { assert init[i] == ms[i]; }
      }
    }
  }

  /**
   * The enum carries the configured groups, the access mode's visibility and
   * `where R: Returnval` iff a return channel is configured, and has one
   * variant per method in method order; it is generated iff every variant is.
   */
  lemma LegacyEnumShape(d: LegacyInputData)
    ensures LegacyEnumSpec(d).Ok? <==>
      forall i :: 0 <= i < |d.methods| ==> LegacyVariantOf(d.methods[i], d.params.returnval).Ok?
    ensures LegacyEnumSpec(d).Ok? ==>
      var e := LegacyEnumSpec(d).value;
      e.attrs == Generate.GroupAttrs(d.params.enumAttr)
      && e.visibility == AccessVisibility(d.params.accessMode) && e.name == d.params.enumName
      && (e.whereClause != [] <==> d.params.returnval.Some?)
      && (d.params.returnval.Some? ==> e.whereClause == [ReturnvalBound(d.params.returnval.value)])
      && |e.variants| == |d.methods|
      && forall i :: 0 <= i < |d.methods| ==> e.variants[i] == LegacyVariantOf(d.methods[i], d.params.returnval).value
  {
    LegacyVariantsMeaning(d.methods, d.params.returnval);
  }

  // ---------------------------------------------------------------------------
  // The dispatcher
  // ---------------------------------------------------------------------------

  /** The dispatch case of one method; without a return channel the case yields `Ok(())` or `()`. */
  function LegacyCaseOf(m: LegacyMethod, rv: Option<Ty>): CallCase
  {
    var names := Generate.ArgNames(m.args);
    if LegacySendsReturn(m, rv) then
      CallCase(LegacyVariantName(m), names + ["ret"], m.name, names, m.isAsync, SendReturn(rv.value))
    else
      CallCase(LegacyVariantName(m), names, m.name, names, m.isAsync, Evaluate(rv.Some?))
  }

  function LegacyCases(ms: seq<LegacyMethod>, rv: Option<Ty>): (cs: seq<CallCase>)
    ensures |cs| == |ms|
    ensures forall i :: 0 <= i < |ms| ==> cs[i] == LegacyCaseOf(ms[i], rv)
    decreases |ms|
  {
    if ms == [] then [] else LegacyCases(ms[..|ms| - 1], rv) + [LegacyCaseOf(ms[|ms| - 1], rv)]
  }

  /** The dispatch result: `Result<(), SendError>` with a return channel, `()` without. */
  function LegacyOutputOf(rv: Option<Ty>): OutputType
  {
    if rv.Some? then ResultWithError(SendErrorOf(rv.value)) else Unit
  }

  /** `generate_call_impl` as a value: no generic parameters and no path arguments on the struct. */
  function LegacyCallImplSpec(d: LegacyInputData): CallImpl
  {
    CallImpl(
      if HasAsyncMethods(d.methods) then CallMutAsync else CallMut,
      [], d.name, NoArguments, d.params.enumName,
      LegacyOutputOf(d.params.returnval),
      Generate.ReturnvalBounds(d.params.returnval),
      LegacyCases(d.methods, d.params.returnval))
  }

  /** The body of the method loop in `generate_call_impl`: one case. */
  method GenerateLegacyCase(m: LegacyMethod, rv: Option<Ty>) returns (c: CallCase)
    ensures c == LegacyCaseOf(m, rv)
  {
    var args := Generate.ArgumentNames(m.args);
    var callArgs := args;
    var body: CaseBody;
    if m.ret.Some? && rv.Some? {
      args := args + ["ret"];
      body := SendReturn(rv.value);
    } else {
      body := Evaluate(rv.Some?);
    }
    c := CallCase(LegacyVariantName(m), args, m.name, callArgs, m.isAsync, body);
  }

  /** `generate_call_impl`. */
  method GenerateLegacyCallImpl(d: LegacyInputData) returns (c: CallImpl)
    ensures c == LegacyCallImplSpec(d)
  {
    var rv := d.params.returnval;
    var isAsync := HasAsyncMethods(d.methods);
    var outputType := if rv.Some? then ResultWithError(SendErrorOf(rv.value)) else Unit;
    var cases: seq<CallCase> := [];
    for i := 0 to |d.methods|
      invariant cases == LegacyCases(d.methods[..i], rv)
    {
      assert d.methods[..i + 1][..i] == d.methods[..i];
      var case_ := GenerateLegacyCase(d.methods[i], rv);
      cases := cases + [case_];
    }
    assert d.methods[..|d.methods|] == d.methods;
    var maybeWhere := if rv.Some? then [ReturnvalBound(rv.value)] else [];
    c := CallImpl(if !isAsync then CallMut else CallMutAsync, [], d.name, NoArguments,
      d.params.enumName, outputType, maybeWhere, cases);
  }

  /**
   * The dispatcher is `CallMut` iff no method is async.  With a return
   * channel it returns `Result<(), SendError>`, cases of methods with a
   * return type send it back and the others end in `Ok(())`; without one it
   * returns `()` and every case ends in `()`.  It has one case per method, in
   * order, binding the argument names and `ret` last iff the return is sent.
   */
  lemma LegacyCallImplShape(d: LegacyInputData)
    ensures var c := LegacyCallImplSpec(d);
      var rv := d.params.returnval;
      (c.dispatcher == CallMut <==> forall i :: 0 <= i < |d.methods| ==> !d.methods[i].isAsync)
      && (c.output.Unit? <==> rv.None?)
      && (rv.Some? ==> c.output == ResultWithError(SendErrorOf(rv.value)))
      && (c.whereClause != [] <==> rv.Some?)
      && c.params == [] && c.structName == d.name && c.structArgs == NoArguments
      && c.enumName == d.params.enumName
      && |c.cases| == |d.methods|
      && forall i :: 0 <= i < |d.methods| ==>
           var m := d.methods[i];
           var cs := c.cases[i];
           cs.variant == LegacyVariantName(m) && cs.callee == m.name && (cs.awaited <==> m.isAsync)
           && cs.args == Generate.ArgNames(m.args)
           && cs.bindings == cs.args + (if LegacySendsReturn(m, rv) then ["ret"] else [])
           && cs.body == (if LegacySendsReturn(m, rv) then SendReturn(rv.value) else Evaluate(rv.Some?))
  {
    var c := LegacyCallImplSpec(d);
    forall i | 0 <= i < |d.methods|
      ensures c.cases[i].bindings ==
        c.cases[i].args + (if LegacySendsReturn(d.methods[i], d.params.returnval) then ["ret"] else [])
    {
      var names := Generate.ArgNames(d.methods[i].args);
      assert names + [] == names;
    }
  }

  /**
   * Where the two dispatchers part: with no return channel the live crate
   * returns `Result<(), Infallible>` and ends plain cases in `Ok(())`, the
   * legacy one returns `()` and ends them in `()`.
   */
  lemma DispatchWithoutChannel(d: LegacyInputData, m: LegacyMethod)
    requires d.params.returnval.None?
    ensures LegacyCallImplSpec(d).output == Unit
    ensures LegacyCaseOf(m, None).body == Evaluate(false)
    ensures Generate.ErrorTypeOf(None) == Infallible
  {
  }

  // ---------------------------------------------------------------------------
  // The proxy
  // ---------------------------------------------------------------------------

  /** One proxy method: the access mode's visibility, the declared argument types, and a send through `self.sender`. */
  function LegacyProxyMethodOf(m: LegacyMethod, rv: Option<Ty>, vis: Visibility): ProxyMethod
  {
    ProxyMethod([], vis, m.name, Generate.ParamsOf(m.args), LegacyVariantName(m), Generate.ArgNames(m.args),
      if LegacySendsReturn(m, rv) then RoundTrip(rv.value, m.ret.value) else SendOnly, ViaSender)
  }

  function LegacyProxyMethods(ms: seq<LegacyMethod>, rv: Option<Ty>, vis: Visibility): (pms: seq<ProxyMethod>)
    ensures |pms| == |ms|
    ensures forall i :: 0 <= i < |ms| ==> pms[i] == LegacyProxyMethodOf(ms[i], rv, vis)
    decreases |ms|
  {
    if ms == [] then [] else LegacyProxyMethods(ms[..|ms| - 1], rv, vis) + [LegacyProxyMethodOf(ms[|ms| - 1], rv, vis)]
  }

  /** `generate_proxy` as a value: the struct and one impl holding `new` and the methods. */
  function LegacyProxySpec(d: LegacyInputData, proxyName: string): seq<ProxyItem>
  {
    var vis := AccessVisibility(d.params.accessMode);
    var e := d.params.enumName;
    [StructDef(vis, proxyName, e),
     InherentImpl([SenderParam(e)], SenderInstance(proxyName), Generate.ReturnvalBounds(d.params.returnval),
       Some(vis), LegacyProxyMethods(d.methods, d.params.returnval, vis))]
  }

  method GenerateLegacyProxyMethod(m: LegacyMethod, rv: Option<Ty>, vis: Visibility) returns (pm: ProxyMethod)
    ensures pm == LegacyProxyMethodOf(m, rv, vis)
  {
    var params: seq<Param> := [];
    var names: seq<string> := [];
    for i := 0 to |m.args|
      invariant params == Generate.ParamsOf(m.args[..i]) && names == Generate.ArgNames(m.args[..i])
    {
      assert m.args[..i + 1][..i] == m.args[..i];
      params := params + [Param(m.args[i].name, m.args[i].ty)];
      names := names + [m.args[i].name];
    }
    assert m.args[..|m.args|] == m.args;
    var body := if m.ret.Some? && rv.Some? then RoundTrip(rv.value, m.ret.value) else SendOnly;
    pm := ProxyMethod([], vis, m.name, params, LegacyVariantName(m), names, body, ViaSender);
  }

  /** `generate_proxy`. */
  method GenerateLegacyProxy(d: LegacyInputData, proxyName: string) returns (items: seq<ProxyItem>)
    ensures items == LegacyProxySpec(d, proxyName)
  {
    var rv := d.params.returnval;
    var vis := AccessVisibility(d.params.accessMode);
    var e := d.params.enumName;
    var methods: seq<ProxyMethod> := [];
    for i := 0 to |d.methods|
      invariant methods == LegacyProxyMethods(d.methods[..i], rv, vis)
    {
      assert d.methods[..i + 1][..i] == d.methods[..i];
      var pm := GenerateLegacyProxyMethod(d.methods[i], rv, vis);
      methods := methods + [pm];
    }
    assert d.methods[..|d.methods|] == d.methods;
    var maybeWhere := if rv.Some? then [ReturnvalBound(rv.value)] else [];
    items := [StructDef(vis, proxyName, e),
      InherentImpl([SenderParam(e)], SenderInstance(proxyName), maybeWhere, Some(vis), methods)];
  }

  /**
   * The proxy is a struct over a `Sender: MessageSender<E>` and one impl
   * over `Name<Sender>`, bounded by `Returnval` iff a return channel is
   * configured, holding `new` and one method per method in order, each with
   * the access mode's visibility, the method's name and declared parameters,
   * sending the matching variant through `self.sender` and waiting for the
   * reply iff the return is sent back.
   */
  lemma LegacyProxyShape(d: LegacyInputData, proxyName: string)
    ensures var items := LegacyProxySpec(d, proxyName);
      var vis := AccessVisibility(d.params.accessMode);
      var rv := d.params.returnval;
      |items| == 2
      && items[0] == StructDef(vis, proxyName, d.params.enumName)
      && items[1].InherentImpl?
      && items[1].params == [SenderParam(d.params.enumName)]
      && items[1].path == SenderInstance(proxyName)
      && (items[1].whereClause != [] <==> rv.Some?)
      && items[1].newFn == Some(vis)
      && |items[1].methods| == |d.methods|
      && forall i :: 0 <= i < |d.methods| ==>
           var m := d.methods[i];
           var pm := items[1].methods[i];
           pm.visibility == vis && pm.name == m.name && pm.variant == LegacyVariantName(m)
           && |pm.params| == |m.args|
           && (forall j :: 0 <= j < |m.args| ==> pm.params[j] == Param(m.args[j].name, m.args[j].ty))
           && pm.fields == Generate.ArgNames(m.args)
           && pm.via == ViaSender
           && (pm.body.RoundTrip? <==> LegacySendsReturn(m, rv))
  {
  }
}
