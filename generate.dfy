/**
 * The generators of the live macro: the message enum, the `CallMut` /
 * `CallMutAsync` dispatcher and the proxies.  Each generator is a method that
 * loops over methods and arguments as the source does and is proved equal to
 * a specification function; the lemmas then say what that function yields.
 */
module Generate {
  import opened Wrappers
  import opened Syntax
  import opened Diagnostics
  import opened Model
  import opened Emit

  // ---------------------------------------------------------------------------
  // Where clauses
  // ---------------------------------------------------------------------------

  /** The predicates of a where clause, none when there is no clause. */
  function WherePredicates(g: Generics): seq<WherePredicate>
  {
    if g.whereClause.Some? then g.whereClause.value else []
  }

  /** `R: ::ctrlgen::Returnval` when a return channel is configured. */
  function ReturnvalBounds(rv: Option<Ty>): (r: seq<WherePredicate>)
    ensures |r| == (if rv.Some? then 1 else 0)
  {
    if rv.Some? then [ReturnvalBound(rv.value)] else []
  }

  /** `make_where_clause`: the impl's own predicates, then the `Returnval` bound last. */
  function MakeWhereClause(d: InputData): (w: seq<WherePredicate>)
    ensures |w| == |WherePredicates(d.generics)| + (if d.params.returnval.Some? then 1 else 0)
    ensures w[..|WherePredicates(d.generics)|] == WherePredicates(d.generics)
    ensures d.params.returnval.Some? ==> w[|w| - 1] == ReturnvalBound(d.params.returnval.value)
    ensures d.params.returnval.None? ==> w == WherePredicates(d.generics)
  {
    WherePredicates(d.generics) + ReturnvalBounds(d.params.returnval)
  }

  // ---------------------------------------------------------------------------
  // The message enum
  // ---------------------------------------------------------------------------

  /** `# #g` for each argument-level group. */
  function GroupAttrs(gs: seq<Group>): seq<Token>
    decreases |gs|
  {
    if gs == [] then [] else GroupAttrs(gs[..|gs| - 1]) + [Punct('#'), GroupTok(gs[|gs| - 1])]
  }

  /**
   * The tokens written in front of the `ret` field as the source has them
   * (generate.rs:76-78): each return attribute is already a whole `#[...]`,
   * and the template puts one more `#` before it.
   */
  function RetAttrsAsWritten(attrs: seq<Attr>): (ts: seq<Token>)
    ensures |ts| == 3 * |attrs|
    ensures attrs != [] ==> ts[0] == Punct('#') && ts[1] == Punct('#')
    decreases |attrs|
  {
    if attrs == [] then [] else [Punct('#')] + RenderAttr(attrs[0]) + RetAttrsAsWritten(attrs[1..])
  }

  /** As written, a `ret` field with return attributes starts with `# #` and is not an attribute list. */
  lemma RetAttrsAsWrittenRejected(attrs: seq<Attr>, rest: seq<Token>)
    requires attrs != []
    ensures ParseOuterAttrs(RetAttrsAsWritten(attrs) + rest) == Err(Expected("square brackets"))
  {
    var ts := RetAttrsAsWritten(attrs) + rest;
    assert ts[0] == Punct('#') && ts[1..][0] == Punct('#');
  }

  /** The corrected prefix of the `ret` field: the return attributes themselves. */
  function RetAttrs(attrs: seq<Attr>): seq<Token>
  {
    RenderAttrs(attrs)
  }

  /** Corrected, the `ret` field's prefix reads back as exactly its return attributes. */
  lemma RetAttrsReparse(attrs: seq<Attr>, rest: seq<Token>)
    requires WfAttrs(attrs)
    requires rest == [] || rest[0] != Punct('#')
    ensures ParseOuterAttrs(RetAttrs(attrs) + rest) == Ok((attrs, rest))
  {
    AttrsReparse(attrs, rest);
  }

  /** The example the two lemmas above are about: the live analyser turns `ctrlgen_return_attr[serde(skip)]` into this. */
  const SerdeSkip := Attr(AttrPath(false, ["serde"]), [GroupTok(Group(Paren, [Ident("skip")]))])

  lemma RetAttrsExample()
    ensures ParseOuterAttrs(RetAttrsAsWritten([SerdeSkip]) + [Ident("ret")]).Err?
    ensures ParseOuterAttrs(RetAttrs([SerdeSkip]) + [Ident("ret")]) == Ok(([SerdeSkip], [Ident("ret")]))
  {
    RetAttrsAsWrittenRejected([SerdeSkip], [Ident("ret")]);
    assert IsPathSegment("serde") by { assert "serde" !in KeywordsOfLength(5); }
    RetAttrsReparse([SerdeSkip], [Ident("ret")]);
  }

  /** A `to_owned` argument must have a reference type. */
  predicate ArgFieldOk(a: Argument) { !a.toOwned || a.ty.TyRef? }

  /** The field of one argument; `to_owned` on a non-reference panics. */
  function FieldOf(a: Argument): Result<Field, Error>
  {
    if !a.toOwned then Ok(Field(GroupAttrs(a.enumAttr), a.name, Declared(a.ty)))
    else if a.ty.TyRef? then Ok(Field(GroupAttrs(a.enumAttr), a.name, Owned(a.ty.elem)))
    else Err(Panic(ToOwnedNotReference))
  }

  /** The argument fields in order; the first failing argument's panic wins. */
  function ArgFields(args: seq<Argument>): Result<seq<Field>, Error>
    decreases |args|
  {
    if args == [] then Ok([])
    else
      var init :- ArgFields(args[..|args| - 1]);
      var f :- FieldOf(args[|args| - 1]);
      Ok(init + [f])
  }

  /** The method has a return channel: a return type and a configured `returnval`. */
  predicate SendsReturn(m: Method, rv: Option<Ty>) { m.ret.Some? && rv.Some? }

  function RetField(m: Method, rv: Option<Ty>): Field
    requires SendsReturn(m, rv)
  {
    Field(RetAttrs(m.returnAttr), "ret", RetSender(rv.value, m.ret.value))
  }

  /** The variant of one method: doc attrs, enum attrs, its name and fields. */
  function VariantOf(m: Method, rv: Option<Ty>): Result<Variant, Error>
  {
    var fields :- ArgFields(m.args);
    var attrs := RenderAttrs(m.docAttr) + RenderAttrs(m.enumAttr);
    if m.ret.Some? then
      Ok(Variant(attrs, VariantName(m), if rv.Some? then fields + [RetField(m, rv)] else fields))
    else if m.returnAttr != [] then Err(Panic(ReturnAttrWithoutReturnType))
    else Ok(Variant(attrs, VariantName(m), fields))
  }

  function Variants(ms: seq<Method>, rv: Option<Ty>): Result<seq<Variant>, Error>
    decreases |ms|
  {
    if ms == [] then Ok([])
    else
      var init :- Variants(ms[..|ms| - 1], rv);
      var v :- VariantOf(ms[|ms| - 1], rv);
      Ok(init + [v])
  }

  /** `generate_enum` as a value; `Err` is the panic that aborts expansion. */
  function EnumSpec(d: InputData): Result<EnumDef, Error>
  {
    var variants :- Variants(d.methods, d.params.returnval);
    Ok(EnumDef(RenderAttrs(d.params.enumAttr), d.params.visibility, d.params.enumName,
      ReturnvalBounds(d.params.returnval), variants))
  }

  lemma {:induction false} ArgFieldsErrPrefix(args: seq<Argument>, k: nat)
    requires k <= |args| && ArgFields(args[..k]).Err?
    ensures ArgFields(args) == ArgFields(args[..k])
    decreases |args|
  {
    if k == |args| {
      assert args[..k] == args;
    } else {
      var init := args[..|args| - 1];
      assert init[..k] == args[..k];
      ArgFieldsErrPrefix(init, k);
    }
  }

  lemma {:induction false} VariantsErrPrefix(ms: seq<Method>, rv: Option<Ty>, k: nat)
    requires k <= |ms| && Variants(ms[..k], rv).Err?
    ensures Variants(ms, rv) == Variants(ms[..k], rv)
    decreases |ms|
  {
    if k == |ms| {
      assert ms[..k] == ms;
    } else {
      var init := ms[..|ms| - 1];
      assert init[..k] == ms[..k];
      VariantsErrPrefix(init, rv, k);
    }
  }

  method GroupAttrTokens(gs: seq<Group>) returns (ts: seq<Token>)
    ensures ts == GroupAttrs(gs)
  {
    ts := [];
    for i := 0 to |gs|
      invariant ts == GroupAttrs(gs[..i])
    {
      assert gs[..i + 1][..i] == gs[..i];
      ts := ts + [Punct('#'), GroupTok(gs[i])];
    }
    assert gs[..|gs|] == gs;
  }

  method AttrTokens(attrs: seq<Attr>) returns (ts: seq<Token>)
    ensures ts == RenderAttrs(attrs)
  {
    ts := [];
    for i := 0 to |attrs|
      invariant ts == RenderAttrs(attrs[..i])
    {
      assert attrs[..i + 1] == attrs[..i] + [attrs[i]];
      RenderAttrsSnoc(attrs[..i], attrs[i]);
      ts := ts + RenderAttr(attrs[i]);
    }
    assert attrs[..|attrs|] == attrs;
  }

  /** The body of the method loop in `generate_enum`: one variant. */
  method GenerateVariant(m: Method, rv: Option<Ty>) returns (r: Result<Variant, Error>)
    ensures r == VariantOf(m, rv)
  {
    var name := VariantName(m);
    var fields: seq<Field> := [];
    for i := 0 to |m.args|
      invariant ArgFields(m.args[..i]) == Ok(fields)
    {
      var arg := m.args[i];
      assert m.args[..i + 1][..i] == m.args[..i];
      var ty: FieldTy;
      if !arg.toOwned {
        ty := Declared(arg.ty);
      } else if arg.ty.TyRef? {
        ty := Owned(arg.ty.elem);
      } else {
        ArgFieldsErrPrefix(m.args, i + 1);
        return Err(Panic(ToOwnedNotReference));
      }
      var attrs := GroupAttrTokens(arg.enumAttr);
      fields := fields + [Field(attrs, arg.name, ty)];
    }
    assert m.args[..|m.args|] == m.args;
    var attrs := RenderAttrs(m.docAttr) + RenderAttrs(m.enumAttr);
    if m.ret.Some? {
      var retAttrs := AttrTokens(m.returnAttr);
      if rv.Some? {
        fields := fields + [Field(retAttrs, "ret", RetSender(rv.value, m.ret.value))];
      }
    } else if m.returnAttr != [] {
      return Err(Panic(ReturnAttrWithoutReturnType));
    }
    r := Ok(Variant(attrs, name, fields));
  }

  /** `generate_enum`. */
  method GenerateEnum(d: InputData) returns (r: Result<EnumDef, Error>)
    ensures r == EnumSpec(d)
  {
    var rv := d.params.returnval;
    var variants: seq<Variant> := [];
    for i := 0 to |d.methods|
      invariant Variants(d.methods[..i], rv) == Ok(variants)
    {
      assert d.methods[..i + 1][..i] == d.methods[..i];
      var v := GenerateVariant(d.methods[i], rv);
      if v.Err? {
        VariantsErrPrefix(d.methods, rv, i + 1);
        return Err(v.error);
      }
      variants := variants + [v.value];
    }
    assert d.methods[..|d.methods|] == d.methods;
    var maybeWhere := if rv.Some? then [ReturnvalBound(rv.value)] else [];
    r := Ok(EnumDef(RenderAttrs(d.params.enumAttr), d.params.visibility, d.params.enumName, maybeWhere, variants));
  }

  /** The argument fields exist iff every `to_owned` argument is a reference; then they follow the arguments. */
  lemma {:induction false} ArgFieldsMeaning(args: seq<Argument>)
    ensures ArgFields(args).Ok? <==> forall j :: 0 <= j < |args| ==> ArgFieldOk(args[j])
    ensures ArgFields(args).Err? ==> ArgFields(args).error == Panic(ToOwnedNotReference)
    ensures ArgFields(args).Ok? ==>
      var fs := ArgFields(args).value;
      |fs| == |args| && forall j :: 0 <= j < |args| ==> fs[j] == FieldOf(args[j]).value
    decreases |args|
  {
    if args != [] {
      var init := args[..|args| - 1];
      ArgFieldsMeaning(init);
      assert forall j :: 0 <= j < |init| ==> init[j] == args[j];
      if ArgFields(init).Ok? && FieldOf(args[|args| - 1]).Ok? {
        var fs := ArgFields(args).value;
        assert fs == ArgFields(init).value + [FieldOf(args[|args| - 1]).value];
      }
    }
  }

  /**
   * One variant per method: named by `variant_name`, doc attrs then enum
   * attrs, one field per argument under its own name (the declared type, or
   * the owned type for `to_owned`), and a last `ret` field iff the method has
   * a return channel.  It panics when a `to_owned` argument is not a reference
   * (checked first) or when return attrs are put on a method without a return type.
   */
  lemma VariantShape(m: Method, rv: Option<Ty>)
    ensures VariantOf(m, rv).Ok? <==>
      (forall j :: 0 <= j < |m.args| ==> ArgFieldOk(m.args[j])) && (m.ret.None? ==> m.returnAttr == [])
    ensures VariantOf(m, rv).Err? ==>
      VariantOf(m, rv).error ==
        (if exists j :: 0 <= j < |m.args| && !ArgFieldOk(m.args[j]) then Panic(ToOwnedNotReference)
         else Panic(ReturnAttrWithoutReturnType))
    ensures VariantOf(m, rv).Ok? ==>
      var v := VariantOf(m, rv).value;
      v.name == VariantName(m)
      && v.attrs == RenderAttrs(m.docAttr) + RenderAttrs(m.enumAttr)
      && |v.fields| == |m.args| + (if SendsReturn(m, rv) then 1 else 0)
      && (forall j :: 0 <= j < |m.args| ==>
            v.fields[j].name == m.args[j].name
            && v.fields[j].attrs == GroupAttrs(m.args[j].enumAttr)
            && v.fields[j].ty == (if m.args[j].toOwned then Owned(m.args[j].ty.elem) else Declared(m.args[j].ty)))
      && (SendsReturn(m, rv) ==> v.fields[|m.args|] == RetField(m, rv))
  {
    ArgFieldsMeaning(m.args);
    if ArgFields(m.args).Ok? {
      var fs := ArgFields(m.args).value;
      forall j | 0 <= j < |m.args|
        ensures fs[j].name == m.args[j].name && fs[j].attrs == GroupAttrs(m.args[j].enumAttr)
        ensures fs[j].ty == (if m.args[j].toOwned then Owned(m.args[j].ty.elem) else Declared(m.args[j].ty))
      {
        assert ArgFieldOk(m.args[j]);
      }
    }
  }

  lemma {:induction false} VariantsMeaning(ms: seq<Method>, rv: Option<Ty>)
    ensures Variants(ms, rv).Ok? <==> forall i :: 0 <= i < |ms| ==> VariantOf(ms[i], rv).Ok?
    ensures Variants(ms, rv).Ok? ==>
      var vs := Variants(ms, rv).value;
      |vs| == |ms| && forall i :: 0 <= i < |ms| ==> vs[i] == VariantOf(ms[i], rv).value
    decreases |ms|
  {
    VariantsOk(ms, rv);
    if Variants(ms, rv).Ok? {
      VariantsValues(ms, rv, Variants(ms, rv).value);
    }
  }

  /** The variants are built iff every method's variant is. */
  lemma {:induction false} VariantsOk(ms: seq<Method>, rv: Option<Ty>)
    ensures Variants(ms, rv).Ok? <==> forall i :: 0 <= i < |ms| ==> VariantOf(ms[i], rv).Ok?
    decreases |ms|
  {
    if ms != [] {
      var init := ms[..|ms| - 1];
      VariantsOk(init, rv);
      assert forall i :: 0 <= i < |init| ==> init[i] == ms[i];
    }
  }

  /** Built variants are the methods' variants, one each, in order. */
  lemma {:induction false} VariantsValues(ms: seq<Method>, rv: Option<Ty>, vs: seq<Variant>)
    requires Variants(ms, rv) == Ok(vs)
    ensures |vs| == |ms|
    ensures forall i :: 0 <= i < |ms| ==> VariantOf(ms[i], rv).Ok? && vs[i] == VariantOf(ms[i], rv).value
    decreases |ms|
  {
    if ms != [] {
      var init := ms[..|ms| - 1];
      var prev := Variants(init, rv).value;
      VariantsValues(init, rv, prev);
      assert vs == prev + [VariantOf(ms[|ms| - 1], rv).value];
      forall i | 0 <= i < |ms| ensures VariantOf(ms[i], rv).Ok? && vs[i] == VariantOf(ms[i], rv).value {
        if i < |init| { assert init[i] == ms[i]; }
      }
    }
  }

  /**
   * The enum carries the configured enum attributes and `where R: Returnval`
   * iff a return channel is configured, and has one variant per method in
   * method order; it is generated iff every method's variant is.
   */
  lemma EnumShape(d: InputData)
    ensures EnumSpec(d).Ok? <==> forall i :: 0 <= i < |d.methods| ==> VariantOf(d.methods[i], d.params.returnval).Ok?
    ensures EnumSpec(d).Ok? ==>
      var e := EnumSpec(d).value;
      e.attrs == RenderAttrs(d.params.enumAttr)
      && e.visibility == d.params.visibility && e.name == d.params.enumName
      && (e.whereClause != [] <==> d.params.returnval.Some?)
      && (d.params.returnval.Some? ==> e.whereClause == [ReturnvalBound(d.params.returnval.value)])
      && |e.variants| == |d.methods|
      && forall i :: 0 <= i < |d.methods| ==> e.variants[i] == VariantOf(d.methods[i], d.params.returnval).value
  {
    VariantsMeaning(d.methods, d.params.returnval);
  }

  // ---------------------------------------------------------------------------
  // The dispatcher
  // ---------------------------------------------------------------------------

  function ArgNames(args: seq<Argument>): (names: seq<string>)
    ensures |names| == |args|
    ensures forall i :: 0 <= i < |args| ==> names[i] == args[i].name
    decreases |args|
  {
    if args == [] then [] else ArgNames(args[..|args| - 1]) + [args[|args| - 1].name]
  }

  /** The dispatch case of one method. */
  function CaseOf(m: Method, rv: Option<Ty>): CallCase
  {
    var names := ArgNames(m.args);
    if SendsReturn(m, rv) then
      CallCase(VariantName(m), names + ["ret"], m.name, names, m.isAsync, SendReturn(rv.value))
    else
      CallCase(VariantName(m), names, m.name, names, m.isAsync, Evaluate(true))
  }

  function Cases(ms: seq<Method>, rv: Option<Ty>): (cs: seq<CallCase>)
    ensures |cs| == |ms|
    ensures forall i :: 0 <= i < |ms| ==> cs[i] == CaseOf(ms[i], rv)
    decreases |ms|
  {
    if ms == [] then [] else Cases(ms[..|ms| - 1], rv) + [CaseOf(ms[|ms| - 1], rv)]
  }

  function ErrorTypeOf(rv: Option<Ty>): ErrorType
  {
    if rv.Some? then SendErrorOf(rv.value) else Infallible
  }

  /** `generate_call_impl` as a value. */
  function CallImplSpec(d: InputData): CallImpl
  {
    CallImpl(
      if HasAsyncFunctions(d.methods) then CallMutAsync else CallMut,
      d.generics.params, d.name, d.structArgs, d.params.enumName,
      ResultWithError(ErrorTypeOf(d.params.returnval)),
      MakeWhereClause(d),
      Cases(d.methods, d.params.returnval))
  }

  method ArgumentNames(args: seq<Argument>) returns (names: seq<string>)
    ensures names == ArgNames(args)
  {
    names := [];
    for i := 0 to |args|
      invariant names == ArgNames(args[..i])
    {
      assert args[..i + 1][..i] == args[..i];
      names := names + [args[i].name];
    }
    assert args[..|args|] == args;
  }

  /** The body of the method loop in `generate_call_impl`: one case. */
  method GenerateCase(m: Method, rv: Option<Ty>) returns (c: CallCase)
    ensures c == CaseOf(m, rv)
  {
    var args := ArgumentNames(m.args);
    var callArgs := args;
    var body: CaseBody;
    if m.ret.Some? && rv.Some? {
      args := args + ["ret"];
      body := SendReturn(rv.value);
    } else {
      body := Evaluate(true);
    }
    c := CallCase(VariantName(m), args, m.name, callArgs, m.isAsync, body);
  }

  /** `generate_call_impl`. */
  method GenerateCallImpl(d: InputData) returns (c: CallImpl)
    ensures c == CallImplSpec(d)
  {
    var rv := d.params.returnval;
    var isAsync := HasAsyncFunctions(d.methods);
    var errorType := if rv.Some? then SendErrorOf(rv.value) else Infallible;
    var cases: seq<CallCase> := [];
    for i := 0 to |d.methods|
      invariant cases == Cases(d.methods[..i], rv)
    {
      assert d.methods[..i + 1][..i] == d.methods[..i];
      var case_ := GenerateCase(d.methods[i], rv);
      cases := cases + [case_];
    }
    assert d.methods[..|d.methods|] == d.methods;
    var whereClause := MakeWhereClause(d);
    c := CallImpl(if !isAsync then CallMut else CallMutAsync, d.generics.params, d.name, d.structArgs,
      d.params.enumName, ResultWithError(errorType), whereClause, cases);
  }

  /**
   * A case binds the argument names in order, plus `ret` last iff the method
   * has a return channel; it calls the method with the arguments, awaiting
   * it iff the method is async, and either sends the result back or returns `Ok(())`.
   */
  lemma CaseShape(m: Method, rv: Option<Ty>)
    ensures var c := CaseOf(m, rv);
      c.variant == VariantName(m) && c.callee == m.name
      && |c.args| == |m.args| && (forall j :: 0 <= j < |m.args| ==> c.args[j] == m.args[j].name)
      && |c.bindings| == |m.args| + (if SendsReturn(m, rv) then 1 else 0)
      && c.bindings[..|m.args|] == c.args
      && (SendsReturn(m, rv) ==> c.bindings[|m.args|] == "ret")
      && (c.awaited <==> m.isAsync)
      && c.body == (if SendsReturn(m, rv) then SendReturn(rv.value) else Evaluate(true))
  {
  }

  /**
   * The dispatcher is `CallMut` iff no method is async; its error type is
   * the return channel's `SendError`, else `Infallible`; it has one case per
   * method, in order, and the where clause of `make_where_clause`.
   */
  lemma CallImplShape(d: InputData)
    ensures var c := CallImplSpec(d);
      (c.dispatcher == CallMut <==> forall i :: 0 <= i < |d.methods| ==> !d.methods[i].isAsync)
      && (d.params.returnval.Some? ==> c.output == ResultWithError(SendErrorOf(d.params.returnval.value)))
      && (d.params.returnval.None? ==> c.output == ResultWithError(Infallible))
      && c.params == d.generics.params && c.structName == d.name && c.structArgs == d.structArgs
      && c.enumName == d.params.enumName
      && |c.cases| == |d.methods|
      && (forall i :: 0 <= i < |d.methods| ==> c.cases[i] == CaseOf(d.methods[i], d.params.returnval))
  {
  }

  // ---------------------------------------------------------------------------
  // Proxies
  // ---------------------------------------------------------------------------

  function ParamsOf(args: seq<Argument>): (ps: seq<Param>)
    ensures |ps| == |args|
    ensures forall i :: 0 <= i < |args| ==> ps[i] == Param(args[i].name, args[i].ty)
    decreases |args|
  {
    if args == [] then [] else ParamsOf(args[..|args| - 1]) + [Param(args[|args| - 1].name, args[|args| - 1].ty)]
  }

  /** One proxy method: the arguments with their declared types, the doc attrs, and the send. */
  function ProxyMethodOf(m: Method, rv: Option<Ty>, vis: Visibility, via: SendVia): ProxyMethod
  {
    ProxyMethod(RenderAttrs(m.docAttr), vis, m.name, ParamsOf(m.args), VariantName(m), ArgNames(m.args),
      if SendsReturn(m, rv) then RoundTrip(rv.value, m.ret.value) else SendOnly, via)
  }

  function ProxyMethods(ms: seq<Method>, rv: Option<Ty>, vis: Visibility, via: SendVia): (pms: seq<ProxyMethod>)
    ensures |pms| == |ms|
    ensures forall i :: 0 <= i < |ms| ==> pms[i] == ProxyMethodOf(ms[i], rv, vis, via)
    decreases |ms|
  {
    if ms == [] then [] else ProxyMethods(ms[..|ms| - 1], rv, vis, via) + [ProxyMethodOf(ms[|ms| - 1], rv, vis, via)]
  }

  /** The where clause of a proxy impl: `Self: Proxy<E>`, the `Returnval` bound, then the impl's own predicates. */
  function ProxyImplWhere(enumName: string, rv: Option<Ty>, g: Generics): (w: seq<WherePredicate>)
    ensures |w| == 1 + |ReturnvalBounds(rv)| + |WherePredicates(g)|
    ensures w[0] == SelfProxyBound(enumName)
    ensures rv.Some? ==> w[1] == ReturnvalBound(rv.value)
    ensures w[1 + |ReturnvalBounds(rv)|..] == WherePredicates(g)
  {
    [SelfProxyBound(enumName)] + ReturnvalBounds(rv) + WherePredicates(g)
  }

  /** `generate_proxy_impl` as a value. */
  function ProxyImplSpec(d: InputData, target: ProxyImpl): ProxyItem
  {
    InherentImpl(target.generics.params, target.path,
      ProxyImplWhere(d.params.enumName, d.params.returnval, target.generics), None,
      ProxyMethods(d.methods, d.params.returnval, d.params.visibility, ViaProxyTrait(d.params.enumName)))
  }

  /** `generate_proxy_struct`: the struct, its `Proxy` impl forwarding to `sender`, and `new`. */
  function ProxyStructItems(d: InputData, name: string): seq<ProxyItem>
  {
    var e := d.params.enumName;
    [StructDef(d.params.visibility, name, e), ForwardImpl(name, e),
     InherentImpl([SenderParam(e)], SenderInstance(name), [], Some(d.params.visibility), [])]
  }

  /** `generate_proxy_trait` as a value. */
  function ProxyTraitSpec(d: InputData, name: string): seq<ProxyItem>
  {
    var e := d.params.enumName;
    [TraitDef(d.params.visibility, name, e, ProxyMethods(d.methods, d.params.returnval, Inherited, ViaSelf)),
     BlanketImpl(name, e)]
  }

  /** The impl a struct proxy gets for its methods: over `Name<Sender>` with `Sender: MessageSender<E>`. */
  function SenderProxyImpl(d: InputData, name: string): ProxyImpl
  {
    ProxyImpl(SenderInstance(name), Generics([SenderParam(d.params.enumName)], None))
  }

  /** `generate_proxy` as a value. */
  function ProxySpec(d: InputData, p: Proxy): seq<ProxyItem>
  {
    match p
    case ProxyStruct(name) => ProxyStructItems(d, name) + [ProxyImplSpec(d, SenderProxyImpl(d, name))]
    case ProxyTrait(name) => ProxyTraitSpec(d, name)
    case ProxyImplOf(target) => [ProxyImplSpec(d, target)]
  }

  function ProxiesSpec(d: InputData, ps: seq<Proxy>): seq<ProxyItem>
    decreases |ps|
  {
    if ps == [] then [] else ProxiesSpec(d, ps[..|ps| - 1]) + ProxySpec(d, ps[|ps| - 1])
  }

  method GenerateProxyMethod(m: Method, rv: Option<Ty>, vis: Visibility, via: SendVia) returns (pm: ProxyMethod)
    ensures pm == ProxyMethodOf(m, rv, vis, via)
  {
    var params: seq<Param> := [];
    var names: seq<string> := [];
    for i := 0 to |m.args|
      invariant params == ParamsOf(m.args[..i]) && names == ArgNames(m.args[..i])
    {
      assert m.args[..i + 1][..i] == m.args[..i];
      params := params + [Param(m.args[i].name, m.args[i].ty)];
      names := names + [m.args[i].name];
    }
    assert m.args[..|m.args|] == m.args;
    var body := if m.ret.Some? && rv.Some? then RoundTrip(rv.value, m.ret.value) else SendOnly;
    pm := ProxyMethod(RenderAttrs(m.docAttr), vis, m.name, params, VariantName(m), names, body, via);
  }

  /** The method loop shared by `generate_proxy_impl` and `generate_proxy_trait`. */
  method GenerateProxyMethods(ms: seq<Method>, rv: Option<Ty>, vis: Visibility, via: SendVia)
    returns (pms: seq<ProxyMethod>)
    ensures pms == ProxyMethods(ms, rv, vis, via)
  {
    pms := [];
    for i := 0 to |ms|
      invariant pms == ProxyMethods(ms[..i], rv, vis, via)
    {
      var pm := GenerateProxyMethod(ms[i], rv, vis, via);
      ProxyMethodsSnoc(ms, i, rv, vis, via);
      pms := pms + [pm];
    }
    assert ms[..|ms|] == ms;
  }

  lemma ProxyMethodsSnoc(ms: seq<Method>, i: nat, rv: Option<Ty>, vis: Visibility, via: SendVia)
    requires i < |ms|
    ensures ProxyMethods(ms[..i + 1], rv, vis, via) == ProxyMethods(ms[..i], rv, vis, via) + [ProxyMethodOf(ms[i], rv, vis, via)]
  {
    assert ms[..i + 1][..i] == ms[..i];
  }

  /** `generate_proxy_impl`. */
  method GenerateProxyImpl(d: InputData, target: ProxyImpl) returns (item: ProxyItem)
    ensures item == ProxyImplSpec(d, target)
  {
    var e := d.params.enumName;
    var methods := GenerateProxyMethods(d.methods, d.params.returnval, d.params.visibility, ViaProxyTrait(e));
    var whereClause := [SelfProxyBound(e)];
    if d.params.returnval.Some? {
      whereClause := whereClause + [ReturnvalBound(d.params.returnval.value)];
    }
    assert whereClause == [SelfProxyBound(e)] + ReturnvalBounds(d.params.returnval);
    var base := whereClause;
    var preds := WherePredicates(target.generics);
    for i := 0 to |preds|
      invariant whereClause == base + preds[..i]
    {
      assert preds[..i + 1] == preds[..i] + [preds[i]];
      whereClause := whereClause + [preds[i]];
    }
    assert preds[..|preds|] == preds;
    item := InherentImpl(target.generics.params, target.path, whereClause, None, methods);
  }

  /** `generate_proxy_trait`. */
  method GenerateProxyTrait(d: InputData, name: string) returns (items: seq<ProxyItem>)
    ensures items == ProxyTraitSpec(d, name)
  {
    var e := d.params.enumName;
    var methods := GenerateProxyMethods(d.methods, d.params.returnval, Inherited, ViaSelf);
    // The source builds this where clause and then never emits it.
    var whereClause := [SelfProxyBound(e)] + ReturnvalBounds(d.params.returnval);
    items := [TraitDef(d.params.visibility, name, e, methods), BlanketImpl(name, e)];
  }

  /** `generate_proxy`. */
  method GenerateProxy(d: InputData, p: Proxy) returns (items: seq<ProxyItem>)
    ensures items == ProxySpec(d, p)
  {
    match p {
      case ProxyStruct(name) =>
        var methodsImpl := GenerateProxyImpl(d, SenderProxyImpl(d, name));
        items := ProxyStructItems(d, name) + [methodsImpl];
      case ProxyTrait(name) =>
        items := GenerateProxyTrait(d, name);
      case ProxyImplOf(target) =>
        var item := GenerateProxyImpl(d, target);
        items := [item];
    }
  }

  /** `generate_proxies`. */
  method GenerateProxies(d: InputData) returns (items: seq<ProxyItem>)
    ensures items == ProxiesSpec(d, d.params.proxies)
  {
    var ps := d.params.proxies;
    items := [];
    for i := 0 to |ps|
      invariant items == ProxiesSpec(d, ps[..i])
    {
      assert ps[..i + 1][..i] == ps[..i];
      var more := GenerateProxy(d, ps[i]);
      items := items + more;
    }
    assert ps[..|ps|] == ps;
  }

  /** Proxies are emitted in configuration order: the items of `a + b` are those of `a`, then those of `b`. */
  lemma {:induction false} ProxiesInOrder(d: InputData, a: seq<Proxy>, b: seq<Proxy>)
    ensures ProxiesSpec(d, a + b) == ProxiesSpec(d, a) + ProxiesSpec(d, b)
    decreases |b|
  {
    if b == [] {
      assert a + b == a;
    } else {
      var b' := b[..|b| - 1];
      assert (a + b)[..|a + b| - 1] == a + b';
      assert (a + b)[|a + b| - 1] == b[|b| - 1];
      ProxiesInOrder(d, a, b');
      AppendAssoc(ProxiesSpec(d, a), ProxiesSpec(d, b'), ProxySpec(d, b[|b| - 1]));
    }
  }

  /**
   * A struct proxy gives the struct, its forwarding `Proxy` impl, `new`, and
   * a method impl over `Name<Sender>`; a trait proxy gives the trait with
   * undecorated methods calling `Self::send`, then the blanket impl; an impl
   * proxy gives its method impl alone.  Method impls are bounded by
   * `Self: Proxy<E>`, then `Returnval`, then their own predicates, while the
   * trait carries no where clause.
   */
  lemma ProxyShapes(d: InputData, p: Proxy)
    ensures p.ProxyStruct? ==>
      var items := ProxySpec(d, p);
      |items| == 4
      && items[0] == StructDef(d.params.visibility, p.name, d.params.enumName)
      && items[1] == ForwardImpl(p.name, d.params.enumName)
      && items[2] == InherentImpl([SenderParam(d.params.enumName)], SenderInstance(p.name), [], Some(d.params.visibility), [])
      && items[3].InherentImpl? && items[3].path == SenderInstance(p.name)
      && items[3].params == [SenderParam(d.params.enumName)]
      && items[3].whereClause == [SelfProxyBound(d.params.enumName)] + ReturnvalBounds(d.params.returnval)
      && items[3].methods == ProxyMethods(d.methods, d.params.returnval, d.params.visibility, ViaProxyTrait(d.params.enumName))
    ensures p.ProxyTrait? ==>
      var items := ProxySpec(d, p);
      |items| == 2 && items[0].TraitDef? && items[0].name == p.name
      && items[0].methods == ProxyMethods(d.methods, d.params.returnval, Inherited, ViaSelf)
      && items[1] == BlanketImpl(p.name, d.params.enumName)
    ensures p.ProxyImplOf? ==>
      var items := ProxySpec(d, p);
      |items| == 1 && items[0].InherentImpl? && items[0].path == p.target.path && items[0].newFn.None?
      && items[0].whereClause ==
           [SelfProxyBound(d.params.enumName)] + ReturnvalBounds(d.params.returnval) + WherePredicates(p.target.generics)
  {
  }

  /**
   * A proxy method takes the arguments in order with their declared types
   * (never the owned conversion), carries the doc attrs, builds the variant
   * from the argument names, and goes through the return channel iff the
   * method has one.
   */
  lemma ProxyMethodShape(m: Method, rv: Option<Ty>, vis: Visibility, via: SendVia)
    ensures var pm := ProxyMethodOf(m, rv, vis, via);
      pm.attrs == RenderAttrs(m.docAttr) && pm.name == m.name && pm.variant == VariantName(m)
      && |pm.params| == |m.args|
      && (forall j :: 0 <= j < |m.args| ==> pm.params[j].name == m.args[j].name && pm.params[j].ty == m.args[j].ty)
      && pm.fields == ArgNames(m.args)
      && (pm.body.RoundTrip? <==> SendsReturn(m, rv))
      && (SendsReturn(m, rv) ==> pm.body == RoundTrip(rv.value, m.ret.value))
  {
  }
}
