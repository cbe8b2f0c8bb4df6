/**
 * The analyzer of the live crate: it checks an inherent impl block, reads
 * each method's signature into a `Method`, and strips the macro-only
 * attributes from the block in place.
 *
 * Each loop of the source is a method proved equal to a recursive
 * specification function that walks the rest of its input; the
 * specification functions also say how far the block was stripped when
 * an error stops the walk.
 */
module ParseInput {
  import opened Wrappers
  import opened Syntax
  import opened Diagnostics
  import opened Model
  import opened Items

  // ---------------------------------------------------------------------------
  // Method attributes
  // ---------------------------------------------------------------------------

  /** The two method-level markers, `ctrlgen_enum_attr` and `ctrlgen_return_attr`. */
  predicate IsMarker(a: Attr)
  {
    HasName(a, "ctrlgen_enum_attr") || HasName(a, "ctrlgen_return_attr")
  }

  function LeadingGroup(ts: seq<Token>): (r: Option<Group>)
    ensures r.Some? <==> |ts| > 0 && ts[0].GroupTok?
    ensures r.Some? ==> r.value == ts[0].g
  {
    if |ts| > 0 && ts[0].GroupTok? then Some(ts[0].g) else None
  }

  /**
   * `parse_quote! { # #g }` read as one attribute: `g` must be a `[...]`
   * group holding an attribute body, or the expansion panics.
   */
  function QuoteAttr(g: Group): Result<Attr, Error>
  {
    if g.delim != Bracket then Err(Panic(BadAttributeGroup))
    else
      match ParseAttrBody(g.stream)
      case Ok(a) => Ok(a)
      case Err(_) => Err(Panic(BadAttributeGroup))
  }

  /** A well-formed attribute, written as the group of a marker, is quoted back to itself. */
  lemma QuoteRendered(a: Attr)
    requires WfAttr(a)
    ensures QuoteAttr(Group(Bracket, AttrBody(a))) == Ok(a)
  {
    PathReparses(a.path, a.tokens);
  }

  /** Quoting agrees with reading `# g` as outer attributes: exactly one attribute and nothing else. */
  lemma QuoteIsOuterAttr(g: Group)
    ensures QuoteAttr(g).Ok? <==> ParseOuterAttrs([Punct('#'), GroupTok(g)]).Ok?
    ensures QuoteAttr(g).Ok? ==> ParseOuterAttrs([Punct('#'), GroupTok(g)]) == Ok(([QuoteAttr(g).value], []))
  {
    var ts := [Punct('#'), GroupTok(g)];
    assert ts[1..] == [GroupTok(g)] && ts[2..] == [];
    assert ParseOuterAttrs(ts[2..]) == Ok(([], []));
    if QuoteAttr(g).Ok? {
      assert [QuoteAttr(g).value] + [] == [QuoteAttr(g).value];
    }
  }

  /** The attribute a marker contributes, or why it contributes none. */
  function MarkerAttr(a: Attr): Result<Attr, Error>
  {
    match LeadingGroup(a.tokens)
    case None => Err(BadMarkerGroup)
    case Some(g) => QuoteAttr(g)
  }

  datatype Collected = Collected(enumAttr: seq<Attr>, returnAttr: seq<Attr>, docAttr: seq<Attr>)

  /** One round of the loop over the method's attributes. */
  function CollectStep(a: Attr, c: Collected): Result<Collected, Error>
  {
    if IsMarker(a) then
      var q :- MarkerAttr(a);
      if HasName(a, "ctrlgen_enum_attr") then Ok(c.(enumAttr := c.enumAttr + [q]))
      else Ok(c.(returnAttr := c.returnAttr + [q]))
    else if HasName(a, "doc") then Ok(c.(docAttr := c.docAttr + [a]))
    else Ok(c)
  }

  /** The rest of that loop, from the attributes still to visit and what has been collected. */
  function CollectFrom(attrs: seq<Attr>, c: Collected): Result<Collected, Error>
    decreases |attrs|
  {
    if attrs == [] then Ok(c)
    else
      var c' :- CollectStep(attrs[0], c);
      CollectFrom(attrs[1..], c')
  }

  /** The method's attributes once the markers are removed. */
  function StripMarkers(attrs: seq<Attr>): (r: seq<Attr>)
    ensures |r| <= |attrs|
    decreases |attrs|
  {
    if attrs == [] then []
    else (if IsMarker(attrs[0]) then [] else [attrs[0]]) + StripMarkers(attrs[1..])
  }

  /** The attributes kept are exactly those that are not markers. */
  lemma {:induction false} StripMarkersKeeps(attrs: seq<Attr>)
    ensures forall a :: a in StripMarkers(attrs) <==> a in attrs && !IsMarker(a)
    decreases |attrs|
  {
    if attrs != [] {
      StripMarkersKeeps(attrs[1..]);
      assert forall a :: a in attrs <==> a == attrs[0] || a in attrs[1..];
    }
  }

  // ---------------------------------------------------------------------------
  // Method inputs
  // ---------------------------------------------------------------------------

  /** The markers read for one typed argument. */
  datatype ArgMarks = ArgMarks(enumAttr: seq<Group>, toOwned: bool)

  const NoMarks := ArgMarks([], false)

  /** One round of the loop that reads argument markers. */
  function ArgMarkStep(a: Attr, m: ArgMarks): Result<ArgMarks, Error>
  {
    if HasName(a, "ctrlgen_enum_attr") then
      match LeadingGroup(a.tokens)
      case None => Err(BadArgEnumAttr)
      case Some(g) => Ok(m.(enumAttr := m.enumAttr + [g]))
    else if HasName(a, "ctrlgen_to_owned") then
      if a.tokens != [] then Err(ToOwnedWithTokens) else Ok(m.(toOwned := true))
    else Ok(m)
  }

  function ArgMarksFrom(attrs: seq<Attr>, m: ArgMarks): Result<ArgMarks, Error>
    decreases |attrs|
  {
    if attrs == [] then Ok(m)
    else
      var m' :- ArgMarkStep(attrs[0], m);
      ArgMarksFrom(attrs[1..], m')
  }

  predicate IsArgMarker(a: Attr)
  {
    HasName(a, "ctrlgen_enum_attr") || HasName(a, "ctrlgen_to_owned")
  }

  /** An argument's attributes once the argument markers are removed. */
  function StripArgMarkers(attrs: seq<Attr>): (r: seq<Attr>)
    ensures |r| <= |attrs|
    decreases |attrs|
  {
    if attrs == [] then []
    else (if IsArgMarker(attrs[0]) then [] else [attrs[0]]) + StripArgMarkers(attrs[1..])
  }

  /** An argument keeps exactly those of its attributes that are not argument markers. */
  lemma {:induction false} StripArgMarkersKeeps(attrs: seq<Attr>)
    ensures forall a :: a in StripArgMarkers(attrs) <==> a in attrs && !IsArgMarker(a)
    decreases |attrs|
  {
    if attrs != [] {
      StripArgMarkersKeeps(attrs[1..]);
      assert forall a :: a in attrs <==> a == attrs[0] || a in attrs[1..];
    }
  }

  /** What every input of one method is read against. */
  datatype ArgCtx = ArgCtx(returnvalMode: bool, methodName: string, methodAttrs: seq<Attr>)

  /** The receiver seen so far and the arguments read so far. */
  datatype InputsState = InputsState(style: Option<ReceiverStyle>, args: seq<Argument>)

  function ReceiverStyleOf(reference: Option<Option<string>>, mutability: bool): Result<ReceiverStyle, Error>
  {
    if reference.Some? then
      if reference.value.Some? then Err(ReceiverLifetime)
      else if mutability then Ok(Mut)
      else Ok(Ref)
    else Ok(Move)
  }

  function ArgumentOf(pat: Pat, ty: Ty, marks: ArgMarks, ctx: ArgCtx): Result<Argument, Error>
  {
    match pat
    case PatIdent(byRef, _, ident) =>
      if byRef then Err(RefArgument)
      else if ctx.returnvalMode && ident == "ret" then Err(RetArgument(ctx.methodName))
      else Ok(Argument(ident, ty, marks.enumAttr, marks.toOwned))
    case PatOther(_) => Err(PatternArgument)
  }

  /** The input with its argument markers removed (a receiver keeps its attributes). */
  function StripInput(input: FnArg): FnArg
  {
    match input
    case Receiver(_, _, _) => input
    case Typed(attrs, pat, ty) => Typed(StripArgMarkers(attrs), pat, ty)
  }

  /** One round of the loop over the inputs, with the input as that round leaves it. */
  function InputStep(input: FnArg, ctx: ArgCtx, st: InputsState): (Result<InputsState, Error>, FnArg)
  {
    match input
    case Receiver(_, reference, mutability) =>
      (match ReceiverStyleOf(reference, mutability)
       case Err(e) => Err(e)
       case Ok(s) => Ok(st.(style := Some(s))), input)
    case Typed(_, pat, ty) =>
      match ArgMarksFrom(ctx.methodAttrs, NoMarks)
      case Err(e) => (Err(e), input)
      case Ok(marks) =>
        (match ArgumentOf(pat, ty, marks, ctx)
         case Err(e) => Err(e)
         case Ok(arg) => Ok(st.(args := st.args + [arg])), StripInput(input))
  }

  /** The rest of the loop over the inputs, with the inputs as the loop leaves them. */
  function InputsFrom(inputs: seq<FnArg>, ctx: ArgCtx, st: InputsState): (r: (Result<InputsState, Error>, seq<FnArg>))
    ensures |r.1| == |inputs|
    decreases |inputs|
  {
    if inputs == [] then (Ok(st), [])
    else
      var step := InputStep(inputs[0], ctx, st);
      if step.0.Err? then (step.0, [step.1] + inputs[1..])
      else
        var tail := InputsFrom(inputs[1..], ctx, step.0.value);
        (tail.0, [step.1] + tail.1)
  }

  function Prefixed(p: seq<FnArg>, r: (Result<InputsState, Error>, seq<FnArg>)): (Result<InputsState, Error>, seq<FnArg>)
  {
    (r.0, p + r.1)
  }

  /** An input the loop takes in its stride. */
  lemma InputsStepOk(inputs: seq<FnArg>, i: nat, done: seq<FnArg>, ctx: ArgCtx, st: InputsState)
    requires i < |inputs|
    requires InputStep(inputs[i], ctx, st).0.Ok?
    ensures Prefixed(done, InputsFrom(inputs[i..], ctx, st))
         == Prefixed(done + [InputStep(inputs[i], ctx, st).1], InputsFrom(inputs[i + 1..], ctx, InputStep(inputs[i], ctx, st).0.value))
  {
    var step := InputStep(inputs[i], ctx, st);
    var tail := InputsFrom(inputs[i + 1..], ctx, step.0.value);
    assert inputs[i..] == [inputs[i]] + inputs[i + 1..];
    assert InputsFrom(inputs[i..], ctx, st) == (tail.0, [step.1] + tail.1);
    assert done + ([step.1] + tail.1) == (done + [step.1]) + tail.1;
  }

  /** An input that stops the loop: the inputs after it are left as they were. */
  lemma InputsStepErr(inputs: seq<FnArg>, i: nat, done: seq<FnArg>, ctx: ArgCtx, st: InputsState)
    requires i < |inputs|
    requires InputStep(inputs[i], ctx, st).0.Err?
    ensures Prefixed(done, InputsFrom(inputs[i..], ctx, st))
         == (InputStep(inputs[i], ctx, st).0, done + [InputStep(inputs[i], ctx, st).1] + inputs[i + 1..])
  {
    var step := InputStep(inputs[i], ctx, st);
    assert inputs[i..] == [inputs[i]] + inputs[i + 1..];
    assert InputsFrom(inputs[i..], ctx, st) == (step.0, [step.1] + inputs[i + 1..]);
    assert done + ([step.1] + inputs[i + 1..]) == done + [step.1] + inputs[i + 1..];
  }

  // ---------------------------------------------------------------------------
  // One method
  // ---------------------------------------------------------------------------

  /** The signature checks, in the order the source makes them. */
  function SigCheck(sig: Signature, returnvalMode: bool): Option<Error>
  {
    if sig.constness then Some(ConstMethod)
    else if sig.unsafety then Some(UnsafeMethod)
    else if sig.abi.Some? then Some(AbiMethod)
    else if |sig.generics.params| > 0 then Some(GenericMethod)
    else if sig.variadic then Some(VariadicMethod)
    else if !returnvalMode && sig.output.Some? then Some(ReturnWithoutReturnval)
    else None
  }

  /** The outcome for one method, with its signature and attributes as the analyzer leaves them. */
  datatype MethodParse = MethodParse(result: Result<Method, Error>, sig: Signature, attrs: seq<Attr>)

  function MethodSpec(sig: Signature, attrs: seq<Attr>, returnvalMode: bool): MethodParse
  {
    match SigCheck(sig, returnvalMode)
    case Some(e) => MethodParse(Err(e), sig, attrs)
    case None =>
      match CollectFrom(attrs, Collected([], [], []))
      case Err(e) => MethodParse(Err(e), sig, attrs)
      case Ok(c) =>
        var kept := StripMarkers(attrs);
        var ins := InputsFrom(sig.inputs, ArgCtx(returnvalMode, sig.ident, kept), InputsState(None, []));
        var sig' := sig.(inputs := ins.1);
        match ins.0
        case Err(e) => MethodParse(Err(e), sig', kept)
        case Ok(st) =>
          if st.style.None? then MethodParse(Err(NoReceiver), sig', kept)
          else MethodParse(
            Ok(Method(sig.ident, st.style.value, st.args, sig.output, c.enumAttr, c.returnAttr, c.docAttr, sig.asyncness)),
            sig', kept)
  }

  // ---------------------------------------------------------------------------
  // The impl block
  // ---------------------------------------------------------------------------

  /** The type name and its generic arguments, when the self type is a one-segment path. */
  function SelfTypeOf(t: Ty): Result<(string, PathArguments), Error>
  {
    match t
    case TyPath(qself, p) =>
      if qself then Err(TrickyType)
      else if |p.segments| != 1 then Err(NotSingleSegment)
      else Ok((p.segments[0].ident, p.segments[0].arguments))
    case _ => Err(NotSimpleType)
  }

  /** One round of the loop over the items, with the item as that round leaves it. */
  function ItemStep(item: ImplItem, returnvalMode: bool, methods: seq<Method>): (Result<seq<Method>, Error>, ImplItem)
  {
    match item
    case OtherItem(_) => (Ok(methods), item)
    case MethodItem(attrs, defaultness, sig, block) =>
      if defaultness then (Err(Panic(DefaultMethod)), item)
      else
        var p := MethodSpec(sig, attrs, returnvalMode);
        (match p.result
         case Err(e) => Err(e)
         case Ok(m) => Ok(methods + [m]), MethodItem(p.attrs, defaultness, p.sig, block))
  }

  /** The rest of the loop over the items, with the items as the loop leaves them. */
  function ItemsFrom(items: seq<ImplItem>, returnvalMode: bool, methods: seq<Method>): (r: (Result<seq<Method>, Error>, seq<ImplItem>))
    ensures |r.1| == |items|
    decreases |items|
  {
    if items == [] then (Ok(methods), [])
    else
      var step := ItemStep(items[0], returnvalMode, methods);
      if step.0.Err? then (step.0, [step.1] + items[1..])
      else
        var tail := ItemsFrom(items[1..], returnvalMode, step.0.value);
        (tail.0, [step.1] + tail.1)
  }

  function PrefixedItems(p: seq<ImplItem>, r: (Result<seq<Method>, Error>, seq<ImplItem>)): (Result<seq<Method>, Error>, seq<ImplItem>)
  {
    (r.0, p + r.1)
  }

  lemma ItemsStepOk(items: seq<ImplItem>, k: nat, done: seq<ImplItem>, returnvalMode: bool, methods: seq<Method>)
    requires k < |items|
    requires ItemStep(items[k], returnvalMode, methods).0.Ok?
    ensures PrefixedItems(done, ItemsFrom(items[k..], returnvalMode, methods))
         == PrefixedItems(done + [ItemStep(items[k], returnvalMode, methods).1],
                          ItemsFrom(items[k + 1..], returnvalMode, ItemStep(items[k], returnvalMode, methods).0.value))
  {
    var step := ItemStep(items[k], returnvalMode, methods);
    var tail := ItemsFrom(items[k + 1..], returnvalMode, step.0.value);
    assert items[k..] == [items[k]] + items[k + 1..];
    assert ItemsFrom(items[k..], returnvalMode, methods) == (tail.0, [step.1] + tail.1);
    assert done + ([step.1] + tail.1) == (done + [step.1]) + tail.1;
  }

  lemma ItemsStepErr(items: seq<ImplItem>, k: nat, done: seq<ImplItem>, returnvalMode: bool, methods: seq<Method>)
    requires k < |items|
    requires ItemStep(items[k], returnvalMode, methods).0.Err?
    ensures PrefixedItems(done, ItemsFrom(items[k..], returnvalMode, methods))
         == (ItemStep(items[k], returnvalMode, methods).0, done + [ItemStep(items[k], returnvalMode, methods).1] + items[k + 1..])
  {
    var step := ItemStep(items[k], returnvalMode, methods);
    assert items[k..] == [items[k]] + items[k + 1..];
    assert ItemsFrom(items[k..], returnvalMode, methods) == (step.0, [step.1] + items[k + 1..]);
    assert done + ([step.1] + items[k + 1..]) == done + [step.1] + items[k + 1..];
  }

  datatype ImplParse = ImplParse(result: Result<InputData, Error>, items: seq<ImplItem>)

  function ImplSpec(item: ItemImpl, params: Params): ImplParse
  {
    if item.defaultness then ImplParse(Err(DefaultImpl), item.items)
    else if item.unsafety then ImplParse(Err(UnsafeImpl), item.items)
    else if item.traitPath.Some? then ImplParse(Err(TraitImpl), item.items)
    else
      match SelfTypeOf(item.selfTy)
      case Err(e) => ImplParse(Err(e), item.items)
      case Ok(nt) =>
        var ms := ItemsFrom(item.items, params.returnval.Some?, []);
        ImplParse(
          match ms.0
          case Err(e) => Err(e)
          case Ok(methods) => Ok(InputData(nt.0, item.generics, nt.1, methods, params)),
          ms.1)
  }

  // ---------------------------------------------------------------------------
  // The analyzer
  // ---------------------------------------------------------------------------

  /** Overwriting element `i` of a sequence whose tail from `i` on is `orig`'s. */
  lemma UpdateAt<T>(before: seq<T>, orig: seq<T>, i: nat, x: T)
    requires i < |before| == |orig| && before[i..] == orig[i..]
    ensures |before[i := x]| == |orig|
    ensures before[i := x][..i + 1] == before[..i] + [x]
    ensures before[i := x][i + 1..] == orig[i + 1..]
    ensures before[i := x] == before[..i] + [x] + orig[i + 1..]
  {
    assert before[i + 1..] == orig[i..][1..];
  }

  /** The markers of one typed argument, read from the (already stripped) method attributes. */
  method ReadArgMarks(attrs: seq<Attr>) returns (r: Result<ArgMarks, Error>)
    ensures r == ArgMarksFrom(attrs, NoMarks)
  {
    var enumAttr: seq<Group> := [];
    var toOwned := false;
    for i := 0 to |attrs|
      invariant ArgMarksFrom(attrs[i..], ArgMarks(enumAttr, toOwned)) == ArgMarksFrom(attrs, NoMarks)
    {
      assert attrs[i..][1..] == attrs[i + 1..];
      var a := attrs[i];
      if HasName(a, "ctrlgen_enum_attr") {
        if |a.tokens| > 0 && a.tokens[0].GroupTok? {
          enumAttr := enumAttr + [a.tokens[0].g];
        } else {
          return Err(BadArgEnumAttr);
        }
      } else if HasName(a, "ctrlgen_to_owned") {
        if a.tokens != [] {
          return Err(ToOwnedWithTokens);
        }
        toOwned := true;
      }
    }
    r := Ok(ArgMarks(enumAttr, toOwned));
  }

  /** Collects the markers and doc comments of a method, in order. */
  method CollectAttrs(attrs: seq<Attr>) returns (r: Result<Collected, Error>)
    ensures r == CollectFrom(attrs, Collected([], [], []))
  {
    var enumAttr: seq<Attr> := [];
    var returnAttr: seq<Attr> := [];
    var docAttr: seq<Attr> := [];
    for i := 0 to |attrs|
      invariant CollectFrom(attrs[i..], Collected(enumAttr, returnAttr, docAttr)) == CollectFrom(attrs, Collected([], [], []))
    {
      assert attrs[i..][1..] == attrs[i + 1..];
      var a := attrs[i];
      var name := GetIdent(a.path);
      if name == Some("ctrlgen_enum_attr") || name == Some("ctrlgen_return_attr") {
        if !(|a.tokens| > 0 && a.tokens[0].GroupTok?) {
          return Err(BadMarkerGroup);
        }
        var q := QuoteAttr(a.tokens[0].g);
        if q.Err? {
          return Err(q.error);
        }
        if name == Some("ctrlgen_enum_attr") {
          enumAttr := enumAttr + [q.value];
        } else {
          returnAttr := returnAttr + [q.value];
        }
      } else if name == Some("doc") {
        docAttr := docAttr + [a];
      }
    }
    r := Ok(Collected(enumAttr, returnAttr, docAttr));
  }

  /** One round of the loop over a method's inputs. */
  method ReadInput(input: FnArg, ctx: ArgCtx, st: InputsState) returns (r: Result<InputsState, Error>, newInput: FnArg)
    ensures (r, newInput) == InputStep(input, ctx, st)
  {
    newInput := input;
    match input {
      case Receiver(_, reference, mutability) =>
        if reference.Some? {
          if reference.value.Some? {
            return Err(ReceiverLifetime), newInput;
          }
          r := Ok(st.(style := if mutability then Some(Mut) else Some(Ref)));
        } else {
          r := Ok(st.(style := Some(Move)));
        }
      case Typed(argAttrs, pat, ty) =>
        var marks := ReadArgMarks(ctx.methodAttrs);
        if marks.Err? {
          return Err(marks.error), newInput;
        }
        newInput := Typed(StripArgMarkers(argAttrs), pat, ty);
        match pat {
          case PatIdent(byRef, _, ident) =>
            if byRef {
              return Err(RefArgument), newInput;
            }
            if ctx.returnvalMode && ident == "ret" {
              return Err(RetArgument(ctx.methodName)), newInput;
            }
            r := Ok(st.(args := st.args + [Argument(ident, ty, marks.value.enumAttr, marks.value.toOwned)]));
          case PatOther(_) =>
            r := Err(PatternArgument);
        }
    }
  }

  /**
   * `parse_method`: reads one method, and returns its signature and
   * attributes as they are left behind (markers removed).
   */
  method ParseMethod(sig: Signature, attrs: seq<Attr>, returnvalMode: bool)
    returns (r: Result<Method, Error>, newSig: Signature, newAttrs: seq<Attr>)
    ensures MethodParse(r, newSig, newAttrs) == MethodSpec(sig, attrs, returnvalMode)
  {
    newSig, newAttrs := sig, attrs;
    var check := SigCheck(sig, returnvalMode);
    if check.Some? {
      return Err(check.value), newSig, newAttrs;
    }
    var collected := CollectAttrs(attrs);
    if collected.Err? {
      return Err(collected.error), newSig, newAttrs;
    }
    newAttrs := StripMarkers(attrs);
    var ctx := ArgCtx(returnvalMode, sig.ident, newAttrs);
    var inputs := sig.inputs;
    var style: Option<ReceiverStyle> := None;
    var args: seq<Argument> := [];
    assert sig.inputs[0..] == sig.inputs && inputs[..0] == [];
    ghost var whole := InputsFrom(sig.inputs, ctx, InputsState(None, []));
    assert [] + whole.1 == whole.1;
    for i := 0 to |inputs|
      invariant |inputs| == |sig.inputs| && inputs[i..] == sig.inputs[i..]
      invariant Prefixed(inputs[..i], InputsFrom(sig.inputs[i..], ctx, InputsState(style, args))) == whole
    {
      ghost var before := inputs;
      assert before[i] == sig.inputs[i] by { assert before[i..][0] == sig.inputs[i..][0]; }
      var step, input := ReadInput(inputs[i], ctx, InputsState(style, args));
      UpdateAt(before, sig.inputs, i, input);
      if step.Err? {
        InputsStepErr(sig.inputs, i, before[..i], ctx, InputsState(style, args));
        inputs := inputs[i := input];
        return Err(step.error), sig.(inputs := inputs), newAttrs;
      }
      InputsStepOk(sig.inputs, i, before[..i], ctx, InputsState(style, args));
      inputs := inputs[i := input];
      style, args := step.value.style, step.value.args;
    }
    assert inputs[..|inputs|] == inputs;
    newSig := sig.(inputs := inputs);
    if style.None? {
      return Err(NoReceiver), newSig, newAttrs;
    }
    r := Ok(Method(sig.ident, style.value, args, sig.output,
                   collected.value.enumAttr, collected.value.returnAttr, collected.value.docAttr, sig.asyncness));
  }

  /** One round of the loop over the items. */
  method ReadItem(item: ImplItem, returnvalMode: bool, methods: seq<Method>)
    returns (r: Result<seq<Method>, Error>, newItem: ImplItem)
    ensures (r, newItem) == ItemStep(item, returnvalMode, methods)
  {
    newItem := item;
    match item {
      case MethodItem(attrs, defaultness, sig, block) =>
        if defaultness {
          return Err(Panic(DefaultMethod)), newItem;
        }
        var m, newSig, newAttrs := ParseMethod(sig, attrs, returnvalMode);
        newItem := MethodItem(newAttrs, defaultness, newSig, block);
        if m.Err? {
          return Err(m.error), newItem;
        }
        r := Ok(methods + [m.value]);
      case OtherItem(_) =>
        r := Ok(methods);
    }
  }

  /**
   * `parse_inherent_impl`: checks the impl block, reads its methods, and
   * leaves the block's items stripped as `ImplSpec` says.
   */
  method ParseInherentImpl(item: ImplBlock, params: Params) returns (r: Result<InputData, Error>)
    modifies item
    ensures r == ImplSpec(old(item.Value()), params).result
    ensures item.Value() == old(item.Value()).(items := ImplSpec(old(item.Value()), params).items)
  {
    var returnvalMode := params.returnval.Some?;
    if item.defaultness {
      return Err(DefaultImpl);
    }
    if item.unsafety {
      return Err(UnsafeImpl);
    }
    if item.traitPath.Some? {
      return Err(TraitImpl);
    }
    var name: string, structArgs: PathArguments;
    match item.selfTy {
      case TyPath(qself, p) =>
        if qself {
          return Err(TrickyType);
        }
        if |p.segments| != 1 {
          return Err(NotSingleSegment);
        }
        name, structArgs := p.segments[0].ident, p.segments[0].arguments;
      case _ =>
        return Err(NotSimpleType);
    }
    ghost var start := item.items;
    ghost var whole := ItemsFrom(start, returnvalMode, []);
    assert start[0..] == start && [] + whole.1 == whole.1;
    var methods: seq<Method> := [];
    for k := 0 to |item.items|
      invariant |item.items| == |start| && item.items[k..] == start[k..]
      invariant PrefixedItems(item.items[..k], ItemsFrom(start[k..], returnvalMode, methods)) == whole
    {
      ghost var before := item.items;
      assert before[k] == start[k] by { assert before[k..][0] == start[k..][0]; }
      var step, newItem := ReadItem(item.items[k], returnvalMode, methods);
      UpdateAt(before, start, k, newItem);
      if step.Err? {
        ItemsStepErr(start, k, before[..k], returnvalMode, methods);
        item.items := item.items[k := newItem];
        return Err(step.error);
      }
      ItemsStepOk(start, k, before[..k], returnvalMode, methods);
      item.items := item.items[k := newItem];
      methods := step.value;
    }
    assert item.items[..|item.items|] == item.items;
    r := Ok(InputData(name, item.generics, structArgs, methods, params));
  }

  // ---------------------------------------------------------------------------
  // Which check reports which error
  // ---------------------------------------------------------------------------

  /** The errors a single method can be refused with. */
  predicate IsMethodError(e: Error)
  {
    || e.ConstMethod? || e.UnsafeMethod? || e.AbiMethod? || e.GenericMethod? || e.VariadicMethod?
    || e.ReturnWithoutReturnval? || e.BadMarkerGroup? || e == Panic(BadAttributeGroup)
    || e.ReceiverLifetime? || e.BadArgEnumAttr? || e.ToOwnedWithTokens?
    || e.RefArgument? || e.RetArgument? || e.PatternArgument? || e.NoReceiver?
  }

  lemma {:induction false} CollectErrors(attrs: seq<Attr>, c: Collected)
    ensures CollectFrom(attrs, c).Err? ==> CollectFrom(attrs, c).error in {BadMarkerGroup, Panic(BadAttributeGroup)}
    decreases |attrs|
  {
    if attrs != [] && CollectStep(attrs[0], c).Ok? {
      CollectErrors(attrs[1..], CollectStep(attrs[0], c).value);
    }
  }

  lemma {:induction false} ArgMarksErrors(attrs: seq<Attr>, m: ArgMarks)
    ensures ArgMarksFrom(attrs, m).Err? ==> ArgMarksFrom(attrs, m).error in {BadArgEnumAttr, ToOwnedWithTokens}
    decreases |attrs|
  {
    if attrs != [] && ArgMarkStep(attrs[0], m).Ok? {
      ArgMarksErrors(attrs[1..], ArgMarkStep(attrs[0], m).value);
    }
  }

  /** The errors the loop over the inputs can stop with. */
  predicate IsInputError(e: Error)
  {
    e.ReceiverLifetime? || e.BadArgEnumAttr? || e.ToOwnedWithTokens? || e.RefArgument? || e.RetArgument? || e.PatternArgument?
  }

  lemma {:induction false} InputsErrors(inputs: seq<FnArg>, ctx: ArgCtx, st: InputsState)
    ensures InputsFrom(inputs, ctx, st).0.Err? ==> IsInputError(InputsFrom(inputs, ctx, st).0.error)
    decreases |inputs|
  {
    if inputs != [] {
      ArgMarksErrors(ctx.methodAttrs, NoMarks);
      var step := InputStep(inputs[0], ctx, st);
      if step.0.Ok? {
        InputsErrors(inputs[1..], ctx, step.0.value);
      }
    }
  }

  lemma MethodErrors(sig: Signature, attrs: seq<Attr>, returnvalMode: bool)
    ensures MethodSpec(sig, attrs, returnvalMode).result.Err? ==> IsMethodError(MethodSpec(sig, attrs, returnvalMode).result.error)
  {
    CollectErrors(attrs, Collected([], [], []));
    InputsErrors(sig.inputs, ArgCtx(returnvalMode, sig.ident, StripMarkers(attrs)), InputsState(None, []));
  }

  lemma {:induction false} ItemsErrors(items: seq<ImplItem>, returnvalMode: bool, methods: seq<Method>)
    ensures ItemsFrom(items, returnvalMode, methods).0.Err? ==>
      var e := ItemsFrom(items, returnvalMode, methods).0.error;
      IsMethodError(e) || e == Panic(DefaultMethod)
    decreases |items|
  {
    if items != [] {
      if items[0].MethodItem? {
        MethodErrors(items[0].sig, items[0].attrs, returnvalMode);
      }
      var step := ItemStep(items[0], returnvalMode, methods);
      if step.0.Ok? {
        ItemsErrors(items[1..], returnvalMode, step.0.value);
      }
    }
  }

  // ---------------------------------------------------------------------------
  // The impl block
  // ---------------------------------------------------------------------------

  /** Default, `unsafe` and trait impls are refused, in that order, and nothing else is refused for those reasons. */
  lemma ImplRejections(item: ItemImpl, params: Params)
    ensures ImplSpec(item, params).result == Err(DefaultImpl) <==> item.defaultness
    ensures ImplSpec(item, params).result == Err(UnsafeImpl) <==> !item.defaultness && item.unsafety
    ensures ImplSpec(item, params).result == Err(TraitImpl)
        <==> !item.defaultness && !item.unsafety && item.traitPath.Some?
    ensures item.defaultness || item.unsafety || item.traitPath.Some? ==> ImplSpec(item, params).items == item.items
  {
    if !item.defaultness && !item.unsafety && item.traitPath.None? {
      ImplLaterErrors(item, params);
    }
  }

  /** Past the first three checks, every error comes from the self type or from the items. */
  lemma ImplLaterErrors(item: ItemImpl, params: Params)
    requires !item.defaultness && !item.unsafety && item.traitPath.None?
    ensures ImplSpec(item, params).result.Err? ==>
      var e := ImplSpec(item, params).result.error;
      e in {NotSimpleType, TrickyType, NotSingleSegment} || IsMethodError(e) || e == Panic(DefaultMethod)
  {
    ItemsErrors(item.items, params.returnval.Some?, []);
  }

  /** The self type must be a one-segment path without a qualified self; its segment gives the name. */
  lemma ImplSelfType(item: ItemImpl, params: Params)
    requires !item.defaultness && !item.unsafety && item.traitPath.None?
    ensures ImplSpec(item, params).result == Err(NotSimpleType) <==> !item.selfTy.TyPath?
    ensures ImplSpec(item, params).result == Err(TrickyType) <==> item.selfTy.TyPath? && item.selfTy.qself
    ensures ImplSpec(item, params).result == Err(NotSingleSegment)
        <==> item.selfTy.TyPath? && !item.selfTy.qself && |item.selfTy.path.segments| != 1
    ensures ImplSpec(item, params).result.Ok? ==>
      var d := ImplSpec(item, params).result.value;
      && item.selfTy.TyPath? && !item.selfTy.qself && |item.selfTy.path.segments| == 1
      && d.name == item.selfTy.path.segments[0].ident
      && d.structArgs == item.selfTy.path.segments[0].arguments
      && d.generics == item.generics
      && d.params == params
  {
    if SelfTypeOf(item.selfTy).Ok? {
      ImplItemsErrors(item, params);
    }
  }

  /** Once the self type is read, every error comes from the items. */
  lemma ImplItemsErrors(item: ItemImpl, params: Params)
    requires !item.defaultness && !item.unsafety && item.traitPath.None? && SelfTypeOf(item.selfTy).Ok?
    ensures ImplSpec(item, params).result.Err? ==>
      var e := ImplSpec(item, params).result.error;
      IsMethodError(e) || e == Panic(DefaultMethod)
  {
    ItemsErrors(item.items, params.returnval.Some?, []);
  }

  /** The method items of an impl block, in order. */
  function MethodItems(items: seq<ImplItem>): (r: seq<ImplItem>)
    ensures forall j :: 0 <= j < |r| ==> r[j].MethodItem?
    decreases |items|
  {
    if items == [] then []
    else (if items[0].MethodItem? then [items[0]] else []) + MethodItems(items[1..])
  }

  /** An item as a successful analysis leaves it. */
  function Rewrite(item: ImplItem, returnvalMode: bool): ImplItem
  {
    match item
    case OtherItem(_) => item
    case MethodItem(attrs, defaultness, sig, block) =>
      var p := MethodSpec(sig, attrs, returnvalMode);
      MethodItem(p.attrs, defaultness, p.sig, block)
  }

  /** What one successful round of the item loop does. */
  lemma ItemStepMeaning(item: ImplItem, returnvalMode: bool, acc: seq<Method>)
    requires ItemStep(item, returnvalMode, acc).0.Ok?
    ensures ItemStep(item, returnvalMode, acc).1 == Rewrite(item, returnvalMode)
    ensures item.OtherItem? ==> ItemStep(item, returnvalMode, acc).0.value == acc
    ensures item.MethodItem? ==>
      && !item.defaultness
      && MethodSpec(item.sig, item.attrs, returnvalMode).result.Ok?
      && ItemStep(item, returnvalMode, acc).0.value == acc + [MethodSpec(item.sig, item.attrs, returnvalMode).result.value]
  {
  }

  /** `m` is what the method item `it` is read into. */
  predicate MethodRead(it: ImplItem, returnvalMode: bool, m: Method)
  {
    it.MethodItem? && !it.defaultness && MethodSpec(it.sig, it.attrs, returnvalMode).result == Ok(m)
  }

  /** Every method item of `items` is not `default` and is read successfully. */
  predicate AllRead(items: seq<ImplItem>, returnvalMode: bool)
    decreases |items|
  {
    items != [] ==>
      && (items[0].MethodItem? ==> !items[0].defaultness && MethodSpec(items[0].sig, items[0].attrs, returnvalMode).result.Ok?)
      && AllRead(items[1..], returnvalMode)
  }

  /** The method one item is read into, if it is a method item that is read successfully. */
  function ReadOf(it: ImplItem, returnvalMode: bool): seq<Method>
  {
    if it.MethodItem? && MethodSpec(it.sig, it.attrs, returnvalMode).result.Ok?
    then [MethodSpec(it.sig, it.attrs, returnvalMode).result.value] else []
  }

  /** The methods that the method items of `items` are read into, in order. */
  function MethodsRead(items: seq<ImplItem>, returnvalMode: bool): seq<Method>
    decreases |items|
  {
    if items == [] then [] else ReadOf(items[0], returnvalMode) + MethodsRead(items[1..], returnvalMode)
  }

  /** The first round of a successful walk, and the walk that is left after it. */
  lemma ItemsFromStep(items: seq<ImplItem>, returnvalMode: bool, acc: seq<Method>)
    requires items != [] && ItemsFrom(items, returnvalMode, acc).0.Ok?
    ensures items[0].MethodItem? ==> !items[0].defaultness && MethodSpec(items[0].sig, items[0].attrs, returnvalMode).result.Ok?
    ensures ItemsFrom(items, returnvalMode, acc).0 == ItemsFrom(items[1..], returnvalMode, acc + ReadOf(items[0], returnvalMode)).0
  {
    ItemStepMeaning(items[0], returnvalMode, acc);
    if items[0].OtherItem? {
      assert acc + [] == acc;
    }
  }

  /** Reading the first item and then the rest is reading all of them. */
  lemma ReadCons(items: seq<ImplItem>, returnvalMode: bool, before: seq<Method>, after: seq<Method>)
    requires items != []
    requires items[0].MethodItem? ==> !items[0].defaultness && MethodSpec(items[0].sig, items[0].attrs, returnvalMode).result.Ok?
    requires AllRead(items[1..], returnvalMode)
    requires after == before + ReadOf(items[0], returnvalMode) + MethodsRead(items[1..], returnvalMode)
    ensures AllRead(items, returnvalMode)
    ensures after == before + MethodsRead(items, returnvalMode)
  {
    AppendAssoc(before, ReadOf(items[0], returnvalMode), MethodsRead(items[1..], returnvalMode));
  }

  /** A successful walk reads every method item, and appends what they are read into. */
  lemma {:induction false} ItemsWalkMethods(items: seq<ImplItem>, returnvalMode: bool, acc: seq<Method>, ms: seq<Method>)
    requires ItemsFrom(items, returnvalMode, acc).0 == Ok(ms)
    ensures AllRead(items, returnvalMode)
    ensures ms == acc + MethodsRead(items, returnvalMode)
    decreases |items|
  {
    if items == [] {
      assert acc + [] == acc;
    } else {
      ItemsFromStep(items, returnvalMode, acc);
      ItemsWalkMethods(items[1..], returnvalMode, acc + ReadOf(items[0], returnvalMode), ms);
      ReadCons(items, returnvalMode, acc, ms);
    }
  }

  /** The method read from one method item followed by those read from the method items after it. */
  lemma MethodsStep(it: ImplItem, rest: seq<ImplItem>, all: seq<ImplItem>, returnvalMode: bool, m: Method, ms: seq<Method>)
    requires all == [it] + rest && MethodRead(it, returnvalMode, m)
    requires |ms| == |rest| && forall j :: 0 <= j < |rest| ==> MethodRead(rest[j], returnvalMode, ms[j])
    ensures |[m] + ms| == |all|
    ensures forall j :: 0 <= j < |all| ==> MethodRead(all[j], returnvalMode, ([m] + ms)[j])
  {
    forall j | 0 <= j < |all|
      ensures MethodRead(all[j], returnvalMode, ([m] + ms)[j])
    {
      if j > 0 {
        assert all[j] == rest[j - 1] && ([m] + ms)[j] == ms[j - 1];
      }
    }
  }

  /** The methods read from the method items, paired with them one by one. */
  lemma {:induction false} MethodsReadMeaning(items: seq<ImplItem>, returnvalMode: bool)
    requires AllRead(items, returnvalMode)
    ensures
      var mi := MethodItems(items);
      var ms := MethodsRead(items, returnvalMode);
      && |ms| == |mi|
      && forall j :: 0 <= j < |mi| ==> MethodRead(mi[j], returnvalMode, ms[j])
    decreases |items|
  {
    if items != [] {
      var rest := items[1..];
      MethodsReadMeaning(rest, returnvalMode);
      var it := items[0];
      if it.MethodItem? {
        var m := MethodSpec(it.sig, it.attrs, returnvalMode).result.value;
        assert MethodItems(items) == [it] + MethodItems(rest);
        assert ReadOf(it, returnvalMode) == [m];
        MethodsStep(it, MethodItems(rest), MethodItems(items), returnvalMode, m, MethodsRead(rest, returnvalMode));
      } else {
        assert MethodItems(items) == MethodItems(rest);
      }
    }
  }

  /** A successful walk over the items gives one method per method item, in order, none of them `default`. */
  lemma ItemsMethods(items: seq<ImplItem>, returnvalMode: bool, acc: seq<Method>)
    ensures ItemsFrom(items, returnvalMode, acc).0.Ok? ==>
      var ms := ItemsFrom(items, returnvalMode, acc).0.value;
      var mi := MethodItems(items);
      && |ms| == |acc| + |mi|
      && ms[..|acc|] == acc
      && (forall j :: 0 <= j < |mi| ==>
            !mi[j].defaultness && MethodSpec(mi[j].sig, mi[j].attrs, returnvalMode).result == Ok(ms[|acc| + j]))
  {
    if ItemsFrom(items, returnvalMode, acc).0.Ok? {
      var ms := ItemsFrom(items, returnvalMode, acc).0.value;
      ItemsWalkMethods(items, returnvalMode, acc, ms);
      MethodsReadMeaning(items, returnvalMode);
      var read := MethodsRead(items, returnvalMode);
      var mi := MethodItems(items);
      assert ms[..|acc|] == acc;
      forall j | 0 <= j < |mi|
        ensures !mi[j].defaultness && MethodSpec(mi[j].sig, mi[j].attrs, returnvalMode).result == Ok(ms[|acc| + j])
      {
        assert ms[|acc| + j] == read[j];
        assert MethodRead(mi[j], returnvalMode, read[j]);
      }
    }
  }

  /** A successful walk rewrites every item in place and leaves the other items alone. */
  lemma {:induction false} ItemsRewritten(items: seq<ImplItem>, returnvalMode: bool, acc: seq<Method>)
    ensures ItemsFrom(items, returnvalMode, acc).0.Ok? ==>
      forall i :: 0 <= i < |items| ==> ItemsFrom(items, returnvalMode, acc).1[i] == Rewrite(items[i], returnvalMode)
    decreases |items|
  {
    var r := ItemsFrom(items, returnvalMode, acc);
    if items != [] && r.0.Ok? {
      var step := ItemStep(items[0], returnvalMode, acc);
      var rest := items[1..];
      ItemStepMeaning(items[0], returnvalMode, acc);
      ItemsRewritten(rest, returnvalMode, step.0.value);
      var tail := ItemsFrom(rest, returnvalMode, step.0.value);
      assert r == (tail.0, [step.1] + tail.1);
      forall i | 0 <= i < |items| ensures r.1[i] == Rewrite(items[i], returnvalMode) {
        if i > 0 { assert r.1[i] == tail.1[i - 1] && items[i] == rest[i - 1]; }
      }
    }
  }

  /** The items walk that decides a successful analysis. */
  lemma ImplWalk(item: ItemImpl, params: Params)
    requires ImplSpec(item, params).result.Ok?
    ensures ItemsFrom(item.items, params.returnval.Some?, []).0 == Ok(ImplSpec(item, params).result.value.methods)
    ensures ItemsFrom(item.items, params.returnval.Some?, []).1 == ImplSpec(item, params).items
  {
  }

  /** A successful analysis gives one method per method item of the block, in order. */
  lemma ImplMethods(item: ItemImpl, params: Params)
    requires ImplSpec(item, params).result.Ok?
    ensures
      var ms := ImplSpec(item, params).result.value.methods;
      var mi := MethodItems(item.items);
      && |ms| == |mi|
      && (forall j :: 0 <= j < |mi| ==> MethodSpec(mi[j].sig, mi[j].attrs, params.returnval.Some?).result == Ok(ms[j]))
  {
    var rv := params.returnval.Some?;
    var ms := ImplSpec(item, params).result.value.methods;
    var mi := MethodItems(item.items);
    ImplWalk(item, params);
    ItemsMethods(item.items, rv, []);
    forall j | 0 <= j < |mi| ensures MethodSpec(mi[j].sig, mi[j].attrs, rv).result == Ok(ms[j]) {
      var e: seq<Method> := [];
      assert |e| + j == j;
    }
  }

  /** A successful analysis rewrites the block's items in place, one for one. */
  lemma ImplRewritten(item: ItemImpl, params: Params)
    requires ImplSpec(item, params).result.Ok?
    ensures |ImplSpec(item, params).items| == |item.items|
    ensures forall i :: 0 <= i < |item.items| ==>
      ImplSpec(item, params).items[i] == Rewrite(item.items[i], params.returnval.Some?)
  {
    ImplWalk(item, params);
    ItemsRewritten(item.items, params.returnval.Some?, []);
  }

  // ---------------------------------------------------------------------------
  // One method
  // ---------------------------------------------------------------------------

  /** The signature checks run first, in the source's order; a refused signature leaves the method untouched. */
  lemma MethodRejections(sig: Signature, attrs: seq<Attr>, returnvalMode: bool)
    ensures MethodSpec(sig, attrs, returnvalMode).result == Err(ConstMethod) <==> sig.constness
    ensures MethodSpec(sig, attrs, returnvalMode).result == Err(UnsafeMethod) <==> !sig.constness && sig.unsafety
    ensures MethodSpec(sig, attrs, returnvalMode).result == Err(AbiMethod)
        <==> !sig.constness && !sig.unsafety && sig.abi.Some?
    ensures MethodSpec(sig, attrs, returnvalMode).result == Err(GenericMethod)
        <==> !sig.constness && !sig.unsafety && sig.abi.None? && |sig.generics.params| > 0
    ensures MethodSpec(sig, attrs, returnvalMode).result == Err(VariadicMethod)
        <==> !sig.constness && !sig.unsafety && sig.abi.None? && |sig.generics.params| == 0 && sig.variadic
    ensures MethodSpec(sig, attrs, returnvalMode).result == Err(ReturnWithoutReturnval)
        <==> SigCheck(sig, returnvalMode) == Some(ReturnWithoutReturnval)
    ensures SigCheck(sig, returnvalMode) == Some(ReturnWithoutReturnval)
        <==> !sig.constness && !sig.unsafety && sig.abi.None? && |sig.generics.params| == 0 && !sig.variadic
             && !returnvalMode && sig.output.Some?
    ensures SigCheck(sig, returnvalMode).Some? ==>
      MethodSpec(sig, attrs, returnvalMode).sig == sig && MethodSpec(sig, attrs, returnvalMode).attrs == attrs
  {
    CollectErrors(attrs, Collected([], [], []));
    InputsErrors(sig.inputs, ArgCtx(returnvalMode, sig.ident, StripMarkers(attrs)), InputsState(None, []));
  }

  predicate MarkerOk(a: Attr) { !IsMarker(a) || MarkerAttr(a).Ok? }

  predicate AllMarkersOk(attrs: seq<Attr>) { forall i :: 0 <= i < |attrs| ==> MarkerOk(attrs[i]) }

  /** The attribute that one attribute contributes as a marker called `name`, if it does. */
  function MarkerOf(a: Attr, name: string): seq<Attr>
  {
    if HasName(a, name) && MarkerAttr(a).Ok? then [MarkerAttr(a).value] else []
  }

  /** The attributes that the markers called `name` contribute, in order. */
  function Markers(attrs: seq<Attr>, name: string): seq<Attr>
    decreases |attrs|
  {
    if attrs == [] then [] else MarkerOf(attrs[0], name) + Markers(attrs[1..], name)
  }

  function NamedOf(a: Attr, name: string): seq<Attr>
  {
    if HasName(a, name) then [a] else []
  }

  /** The attributes called `name`, in order. */
  function Named(attrs: seq<Attr>, name: string): (r: seq<Attr>)
    ensures |r| <= |attrs|
    decreases |attrs|
  {
    if attrs == [] then [] else NamedOf(attrs[0], name) + Named(attrs[1..], name)
  }

  /** The attributes collected under a name are exactly those that carry it. */
  lemma {:induction false} NamedExactly(attrs: seq<Attr>, name: string)
    ensures forall a :: a in Named(attrs, name) <==> a in attrs && HasName(a, name)
    decreases |attrs|
  {
    if attrs != [] {
      NamedExactly(attrs[1..], name);
      assert forall a :: a in attrs <==> a == attrs[0] || a in attrs[1..];
    }
  }

  function CollectedOf(attrs: seq<Attr>, c: Collected): Collected
  {
    Collected(
      c.enumAttr + Markers(attrs, "ctrlgen_enum_attr"),
      c.returnAttr + Markers(attrs, "ctrlgen_return_attr"),
      c.docAttr + Named(attrs, "doc"))
  }

  lemma CollectStepContents(a: Attr, c: Collected)
    requires CollectStep(a, c).Ok?
    ensures CollectStep(a, c).value == Collected(
      c.enumAttr + MarkerOf(a, "ctrlgen_enum_attr"),
      c.returnAttr + MarkerOf(a, "ctrlgen_return_attr"),
      c.docAttr + NamedOf(a, "doc"))
  {
  }

  lemma AllMarkersOkSplit(attrs: seq<Attr>)
    requires attrs != []
    ensures AllMarkersOk(attrs) <==> MarkerOk(attrs[0]) && AllMarkersOk(attrs[1..])
  {
    var rest := attrs[1..];
    if MarkerOk(attrs[0]) && AllMarkersOk(rest) {
      forall i | 0 <= i < |attrs| ensures MarkerOk(attrs[i]) {
        if i > 0 { assert attrs[i] == rest[i - 1]; }
      }
    }
    if AllMarkersOk(attrs) {
      forall i | 0 <= i < |rest| ensures MarkerOk(rest[i]) { assert rest[i] == attrs[i + 1]; }
    }
  }

  /** The attribute loop succeeds iff every marker holds a usable group. */
  lemma {:induction false} CollectAccepts(attrs: seq<Attr>, c: Collected)
    ensures CollectFrom(attrs, c).Ok? <==> AllMarkersOk(attrs)
    decreases |attrs|
  {
    if attrs != [] {
      AllMarkersOkSplit(attrs);
      var step := CollectStep(attrs[0], c);
      if step.Ok? {
        CollectAccepts(attrs[1..], step.value);
      }
    }
  }

  /** A successful attribute loop appends the enum markers, return markers and doc comments, each in source order. */
  lemma {:induction false} CollectContents(attrs: seq<Attr>, c: Collected)
    ensures CollectFrom(attrs, c).Ok? ==> CollectFrom(attrs, c).value == CollectedOf(attrs, c)
    decreases |attrs|
  {
    if attrs == [] {
      assert c.enumAttr + [] == c.enumAttr && c.returnAttr + [] == c.returnAttr && c.docAttr + [] == c.docAttr;
    } else {
      var a := attrs[0];
      var rest := attrs[1..];
      var step := CollectStep(a, c);
      if step.Ok? {
        CollectStepContents(a, c);
        CollectContents(rest, step.value);
        AppendAssoc(c.enumAttr, MarkerOf(a, "ctrlgen_enum_attr"), Markers(rest, "ctrlgen_enum_attr"));
        AppendAssoc(c.returnAttr, MarkerOf(a, "ctrlgen_return_attr"), Markers(rest, "ctrlgen_return_attr"));
        AppendAssoc(c.docAttr, NamedOf(a, "doc"), Named(rest, "doc"));
      }
    }
  }

  /** A method read successfully: its name, return type, `async` flag and collected attributes. */
  lemma MethodFields(sig: Signature, attrs: seq<Attr>, returnvalMode: bool)
    requires MethodSpec(sig, attrs, returnvalMode).result.Ok?
    ensures AllMarkersOk(attrs)
    ensures
      var m := MethodSpec(sig, attrs, returnvalMode).result.value;
      && m.name == sig.ident && m.ret == sig.output && m.isAsync == sig.asyncness
      && m.enumAttr == Markers(attrs, "ctrlgen_enum_attr")
      && m.returnAttr == Markers(attrs, "ctrlgen_return_attr")
      && m.docAttr == Named(attrs, "doc")
    ensures MethodSpec(sig, attrs, returnvalMode).attrs == StripMarkers(attrs)
  {
    CollectAccepts(attrs, Collected([], [], []));
    CollectContents(attrs, Collected([], [], []));
  }

  /** A marker without a usable group refuses the method and leaves it untouched. */
  lemma BadMarkerRefused(sig: Signature, attrs: seq<Attr>, returnvalMode: bool)
    requires SigCheck(sig, returnvalMode).None? && !AllMarkersOk(attrs)
    ensures MethodSpec(sig, attrs, returnvalMode).result.Err?
    ensures MethodSpec(sig, attrs, returnvalMode).result.error in {BadMarkerGroup, Panic(BadAttributeGroup)}
    ensures MethodSpec(sig, attrs, returnvalMode).sig == sig && MethodSpec(sig, attrs, returnvalMode).attrs == attrs
  {
    CollectAccepts(attrs, Collected([], [], []));
    CollectErrors(attrs, Collected([], [], []));
  }

  // ---------------------------------------------------------------------------
  // Receiver and arguments
  // ---------------------------------------------------------------------------

  /** `self` is `Move`, `&mut self` is `Mut`, `&self` is `Ref`; a named lifetime is refused. */
  lemma ReceiverStyles(lifetime: string, mutability: bool)
    ensures ReceiverStyleOf(None, mutability) == Ok(Move)
    ensures ReceiverStyleOf(Some(None), true) == Ok(Mut)
    ensures ReceiverStyleOf(Some(None), false) == Ok(Ref)
    ensures ReceiverStyleOf(Some(Some(lifetime)), mutability) == Err(ReceiverLifetime)
  {
  }

  /** Whether an input gets through its round of the input loop. */
  predicate InputOk(input: FnArg, ctx: ArgCtx)
  {
    match input
    case Receiver(_, reference, mutability) => ReceiverStyleOf(reference, mutability).Ok?
    case Typed(_, pat, ty) =>
      var marks := ArgMarksFrom(ctx.methodAttrs, NoMarks);
      marks.Ok? && ArgumentOf(pat, ty, marks.value, ctx).Ok?
  }

  predicate AllInputsOk(inputs: seq<FnArg>, ctx: ArgCtx)
  {
    forall i :: 0 <= i < |inputs| ==> InputOk(inputs[i], ctx)
  }

  lemma AllInputsOkSplit(inputs: seq<FnArg>, ctx: ArgCtx)
    requires inputs != []
    ensures AllInputsOk(inputs, ctx) <==> InputOk(inputs[0], ctx) && AllInputsOk(inputs[1..], ctx)
  {
    var rest := inputs[1..];
    if InputOk(inputs[0], ctx) && AllInputsOk(rest, ctx) {
      forall i | 0 <= i < |inputs| ensures InputOk(inputs[i], ctx) {
        if i > 0 { assert inputs[i] == rest[i - 1]; }
      }
    }
    if AllInputsOk(inputs, ctx) {
      forall i | 0 <= i < |rest| ensures InputOk(rest[i], ctx) { assert rest[i] == inputs[i + 1]; }
    }
  }

  /** The style of the last receiver among the inputs: a later receiver overrides an earlier one. */
  function LastReceiver(inputs: seq<FnArg>): Option<ReceiverStyle>
    decreases |inputs|
  {
    if inputs == [] then None
    else
      var later := LastReceiver(inputs[1..]);
      if later.Some? then later
      else
        match inputs[0]
        case Receiver(_, reference, mutability) =>
          (match ReceiverStyleOf(reference, mutability) case Ok(s) => Some(s) case Err(_) => None)
        case Typed(_, _, _) => None
  }

  /** The typed inputs, in order. */
  function TypedInputs(inputs: seq<FnArg>): (r: seq<FnArg>)
    ensures forall j :: 0 <= j < |r| ==> r[j].Typed?
    decreases |inputs|
  {
    if inputs == [] then []
    else (if inputs[0].Typed? then [inputs[0]] else []) + TypedInputs(inputs[1..])
  }

  /** The argument a typed input gives, if it gives one. */
  function ArgOf(input: FnArg, ctx: ArgCtx): seq<Argument>
  {
    match input
    case Receiver(_, _, _) => []
    case Typed(_, pat, ty) =>
      var marks := ArgMarksFrom(ctx.methodAttrs, NoMarks);
      if marks.Ok? && ArgumentOf(pat, ty, marks.value, ctx).Ok? then [ArgumentOf(pat, ty, marks.value, ctx).value] else []
  }

  function ArgsOf(inputs: seq<FnArg>, ctx: ArgCtx): seq<Argument>
    decreases |inputs|
  {
    if inputs == [] then [] else ArgOf(inputs[0], ctx) + ArgsOf(inputs[1..], ctx)
  }

  /** The input loop gets through iff every input does. */
  lemma {:induction false} InputsAccepted(inputs: seq<FnArg>, ctx: ArgCtx, st: InputsState)
    ensures InputsFrom(inputs, ctx, st).0.Ok? <==> AllInputsOk(inputs, ctx)
    decreases |inputs|
  {
    if inputs != [] {
      AllInputsOkSplit(inputs, ctx);
      var step := InputStep(inputs[0], ctx, st);
      assert step.0.Ok? <==> InputOk(inputs[0], ctx);
      if step.0.Ok? {
        InputsAccepted(inputs[1..], ctx, step.0.value);
      }
    }
  }

  lemma InputStepContents(input: FnArg, ctx: ArgCtx, st: InputsState)
    requires InputStep(input, ctx, st).0.Ok?
    ensures InputStep(input, ctx, st).0.value.args == st.args + ArgOf(input, ctx)
    ensures InputStep(input, ctx, st).0.value.style
         == if input.Receiver? then Some(ReceiverStyleOf(input.reference, input.mutability).value) else st.style
    ensures InputStep(input, ctx, st).1 == StripInput(input)
  {
  }

  /**
   * A successful input loop ends with the last receiver's style and with
   * one argument per typed input, in order; every input is stripped in place.
   */
  lemma {:induction false} InputsContents(inputs: seq<FnArg>, ctx: ArgCtx, st: InputsState)
    ensures InputsFrom(inputs, ctx, st).0.Ok? ==>
      && InputsFrom(inputs, ctx, st).0.value.style
         == (if LastReceiver(inputs).Some? then LastReceiver(inputs) else st.style)
      && InputsFrom(inputs, ctx, st).0.value.args == st.args + ArgsOf(inputs, ctx)
      && forall i :: 0 <= i < |inputs| ==> InputsFrom(inputs, ctx, st).1[i] == StripInput(inputs[i])
    decreases |inputs|
  {
    var r := InputsFrom(inputs, ctx, st);
    if inputs == [] {
      assert st.args + [] == st.args;
    } else if r.0.Ok? {
      var step := InputStep(inputs[0], ctx, st);
      var rest := inputs[1..];
      InputStepContents(inputs[0], ctx, st);
      InputsContents(rest, ctx, step.0.value);
      var tail := InputsFrom(rest, ctx, step.0.value);
      assert r == (tail.0, [step.1] + tail.1);
      assert (st.args + ArgOf(inputs[0], ctx)) + ArgsOf(rest, ctx) == st.args + ArgsOf(inputs, ctx);
      forall i | 0 <= i < |inputs| ensures r.1[i] == StripInput(inputs[i]) {
        if i > 0 { assert r.1[i] == tail.1[i - 1] && inputs[i] == rest[i - 1]; }
      }
    }
  }

  /** When every input is accepted, the last receiver exists iff some input is a receiver. */
  lemma {:induction false} LastReceiverExists(inputs: seq<FnArg>, ctx: ArgCtx)
    requires AllInputsOk(inputs, ctx)
    ensures LastReceiver(inputs).Some? <==> exists i :: 0 <= i < |inputs| && inputs[i].Receiver?
    decreases |inputs|
  {
    if inputs != [] {
      AllInputsOkSplit(inputs, ctx);
      LastReceiverExists(inputs[1..], ctx);
      if exists i :: 0 <= i < |inputs| && inputs[i].Receiver? {
        var i :| 0 <= i < |inputs| && inputs[i].Receiver?;
        if i > 0 { assert inputs[1..][i - 1].Receiver?; }
      }
      if exists i :: 0 <= i < |inputs[1..]| && inputs[1..][i].Receiver? {
        var i :| 0 <= i < |inputs[1..]| && inputs[1..][i].Receiver?;
        assert inputs[i + 1].Receiver?;
      }
    }
  }

  /** When every input is accepted, the arguments are the typed inputs' plain names and declared types, in order. */
  lemma {:induction false} ArgsOfTyped(inputs: seq<FnArg>, ctx: ArgCtx)
    requires AllInputsOk(inputs, ctx)
    ensures ArgMarksFrom(ctx.methodAttrs, NoMarks).Ok? || TypedInputs(inputs) == []
    ensures
      var args := ArgsOf(inputs, ctx);
      var typed := TypedInputs(inputs);
      && |args| == |typed|
      && forall j :: 0 <= j < |typed| ==>
           && typed[j].pat.PatIdent? && !typed[j].pat.byRef
           && !(ctx.returnvalMode && typed[j].pat.ident == "ret")
           && args[j] == Argument(typed[j].pat.ident, typed[j].ty,
                                  ArgMarksFrom(ctx.methodAttrs, NoMarks).value.enumAttr,
                                  ArgMarksFrom(ctx.methodAttrs, NoMarks).value.toOwned)
    decreases |inputs|
  {
    if inputs != [] {
      AllInputsOkSplit(inputs, ctx);
      ArgsOfTyped(inputs[1..], ctx);
      if inputs[0].Typed? {
        assert TypedInputs(inputs) == [inputs[0]] + TypedInputs(inputs[1..]);
        assert ArgsOf(inputs, ctx) == ArgOf(inputs[0], ctx) + ArgsOf(inputs[1..], ctx);
      } else {
        assert TypedInputs(inputs) == TypedInputs(inputs[1..]);
        assert ArgsOf(inputs, ctx) == ArgsOf(inputs[1..], ctx);
      }
    }
  }

  /** The context the inputs of a method are read in. */
  function CtxOf(sig: Signature, attrs: seq<Attr>, returnvalMode: bool): ArgCtx
  {
    ArgCtx(returnvalMode, sig.ident, StripMarkers(attrs))
  }

  lemma MethodInputs(sig: Signature, attrs: seq<Attr>, returnvalMode: bool)
    requires SigCheck(sig, returnvalMode).None? && AllMarkersOk(attrs)
    ensures
      var ins := InputsFrom(sig.inputs, CtxOf(sig, attrs, returnvalMode), InputsState(None, []));
      var p := MethodSpec(sig, attrs, returnvalMode);
      && p.sig == sig.(inputs := ins.1) && p.attrs == StripMarkers(attrs)
      && (ins.0.Err? ==> p.result == Err(ins.0.error))
      && (ins.0.Ok? && ins.0.value.style.None? ==> p.result == Err(NoReceiver))
      && (ins.0.Ok? && ins.0.value.style.Some? ==>
            p.result.Ok? && p.result.value.receiverStyle == ins.0.value.style.value && p.result.value.args == ins.0.value.args)
  {
    CollectAccepts(attrs, Collected([], [], []));
  }

  /** A method read successfully takes the style of its last receiver. */
  lemma MethodReceiver(sig: Signature, attrs: seq<Attr>, returnvalMode: bool)
    requires MethodSpec(sig, attrs, returnvalMode).result.Ok?
    ensures LastReceiver(sig.inputs).Some?
    ensures MethodSpec(sig, attrs, returnvalMode).result.value.receiverStyle == LastReceiver(sig.inputs).value
  {
    MethodRejections(sig, attrs, returnvalMode);
    CollectAccepts(attrs, Collected([], [], []));
    MethodInputs(sig, attrs, returnvalMode);
    InputsContents(sig.inputs, CtxOf(sig, attrs, returnvalMode), InputsState(None, []));
  }

  /**
   * `NoReceiver` is reported iff everything else about the method is
   * accepted and none of its inputs is a receiver: the check comes after
   * the arguments.
   */
  lemma MethodNoReceiver(sig: Signature, attrs: seq<Attr>, returnvalMode: bool)
    ensures MethodSpec(sig, attrs, returnvalMode).result == Err(NoReceiver)
        <==> && SigCheck(sig, returnvalMode).None? && AllMarkersOk(attrs)
             && AllInputsOk(sig.inputs, CtxOf(sig, attrs, returnvalMode))
             && forall i :: 0 <= i < |sig.inputs| ==> !sig.inputs[i].Receiver?
  {
    var ctx := CtxOf(sig, attrs, returnvalMode);
    var ins := InputsFrom(sig.inputs, ctx, InputsState(None, []));
    CollectAccepts(attrs, Collected([], [], []));
    CollectErrors(attrs, Collected([], [], []));
    InputsErrors(sig.inputs, ctx, InputsState(None, []));
    if SigCheck(sig, returnvalMode).None? && AllMarkersOk(attrs) {
      MethodInputs(sig, attrs, returnvalMode);
      InputsAccepted(sig.inputs, ctx, InputsState(None, []));
      InputsContents(sig.inputs, ctx, InputsState(None, []));
      if AllInputsOk(sig.inputs, ctx) {
        LastReceiverExists(sig.inputs, ctx);
      }
    }
  }

  /**
   * A method read successfully has one argument per typed input, in
   * declaration order, each a plain identifier without `ref` under its own
   * name and declared type, and none named `ret` in `returnval` mode; every
   * input is left with its argument markers removed.
   */
  lemma MethodArgs(sig: Signature, attrs: seq<Attr>, returnvalMode: bool)
    requires MethodSpec(sig, attrs, returnvalMode).result.Ok?
    ensures
      var args := MethodSpec(sig, attrs, returnvalMode).result.value.args;
      var typed := TypedInputs(sig.inputs);
      && |args| == |typed|
      && forall j :: 0 <= j < |typed| ==>
           && typed[j].pat.PatIdent? && !typed[j].pat.byRef
           && args[j].name == typed[j].pat.ident && args[j].ty == typed[j].ty
           && !(returnvalMode && args[j].name == "ret")
    ensures
      var newSig := MethodSpec(sig, attrs, returnvalMode).sig;
      && newSig == sig.(inputs := newSig.inputs)
      && |newSig.inputs| == |sig.inputs|
      && forall i :: 0 <= i < |sig.inputs| ==> newSig.inputs[i] == StripInput(sig.inputs[i])
  {
    var ctx := CtxOf(sig, attrs, returnvalMode);
    MethodRejections(sig, attrs, returnvalMode);
    CollectAccepts(attrs, Collected([], [], []));
    MethodInputs(sig, attrs, returnvalMode);
    InputsAccepted(sig.inputs, ctx, InputsState(None, []));
    InputsContents(sig.inputs, ctx, InputsState(None, []));
    ArgsOfTyped(sig.inputs, ctx);
    assert [] + ArgsOf(sig.inputs, ctx) == ArgsOf(sig.inputs, ctx);
  }

  // ---------------------------------------------------------------------------
  // Argument markers, as the source reads them
  // ---------------------------------------------------------------------------

  predicate IsToOwnedWithTokens(a: Attr) { HasName(a, "ctrlgen_to_owned") && a.tokens != [] }

  /** Some attribute is a `ctrlgen_to_owned` with tokens iff the first is or one of the rest is. */
  lemma AnyToOwnedWithTokensSplit(attrs: seq<Attr>)
    requires attrs != []
    ensures (exists i :: 0 <= i < |attrs| && IsToOwnedWithTokens(attrs[i]))
        <==> IsToOwnedWithTokens(attrs[0]) || exists i :: 0 <= i < |attrs[1..]| && IsToOwnedWithTokens(attrs[1..][i])
  {
    if exists i :: 0 <= i < |attrs| && IsToOwnedWithTokens(attrs[i]) {
      var i :| 0 <= i < |attrs| && IsToOwnedWithTokens(attrs[i]);
      if i > 0 { assert attrs[1..][i - 1] == attrs[i]; }
    }
    if exists i :: 0 <= i < |attrs[1..]| && IsToOwnedWithTokens(attrs[1..][i]) {
      var i :| 0 <= i < |attrs[1..]| && IsToOwnedWithTokens(attrs[1..][i]);
      assert attrs[1..][i] == attrs[i + 1];
    }
  }

  /** Some attribute has the name iff the first has or one of the rest has. */
  lemma AnyNamedSplit(attrs: seq<Attr>, name: string)
    requires attrs != []
    ensures (exists i :: 0 <= i < |attrs| && HasName(attrs[i], name))
        <==> HasName(attrs[0], name) || exists i :: 0 <= i < |attrs[1..]| && HasName(attrs[1..][i], name)
  {
    if exists i :: 0 <= i < |attrs| && HasName(attrs[i], name) {
      var i :| 0 <= i < |attrs| && HasName(attrs[i], name);
      if i > 0 { assert attrs[1..][i - 1] == attrs[i]; }
    }
    if exists i :: 0 <= i < |attrs[1..]| && HasName(attrs[1..][i], name) {
      var i :| 0 <= i < |attrs[1..]| && HasName(attrs[1..][i], name);
      assert attrs[1..][i] == attrs[i + 1];
    }
  }

  /**
   * Over attributes with no `ctrlgen_enum_attr` among them, the argument
   * marker loop collects no group, fails iff some `ctrlgen_to_owned`
   * carries tokens, and otherwise sets `to_owned` iff one is present.
   */
  lemma {:induction false} ArgMarksWithoutEnumAttr(attrs: seq<Attr>, m: ArgMarks)
    requires forall i :: 0 <= i < |attrs| ==> !HasName(attrs[i], "ctrlgen_enum_attr")
    ensures ArgMarksFrom(attrs, m)
         == if exists i :: 0 <= i < |attrs| && IsToOwnedWithTokens(attrs[i]) then Err(ToOwnedWithTokens)
            else Ok(m.(toOwned := m.toOwned || exists i :: 0 <= i < |attrs| && HasName(attrs[i], "ctrlgen_to_owned")))
    decreases |attrs|
  {
    if attrs != [] {
      var a := attrs[0];
      var rest := attrs[1..];
      AnyToOwnedWithTokensSplit(attrs);
      AnyNamedSplit(attrs, "ctrlgen_to_owned");
      assert forall i :: 0 <= i < |rest| ==> !HasName(rest[i], "ctrlgen_enum_attr") by {
        forall i | 0 <= i < |rest| ensures !HasName(rest[i], "ctrlgen_enum_attr") { assert rest[i] == attrs[i + 1]; }
      }
      var step := ArgMarkStep(a, m);
      if step.Ok? {
        ArgMarksWithoutEnumAttr(rest, step.value);
      }
    }
  }

  /** The marker loop over stripped method attributes collects no group and finds `to_owned` iff the method has one. */
  lemma StrippedArgMarks(attrs: seq<Attr>)
    requires ArgMarksFrom(StripMarkers(attrs), NoMarks).Ok?
    ensures ArgMarksFrom(StripMarkers(attrs), NoMarks).value.enumAttr == []
    ensures ArgMarksFrom(StripMarkers(attrs), NoMarks).value.toOwned
        <==> exists a :: a in attrs && HasName(a, "ctrlgen_to_owned")
  {
    var kept := StripMarkers(attrs);
    StripMarkersKeeps(attrs);
    assert forall i :: 0 <= i < |kept| ==> !HasName(kept[i], "ctrlgen_enum_attr") by {
      forall i | 0 <= i < |kept| ensures !HasName(kept[i], "ctrlgen_enum_attr") {
        assert kept[i] in kept;
      }
    }
    ArgMarksWithoutEnumAttr(kept, NoMarks);
    if exists a :: a in attrs && HasName(a, "ctrlgen_to_owned") {
      var a :| a in attrs && HasName(a, "ctrlgen_to_owned");
      assert a in kept;
      var i :| 0 <= i < |kept| && kept[i] == a;
    }
  }

  /** Every argument of a method read successfully carries the markers read for it. */
  lemma MethodArgMarks(sig: Signature, attrs: seq<Attr>, returnvalMode: bool)
    requires MethodSpec(sig, attrs, returnvalMode).result.Ok?
    ensures
      var args := MethodSpec(sig, attrs, returnvalMode).result.value.args;
      var marks := ArgMarksFrom(StripMarkers(attrs), NoMarks);
      && (args != [] ==> marks.Ok?)
      && forall j :: 0 <= j < |args| ==> args[j].enumAttr == marks.value.enumAttr && args[j].toOwned == marks.value.toOwned
  {
    var ctx := CtxOf(sig, attrs, returnvalMode);
    MethodRejections(sig, attrs, returnvalMode);
    CollectAccepts(attrs, Collected([], [], []));
    MethodInputs(sig, attrs, returnvalMode);
    InputsAccepted(sig.inputs, ctx, InputsState(None, []));
    InputsContents(sig.inputs, ctx, InputsState(None, []));
    ArgsOfTyped(sig.inputs, ctx);
    assert [] + ArgsOf(sig.inputs, ctx) == ArgsOf(sig.inputs, ctx);
  }

  /**
   * The argument markers are read from the method's attributes after the
   * method markers are stripped, so no argument ever receives an enum
   * attribute, and every argument is `to_owned` iff the method itself
   * carries a `ctrlgen_to_owned`.
   */
  lemma ArgumentMarkersAsWritten(sig: Signature, attrs: seq<Attr>, returnvalMode: bool)
    requires MethodSpec(sig, attrs, returnvalMode).result.Ok?
    ensures forall arg :: arg in MethodSpec(sig, attrs, returnvalMode).result.value.args ==>
      arg.enumAttr == [] && (arg.toOwned <==> exists a :: a in attrs && HasName(a, "ctrlgen_to_owned"))
  {
    var args := MethodSpec(sig, attrs, returnvalMode).result.value.args;
    MethodArgMarks(sig, attrs, returnvalMode);
    if args != [] {
      StrippedArgMarks(attrs);
      forall arg | arg in args
        ensures arg.enumAttr == [] && (arg.toOwned <==> exists a :: a in attrs && HasName(a, "ctrlgen_to_owned"))
      {
        var j :| 0 <= j < |args| && args[j] == arg;
      }
    }
  }
}
