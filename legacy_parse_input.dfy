/**
 * The analyzer of the legacy pipeline.  It makes the same checks as the
 * live analyzer, in the same order, but every refusal is a panic, the
 * method markers are kept as the `[...]` groups they carry, doc comments
 * are not collected, argument markers are read from each argument's own
 * attributes, and each parsed method is pushed onto a shared list.
 *
 * A panic aborts the whole expansion, so the specifications say how the
 * impl block is left only when the analysis succeeds.
 */
module LegacyParseInput {
  import opened Wrappers
  import opened Syntax
  import opened Diagnostics
  import opened Model
  import opened Items
  import opened LegacyModel
  import ParseInput

  // ---------------------------------------------------------------------------
  // Method attributes
  // ---------------------------------------------------------------------------

  datatype MarkerGroups = MarkerGroups(enumAttr: seq<Group>, returnAttr: seq<Group>)

  const NoGroups := MarkerGroups([], [])

  /** The first token of a marker, when it is a group. */
  predicate HasLeadingGroup(a: Attr) { |a.tokens| > 0 && a.tokens[0].GroupTok? }

  /** One attribute visited by the `retain` pass over the method's attributes. */
  function MarkerStep(a: Attr, g: MarkerGroups): Result<MarkerGroups, Error>
  {
    if !ParseInput.IsMarker(a) then Ok(g)
    else if !HasLeadingGroup(a) then Err(BadMarkerGroup)
    else if HasName(a, "ctrlgen_enum_attr") then Ok(g.(enumAttr := g.enumAttr + [a.tokens[0].g]))
    else Ok(g.(returnAttr := g.returnAttr + [a.tokens[0].g]))
  }

  /** The rest of that pass, from the attributes still to visit. */
  function MarkersFrom(attrs: seq<Attr>, g: MarkerGroups): Result<MarkerGroups, Error>
    decreases |attrs|
  {
    if attrs == [] then Ok(g)
    else
      var g' :- MarkerStep(attrs[0], g);
      MarkersFrom(attrs[1..], g')
  }

  lemma StripMarkersStep(attrs: seq<Attr>, i: nat)
    requires i < |attrs|
    ensures ParseInput.StripMarkers(attrs[i..])
         == (if ParseInput.IsMarker(attrs[i]) then [] else [attrs[i]]) + ParseInput.StripMarkers(attrs[i + 1..])
  {
    assert attrs[i..][1..] == attrs[i + 1..];
  }

  /** The closure given to `retain`: collects a marker's group, and says whether to keep the attribute. */
  method RetainOne(a: Attr, g: MarkerGroups) returns (r: Result<MarkerGroups, Error>, keep: bool)
    ensures r == MarkerStep(a, g)
    ensures keep == !ParseInput.IsMarker(a)
  {
    var name := GetIdent(a.path);
    keep := true;
    if name == Some("ctrlgen_enum_attr") || name == Some("ctrlgen_return_attr") {
      keep := false;
      if !(|a.tokens| > 0 && a.tokens[0].GroupTok?) {
        return Err(BadMarkerGroup), keep;
      }
      if name == Some("ctrlgen_enum_attr") {
        r := Ok(g.(enumAttr := g.enumAttr + [a.tokens[0].g]));
      } else {
        r := Ok(g.(returnAttr := g.returnAttr + [a.tokens[0].g]));
      }
    } else {
      r := Ok(g);
    }
  }

  /**
   * The `retain` pass: collects the groups of the markers and keeps every
   * other attribute.
   */
  method RetainMarkers(attrs: seq<Attr>) returns (r: Result<MarkerGroups, Error>, kept: seq<Attr>)
    ensures r == MarkersFrom(attrs, NoGroups)
    ensures r.Ok? ==> kept == ParseInput.StripMarkers(attrs)
  {
    var g := NoGroups;
    kept := [];
    for i := 0 to |attrs|
      invariant MarkersFrom(attrs[i..], g) == MarkersFrom(attrs, NoGroups)
      invariant kept + ParseInput.StripMarkers(attrs[i..]) == ParseInput.StripMarkers(attrs)
    {
      var step, keep := RetainOne(attrs[i], g);
      RetainStep(attrs, i, g, kept, step);
      if step.Err? {
        return step, kept;
      }
      if keep {
        kept := kept + [attrs[i]];
      }
      g := step.value;
    }
    assert attrs[|attrs|..] == [];
    r := Ok(g);
  }

  /** One turn of that pass: what it leaves for the rest of the attributes. */
  lemma RetainStep(attrs: seq<Attr>, i: nat, g: MarkerGroups, kept: seq<Attr>, step: Result<MarkerGroups, Error>)
    requires i < |attrs| && step == MarkerStep(attrs[i], g)
    requires MarkersFrom(attrs[i..], g) == MarkersFrom(attrs, NoGroups)
    requires kept + ParseInput.StripMarkers(attrs[i..]) == ParseInput.StripMarkers(attrs)
    ensures step.Err? ==> step == MarkersFrom(attrs, NoGroups)
    ensures step.Ok? ==> MarkersFrom(attrs[i + 1..], step.value) == MarkersFrom(attrs, NoGroups)
    ensures (if ParseInput.IsMarker(attrs[i]) then kept else kept + [attrs[i]]) + ParseInput.StripMarkers(attrs[i + 1..])
         == ParseInput.StripMarkers(attrs)
  {
    assert attrs[i..][1..] == attrs[i + 1..];
    StripMarkersStep(attrs, i);
    var rest := ParseInput.StripMarkers(attrs[i + 1..]);
    if ParseInput.IsMarker(attrs[i]) {
      assert [] + rest == rest;
    } else {
      assert kept + ([attrs[i]] + rest) == (kept + [attrs[i]]) + rest;
    }
  }

  // ---------------------------------------------------------------------------
  // Method inputs
  // ---------------------------------------------------------------------------

  /**
   * One round of the loop over the inputs.  A typed argument's markers come
   * from its own attributes.
   */
  function InputStep(input: FnArg, returnvalMode: bool, methodName: string, st: ParseInput.InputsState)
    : Result<ParseInput.InputsState, Error>
  {
    match input
    case Receiver(_, reference, mutability) =>
      var s :- ParseInput.ReceiverStyleOf(reference, mutability);
      Ok(st.(style := Some(s)))
    case Typed(attrs, pat, ty) =>
      var marks :- ParseInput.ArgMarksFrom(attrs, ParseInput.NoMarks);
      var arg :- ParseInput.ArgumentOf(pat, ty, marks, ParseInput.ArgCtx(returnvalMode, methodName, []));
      Ok(st.(args := st.args + [arg]))
  }

  function InputsFrom(inputs: seq<FnArg>, returnvalMode: bool, methodName: string, st: ParseInput.InputsState)
    : Result<ParseInput.InputsState, Error>
    decreases |inputs|
  {
    if inputs == [] then Ok(st)
    else
      var st' :- InputStep(inputs[0], returnvalMode, methodName, st);
      InputsFrom(inputs[1..], returnvalMode, methodName, st')
  }

  const NoInputs := ParseInput.InputsState(None, [])

  /** One round: read the input, and strip its argument markers. */
  method ReadInput(input: FnArg, returnvalMode: bool, methodName: string, st: ParseInput.InputsState)
    returns (r: Result<ParseInput.InputsState, Error>, newInput: FnArg)
    ensures r == InputStep(input, returnvalMode, methodName, st)
    ensures r.Ok? ==> newInput == ParseInput.StripInput(input)
  {
    newInput := input;
    match input {
      case Receiver(_, reference, mutability) =>
        if reference.Some? {
          if reference.value.Some? {
            return Err(ReceiverLifetime), newInput;
          }
          r := Ok(st.(style := if mutability then Some(Mut) else Some(Ref)));
        } else {
          r := Ok(st.(style := Some(Move)));
        }
      case Typed(argAttrs, pat, ty) =>
        var marks := ParseInput.ReadArgMarks(argAttrs);
        if marks.Err? {
          return Err(marks.error), newInput;
        }
        newInput := Typed(ParseInput.StripArgMarkers(argAttrs), pat, ty);
        match pat {
          case PatIdent(byRef, _, ident) =>
            if byRef {
              return Err(RefArgument), newInput;
            }
            if returnvalMode && ident == "ret" {
              return Err(RetArgument(methodName)), newInput;
            }
            r := Ok(st.(args := st.args + [Argument(ident, ty, marks.value.enumAttr, marks.value.toOwned)]));
          case PatOther(_) =>
            r := Err(PatternArgument);
        }
    }
  }

  /** Every input with its argument markers stripped. */
  function StrippedInputs(inputs: seq<FnArg>): (r: seq<FnArg>)
    ensures |r| == |inputs|
    decreases |inputs|
  {
    if inputs == [] then [] else StrippedInputs(inputs[..|inputs| - 1]) + [ParseInput.StripInput(inputs[|inputs| - 1])]
  }

  /** Every input with its argument markers removed, in order. */
  lemma {:induction false} StrippedInputsAt(inputs: seq<FnArg>)
    ensures forall i :: 0 <= i < |inputs| ==> StrippedInputs(inputs)[i] == ParseInput.StripInput(inputs[i])
    decreases |inputs|
  {
    if inputs != [] {
      var init := inputs[..|inputs| - 1];
      StrippedInputsAt(init);
      assert forall i :: 0 <= i < |init| ==> init[i] == inputs[i];
    }
  }

  /** The loop over the inputs, which strips each one in place. */
  method ReadInputs(inputs: seq<FnArg>, returnvalMode: bool, methodName: string)
    returns (r: Result<ParseInput.InputsState, Error>, newInputs: seq<FnArg>)
    ensures r == InputsFrom(inputs, returnvalMode, methodName, NoInputs)
    ensures r.Ok? ==> newInputs == StrippedInputs(inputs)
  {
    newInputs := inputs;
    var st := NoInputs;
    for i := 0 to |inputs|
      invariant InputsFrom(inputs[i..], returnvalMode, methodName, st) == InputsFrom(inputs, returnvalMode, methodName, NoInputs)
      invariant |newInputs| == |inputs| && newInputs[i..] == inputs[i..]
      invariant forall j :: 0 <= j < i ==> newInputs[j] == ParseInput.StripInput(inputs[j])
    {
      assert inputs[i..][1..] == inputs[i + 1..];
      var step, input := ReadInput(newInputs[i], returnvalMode, methodName, st);
      if step.Err? {
        return step, newInputs;
      }
      newInputs := newInputs[i := input];
      st := step.value;
    }
    StrippedInputsAt(inputs);
    assert inputs[|inputs|..] == [];
    r := Ok(st);
  }

  // ---------------------------------------------------------------------------
  // One method
  // ---------------------------------------------------------------------------

  /** A method read successfully, with its signature and attributes as they are left. */
  datatype Parsed = Parsed(m: LegacyMethod, sig: Signature, attrs: seq<Attr>)

  /** `parse_method` as a value. */
  function MethodSpec(sig: Signature, attrs: seq<Attr>, returnvalMode: bool): Result<Parsed, Error>
  {
    match ParseInput.SigCheck(sig, returnvalMode)
    case Some(e) => Err(e)
    case None =>
      var groups :- MarkersFrom(attrs, NoGroups);
      var st :- InputsFrom(sig.inputs, returnvalMode, sig.ident, NoInputs);
      if st.style.None? then Err(NoReceiver)
      else Ok(Parsed(
        LegacyMethod(sig.ident, st.style.value, st.args, sig.output, groups.enumAttr, groups.returnAttr, sig.asyncness),
        sig.(inputs := StrippedInputs(sig.inputs)),
        ParseInput.StripMarkers(attrs)))
  }

  /** The list every parsed method is pushed onto. */
  class MethodSink {
    var methods: seq<LegacyMethod>

    constructor ()
      ensures methods == []
    {
      methods := [];
    }

    method Push(m: LegacyMethod)
      modifies this
      ensures methods == old(methods) + [m]
    {
      methods := methods + [m];
    }
  }

  /**
   * `parse_method`: reads one method into `sink` and returns its signature
   * and attributes as they are left (the markers removed).
   */
  method ParseMethod(sig: Signature, attrs: seq<Attr>, returnvalMode: bool, sink: MethodSink)
    returns (r: Result<(), Error>, newSig: Signature, newAttrs: seq<Attr>)
    modifies sink
    ensures MethodSpec(sig, attrs, returnvalMode).Err? ==>
      r == Err(MethodSpec(sig, attrs, returnvalMode).error) && sink.methods == old(sink.methods)
    ensures MethodSpec(sig, attrs, returnvalMode).Ok? ==>
      var p := MethodSpec(sig, attrs, returnvalMode).value;
      r == Ok(()) && newSig == p.sig && newAttrs == p.attrs && sink.methods == old(sink.methods) + [p.m]
  {
    newSig, newAttrs := sig, attrs;
    var check := ParseInput.SigCheck(sig, returnvalMode);
    if check.Some? {
      return Err(check.value), newSig, newAttrs;
    }
    var groups, kept := RetainMarkers(attrs);
    if groups.Err? {
      return Err(groups.error), newSig, newAttrs;
    }
    newAttrs := kept;
    var inputs, newInputs := ReadInputs(sig.inputs, returnvalMode, sig.ident);
    if inputs.Err? {
      return Err(inputs.error), newSig, newAttrs;
    }
    newSig := sig.(inputs := newInputs);
    if inputs.value.style.None? {
      return Err(NoReceiver), newSig, newAttrs;
    }
    sink.Push(LegacyMethod(sig.ident, inputs.value.style.value, inputs.value.args, sig.output,
      groups.value.enumAttr, groups.value.returnAttr, sig.asyncness));
    r := Ok(());
  }

  // ---------------------------------------------------------------------------
  // The impl block
  // ---------------------------------------------------------------------------

  /** What one item contributes: the method read from it, if any, and the item as it is left. */
  function ItemOutcome(item: ImplItem, returnvalMode: bool): Result<(Option<LegacyMethod>, ImplItem), Error>
  {
    match item
    case OtherItem(_) => Ok((None, item))
    case MethodItem(attrs, defaultness, sig, block) =>
      if defaultness then Err(Panic(DefaultMethod))
      else
        var p :- MethodSpec(sig, attrs, returnvalMode);
        Ok((Some(p.m), MethodItem(p.attrs, defaultness, p.sig, block)))
  }

  /** The methods pushed so far and the items visited so far, as they are left. */
  datatype Walk = Walk(methods: seq<LegacyMethod>, items: seq<ImplItem>)

  function Pushed(o: Option<LegacyMethod>): seq<LegacyMethod>
  {
    if o.Some? then [o.value] else []
  }

  function ItemsFrom(items: seq<ImplItem>, returnvalMode: bool, w: Walk): Result<Walk, Error>
    decreases |items|
  {
    if items == [] then Ok(w)
    else
      var o :- ItemOutcome(items[0], returnvalMode);
      ItemsFrom(items[1..], returnvalMode, Walk(w.methods + Pushed(o.0), w.items + [o.1]))
  }

  /** `parse_inherent_impl` as a value: the data read and the items as they are left. */
  function ImplSpec(item: ItemImpl, params: LegacyParams): Result<(LegacyInputData, seq<ImplItem>), Error>
  {
    if item.defaultness then Err(DefaultImpl)
    else if item.unsafety then Err(UnsafeImpl)
    else if item.traitPath.Some? then Err(TraitImpl)
    else
      var nt :- ParseInput.SelfTypeOf(item.selfTy);
      var w :- ItemsFrom(item.items, params.returnval.Some?, Walk([], []));
      Ok((LegacyInputData(nt.0, item.generics, nt.1, w.methods, params), w.items))
  }

  /** One round of the loop over the items. */
  method ReadItem(item: ImplItem, returnvalMode: bool, sink: MethodSink)
    returns (r: Result<(), Error>, newItem: ImplItem)
    modifies sink
    ensures ItemOutcome(item, returnvalMode).Err? ==> r == Err(ItemOutcome(item, returnvalMode).error)
    ensures ItemOutcome(item, returnvalMode).Ok? ==>
      var o := ItemOutcome(item, returnvalMode).value;
      r == Ok(()) && newItem == o.1 && sink.methods == old(sink.methods) + Pushed(o.0)
  {
    newItem := item;
    match item {
      case MethodItem(attrs, defaultness, sig, block) =>
        if defaultness {
          return Err(Panic(DefaultMethod)), newItem;
        }
        var m, newSig, newAttrs := ParseMethod(sig, attrs, returnvalMode, sink);
        if m.Err? {
          return m, newItem;
        }
        newItem := MethodItem(newAttrs, defaultness, newSig, block);
        r := Ok(());
      case OtherItem(_) =>
        assert old(sink.methods) + [] == sink.methods;
        r := Ok(());
    }
  }

  /**
   * `parse_inherent_impl`: checks the impl block, reads its methods in
   * order, and leaves the block's items stripped as `ImplSpec` says.
   */
  method ParseInherentImpl(item: ImplBlock, params: LegacyParams) returns (r: Result<LegacyInputData, Error>)
    modifies item
    ensures ImplSpec(old(item.Value()), params).Err? ==> r == Err(ImplSpec(old(item.Value()), params).error)
    ensures ImplSpec(old(item.Value()), params).Ok? ==>
      r == Ok(ImplSpec(old(item.Value()), params).value.0)
      && item.Value() == old(item.Value()).(items := ImplSpec(old(item.Value()), params).value.1)
  {
    var returnvalMode := params.returnval.Some?;
    if item.defaultness {
      return Err(DefaultImpl);
    }
    if item.unsafety {
      return Err(UnsafeImpl);
    }
    if item.traitPath.Some? {
      return Err(TraitImpl);
    }
    var name: string, structArgs: PathArguments;
    match item.selfTy {
      case TyPath(qself, p) =>
        if qself {
          return Err(TrickyType);
        }
        if |p.segments| != 1 {
          return Err(NotSingleSegment);
        }
        name, structArgs := p.segments[0].ident, p.segments[0].arguments;
      case _ =>
        return Err(NotSimpleType);
    }
    ghost var start := item.items;
    var sink := new MethodSink();
    assert start[0..] == start;
    for k := 0 to |item.items|
      invariant |item.items| == |start| && item.items[k..] == start[k..]
      invariant ItemsFrom(start[k..], returnvalMode, Walk(sink.methods, item.items[..k]))
             == ItemsFrom(start, returnvalMode, Walk([], []))
    {
      ghost var before := item.items;
      assert start[k..][1..] == start[k + 1..];
      var step, newItem := ReadItem(item.items[k], returnvalMode, sink);
      if step.Err? {
        return Err(step.error);
      }
      item.items := item.items[k := newItem];
      assert item.items[..k + 1] == before[..k] + [newItem];
      assert item.items[k + 1..] == start[k + 1..];
    }
    assert start[|start|..] == [] && item.items[..|item.items|] == item.items;
    r := Ok(LegacyInputData(name, item.generics, structArgs, sink.methods, params));
  }

  // ---------------------------------------------------------------------------
  // Which check reports which error
  // ---------------------------------------------------------------------------

  lemma {:induction false} MarkersErrors(attrs: seq<Attr>, g: MarkerGroups)
    ensures MarkersFrom(attrs, g).Err? ==> MarkersFrom(attrs, g).error == BadMarkerGroup
    decreases |attrs|
  {
    if attrs != [] && MarkerStep(attrs[0], g).Ok? {
      MarkersErrors(attrs[1..], MarkerStep(attrs[0], g).value);
    }
  }

  lemma {:induction false} InputsErrors(inputs: seq<FnArg>, returnvalMode: bool, methodName: string, st: ParseInput.InputsState)
    ensures InputsFrom(inputs, returnvalMode, methodName, st).Err? ==>
      ParseInput.IsInputError(InputsFrom(inputs, returnvalMode, methodName, st).error)
    decreases |inputs|
  {
    if inputs != [] {
      if inputs[0].Typed? {
        ParseInput.ArgMarksErrors(inputs[0].attrs, ParseInput.NoMarks);
      }
      var step := InputStep(inputs[0], returnvalMode, methodName, st);
      if step.Ok? {
        InputsErrors(inputs[1..], returnvalMode, methodName, step.value);
      }
    }
  }

  /** A method is refused only with one of the errors a single method can be refused with. */
  lemma MethodErrors(sig: Signature, attrs: seq<Attr>, returnvalMode: bool)
    ensures MethodSpec(sig, attrs, returnvalMode).Err? ==> ParseInput.IsMethodError(MethodSpec(sig, attrs, returnvalMode).error)
  {
    MarkersErrors(attrs, NoGroups);
    InputsErrors(sig.inputs, returnvalMode, sig.ident, NoInputs);
  }

  lemma {:induction false} ItemsErrors(items: seq<ImplItem>, returnvalMode: bool, w: Walk)
    ensures ItemsFrom(items, returnvalMode, w).Err? ==>
      var e := ItemsFrom(items, returnvalMode, w).error;
      ParseInput.IsMethodError(e) || e == Panic(DefaultMethod)
    decreases |items|
  {
    if items != [] {
      if items[0].MethodItem? {
        MethodErrors(items[0].sig, items[0].attrs, returnvalMode);
      }
      var o := ItemOutcome(items[0], returnvalMode);
      if o.Ok? {
        ItemsErrors(items[1..], returnvalMode, Walk(w.methods + Pushed(o.value.0), w.items + [o.value.1]));
      }
    }
  }

  /** Default, `unsafe` and trait impls panic, in that order, and nothing else panics for those reasons. */
  lemma ImplRejections(item: ItemImpl, params: LegacyParams)
    ensures ImplSpec(item, params) == Err(DefaultImpl) <==> item.defaultness
    ensures ImplSpec(item, params) == Err(UnsafeImpl) <==> !item.defaultness && item.unsafety
    ensures ImplSpec(item, params) == Err(TraitImpl) <==> !item.defaultness && !item.unsafety && item.traitPath.Some?
  {
    ItemsErrors(item.items, params.returnval.Some?, Walk([], []));
  }

  /** The self type must be a one-segment path without a qualified self; its segment gives the name. */
  lemma ImplSelfType(item: ItemImpl, params: LegacyParams)
    requires !item.defaultness && !item.unsafety && item.traitPath.None?
    ensures ImplSpec(item, params) == Err(NotSimpleType) <==> !item.selfTy.TyPath?
    ensures ImplSpec(item, params) == Err(TrickyType) <==> item.selfTy.TyPath? && item.selfTy.qself
    ensures ImplSpec(item, params) == Err(NotSingleSegment)
        <==> item.selfTy.TyPath? && !item.selfTy.qself && |item.selfTy.path.segments| != 1
    ensures ImplSpec(item, params).Ok? ==>
      var d := ImplSpec(item, params).value.0;
      && item.selfTy.TyPath? && !item.selfTy.qself && |item.selfTy.path.segments| == 1
      && d.name == item.selfTy.path.segments[0].ident
      && d.structArgs == item.selfTy.path.segments[0].arguments
      && d.generics == item.generics
      && d.params == params
  {
    ItemsErrors(item.items, params.returnval.Some?, Walk([], []));
  }

  /** The signature checks come first and in the source's order; then a marker without a group. */
  lemma MethodRejections(sig: Signature, attrs: seq<Attr>, returnvalMode: bool)
    ensures ParseInput.SigCheck(sig, returnvalMode).Some? ==>
      MethodSpec(sig, attrs, returnvalMode) == Err(ParseInput.SigCheck(sig, returnvalMode).value)
    ensures ParseInput.SigCheck(sig, returnvalMode).None? && MarkersFrom(attrs, NoGroups).Err? ==>
      MethodSpec(sig, attrs, returnvalMode) == Err(BadMarkerGroup)
  {
    MarkersErrors(attrs, NoGroups);
  }

  // ---------------------------------------------------------------------------
  // What a method is read into
  // ---------------------------------------------------------------------------

  /** A marker with a group to take; an attribute that is no marker always qualifies. */
  predicate GroupedMarker(a: Attr) { !ParseInput.IsMarker(a) || HasLeadingGroup(a) }

  predicate AllGrouped(attrs: seq<Attr>) { forall i :: 0 <= i < |attrs| ==> GroupedMarker(attrs[i]) }

  /** The groups of the markers called `name`, in order. */
  function GroupsNamed(attrs: seq<Attr>, name: string): seq<Group>
    decreases |attrs|
  {
    if attrs == [] then []
    else
      (if HasName(attrs[0], name) && HasLeadingGroup(attrs[0]) then [attrs[0].tokens[0].g] else [])
      + GroupsNamed(attrs[1..], name)
  }

  lemma AllGroupedSplit(attrs: seq<Attr>)
    requires attrs != []
    ensures AllGrouped(attrs) <==> GroupedMarker(attrs[0]) && AllGrouped(attrs[1..])
  {
    var rest := attrs[1..];
    if GroupedMarker(attrs[0]) && AllGrouped(rest) {
      forall i | 0 <= i < |attrs| ensures GroupedMarker(attrs[i]) {
        if i > 0 { assert attrs[i] == rest[i - 1]; }
      }
    }
    if AllGrouped(attrs) {
      forall i | 0 <= i < |rest| ensures GroupedMarker(rest[i]) { assert rest[i] == attrs[i + 1]; }
    }
  }

  /**
   * The `retain` pass succeeds iff every marker starts with a group, and then
   * it appends the groups of the enum markers and of the return markers,
   * each in source order.
   */
  lemma {:induction false} MarkersMeaning(attrs: seq<Attr>, g: MarkerGroups)
    ensures MarkersFrom(attrs, g).Ok? <==> AllGrouped(attrs)
    ensures MarkersFrom(attrs, g).Ok? ==> MarkersFrom(attrs, g).value == MarkerGroups(
      g.enumAttr + GroupsNamed(attrs, "ctrlgen_enum_attr"),
      g.returnAttr + GroupsNamed(attrs, "ctrlgen_return_attr"))
    decreases |attrs|
  {
    if attrs == [] {
      assert g.enumAttr + [] == g.enumAttr && g.returnAttr + [] == g.returnAttr;
    } else {
      var a := attrs[0];
      var rest := attrs[1..];
      AllGroupedSplit(attrs);
      var step := MarkerStep(a, g);
      if step.Ok? {
        MarkersMeaning(rest, step.value);
        var e := if HasName(a, "ctrlgen_enum_attr") && HasLeadingGroup(a) then [a.tokens[0].g] else [];
        var rt := if HasName(a, "ctrlgen_return_attr") && HasLeadingGroup(a) then [a.tokens[0].g] else [];
        assert step.value == MarkerGroups(g.enumAttr + e, g.returnAttr + rt);
        AppendAssoc(g.enumAttr, e, GroupsNamed(rest, "ctrlgen_enum_attr"));
        AppendAssoc(g.returnAttr, rt, GroupsNamed(rest, "ctrlgen_return_attr"));
        assert e + GroupsNamed(rest, "ctrlgen_enum_attr") == GroupsNamed(attrs, "ctrlgen_enum_attr");
        assert rt + GroupsNamed(rest, "ctrlgen_return_attr") == GroupsNamed(attrs, "ctrlgen_return_attr");
      }
    }
  }

  /** Every attribute ends up in exactly one place: an enum group, a return group, or the kept attributes. */
  lemma {:induction false} MarkersPartition(attrs: seq<Attr>)
    requires AllGrouped(attrs)
    ensures |GroupsNamed(attrs, "ctrlgen_enum_attr")| + |GroupsNamed(attrs, "ctrlgen_return_attr")|
          + |ParseInput.StripMarkers(attrs)| == |attrs|
    decreases |attrs|
  {
    if attrs != [] {
      AllGroupedSplit(attrs);
      MarkersPartition(attrs[1..]);
    }
  }

  /** The style of the last receiver among `inputs`, or `None` when none is a receiver. */
  lemma {:induction false} NoReceiverNoStyle(inputs: seq<FnArg>)
    requires forall i :: 0 <= i < |inputs| ==> !inputs[i].Receiver?
    ensures ParseInput.LastReceiver(inputs).None?
    decreases |inputs|
  {
    if inputs != [] {
      assert forall i :: 0 <= i < |inputs[1..]| ==> inputs[1..][i] == inputs[i + 1];
      NoReceiverNoStyle(inputs[1..]);
      assert !inputs[0].Receiver?;
    }
  }

  /** The argument a typed input gives: its plain name, its declared type and the markers on its own attributes. */
  predicate ArgFromOwnAttrs(input: FnArg, returnvalMode: bool, arg: Argument)
  {
    && input.Typed? && input.pat.PatIdent? && !input.pat.byRef
    && !(returnvalMode && input.pat.ident == "ret")
    && ParseInput.ArgMarksFrom(input.attrs, ParseInput.NoMarks).Ok?
    && arg == Argument(input.pat.ident, input.ty,
                       ParseInput.ArgMarksFrom(input.attrs, ParseInput.NoMarks).value.enumAttr,
                       ParseInput.ArgMarksFrom(input.attrs, ParseInput.NoMarks).value.toOwned)
  }

  /**
   * A successful loop over the inputs ends with the style of the last
   * receiver and appends one argument per typed input, in order, each read
   * from that input's own attributes.
   */
  lemma {:induction false} InputsMeaning(inputs: seq<FnArg>, returnvalMode: bool, methodName: string, st: ParseInput.InputsState)
    ensures InputsFrom(inputs, returnvalMode, methodName, st).Ok? ==>
      var r := InputsFrom(inputs, returnvalMode, methodName, st).value;
      var typed := ParseInput.TypedInputs(inputs);
      && r.style == (if ParseInput.LastReceiver(inputs).Some? then ParseInput.LastReceiver(inputs) else st.style)
      && |r.args| == |st.args| + |typed|
      && r.args[..|st.args|] == st.args
      && forall j :: 0 <= j < |typed| ==> ArgFromOwnAttrs(typed[j], returnvalMode, r.args[|st.args| + j])
    decreases |inputs|
  {
    var res := InputsFrom(inputs, returnvalMode, methodName, st);
    if res.Ok? {
      var r := res.value;
      InputsStyle(inputs, returnvalMode, methodName, st, r);
      InputsArgs(inputs, returnvalMode, methodName, st, r);
      OwnArgsAt(ParseInput.TypedInputs(inputs), returnvalMode, r.args[|st.args|..]);
    }
  }

  /** The style after the loop is that of the last receiver, or the starting one. */
  lemma {:induction false} InputsStyle(inputs: seq<FnArg>, returnvalMode: bool, methodName: string,
                                       st: ParseInput.InputsState, r: ParseInput.InputsState)
    requires InputsFrom(inputs, returnvalMode, methodName, st) == Ok(r)
    ensures r.style == (if ParseInput.LastReceiver(inputs).Some? then ParseInput.LastReceiver(inputs) else st.style)
    decreases |inputs|
  {
    if inputs != [] {
      var x := inputs[0];
      var st' := InputStep(x, returnvalMode, methodName, st).value;
      InputStepMeaning(x, returnvalMode, methodName, st);
      InputsStyle(inputs[1..], returnvalMode, methodName, st', r);
    }
  }

  /** Each typed input paired, in order, with the argument read from its own attributes. */
  predicate OwnArgs(typed: seq<FnArg>, returnvalMode: bool, args: seq<Argument>)
    decreases |typed|
  {
    && |args| == |typed|
    && (typed != [] ==> ArgFromOwnAttrs(typed[0], returnvalMode, args[0])
                        && OwnArgs(typed[1..], returnvalMode, args[1..]))
  }

  /** `OwnArgs` position by position. */
  lemma {:induction false} OwnArgsAt(typed: seq<FnArg>, returnvalMode: bool, args: seq<Argument>)
    requires OwnArgs(typed, returnvalMode, args)
    ensures |args| == |typed|
    ensures forall j :: 0 <= j < |typed| ==> ArgFromOwnAttrs(typed[j], returnvalMode, args[j])
    decreases |typed|
  {
    if typed != [] {
      OwnArgsAt(typed[1..], returnvalMode, args[1..]);
      forall j | 0 < j < |typed| ensures ArgFromOwnAttrs(typed[j], returnvalMode, args[j]) {
        assert typed[j] == typed[1..][j - 1] && args[j] == args[1..][j - 1];
      }
    }
  }

  /** The arguments after the loop: the starting ones, then one per typed input. */
  lemma {:induction false} InputsArgs(inputs: seq<FnArg>, returnvalMode: bool, methodName: string,
                                      st: ParseInput.InputsState, r: ParseInput.InputsState)
    requires InputsFrom(inputs, returnvalMode, methodName, st) == Ok(r)
    ensures |r.args| >= |st.args| && r.args[..|st.args|] == st.args
    ensures OwnArgs(ParseInput.TypedInputs(inputs), returnvalMode, r.args[|st.args|..])
    decreases |inputs|
  {
    if inputs != [] {
      var x := inputs[0];
      var rest := inputs[1..];
      var st' := InputStep(x, returnvalMode, methodName, st).value;
      InputStepMeaning(x, returnvalMode, methodName, st);
      InputsArgs(rest, returnvalMode, methodName, st', r);
      if x.Typed? {
        var typed := [x] + ParseInput.TypedInputs(rest);
        assert ParseInput.TypedInputs(inputs) == typed;
        TypedArgsStep(st.args, st'.args, r.args);
        assert typed[0] == x && typed[1..] == ParseInput.TypedInputs(rest);
      } else {
        assert ParseInput.TypedInputs(inputs) == ParseInput.TypedInputs(rest);
      }
    } else {
      assert r.args[|st.args|..] == [];
    }
  }

  /** What one successful round does to the state. */
  lemma InputStepMeaning(x: FnArg, returnvalMode: bool, methodName: string, st: ParseInput.InputsState)
    requires InputStep(x, returnvalMode, methodName, st).Ok?
    ensures
      var st' := InputStep(x, returnvalMode, methodName, st).value;
      && (x.Receiver? ==> st'.args == st.args && st'.style.Some?
                          && ParseInput.ReceiverStyleOf(x.reference, x.mutability) == Ok(st'.style.value))
      && (x.Typed? ==> st'.style == st.style && |st'.args| == |st.args| + 1 && st'.args[..|st.args|] == st.args
                       && ArgFromOwnAttrs(x, returnvalMode, st'.args[|st.args|]))
  {
    if x.Typed? {
      var st' := InputStep(x, returnvalMode, methodName, st).value;
      assert st'.args[..|st.args|] == st.args;
    }
  }

  /** Slicing the arguments after one more was appended in front of the rest. */
  lemma TypedArgsStep(args: seq<Argument>, mid: seq<Argument>, out: seq<Argument>)
    requires |mid| == |args| + 1 && mid[..|args|] == args
    requires |out| >= |mid| && out[..|mid|] == mid
    ensures out[..|args|] == args
    ensures out[|args|..][0] == mid[|args|] && out[|args|..][1..] == out[|mid|..]
  {
    assert out[..|args|] == mid[..|args|];
    assert out[|args|] == mid[|args|];
  }

  /** The steps that a method read successfully got through. */
  lemma MethodSpecParts(sig: Signature, attrs: seq<Attr>, returnvalMode: bool)
    requires MethodSpec(sig, attrs, returnvalMode).Ok?
    ensures ParseInput.SigCheck(sig, returnvalMode).None?
    ensures MarkersFrom(attrs, NoGroups).Ok?
    ensures InputsFrom(sig.inputs, returnvalMode, sig.ident, NoInputs).Ok?
    ensures
      var groups := MarkersFrom(attrs, NoGroups).value;
      var st := InputsFrom(sig.inputs, returnvalMode, sig.ident, NoInputs).value;
      && st.style.Some?
      && MethodSpec(sig, attrs, returnvalMode).value == Parsed(
           LegacyMethod(sig.ident, st.style.value, st.args, sig.output, groups.enumAttr, groups.returnAttr, sig.asyncness),
           sig.(inputs := StrippedInputs(sig.inputs)),
           ParseInput.StripMarkers(attrs))
  {
  }

  /**
   * A method read successfully: its name, return type and `async` flag come
   * from the signature, its groups from its markers in order, its receiver
   * style from the last receiver, and its arguments from the typed inputs in
   * order, each with the markers on its own attributes; the signature is left
   * with every input stripped and the attributes without the markers.
   */
  lemma MethodMeaning(sig: Signature, attrs: seq<Attr>, returnvalMode: bool)
    requires MethodSpec(sig, attrs, returnvalMode).Ok?
    ensures ParseInput.SigCheck(sig, returnvalMode).None? && AllGrouped(attrs)
    ensures
      var p := MethodSpec(sig, attrs, returnvalMode).value;
      var typed := ParseInput.TypedInputs(sig.inputs);
      && p.m.name == sig.ident && p.m.ret == sig.output && p.m.isAsync == sig.asyncness
      && p.m.enumAttr == GroupsNamed(attrs, "ctrlgen_enum_attr")
      && p.m.returnAttr == GroupsNamed(attrs, "ctrlgen_return_attr")
      && ParseInput.LastReceiver(sig.inputs) == Some(p.m.receiverStyle)
      && |p.m.args| == |typed|
      && (forall j :: 0 <= j < |typed| ==> ArgFromOwnAttrs(typed[j], returnvalMode, p.m.args[j]))
      && p.sig == sig.(inputs := StrippedInputs(sig.inputs))
      && p.attrs == ParseInput.StripMarkers(attrs)
  {
    MethodSpecParts(sig, attrs, returnvalMode);
    MarkersMeaning(attrs, NoGroups);
    InputsMeaning(sig.inputs, returnvalMode, sig.ident, NoInputs);
    var e: seq<Argument> := [];
    assert |e| == 0;
  }

  /** A method none of whose inputs is a receiver panics, once everything before that check is accepted. */
  lemma NoReceiverRefused(sig: Signature, attrs: seq<Attr>, returnvalMode: bool)
    requires ParseInput.SigCheck(sig, returnvalMode).None? && AllGrouped(attrs)
    requires InputsFrom(sig.inputs, returnvalMode, sig.ident, NoInputs).Ok?
    requires forall i :: 0 <= i < |sig.inputs| ==> !sig.inputs[i].Receiver?
    ensures MethodSpec(sig, attrs, returnvalMode) == Err(NoReceiver)
  {
    MarkersMeaning(attrs, NoGroups);
    InputsMeaning(sig.inputs, returnvalMode, sig.ident, NoInputs);
    NoReceiverNoStyle(sig.inputs);
  }

  // ---------------------------------------------------------------------------
  // The items
  // ---------------------------------------------------------------------------

  /** An item as a successful analysis leaves it. */
  function Rewrite(item: ImplItem, returnvalMode: bool): ImplItem
  {
    match item
    case OtherItem(_) => item
    case MethodItem(attrs, defaultness, sig, block) =>
      var p := MethodSpec(sig, attrs, returnvalMode);
      if p.Ok? then MethodItem(p.value.attrs, defaultness, p.value.sig, block) else item
  }

  /** A successful walk leaves every item rewritten in place, in order. */
  lemma {:induction false} ItemsRewritten(items: seq<ImplItem>, returnvalMode: bool, w: Walk)
    ensures ItemsFrom(items, returnvalMode, w).Ok? ==>
      var r := ItemsFrom(items, returnvalMode, w).value;
      && |r.items| == |w.items| + |items|
      && r.items[..|w.items|] == w.items
      && forall i :: 0 <= i < |items| ==> r.items[|w.items| + i] == Rewrite(items[i], returnvalMode)
    decreases |items|
  {
    var res := ItemsFrom(items, returnvalMode, w);
    if items != [] && res.Ok? {
      var o := ItemOutcome(items[0], returnvalMode).value;
      var w' := Walk(w.methods + Pushed(o.0), w.items + [o.1]);
      var rest := items[1..];
      ItemsRewritten(rest, returnvalMode, w');
      var r := res.value;
      assert r == ItemsFrom(rest, returnvalMode, w').value;
      assert r.items[..|w.items|] == w'.items[..|w.items|];
      assert o.1 == Rewrite(items[0], returnvalMode);
      forall i | 0 <= i < |items| ensures r.items[|w.items| + i] == Rewrite(items[i], returnvalMode) {
        if i == 0 {
          assert r.items[|w.items|] == w'.items[|w.items|];
        } else {
          assert r.items[|w.items| + i] == r.items[|w'.items| + (i - 1)];
          assert items[i] == rest[i - 1];
        }
      }
    }
  }

  /** `m` is what the method item `it` is read into. */
  predicate MethodRead(it: ImplItem, returnvalMode: bool, m: LegacyMethod)
  {
    it.MethodItem? && !it.defaultness && MethodSpec(it.sig, it.attrs, returnvalMode).Ok?
    && MethodSpec(it.sig, it.attrs, returnvalMode).value.m == m
  }

  lemma ItemOutcomeMethod(item: ImplItem, returnvalMode: bool)
    requires ItemOutcome(item, returnvalMode).Ok?
    ensures item.OtherItem? ==> ItemOutcome(item, returnvalMode).value.0.None?
    ensures item.MethodItem? ==>
      ItemOutcome(item, returnvalMode).value.0.Some?
      && MethodRead(item, returnvalMode, ItemOutcome(item, returnvalMode).value.0.value)
  {
  }

  /** Every method item of `items` is not `default` and is read successfully. */
  predicate AllRead(items: seq<ImplItem>, returnvalMode: bool)
    decreases |items|
  {
    items != [] ==>
      && (items[0].MethodItem? ==> !items[0].defaultness && MethodSpec(items[0].sig, items[0].attrs, returnvalMode).Ok?)
      && AllRead(items[1..], returnvalMode)
  }

  /** The method one item is read into, if it is a method item that is read successfully. */
  function ReadOf(it: ImplItem, returnvalMode: bool): seq<LegacyMethod>
  {
    if it.MethodItem? && MethodSpec(it.sig, it.attrs, returnvalMode).Ok?
    then [MethodSpec(it.sig, it.attrs, returnvalMode).value.m] else []
  }

  /** The methods that the method items of `items` are read into, in order. */
  function MethodsRead(items: seq<ImplItem>, returnvalMode: bool): seq<LegacyMethod>
    decreases |items|
  {
    if items == [] then [] else ReadOf(items[0], returnvalMode) + MethodsRead(items[1..], returnvalMode)
  }

  /** What one item contributes to a successful walk. */
  lemma OutcomeRead(it: ImplItem, returnvalMode: bool)
    requires ItemOutcome(it, returnvalMode).Ok?
    ensures it.MethodItem? ==> !it.defaultness && MethodSpec(it.sig, it.attrs, returnvalMode).Ok?
    ensures Pushed(ItemOutcome(it, returnvalMode).value.0) == ReadOf(it, returnvalMode)
  {
  }

  /** A successful walk reads every method item, and appends what they are read into. */
  lemma {:induction false} ItemsWalkMethods(items: seq<ImplItem>, returnvalMode: bool, w: Walk, r: Walk)
    requires ItemsFrom(items, returnvalMode, w) == Ok(r)
    ensures AllRead(items, returnvalMode)
    ensures r.methods == w.methods + MethodsRead(items, returnvalMode)
    decreases |items|
  {
    if items == [] {
      assert w.methods + [] == w.methods;
    } else {
      ItemsFromStep(items, returnvalMode, w);
      var w' := Walk(w.methods + ReadOf(items[0], returnvalMode), w.items + [ItemOutcome(items[0], returnvalMode).value.1]);
      ItemsWalkMethods(items[1..], returnvalMode, w', r);
      ReadCons(items, returnvalMode, w.methods, r.methods);
    }
  }

  /** Reading the first item and then the rest is reading all of them. */
  lemma ReadCons(items: seq<ImplItem>, returnvalMode: bool, before: seq<LegacyMethod>, after: seq<LegacyMethod>)
    requires items != []
    requires items[0].MethodItem? ==> !items[0].defaultness && MethodSpec(items[0].sig, items[0].attrs, returnvalMode).Ok?
    requires AllRead(items[1..], returnvalMode)
    requires after == before + ReadOf(items[0], returnvalMode) + MethodsRead(items[1..], returnvalMode)
    ensures AllRead(items, returnvalMode)
    ensures after == before + MethodsRead(items, returnvalMode)
  {
    AppendAssoc(before, ReadOf(items[0], returnvalMode), MethodsRead(items[1..], returnvalMode));
  }

  /** The first round of a successful walk, and the walk that is left after it. */
  lemma ItemsFromStep(items: seq<ImplItem>, returnvalMode: bool, w: Walk)
    requires items != [] && ItemsFrom(items, returnvalMode, w).Ok?
    ensures ItemOutcome(items[0], returnvalMode).Ok?
    ensures items[0].MethodItem? ==> !items[0].defaultness && MethodSpec(items[0].sig, items[0].attrs, returnvalMode).Ok?
    ensures ItemsFrom(items, returnvalMode, w)
         == ItemsFrom(items[1..], returnvalMode,
              Walk(w.methods + ReadOf(items[0], returnvalMode), w.items + [ItemOutcome(items[0], returnvalMode).value.1]))
  {
    OutcomeRead(items[0], returnvalMode);
  }

  /** The methods read from the method items, paired with them one by one. */
  lemma {:induction false} MethodsReadMeaning(items: seq<ImplItem>, returnvalMode: bool)
    requires AllRead(items, returnvalMode)
    ensures
      var mi := ParseInput.MethodItems(items);
      var ms := MethodsRead(items, returnvalMode);
      && |ms| == |mi|
      && forall j :: 0 <= j < |mi| ==> MethodRead(mi[j], returnvalMode, ms[j])
    decreases |items|
  {
    if items != [] {
      var rest := items[1..];
      MethodsReadMeaning(rest, returnvalMode);
      var it := items[0];
      if it.MethodItem? {
        var m := MethodSpec(it.sig, it.attrs, returnvalMode).value.m;
        assert ParseInput.MethodItems(items) == [it] + ParseInput.MethodItems(rest);
        assert ReadOf(it, returnvalMode) == [m];
        MethodsStep(it, ParseInput.MethodItems(rest), ParseInput.MethodItems(items), returnvalMode, m, MethodsRead(rest, returnvalMode));
      } else {
        assert ParseInput.MethodItems(items) == ParseInput.MethodItems(rest);
      }
    }
  }

  /** A successful walk pushes one method per method item, in order, none of them `default`. */
  lemma ItemsMethods(items: seq<ImplItem>, returnvalMode: bool, w: Walk)
    ensures ItemsFrom(items, returnvalMode, w).Ok? ==>
      var r := ItemsFrom(items, returnvalMode, w).value;
      var mi := ParseInput.MethodItems(items);
      && |r.methods| == |w.methods| + |mi|
      && r.methods[..|w.methods|] == w.methods
      && forall j :: 0 <= j < |mi| ==> MethodRead(mi[j], returnvalMode, r.methods[|w.methods| + j])
  {
    if ItemsFrom(items, returnvalMode, w).Ok? {
      ItemsWalkMethods(items, returnvalMode, w, ItemsFrom(items, returnvalMode, w).value);
      MethodsReadMeaning(items, returnvalMode);
      var r := ItemsFrom(items, returnvalMode, w).value;
      var ms := MethodsRead(items, returnvalMode);
      assert r.methods[..|w.methods|] == w.methods;
      forall j | 0 <= j < |ParseInput.MethodItems(items)|
        ensures MethodRead(ParseInput.MethodItems(items)[j], returnvalMode, r.methods[|w.methods| + j])
      {
        assert r.methods[|w.methods| + j] == ms[j];
      }
    }
  }

  /** The method read from one method item followed by those read from the method items after it. */
  lemma MethodsStep(it: ImplItem, rest: seq<ImplItem>, all: seq<ImplItem>, returnvalMode: bool,
                    m: LegacyMethod, ms: seq<LegacyMethod>)
    requires all == [it] + rest && MethodRead(it, returnvalMode, m)
    requires |ms| == |rest| && forall j :: 0 <= j < |rest| ==> MethodRead(rest[j], returnvalMode, ms[j])
    ensures |[m] + ms| == |all|
    ensures forall j :: 0 <= j < |all| ==> MethodRead(all[j], returnvalMode, ([m] + ms)[j])
  {
    forall j | 0 <= j < |all|
      ensures MethodRead(all[j], returnvalMode, ([m] + ms)[j])
    {
      if j > 0 {
        assert all[j] == rest[j - 1] && ([m] + ms)[j] == ms[j - 1];
      }
    }
  }

  /** The items walk that decides a successful analysis. */
  lemma ImplWalk(item: ItemImpl, params: LegacyParams)
    requires ImplSpec(item, params).Ok?
    ensures ItemsFrom(item.items, params.returnval.Some?, Walk([], [])).Ok?
    ensures ItemsFrom(item.items, params.returnval.Some?, Walk([], [])).value
         == Walk(ImplSpec(item, params).value.0.methods, ImplSpec(item, params).value.1)
  {
  }

  /**
   * A successful analysis reads one method per method item of the block, in
   * order, onto the shared list, and rewrites every item in place.
   */
  lemma ImplMeaning(item: ItemImpl, params: LegacyParams)
    requires ImplSpec(item, params).Ok?
    ensures
      var rv := params.returnval.Some?;
      var ms := ImplSpec(item, params).value.0.methods;
      var mi := ParseInput.MethodItems(item.items);
      && |ms| == |mi|
      && forall j :: 0 <= j < |mi| ==> MethodRead(mi[j], rv, ms[j])
    ensures
      var its := ImplSpec(item, params).value.1;
      && |its| == |item.items|
      && forall i :: 0 <= i < |item.items| ==> its[i] == Rewrite(item.items[i], params.returnval.Some?)
  {
    var rv := params.returnval.Some?;
    var w0 := Walk([], []);
    ImplWalk(item, params);
    ItemsMethods(item.items, rv, w0);
    ItemsRewritten(item.items, rv, w0);
    var w := ItemsFrom(item.items, rv, w0).value;
    assert |w0.methods| == 0 && |w0.items| == 0;
    var mi := ParseInput.MethodItems(item.items);
    forall j | 0 <= j < |mi| ensures MethodRead(mi[j], rv, w.methods[j]) {
      assert w.methods[j] == w.methods[|w0.methods| + j];
    }
    forall i | 0 <= i < |item.items| ensures w.items[i] == Rewrite(item.items[i], rv) {
      assert w.items[i] == w.items[|w0.items| + i];
    }
  }

  // ---------------------------------------------------------------------------
  // Where argument markers are read from
  // ---------------------------------------------------------------------------

  const ToOwnedMarker := Attr(AttrPath(false, ["ctrlgen_to_owned"]), [])

  /** `fn f(&self, #[ctrlgen_to_owned] s: T)`. */
  function ToOwnedSig(ty: Ty): Signature
  {
    Signature(false, false, false, None, "f", NoGenerics,
      [Receiver([], Some(None), false), Typed([ToOwnedMarker], PatIdent(false, false, "s"), ty)], false, None)
  }

  /**
   * The marker on the argument itself makes the argument `to_owned` here,
   * while the live analyzer, which reads argument markers from the method's
   * attributes, leaves it unset.
   */
  lemma OwnAttrsContrast(ty: Ty)
    ensures MethodSpec(ToOwnedSig(ty), [], false).Ok?
    ensures MethodSpec(ToOwnedSig(ty), [], false).value.m.args == [Argument("s", ty, [], true)]
    ensures ParseInput.MethodSpec(ToOwnedSig(ty), [], false).result.Ok?
    ensures ParseInput.MethodSpec(ToOwnedSig(ty), [], false).result.value.args == [Argument("s", ty, [], false)]
  {
    var sig := ToOwnedSig(ty);
    var typed := sig.inputs[1];
    assert ParseInput.ArgMarksFrom([ToOwnedMarker], ParseInput.NoMarks) == Ok(ParseInput.ArgMarks([], true)) by {
      assert [ToOwnedMarker][1..] == [];
    }
    var st1 := ParseInput.InputsState(Some(Ref), []);
    var pat := PatIdent(false, false, "s");
    assert typed == Typed([ToOwnedMarker], pat, ty);
    assert InputStep(sig.inputs[0], false, "f", NoInputs) == Ok(st1);
    var ctx := ParseInput.ArgCtx(false, "f", []);
    assert ParseInput.ArgumentOf(pat, ty, ParseInput.ArgMarks([], true), ctx) == Ok(Argument("s", ty, [], true));
    assert st1.args + [Argument("s", ty, [], true)] == [Argument("s", ty, [], true)];
    assert InputStep(typed, false, "f", st1) == Ok(st1.(args := [Argument("s", ty, [], true)]));
    assert sig.inputs[1..][1..] == [];
    assert InputsFrom(sig.inputs[1..][1..], false, "f", st1.(args := [Argument("s", ty, [], true)]))
        == Ok(st1.(args := [Argument("s", ty, [], true)]));
    assert InputsFrom(sig.inputs[1..], false, "f", st1) == Ok(st1.(args := [Argument("s", ty, [], true)]));
    assert InputsFrom(sig.inputs, false, "f", NoInputs) == Ok(st1.(args := [Argument("s", ty, [], true)]));
    assert ParseInput.StripMarkers([]) == [];
    assert ParseInput.ArgMarksFrom([], ParseInput.NoMarks) == Ok(ParseInput.NoMarks);
    var live0 := ParseInput.InputStep(sig.inputs[0], ctx, ParseInput.InputsState(None, []));
    assert live0.0 == Ok(st1);
    assert ParseInput.ArgumentOf(pat, ty, ParseInput.NoMarks, ctx) == Ok(Argument("s", ty, [], false));
    assert st1.args + [Argument("s", ty, [], false)] == [Argument("s", ty, [], false)];
    var live1 := ParseInput.InputStep(typed, ctx, st1);
    assert live1.0 == Ok(st1.(args := [Argument("s", ty, [], false)]));
    assert ParseInput.InputsFrom(sig.inputs[1..], ctx, st1).0 == live1.0;
    assert ParseInput.InputsFrom(sig.inputs, ctx, ParseInput.InputsState(None, [])).0
        == Ok(st1.(args := [Argument("s", ty, [], false)]));
  }
}
