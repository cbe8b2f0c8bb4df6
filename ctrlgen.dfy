/**
 * `ctrlgen_impl`, the body of the attribute macro: read the configuration,
 * analyse the impl block (which strips the macro's markers from it in
 * place), then emit the enum, the dispatcher, the proxies and the stripped
 * impl block, in that order.
 */
module Ctrlgen {
  import opened Wrappers
  import opened Syntax
  import opened Diagnostics
  import opened Model
  import opened Items
  import opened Emit
  import opened ParseArgs
  import opened ParseInput
  import opened Generate

  /** One item of the macro's output. */
  datatype OutputItem =
    | EnumOut(enumDef: EnumDef)
    | CallOut(callImpl: CallImpl)
    | ProxyOut(proxy: ProxyItem)
    | ImplOut(item: ItemImpl)

  function ProxyOuts(ps: seq<ProxyItem>): (out: seq<OutputItem>)
    ensures |out| == |ps|
    ensures forall i :: 0 <= i < |ps| ==> out[i] == ProxyOut(ps[i])
    decreases |ps|
  {
    if ps == [] then [] else ProxyOuts(ps[..|ps| - 1]) + [ProxyOut(ps[|ps| - 1])]
  }

  /** What is emitted once the impl block has been analysed into `data` and stripped to `stripped`. */
  function Emitted(data: InputData, stripped: ItemImpl): Result<seq<OutputItem>, Error>
  {
    var enumDef :- EnumSpec(data);
    Ok([EnumOut(enumDef), CallOut(CallImplSpec(data))]
       + ProxyOuts(ProxiesSpec(data, data.params.proxies))
       + [ImplOut(stripped)])
  }

  /**
   * The expansion as a value.  `input` is the impl block as syn reads it from
   * the item tokens, `None` when they are not an impl block.
   */
  function ExpansionSpec(attr: seq<Token>, input: Option<ItemImpl>): Result<seq<OutputItem>, Error>
  {
    var params :- ParamsSpec(attr);
    if input.None? then Err(UnparsableItem)
    else
      var analysed := ImplSpec(input.value, params);
      var data :- analysed.result;
      Emitted(data, input.value.(items := analysed.items))
  }

  /** The `ret.extend(...)` steps of `ctrlgen_impl`, after the analysis. */
  method EmitAll(inputData: InputData, imp: ImplBlock) returns (r: Result<seq<OutputItem>, Error>)
    ensures r == Emitted(inputData, imp.Value())
  {
    var ret: seq<OutputItem> := [];
    var enumDef :- GenerateEnum(inputData);
    ret := ret + [EnumOut(enumDef)];
    var callImpl := GenerateCallImpl(inputData);
    ret := ret + [CallOut(callImpl)];
    var proxies := GenerateProxies(inputData);
    ret := ret + ProxyOuts(proxies);
    ret := ret + [ImplOut(imp.Value())];
    assert ret == [EnumOut(enumDef), CallOut(callImpl)] + ProxyOuts(proxies) + [ImplOut(imp.Value())];
    r := Ok(ret);
  }

  /** `ctrlgen_impl`. */
  method CtrlgenImpl(attr: seq<Token>, input: Option<ItemImpl>) returns (r: Result<seq<OutputItem>, Error>)
    ensures r == ExpansionSpec(attr, input)
  {
    var params :- ParseParams(attr);
    if input.None? {
      return Err(UnparsableItem);
    }
    var imp := new ImplBlock(input.value);
    var inputData :- ParseInherentImpl(imp, params);
    r := EmitAll(inputData, imp);
  }

  /**
   * Nothing is generated when a step fails: the result is the configuration's
   * error, else `UnparsableItem` for an item that is not an impl block, else
   * the analyser's error, else the enum generator's panic.
   */
  lemma ExpansionErrors(attr: seq<Token>, input: Option<ItemImpl>)
    ensures ParamsSpec(attr).Err? ==> ExpansionSpec(attr, input) == Err(ParamsSpec(attr).error)
    ensures ParamsSpec(attr).Ok? && input.None? ==> ExpansionSpec(attr, input) == Err(UnparsableItem)
    ensures ParamsSpec(attr).Ok? && input.Some? && ImplSpec(input.value, ParamsSpec(attr).value).result.Err? ==>
      ExpansionSpec(attr, input) == Err(ImplSpec(input.value, ParamsSpec(attr).value).result.error)
    ensures (ParamsSpec(attr).Ok? && input.Some? && ImplSpec(input.value, ParamsSpec(attr).value).result.Ok?
             && EnumSpec(ImplSpec(input.value, ParamsSpec(attr).value).result.value).Err?) ==>
      ExpansionSpec(attr, input) == Err(EnumSpec(ImplSpec(input.value, ParamsSpec(attr).value).result.value).error)
    ensures ExpansionSpec(attr, input).Ok? <==>
      ParamsSpec(attr).Ok? && input.Some? && ImplSpec(input.value, ParamsSpec(attr).value).result.Ok?
      && EnumSpec(ImplSpec(input.value, ParamsSpec(attr).value).result.value).Ok?
  {
  }

  /**
   * A successful expansion is the enum, then the dispatcher, then every proxy
   * item, then the impl block, and that impl block is the analysed one: each
   * item rewritten with its markers stripped, everything else as it came in.
   */
  lemma ExpansionOrder(attr: seq<Token>, input: Option<ItemImpl>)
    requires ExpansionSpec(attr, input).Ok?
    ensures input.Some? && ParamsSpec(attr).Ok? && ImplSpec(input.value, ParamsSpec(attr).value).result.Ok?
    ensures
      var params := ParamsSpec(attr).value;
      var data := ImplSpec(input.value, params).result.value;
      var proxies := ProxiesSpec(data, data.params.proxies);
      var out := ExpansionSpec(attr, input).value;
      |out| == 3 + |proxies|
      && out[0] == EnumOut(EnumSpec(data).value)
      && out[1] == CallOut(CallImplSpec(data))
      && (forall i :: 0 <= i < |proxies| ==> out[2 + i] == ProxyOut(proxies[i]))
      && out[|out| - 1].ImplOut?
      && var emitted := out[|out| - 1].item;
         emitted.(items := input.value.items) == input.value
         && |emitted.items| == |input.value.items|
         && forall i :: 0 <= i < |input.value.items| ==>
              emitted.items[i] == Rewrite(input.value.items[i], params.returnval.Some?)
  {
    var params := ParamsSpec(attr).value;
    var analysed := ImplSpec(input.value, params);
    var stripped := input.value.(items := analysed.items);
    assert ExpansionSpec(attr, input) == Emitted(analysed.result.value, stripped);
    EmittedLayout(analysed.result.value, stripped);
    ImplRewritten(input.value, params);
  }

  /** The layout of a successful emission: enum, dispatcher, one item per proxy, the stripped impl block. */
  lemma EmittedLayout(data: InputData, stripped: ItemImpl)
    requires Emitted(data, stripped).Ok?
    ensures
      var proxies := ProxiesSpec(data, data.params.proxies);
      var out := Emitted(data, stripped).value;
      |out| == 3 + |proxies|
      && out[0] == EnumOut(EnumSpec(data).value)
      && out[1] == CallOut(CallImplSpec(data))
      && (forall i :: 0 <= i < |proxies| ==> out[2 + i] == ProxyOut(proxies[i]))
      && out[|out| - 1] == ImplOut(stripped)
  {
  }
}
