# ctrlgen in Dafny

ctrlgen is a Rust attribute macro. It is placed on an inherent `impl` block
of a service struct, for example `#[ctrlgen(pub enum ServiceMsg, returnval = LocalRetval, proxy = ServiceProxy)]`,
and turns the block's methods into messages. It emits:

- a message enum with one variant per method;
- a `CallMut` or `CallMutAsync` implementation that dispatches a message to the method it names;
- proxies whose methods build and send those messages;
- the impl block itself, with the macro-only attributes removed.

A method with a return type reports its result through a *return channel*,
which is a type implementing `Returnval`. Calling code may also wait on a
result through a `Promise`.

This project models four parts of the repository:

1. **The live macro pipeline (`ctrlgen-impl`).** This covers the argument parser
   for the attribute (`parse_args.dfy`) and the analyzer that checks
   and rewrites the impl block in place (`parse_input.dfy`). It also covers the generators for
   the enum, the dispatcher and the proxies (`generate.dfy`), and the
   function that chains them (`ctrlgen.dfy`). It builds on the data model of
   `ctrlgen-impl/src/lib.rs` (`model.dfy`), a token/attribute/type layer
   (`syntax.dfy`), the impl block as an object (`items.dfy`), the
   structured form of the generated code (`emit.dfy`), and the kinds of
   failure (`diagnostics.dfy`).
2. **The legacy pipeline (`ctrlgen-derive`).** This is an older copy of the same
   macro: a token state machine for the arguments (`legacy_parse_args.dfy`),
   a panicking analyzer that pushes onto a shared method list
   (`legacy_parse_input.dfy`), and generators with an access mode and a single
   struct proxy (`legacy_generate.dfy`, `legacy_model.dfy`). The crate root
   `ctrlgen-derive/src/lib.rs` declares none of these modules and forwards to
   `ctrlgen_impl`. Its files are therefore not compiled, but the model keeps their
   differences from the live code visible.
3. **`LocalRetval`** (`returnval.dfy`). This is the in-process return channel: one shared
   `Option` cell handed out as both sender and receiver.
4. **`Promise`** (`promise.dfy`). This is a three-state object (`Pending`, `Ready`, `Empty`)
   over a one-shot receiver.

Every operation is a method or function proved against a specification
function; the lemmas then say what those functions mean.
Most operations work by loops that extend token streams or mutate the impl
block, so they are `method`s with loop invariants. Each one is proved equal to
a specification function, such as `ParamsSpec`, `ImplSpec`, `EnumSpec`, `CallImplSpec`,
`ProxySpec` or `ExpansionSpec`. The lemmas then state what those functions mean:
- which inputs are refused, and with which error, in the source's order;
- one variant, case and proxy method per service method, in order;
- the fields and bindings of each, the trailing `ret` field, the sync/async choice;
- the where clauses;
- how the impl block is left.

Panics and `syn::Error`s are both `Err` values of one `Error` datatype.

Generated code is represented as structured values (`EnumDef`, `Variant`,
`Field`, `CallImpl`, `Case`, `ProxyMethod`, `Item`), never as token text.
The one place where token text matters is the spelling of attributes: there
the tokens are modelled and re-parsed (see Findings).

Assumptions made where the source is incomplete:

- **Live argument parser.** `ctrlgen-impl/src/parse_args.rs:80-87` builds the fields `proxy` and
  `proxy_impl`, but `Params` (`ctrlgen-impl/src/lib.rs:91-97`) has a single
  `proxies` list. The model maps `proxy = N` to `Proxy::Struct(N)` first, then
  each `proxy_impl` clause to `Proxy::Impl`, in source order (`ParseArgs.Finish`).
  The "specified twice" check for `proxy` is kept on the separate option, as the code has it.
- **Argument markers in the live analyzer.** `ctrlgen-impl/src/parse_input.rs:178` reads per-argument markers from the
  *method's* remaining attributes, not from the argument's own, and is modelled as written.
  The consequences are proved:
  - every argument's `enum_attr` is empty;
  - every argument's `to_owned` is set exactly when the method itself carries a bare
    `ctrlgen_to_owned` (`ParseInput.ArgumentMarkersAsWritten`, `ParseInput.StrippedArgMarks`);
  - the legacy analyzer reads the argument's own attributes instead (`LegacyParseInput.OwnAttrsContrast`).
- **The legacy data model.** The crate root that defines it (`Params` with `access_mode`, `AccessMode::code`,
  the legacy `Method`) is not part of this model. Its types are inferred
  from their use. `AccessMode::code` is taken to write nothing, `pub` or `pub(crate)`.
- **The tokio receiver** behind a `Promise` is an assumption, not a model. It is taken
  to be a one-shot slot that is `Waiting`, `HasValue(v)`, `Closed` or `Consumed`:
  - `try_recv` returns the value, "empty" or "closed" accordingly, and reads `Consumed` as "closed";
  - `poll` is pending on `Waiting`, ready with the value on `HasValue(v)` and ready with an error on `Closed`;
  - a `poll` that yields the value takes it out, leaving `Consumed`;
  - `poll` on `Consumed` panics ("called after complete").

## Model

| member | source | states |
|---|---|---|
| Model.VariantName | ctrlgen-impl/src/lib.rs:43-53 | `variant_name` is the upper-camel case of the method name alone: it never contains `_`, and for a snake_case name over `[a-z_]` it starts with a capital and converts back to that name |
| Model.SnakeOfVariantName | ctrlgen-impl/src/lib.rs:43-53 | for a snake_case method name, converting the variant name back to snake case gives the method name again, so no information is lost |
| Model.SnakeOfCamelTail | ctrlgen-impl/src/lib.rs:43-53 | the word-by-word upper-camel conversion is inverted by the word-by-word snake conversion on any well-formed tail of a snake_case name |
| Model.VariantNamesDistinct | ctrlgen-impl/src/lib.rs:43-53 | two snake_case method names get the same variant name exactly when they are equal |
| Model.DoubledUnderscoreCollides | ctrlgen-impl/src/lib.rs:43-53 | a doubled underscore converts like a single one, so the conversion cannot tell them apart |
| Model.VariantNameCollision | ctrlgen-impl/src/lib.rs:43-53 | `foo_bar` and `foo__bar` are different method names with the same variant name, and nothing checks for such clashes |
| Model.CamelInsideWord | ctrlgen-impl/src/lib.rs:43-53 | lower-case letters inside a word are copied unchanged |
| Model.WordCamel | ctrlgen-impl/src/lib.rs:43-53 | a lower-case word is copied with its first letter upper-cased exactly when it starts a word, and the conversion carries on after it |
| Model.TwoWords | ctrlgen-impl/src/lib.rs:43-53 | two lower-case words joined by `_` become both words capitalised, with no separator |
| Model.VariantNameOfIncrementBy | ctrlgen-impl/src/lib.rs:43-53 | `increment_by` becomes `IncrementBy` |
| Model.VariantNameOfFoo | ctrlgen-impl/src/lib.rs:43-53 | `foo` becomes `Foo` |
| Model.ToUpper | ctrlgen-impl/src/lib.rs:43-53 | upper-casing maps a lower-case ASCII letter to an upper-case one |
| Model.ToLower | ctrlgen-impl/src/lib.rs:43-53 | lower-casing maps an upper-case ASCII letter to a lower-case one |
| Model.HasAsyncFunctions | ctrlgen-impl/src/lib.rs:75-78 | true exactly when at least one method is `async` |
| Syntax.GetIdent | ctrlgen-impl/src/parse_input.rs:122 | a path names an identifier exactly when it has one segment and no leading `::`, and the identifier is that segment |
| Syntax.AttrsReparse | ctrlgen-impl/src/parse_args.rs:11 | reading outer attributes back from their rendering gives the same attributes and leaves the rest of the stream |
| Syntax.PathReparses | ctrlgen-impl/src/parse_args.rs:41 | a mod-style path is read back from its rendering |
| Syntax.GenericsReparse | ctrlgen-impl/src/parse_args.rs:66 | generics `<...>` are read back from their rendering; without a `<` nothing is consumed |
| Syntax.ParseIdent | ctrlgen-impl/src/parse_args.rs:22 | succeeds exactly on a leading non-keyword identifier and consumes exactly that token |
| Syntax.ExpectToken | ctrlgen-impl/src/parse_args.rs:20 | succeeds exactly when the stream starts with the expected token, which it consumes |
| Syntax.ParseVisibility | ctrlgen-impl/src/parse_args.rs:13-18 | an inherited visibility consumes nothing; otherwise only a prefix is consumed |
| Syntax.ParseType | ctrlgen-impl/src/parse_args.rs:53 | a parsed type is the prefix of the stream that it consumed |
| Syntax.ParseTypePath | ctrlgen-impl/src/parse_args.rs:68 | a parsed type path is a non-empty prefix of the stream |
| Syntax.ParseGenerics | ctrlgen-impl/src/parse_args.rs:66 | generics without a leading `<` are empty and consume nothing; parsed generics have no where clause |
| Syntax.RunStopsAfter | ctrlgen-impl/src/parse_args.rs:53 | a balanced run of tokens ends at the first top-level stop character that follows it |
| ParseArgs.ParseParams | ctrlgen-impl/src/parse_args.rs:9-89 | the parser loop computes `ParamsSpec`: each clause is read only after a comma, a trailing comma ends the loop, and any token left over is an error |
| ParseArgs.Finish | ctrlgen-impl/src/parse_args.rs:80-87 | the result keeps the collected enum attributes, `returnval`, visibility and name; its proxies are `Proxy::Struct(N)` first when `proxy = N` was given, then one `Proxy::Impl` per `proxy_impl` clause with its generics and path, in source order, and nothing else |
| ParseArgs.ImplProxies | ctrlgen-impl/src/parse_args.rs:65-70 | each `proxy_impl` clause becomes one `Proxy::Impl` with its generics and path, in source order |
| ParseArgs.Clause | ctrlgen-impl/src/parse_args.rs:33-77 | a clause that is read always consumes at least one token |
| ParseArgs.ParseRenderedParams | ctrlgen-impl/src/parse_args.rs:9-89 | for well-formed attributes, visibility, name and clauses, parsing their rendering gives exactly the outcome of applying the clauses in order |
| ParseArgs.HeaderRead | ctrlgen-impl/src/parse_args.rs:11-22 | after the outer attributes, the optional visibility, `enum` and the name, parsing continues with the clauses; the attributes start the `enum_attr` list |
| ParseArgs.HeaderRendered | ctrlgen-impl/src/parse_args.rs:11-18 | leading attributes and then a visibility are read back from their rendering |
| ParseArgs.VisibilityBeforeEnum | ctrlgen-impl/src/parse_args.rs:13-18 | an explicit visibility in front of `enum` is read back; none gives `Inherited` |
| ParseArgs.VisibilityRendered | ctrlgen-impl/src/parse_args.rs:13-18 | the optional visibility is read back from its rendering and `enum` is left next |
| ParseArgs.EnumKeywordRequired | ctrlgen-impl/src/parse_args.rs:20 | when `enum` does not follow the attributes and visibility, parsing fails expecting `enum` |
| ParseArgs.OlderHeaderRefused | ctrlgen-impl/src/parse_args.rs:20 | the older `pub Name` header without `enum` is refused |
| ParseArgs.TraitClauseRefused | ctrlgen-impl/src/parse_args.rs:33 | a clause starting with the keyword `trait` is refused, because a clause name must be an identifier |
| ParseArgs.ResultOfClauses | ctrlgen-impl/src/parse_args.rs:27-87 | the outcome is the clauses' error if any, a leftover-token error if input remains, and otherwise the finished parameters |
| ParseArgs.ClausesRendered | ctrlgen-impl/src/parse_args.rs:27-78 | a comma-separated list of well-formed clauses, with or without a trailing comma, is read as applying them in order |
| ParseArgs.ClauseRendered | ctrlgen-impl/src/parse_args.rs:34-77 | one well-formed clause is read as applying it |
| ParseArgs.EnumAttrClauseRendered | ctrlgen-impl/src/parse_args.rs:35-44 | `enum_attr[path tokens]` appends that attribute after those already collected |
| ParseArgs.ReturnvalClauseRendered | ctrlgen-impl/src/parse_args.rs:45-54 | `returnval = T` records the type T, up to the next top-level comma |
| ParseArgs.ProxyClauseRendered | ctrlgen-impl/src/parse_args.rs:55-64 | `proxy = Name` records the name |
| ParseArgs.ProxyImplClauseRendered | ctrlgen-impl/src/parse_args.rs:65-70 | `proxy_impl <generics> = Path` appends one implementation target with those generics and that path |
| ParseArgs.ApplyAccepts | ctrlgen-impl/src/parse_args.rs:34-77 | a clause list is accepted exactly when it names no unknown clause and has at most one `returnval` and at most one `proxy` |
| ParseArgs.ApplyCollects | ctrlgen-impl/src/parse_args.rs:35-70 | accepted clauses append their enum attributes and their `proxy_impl` targets in source order, and set `returnval` and `proxy` once each |
| ParseArgs.SecondReturnval | ctrlgen-impl/src/parse_args.rs:46-51 | a second `returnval` is the error "specified twice" |
| ParseArgs.SecondProxy | ctrlgen-impl/src/parse_args.rs:56-61 | a second `proxy` is the error "specified twice" |
| ParseArgs.UnknownClauseReported | ctrlgen-impl/src/parse_args.rs:71-76 | any other clause name is an error that names it |
| ParseInput.ParseInherentImpl | ctrlgen-impl/src/parse_input.rs:8-76 | the analyzer computes `ImplSpec`, and the impl block is left with its items rewritten as `ImplSpec` says, the rest unchanged, on success and on error |
| ParseInput.ImplRejections | ctrlgen-impl/src/parse_input.rs:11-25 | default, `unsafe` and trait impls are refused, in that order, each exactly in its case, and then the items are untouched |
| ParseInput.ImplSelfType | ctrlgen-impl/src/parse_input.rs:26-48 | the self type must be a path without qualified self and with one segment, each failure with its own error; on success the name, the arguments, the generics and the parameters are taken from it |
| ParseInput.ImplMethods | ctrlgen-impl/src/parse_input.rs:50-67 | on success there is one method per method item, in order, each read by `parse_method`; other items give none |
| ParseInput.ImplRewritten | ctrlgen-impl/src/parse_input.rs:52-67 | on success every item of the block is rewritten in place and in order: method items lose their markers, other items are unchanged |
| ParseInput.ItemsMethods | ctrlgen-impl/src/parse_input.rs:52-67 | the item loop appends one method per method item to those already collected, none of them `default` |
| ParseInput.ItemsRewritten | ctrlgen-impl/src/parse_input.rs:52-67 | the item loop leaves each item rewritten |
| ParseInput.ItemStepMeaning | ctrlgen-impl/src/parse_input.rs:53-65 | one accepted item: a method item is not `default` and adds its parsed method; another item adds nothing |
| ParseInput.ItemsErrors | ctrlgen-impl/src/parse_input.rs:52-67 | the item loop fails only with a method error or the `default` panic |
| ParseInput.ReadItem | ctrlgen-impl/src/parse_input.rs:53-65 | one round of the item loop, as the step function says |
| ParseInput.MethodItems | ctrlgen-impl/src/parse_input.rs:52-67 | the method items of a block, in order |
| ParseInput.ParseMethod | ctrlgen-impl/src/parse_input.rs:79-241 | `parse_method` computes `MethodSpec`: the method read, and the signature and attributes as it leaves them |
| ParseInput.MethodRejections | ctrlgen-impl/src/parse_input.rs:88-120 | const, unsafe, ABI, generics, variadic and a return type without `returnval` are refused in that order, each exactly in its case, and then nothing is stripped |
| ParseInput.BadMarkerRefused | ctrlgen-impl/src/parse_input.rs:121-132 | once the signature is accepted, a marker that does not start with a group is refused and nothing is stripped |
| ParseInput.MethodFields | ctrlgen-impl/src/parse_input.rs:121-155 | a method read successfully has the signature's name, return type and `async` flag; its enum and return markers are collected in order; its `doc` attributes are collected; its markers are removed and the rest kept |
| ParseInput.CollectAttrs | ctrlgen-impl/src/parse_input.rs:121-145 | the marker loop computes `CollectFrom` |
| ParseInput.CollectAccepts | ctrlgen-impl/src/parse_input.rs:121-145 | the marker loop succeeds exactly when every marker starts with a group |
| ParseInput.CollectContents | ctrlgen-impl/src/parse_input.rs:121-145 | on success it collects exactly the markers of each kind and the `doc` attributes, in order |
| ParseInput.CollectStepContents | ctrlgen-impl/src/parse_input.rs:122-143 | one attribute adds itself to at most one of the three lists |
| ParseInput.CollectErrors | ctrlgen-impl/src/parse_input.rs:121-145 | the marker loop fails only because of a marker without a group |
| ParseInput.LeadingGroup | ctrlgen-impl/src/parse_input.rs:124-132 | a marker starts with a group exactly when its first token is one, which is the group taken |
| ParseInput.QuoteIsOuterAttr | ctrlgen-impl/src/parse_input.rs:133 | rebuilding an attribute from `# [group]` succeeds exactly when the two tokens read as one outer attribute, and gives that attribute |
| ParseInput.QuoteRendered | ctrlgen-impl/src/parse_input.rs:133 | rebuilding from the bracket group of an attribute gives that attribute |
| ParseInput.StripMarkersKeeps | ctrlgen-impl/src/parse_input.rs:146-149 | the attributes kept are exactly those that are not enum or return markers |
| ParseInput.NamedExactly | ctrlgen-impl/src/parse_input.rs:140-142 | the attributes collected under a name are exactly those that carry it |
| ParseInput.ReceiverStyles | ctrlgen-impl/src/parse_input.rs:158-174 | `self` is `Move`, `&mut self` is `Mut`, `&self` is `Ref`, and an explicit lifetime is an error |
| ParseInput.MethodReceiver | ctrlgen-impl/src/parse_input.rs:156-174 | a method read successfully has a receiver, and its style is that of the last receiver |
| ParseInput.MethodNoReceiver | ctrlgen-impl/src/parse_input.rs:225-230 | "no receiver" is reported exactly when everything else is accepted and no input is a receiver, so it comes after the argument checks |
| ParseInput.MethodInputs | ctrlgen-impl/src/parse_input.rs:150-240 | once the checks and markers pass, the outcome is the inputs' error, or the missing-receiver error, or a method with the receiver style and arguments of the input loop |
| ParseInput.MethodArgs | ctrlgen-impl/src/parse_input.rs:175-222 | the arguments are the typed inputs in order, each a plain non-`ref` name (not `ret` in `returnval` mode) with its declared type; every input is stripped in place |
| ParseInput.ReadInput | ctrlgen-impl/src/parse_input.rs:157-223 | one round of the input loop, as the step function says |
| ParseInput.InputsAccepted | ctrlgen-impl/src/parse_input.rs:156-224 | the input loop succeeds exactly when every input is acceptable |
| ParseInput.InputsContents | ctrlgen-impl/src/parse_input.rs:156-224 | on success the style is that of the last receiver, the arguments are appended in order, and each input is stripped |
| ParseInput.InputStepContents | ctrlgen-impl/src/parse_input.rs:157-223 | one accepted input updates the style (receiver) or appends one argument (typed), and is stripped |
| ParseInput.InputsFrom | ctrlgen-impl/src/parse_input.rs:156-224 | the input loop leaves as many inputs as it was given |
| ParseInput.LastReceiverExists | ctrlgen-impl/src/parse_input.rs:156-174 | among accepted inputs there is a last receiver exactly when some input is a receiver |
| ParseInput.ArgsOfTyped | ctrlgen-impl/src/parse_input.rs:175-222 | accepted typed inputs give one argument each, with name, type and the markers read from the method's attributes |
| ParseInput.TypedInputs | ctrlgen-impl/src/parse_input.rs:175 | the typed inputs of a signature, in order |
| ParseInput.InputsErrors | ctrlgen-impl/src/parse_input.rs:156-224 | the input loop fails only with one of the input errors |
| ParseInput.MethodErrors | ctrlgen-impl/src/parse_input.rs:79-241 | a method is refused only with one of the method errors |
| ParseInput.ReadArgMarks | ctrlgen-impl/src/parse_input.rs:178-202 | the argument-marker loop computes `ArgMarksFrom` |
| ParseInput.ArgMarksErrors | ctrlgen-impl/src/parse_input.rs:178-202 | it fails only on an enum marker without a group or a `ctrlgen_to_owned` with tokens |
| ParseInput.ArgMarksWithoutEnumAttr | ctrlgen-impl/src/parse_input.rs:178-202 | without enum markers, `ctrlgen_to_owned` with tokens is an error and otherwise `to_owned` is set exactly when a `ctrlgen_to_owned` is present |
| ParseInput.StripArgMarkersKeeps | ctrlgen-impl/src/parse_input.rs:203-207 | an argument keeps exactly its attributes that are not argument markers |
| ParseInput.StrippedArgMarks | ctrlgen-impl/src/parse_input.rs:146-202 | the attributes read at line 178 have already lost their enum markers, so no argument gets one, and `to_owned` follows the method's `ctrlgen_to_owned` |
| ParseInput.MethodArgMarks | ctrlgen-impl/src/parse_input.rs:176-218 | every argument of a method gets the same markers, the ones read from the method's remaining attributes |
| ParseInput.ArgumentMarkersAsWritten | ctrlgen-impl/src/parse_input.rs:178 | every argument's `enum_attr` is empty, and its `to_owned` is set exactly when the method carries `ctrlgen_to_owned` |
| Items.ImplBlock.constructor | ctrlgen-impl/src/lib.rs:107 | the impl block object holds the parsed item |
| Generate.MakeWhereClause | ctrlgen-impl/src/generate.rs:22-37 | the impl's own predicates come first and unchanged, then `R: Returnval` last exactly when `returnval` is set |
| Generate.ReturnvalBounds | ctrlgen-impl/src/generate.rs:97-103 | one `Returnval` bound when `returnval` is set, none otherwise |
| Generate.GenerateEnum | ctrlgen-impl/src/generate.rs:39-112 | the enum generator computes `EnumSpec` |
| Generate.EnumShape | ctrlgen-impl/src/generate.rs:39-112 | the enum succeeds exactly when every variant does; it has the configured attributes, visibility and name, a `Returnval` where clause exactly when `returnval` is set, and one variant per method in order |
| Generate.GenerateVariant | ctrlgen-impl/src/generate.rs:45-95 | one variant, as `VariantOf` says |
| Generate.VariantShape | ctrlgen-impl/src/generate.rs:45-95 | a variant fails exactly on `to_owned` over a non-reference or return attributes without a return type (the first panic first). Otherwise it is named by `variant_name` and has the doc then enum attributes. Its fields are one per argument, in order, with the argument's name, attributes and declared or owned type, and then `ret` last exactly when a return channel is used |
| Generate.VariantsMeaning | ctrlgen-impl/src/generate.rs:45-96 | the variants succeed exactly when each does, one per method, in order |
| Generate.ArgFieldsMeaning | ctrlgen-impl/src/generate.rs:49-73 | the argument fields succeed exactly when no `to_owned` argument has a non-reference type (else that panic), one field per argument in order |
| Generate.GroupAttrTokens | ctrlgen-impl/src/generate.rs:66-69 | argument attributes are emitted as `#` followed by each group |
| Generate.AttrTokens | ctrlgen-impl/src/generate.rs:92-93 | attribute lists are emitted as their rendering |
| Generate.RetAttrsAsWritten | ctrlgen-impl/src/generate.rs:75-78 | as written, each return attribute is emitted as `# #[...]`, three tokens, starting with two `#` |
| Generate.RetAttrsAsWrittenRejected | ctrlgen-impl/src/generate.rs:75-78 | those tokens cannot be read back as attributes: after the first `#` a bracket group is expected |
| Generate.RetAttrsReparse | ctrlgen-impl/src/generate.rs:75-78 | the corrected emission reads back as exactly the return attributes, so the `ret` field carries them |
| Generate.RetAttrsExample | ctrlgen-impl/src/generate.rs:75-81 | `#[serde(skip)] ret` is unreadable as written and reads back correctly when corrected |
| Generate.GenerateCallImpl | ctrlgen-impl/src/generate.rs:114-203 | the dispatcher generator computes `CallImplSpec` |
| Generate.CallImplShape | ctrlgen-impl/src/generate.rs:114-203 | `CallMut` exactly when no method is async; the error type is the channel's `SendError` with `returnval`, else `Infallible`; impl generics, struct name and arguments, enum name, and one case per method in order |
| Generate.GenerateCase | ctrlgen-impl/src/generate.rs:130-165 | one dispatch case, as `CaseOf` says |
| Generate.CaseShape | ctrlgen-impl/src/generate.rs:130-165 | a case matches the method's variant and binds the argument names in order, then `ret` exactly when a return channel is used. It calls the method with those arguments, awaiting exactly when it is async. It sends the result on `ret`, or evaluates the call and returns `Ok(())` |
| Generate.Cases | ctrlgen-impl/src/generate.rs:130-166 | one case per method, in order |
| Generate.ArgNames | ctrlgen-impl/src/generate.rs:134-139 | the argument names, in order |
| Generate.ArgumentNames | ctrlgen-impl/src/generate.rs:134-139 | the loop over the arguments computes `ArgNames` |
| Generate.GenerateProxies | ctrlgen-impl/src/generate.rs:205-211 | the proxies generator computes `ProxiesSpec` over the configured proxies |
| Generate.ProxiesInOrder | ctrlgen-impl/src/generate.rs:205-211 | proxies are emitted in list order: the output for a concatenation is the concatenation of the outputs |
| Generate.GenerateProxy | ctrlgen-impl/src/generate.rs:213-230 | one proxy, as `ProxySpec` says |
| Generate.ProxyShapes | ctrlgen-impl/src/generate.rs:213-253 | a struct proxy gives the struct, the `Proxy` impl forwarding to `sender`, the `new` impl and a method impl over `Name<Sender>`. A trait proxy gives the trait with its methods and the blanket impl. An impl proxy gives the methods on its path, with the where clause `Self: Proxy`, `Returnval` and the generics' own predicates, in that order |
| Generate.GenerateProxyImpl | ctrlgen-impl/src/generate.rs:255-325 | the method impl generator computes `ProxyImplSpec` |
| Generate.ProxyImplWhere | ctrlgen-impl/src/generate.rs:300-315 | the where clause is `Self: Proxy<Enum>`, then `R: Returnval` when set, then the generics' own predicates |
| Generate.GenerateProxyTrait | ctrlgen-impl/src/generate.rs:327-395 | the trait generator computes `ProxyTraitSpec` |
| Generate.GenerateProxyMethods | ctrlgen-impl/src/generate.rs:263-299 | the method loop computes `ProxyMethods` |
| Generate.ProxyMethods | ctrlgen-impl/src/generate.rs:263-299 | one proxy method per service method, in order |
| Generate.GenerateProxyMethod | ctrlgen-impl/src/generate.rs:264-298 | one proxy method, as `ProxyMethodOf` says |
| Generate.ProxyMethodShape | ctrlgen-impl/src/generate.rs:264-298 | a proxy method has the doc attributes, the method's name and variant, and the arguments with their declared types in order. It builds the message from the argument names, and creates, sends and receives on a return channel exactly when one is used |
| Generate.ParamsOf | ctrlgen-impl/src/generate.rs:269-274 | the parameters are the arguments' names with their declared types, in order |
| Ctrlgen.CtrlgenImpl | ctrlgen-impl/src/lib.rs:103-116 | the macro computes `ExpansionSpec` from the attribute tokens and the parsed item |
| Ctrlgen.ExpansionErrors | ctrlgen-impl/src/lib.rs:104-110 | a parameter error, an unparsable item, an analysis error or an enum panic is the result, in that order, and the expansion succeeds exactly when none occurs |
| Ctrlgen.ExpansionOrder | ctrlgen-impl/src/lib.rs:107-113 | a successful expansion is the enum, then the dispatcher, then the proxies in order, then the impl block as the analyzer left it: same header, every item rewritten in place |
| Ctrlgen.EmittedLayout | ctrlgen-impl/src/lib.rs:110-113 | a successful emission is the enum, the dispatcher, one item per proxy in order, and the stripped impl block last |
| Ctrlgen.EmitAll | ctrlgen-impl/src/lib.rs:110-113 | the outputs are appended in that order |
| Ctrlgen.ProxyOuts | ctrlgen-impl/src/lib.rs:112 | one output per proxy item, in order |
| LegacyParseArgs.ParseArgs | ctrlgen-derive/src/parse_args.rs:26-113 | the state machine loop computes `ArgsSpec` |
| LegacyParseArgs.FeedAccepts | ctrlgen-derive/src/parse_args.rs:40-94 | which tokens each state accepts: an identifier first; then a comma or `returnval`, `proxy` or `enum_attr`; `=` after those; one identifier after `proxy =`; a group after `enum_attr`; anything after `returnval =` |
| LegacyParseArgs.RunFails | ctrlgen-derive/src/parse_args.rs:39-95 | a token that panics ends the parser with that panic |
| LegacyParseArgs.RunAppend | ctrlgen-derive/src/parse_args.rs:39-95 | the loop over two runs of tokens is the loop over the second from where the first left off |
| LegacyParseArgs.EndOfInput | ctrlgen-derive/src/parse_args.rs:97-103 | after the loop, only a missing enum name is an error; `returnval` is absent exactly when its stream is empty |
| LegacyParseArgs.ModsRun | ctrlgen-derive/src/parse_args.rs:41-44 | a run of `pub` and `pub_crate` leaves the access mode at the last one, starting from `Priv` |
| LegacyParseArgs.ReturnvalRun | ctrlgen-derive/src/parse_args.rs:64-67 | after `returnval =` every token up to a comma is appended to the one stream |
| LegacyParseArgs.ReturnvalClauseRun | ctrlgen-derive/src/parse_args.rs:52-67 | a `returnval = tokens` clause appends its tokens |
| LegacyParseArgs.ProxyClauseRun | ctrlgen-derive/src/parse_args.rs:68-84 | a `proxy = Name` clause sets the proxy, replacing an earlier one |
| LegacyParseArgs.EnumAttrClauseRun | ctrlgen-derive/src/parse_args.rs:85-93 | an `enum_attr [..]` clause appends its group |
| LegacyParseArgs.ClauseRun | ctrlgen-derive/src/parse_args.rs:52-93 | any well-formed clause is read as applying it |
| LegacyParseArgs.ClausesRun | ctrlgen-derive/src/parse_args.rs:39-95 | a comma-separated list of clauses is read as applying them in order |
| LegacyParseArgs.AttrRun | ctrlgen-derive/src/parse_args.rs:39-95 | access words, a name and clauses are read as those access words, that name and those clauses |
| LegacyParseArgs.LegacyArgsMeaning | ctrlgen-derive/src/parse_args.rs:26-113 | the parameters are the last proxy, the last access word, the concatenation of every `returnval` stream (absent if empty), the `enum_attr` groups in order, and the name |
| LegacyParseArgs.LastProxy | ctrlgen-derive/src/parse_args.rs:72 | there is a proxy exactly when some clause names one |
| LegacyParseArgs.EnumAttrGroups | ctrlgen-derive/src/parse_args.rs:88 | at most one group per clause |
| LegacyParseArgs.UnknownAfterClauses | ctrlgen-derive/src/parse_args.rs:52-57 | after any well-formed clauses, `, p` with `p` no parameter name panics with `Unknown parameter p`, whatever follows |
| LegacyParseArgs.CommaEndsReturnval | ctrlgen-derive/src/parse_args.rs:64-67 | a comma inside `returnval = Foo<A, B>` ends the clause, and `B` is then an unknown parameter, for any names in those places |
| LegacyParseArgs.DanglingParameterAccepted | ctrlgen-derive/src/parse_args.rs:95-97 | input ending right after `proxy` or `enum_attr` is accepted |
| LegacyParseInput.ParseInherentImpl | ctrlgen-derive/src/parse_input.rs:7-64 | the analyzer computes `ImplSpec`, and on success the block's items are left as `ImplSpec` says |
| LegacyParseInput.ImplRejections | ctrlgen-derive/src/parse_input.rs:10-18 | default, `unsafe` and trait impls panic, in that order, each exactly in its case |
| LegacyParseInput.ImplSelfType | ctrlgen-derive/src/parse_input.rs:19-34 | the self type must be a one-segment path without qualified self, each failure with its own panic; it gives the name and arguments |
| LegacyParseInput.ImplMeaning | ctrlgen-derive/src/parse_input.rs:36-63 | on success one method per method item is pushed, in order, and every item is rewritten in place |
| LegacyParseInput.ItemsMethods | ctrlgen-derive/src/parse_input.rs:38-54 | the item loop pushes one method per method item, in order, none `default` |
| LegacyParseInput.ItemsWalkMethods | ctrlgen-derive/src/parse_input.rs:38-54 | a successful item loop reads every method item and appends exactly the methods they are read into |
| LegacyParseInput.MethodsReadMeaning | ctrlgen-derive/src/parse_input.rs:39-52 | those methods pair one by one with the method items, each read from its own item |
| LegacyParseInput.OutcomeRead | ctrlgen-derive/src/parse_input.rs:39-52 | an item a successful round accepts pushes exactly the method it is read into, and a method item is then not `default` |
| LegacyParseInput.ItemsRewritten | ctrlgen-derive/src/parse_input.rs:38-54 | the item loop leaves each item rewritten |
| LegacyParseInput.ItemOutcomeMethod | ctrlgen-derive/src/parse_input.rs:39-52 | an accepted method item pushes one method; another item pushes none |
| LegacyParseInput.ItemsErrors | ctrlgen-derive/src/parse_input.rs:38-54 | the loop panics only with a method panic or the `default` panic |
| LegacyParseInput.ReadItem | ctrlgen-derive/src/parse_input.rs:39-52 | one round of the item loop pushes what `ItemOutcome` says |
| LegacyParseInput.MethodSink.Push | ctrlgen-derive/src/parse_input.rs:185 | pushing appends the method to the shared list |
| LegacyParseInput.MethodSink.constructor | ctrlgen-derive/src/parse_input.rs:36 | the shared list starts empty |
| LegacyParseInput.ParseMethod | ctrlgen-derive/src/parse_input.rs:66-186 | on success the method is pushed and the signature and attributes are left stripped; on a panic nothing is pushed |
| LegacyParseInput.MethodRejections | ctrlgen-derive/src/parse_input.rs:74-98 | the signature checks come first in the source's order, then a marker without a group |
| LegacyParseInput.MethodMeaning | ctrlgen-derive/src/parse_input.rs:66-186 | a method read successfully has the signature's name, return type and `async` flag and its marker groups in order. Its receiver style is the last receiver's, and its arguments are the typed inputs in order with their own markers. The inputs are stripped and the markers removed |
| LegacyParseInput.MethodSpecParts | ctrlgen-derive/src/parse_input.rs:66-186 | the steps a successful method read went through |
| LegacyParseInput.MethodErrors | ctrlgen-derive/src/parse_input.rs:66-186 | a method panics only with a method error |
| LegacyParseInput.NoReceiverRefused | ctrlgen-derive/src/parse_input.rs:173-175 | a method with no receiver panics once everything before is accepted |
| LegacyParseInput.RetainStep | ctrlgen-derive/src/parse_input.rs:93-109 | one attribute of the `retain` pass either panics with the pass's own error or moves the pass on, keeping the attribute exactly when it is no marker |
| LegacyParseInput.RetainMarkers | ctrlgen-derive/src/parse_input.rs:93-109 | the `retain` pass computes `MarkersFrom` and keeps exactly the non-marker attributes |
| LegacyParseInput.RetainOne | ctrlgen-derive/src/parse_input.rs:93-108 | one attribute of the pass: its group is collected and it is kept exactly when it is not a marker |
| LegacyParseInput.MarkersMeaning | ctrlgen-derive/src/parse_input.rs:93-109 | the pass succeeds exactly when every marker starts with a group, and appends the groups of each kind in order |
| LegacyParseInput.MarkersPartition | ctrlgen-derive/src/parse_input.rs:93-109 | every attribute ends up in exactly one place: the enum groups, the return groups or the kept attributes |
| LegacyParseInput.MarkersErrors | ctrlgen-derive/src/parse_input.rs:95-100 | the pass panics only on a marker without a group |
| LegacyParseInput.ReadInputs | ctrlgen-derive/src/parse_input.rs:116-172 | the input loop computes `InputsFrom` and strips every input |
| LegacyParseInput.ReadInput | ctrlgen-derive/src/parse_input.rs:117-171 | one round of the input loop, which strips its argument markers |
| LegacyParseInput.InputStepMeaning | ctrlgen-derive/src/parse_input.rs:116-172 | a receiver sets the style and adds no argument; a typed input keeps the style and appends the argument read from its own attributes |
| LegacyParseInput.InputsMeaning | ctrlgen-derive/src/parse_input.rs:116-172 | on success the style is the last receiver's and one argument per typed input is appended, from its own attributes |
| LegacyParseInput.InputsErrors | ctrlgen-derive/src/parse_input.rs:116-172 | the loop panics only with an input error |
| LegacyParseInput.StrippedInputsAt | ctrlgen-derive/src/parse_input.rs:135-155 | each input, position by position, ends with its argument markers removed |
| LegacyParseInput.NoReceiverNoStyle | ctrlgen-derive/src/parse_input.rs:116-131 | without a receiver input there is no receiver style |
| LegacyParseInput.OwnAttrsContrast | ctrlgen-derive/src/parse_input.rs:135-155 | `#[ctrlgen_to_owned]` on the argument sets `to_owned` here, while the live analyzer leaves it unset |
| LegacyGenerate.GenerateLegacyEnum | ctrlgen-derive/src/generate.rs:19-95 | the enum generator computes `LegacyEnumSpec` |
| LegacyGenerate.LegacyEnumShape | ctrlgen-derive/src/generate.rs:19-95 | the enum succeeds exactly when every variant does; its attributes are the `enum_attr` groups as `#[..]`, its visibility follows the access mode, it has a `Returnval` where clause exactly when set, and one variant per method in order |
| LegacyGenerate.GenerateLegacyVariant | ctrlgen-derive/src/generate.rs:25-76 | one variant, as `LegacyVariantOf` says |
| LegacyGenerate.LegacyVariantShape | ctrlgen-derive/src/generate.rs:25-76 | as in the live crate, but with no doc attributes and the method's groups emitted as `#[..]`; the `ret` field carries the return groups |
| LegacyGenerate.LegacyVariantsMeaning | ctrlgen-derive/src/generate.rs:25-76 | one variant per method, in order, and success exactly when each succeeds |
| LegacyGenerate.GroupAttrsLayout | ctrlgen-derive/src/generate.rs:68-80 | groups are emitted as `#` and the group, in list order |
| LegacyGenerate.GenerateLegacyCallImpl | ctrlgen-derive/src/generate.rs:97-196 | the dispatcher generator computes `LegacyCallImplSpec` |
| LegacyGenerate.LegacyCallImplShape | ctrlgen-derive/src/generate.rs:97-196 | sync exactly when no method is async. The output is `Result<(), SendError>` with `returnval` and `()` without. A where clause is present exactly when `returnval` is set. Each case binds the arguments, then `ret` in the return case, and ends in `Ok(())` or `()` to match |
| LegacyGenerate.GenerateLegacyCase | ctrlgen-derive/src/generate.rs:120-155 | one dispatch case, as `LegacyCaseOf` says |
| LegacyGenerate.LegacyCases | ctrlgen-derive/src/generate.rs:120-156 | one case per method, in order |
| LegacyGenerate.DispatchWithoutChannel | ctrlgen-derive/src/generate.rs:103-116 | without `returnval` the legacy output is `()` and cases end in `()`, where the live dispatcher uses `Infallible` |
| LegacyGenerate.GenerateLegacyProxy | ctrlgen-derive/src/generate.rs:198-261 | the proxy generator computes `LegacyProxySpec` |
| LegacyGenerate.LegacyProxyShape | ctrlgen-derive/src/generate.rs:198-261 | a struct with one `sender` field and an impl over `Name<Sender>` with `new`, a `Returnval` where clause exactly when set, and one method per service method that forwards through `self.sender.send` |
| LegacyGenerate.GenerateLegacyProxyMethod | ctrlgen-derive/src/generate.rs:206-236 | one proxy method, as `LegacyProxyMethodOf` says |
| LegacyGenerate.LegacyProxyMethods | ctrlgen-derive/src/generate.rs:205-237 | one proxy method per service method, in order |
| LegacyModel.HasAsyncMethods | ctrlgen-derive/src/generate.rs:101 | true exactly when at least one method is `async` |
| LocalRetval.SharedCell.constructor | ctrlgen/src/returnval.rs:29-32 | a new cell is empty |
| LocalRetval.Create | ctrlgen/src/returnval.rs:29-32 | both handles are one fresh, empty cell |
| LocalRetval.Send | ctrlgen/src/returnval.rs:38-41 | the cell holds `Some(msg)`, whatever it held before, and the result is always `Ok(())` |
| LocalRetval.Recv | ctrlgen/src/returnval.rs:34-36 | the receive result is the receiver itself |
| LocalRetval.RoundTrip | ctrlgen/tests/mixed.rs:101-102 | after `create` and `send(tx, v)`, the receive result holds `Some(v)` |
| LocalRetval.LastSendWins | ctrlgen/src/returnval.rs:38-41 | after two sends the receiver sees only the second value |
| LocalRetval.NothingSent | ctrlgen/src/returnval.rs:29-36 | before any send the receive result is empty |
| Promises.OneShot.constructor | ctrlgen/src/support/promise.rs:89-92 | a new channel is waiting |
| Promises.SendValue | ctrlgen/src/support/promise.rs:89-92 | sending on a waiting channel stores the value; otherwise the value comes back as an error |
| Promises.DropSender | ctrlgen/src/support/promise.rs:143-146 | dropping the sender of a waiting channel closes it |
| Promises.Checked | ctrlgen/src/support/promise.rs:139-149 | only `Pending` changes: to `Ready(v)` when the channel holds v, to `Empty` when it is closed or consumed, and it stays pending only while the channel waits |
| Promises.CheckIdempotent | ctrlgen/src/support/promise.rs:139-149 | checking twice is checking once |
| Promises.GetOf | ctrlgen/src/support/promise.rs:117-124 | `get` gives `Some(x)` exactly when the checked state is `Ready(x)`, and keeps that state |
| Promises.GetRepeatable | ctrlgen/src/support/promise.rs:20-22 | a second `get` gives the same result and state as the first |
| Promises.TakeOf | ctrlgen/src/support/promise.rs:126-137 | `take` on a checked `Ready(x)` gives `Some(x)` and leaves `Empty`; otherwise `None` and the checked state |
| Promises.TakeTwice | ctrlgen/src/support/promise.rs:126-137 | after a successful `take`, another gives `None` and stays `Empty` |
| Promises.NeverBackToPending | ctrlgen/src/support/promise.rs:126-149 | from `Ready` or `Empty` no sequence of operations returns to `Pending` |
| Promises.EmptyStaysEmpty | ctrlgen/src/support/promise.rs:126-149 | an empty promise stays empty under any operations |
| Promises.PendingMeansWaiting | ctrlgen/src/support/promise.rs:139-149 | a promise still pending after a sequence of operations is unchanged, and the channel was waiting every time |
| Promises.DeserializedInner | ctrlgen/src/support/promise.rs:249-252 | a deserialized promise is never pending |
| Promises.SerializeDeserialize | ctrlgen/src/support/promise.rs:227-254 | serializing a deserialized promise gives back the optional value |
| Promises.DeserializeSerialize | ctrlgen/src/support/promise.rs:227-254 | deserializing a serialized promise gives `Ready(x)` if it was ready after the check and `Empty` otherwise |
| Promises.Promise.New | ctrlgen/src/support/promise.rs:68-72 | `new(rx)` is `Pending(rx)` |
| Promises.Promise.MakeReady | ctrlgen/src/support/promise.rs:75-79 | `ready(v)` is `Ready(v)` |
| Promises.Promise.MakeEmpty | ctrlgen/src/support/promise.rs:82-86 | `empty()` is `Empty` |
| Promises.Channel | ctrlgen/src/support/promise.rs:89-92 | a fresh waiting sender paired with a fresh `Pending` promise on it |
| Promises.Promise.CheckRx | ctrlgen/src/support/promise.rs:139-149 | the state becomes `Checked` of the old state and the channel |
| Promises.Promise.IsReady | ctrlgen/src/support/promise.rs:106-109 | after the check, true exactly when `Ready` |
| Promises.Promise.IsEmpty | ctrlgen/src/support/promise.rs:112-115 | after the check, true exactly when `Empty`, so never together with `is_ready` |
| Promises.Promise.Get | ctrlgen/src/support/promise.rs:117-124 | result and new state as `GetOf` says |
| Promises.Promise.Take | ctrlgen/src/support/promise.rs:126-137 | result and new state as `TakeOf` says |
| Promises.RecvPoll | ctrlgen/src/support/promise.rs:219-221 | the assumed receiver `poll`: pending exactly on a waiting channel, the value exactly when it holds one, `None` exactly when closed, a panic exactly when already consumed |
| Promises.AfterRecvPoll | ctrlgen/src/support/promise.rs:219-221 | the assumed receiver `poll` consumes a held value and leaves any other channel state as it was |
| Promises.Promise.Poll | ctrlgen/src/support/promise.rs:209-224 | the promise's own state is unchanged; `Ready(x)` polls as `Some(x)`, `Empty` as `None`; `Pending` polls its receiver, which takes a held value out of the channel; short of a consumed channel, the result is the view of the checked state |
| Promises.SentPolledThenGet | ctrlgen/src/support/promise.rs:209-224 | after a send, polling a pending promise gives the value, and a later `get` gives `None` and leaves it `Empty` |
| Promises.SentPolledTwice | ctrlgen/src/support/promise.rs:209-224 | after a send, the first poll of a pending promise gives the value and the second panics |
| Promises.Promise.Serialize | ctrlgen/src/support/promise.rs:227-238 | serializes the result of `get` |
| Promises.Deserialize | ctrlgen/src/support/promise.rs:240-254 | `Some(x)` becomes a ready promise, `None` an empty one |
| Promises.FromResultResidual | ctrlgen/src/support/promise.rs:195-199 | `Err(e)` becomes `ready(Err(from(e)))` |
| Promises.FromOptionResidual | ctrlgen/src/support/promise.rs:202-206 | `None` becomes `ready(None)` |
| Promises.SentThenGetTwice | ctrlgen/src/support/promise.rs:20-22 | once a value is sent, `get` gives it, and gives it again |
| Promises.DroppedThenTake | ctrlgen/src/support/promise.rs:111-137 | once the sender is dropped, the promise is empty and `take` gives `None` |

## Left out

- The syn and quote libraries are replaced by small stand-ins in `syntax.dfy`. These cover token trees, outer attributes, mod-style paths, visibility, and types and generics read as balanced token runs. A `returnval` type, a `proxy_impl` path and generics are opaque token runs, not syn's grammars.
- Error messages and spans are left out: `Diagnostics.Message` gives the message texts the crate writes, but spans (`new_spanned`, `quote_spanned!`) are not modelled. Errors raised inside syn (`Expected`, `UnexpectedToken`, `UnparsableItem`, and the `parse_quote!` panic `Panic(BadAttributeGroup)` at `ctrlgen-impl/src/parse_input.rs:133`) carry stand-in texts, since syn's own messages are not part of this model.
- The token text of generated code is left out, except attribute tokens. `parse_quote!` and `split_for_impl` are represented by the structured items they produce.
- Model.VariantName: `convert_case`'s UpperCamel rules are specified only for snake_case names over `[a-z_]`; every lemma about the conversion assumes such a name. On other names `CamelFrom` is an assumption, not a model: it copies every non-`_` character after the first of a word unchanged. So digits are not word boundaries, and `a1b` gives `A1b`, whereas `convert_case` from version 0.5 on splits at letter/digit boundaries and gives `A1B`; the crate version is not part of this model. Boundaries inside camelCase words, acronyms and Unicode are outside the model too.
- `borrow_toowned` is left out. It is a compile-time feature choice (`ctrlgen-impl/src/generate.rs:5-16`), represented by the `Owned(elem)` field type.
- Generated code is not type-checked or executed. Dispatch is described, not interpreted.
- Generate.ProxyTraitSpec: the trait proxy's where clause is computed in the source (`ctrlgen-impl/src/generate.rs:372-380`) but never emitted, so the model has none.
- Generate.EnumSpec: the live enum uses the corrected return-attribute emission (see Findings).
- No parser in the live code produces `Proxy::Trait`, and nothing builds `proxy(trait ...)` or `context(...)` clauses. The trait generator is modelled, but only for a `Proxy::Trait` value given directly.
- LegacyParseArgs.ArgsSpec: the collected `returnval` stream is kept as an opaque type. The `syn::parse(...).unwrap()` that could panic on it (`ctrlgen-derive/src/parse_args.rs:102`) is not modelled.
- LegacyParseInput.ParseInherentImpl: a panic aborts the whole expansion, so the state of the impl block and the shared list after a panic is left unspecified.
- The legacy crate root, including `AccessMode::code` and the legacy data types, is not part of this model. Its behaviour is inferred from its use.
- `TokioRetval` is left out. It wraps tokio's one-shot channel: `create` pairs a sender with a `Promise` on its receiver, `recv` returns that `Promise` (modelled in `promise.dfy`), and `send` turns a failed send into `Err(FailedToSendRetval)` (`ctrlgen/src/returnval.rs:44-69`, with a copy in `ctrlgen/src/support/tokio.rs`).
- `TokioProxy` in `ctrlgen/src/support/tokio.rs` is left out. It is a thin wrapper over a tokio channel that calls `unwrap`.
- The flume proxies are left out for the same reason: thin wrappers over a channel library that call `unwrap`.
- The `MessageSender` impls are left out for the same reason.
- The duplicate copies of `LocalRetval` under `ctrlgen/src/support/` are modelled once. `FnProxy` is a one-line forwarder.
- `ctrlgen/src/lib.rs` is left out: it holds only trait declarations, forwarding impls and `BasicProxy`.
- LocalRetval.Send: the `Infallible` error type is represented as `()`. The result is always `Ok(())`, so no error value can be built.
- Promise `spawn`, `map_promise`, `then_promise` and `block_on` are left out: they need the tokio runtime and executors.
- Promise `UnsafeCell` and `ptr::read` are left out. The memory effects of `ptr::read` in `poll`, such as a duplicated value, are outside the model.
- The tokio one-shot receiver is an assumption stated in `promise.dfy`, not a model of tokio. `poll` does not register a waker.
- Promises.TakeOf: `take` calls `check_rx` twice (once directly, once through `is_ready`). The checks are idempotent (`Promises.CheckIdempotent`), provided the channel does not change between them. Concurrent sends are not modelled.
- Promise equality is generic over `T` with equality, which the source does not need. This only constrains the Dafny types.

## Findings

| source | as written | input that shows it | evidently intended | confidence | as-written member | corrected member |
|---|---|---|---|---|---|---|
| ctrlgen-impl/src/generate.rs:75-78 | each return attribute is already a whole `#[...]` attribute (built at `ctrlgen-impl/src/parse_input.rs:133`), and `q! {# #aa}` puts one more `#` in front, giving `# #[serde(skip)] ret: ...` | a method `fn f(&self) -> u32` with `#[ctrlgen_return_attr[serde(skip)]]`, under `returnval = LocalRetval` | `#[serde(skip)] ret: <R as Returnval>::Sender<u32>`, as the argument attributes do with their groups | not executed | Generate.RetAttrsAsWritten, Generate.RetAttrsAsWrittenRejected | Generate.RetAttrs, Generate.RetAttrsReparse |
