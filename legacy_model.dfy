/**
 * The intermediate representation of the legacy `ctrlgen-derive` pipeline.
 * Its crate root is not part of this model; these types are the ones its
 * parser, analyser and generator use: the configuration has a single
 * optional proxy struct and an access mode instead of a visibility, and
 * method-level markers are kept as the `[...]` groups themselves.
 */
module LegacyModel {
  import opened Wrappers
  import opened Syntax
  import opened Model

  datatype AccessMode = Priv | Pub | PubCrate

  /** What `AccessMode::code` writes in front of generated items: nothing, `pub` or `pub(crate)`. */
  function AccessVisibility(m: AccessMode): Visibility
  {
    match m
    case Priv => Inherited
    case Pub => Public
    case PubCrate => Restricted([Ident("crate")])
  }

  datatype LegacyParams = LegacyParams(
    proxy: Option<string>,
    accessMode: AccessMode,
    returnval: Option<Ty>,
    enumAttr: seq<Group>,
    enumName: string)

  datatype LegacyMethod = LegacyMethod(
    name: string,
    receiverStyle: ReceiverStyle,
    args: seq<Argument>,
    ret: Option<Ty>,
    enumAttr: seq<Group>,
    returnAttr: seq<Group>,
    isAsync: bool)

  datatype LegacyInputData = LegacyInputData(
    name: string,
    generics: Generics,
    structArgs: PathArguments,
    methods: seq<LegacyMethod>,
    params: LegacyParams)

  /** Variants are named as in the live crate: the upper-camel case of the method name. */
  function LegacyVariantName(m: LegacyMethod): string { UpperCamel(m.name) }

  function HasAsyncMethods(ms: seq<LegacyMethod>): (r: bool)
    ensures r <==> exists i :: 0 <= i < |ms| && ms[i].isAsync
    decreases |ms|
  {
    if ms == [] then false else ms[0].isAsync || HasAsyncMethods(ms[1..])
  }
}
