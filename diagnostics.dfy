/**
 * The ways macro expansion can fail.  The live crate reports most of them as
 * `syn::Error` values and a few as panics; the legacy crate panics on all of
 * them.  `Message` gives the text the live crate attaches to each.
 */
module Diagnostics {

  datatype Error =
    // Token-level failures of the parsers that syn provides (their exact text is syn's).
    | Expected(what: string)
    | UnexpectedToken
    | UnparsableItem
    // Configuration clauses.
    | ReturnvalTwice
    | ProxyTwice
    | UnknownArgument(name: string)
    // The impl block.
    | DefaultImpl
    | UnsafeImpl
    | TraitImpl
    | TrickyType
    | NotSingleSegment
    | NotSimpleType
    // One method signature.
    | ConstMethod
    | UnsafeMethod
    | AbiMethod
    | GenericMethod
    | VariadicMethod
    | ReturnWithoutReturnval
    | BadMarkerGroup
    | BadArgEnumAttr
    | ToOwnedWithTokens
    | ReceiverLifetime
    | RefArgument
    | RetArgument(methodName: string)
    | PatternArgument
    | NoReceiver
    // Failures that abort expansion through a panic.
    | Panic(reason: PanicReason)
    // Panics of the legacy argument state machine.
    | ExpectedNameOrVisibility
    | UnknownParameter(param: string)
    | NoGroupExpected
    | NoPunctExpected
    | NoLiteralExpected
    | SingleIdentExpected(target: string)
    | EqsignExpected(target: string)
    | GroupExpected(target: string)
    | NameRequired

  datatype PanicReason =
    | DefaultMethod
    | BadAttributeGroup
    | ToOwnedNotReference
    | ReturnAttrWithoutReturnType

  /** The diagnostic text the source attaches to each failure. */
  function Message(e: Error): string
  {
    match e
    case Expected(what) => "expected " + what
    case UnexpectedToken => "unexpected token"
    case UnparsableItem => "expected an impl item"
    case ReturnvalTwice => "Argument `returnval` specified twice"
    case ProxyTwice => "Argument `proxy` specified twice"
    case UnknownArgument(name) => "Unknown argument `" + name + "` to ctrlgen"
    case DefaultImpl => "Default impls not supported"
    case UnsafeImpl => "Handling `unsafe` is not implemented"
    case TraitImpl => "Trait impls are not supported, only inherent impls"
    case TrickyType => "Impl has some tricky type. This is not supported"
    case NotSingleSegment => "Impl type must be a single ident with optional arguments"
    case NotSimpleType => "Type for `impl` should be a simple identifier without any paths or other tricks."
    case ConstMethod => "ctrlgen does not support const"
    case UnsafeMethod => "ctrlgen does not support unsafe"
    case AbiMethod => "ctrlgen does not support custom ABI in trait methods"
    case GenericMethod => "ctrlgen does not support generics or lifetimes in trait methods"
    case VariadicMethod => "ctrlgen does not support variadics"
    case ReturnWithoutReturnval => "Specify `returnval` parameter to handle methods with return types."
    case BadMarkerGroup => "Input of `ctrlgen_{{enum|return}}_attr` should be single [...] group"
    case BadArgEnumAttr => "Input of `ctrlgen_enum_attr` should be a single [...] group"
    case ToOwnedWithTokens => "`ctrlgen_to_owned` does not accept any additional arguments"
    case ReceiverLifetime => "ctrlgen does not support explicit lifetimes"
    case RefArgument => "ctrlgen does not support `ref` in argument names"
    case RetArgument(m) =>
      "In `returnval` mode, method's arguments cannot be named literally `ret`. Rename it away in `" + m + "`."
    case PatternArgument => "ctrlgen does not support method arguments that are patterns, not just simple identifiers"
    case NoReceiver => "ctrlgen does not support methods that do not accept `self`"
    case Panic(DefaultMethod) => "`default` not supported"
    // syn's own message for a `parse_quote!` that fails; a stand-in text
    case Panic(BadAttributeGroup) => "expected an attribute"
    case Panic(ToOwnedNotReference) => "Argument marked with `#[ctrlgen_to_owned]` must be a &reference"
    case Panic(ReturnAttrWithoutReturnType) =>
      "`ctrlgen_return_attr[]` used in method without a return type. Add `-> ()` to force using the return channel."
    case ExpectedNameOrVisibility => "Expected enum name or visibility as first parameter"
    case UnknownParameter(z) => "Unknown parameter " + z
    case NoGroupExpected => "No group is expected here"
    case NoPunctExpected => "No punctuation is expected here"
    case NoLiteralExpected => "No literal is expected here"
    case SingleIdentExpected(t) => "Single identifier is expected in " + t + " state after `=` sign"
    case EqsignExpected(t) => "Expected `=` character after parameter for " + t
    case GroupExpected(t) => "Expected a group after parameter for " + t
    case NameRequired => "`name` parameter is required."
  }
}
