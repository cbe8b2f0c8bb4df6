/**
 * The parts of a parsed `impl` block that the analyzer looks at: its items,
 * each method's signature and attributes, and each argument's pattern.
 * The impl block itself is an object: the analyzer strips macro-only
 * attributes from its items in place, and the stripped block is what the
 * macro re-emits.
 */
module Items {
  import opened Wrappers
  import opened Syntax

  /** An argument pattern: `[ref] [mut] name`, or anything else. */
  datatype Pat =
    | PatIdent(byRef: bool, mutable: bool, ident: string)
    | PatOther(tokens: seq<Token>)

  /**
   * A method input.  For a receiver, `reference` is `Some(lifetime)` for
   * `&self`, `&'a self` and their `mut` forms, and `None` for `self`.
   */
  datatype FnArg =
    | Receiver(attrs: seq<Attr>, reference: Option<Option<string>>, mutability: bool)
    | Typed(attrs: seq<Attr>, pat: Pat, ty: Ty)

  datatype Signature = Signature(
    constness: bool,
    asyncness: bool,
    unsafety: bool,
    abi: Option<string>,
    ident: string,
    generics: Generics,
    inputs: seq<FnArg>,
    variadic: bool,
    output: Option<Ty>)

  datatype ImplItem =
    | MethodItem(attrs: seq<Attr>, defaultness: bool, sig: Signature, block: seq<Token>)
    | OtherItem(tokens: seq<Token>)

  /** `impl` blocks as values: `traitPath` is `Some` for `impl Trait for T`. */
  datatype ItemImpl = ItemImpl(
    attrs: seq<Attr>,
    defaultness: bool,
    unsafety: bool,
    generics: Generics,
    traitPath: Option<Path>,
    selfTy: Ty,
    items: seq<ImplItem>)

  /** The impl block the macro is applied to; only its items are ever updated. */
  class ImplBlock {
    const attrs: seq<Attr>
    const defaultness: bool
    const unsafety: bool
    const generics: Generics
    const traitPath: Option<Path>
    const selfTy: Ty
    var items: seq<ImplItem>

    function Value(): ItemImpl
      reads this
    {
      ItemImpl(attrs, defaultness, unsafety, generics, traitPath, selfTy, items)
    }

    constructor (item: ItemImpl)
      ensures Value() == item
    {
      attrs := item.attrs;
      defaultness := item.defaultness;
      unsafety := item.unsafety;
      generics := item.generics;
      traitPath := item.traitPath;
      selfTy := item.selfTy;
      items := item.items;
    }
  }
}
