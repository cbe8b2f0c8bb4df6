/**
 * The code the macro generates, as structured values rather than token text:
 * the message enum, the dispatcher impl and the proxy items.  Attributes that
 * are written in front of an item are kept as the tokens emitted for them, so
 * that a malformed attribute prefix can be told apart from a correct one.
 */
module Emit {
  import opened Wrappers
  import opened Syntax
  import Model

  /** The type of one enum field. */
  datatype FieldTy =
    | Declared(ty: Ty)                   // the argument's own type
    | Owned(elem: Ty)                    // `<elem as ToOwned>::Owned`
    | RetSender(returnval: Ty, ret: Ty)  // `<R as ::ctrlgen::Returnval>::Sender<ret>`

  /** `attrs name: ty,` */
  datatype Field = Field(attrs: seq<Token>, name: string, ty: FieldTy)

  /** `attrs Name { fields }` */
  datatype Variant = Variant(attrs: seq<Token>, name: string, fields: seq<Field>)

  /** `attrs vis enum Name where ... { variants }` */
  datatype EnumDef = EnumDef(
    attrs: seq<Token>,
    visibility: Visibility,
    name: string,
    whereClause: seq<WherePredicate>,
    variants: seq<Variant>)

  /** What a dispatch case does after the call. */
  datatype CaseBody =
    | SendReturn(returnval: Ty)  // `<R as Returnval>::send(ret, call)`
    | Evaluate(thenOk: bool)     // `call;` then `Ok(())` (or `()` when `thenOk` is false)

  /** `Self::Variant { bindings } => { this.method(args)[.await] ... }` */
  datatype CallCase = CallCase(
    variant: string,
    bindings: seq<string>,
    callee: string,
    args: seq<string>,
    awaited: bool,
    body: CaseBody)

  datatype Dispatcher = CallMut | CallMutAsync

  datatype ErrorType = SendErrorOf(returnval: Ty) | Infallible

  /** The result type of a dispatch: `Result<(), E>`, or `()`. */
  datatype OutputType = ResultWithError(error: ErrorType) | Unit

  /** `impl<params> Dispatcher<Struct args> for Enum where ... { match self { cases } }` */
  datatype CallImpl = CallImpl(
    dispatcher: Dispatcher,
    params: seq<GenericParam>,
    structName: string,
    structArgs: PathArguments,
    enumName: string,
    output: OutputType,
    whereClause: seq<WherePredicate>,
    cases: seq<CallCase>)

  /** A proxy method parameter `name: ty`. */
  datatype Param = Param(name: string, ty: Ty)

  /** How a proxy method hands its message over. */
  datatype SendVia =
    | ViaProxyTrait(enumName: string)  // `<Self as ::ctrlgen::Proxy<E>>::send(self, msg)`
    | ViaSelf                          // `Self::send(self, msg)`
    | ViaSender                        // `self.sender.send(msg)`

  /** What a proxy method does around the send. */
  datatype ProxyBody =
    | RoundTrip(returnval: Ty, ret: Ty)  // `create()`, the message gets `ret: ret.0`, returns `recv(ret.1)`
    | SendOnly                           // returns unit

  /** `attrs vis fn name(&self, params) { let msg = Enum::Variant { fields }; send; ... }` */
  datatype ProxyMethod = ProxyMethod(
    attrs: seq<Token>,
    visibility: Visibility,
    name: string,
    params: seq<Param>,
    variant: string,
    fields: seq<string>,
    body: ProxyBody,
    via: SendVia)

  datatype ProxyItem =
    // `vis struct Name<Sender: MessageSender<E>> { sender: Sender }`
    | StructDef(visibility: Visibility, name: string, enumName: string)
    // `impl<Sender: MessageSender<E>> Proxy<E> for Name<Sender> { fn send(&self, msg) { self.sender.send(msg) } }`
    | ForwardImpl(name: string, enumName: string)
    // `impl<params> path where ... { [vis fn new(sender: Sender) -> Self] methods }`
    | InherentImpl(
        params: seq<GenericParam>,
        path: Model.ProxyPath,
        whereClause: seq<WherePredicate>,
        newFn: Option<Visibility>,
        methods: seq<ProxyMethod>)
    // `vis trait Name { fn send(&self, msg: E); methods }`
    | TraitDef(visibility: Visibility, name: string, enumName: string, methods: seq<ProxyMethod>)
    // `impl<T: Proxy<E>> Name for T { fn send(..) { Proxy::<E>::send(self, msg) } }`
    | BlanketImpl(name: string, enumName: string)
}
