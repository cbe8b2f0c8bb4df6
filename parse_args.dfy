/**
 * The argument parser of the live macro: `#[ctrlgen(attrs vis enum Name, clause, ...)]`
 * becomes `Params`.  `ParseParams` is the imperative loop over the token cursor;
 * `ParamsSpec` is the same reading as a recursive function, and
 * `ParseRenderedParams` says what every well-formed attribute parses to.
 */
module ParseArgs {
  import opened Wrappers
  import opened Diagnostics
  import opened Syntax
  import opened Model

  /** What the clause loop has gathered so far. */
  datatype Acc = Acc(
    enumAttr: seq<Attr>,
    returnval: Option<Ty>,
    proxy: Option<string>,
    proxyImpl: seq<ProxyImpl>)

  function ImplProxies(impls: seq<ProxyImpl>): (ps: seq<Proxy>)
    ensures |ps| == |impls|
    ensures forall i :: 0 <= i < |impls| ==> ps[i] == ProxyImplOf(impls[i])
  {
    if impls == [] then [] else [ProxyImplOf(impls[0])] + ImplProxies(impls[1..])
  }

  /**
   * The gathered clauses as `Params`.  The parser keeps `proxy` and `proxy_impl`
   * apart while `Params` has one proxy list: the `proxy` struct comes first, then
   * every `proxy_impl` in the order written.
   */
  function Finish(vis: Visibility, name: string, acc: Acc): (p: Params)
    ensures p.enumAttr == acc.enumAttr && p.returnval == acc.returnval
    ensures p.visibility == vis && p.enumName == name
    ensures |p.proxies| == (if acc.proxy.Some? then 1 else 0) + |acc.proxyImpl|
    ensures acc.proxy.Some? ==> p.proxies[0] == ProxyStruct(acc.proxy.value)
    ensures forall i :: 0 <= i < |acc.proxyImpl| ==>
      p.proxies[(if acc.proxy.Some? then 1 else 0) + i] == ProxyImplOf(acc.proxyImpl[i])
  {
    Params(vis, acc.returnval,
      (if acc.proxy.Some? then [ProxyStruct(acc.proxy.value)] else []) + ImplProxies(acc.proxyImpl),
      acc.enumAttr, name)
  }

  /** One clause after its comma: `enum_attr[...]`, `returnval = T`, `proxy = P` or `proxy_impl <G> = Path`. */
  function Clause(ts: seq<Token>, acc: Acc): (r: Result<(Acc, seq<Token>), Error>)
    ensures r.Ok? ==> |r.value.1| < |ts|
  {
    var arg :- ParseIdent(ts);
    var rest := arg.1;
    if arg.0 == "enum_attr" then
      if !StartsWithBracket(rest) then Err(Expected("square brackets"))
      else
        var a :- ParseAttrBody(rest[0].g.stream);
        Ok((acc.(enumAttr := acc.enumAttr + [a]), rest[1..]))
    else if arg.0 == "returnval" then
      if acc.returnval.Some? then Err(ReturnvalTwice)
      else
        var afterEq :- ExpectToken(rest, Punct('='), "`=`");
        var t :- ParseType(afterEq);
        Ok((acc.(returnval := Some(t.0)), t.1))
    else if arg.0 == "proxy" then
      if acc.proxy.Some? then Err(ProxyTwice)
      else
        var afterEq :- ExpectToken(rest, Punct('='), "`=`");
        var p :- ParseIdent(afterEq);
        Ok((acc.(proxy := Some(p.0)), p.1))
    else if arg.0 == "proxy_impl" then
      var g :- ParseGenerics(rest);
      var afterEq :- ExpectToken(g.1, Punct('='), "`=`");
      var p :- ParseTypePath(afterEq);
      Ok((acc.(proxyImpl := acc.proxyImpl + [ProxyImpl(PathTokens(p.0), g.0)]), p.1))
    else Err(UnknownArgument(arg.0))
  }

  /** The clause loop: a clause follows each comma, and a comma at the very end is allowed. */
  function Clauses(ts: seq<Token>, acc: Acc): Result<(Acc, seq<Token>), Error>
    decreases |ts|
  {
    if |ts| > 0 && ts[0] == Punct(',') then
      if |ts| == 1 then Ok((acc, []))
      else
        var step :- Clause(ts[1..], acc);
        Clauses(step.1, step.0)
    else Ok((acc, ts))
  }

  /** The visibility, or `Inherited` (consuming nothing) when none parses. */
  function OptionalVisibility(ts: seq<Token>): (Visibility, seq<Token>)
  {
    match ParseVisibility(ts)
    case Ok(v) => v
    case Err(_) => (Inherited, ts)
  }

  /** The header `attrs vis enum Name` and then the clauses; nothing may follow them. */
  function ParamsSpec(ts: seq<Token>): Result<Params, Error>
  {
    var lead :- ParseOuterAttrs(ts);
    var vis := OptionalVisibility(lead.1);
    var afterEnum :- ExpectToken(vis.1, Ident("enum"), "`enum`");
    var name :- ParseIdent(afterEnum);
    var cl :- Clauses(name.1, Acc(lead.0, None, None, []));
    if cl.1 != [] then Err(UnexpectedToken)
    else Ok(Finish(vis.0, name.0, cl.0))
  }

  /** `impl Parse for Params`, read to the end of the attribute as `syn::parse2` does. */
  method ParseParams(ts: seq<Token>) returns (r: Result<Params, Error>)
    ensures r == ParamsSpec(ts)
  {
    var lead :- ParseOuterAttrs(ts);
    var enumAttr := lead.0;
    var rest := lead.1;
    var visibility := Inherited;
    var vis := ParseVisibility(rest);
    if vis.Ok? {
      visibility, rest := vis.value.0, vis.value.1;
    }
    rest :- ExpectToken(rest, Ident("enum"), "`enum`");
    var name :- ParseIdent(rest);
    rest := name.1;
    var returnval: Option<Ty> := None;
    var proxy: Option<string> := None;
    var proxyImpl: seq<ProxyImpl> := [];
    ghost var start := rest;
    while |rest| > 0 && rest[0] == Punct(',')
      invariant Clauses(rest, Acc(enumAttr, returnval, proxy, proxyImpl)) == Clauses(start, Acc(lead.0, None, None, []))
      decreases |rest|
    {
      ghost var before := Acc(enumAttr, returnval, proxy, proxyImpl);
      rest := rest[1..];
      if rest == [] {
        break;
      }
      ghost var clauseStart := rest;
      var arg := ParseIdent(rest);
      if arg.Err? {
        return Err(arg.error);
      }
      rest := arg.value.1;
      if arg.value.0 == "enum_attr" {
        if !StartsWithBracket(rest) {
          return Err(Expected("square brackets"));
        }
        var a := ParseAttrBody(rest[0].g.stream);
        if a.Err? {
          return Err(a.error);
        }
        enumAttr := enumAttr + [a.value];
        rest := rest[1..];
      } else if arg.value.0 == "returnval" {
        if returnval.Some? {
          return Err(ReturnvalTwice);
        }
        var afterEq := ExpectToken(rest, Punct('='), "`=`");
        if afterEq.Err? {
          return Err(afterEq.error);
        }
        var t := ParseType(afterEq.value);
        if t.Err? {
          return Err(t.error);
        }
        returnval, rest := Some(t.value.0), t.value.1;
      } else if arg.value.0 == "proxy" {
        if proxy.Some? {
          return Err(ProxyTwice);
        }
        var afterEq := ExpectToken(rest, Punct('='), "`=`");
        if afterEq.Err? {
          return Err(afterEq.error);
        }
        var p := ParseIdent(afterEq.value);
        if p.Err? {
          return Err(p.error);
        }
        proxy, rest := Some(p.value.0), p.value.1;
      } else if arg.value.0 == "proxy_impl" {
        var g := ParseGenerics(rest);
        if g.Err? {
          return Err(g.error);
        }
        var afterEq := ExpectToken(g.value.1, Punct('='), "`=`");
        if afterEq.Err? {
          return Err(afterEq.error);
        }
        var p := ParseTypePath(afterEq.value);
        if p.Err? {
          return Err(p.error);
        }
        proxyImpl := proxyImpl + [ProxyImpl(PathTokens(p.value.0), g.value.0)];
        rest := p.value.1;
      } else {
        return Err(UnknownArgument(arg.value.0));
      }
      assert Clause(clauseStart, before) == Ok((Acc(enumAttr, returnval, proxy, proxyImpl), rest));
    }
    if rest != [] {
      return Err(UnexpectedToken);
    }
    r := Ok(Params(visibility, returnval,
      (if proxy.Some? then [ProxyStruct(proxy.value)] else []) + ImplProxies(proxyImpl),
      enumAttr, name.0));
  }

  // ---------------------------------------------------------------------------
  // What a well-formed attribute means
  // ---------------------------------------------------------------------------

  /** One clause as the user writes it. */
  datatype ClauseSyntax =
    | EnumAttrClause(attr: Attr)
    | ReturnvalClause(ty: seq<Token>)
    | ProxyClause(name: string)
    | ProxyImplClause(generics: seq<Token>, path: seq<Token>)
    | UnknownClause(name: string)

  function RenderClause(c: ClauseSyntax): seq<Token>
  {
    match c
    case EnumAttrClause(a) => [Ident("enum_attr"), GroupTok(Group(Bracket, AttrBody(a)))]
    case ReturnvalClause(t) => [Ident("returnval"), Punct('=')] + t
    case ProxyClause(n) => [Ident("proxy"), Punct('='), Ident(n)]
    case ProxyImplClause(g, path) => [Ident("proxy_impl")] + RenderGenerics(g) + [Punct('=')] + path
    case UnknownClause(n) => [Ident(n)]
  }

  /** `, clause` for every clause, and optionally one comma more. */
  function RenderClauses(cs: seq<ClauseSyntax>, trailingComma: bool): seq<Token>
  {
    if cs == [] then (if trailingComma then [Punct(',')] else [])
    else [Punct(',')] + RenderClause(cs[0]) + RenderClauses(cs[1..], trailingComma)
  }

  function RenderVisibility(v: Visibility): seq<Token>
  {
    match v
    case Inherited => []
    case Public => [Ident("pub")]
    case Crate => [Ident("crate")]
    case Restricted(c) => [Ident("pub"), GroupTok(Group(Paren, c))]
  }

  predicate WfVisibility(v: Visibility)
  {
    v.Restricted? ==> v.scope == [Ident("crate")] || v.scope == [Ident("self")] || v.scope == [Ident("super")]
  }

  predicate IsClauseKeyword(n: string)
  {
    n == "enum_attr" || n == "returnval" || n == "proxy" || n == "proxy_impl"
  }

  predicate WfClause(c: ClauseSyntax)
  {
    match c
    case EnumAttrClause(a) => WfAttr(a)
    case ReturnvalClause(t) => WfRun(t, ',')
    case ProxyClause(n) => IsIdentifier(n)
    case ProxyImplClause(g, path) => (g == [] || WfRun(g, '>')) && WfRun(path, ',')
    case UnknownClause(n) => IsIdentifier(n) && !IsClauseKeyword(n)
  }

  predicate WfClauses(cs: seq<ClauseSyntax>) { forall i :: 0 <= i < |cs| ==> WfClause(cs[i]) }

  function GenericsOf(g: seq<Token>): Generics
  {
    Generics(if g == [] then [] else [ParamTokens(g)], None)
  }

  /** The meaning of one clause: attributes and proxy impls are appended, `returnval` and `proxy` may be given once. */
  function ApplyClause(c: ClauseSyntax, acc: Acc): Result<Acc, Error>
  {
    match c
    case EnumAttrClause(a) => Ok(acc.(enumAttr := acc.enumAttr + [a]))
    case ReturnvalClause(t) =>
      if acc.returnval.Some? then Err(ReturnvalTwice) else Ok(acc.(returnval := Some(TyOther(t))))
    case ProxyClause(n) =>
      if acc.proxy.Some? then Err(ProxyTwice) else Ok(acc.(proxy := Some(n)))
    case ProxyImplClause(g, path) =>
      Ok(acc.(proxyImpl := acc.proxyImpl + [ProxyImpl(PathTokens(path), GenericsOf(g))]))
    case UnknownClause(n) => Err(UnknownArgument(n))
  }

  /** The meaning of a clause list: its clauses in order, stopping at the first refused one. */
  function Apply(cs: seq<ClauseSyntax>, acc: Acc): Result<Acc, Error>
    decreases |cs|
  {
    if cs == [] then Ok(acc)
    else
      var next :- ApplyClause(cs[0], acc);
      Apply(cs[1..], next)
  }

  function WithRest(r: Result<Acc, Error>, rest: seq<Token>): Result<(Acc, seq<Token>), Error>
  {
    match r
    case Ok(a) => Ok((a, rest))
    case Err(e) => Err(e)
  }

  lemma EnumAttrClauseRendered(a: Attr, rest: seq<Token>, acc: Acc)
    requires WfAttr(a)
    ensures Clause(RenderClause(EnumAttrClause(a)) + rest, acc) == Ok((acc.(enumAttr := acc.enumAttr + [a]), rest))
  {
    var ts := RenderClause(EnumAttrClause(a)) + rest;
    assert IsIdentifier("enum_attr");
    assert ts[1..] == [GroupTok(Group(Bracket, AttrBody(a)))] + rest;
    PathReparses(a.path, a.tokens);
    assert ts[1..][1..] == rest;
  }

  lemma ReturnvalClauseRendered(t: seq<Token>, rest: seq<Token>, acc: Acc)
    requires WfRun(t, ',')
    requires rest == [] || rest[0] == Punct(',')
    ensures Clause(RenderClause(ReturnvalClause(t)) + rest, acc) == WithRest(ApplyClause(ReturnvalClause(t), acc), rest)
  {
    var ts := RenderClause(ReturnvalClause(t)) + rest;
    assert IsIdentifier("returnval");
    assert ts[1..] == [Punct('=')] + (t + rest);
    assert ts[1..][1..] == t + rest;
    RunStopsAfter(t, ',', rest);
    assert (t + rest)[..|t|] == t && (t + rest)[|t|..] == rest;
  }

  lemma ProxyClauseRendered(n: string, rest: seq<Token>, acc: Acc)
    requires IsIdentifier(n)
    ensures Clause(RenderClause(ProxyClause(n)) + rest, acc) == WithRest(ApplyClause(ProxyClause(n), acc), rest)
  {
    var ts := RenderClause(ProxyClause(n)) + rest;
    assert IsIdentifier("proxy");
    assert ts[1..] == [Punct('='), Ident(n)] + rest;
    assert ts[1..][1..] == [Ident(n)] + rest;
    assert ts[1..][1..][1..] == rest;
  }

  lemma ProxyImplClauseRendered(g: seq<Token>, path: seq<Token>, rest: seq<Token>, acc: Acc)
    requires g == [] || WfRun(g, '>')
    requires WfRun(path, ',')
    requires rest == [] || rest[0] == Punct(',')
    ensures Clause(RenderClause(ProxyImplClause(g, path)) + rest, acc)
         == WithRest(ApplyClause(ProxyImplClause(g, path), acc), rest)
  {
    var ts := RenderClause(ProxyImplClause(g, path)) + rest;
    assert IsIdentifier("proxy_impl");
    assert ParseIdent(ts) == Ok(("proxy_impl", ts[1..]));
    ProxyImplTail(g, path, rest);
  }

  /** What follows `proxy_impl`: the generics, `=` and the type path, each read back in turn. */
  lemma ProxyImplTail(g: seq<Token>, path: seq<Token>, rest: seq<Token>)
    requires g == [] || WfRun(g, '>')
    requires WfRun(path, ',')
    requires rest == [] || rest[0] == Punct(',')
    ensures
      var tail := (RenderClause(ProxyImplClause(g, path)) + rest)[1..];
      var afterGenerics := [Punct('=')] + (path + rest);
      && ParseGenerics(tail) == Ok((GenericsOf(g), afterGenerics))
      && ExpectToken(afterGenerics, Punct('='), "`=`") == Ok(path + rest)
      && ParseTypePath(path + rest) == Ok((path, rest))
  {
    var ts := RenderClause(ProxyImplClause(g, path)) + rest;
    var afterGenerics := [Punct('=')] + (path + rest);
    var head := [Ident("proxy_impl")] + RenderGenerics(g);
    AppendAssoc(head + [Punct('=')], path, rest);
    AppendAssoc(head, [Punct('=')], path + rest);
    AppendAssoc([Ident("proxy_impl")], RenderGenerics(g), afterGenerics);
    assert ts[1..] == RenderGenerics(g) + afterGenerics;
    GenericsReparse(g, afterGenerics);
    RunStopsAfter(path, ',', rest);
    assert (path + rest)[..|path|] == path && (path + rest)[|path|..] == rest;
  }

  lemma ClauseRendered(c: ClauseSyntax, rest: seq<Token>, acc: Acc)
    requires WfClause(c)
    requires rest == [] || rest[0] == Punct(',')
    ensures Clause(RenderClause(c) + rest, acc) == WithRest(ApplyClause(c, acc), rest)
  {
    match c
    case EnumAttrClause(a) => EnumAttrClauseRendered(a, rest, acc);
    case ReturnvalClause(t) => ReturnvalClauseRendered(t, rest, acc);
    case ProxyClause(n) => ProxyClauseRendered(n, rest, acc);
    case ProxyImplClause(g, path) => ProxyImplClauseRendered(g, path, rest, acc);
    case UnknownClause(n) =>
      assert (RenderClause(c) + rest)[0] == Ident(n);
  }

  /** The clause loop reads rendered clauses exactly as `Apply` interprets them. */
  lemma {:induction false} ClausesRendered(cs: seq<ClauseSyntax>, trailingComma: bool, acc: Acc)
    requires WfClauses(cs)
    ensures Clauses(RenderClauses(cs, trailingComma), acc) == WithRest(Apply(cs, acc), [])
    decreases |cs|
  {
    if cs != [] {
      var c := cs[0];
      var rest := RenderClauses(cs[1..], trailingComma);
      ClausesRenderedStep(cs, trailingComma);
      ClauseRendered(c, rest, acc);
      var next := ApplyClause(c, acc);
      if next.Ok? {
        ClausesRendered(cs[1..], trailingComma, next.value);
      }
    }
  }

  /** A rendered clause list starts with a comma, then the first clause, then the rest of the list. */
  lemma ClausesRenderedStep(cs: seq<ClauseSyntax>, trailingComma: bool)
    requires cs != [] && WfClauses(cs)
    ensures var ts := RenderClauses(cs, trailingComma);
      var rest := RenderClauses(cs[1..], trailingComma);
      && |ts| > 1 && ts[0] == Punct(',') && ts[1..] == RenderClause(cs[0]) + rest
      && (rest == [] || rest[0] == Punct(','))
    ensures WfClause(cs[0]) && WfClauses(cs[1..])
  {
    var rest := RenderClauses(cs[1..], trailingComma);
    AppendAssoc([Punct(',')], RenderClause(cs[0]), rest);
    assert WfClause(cs[0]);
    forall i | 0 <= i < |cs[1..]| ensures WfClause(cs[1..][i]) { assert cs[1..][i] == cs[i + 1]; }
  }

  lemma VisibilityRendered(v: Visibility, more: seq<Token>)
    requires WfVisibility(v)
    ensures OptionalVisibility(RenderVisibility(v) + [Ident("enum")] + more) == (v, [Ident("enum")] + more)
  {
    var ts := RenderVisibility(v) + [Ident("enum")] + more;
    match v
    case Inherited =>
      assert ts == [Ident("enum")] + more;
    case Public =>
      assert ts[1..] == [Ident("enum")] + more;
    case Crate =>
      assert ts[1..] == [Ident("enum")] + more;
    case Restricted(c) =>
      assert ts[2..] == [Ident("enum")] + more;
  }

  /** The parameters for a header and the meaning of its clauses. */
  function Outcome(attrs: seq<Attr>, vis: Visibility, name: string, cs: seq<ClauseSyntax>): Result<Params, Error>
  {
    var acc :- Apply(cs, Acc(attrs, None, None, []));
    Ok(Finish(vis, name, acc))
  }

  /** Once the header is read, the clauses decide the result. */
  lemma HeaderRead(ts: seq<Token>, attrs: seq<Attr>, afterAttrs: seq<Token>, vis: Visibility, name: string, clauses: seq<Token>)
    requires ParseOuterAttrs(ts) == Ok((attrs, afterAttrs))
    requires OptionalVisibility(afterAttrs) == (vis, [Ident("enum"), Ident(name)] + clauses)
    requires IsIdentifier(name)
    ensures ParamsSpec(ts) ==
      match Clauses(clauses, Acc(attrs, None, None, []))
      case Err(e) => Err(e)
      case Ok(cl) => if cl.1 != [] then Err(UnexpectedToken) else Ok(Finish(vis, name, cl.0))
  {
    var afterVis := [Ident("enum"), Ident(name)] + clauses;
    assert afterVis[1..] == [Ident(name)] + clauses;
    assert ([Ident(name)] + clauses)[1..] == clauses;
  }

  /**
   * Every well-formed attribute `#[a]* vis enum Name (, clause)* [,]` parses to
   * the `Params` that `Apply` gives for its clauses, starting from the leading
   * attributes; the errors of `Apply` are the parser's errors.
   */
  lemma ParseRenderedParams(attrs: seq<Attr>, vis: Visibility, name: string, cs: seq<ClauseSyntax>, trailingComma: bool)
    requires WfAttrs(attrs) && WfVisibility(vis) && IsIdentifier(name) && WfClauses(cs)
    ensures ParamsSpec(RenderAttrs(attrs) + (RenderVisibility(vis) + ([Ident("enum"), Ident(name)] + RenderClauses(cs, trailingComma))))
         == Outcome(attrs, vis, name, cs)
  {
    var clauses := RenderClauses(cs, trailingComma);
    var afterVis := [Ident("enum"), Ident(name)] + clauses;
    HeaderRendered(attrs, vis, afterVis);
    ClausesRendered(cs, trailingComma, Acc(attrs, None, None, []));
    HeaderRead(RenderAttrs(attrs) + (RenderVisibility(vis) + afterVis), attrs, RenderVisibility(vis) + afterVis, vis, name, clauses);
    ResultOfClauses(attrs, vis, name, cs, Clauses(clauses, Acc(attrs, None, None, [])));
  }

  /** The leading attributes and the visibility of a rendered header read back as written. */
  lemma HeaderRendered(attrs: seq<Attr>, vis: Visibility, afterVis: seq<Token>)
    requires WfAttrs(attrs) && WfVisibility(vis)
    requires |afterVis| > 0 && afterVis[0] == Ident("enum")
    ensures ParseOuterAttrs(RenderAttrs(attrs) + (RenderVisibility(vis) + afterVis)) == Ok((attrs, RenderVisibility(vis) + afterVis))
    ensures OptionalVisibility(RenderVisibility(vis) + afterVis) == (vis, afterVis)
  {
    NoAttrAfterAttrs(vis, afterVis);
    AttrsReparse(attrs, RenderVisibility(vis) + afterVis);
    VisibilityBeforeEnum(vis, afterVis);
  }

  lemma NoAttrAfterAttrs(vis: Visibility, afterVis: seq<Token>)
    requires |afterVis| > 0 && afterVis[0] == Ident("enum")
    ensures |RenderVisibility(vis) + afterVis| > 0 && (RenderVisibility(vis) + afterVis)[0] != Punct('#')
  {
    if vis.Inherited? { assert RenderVisibility(vis) + afterVis == afterVis; }
  }

  lemma VisibilityBeforeEnum(vis: Visibility, afterVis: seq<Token>)
    requires WfVisibility(vis)
    requires |afterVis| > 0 && afterVis[0] == Ident("enum")
    ensures OptionalVisibility(RenderVisibility(vis) + afterVis) == (vis, afterVis)
  {
    VisibilityRendered(vis, afterVis[1..]);
    assert [Ident("enum")] + afterVis[1..] == afterVis;
    assert RenderVisibility(vis) + [Ident("enum")] + afterVis[1..] == RenderVisibility(vis) + afterVis;
  }

  lemma ResultOfClauses(attrs: seq<Attr>, vis: Visibility, name: string, cs: seq<ClauseSyntax>,
                        cl: Result<(Acc, seq<Token>), Error>)
    requires cl == WithRest(Apply(cs, Acc(attrs, None, None, [])), [])
    ensures Outcome(attrs, vis, name, cs) ==
      match cl
      case Err(e) => Err(e)
      case Ok(c) => if c.1 != [] then Err(UnexpectedToken) else Ok(Finish(vis, name, c.0))
  {
  }

  // ---------------------------------------------------------------------------
  // Properties of the clause semantics
  // ---------------------------------------------------------------------------

  function EnumAttrsOf(cs: seq<ClauseSyntax>): seq<Attr>
  {
    if cs == [] then []
    else (if cs[0].EnumAttrClause? then [cs[0].attr] else []) + EnumAttrsOf(cs[1..])
  }

  function ProxyImplsOf(cs: seq<ClauseSyntax>): seq<ProxyImpl>
  {
    if cs == [] then []
    else
      var here := if cs[0].ProxyImplClause? then [ProxyImpl(PathTokens(cs[0].path), GenericsOf(cs[0].generics))] else [];
      here + ProxyImplsOf(cs[1..])
  }

  function ReturnvalCount(cs: seq<ClauseSyntax>): nat
  {
    if cs == [] then 0 else (if cs[0].ReturnvalClause? then 1 else 0) + ReturnvalCount(cs[1..])
  }

  function ProxyCount(cs: seq<ClauseSyntax>): nat
  {
    if cs == [] then 0 else (if cs[0].ProxyClause? then 1 else 0) + ProxyCount(cs[1..])
  }

  predicate NoUnknown(cs: seq<ClauseSyntax>)
  {
    cs == [] || (!cs[0].UnknownClause? && NoUnknown(cs[1..]))
  }

  function Seen(o: Option<Ty>): nat { if o.Some? then 1 else 0 }

  function SeenProxy(o: Option<string>): nat { if o.Some? then 1 else 0 }

  /** The clauses are accepted iff none is unknown and `returnval` and `proxy` occur at most once each. */
  lemma {:induction false} ApplyAccepts(cs: seq<ClauseSyntax>, acc: Acc)
    ensures Apply(cs, acc).Ok? <==>
      NoUnknown(cs) && ReturnvalCount(cs) + Seen(acc.returnval) <= 1 && ProxyCount(cs) + SeenProxy(acc.proxy) <= 1
    decreases |cs|
  {
    if cs != [] {
      var next := ApplyClause(cs[0], acc);
      if next.Ok? {
        ApplyAccepts(cs[1..], next.value);
      }
    }
  }

  /**
   * On acceptance the `enum_attr` attributes follow the leading ones in the order
   * written, the proxy impls keep their order, and `returnval` and `proxy` are set
   * iff they were given.
   */
  lemma {:induction false} ApplyCollects(cs: seq<ClauseSyntax>, acc: Acc)
    requires Apply(cs, acc).Ok?
    ensures Apply(cs, acc).value.enumAttr == acc.enumAttr + EnumAttrsOf(cs)
    ensures Apply(cs, acc).value.proxyImpl == acc.proxyImpl + ProxyImplsOf(cs)
    ensures Seen(Apply(cs, acc).value.returnval) == ReturnvalCount(cs) + Seen(acc.returnval)
    ensures SeenProxy(Apply(cs, acc).value.proxy) == ProxyCount(cs) + SeenProxy(acc.proxy)
    decreases |cs|
  {
    if cs != [] {
      var next := ApplyClause(cs[0], acc).value;
      ApplyCollects(cs[1..], next);
    }
  }

  /** A second `returnval` is refused as specified twice, whatever lies between the two. */
  lemma {:induction false} SecondReturnval(cs: seq<ClauseSyntax>, acc: Acc)
    requires acc.returnval.Some? && acc.proxy.None?
    requires NoUnknown(cs) && ProxyCount(cs) == 0 && ReturnvalCount(cs) >= 1
    ensures Apply(cs, acc) == Err(ReturnvalTwice)
    decreases |cs|
  {
    if !cs[0].ReturnvalClause? {
      SecondReturnval(cs[1..], ApplyClause(cs[0], acc).value);
    }
  }

  /** A second `proxy` is refused as specified twice, whatever lies between the two. */
  lemma {:induction false} SecondProxy(cs: seq<ClauseSyntax>, acc: Acc)
    requires acc.proxy.Some? && acc.returnval.None?
    requires NoUnknown(cs) && ReturnvalCount(cs) == 0 && ProxyCount(cs) >= 1
    ensures Apply(cs, acc) == Err(ProxyTwice)
    decreases |cs|
  {
    if !cs[0].ProxyClause? {
      SecondProxy(cs[1..], ApplyClause(cs[0], acc).value);
    }
  }

  /** An unknown clause name is reported, when nothing before it failed. */
  lemma UnknownClauseReported(n: string, rest: seq<ClauseSyntax>, acc: Acc)
    ensures Apply([UnknownClause(n)] + rest, acc) == Err(UnknownArgument(n))
  {
    assert ([UnknownClause(n)] + rest)[0] == UnknownClause(n);
  }

  // ---------------------------------------------------------------------------
  // The header
  // ---------------------------------------------------------------------------

  /** Without the `enum` keyword after attributes and visibility nothing is accepted. */
  lemma EnumKeywordRequired(ts: seq<Token>)
    requires ParseOuterAttrs(ts).Ok?
    requires var afterVis := OptionalVisibility(ParseOuterAttrs(ts).value.1).1;
      afterVis == [] || afterVis[0] != Ident("enum")
    ensures ParamsSpec(ts) == Err(Expected("`enum`"))
  {
  }

  /** The older spelling `pub Name, ...` (no `enum`) is refused. */
  lemma OlderHeaderRefused(name: string, rest: seq<Token>)
    requires name != "enum"
    ensures ParamsSpec([Ident("pub"), Ident(name)] + rest) == Err(Expected("`enum`"))
  {
    var ts := [Ident("pub"), Ident(name)] + rest;
    assert ts[1..] == [Ident(name)] + rest;
  }

  /** `trait` is a keyword, so a `, trait Name` clause is refused where a clause name is expected. */
  lemma TraitClauseRefused(name: string, rest: seq<Token>)
    requires IsIdentifier(name)
    ensures ParamsSpec([Ident("enum"), Ident(name), Punct(','), Ident("trait")] + rest) == Err(Expected("identifier"))
  {
    var ts := [Ident("enum"), Ident(name), Punct(','), Ident("trait")] + rest;
    assert ts[1..] == [Ident(name), Punct(','), Ident("trait")] + rest;
    assert ts[1..][1..] == [Punct(','), Ident("trait")] + rest;
    assert ts[1..][1..][1..] == [Ident("trait")] + rest;
    assert IsKeyword("trait");
  }
}
