/**
 * Token trees, attributes, paths, types and generics: the vocabulary the macro
 * reads and writes.  The few syn parsers the argument parser calls (outer
 * attributes, mod-style paths, visibility, types, generics, identifiers) are
 * given here as small stand-ins over the token model: they agree with syn on
 * well-formed input and on where they stop, and are not a model of syn.
 */
module Syntax {
  import opened Wrappers
  import opened Diagnostics

  datatype Delimiter = Paren | Brace | Bracket | NoDelim

  /** A proc-macro token tree.  Multi-character operators such as `::` are sequences of `Punct`s. */
  datatype Token =
    | Ident(name: string)
    | Punct(ch: char)
    | GroupTok(g: Group)
    | Literal(text: string)

  datatype Group = Group(delim: Delimiter, stream: seq<Token>)

  /**
   * Words that an `Ident` token may spell but that syn 1 refuses as an identifier, by length.
   * The 2018-edition keywords `async`, `await`, `dyn` and `try` are not among them: syn 1
   * reads them as identifiers.
   */
  function KeywordsOfLength(n: nat): set<string>
  {
    match n
    case 1 => {"_"}
    case 2 => {"as", "do", "fn", "if", "in"}
    case 3 => {"box", "for", "let", "mod", "mut", "pub", "ref", "use"}
    case 4 => {"else", "enum", "impl", "loop", "move", "priv", "Self", "self", "true", "type"}
    case 5 => {"break", "const", "crate", "false", "final", "macro", "match",
               "super", "trait", "where", "while", "yield"}
    case 6 => {"become", "extern", "return", "static", "struct", "typeof", "unsafe"}
    case 7 => {"unsized", "virtual"}
    case 8 => {"abstract", "continue", "override"}
    case _ => {}
  }

  predicate IsKeyword(s: string) { s in KeywordsOfLength(|s|) }

  predicate IsIdentifier(s: string) { |s| > 0 && !IsKeyword(s) }

  /** Identifiers allowed as a segment of a mod-style path. */
  predicate IsPathSegment(s: string)
  {
    IsIdentifier(s) || s == "super" || s == "self" || s == "Self" || s == "crate"
  }

  predicate StartsWithColons(ts: seq<Token>)
  {
    |ts| >= 2 && ts[0] == Punct(':') && ts[1] == Punct(':')
  }

  // ---------------------------------------------------------------------------
  // Paths, types and generics as values
  // ---------------------------------------------------------------------------

  datatype PathArguments =
    | NoArguments
    | AngleBracketed(args: seq<Token>)
    | Parenthesized(args: seq<Token>)

  datatype PathSegment = PathSegment(ident: string, arguments: PathArguments)

  datatype Path = Path(leadingColon: bool, segments: seq<PathSegment>)

  datatype Ty =
    | TyRef(lifetime: Option<string>, mutable: bool, elem: Ty)
    | TyPath(qself: bool, path: Path)
    | TyOther(tokens: seq<Token>)

  /** Generic parameters: those read from the input, and the `Sender` parameter of a proxy struct. */
  datatype GenericParam =
    | ParamTokens(tokens: seq<Token>)
    | SenderParam(enumName: string)

  /** Where-clause predicates: copied ones, `R: ::ctrlgen::Returnval`, and `Self: ::ctrlgen::Proxy<E>`. */
  datatype WherePredicate =
    | PredicateTokens(tokens: seq<Token>)
    | ReturnvalBound(returnval: Ty)
    | SelfProxyBound(enumName: string)

  datatype Generics = Generics(params: seq<GenericParam>, whereClause: Option<seq<WherePredicate>>)

  const NoGenerics := Generics([], None)

  datatype Visibility = Inherited | Public | Crate | Restricted(scope: seq<Token>)

  // ---------------------------------------------------------------------------
  // Attributes
  // ---------------------------------------------------------------------------

  datatype AttrPath = AttrPath(leadingColon: bool, segments: seq<string>)

  /** `#[path tokens]`. */
  datatype Attr = Attr(path: AttrPath, tokens: seq<Token>)

  /** The path as a single identifier, when it is one (syn's `Path::get_ident`). */
  function GetIdent(p: AttrPath): (r: Option<string>)
    ensures r.Some? <==> !p.leadingColon && |p.segments| == 1
    ensures r.Some? ==> r.value == p.segments[0]
  {
    if !p.leadingColon && |p.segments| == 1 then Some(p.segments[0]) else None
  }

  predicate HasName(a: Attr, name: string) { GetIdent(a.path) == Some(name) }

  /** A path that the mod-style parser reads back unchanged. */
  predicate WfPath(p: AttrPath)
  {
    |p.segments| > 0 && forall i :: 0 <= i < |p.segments| ==> IsPathSegment(p.segments[i])
  }

  /** An attribute that renders and re-parses to itself. */
  predicate WfAttr(a: Attr) { WfPath(a.path) && !StartsWithColons(a.tokens) }

  predicate WfAttrs(attrs: seq<Attr>) { forall i :: 0 <= i < |attrs| ==> WfAttr(attrs[i]) }

  function RenderSegments(segs: seq<string>): seq<Token>
  {
    if segs == [] then []
    else if |segs| == 1 then [Ident(segs[0])]
    else [Ident(segs[0]), Punct(':'), Punct(':')] + RenderSegments(segs[1..])
  }

  function RenderPath(p: AttrPath): seq<Token>
  {
    (if p.leadingColon then [Punct(':'), Punct(':')] else []) + RenderSegments(p.segments)
  }

  function AttrBody(a: Attr): seq<Token> { RenderPath(a.path) + a.tokens }

  /** The two tokens `#` `[path tokens]` of one outer attribute. */
  function RenderAttr(a: Attr): seq<Token>
  {
    [Punct('#'), GroupTok(Group(Bracket, AttrBody(a)))]
  }

  function RenderAttrs(attrs: seq<Attr>): seq<Token>
  {
    if attrs == [] then [] else RenderAttr(attrs[0]) + RenderAttrs(attrs[1..])
  }

  /** Rendering one more attribute appends its two tokens. */
  lemma {:induction false} RenderAttrsSnoc(attrs: seq<Attr>, a: Attr)
    ensures RenderAttrs(attrs + [a]) == RenderAttrs(attrs) + RenderAttr(a)
    decreases |attrs|
  {
    if attrs == [] {
      assert [] + [a] == [a];
    } else {
      assert (attrs + [a])[1..] == attrs[1..] + [a];
      RenderAttrsSnoc(attrs[1..], a);
    }
  }

  /** The segments of a mod-style path: identifiers separated by `::`. */
  function ModSegments(ts: seq<Token>, first: bool): Result<(seq<string>, seq<Token>), Error>
    decreases |ts|
  {
    if ts == [] || !ts[0].Ident? || !IsPathSegment(ts[0].name) then
      Err(Expected(if first then "path" else "path segment"))
    else if StartsWithColons(ts[1..]) then
      var more :- ModSegments(ts[3..], false);
      Ok(([ts[0].name] + more.0, more.1))
    else
      Ok(([ts[0].name], ts[1..]))
  }

  /** syn's `Path::parse_mod_style`: an optional leading `::` then at least one segment. */
  function ParseModPath(ts: seq<Token>): Result<(AttrPath, seq<Token>), Error>
  {
    var lead := StartsWithColons(ts);
    var segs :- ModSegments(if lead then ts[2..] else ts, true);
    Ok((AttrPath(lead, segs.0), segs.1))
  }

  /** The inside of `[...]` read as an attribute: a mod-style path, then every remaining token. */
  function ParseAttrBody(content: seq<Token>): Result<Attr, Error>
  {
    var p :- ParseModPath(content);
    Ok(Attr(p.0, p.1))
  }

  predicate StartsWithBracket(ts: seq<Token>)
  {
    |ts| > 0 && ts[0].GroupTok? && ts[0].g.delim == Bracket
  }

  /** syn's `Attribute::parse_outer`: every leading `#[...]`. */
  function ParseOuterAttrs(ts: seq<Token>): Result<(seq<Attr>, seq<Token>), Error>
    decreases |ts|
  {
    if ts == [] || ts[0] != Punct('#') then Ok(([], ts))
    else if !StartsWithBracket(ts[1..]) then Err(Expected("square brackets"))
    else
      var a :- ParseAttrBody(ts[1].g.stream);
      var more :- ParseOuterAttrs(ts[2..]);
      Ok(([a] + more.0, more.1))
  }

  lemma {:induction false} ModSegmentsRendered(segs: seq<string>, rest: seq<Token>, first: bool)
    requires |segs| > 0
    requires forall i :: 0 <= i < |segs| ==> IsPathSegment(segs[i])
    requires !StartsWithColons(rest)
    ensures ModSegments(RenderSegments(segs) + rest, first) == Ok((segs, rest))
    decreases |segs|
  {
    var ts := RenderSegments(segs) + rest;
    if |segs| == 1 {
      assert ts == [Ident(segs[0])] + rest;
      assert ts[1..] == rest;
      assert IsPathSegment(segs[0]);
      assert [segs[0]] == segs;
    } else {
      assert ts == [Ident(segs[0]), Punct(':'), Punct(':')] + (RenderSegments(segs[1..]) + rest);
      assert ts[3..] == RenderSegments(segs[1..]) + rest;
      ModSegmentsRendered(segs[1..], rest, false);
      assert [segs[0]] + segs[1..] == segs;
    }
  }

  lemma PathReparses(p: AttrPath, rest: seq<Token>)
    requires WfPath(p) && !StartsWithColons(rest)
    ensures ParseModPath(RenderPath(p) + rest) == Ok((p, rest))
  {
    var body := RenderSegments(p.segments) + rest;
    ModSegmentsRendered(p.segments, rest, true);
    assert body[0] == Ident(p.segments[0]);
    if p.leadingColon {
      assert RenderPath(p) + rest == [Punct(':'), Punct(':')] + body;
      assert (RenderPath(p) + rest)[2..] == body;
    } else {
      assert RenderPath(p) + rest == body;
    }
  }

  /** Rendering attributes and parsing them back with the outer-attribute parser is the identity. */
  lemma {:induction false} AttrsReparse(attrs: seq<Attr>, rest: seq<Token>)
    requires WfAttrs(attrs)
    requires rest == [] || rest[0] != Punct('#')
    ensures ParseOuterAttrs(RenderAttrs(attrs) + rest) == Ok((attrs, rest))
    decreases |attrs|
  {
    var ts := RenderAttrs(attrs) + rest;
    if attrs != [] {
      var a := attrs[0];
      AppendAssoc(RenderAttr(a), RenderAttrs(attrs[1..]), rest);
      assert ts[1].g.stream == RenderPath(a.path) + a.tokens;
      PathReparses(a.path, a.tokens);
      assert ts[2..] == RenderAttrs(attrs[1..]) + rest;
      AttrsReparse(attrs[1..], rest);
      assert [a] + attrs[1..] == attrs;
    } else {
      assert ts == rest;
    }
  }

  // ---------------------------------------------------------------------------
  // Bracket depth and token runs
  // ---------------------------------------------------------------------------

  /** Angle-bracket nesting after one more token. */
  function Step(t: Token, depth: nat): nat
  {
    if t == Punct('<') then depth + 1
    else if t == Punct('>') && depth > 0 then depth - 1
    else depth
  }

  function DepthAfter(ts: seq<Token>, depth: nat): nat
    decreases |ts|
  {
    if ts == [] then depth else DepthAfter(ts[1..], Step(ts[0], depth))
  }

  predicate StopsAt(t: Token, depth: nat, stop: char) { t == Punct(stop) && depth == 0 }

  /** The index of the first `stop` punctuation outside angle brackets (`|ts|` if none). */
  function RunLen(ts: seq<Token>, depth: nat, stop: char): (n: nat)
    ensures n <= |ts|
    decreases |ts|
  {
    if ts == [] || StopsAt(ts[0], depth, stop) then 0
    else 1 + RunLen(ts[1..], Step(ts[0], depth), stop)
  }

  /** No `stop` outside angle brackets anywhere in `ts`. */
  predicate Clear(ts: seq<Token>, depth: nat, stop: char)
    decreases |ts|
  {
    ts == [] || (!StopsAt(ts[0], depth, stop) && Clear(ts[1..], Step(ts[0], depth), stop))
  }

  lemma {:induction false} RunLenAppend(a: seq<Token>, b: seq<Token>, depth: nat, stop: char)
    requires Clear(a, depth, stop)
    ensures RunLen(a + b, depth, stop) == |a| + RunLen(b, DepthAfter(a, depth), stop)
    decreases |a|
  {
    if a != [] {
      assert (a + b)[0] == a[0];
      assert (a + b)[1..] == a[1..] + b;
      RunLenAppend(a[1..], b, Step(a[0], depth), stop);
    } else {
      assert a + b == b;
    }
  }

  /** A token run that a parser stopping at `stop` reads in full and that leaves the nesting at zero. */
  predicate WfRun(ts: seq<Token>, stop: char)
  {
    |ts| > 0 && Clear(ts, 0, stop) && DepthAfter(ts, 0) == 0
  }

  lemma RunStopsAfter(ts: seq<Token>, stop: char, rest: seq<Token>)
    requires WfRun(ts, stop)
    requires rest == [] || rest[0] == Punct(stop)
    ensures RunLen(ts + rest, 0, stop) == |ts|
  {
    RunLenAppend(ts, rest, 0, stop);
  }

  /** A type: the tokens up to the next `,` outside angle brackets (a stand-in for syn's type parser). */
  function ParseType(ts: seq<Token>): (r: Result<(Ty, seq<Token>), Error>)
    ensures r.Ok? ==> r.value.0.TyOther? && r.value.0.tokens + r.value.1 == ts
  {
    var n := RunLen(ts, 0, ',');
    if n == 0 then Err(Expected("type"))
    else assert ts[..n] + ts[n..] == ts; Ok((TyOther(ts[..n]), ts[n..]))
  }

  /** A type path, read the same way as a type. */
  function ParseTypePath(ts: seq<Token>): (r: Result<(seq<Token>, seq<Token>), Error>)
    ensures r.Ok? ==> |r.value.0| > 0 && r.value.0 + r.value.1 == ts
  {
    var n := RunLen(ts, 0, ',');
    if n == 0 then Err(Expected("type path"))
    else assert ts[..n] + ts[n..] == ts; Ok((ts[..n], ts[n..]))
  }

  /** Generics in front of a type: `<...>` up to the matching `>`, or nothing. */
  function ParseGenerics(ts: seq<Token>): (r: Result<(Generics, seq<Token>), Error>)
    ensures r.Ok? ==> r.value.0.whereClause.None? && |r.value.1| <= |ts|
    ensures r.Ok? && (ts == [] || ts[0] != Punct('<')) ==> r.value == (NoGenerics, ts)
  {
    if ts == [] || ts[0] != Punct('<') then Ok((NoGenerics, ts))
    else
      var inner := ts[1..];
      var n := RunLen(inner, 0, '>');
      if n == |inner| then Err(Expected("`>`"))
      else
        var ps := if n == 0 then [] else [ParamTokens(inner[..n])];
        Ok((Generics(ps, None), inner[n + 1..]))
  }

  function RenderGenerics(params: seq<Token>): seq<Token>
  {
    if params == [] then [] else [Punct('<')] + params + [Punct('>')]
  }

  lemma GenericsReparse(params: seq<Token>, rest: seq<Token>)
    requires params == [] || WfRun(params, '>')
    requires rest == [] || rest[0] != Punct('<')
    ensures ParseGenerics(RenderGenerics(params) + rest)
         == Ok((Generics(if params == [] then [] else [ParamTokens(params)], None), rest))
  {
    if params != [] {
      SomeGenericsReparse(params, rest);
    } else {
      assert RenderGenerics(params) + rest == rest;
    }
  }

  /** Concatenation is associative; stated once so that proofs over large terms need not rediscover it. */
  lemma AppendAssoc<T>(a: seq<T>, b: seq<T>, c: seq<T>)
    ensures a + b + c == a + (b + c)
  {
  }

  lemma SomeGenericsReparse(params: seq<Token>, rest: seq<Token>)
    requires params != [] && WfRun(params, '>')
    ensures ParseGenerics(RenderGenerics(params) + rest) == Ok((Generics([ParamTokens(params)], None), rest))
  {
    var ts := RenderGenerics(params) + rest;
    var inner := ts[1..];
    AppendAssoc([Punct('<')] + params, [Punct('>')], rest);
    AppendAssoc([Punct('<')], params, [Punct('>')] + rest);
    assert inner == params + ([Punct('>')] + rest);
    RunLenAppend(params, [Punct('>')] + rest, 0, '>');
    assert RunLen(inner, 0, '>') == |params|;
    assert inner[..|params|] == params;
    assert inner[|params| + 1..] == rest;
  }

  function ParseIdent(ts: seq<Token>): (r: Result<(string, seq<Token>), Error>)
    ensures r.Ok? <==> |ts| > 0 && ts[0].Ident? && IsIdentifier(ts[0].name)
    ensures r.Ok? ==> r.value == (ts[0].name, ts[1..])
  {
    if |ts| > 0 && ts[0].Ident? && IsIdentifier(ts[0].name) then Ok((ts[0].name, ts[1..]))
    else Err(Expected("identifier"))
  }

  /** One expected punctuation or keyword token. */
  function ExpectToken(ts: seq<Token>, t: Token, what: string): (r: Result<seq<Token>, Error>)
    ensures r.Ok? <==> |ts| > 0 && ts[0] == t
    ensures r.Ok? ==> r.value == ts[1..]
  {
    if |ts| > 0 && ts[0] == t then Ok(ts[1..]) else Err(Expected(what))
  }

  /**
   * syn's `Visibility` parser: `pub`, `pub(crate)`, `pub(self)`, `pub(super)`, `pub(in path)`,
   * `crate`, or nothing at all.  It fails only on a malformed `pub(in ...)`.
   */
  function ParseVisibility(ts: seq<Token>): (r: Result<(Visibility, seq<Token>), Error>)
    ensures r.Ok? && r.value.0 == Inherited ==> r.value.1 == ts
    ensures r.Ok? ==> |r.value.1| <= |ts|
  {
    if |ts| > 0 && ts[0] == Ident("pub") then
      if |ts| >= 2 && ts[1].GroupTok? && ts[1].g.delim == Paren && |ts[1].g.stream| > 0 then
        var c := ts[1].g.stream;
        if |c| == 1 && (c[0] == Ident("crate") || c[0] == Ident("self") || c[0] == Ident("super")) then
          Ok((Restricted(c), ts[2..]))
        else if c[0] == Ident("in") then
          var p :- ParseModPath(c[1..]);
          Ok((Restricted(c), ts[2..]))
        else Ok((Public, ts[1..]))
      else Ok((Public, ts[1..]))
    else if |ts| > 0 && ts[0] == Ident("crate") && !StartsWithColons(ts[1..]) then
      Ok((Crate, ts[1..]))
    else Ok((Inherited, ts))
  }
}
