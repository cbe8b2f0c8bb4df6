/**
 * The argument parser of the legacy pipeline: an explicit state machine
 * over the attribute's top-level tokens.  `Feed` is one transition, `Run`
 * the whole fold and `ArgsSpec` the parser's result; `ParseArgs` is the
 * loop itself.  Every panic of the source is an `Err`.
 */
module LegacyParseArgs {
  import opened Wrappers
  import opened Syntax
  import opened Diagnostics
  import opened LegacyModel

  datatype IdentTarget = ReturnvalTarget | ProxyTarget

  datatype GroupTarget = CustomAttr

  datatype ParserState =
    | ExpectingName
    | ExpectingNewParam
    | ExpectingIdent(identTarget: IdentTarget)
    | ExpectingEqsign(eqTarget: IdentTarget)
    | ExpectingGroup(groupTarget: GroupTarget)

  /** The `Debug` spelling used in the panic messages. */
  function TargetName(t: IdentTarget): string
  {
    match t
    case ReturnvalTarget => "Returnval"
    case ProxyTarget => "Proxy"
  }

  /** The state variable and the accumulators of the loop. */
  datatype Machine = Machine(
    state: ParserState,
    proxy: Option<string>,
    accessMode: AccessMode,
    returnval: seq<Token>,
    enumAttr: seq<Group>,
    enumName: Option<string>)

  const Start := Machine(ExpectingName, None, Priv, [], [], None)

  /** One round of the loop. */
  function Feed(m: Machine, x: Token): Result<Machine, Error>
  {
    match m.state
    case ExpectingName =>
      if !x.Ident? then Err(ExpectedNameOrVisibility)
      else if x.name == "pub" then Ok(m.(accessMode := Pub))
      else if x.name == "pub_crate" then Ok(m.(accessMode := PubCrate))
      else Ok(m.(enumName := Some(x.name), state := ExpectingNewParam))
    case ExpectingNewParam =>
      (match x
       case Ident(y) =>
         if y == "returnval" then Ok(m.(state := ExpectingEqsign(ReturnvalTarget)))
         else if y == "proxy" then Ok(m.(state := ExpectingEqsign(ProxyTarget)))
         else if y == "enum_attr" then Ok(m.(state := ExpectingGroup(CustomAttr)))
         else Err(UnknownParameter(y))
       case GroupTok(_) => Err(NoGroupExpected)
       case Punct(c) => if c == ',' then Ok(m) else Err(NoPunctExpected)
       case Literal(_) => Err(NoLiteralExpected))
    case ExpectingIdent(ReturnvalTarget) =>
      if x == Punct(',') then Ok(m.(state := ExpectingNewParam))
      else Ok(m.(returnval := m.returnval + [x]))
    case ExpectingIdent(ProxyTarget) =>
      if x.Ident? then Ok(m.(proxy := Some(x.name), state := ExpectingNewParam))
      else Err(SingleIdentExpected("Proxy"))
    case ExpectingEqsign(t) =>
      if x == Punct('=') then Ok(m.(state := ExpectingIdent(t)))
      else Err(EqsignExpected(TargetName(t)))
    case ExpectingGroup(_) =>
      if x.GroupTok? then Ok(m.(enumAttr := m.enumAttr + [x.g], state := ExpectingNewParam))
      else Err(GroupExpected("CustomAttr"))
  }

  /** The loop over all tokens; the first panic ends it. */
  function Run(m: Machine, ts: seq<Token>): Result<Machine, Error>
    decreases |ts|
  {
    if ts == [] then Ok(m)
    else
      var mid :- Run(m, ts[..|ts| - 1]);
      Feed(mid, ts[|ts| - 1])
  }

  /** After the loop: the name is required, and an empty `returnval` stream means none. */
  function Finish(m: Machine): Result<LegacyParams, Error>
  {
    if m.enumName.None? then Err(NameRequired)
    else
      Ok(LegacyParams(m.proxy, m.accessMode, if m.returnval == [] then None else Some(TyOther(m.returnval)),
        m.enumAttr, m.enumName.value))
  }

  /** `parse_args` as a value. */
  function ArgsSpec(input: seq<Token>): Result<LegacyParams, Error>
  {
    var m :- Run(Start, input);
    Finish(m)
  }

  lemma {:induction false} RunErrPrefix(m: Machine, ts: seq<Token>, k: nat)
    requires k <= |ts| && Run(m, ts[..k]).Err?
    ensures Run(m, ts) == Run(m, ts[..k])
    decreases |ts|
  {
    if k == |ts| {
      assert ts[..k] == ts;
    } else {
      var init := ts[..|ts| - 1];
      assert init[..k] == ts[..k];
      RunErrPrefix(m, init, k);
    }
  }

  /** A round that panics ends the parser with that panic. */
  lemma RunFails(input: seq<Token>, i: nat, m: Machine, e: Error)
    requires i < |input| && Run(Start, input[..i]) == Ok(m) && Feed(m, input[i]) == Err(e)
    ensures ArgsSpec(input) == Err(e)
  {
    assert input[..i + 1][..i] == input[..i];
    RunErrPrefix(Start, input, i + 1);
  }

  /**
   * Which tokens each state accepts: a name or a visibility word first; then
   * a comma or one of the three parameter words; only `=` after a parameter
   * word; a single identifier after `proxy =`; a group after `enum_attr`.
   * Inside `returnval = ...` every token is accepted.
   */
  lemma FeedAccepts(m: Machine, x: Token)
    ensures m.state == ExpectingName ==> (Feed(m, x).Ok? <==> x.Ident?)
    ensures m.state == ExpectingNewParam ==>
      (Feed(m, x).Ok? <==>
         x == Punct(',') || x == Ident("returnval") || x == Ident("proxy") || x == Ident("enum_attr"))
    ensures m.state.ExpectingEqsign? ==> (Feed(m, x).Ok? <==> x == Punct('='))
    ensures m.state == ExpectingIdent(ProxyTarget) ==> (Feed(m, x).Ok? <==> x.Ident?)
    ensures m.state == ExpectingIdent(ReturnvalTarget) ==> Feed(m, x).Ok?
    ensures m.state.ExpectingGroup? ==> (Feed(m, x).Ok? <==> x.GroupTok?)
  {
  }

  /** `parse_args`. */
  method ParseArgs(input: seq<Token>) returns (r: Result<LegacyParams, Error>)
    ensures r == ArgsSpec(input)
  {
    var proxy: Option<string> := None;
    var accessMode := Priv;
    var returnval: seq<Token> := [];
    var enumAttr: seq<Group> := [];
    var enumName: Option<string> := None;
    var state := ExpectingName;
    for i := 0 to |input|
      invariant Run(Start, input[..i]) == Ok(Machine(state, proxy, accessMode, returnval, enumAttr, enumName))
    {
      ghost var m := Machine(state, proxy, accessMode, returnval, enumAttr, enumName);
      var x := input[i];
      assert input[..i + 1][..i] == input[..i];
      match state {
        case ExpectingName =>
          if !x.Ident? {
            RunFails(input, i, m, ExpectedNameOrVisibility);
            return Err(ExpectedNameOrVisibility);
          }
          if x.name == "pub" {
            accessMode := Pub;
          } else if x.name == "pub_crate" {
            accessMode := PubCrate;
          } else {
            enumName := Some(x.name);
            state := ExpectingNewParam;
          }
        case ExpectingNewParam =>
          match x {
            case Ident(y) =>
              if y == "returnval" {
                state := ExpectingEqsign(ReturnvalTarget);
              } else if y == "proxy" {
                state := ExpectingEqsign(ProxyTarget);
              } else if y == "enum_attr" {
                state := ExpectingGroup(CustomAttr);
              } else {
                RunFails(input, i, m, UnknownParameter(y));
                return Err(UnknownParameter(y));
              }
            case GroupTok(_) =>
              RunFails(input, i, m, NoGroupExpected);
              return Err(NoGroupExpected);
            case Punct(c) =>
              if c != ',' {
                RunFails(input, i, m, NoPunctExpected);
                return Err(NoPunctExpected);
              }
            case Literal(_) =>
              RunFails(input, i, m, NoLiteralExpected);
              return Err(NoLiteralExpected);
          }
        case ExpectingIdent(ReturnvalTarget) =>
          if x == Punct(',') {
            state := ExpectingNewParam;
          } else {
            returnval := returnval + [x];
          }
        case ExpectingIdent(ProxyTarget) =>
          if !x.Ident? {
            RunFails(input, i, m, SingleIdentExpected("Proxy"));
            return Err(SingleIdentExpected("Proxy"));
          }
          proxy := Some(x.name);
          state := ExpectingNewParam;
        case ExpectingEqsign(t) =>
          if x != Punct('=') {
            RunFails(input, i, m, EqsignExpected(TargetName(t)));
            return Err(EqsignExpected(TargetName(t)));
          }
          state := ExpectingIdent(t);
        case ExpectingGroup(_) =>
          if !x.GroupTok? {
            RunFails(input, i, m, GroupExpected("CustomAttr"));
            return Err(GroupExpected("CustomAttr"));
          }
          enumAttr := enumAttr + [x.g];
          state := ExpectingNewParam;
      }
    }
    assert input[..|input|] == input;
    if enumName.None? {
      return Err(NameRequired);
    }
    var rv := if returnval == [] then None else Some(TyOther(returnval));
    r := Ok(LegacyParams(proxy, accessMode, rv, enumAttr, enumName.value));
  }

  // ---------------------------------------------------------------------------
  // What the machine accepts
  // ---------------------------------------------------------------------------

  /** Feeding two runs of tokens is feeding the first, then the second. */
  lemma {:induction false} RunAppend(m: Machine, a: seq<Token>, b: seq<Token>)
    ensures Run(m, a + b) == if Run(m, a).Err? then Err(Run(m, a).error) else Run(Run(m, a).value, b)
    decreases |b|
  {
    if b == [] {
      assert a + b == a;
    } else {
      var b' := b[..|b| - 1];
      assert (a + b)[..|a + b| - 1] == a + b';
      assert (a + b)[|a + b| - 1] == b[|b| - 1];
      RunAppend(m, a, b');
    }
  }

  /** Only a missing enum name is refused at the end: a dangling `proxy` or `enum_attr` is accepted. */
  lemma EndOfInput(input: seq<Token>)
    requires Run(Start, input).Ok?
    ensures ArgsSpec(input).Err? <==> Run(Start, input).value.enumName.None?
    ensures ArgsSpec(input).Err? ==> ArgsSpec(input).error == NameRequired
    ensures ArgsSpec(input).Ok? ==>
      (ArgsSpec(input).value.returnval.None? <==> Run(Start, input).value.returnval == [])
  {
  }

  /** One clause of the attribute after the name, as the user writes it. */
  datatype LegacyClause =
    | ReturnvalIs(tokens: seq<Token>)
    | ProxyIs(name: string)
    | EnumAttrIs(group: Group)

  predicate NoComma(ts: seq<Token>) { forall i :: 0 <= i < |ts| ==> ts[i] != Punct(',') }

  /** A clause with the comma in front of it. */
  function RenderClause(c: LegacyClause): seq<Token>
  {
    match c
    case ReturnvalIs(ts) => [Punct(','), Ident("returnval"), Punct('=')] + ts
    case ProxyIs(n) => [Punct(','), Ident("proxy"), Punct('='), Ident(n)]
    case EnumAttrIs(g) => [Punct(','), Ident("enum_attr"), GroupTok(g)]
  }

  function RenderClauses(cs: seq<LegacyClause>): seq<Token>
    decreases |cs|
  {
    if cs == [] then [] else RenderClauses(cs[..|cs| - 1]) + RenderClause(cs[|cs| - 1])
  }

  /** The attribute `mods.. name clauses..`. */
  function RenderLegacyAttr(mods: seq<Modifier>, name: string, cs: seq<LegacyClause>): seq<Token>
  {
    ModTokens(mods) + [Ident(name)] + RenderClauses(cs)
  }

  function ModTokens(mods: seq<Modifier>): (ts: seq<Token>)
    decreases |mods|
  {
    if mods == [] then [] else ModTokens(mods[..|mods| - 1]) + [Ident(ModWord(mods[|mods| - 1]))]
  }

  /** A leading `pub` or `pub_crate` word. */
  datatype Modifier = PubWord | PubCrateWord

  function ModWord(m: Modifier): string
  {
    match m
    case PubWord => "pub"
    case PubCrateWord => "pub_crate"
  }

  // Reference definitions of what the clauses configure.

  predicate WfClause(c: LegacyClause) { c.ReturnvalIs? ==> NoComma(c.tokens) }

  predicate WfClauses(cs: seq<LegacyClause>) { forall i :: 0 <= i < |cs| ==> WfClause(cs[i]) }

  /** The proxy named last, if any. */
  function LastProxy(cs: seq<LegacyClause>): (r: Option<string>)
    ensures r.Some? <==> exists i :: 0 <= i < |cs| && cs[i].ProxyIs?
    decreases |cs|
  {
    if cs == [] then None
    else if cs[|cs| - 1].ProxyIs? then Some(cs[|cs| - 1].name)
    else LastProxy(cs[..|cs| - 1])
  }

  /** The tokens of every `returnval` clause, run together. */
  function ReturnvalTokens(cs: seq<LegacyClause>): seq<Token>
    decreases |cs|
  {
    if cs == [] then []
    else ReturnvalTokens(cs[..|cs| - 1]) + (if cs[|cs| - 1].ReturnvalIs? then cs[|cs| - 1].tokens else [])
  }

  /** The `enum_attr` groups in order. */
  function EnumAttrGroups(cs: seq<LegacyClause>): (gs: seq<Group>)
    ensures |gs| <= |cs|
    decreases |cs|
  {
    if cs == [] then []
    else EnumAttrGroups(cs[..|cs| - 1]) + (if cs[|cs| - 1].EnumAttrIs? then [cs[|cs| - 1].group] else [])
  }

  /** The access mode set last by the leading modifiers (`pub`, `pub_crate`); `Priv` when there are none. */
  function LastMode(mods: seq<Modifier>): AccessMode
  {
    if mods == [] then Priv else if mods[|mods| - 1] == PubWord then Pub else PubCrate
  }

  predicate Settled(s: ParserState) { s == ExpectingNewParam || s == ExpectingIdent(ReturnvalTarget) }

  /** Feeding one token, then the rest. */
  lemma RunFront(m: Machine, x: Token, ts: seq<Token>)
    ensures Run(m, [x] + ts) == if Feed(m, x).Err? then Err(Feed(m, x).error) else Run(Feed(m, x).value, ts)
  {
    RunAppend(m, [x], ts);
    assert [x][..0] == [];
  }

  /** Tokens after `returnval =` without a comma are all appended to the stream. */
  lemma {:induction false} ReturnvalRun(m: Machine, ts: seq<Token>)
    requires m.state == ExpectingIdent(ReturnvalTarget) && NoComma(ts)
    ensures Run(m, ts) == Ok(m.(returnval := m.returnval + ts))
    decreases |ts|
  {
    if ts == [] {
      assert m.returnval + ts == m.returnval;
    } else {
      var init := ts[..|ts| - 1];
      ReturnvalRun(m, init);
      assert m.returnval + init + [ts[|ts| - 1]] == m.returnval + ts;
    }
  }

  /** What one clause does to the machine. */
  function ApplyClause(m: Machine, c: LegacyClause): Machine
  {
    match c
    case ReturnvalIs(ts) => m.(state := ExpectingIdent(ReturnvalTarget), returnval := m.returnval + ts)
    case ProxyIs(n) => m.(state := ExpectingNewParam, proxy := Some(n))
    case EnumAttrIs(g) => m.(state := ExpectingNewParam, enumAttr := m.enumAttr + [g])
  }

  lemma ReturnvalClauseRun(m: Machine, ts: seq<Token>)
    requires Settled(m.state) && NoComma(ts)
    ensures Run(m, RenderClause(ReturnvalIs(ts))) == Ok(ApplyClause(m, ReturnvalIs(ts)))
  {
    var m1 := m.(state := ExpectingNewParam);
    var m2 := m1.(state := ExpectingEqsign(ReturnvalTarget));
    var m3 := m1.(state := ExpectingIdent(ReturnvalTarget));
    ReturnvalFeeds(m);
    assert RenderClause(ReturnvalIs(ts)) == [Punct(',')] + ([Ident("returnval")] + ([Punct('=')] + ts));
    RunFront(m, Punct(','), [Ident("returnval")] + ([Punct('=')] + ts));
    RunFront(m1, Ident("returnval"), [Punct('=')] + ts);
    RunFront(m2, Punct('='), ts);
    ReturnvalRun(m3, ts);
  }

  /** The three tokens in front of a `returnval` target each take one step. */
  lemma ReturnvalFeeds(m: Machine)
    requires Settled(m.state)
    ensures var m1 := m.(state := ExpectingNewParam);
      && Feed(m, Punct(',')) == Ok(m1)
      && Feed(m1, Ident("returnval")) == Ok(m1.(state := ExpectingEqsign(ReturnvalTarget)))
      && Feed(m1.(state := ExpectingEqsign(ReturnvalTarget)), Punct('=')) == Ok(m1.(state := ExpectingIdent(ReturnvalTarget)))
  {
  }

  lemma ProxyClauseRun(m: Machine, n: string)
    requires Settled(m.state)
    ensures Run(m, RenderClause(ProxyIs(n))) == Ok(ApplyClause(m, ProxyIs(n)))
  {
    var m1 := m.(state := ExpectingNewParam);
    var m2 := m1.(state := ExpectingEqsign(ProxyTarget));
    var m3 := m1.(state := ExpectingIdent(ProxyTarget));
    assert Feed(m, Punct(',')) == Ok(m1);
    assert Feed(m1, Ident("proxy")) == Ok(m2);
    assert Feed(m2, Punct('=')) == Ok(m3);
    assert Feed(m3, Ident(n)) == Ok(ApplyClause(m, ProxyIs(n)));
    assert RenderClause(ProxyIs(n)) == [Punct(',')] + ([Ident("proxy")] + ([Punct('=')] + [Ident(n)]));
    RunFront(m, Punct(','), [Ident("proxy")] + ([Punct('=')] + [Ident(n)]));
    RunFront(m1, Ident("proxy"), [Punct('=')] + [Ident(n)]);
    RunFront(m2, Punct('='), [Ident(n)]);
    assert [Ident(n)] == [Ident(n)] + [];
    RunFront(m3, Ident(n), []);
  }

  lemma EnumAttrClauseRun(m: Machine, g: Group)
    requires Settled(m.state)
    ensures Run(m, RenderClause(EnumAttrIs(g))) == Ok(ApplyClause(m, EnumAttrIs(g)))
  {
    var m1 := m.(state := ExpectingNewParam);
    var m2 := m1.(state := ExpectingGroup(CustomAttr));
    assert Feed(m, Punct(',')) == Ok(m1);
    assert Feed(m1, Ident("enum_attr")) == Ok(m2);
    assert Feed(m2, GroupTok(g)) == Ok(ApplyClause(m, EnumAttrIs(g)));
    assert RenderClause(EnumAttrIs(g)) == [Punct(',')] + ([Ident("enum_attr")] + [GroupTok(g)]);
    RunFront(m, Punct(','), [Ident("enum_attr")] + [GroupTok(g)]);
    RunFront(m1, Ident("enum_attr"), [GroupTok(g)]);
    assert [GroupTok(g)] == [GroupTok(g)] + [];
    RunFront(m2, GroupTok(g), []);
  }

  lemma ClauseRun(m: Machine, c: LegacyClause)
    requires Settled(m.state) && WfClause(c)
    ensures Run(m, RenderClause(c)) == Ok(ApplyClause(m, c))
  {
    match c {
      case ReturnvalIs(ts) => ReturnvalClauseRun(m, ts);
      case ProxyIs(n) => ProxyClauseRun(m, n);
      case EnumAttrIs(g) => EnumAttrClauseRun(m, g);
    }
  }

  /** The machine `m` has after clauses `cs`, by the reference definitions. */
  predicate AfterClauses(m: Machine, cs: seq<LegacyClause>, r: Machine)
  {
    Settled(r.state)
    && r.proxy == (if LastProxy(cs).Some? then LastProxy(cs) else m.proxy)
    && r.accessMode == m.accessMode
    && r.returnval == m.returnval + ReturnvalTokens(cs)
    && r.enumAttr == m.enumAttr + EnumAttrGroups(cs)
    && r.enumName == m.enumName
  }

  lemma ClauseStep(m: Machine, cs: seq<LegacyClause>, mid: Machine)
    requires cs != [] && AfterClauses(m, cs[..|cs| - 1], mid)
    ensures AfterClauses(m, cs, ApplyClause(mid, cs[|cs| - 1]))
  {
    var init := cs[..|cs| - 1];
    var c := cs[|cs| - 1];
    assert m.returnval + ReturnvalTokens(init) + (if c.ReturnvalIs? then c.tokens else [])
      == m.returnval + ReturnvalTokens(cs);
    assert m.enumAttr + EnumAttrGroups(init) + (if c.EnumAttrIs? then [c.group] else [])
      == m.enumAttr + EnumAttrGroups(cs);
  }

  /** Running well-formed clauses records exactly what the reference definitions say. */
  lemma {:induction false} ClausesRun(m: Machine, cs: seq<LegacyClause>)
    requires Settled(m.state) && WfClauses(cs)
    ensures Run(m, RenderClauses(cs)).Ok? && AfterClauses(m, cs, Run(m, RenderClauses(cs)).value)
    decreases |cs|
  {
    if cs == [] {
      assert m.returnval + [] == m.returnval;
      assert m.enumAttr + [] == m.enumAttr;
    } else {
      var init := cs[..|cs| - 1];
      var c := cs[|cs| - 1];
      assert WfClauses(init) by {
        forall i | 0 <= i < |init| ensures WfClause(init[i]) { assert init[i] == cs[i]; }
      }
      ClausesRun(m, init);
      RunAppend(m, RenderClauses(init), RenderClause(c));
      var mid := Run(m, RenderClauses(init)).value;
      ClauseRun(mid, c);
      ClauseStep(m, cs, mid);
    }
  }

  /** The leading modifiers set the access mode, the last one winning. */
  lemma {:induction false} ModsRun(mods: seq<Modifier>)
    ensures Run(Start, ModTokens(mods)) == Ok(Start.(accessMode := LastMode(mods)))
    decreases |mods|
  {
    if mods != [] {
      var init := mods[..|mods| - 1];
      ModsRun(init);
      RunAppend(Start, ModTokens(init), [Ident(ModWord(mods[|mods| - 1]))]);
      assert [Ident(ModWord(mods[|mods| - 1]))][..0] == [];
    }
  }

  /** The machine after the name: the last modifier's mode, the name, ready for a clause. */
  function HeadMachine(mods: seq<Modifier>, name: string): Machine
  {
    Start.(accessMode := LastMode(mods), enumName := Some(name), state := ExpectingNewParam)
  }

  lemma AttrRun(mods: seq<Modifier>, name: string, cs: seq<LegacyClause>)
    requires name != "pub" && name != "pub_crate"
    requires WfClauses(cs)
    ensures Run(Start, RenderLegacyAttr(mods, name, cs)).Ok?
    ensures AfterClauses(HeadMachine(mods, name), cs, Run(Start, RenderLegacyAttr(mods, name, cs)).value)
  {
    var head := ModTokens(mods) + [Ident(name)];
    ModsRun(mods);
    RunAppend(Start, ModTokens(mods), [Ident(name)]);
    assert [Ident(name)][..0] == [];
    assert Run(Start, head) == Ok(HeadMachine(mods, name));
    RunAppend(Start, head, RenderClauses(cs));
    ClausesRun(HeadMachine(mods, name), cs);
  }

  /**
   * The attribute `pub.. Name, clause, ..` configures the enum `Name` with the
   * last modifier's access mode, the last proxy named, the `returnval` tokens of
   * all clauses run together and the `enum_attr` groups in order.
   */
  lemma LegacyArgsMeaning(mods: seq<Modifier>, name: string, cs: seq<LegacyClause>)
    requires name != "pub" && name != "pub_crate"
    requires WfClauses(cs)
    ensures ArgsSpec(RenderLegacyAttr(mods, name, cs)) == Ok(LegacyParams(
      LastProxy(cs), LastMode(mods),
      if ReturnvalTokens(cs) == [] then None else Some(TyOther(ReturnvalTokens(cs))),
      EnumAttrGroups(cs), name))
  {
    AttrRun(mods, name, cs);
    assert [] + ReturnvalTokens(cs) == ReturnvalTokens(cs);
    assert [] + EnumAttrGroups(cs) == EnumAttrGroups(cs);
  }

  /** After well-formed clauses, `, p` with `p` no parameter name panics on `p`, whatever follows. */
  lemma UnknownAfterClauses(mods: seq<Modifier>, name: string, cs: seq<LegacyClause>, p: string, more: seq<Token>)
    requires name != "pub" && name != "pub_crate"
    requires WfClauses(cs)
    requires p != "returnval" && p != "proxy" && p != "enum_attr"
    ensures ArgsSpec(RenderLegacyAttr(mods, name, cs) + ([Punct(','), Ident(p)] + more)) == Err(UnknownParameter(p))
  {
    var attr := RenderLegacyAttr(mods, name, cs);
    AttrRun(mods, name, cs);
    var mid := Run(Start, attr).value;
    RunAppend(Start, attr, [Punct(','), Ident(p)] + more);
    assert Feed(mid, Punct(',')) == Ok(mid.(state := ExpectingNewParam));
    assert [Punct(','), Ident(p)] + more == [Punct(',')] + ([Ident(p)] + more);
    RunFront(mid, Punct(','), [Ident(p)] + more);
    RunFront(mid.(state := ExpectingNewParam), Ident(p), more);
  }

  /** A comma inside `returnval`'s type ends the clause: `returnval = Foo<A, B>` panics on `B`. */
  lemma CommaEndsReturnval(e: string, foo: string, x: string, y: string)
    requires e != "pub" && e != "pub_crate"
    requires y != "returnval" && y != "proxy" && y != "enum_attr"
    ensures ArgsSpec([Ident(e), Punct(','), Ident("returnval"), Punct('='),
      Ident(foo), Punct('<'), Ident(x), Punct(','), Ident(y), Punct('>')]) == Err(UnknownParameter(y))
  {
    var ty := [Ident(foo), Punct('<'), Ident(x)];
    assert NoComma(ty);
    assert WfClauses([ReturnvalIs(ty)]);
    UnknownAfterClauses([], e, [ReturnvalIs(ty)], y, [Punct('>')]);
    ReturnvalCommaTokens(e, foo, x, y);
  }

  /** The tokens of that attribute, as one `returnval` clause followed by `, y >`. */
  lemma ReturnvalCommaTokens(e: string, foo: string, x: string, y: string)
    ensures RenderLegacyAttr([], e, [ReturnvalIs([Ident(foo), Punct('<'), Ident(x)])]) + ([Punct(','), Ident(y)] + [Punct('>')])
         == [Ident(e), Punct(','), Ident("returnval"), Punct('='),
             Ident(foo), Punct('<'), Ident(x), Punct(','), Ident(y), Punct('>')]
  {
    var ty := [Ident(foo), Punct('<'), Ident(x)];
    var cs := [ReturnvalIs(ty)];
    assert RenderClauses(cs) == RenderClause(ReturnvalIs(ty)) by {
      assert cs[..0] == [];
    }
    assert ModTokens([]) == [];
    var attr := [Ident(e), Punct(','), Ident("returnval"), Punct('='), Ident(foo), Punct('<'), Ident(x)];
    assert RenderLegacyAttr([], e, cs) == attr;
  }

  /** A trailing `proxy` or `enum_attr` with nothing after it is accepted and ignored. */
  lemma DanglingParameterAccepted(p: string)
    requires p == "proxy" || p == "enum_attr"
    ensures ArgsSpec([Ident("E"), Punct(','), Ident(p)]) == Ok(LegacyParams(None, Priv, None, [], "E"))
  {
    var m0 := HeadMachine([], "E");
    assert [Ident("E"), Punct(','), Ident(p)] == RenderLegacyAttr([], "E", []) + [Punct(','), Ident(p)];
    AttrRun([], "E", []);
    RunAppend(Start, RenderLegacyAttr([], "E", []), [Punct(','), Ident(p)]);
    assert [Ident(p)] == [Ident(p)] + [];
    RunFront(m0, Ident(p), []);
    RunFront(m0, Punct(','), [Ident(p)]);
  }
}
