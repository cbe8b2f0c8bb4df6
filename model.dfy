/**
 * The macro's intermediate representation: the configuration read from the
 * attribute (`Params`), and the analysed impl block (`InputData`, `Method`,
 * `Argument`), with the naming rule for enum variants.
 */
module Model {
  import opened Wrappers
  import opened Syntax

  datatype ReceiverStyle = Move | Mut | Ref

  /** One typed method argument; `enumAttr` holds the `[...]` groups to put on its field. */
  datatype Argument = Argument(name: string, ty: Ty, enumAttr: seq<Group>, toOwned: bool)

  datatype Method = Method(
    name: string,
    receiverStyle: ReceiverStyle,
    args: seq<Argument>,
    ret: Option<Ty>,
    enumAttr: seq<Attr>,
    returnAttr: seq<Attr>,
    docAttr: seq<Attr>,
    isAsync: bool)

  /** The type a proxy impl block is written for: a path read from the attribute, or `Name<Sender>`. */
  datatype ProxyPath = PathTokens(tokens: seq<Token>) | SenderInstance(proxyName: string)

  datatype ProxyImpl = ProxyImpl(path: ProxyPath, generics: Generics)

  datatype Proxy = ProxyStruct(name: string) | ProxyTrait(name: string) | ProxyImplOf(target: ProxyImpl)

  datatype Params = Params(
    visibility: Visibility,
    returnval: Option<Ty>,
    proxies: seq<Proxy>,
    enumAttr: seq<Attr>,
    enumName: string)

  datatype InputData = InputData(
    name: string,
    generics: Generics,
    structArgs: PathArguments,
    methods: seq<Method>,
    params: Params)

  // ---------------------------------------------------------------------------
  // Variant names
  // ---------------------------------------------------------------------------

  predicate IsLower(c: char) { 'a' <= c <= 'z' }

  predicate IsUpper(c: char) { 'A' <= c <= 'Z' }

  function ToUpper(c: char): (u: char)
    ensures IsLower(c) ==> IsUpper(u)
  {
    if IsLower(c) then (c as int - 32) as char else c
  }

  function ToLower(c: char): (l: char)
    ensures IsUpper(c) ==> IsLower(l)
  {
    if IsUpper(c) then (c as int + 32) as char else c
  }

  /**
   * Upper-camel case of `s`, where `atWordStart` says whether the next letter begins a word.
   * Every character but `_` is a letter inside a word, digits included.
   */
  function CamelFrom(s: string, atWordStart: bool): (r: string)
    ensures |r| <= |s|
    ensures forall i :: 0 <= i < |r| ==> r[i] != '_'
    decreases |s|
  {
    if s == [] then []
    else if s[0] == '_' then CamelFrom(s[1..], true)
    else [if atWordStart then ToUpper(s[0]) else s[0]] + CamelFrom(s[1..], false)
  }

  /** `to_case(Case::UpperCamel)` on a snake-case identifier: underscores go, each word is capitalised. */
  function UpperCamel(s: string): string { CamelFrom(s, true) }

  /**
   * The enum variant that carries calls of `m`.  It has no underscores, and for
   * a snake-case name it starts with a capital and converts back to the name.
   */
  function VariantName(m: Method): (r: string)
    ensures forall i :: 0 <= i < |r| ==> r[i] != '_'
    ensures IsSnake(m.name) ==> |r| > 0 && IsUpper(r[0]) && ToSnake(r) == m.name
  {
    assert IsSnake(m.name) ==> ToSnake(UpperCamel(m.name)) == m.name by {
      if IsSnake(m.name) { SnakeOfVariantName(m.name); }
    }
    UpperCamel(m.name)
  }

  /** Snake case of a camel-case name: an underscore before every capital but the first. */
  function SnakeFrom(s: string, atStart: bool): string
    decreases |s|
  {
    if s == [] then []
    else if IsUpper(s[0]) then
      (if atStart then [] else ['_']) + [ToLower(s[0])] + SnakeFrom(s[1..], false)
    else [s[0]] + SnakeFrom(s[1..], false)
  }

  function ToSnake(s: string): string { SnakeFrom(s, true) }

  /** Lower-case letters and underscores, every underscore followed by a letter. */
  predicate SnakeTail(s: string)
  {
    (forall i :: 0 <= i < |s| ==> IsLower(s[i]) || s[i] == '_')
    && (forall i :: 0 <= i < |s| && s[i] == '_' ==> i + 1 < |s| && IsLower(s[i + 1]))
  }

  /** A conventional snake-case method name: `increment_by`, `set_flag`. */
  predicate IsSnake(s: string) { |s| > 0 && IsLower(s[0]) && SnakeTail(s) }

  lemma {:induction false} SnakeOfCamelTail(s: string)
    requires SnakeTail(s)
    ensures SnakeFrom(CamelFrom(s, false), false) == s
    decreases |s|
  {
    if s != [] {
      if s[0] == '_' {
        var t := s[2..];
        assert SnakeTail(t) by {
          forall i | 0 <= i < |t| && t[i] == '_' ensures i + 1 < |t| && IsLower(t[i + 1]) {
            assert s[i + 2] == '_';
          }
        }
        SnakeOfCamelTail(t);
        assert s[1..][1..] == t;
        assert CamelFrom(s, false) == [ToUpper(s[1])] + CamelFrom(t, false);
        assert s == ['_', s[1]] + t;
      } else {
        assert SnakeTail(s[1..]) by {
          forall i | 0 <= i < |s[1..]| && s[1..][i] == '_' ensures i + 1 < |s[1..]| && IsLower(s[1..][i + 1]) {
            assert s[i + 1] == '_';
          }
        }
        SnakeOfCamelTail(s[1..]);
        assert s == [s[0]] + s[1..];
      }
    }
  }

  /** The variant name determines a snake-case method name: converting it back gives the name. */
  lemma SnakeOfVariantName(s: string)
    requires IsSnake(s)
    ensures ToSnake(UpperCamel(s)) == s
  {
    assert SnakeTail(s[1..]) by {
      forall i | 0 <= i < |s[1..]| && s[1..][i] == '_' ensures i + 1 < |s[1..]| && IsLower(s[1..][i + 1]) {
        assert s[i + 1] == '_';
      }
    }
    SnakeOfCamelTail(s[1..]);
    assert s == [s[0]] + s[1..];
  }

  /** Two snake-case methods get distinct variants iff their names differ. */
  lemma VariantNamesDistinct(a: string, b: string)
    requires IsSnake(a) && IsSnake(b)
    ensures UpperCamel(a) == UpperCamel(b) <==> a == b
  {
    SnakeOfVariantName(a);
    SnakeOfVariantName(b);
  }

  /**
   * No collision check is made: doubling any underscore gives a different method
   * name with the same variant name (as for `foo_bar` and `foo__bar`).
   */
  lemma {:induction false} DoubledUnderscoreCollides(a: string, b: string, atWordStart: bool)
    ensures CamelFrom(a + "__" + b, atWordStart) == CamelFrom(a + "_" + b, atWordStart)
    decreases |a|
  {
    if a == [] {
      assert a + "__" + b == "__" + b;
      assert ("__" + b)[1..] == "_" + b;
      assert a + "_" + b == "_" + b;
    } else {
      assert (a + "__" + b)[0] == a[0] && (a + "_" + b)[0] == a[0];
      assert (a + "__" + b)[1..] == a[1..] + "__" + b;
      assert (a + "_" + b)[1..] == a[1..] + "_" + b;
      DoubledUnderscoreCollides(a[1..], b, a[0] == '_');
    }
  }

  lemma VariantNameCollision()
    ensures "foo_bar" != "foo__bar" && UpperCamel("foo_bar") == UpperCamel("foo__bar")
  {
    DoubledUnderscoreCollides("foo", "bar", true);
    assert "foo" + "__" + "bar" == "foo__bar";
    assert "foo" + "_" + "bar" == "foo_bar";
  }

  /** Inside a word, letters pass through unchanged. */
  lemma {:induction false} CamelInsideWord(w: string, rest: string)
    requires forall i :: 0 <= i < |w| ==> IsLower(w[i])
    ensures CamelFrom(w + rest, false) == w + CamelFrom(rest, false)
    decreases |w|
  {
    if w != [] {
      assert (w + rest)[0] == w[0] && (w + rest)[1..] == w[1..] + rest;
      CamelInsideWord(w[1..], rest);
      assert w == [w[0]] + w[1..];
    } else {
      assert w + rest == rest;
    }
  }

  /** A lower-case word: non-empty, letters only. */
  predicate LowerWord(w: string) { |w| > 0 && forall i :: 0 <= i < |w| ==> IsLower(w[i]) }

  /** A word with its first letter capitalised. */
  function Capitalised(w: string): string
    requires |w| > 0
  {
    [ToUpper(w[0])] + w[1..]
  }

  /** A word is capitalised when it starts a word, and copied otherwise. */
  lemma WordCamel(w: string, rest: string, atWordStart: bool)
    requires LowerWord(w)
    ensures CamelFrom(w + rest, atWordStart) == (if atWordStart then Capitalised(w) else w) + CamelFrom(rest, false)
  {
    assert (w + rest)[1..] == w[1..] + rest;
    CamelInsideWord(w[1..], rest);
  }

  /** A two-word snake-case name becomes its two words, each capitalised. */
  lemma TwoWords(a: string, b: string)
    requires LowerWord(a) && LowerWord(b)
    ensures UpperCamel(a + "_" + b) == Capitalised(a) + Capitalised(b)
  {
    assert a + "_" + b == a + ("_" + b);
    WordCamel(a, "_" + b, true);
    assert ("_" + b)[1..] == b;
    WordCamel(b, [], true);
    assert b + [] == b;
  }

  lemma VariantNameOfIncrementBy()
    ensures UpperCamel("increment_by") == "IncrementBy"
  {
    TwoWords("increment", "by");
    IncrementByParts();
  }

  lemma IncrementByParts()
    ensures "increment" + "_" + "by" == "increment_by"
    ensures Capitalised("increment") + Capitalised("by") == "IncrementBy"
  {
  }

  lemma VariantNameOfFoo()
    ensures UpperCamel("foo") == "Foo"
  {
    WordCamel("foo", [], true);
    assert "foo" + [] == "foo";
  }

  /** `has_async_functions`: some method is `async`. */
  function HasAsyncFunctions(methods: seq<Method>): (r: bool)
    ensures r <==> exists i :: 0 <= i < |methods| && methods[i].isAsync
    decreases |methods|
  {
    if methods == [] then false
    else methods[0].isAsync || HasAsyncFunctions(methods[1..])
  }
}
