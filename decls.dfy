/** The mutually recursive declaration productions of parser/struct.go and
    parser/interface.go: a field (whose type may be an array, a nested
    struct or a nested interface), a struct, a function signature and an
    interface. Each is a function from the token sequence to its outcome;
    the recursion is ordered by the number of tokens left and, for the
    body loops that call a production on the same tokens, by a rank of 1
    above the production they call. */
module Decls {
  import opened Tokens
  import opened Ast
  import opened Arrays

  /** A field: a name, `:` and a type. The third token decides the type:
      a type name, or the keyword `[`, `struct` or `interface` opening a
      nested array, struct or interface parsed from the third token on;
      any other keyword is refused, and a token of any other kind leaves
      the field untyped without consuming anything. */
  function ParsedField(data: seq<Token>): (r: Parsed<Field>)
    decreases |data|, 0
    ensures r.Done? ==> IsSuffix(r.rest, data)
    ensures r.Done? ==> (|data| >= 3 && data[0].kind == Identifier && IsKw(data[1], ":") &&
      r.node.name == data[0].text)
  {
    if |data| < 3 then Fail(UnexpectedEndOfInput)
    else if data[0].kind != Identifier then Fail(UnexpectedToken)
    else if !IsKw(data[1], ":") then Fail(UnexpectedToken)
    else
      var name := data[0].text;
      SuffixDrop(data, 2);
      if data[2].kind == Type then
        SuffixDrop(data, 3);
        Done(Field(name, Scalar(data[2].text)), data[3..])
      else if data[2].kind == Keyword then
        if data[2].text == "[" then
          match ParsedArray(data[2..])
          case Done(a, rem) => SuffixTransitive(rem, data[2..], data); Done(Field(name, ArrayType(a)), rem)
          case Fail(e) => Fail(e)
          case Diverges => Diverges
        else if data[2].text == "struct" then
          match ParsedStruct(data[2..])
          case Done(s, rem) => SuffixTransitive(rem, data[2..], data); Done(Field(name, StructType(s)), rem)
          case Fail(e) => Fail(e)
          case Diverges => Diverges
        else if data[2].text == "interface" then
          match ParsedInterface(data[2..])
          case Done(i, rem) => SuffixTransitive(rem, data[2..], data); Done(Field(name, InterfaceType(i)), rem)
          case Fail(e) => Fail(e)
          case Diverges => Diverges
        else Fail(UnexpectedToken)
      else Done(Field(name, Untyped), data)
  }

  /** A struct: `struct`, a name and `{`, then fields up to `}`. */
  function ParsedStruct(data: seq<Token>): (r: Parsed<Struct>)
    decreases |data|, 0
    ensures r.Done? ==> IsSuffix(r.rest, data) && |r.rest| < |data|
  {
    if |data| < 4 then Fail(UnexpectedEndOfInput)
    else if !IsKw(data[0], "struct") then Fail(UnexpectedToken)
    else if data[1].kind != Identifier then Fail(UnexpectedToken)
    else if !IsKw(data[2], "{") then Fail(UnexpectedToken)
    else
      SuffixDrop(data, 3);
      var r := StructFields(data[1].text, data[3..], []);
      if r.Done? then SuffixTransitive(r.rest, data[3..], data); r else r
  }

  /** The field loop of a struct over `body`, with `fields` parsed so far.
      A field that consumes nothing would be parsed again and again from
      the same tokens, so the loop diverges. */
  function StructFields(name: Text, body: seq<Token>, fields: seq<Field>): (r: Parsed<Struct>)
    decreases |body|, 1
    ensures r.Done? ==> IsSuffix(r.rest, body) && |r.rest| < |body| && r.node.name == name
  {
    if |body| == 0 then Fail(UnexpectedEndOfInput)
    else if IsKw(body[0], "}") then Done(Struct(name, fields), body[1..])
    else
      match ParsedField(body)
      case Fail(e) => Fail(e)
      case Diverges => Diverges
      case Done(f, rem) =>
        if rem == body then Diverges
        else
          var r := StructFields(name, rem, fields + [f]);
          if r.Done? then SuffixTransitive(r.rest, rem, body); r else r
  }

  /** A function signature: `func`, a name and `(`, then the parameters up
      to `)`, then an optional return clause. */
  function ParsedFunc(data: seq<Token>): (r: Parsed<Func>)
    decreases |data|, 0
    ensures r.Done? ==> IsSuffix(r.rest, data) && |r.rest| < |data|
  {
    if |data| < 4 then Fail(UnexpectedEndOfInput)
    else if !IsKw(data[0], "func") then Fail(UnexpectedToken)
    else if data[1].kind != Identifier then Fail(UnexpectedToken)
    else if !IsKw(data[2], "(") then Fail(UnexpectedToken)
    else
      SuffixDrop(data, 3);
      var r := FuncParams(data[1].text, data[3..], []);
      if r.Done? then SuffixTransitive(r.rest, data[3..], data); r else r
  }

  /** The parameter loop over `body`, with `params` parsed so far: commas
      are skipped, `)` ends the list, anything else is a field. */
  function FuncParams(name: Text, body: seq<Token>, params: seq<Field>): (r: Parsed<Func>)
    decreases |body|, 1
    ensures r.Done? ==> IsSuffix(r.rest, body) && |r.rest| < |body|
  {
    if |body| == 0 then Fail(UnexpectedEndOfInput)
    else if IsKw(body[0], ")") then
      SuffixDrop(body, 1);
      var r := FuncTail(name, params, body[1..]);
      SuffixTransitive(r.rest, body[1..], body);
      r
    else if IsKw(body[0], ",") then
      SuffixDrop(body, 1);
      var r := FuncParams(name, body[1..], params);
      if r.Done? then SuffixTransitive(r.rest, body[1..], body); r else r
    else
      match ParsedField(body)
      case Fail(e) => Fail(e)
      case Diverges => Diverges
      case Done(f, rem) =>
        if rem == body then Diverges
        else
          var r := FuncParams(name, rem, params + [f]);
          if r.Done? then SuffixTransitive(r.rest, rem, body); r else r
  }

  /** What follows the parameters' `)`: with fewer than two tokens left or
      no `->`, no return types; otherwise `->`, one optional `(`, and the
      return list. This part never fails. */
  function FuncTail(name: Text, params: seq<Field>, after: seq<Token>): (r: Parsed<Func>)
    ensures r.Done? && r.node == Func(name, params, r.node.returnTypes) && IsSuffix(r.rest, after)
  {
    if |after| < 2 || !IsKw(after[0], "->") then Done(Func(name, params, []), after)
    else
      var list := ReturnList(after);
      var (returnTypes, rest) := FuncReturns(list, []);
      SuffixTransitive(rest, list, after);
      Done(Func(name, params, returnTypes), rest)
  }

  /** The tokens after `->` and after one optional `(`. */
  function ReturnList(after: seq<Token>): (list: seq<Token>)
    requires |after| >= 1
    ensures IsSuffix(list, after) && |list| < |after|
  {
    var d := after[1..];
    if |d| > 0 && IsKw(d[0], "(") then d[1..] else d
  }

  /** The tokens the return loop collects: identifiers and type names. */
  predicate IsReturnToken(t: Token) {
    t.kind == Identifier || t.kind == Type
  }

  /** The return loop over `d`, with `acc` collected so far: commas are
      skipped, identifiers and type names are collected, and it stops
      without consuming at `)`, at any other token, or at the end. */
  function FuncReturns(d: seq<Token>, acc: seq<Text>): (r: (seq<Text>, seq<Token>))
    ensures IsSuffix(r.1, d)
  {
    if |d| == 0 then (acc, d)
    else if IsKw(d[0], ",") then FuncReturns(d[1..], acc)
    else if IsKw(d[0], ")") || !IsReturnToken(d[0]) then (acc, d)
    else FuncReturns(d[1..], acc + [d[0].text])
  }

  /** An interface: `interface`, a name and `{`, then function signatures
      up to `}`. */
  function ParsedInterface(data: seq<Token>): (r: Parsed<Interface>)
    decreases |data|, 0
    ensures r.Done? ==> IsSuffix(r.rest, data) && |r.rest| < |data|
  {
    if |data| < 4 then Fail(UnexpectedEndOfInput)
    else if !IsKw(data[0], "interface") then Fail(UnexpectedToken)
    else if data[1].kind != Identifier then Fail(UnexpectedToken)
    else if !IsKw(data[2], "{") then Fail(UnexpectedToken)
    else
      SuffixDrop(data, 3);
      var r := InterfaceMethods(data[1].text, data[3..], []);
      if r.Done? then SuffixTransitive(r.rest, data[3..], data); r else r
  }

  /** The method loop of an interface over `body`, with `methods` parsed so
      far. A signature always consumes tokens, so this loop needs no
      divergence check of its own. */
  function InterfaceMethods(name: Text, body: seq<Token>, methods: seq<Func>): (r: Parsed<Interface>)
    decreases |body|, 1
    ensures r.Done? ==> IsSuffix(r.rest, body) && |r.rest| < |body| && r.node.name == name
  {
    if |body| == 0 then Fail(UnexpectedEndOfInput)
    else if IsKw(body[0], "}") then Done(Interface(name, methods), body[1..])
    else
      match ParsedFunc(body)
      case Fail(e) => Fail(e)
      case Diverges => Diverges
      case Done(m, rem) =>
        var r := InterfaceMethods(name, rem, methods + [m]);
        if r.Done? then SuffixTransitive(r.rest, rem, body); r else r
  }
}
