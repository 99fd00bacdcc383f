/** Worked declarations, each with the outcome the productions give. */
module DeclExamples {
  import opened Tokens
  import opened Ast
  import opened Arrays
  import opened Decls
  import opened DeclFacts

  /** The tokens of `struct s {`. */
  function StructHeader(): seq<Token> {
    [Token(Keyword, "struct"), Token(Identifier, "s"), Token(Keyword, "{")]
  }

  /** `struct s {` with nothing after it is too short for a struct and is
      an end-of-input error. */
  lemma OpenStructOnly()
    ensures ParsedStruct(StructHeader()) == Fail(UnexpectedEndOfInput)
  {
    StructHeaderFail(StructHeader());
  }

  /** `struct s { x: y }` never finishes: `y` is neither a type name nor a
      keyword, so the field `x` consumes nothing and is parsed again from
      the same tokens. */
  lemma DivergingStruct()
    ensures ParsedStruct(StructHeader() + [Token(Identifier, "x"), Token(Keyword, ":"),
      Token(Identifier, "y"), Token(Keyword, "}")]) == Diverges
  {
    var body := [Token(Identifier, "x"), Token(Keyword, ":"), Token(Identifier, "y"), Token(Keyword, "}")];
    var data := StructHeader() + body;
    assert data[3..] == body;
    assert ParsedField(body) == Done(Field("x", Untyped), body);
  }

  /** The tokens of `struct <name> {`. */
  function Opening(name: Token): seq<Token> {
    [Token(Keyword, "struct"), name, Token(Keyword, "{")]
  }

  /** A struct is its field loop run from after the `{`. */
  lemma StructOfBody(name: Token, body: seq<Token>)
    requires name.kind == Identifier && |body| > 0
    ensures ParsedStruct(Opening(name) + body) == StructFields(name.text, body, [])
  {
    var data := Opening(name) + body;
    assert data[0] == Token(Keyword, "struct") && data[1] == name && data[2] == Token(Keyword, "{");
    assert data[3..] == body;
  }

  /** The tokens of `<field>:` opening a field. */
  function FieldHead(field: Token): seq<Token> {
    [field, Token(Keyword, ":")]
  }

  /** The tokens of `[<len>]<elem>`. */
  function ArrayHead(len: Token, elem: Token): seq<Token> {
    [Token(Keyword, "["), len, Token(Keyword, "]"), elem]
  }

  lemma ArrayHeadParts(len: Token, elem: Token, tail: seq<Token>)
    ensures var a := ArrayHead(len, elem) + tail;
      |a| == 4 + |tail| && a[0] == Token(Keyword, "[") && a[1] == len && a[2] == Token(Keyword, "]") &&
      a[3] == elem && a[3..] == [elem] + tail && a[4..] == tail
  {
    var a := ArrayHead(len, elem) + tail;
    assert a[4..] == tail;
    assert a[3..] == [a[3]] + a[4..];
  }

  lemma FieldHeadParts(field: Token, rest: seq<Token>)
    ensures var b := FieldHead(field) + rest;
      |b| == 2 + |rest| && b[0] == field && b[1] == Token(Keyword, ":") && b[2..] == rest
  {
    var b := FieldHead(field) + rest;
    assert b[2..] == rest;
  }

  /** The length, element-type and name tokens of an array field. */
  predicate ArrayFieldTokens(name: Token, field: Token, len: Token, elem: Token) {
    name.kind == Identifier && field.kind == Identifier && len.kind == Integer &&
    Atoi(len.text).Some? && elem.kind == Type
  }

  /** The field `<field>: [<len>]<elem>` leaves the element type and
      what follows it. */
  lemma BareArrayField(field: Token, len: Token, elem: Token, tail: seq<Token>)
    requires field.kind == Identifier && len.kind == Integer && Atoi(len.text).Some? && elem.kind == Type
    requires tail == [] || !IsKw(tail[0], "{")
    ensures ParsedField(FieldHead(field) + (ArrayHead(len, elem) + tail)) ==
      Done(Field(field.text, ArrayType(Array(Atoi(len.text).value, elem.text, []))), [elem] + tail)
  {
    var arr := ArrayHead(len, elem) + tail;
    var body := FieldHead(field) + arr;
    FieldHeadParts(field, arr);
    ArrayHeadParts(len, elem, tail);
    assert |arr| >= 5 ==> arr[4] == tail[0];
    ArrayWithoutValues(arr);
    FieldOfArray(body);
  }

  /** A struct field of array type without an initializer always makes the
      struct fail: the array leaves its element type at the head of the
      remainder, and the field loop then parses a field from a type name,
      running out of input (`struct s { xs: [2]i32 }`) or meeting an
      unexpected token (`struct s { xs: [2]i32 n: i32 }`). */
  lemma ArrayFieldWithoutValues(name: Token, field: Token, len: Token, elem: Token, tail: seq<Token>)
    requires ArrayFieldTokens(name, field, len, elem)
    requires tail == [] || !IsKw(tail[0], "{")
    ensures ParsedStruct(Opening(name) + (FieldHead(field) + (ArrayHead(len, elem) + tail))) ==
      if |tail| < 2 then Fail(UnexpectedEndOfInput) else Fail(UnexpectedToken)
  {
    var body := FieldHead(field) + (ArrayHead(len, elem) + tail);
    StructOfBody(name, body);
    BareArrayField(field, len, elem, tail);
    var rest := [elem] + tail;
    assert body[0] == field;
    StructFieldsStep(name.text, body, []);
    assert rest[0] == elem && |rest| == |tail| + 1;
    if |tail| < 2 {
      assert ParsedField(rest) == Fail(UnexpectedEndOfInput);
    } else {
      assert ParsedField(rest) == Fail(UnexpectedToken);
    }
  }

  /** The tokens of `{<v1>, <v2>}`. */
  function Init(v1: Token, v2: Token): seq<Token> {
    [Token(Keyword, "{"), v1, Token(Keyword, ","), v2, Token(Keyword, "}")]
  }

  lemma InitParts(v1: Token, v2: Token, tail: seq<Token>)
    ensures var d := Init(v1, v2) + tail;
      |d| == 5 + |tail| && d[0] == Token(Keyword, "{") && d[1] == v1 && d[2] == Token(Keyword, ",") &&
      d[3] == v2 && d[4] == Token(Keyword, "}") && d[1..4] == [v1, Token(Keyword, ","), v2] && d[5..] == tail
  {
    var d := Init(v1, v2) + tail;
    assert d[5..] == tail;
    assert d[1] == v1 && d[2] == Token(Keyword, ",") && d[3] == v2;
    assert |d[1..4]| == 3 && d[1..4][0] == v1 && d[1..4][1] == Token(Keyword, ",") && d[1..4][2] == v2;
  }

  /** The tokens of `[<len>]<elem>{<v1>, <v2>}` followed by `tail`: an
      array header, an initializer of two literals closed at index 8, and
      `tail` after it. */
  lemma TwoValueTokens(len: Token, elem: Token, v1: Token, v2: Token, tail: seq<Token>)
    requires IsLiteral(v1.kind) && IsLiteral(v2.kind)
    ensures var arr := ArrayHead(len, elem) + (Init(v1, v2) + tail);
      |arr| >= 5 && arr[0] == Token(Keyword, "[") && arr[1] == len && arr[2] == Token(Keyword, "]") &&
      arr[3] == elem && arr[4] == Token(Keyword, "{") && InitializerUpTo(arr, 5, 8) &&
      NonCommaTexts(arr[5..8]) == [v1.text, v2.text] && arr[9..] == tail
  {
    var init := Init(v1, v2) + tail;
    var arr := ArrayHead(len, elem) + init;
    ArrayHeadParts(len, elem, init);
    InitParts(v1, v2, tail);
    assert arr[5..8] == init[1..4] && arr[9..] == init[5..];
    NonCommaPair(v1, v2);
  }

  /** `[<len>]<elem>{<v1>, <v2>}` followed by `tail` is an array of the
      two literals' texts with `tail` left over. */
  lemma TwoValueArray(len: Token, elem: Token, v1: Token, v2: Token, tail: seq<Token>)
    requires len.kind == Integer && Atoi(len.text).Some? && Atoi(len.text).value >= 2 && elem.kind == Type
    requires IsLiteral(v1.kind) && IsLiteral(v2.kind)
    ensures ParsedArray(ArrayHead(len, elem) + (Init(v1, v2) + tail)) ==
      Done(Array(Atoi(len.text).value, elem.text, [v1.text, v2.text]), tail)
  {
    TwoValueTokens(len, elem, v1, v2, tail);
    ArrayWithValues(ArrayHead(len, elem) + (Init(v1, v2) + tail), 8);
  }

  /** The field `<field>: [<len>]<elem>{<v1>, <v2>}` holds the two values
      and leaves what follows the `}`. */
  lemma ValuedArrayField(field: Token, len: Token, elem: Token, v1: Token, v2: Token, tail: seq<Token>)
    requires field.kind == Identifier && len.kind == Integer && Atoi(len.text).Some? && elem.kind == Type
    requires Atoi(len.text).value >= 2 && IsLiteral(v1.kind) && IsLiteral(v2.kind)
    ensures ParsedField(FieldHead(field) + (ArrayHead(len, elem) + (Init(v1, v2) + tail))) ==
      Done(Field(field.text, ArrayType(Array(Atoi(len.text).value, elem.text, [v1.text, v2.text]))), tail)
  {
    var arr := ArrayHead(len, elem) + (Init(v1, v2) + tail);
    FieldHeadParts(field, arr);
    ArrayHeadParts(len, elem, Init(v1, v2) + tail);
    TwoValueArray(len, elem, v1, v2, tail);
    FieldOfArray(FieldHead(field) + arr);
  }

  /** A struct field of array type with an initializer of two literals,
      within the declared length, gives a struct with that one field, the
      literals' texts as its values, and the tokens after the struct's `}`
      as the remainder. */
  lemma ArrayFieldWithValues(name: Token, field: Token, len: Token, elem: Token, v1: Token, v2: Token, tail: seq<Token>)
    requires ArrayFieldTokens(name, field, len, elem) && Atoi(len.text).value >= 2
    requires IsLiteral(v1.kind) && IsLiteral(v2.kind)
    ensures ParsedStruct(Opening(name) + (FieldHead(field) + (ArrayHead(len, elem) +
      (Init(v1, v2) + ([Token(Keyword, "}")] + tail))))) ==
      Done(Struct(name.text, [Field(field.text, ArrayType(Array(Atoi(len.text).value, elem.text, [v1.text, v2.text])))]), tail)
  {
    var close := Token(Keyword, "}");
    var rest := [close] + tail;
    var body := FieldHead(field) + (ArrayHead(len, elem) + (Init(v1, v2) + rest));
    StructOfBody(name, body);
    FieldHeadParts(field, ArrayHead(len, elem) + (Init(v1, v2) + rest));
    ValuedArrayField(field, len, elem, v1, v2, rest);
    StructFieldsStep(name.text, body, []);
    var f := Field(field.text, ArrayType(Array(Atoi(len.text).value, elem.text, [v1.text, v2.text])));
    assert rest[0] == close && rest[1..] == tail && [] + [f] == [f];
    assert StructFields(name.text, rest, [f]) == Done(Struct(name.text, [f]), tail);
  }

  /** The tokens of `func <name>(`. */
  function FuncOpen(name: Token): seq<Token> {
    [Token(Keyword, "func"), name, Token(Keyword, "(")]
  }

  /** The tokens of `<p>: <t>`. */
  function Param(p: Token, t: Token): seq<Token> {
    [p, Token(Keyword, ":"), t]
  }

  /** The tokens of `(<r1>, <r2>)`. */
  function ParenReturns(r1: Token, r2: Token): seq<Token> {
    [Token(Keyword, "("), r1, Token(Keyword, ","), r2, Token(Keyword, ")")]
  }

  /** A signature is its parameter loop run from after the `(`. */
  lemma FuncOfBody(name: Token, body: seq<Token>)
    requires name.kind == Identifier && |body| > 0
    ensures ParsedFunc(FuncOpen(name) + body) == FuncParams(name.text, body, [])
  {
    var data := FuncOpen(name) + body;
    assert data[0] == Token(Keyword, "func") && data[1] == name && data[2] == Token(Keyword, "(");
    assert data[3..] == body;
  }

  /** `<p>: <t>` with a type name `t` is a scalar field. */
  lemma ScalarParam(p: Token, t: Token, rest: seq<Token>)
    requires p.kind == Identifier && t.kind == Type
    ensures ParsedField(Param(p, t) + rest) == Done(Field(p.text, Scalar(t.text)), rest)
  {
    var d := Param(p, t) + rest;
    assert d[0] == p && d[1] == Token(Keyword, ":") && d[2] == t && d[3..] == rest;
  }

  /** After `-> (`, the return loop reads `<r1>, <r2>)` and what follows. */
  lemma PairList(r1: Token, r2: Token, tail: seq<Token>)
    ensures var a := [Token(Keyword, "->")] + (ParenReturns(r1, r2) + tail);
      |a| >= 2 && a[0] == Token(Keyword, "->") && a[1] == Token(Keyword, "(") &&
      ReturnList(a) == [r1, Token(Keyword, ","), r2] + ([Token(Keyword, ")")] + tail)
  {
    var a := [Token(Keyword, "->")] + (ParenReturns(r1, r2) + tail);
    assert a[1..][0] == Token(Keyword, "(");
    assert a[1..][1..] == [r1, Token(Keyword, ","), r2] + ([Token(Keyword, ")")] + tail);
  }

  /** `-> (<r1>, <r2>)` gives the two return types and leaves the closing
      `)` unconsumed. */
  lemma PairReturns(name: Text, params: seq<Field>, r1: Token, r2: Token, tail: seq<Token>)
    requires IsReturnToken(r1) && IsReturnToken(r2)
    ensures FuncTail(name, params, [Token(Keyword, "->")] + (ParenReturns(r1, r2) + tail)) ==
      Done(Func(name, params, [r1.text, r2.text]), [Token(Keyword, ")")] + tail)
  {
    var close := Token(Keyword, ")");
    PairList(r1, r2, tail);
    var list := [r1, Token(Keyword, ","), r2] + ([close] + tail);
    assert list[..3] == [r1, Token(Keyword, ","), r2] && list[3..] == [close] + tail;
    assert list[3] == close;
    KeywordsDiffer(close, ")", ",");
    assert ReturnsStop(list, 3);
    FuncReturnsAt(list, [], 3);
    NonCommaPair(r1, r2);
    assert [] + [r1.text, r2.text] == [r1.text, r2.text];
  }

  /** `func <name>(<p>: <t>)` is a signature with one scalar parameter,
      whose return clause is read from what follows the `)`. */
  lemma OneParamSignature(name: Token, p: Token, t: Token, after: seq<Token>)
    requires name.kind == Identifier && p.kind == Identifier && t.kind == Type
    ensures ParsedFunc(FuncOpen(name) + (Param(p, t) + ([Token(Keyword, ")")] + after))) ==
      FuncTail(name.text, [Field(p.text, Scalar(t.text))], after)
  {
    var closing := [Token(Keyword, ")")] + after;
    var body := Param(p, t) + closing;
    FuncOfBody(name, body);
    ScalarParam(p, t, closing);
    assert body[0] == p;
    FuncParamsStep(name.text, body, []);
    var f := Field(p.text, Scalar(t.text));
    assert [] + [f] == [f];
    assert closing[0] == Token(Keyword, ")") && closing[1..] == after;
    FuncParamsClose(name.text, closing, [f]);
  }

  /** `func <name>(<p>: <t>) -> (<r1>, <r2>)` is a signature with one
      parameter and two return types whose remainder still starts with the
      `)` of the return list. */
  lemma ParenthesisedSignature(name: Token, p: Token, t: Token, r1: Token, r2: Token, tail: seq<Token>)
    requires name.kind == Identifier && p.kind == Identifier && t.kind == Type
    requires IsReturnToken(r1) && IsReturnToken(r2)
    ensures ParsedFunc(FuncOpen(name) + (Param(p, t) + ([Token(Keyword, ")")] + ([Token(Keyword, "->")] +
      (ParenReturns(r1, r2) + tail))))) ==
      Done(Func(name.text, [Field(p.text, Scalar(t.text))], [r1.text, r2.text]), [Token(Keyword, ")")] + tail)
  {
    var after := [Token(Keyword, "->")] + (ParenReturns(r1, r2) + tail);
    OneParamSignature(name, p, t, after);
    PairReturns(name.text, [Field(p.text, Scalar(t.text))], r1, r2, tail);
  }

  /** The tokens of `interface <i> {`. */
  function InterfaceOpen(i: Token): seq<Token> {
    [Token(Keyword, "interface"), i, Token(Keyword, "{")]
  }

  /** An interface is its method loop run from after the `{`. */
  lemma InterfaceOfBody(i: Token, body: seq<Token>)
    requires i.kind == Identifier && |body| > 0
    ensures ParsedInterface(InterfaceOpen(i) + body) == InterfaceMethods(i.text, body, [])
  {
    var data := InterfaceOpen(i) + body;
    assert data[0] == Token(Keyword, "interface") && data[1] == i && data[2] == Token(Keyword, "{");
    assert data[3..] == body;
  }

  /** The `)` that a parenthesised return list leaves behind makes the
      enclosing interface fail: `interface <i> { func <name>(<p>: <t>) ->
      (<r1>, <r2>) }` runs out of input, as the loop then reads a signature
      from the two tokens `)` and `}`. */
  lemma ParenthesisedReturnsBreakInterface(i: Token, name: Token, p: Token, t: Token, r1: Token, r2: Token)
    requires i.kind == Identifier && name.kind == Identifier && p.kind == Identifier && t.kind == Type
    requires IsReturnToken(r1) && IsReturnToken(r2)
    ensures ParsedInterface(InterfaceOpen(i) +
      (FuncOpen(name) + (Param(p, t) + ([Token(Keyword, ")")] + ([Token(Keyword, "->")] +
      (ParenReturns(r1, r2) + [Token(Keyword, "}")])))))) == Fail(UnexpectedEndOfInput)
  {
    var close := [Token(Keyword, "}")];
    var sig := FuncOpen(name) + (Param(p, t) + ([Token(Keyword, ")")] + ([Token(Keyword, "->")] +
      (ParenReturns(r1, r2) + close))));
    assert sig[0] == Token(Keyword, "func");
    InterfaceOfBody(i, sig);
    ParenthesisedSignature(name, p, t, r1, r2, close);
    InterfaceMethodsStep(i.text, sig, []);
    var rest := [Token(Keyword, ")")] + close;
    assert |rest| == 2 && rest[0] == Token(Keyword, ")");
    assert ParsedFunc(rest) == Fail(UnexpectedEndOfInput);
  }

  /** `-> <r>` without parentheses gives the single return type `r` and
      consumes everything. */
  lemma BareReturn(name: Text, params: seq<Field>, r: Token)
    requires IsReturnToken(r)
    ensures FuncTail(name, params, [Token(Keyword, "->"), r]) == Done(Func(name, params, [r.text]), [])
  {
    var after := [Token(Keyword, "->"), r];
    assert ReturnList(after) == [r];
    assert [r][1..] == [] && [] + [r.text] == [r.text];
    assert FuncReturns([r], []) == FuncReturns([], [r.text]);
  }

  /** `func <name>() -> <r>` without parentheses is a signature with the
      single return type `r` and nothing left over. */
  lemma BareReturnSignature(name: Token, r: Token)
    requires name.kind == Identifier && IsReturnToken(r)
    ensures ParsedFunc(FuncOpen(name) + [Token(Keyword, ")"), Token(Keyword, "->"), r]) ==
      Done(Func(name.text, [], [r.text]), [])
  {
    var after := [Token(Keyword, "->"), r];
    var body := [Token(Keyword, ")")] + after;
    assert body == [Token(Keyword, ")"), Token(Keyword, "->"), r];
    FuncOfBody(name, body);
    assert body[1..] == after;
    FuncParamsClose(name.text, body, []);
    BareReturn(name.text, [], r);
  }
}
