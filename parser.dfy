/** The declaration parsers as the loops they are: each production is a
    method that reslices its token sequence and appends to the node it
    builds, and each is proved to compute the production of the same name
    in `Decls`. A field that consumes nothing inside a struct body or a
    parameter list, where the loops would spin forever, is reported as
    `Diverges`. */
module Parser {
  import opened Tokens
  import opened Ast
  import opened Arrays
  import opened Decls

  method ParseField(data: seq<Token>) returns (r: Parsed<Field>)
    decreases |data|, 0
    ensures r == ParsedField(data)
  {
    if |data| < 3 {
      return Fail(UnexpectedEndOfInput);
    }
    if data[0].kind != Identifier {
      return Fail(UnexpectedToken);
    }
    if !IsKw(data[1], ":") {
      return Fail(UnexpectedToken);
    }
    var name := data[0].text;
    var ty := Untyped;
    var remains := data;
    if data[2].kind == Type {
      ty := Scalar(data[2].text);
      remains := data[3..];
    } else if data[2].kind == Keyword {
      if data[2].text == "[" {
        var inner := ParseArray(data[2..]);
        if !inner.Done? {
          return match inner case Fail(e) => Fail(e) case _ => Diverges;
        }
        ty := ArrayType(inner.node);
        remains := inner.rest;
      } else if data[2].text == "struct" {
        var inner := ParseStrcut(data[2..]);
        if !inner.Done? {
          return match inner case Fail(e) => Fail(e) case _ => Diverges;
        }
        ty := StructType(inner.node);
        remains := inner.rest;
      } else if data[2].text == "interface" {
        var inner := ParseInterface(data[2..]);
        if !inner.Done? {
          return match inner case Fail(e) => Fail(e) case _ => Diverges;
        }
        ty := InterfaceType(inner.node);
        remains := inner.rest;
      } else {
        return Fail(UnexpectedToken);
      }
    }
    return Done(Field(name, ty), remains);
  }

  method ParseStrcut(data: seq<Token>) returns (r: Parsed<Struct>)
    decreases |data|, 0
    ensures r == ParsedStruct(data)
  {
    if |data| < 4 {
      return Fail(UnexpectedEndOfInput);
    }
    if !IsKw(data[0], "struct") {
      return Fail(UnexpectedToken);
    }
    if data[1].kind != Identifier {
      return Fail(UnexpectedToken);
    }
    if !IsKw(data[2], "{") {
      return Fail(UnexpectedToken);
    }
    var name := data[1].text;
    var body := data[3..];
    var fields: seq<Field> := [];
    while true
      invariant |body| < |data|
      invariant ParsedStruct(data) == StructFields(name, body, fields)
      decreases |body|
    {
      if |body| == 0 {
        return Fail(UnexpectedEndOfInput);
      }
      if IsKw(body[0], "}") {
        break;
      }
      var field := ParseField(body);
      if !field.Done? {
        return match field case Fail(e) => Fail(e) case _ => Diverges;
      }
      if field.rest == body {
        return Diverges;
      }
      body := field.rest;
      fields := fields + [field.node];
    }
    return Done(Struct(name, fields), body[1..]);
  }

  method ParseFunc(data: seq<Token>) returns (r: Parsed<Func>)
    decreases |data|, 0
    ensures r == ParsedFunc(data)
  {
    if |data| < 4 {
      return Fail(UnexpectedEndOfInput);
    }
    if !IsKw(data[0], "func") {
      return Fail(UnexpectedToken);
    }
    if data[1].kind != Identifier {
      return Fail(UnexpectedToken);
    }
    if !IsKw(data[2], "(") {
      return Fail(UnexpectedToken);
    }
    var name := data[1].text;
    var params: seq<Field> := [];
    var body := data[3..];
    while true
      invariant |body| < |data|
      invariant ParsedFunc(data) == FuncParams(name, body, params)
      decreases |body|
    {
      if |body| == 0 {
        return Fail(UnexpectedEndOfInput);
      }
      if IsKw(body[0], ")") {
        break;
      }
      if IsKw(body[0], ",") {
        body := body[1..];
        continue;
      }
      var param := ParseField(body);
      if !param.Done? {
        return match param case Fail(e) => Fail(e) case _ => Diverges;
      }
      if param.rest == body {
        return Diverges;
      }
      params := params + [param.node];
      body := param.rest;
    }
    body := body[1..];
    if |body| < 2 || !IsKw(body[0], "->") {
      return Done(Func(name, params, []), body);
    }
    ghost var after := body;
    body := body[1..];
    if |body| > 0 && IsKw(body[0], "(") {
      body := body[1..];
    }
    assert body == ReturnList(after);
    var returnTypes: seq<Text> := [];
    while |body| > 0
      invariant FuncReturns(ReturnList(after), []) == FuncReturns(body, returnTypes)
      decreases |body|
    {
      if IsKw(body[0], ",") {
        body := body[1..];
        continue;
      }
      if IsKw(body[0], ")") || !IsReturnToken(body[0]) {
        break;
      }
      returnTypes := returnTypes + [body[0].text];
      body := body[1..];
    }
    return Done(Func(name, params, returnTypes), body);
  }

  method ParseInterface(data: seq<Token>) returns (r: Parsed<Interface>)
    decreases |data|, 0
    ensures r == ParsedInterface(data)
  {
    if |data| < 4 {
      return Fail(UnexpectedEndOfInput);
    }
    if !IsKw(data[0], "interface") {
      return Fail(UnexpectedToken);
    }
    if data[1].kind != Identifier {
      return Fail(UnexpectedToken);
    }
    if !IsKw(data[2], "{") {
      return Fail(UnexpectedToken);
    }
    var name := data[1].text;
    var body := data[3..];
    var methods: seq<Func> := [];
    while true
      invariant |body| < |data|
      invariant ParsedInterface(data) == InterfaceMethods(name, body, methods)
      decreases |body|
    {
      if |body| == 0 {
        return Fail(UnexpectedEndOfInput);
      }
      if IsKw(body[0], "}") {
        break;
      }
      var sig := ParseFunc(body);
      if !sig.Done? {
        return match sig case Fail(e) => Fail(e) case _ => Diverges;
      }
      body := sig.rest;
      methods := methods + [sig.node];
    }
    return Done(Interface(name, methods), body[1..]);
  }
}
