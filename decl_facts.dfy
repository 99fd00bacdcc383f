/** What the declaration productions of `Decls` promise: how a field's type
    follows its third token, when a field consumes nothing, how each body
    loop is a chain of productions ending at its closing token, and how
    the return list of a signature stops. */
module DeclFacts {
  import opened Tokens
  import opened Ast
  import opened Arrays
  import opened Decls

  // ---------------------------------------------------------------------
  // Fields

  /** A parsed field's type is tagged by its third token: a type name gives
      a scalar of that name and leaves the tokens after it; `[`, `struct`
      and `interface` give the node of the nested production run from the
      third token, with that production's remainder; a token that is
      neither a type name nor a keyword gives an untyped field and
      consumes nothing. */
  lemma FieldDone(data: seq<Token>)
    requires ParsedField(data).Done?
    ensures var f := ParsedField(data).node; var rest := ParsedField(data).rest;
      |data| >= 3 && f.name == data[0].text &&
      (f.ty.Scalar? <==> data[2].kind == Type) &&
      (f.ty.Scalar? ==> f.ty.typeName == data[2].text && rest == data[3..]) &&
      (f.ty.ArrayType? <==> IsKw(data[2], "[")) &&
      (f.ty.ArrayType? ==> ParsedArray(data[2..]) == Done(f.ty.arr, rest)) &&
      (f.ty.StructType? <==> IsKw(data[2], "struct")) &&
      (f.ty.StructType? ==> ParsedStruct(data[2..]) == Done(f.ty.decl, rest)) &&
      (f.ty.InterfaceType? <==> IsKw(data[2], "interface")) &&
      (f.ty.InterfaceType? ==> ParsedInterface(data[2..]) == Done(f.ty.iface, rest)) &&
      (f.ty.Untyped? <==> data[2].kind != Type && data[2].kind != Keyword) &&
      (f.ty.Untyped? ==> rest == data)
  {
    var name := data[0].text;
    if data[2].kind == Type {
      assert ParsedField(data) == Done(Field(name, Scalar(data[2].text)), data[3..]);
    } else if data[2].kind != Keyword {
      assert ParsedField(data) == Done(Field(name, Untyped), data);
    } else if data[2].text == "[" {
      var a := ParsedArray(data[2..]);
      assert ParsedField(data) == Done(Field(name, ArrayType(a.node)), a.rest);
    } else if data[2].text == "struct" {
      var d := ParsedStruct(data[2..]);
      assert ParsedField(data) == Done(Field(name, StructType(d.node)), d.rest);
    } else {
      var i := ParsedInterface(data[2..]);
      assert ParsedField(data) == Done(Field(name, InterfaceType(i.node)), i.rest);
    }
  }

  /** The error cases of a field: too few tokens, a bad name or a missing
      `:`, a keyword that opens nothing, and a nested production's error
      or divergence passed through unchanged. */
  lemma FieldFail(data: seq<Token>)
    ensures |data| < 3 ==> ParsedField(data) == Fail(UnexpectedEndOfInput)
    ensures |data| >= 3 && (data[0].kind != Identifier || !IsKw(data[1], ":")) ==>
      ParsedField(data) == Fail(UnexpectedToken)
    ensures |data| >= 3 && data[0].kind == Identifier && IsKw(data[1], ":") ==>
      (data[2].kind == Keyword && data[2].text !in ["[", "struct", "interface"] ==>
         ParsedField(data) == Fail(UnexpectedToken)) &&
      (IsKw(data[2], "[") && !ParsedArray(data[2..]).Done? ==>
         ParsedField(data) == Fail(ParsedArray(data[2..]).error)) &&
      (IsKw(data[2], "struct") && ParsedStruct(data[2..]).Fail? ==>
         ParsedField(data) == Fail(ParsedStruct(data[2..]).error)) &&
      (IsKw(data[2], "struct") && ParsedStruct(data[2..]).Diverges? ==> ParsedField(data).Diverges?) &&
      (IsKw(data[2], "interface") && ParsedInterface(data[2..]).Fail? ==>
         ParsedField(data) == Fail(ParsedInterface(data[2..]).error)) &&
      (IsKw(data[2], "interface") && ParsedInterface(data[2..]).Diverges? ==> ParsedField(data).Diverges?)
  {
  }

  /** Conversely, a well-formed field header whose third token opens an
      array that parses gives a field of that array type with the array's
      remainder. */
  lemma FieldOfArray(data: seq<Token>)
    requires |data| >= 3 && data[0].kind == Identifier && IsKw(data[1], ":") && IsKw(data[2], "[")
    requires ParsedArray(data[2..]).Done?
    ensures ParsedField(data) ==
      Done(Field(data[0].text, ArrayType(ParsedArray(data[2..]).node)), ParsedArray(data[2..]).rest)
  {
  }

  /** A field leaves its input untouched exactly when its header is
      well-formed and its third token is neither a type name nor a
      keyword; every other successful field consumes tokens. */
  lemma FieldNoProgress(data: seq<Token>)
    ensures (ParsedField(data).Done? && ParsedField(data).rest == data) <==>
      (|data| >= 3 && data[0].kind == Identifier && IsKw(data[1], ":") &&
       data[2].kind != Type && data[2].kind != Keyword)
  {
    if ParsedField(data).Done? && |data| >= 3 && data[2].kind == Keyword {
      assert |ParsedField(data).rest| < |data|;
    }
  }

  // ---------------------------------------------------------------------
  // Structs

  /** `fs` are the fields parsed one after another from `d`, each starting
      at a token other than `}` and consuming tokens, ending at `stop`. */
  ghost predicate FieldChain(d: seq<Token>, fs: seq<Field>, stop: seq<Token>)
    decreases |fs|
  {
    if fs == [] then d == stop
    else
      |d| > 0 && !IsKw(d[0], "}") && ParsedField(d).Done? && ParsedField(d).node == fs[0] &&
      |ParsedField(d).rest| < |d| && FieldChain(ParsedField(d).rest, fs[1..], stop)
  }

  /** One turn of the field loop on a field that consumes tokens. */
  lemma StructFieldsStep(name: Text, body: seq<Token>, fields: seq<Field>)
    requires |body| > 0 && !IsKw(body[0], "}") && ParsedField(body).Done? && |ParsedField(body).rest| < |body|
    ensures StructFields(name, body, fields) ==
      StructFields(name, ParsedField(body).rest, fields + [ParsedField(body).node])
  {
  }

  /** Running the field loop along a chain of fields lands at the chain's
      end with those fields appended in order. */
  lemma {:induction false} StructFieldsAt(name: Text, body: seq<Token>, fields: seq<Field>, fs: seq<Field>, stop: seq<Token>)
    requires FieldChain(body, fs, stop)
    ensures StructFields(name, body, fields) == StructFields(name, stop, fields + fs)
    decreases |fs|
  {
    if fs == [] {
      assert fields + fs == fields;
    } else {
      var rem := ParsedField(body).rest;
      StructFieldsStep(name, body, fields);
      StructFieldsAt(name, rem, fields + [fs[0]], fs[1..], stop);
      AppendHeadTail(fields, fs);
    }
  }

  /** A successful field loop follows a chain of fields to a `}`. */
  lemma {:induction false} StructFieldsChain(name: Text, body: seq<Token>, fields: seq<Field>)
    returns (fs: seq<Field>, stop: seq<Token>)
    requires StructFields(name, body, fields).Done?
    ensures FieldChain(body, fs, stop) && |stop| > 0 && IsKw(stop[0], "}")
    decreases |body|
  {
    if IsKw(body[0], "}") {
      fs, stop := [], body;
    } else {
      var f := ParsedField(body).node;
      var rem := ParsedField(body).rest;
      assert |rem| < |body|;
      StructFieldsStep(name, body, fields);
      var fs', stop' := StructFieldsChain(name, rem, fields + [f]);
      fs, stop := [f] + fs', stop';
      assert fs[0] == f && fs[1..] == fs';
    }
  }

  /** Every successful field loop is such a chain, ending at a `}`; the
      struct's fields are those of the chain in order and the remainder is
      what follows the `}`. */
  lemma StructFieldsDone(name: Text, body: seq<Token>, fields: seq<Field>)
    returns (fs: seq<Field>, stop: seq<Token>)
    requires StructFields(name, body, fields).Done?
    ensures FieldChain(body, fs, stop) && |stop| > 0 && IsKw(stop[0], "}")
    ensures StructFields(name, body, fields) == Done(Struct(name, fields + fs), stop[1..])
  {
    fs, stop := StructFieldsChain(name, body, fields);
    StructFieldsAt(name, body, fields, fs, stop);
  }

  /** What a successful struct parse read: `struct`, the name and `{`, then
      a chain of fields in source order closed by `}`, with the remainder
      after it. */
  lemma StructDone(data: seq<Token>)
    requires ParsedStruct(data).Done?
    ensures var s := ParsedStruct(data).node;
      |data| >= 4 && IsKw(data[0], "struct") && data[1].kind == Identifier && IsKw(data[2], "{") &&
      s.name == data[1].text &&
      exists stop :: FieldChain(data[3..], s.fields, stop) && |stop| > 0 && IsKw(stop[0], "}") &&
        ParsedStruct(data).rest == stop[1..]
  {
    var fs, stop := StructFieldsDone(data[1].text, data[3..], []);
    assert [] + fs == fs;
  }

  /** Conversely, a chain of fields closed by `}` is a struct body. */
  lemma StructUpTo(data: seq<Token>, fs: seq<Field>, stop: seq<Token>)
    requires |data| >= 4 && IsKw(data[0], "struct") && data[1].kind == Identifier && IsKw(data[2], "{")
    requires FieldChain(data[3..], fs, stop) && |stop| > 0 && IsKw(stop[0], "}")
    ensures ParsedStruct(data) == Done(Struct(data[1].text, fs), stop[1..])
  {
    StructFieldsAt(data[1].text, data[3..], [], fs, stop);
    assert [] + fs == fs;
  }

  /** The loop diverges when, after a chain of fields, the next field
      consumes nothing; it fails with that field's error when the field
      fails, and with an end-of-input error when the chain uses up the
      tokens. */
  lemma StructStall(name: Text, body: seq<Token>, fs: seq<Field>, stop: seq<Token>)
    requires FieldChain(body, fs, stop)
    ensures |stop| == 0 ==> StructFields(name, body, []) == Fail(UnexpectedEndOfInput)
    ensures |stop| > 0 && !IsKw(stop[0], "}") && ParsedField(stop).Done? && ParsedField(stop).rest == stop ==>
      StructFields(name, body, []) == Diverges
    ensures |stop| > 0 && !IsKw(stop[0], "}") && ParsedField(stop).Fail? ==>
      StructFields(name, body, []) == Fail(ParsedField(stop).error)
  {
    StructFieldsAt(name, body, [], fs, stop);
  }

  // ---------------------------------------------------------------------
  // Function signatures

  /** `ps` are the parameters parsed one after another from `d`, with
      commas skipped wherever they occur, ending at `stop`. */
  ghost predicate ParamChain(d: seq<Token>, ps: seq<Field>, stop: seq<Token>)
    decreases |d|
  {
    if |d| > 0 && IsKw(d[0], ",") then ParamChain(d[1..], ps, stop)
    else if ps == [] then d == stop
    else
      |d| > 0 && !IsKw(d[0], ")") && ParsedField(d).Done? && ParsedField(d).node == ps[0] &&
      |ParsedField(d).rest| < |d| && ParamChain(ParsedField(d).rest, ps[1..], stop)
  }

  /** One turn of the parameter loop on a parameter that consumes
      tokens. */
  lemma FuncParamsStep(name: Text, body: seq<Token>, params: seq<Field>)
    requires |body| > 0 && !IsKw(body[0], ")") && !IsKw(body[0], ",")
    requires ParsedField(body).Done? && |ParsedField(body).rest| < |body|
    ensures FuncParams(name, body, params) ==
      FuncParams(name, ParsedField(body).rest, params + [ParsedField(body).node])
  {
  }

  /** The parameter loop skips a comma. */
  lemma FuncParamsComma(name: Text, body: seq<Token>, params: seq<Field>)
    requires |body| > 0 && IsKw(body[0], ",")
    ensures FuncParams(name, body, params) == FuncParams(name, body[1..], params)
  {
    KeywordsDiffer(body[0], ",", ")");
  }

  /** The parameter loop ends at `)` and reads the return clause from the
      tokens after it. */
  lemma FuncParamsClose(name: Text, body: seq<Token>, params: seq<Field>)
    requires |body| > 0 && IsKw(body[0], ")")
    ensures FuncParams(name, body, params) == FuncTail(name, params, body[1..])
  {
  }

  /** Running the parameter loop along a chain of parameters lands at the
      chain's end with those parameters appended in order. */
  lemma {:induction false} FuncParamsAt(name: Text, body: seq<Token>, params: seq<Field>, ps: seq<Field>, stop: seq<Token>)
    requires ParamChain(body, ps, stop)
    ensures FuncParams(name, body, params) == FuncParams(name, stop, params + ps)
    decreases |body|
  {
    if |body| > 0 && IsKw(body[0], ",") {
      ParamChainComma(body, ps, stop);
      FuncParamsAt(name, body[1..], params, ps, stop);
      FuncParamsComma(name, body, params);
    } else if ps == [] {
      assert params + ps == params;
    } else {
      ParamChainField(body, ps, stop);
      FuncParamsAt(name, ParsedField(body).rest, params + [ps[0]], ps[1..], stop);
      AppendHeadTail(params, ps);
      FuncParamsAtField(name, body, params, ps, stop);
    }
  }

  /** The field turn of `FuncParamsAt`, given the rest of the chain. */
  lemma FuncParamsAtField(name: Text, body: seq<Token>, params: seq<Field>, ps: seq<Field>, stop: seq<Token>)
    requires ParamChain(body, ps, stop) && ps != [] && !(|body| > 0 && IsKw(body[0], ","))
    requires ParsedField(body).Done?
    requires FuncParams(name, ParsedField(body).rest, params + [ps[0]]) == FuncParams(name, stop, params + ps)
    ensures FuncParams(name, body, params) == FuncParams(name, stop, params + ps)
  {
    ParamChainField(body, ps, stop);
    FuncParamsStep(name, body, params);
  }

  /** Where the parameter loop stops short of `)`: running out of tokens
      is an end-of-input error, a parameter that fails passes its error
      on, and a parameter that consumes nothing makes the loop diverge. */
  lemma FuncParamsStall(name: Text, body: seq<Token>, ps: seq<Field>, stop: seq<Token>)
    requires ParamChain(body, ps, stop)
    ensures |stop| == 0 ==> FuncParams(name, body, []) == Fail(UnexpectedEndOfInput)
    ensures (|stop| > 0 && !IsKw(stop[0], ")") && !IsKw(stop[0], ",") &&
             ParsedField(stop).Done? && ParsedField(stop).rest == stop) ==>
      FuncParams(name, body, []) == Diverges
    ensures |stop| > 0 && !IsKw(stop[0], ")") && !IsKw(stop[0], ",") && ParsedField(stop).Fail? ==>
      FuncParams(name, body, []) == Fail(ParsedField(stop).error)
  {
    FuncParamsAt(name, body, [], ps, stop);
  }

  lemma ParamChainComma(d: seq<Token>, ps: seq<Field>, stop: seq<Token>)
    requires ParamChain(d, ps, stop) && |d| > 0 && IsKw(d[0], ",")
    ensures ParamChain(d[1..], ps, stop)
  {
  }

  lemma ParamChainField(d: seq<Token>, ps: seq<Field>, stop: seq<Token>)
    requires ParamChain(d, ps, stop) && ps != [] && !(|d| > 0 && IsKw(d[0], ","))
    ensures |d| > 0 && !IsKw(d[0], ")") && !IsKw(d[0], ",") && ParsedField(d).Done? &&
      ParsedField(d).node == ps[0] && |ParsedField(d).rest| < |d| &&
      ParamChain(ParsedField(d).rest, ps[1..], stop)
  {
  }

  /** Every successful parameter loop is such a chain, ending at a `)`,
      after which the optional return clause is read. */
  lemma {:induction false} FuncParamsDone(name: Text, body: seq<Token>, params: seq<Field>)
    returns (ps: seq<Field>, stop: seq<Token>)
    requires FuncParams(name, body, params).Done?
    ensures ParamChain(body, ps, stop) && |stop| > 0 && IsKw(stop[0], ")")
    ensures FuncParams(name, body, params) == FuncTail(name, params + ps, stop[1..])
    decreases |body|
  {
    if IsKw(body[0], ")") {
      KeywordsDiffer(body[0], ")", ",");
      ps, stop := [], body;
      assert params + [] == params;
    } else if IsKw(body[0], ",") {
      FuncParamsComma(name, body, params);
      ps, stop := FuncParamsDone(name, body[1..], params);
    } else {
      var f := ParsedField(body).node;
      var rem := ParsedField(body).rest;
      assert rem != body;
      assert |rem| < |body|;
      FuncParamsStep(name, body, params);
      var ps', stop' := FuncParamsDone(name, rem, params + [f]);
      ps, stop := [f] + ps', stop';
      assert ps[1..] == ps';
      assert params + [f] + ps' == params + ps;
    }
  }

  /** What a successful signature parse read: `func`, the name and `(`,
      then a chain of parameters in source order closed by `)`, then the
      return clause. */
  lemma FuncDone(data: seq<Token>)
    requires ParsedFunc(data).Done?
    ensures var m := ParsedFunc(data).node;
      |data| >= 4 && IsKw(data[0], "func") && data[1].kind == Identifier && IsKw(data[2], "(") &&
      m.name == data[1].text &&
      exists stop :: ParamChain(data[3..], m.params, stop) && |stop| > 0 && IsKw(stop[0], ")") &&
        ParsedFunc(data) == FuncTail(data[1].text, m.params, stop[1..])
  {
    var ps, stop := FuncParamsDone(data[1].text, data[3..], []);
    assert [] + ps == ps;
  }

  /** The return loop stops at index `k` of `d`: every token before it is a
      comma, an identifier or a type name, and the token at `k` (if any) is
      none of these. */
  predicate ReturnsStop(d: seq<Token>, k: nat) {
    k <= |d| &&
    (forall i :: 0 <= i < k ==> IsKw(d[i], ",") || IsReturnToken(d[i])) &&
    (k < |d| ==> !IsKw(d[k], ",") && !IsReturnToken(d[k]))
  }

  /** The return loop collects the identifiers and type names before its
      stop, in order and without the commas, and leaves every token from
      the stop on, whatever it is, a `)` included. */
  lemma {:induction false} FuncReturnsAt(d: seq<Token>, acc: seq<Text>, k: nat)
    requires ReturnsStop(d, k)
    ensures FuncReturns(d, acc) == (acc + NonCommaTexts(d[..k]), d[k..])
  {
    if k == 0 {
      assert d[..0] == [] && acc + NonCommaTexts([]) == acc;
    } else {
      assert d[..k] == [d[0]] + d[1..][..k - 1];
      NonCommaTextsCons(d[0], d[1..][..k - 1]);
      assert ReturnsStop(d[1..], k - 1) by {
        assert forall i :: 0 <= i < k - 1 ==> d[1..][i] == d[i + 1];
      }
      if IsKw(d[0], ",") {
        FuncReturnsAt(d[1..], acc, k - 1);
      } else {
        FuncReturnsAt(d[1..], acc + [d[0].text], k - 1);
        assert acc + [d[0].text] + NonCommaTexts(d[1..][..k - 1]) == acc + NonCommaTexts(d[..k]);
      }
      assert d[1..][k - 1..] == d[k..];
    }
  }

  /** Every token sequence has a stop for the return loop. */
  lemma {:induction false} ReturnsStopExists(d: seq<Token>) returns (k: nat)
    ensures ReturnsStop(d, k)
  {
    k := 0;
    while k < |d| && (IsKw(d[k], ",") || IsReturnToken(d[k]))
      invariant k <= |d|
      invariant forall i :: 0 <= i < k ==> IsKw(d[i], ",") || IsReturnToken(d[i])
    {
      k := k + 1;
    }
  }

  /** The return clause: with fewer than two tokens after `)` or no `->`,
      the signature has no return types and keeps every token after `)`;
      otherwise the return types are the identifiers and type names after
      `->` and one optional `(`, up to the return loop's stop, which is
      left unconsumed. The clause never fails. */
  lemma FuncTailReturns(name: Text, params: seq<Field>, after: seq<Token>)
    ensures |after| < 2 || !IsKw(after[0], "->") ==>
      FuncTail(name, params, after) == Done(Func(name, params, []), after)
    ensures |after| >= 2 && IsKw(after[0], "->") ==>
      exists k: nat :: ReturnsStop(ReturnList(after), k) &&
        FuncTail(name, params, after) ==
          Done(Func(name, params, NonCommaTexts(ReturnList(after)[..k])), ReturnList(after)[k..])
  {
    if |after| >= 2 && IsKw(after[0], "->") {
      var k := ReturnsStopExists(ReturnList(after));
      FuncReturnsAt(ReturnList(after), [], k);
      assert [] + NonCommaTexts(ReturnList(after)[..k]) == NonCommaTexts(ReturnList(after)[..k]);
    }
  }

  /** A parenthesised return list closed by `)` leaves that `)` at the
      head of the remainder. */
  lemma ReturnParenLeft(name: Text, params: seq<Field>, after: seq<Token>, k: nat)
    requires |after| >= 3 && IsKw(after[0], "->") && IsKw(after[1], "(")
    requires k < |after| - 2 && IsKw(after[2 + k], ")")
    requires forall i :: 2 <= i < 2 + k ==> IsKw(after[i], ",") || IsReturnToken(after[i])
    ensures FuncTail(name, params, after).rest == after[2 + k..]
    ensures |FuncTail(name, params, after).rest| > 0 && IsKw(FuncTail(name, params, after).rest[0], ")")
  {
    var list := ReturnList(after);
    assert list == after[2..];
    assert forall i :: 0 <= i < k ==> list[i] == after[2 + i];
    KeywordsDiffer(list[k], ")", ",");
    assert ReturnsStop(list, k);
    FuncReturnsAt(list, [], k);
    assert list[k..] == after[2 + k..];
  }

  // ---------------------------------------------------------------------
  // Interfaces

  /** `ms` are the signatures parsed one after another from `d`, each
      starting at a token other than `}`, ending at `stop`. */
  ghost predicate MethodChain(d: seq<Token>, ms: seq<Func>, stop: seq<Token>)
    decreases |ms|
  {
    if ms == [] then d == stop
    else
      |d| > 0 && !IsKw(d[0], "}") && ParsedFunc(d).Done? && ParsedFunc(d).node == ms[0] &&
      MethodChain(ParsedFunc(d).rest, ms[1..], stop)
  }

  /** Running the method loop along a chain of signatures lands at the
      chain's end with those signatures appended in order. */
  lemma {:induction false} InterfaceMethodsAt(name: Text, body: seq<Token>, methods: seq<Func>, ms: seq<Func>, stop: seq<Token>)
    requires MethodChain(body, ms, stop)
    ensures InterfaceMethods(name, body, methods) == InterfaceMethods(name, stop, methods + ms)
    decreases |ms|
  {
    if ms == [] {
      assert methods + ms == methods;
    } else {
      var rem := ParsedFunc(body).rest;
      InterfaceMethodsStep(name, body, methods);
      InterfaceMethodsAt(name, rem, methods + [ms[0]], ms[1..], stop);
      AppendHeadTail(methods, ms);
    }
  }

  /** One turn of the method loop. */
  lemma InterfaceMethodsStep(name: Text, body: seq<Token>, methods: seq<Func>)
    requires |body| > 0 && !IsKw(body[0], "}") && ParsedFunc(body).Done?
    ensures InterfaceMethods(name, body, methods) ==
      InterfaceMethods(name, ParsedFunc(body).rest, methods + [ParsedFunc(body).node])
  {
  }

  /** A successful method loop follows a chain of signatures to a `}`. */
  lemma {:induction false} InterfaceMethodsChain(name: Text, body: seq<Token>, methods: seq<Func>)
    returns (ms: seq<Func>, stop: seq<Token>)
    requires InterfaceMethods(name, body, methods).Done?
    ensures MethodChain(body, ms, stop) && |stop| > 0 && IsKw(stop[0], "}")
    decreases |body|
  {
    if IsKw(body[0], "}") {
      ms, stop := [], body;
    } else {
      var m := ParsedFunc(body).node;
      var rem := ParsedFunc(body).rest;
      InterfaceMethodsStep(name, body, methods);
      var ms', stop' := InterfaceMethodsChain(name, rem, methods + [m]);
      ms, stop := [m] + ms', stop';
      assert ms[0] == m && ms[1..] == ms';
    }
  }

  /** Every successful method loop is such a chain, ending at a `}`; the
      interface's methods are those of the chain in order and the
      remainder is what follows the `}`. */
  lemma InterfaceMethodsDone(name: Text, body: seq<Token>, methods: seq<Func>)
    returns (ms: seq<Func>, stop: seq<Token>)
    requires InterfaceMethods(name, body, methods).Done?
    ensures MethodChain(body, ms, stop) && |stop| > 0 && IsKw(stop[0], "}")
    ensures InterfaceMethods(name, body, methods) == Done(Interface(name, methods + ms), stop[1..])
  {
    ms, stop := InterfaceMethodsChain(name, body, methods);
    InterfaceMethodsAt(name, body, methods, ms, stop);
  }

  /** What a successful interface parse read: `interface`, the name and
      `{`, then a chain of signatures in source order closed by `}`, with
      the remainder after it. */
  lemma InterfaceDone(data: seq<Token>)
    requires ParsedInterface(data).Done?
    ensures var i := ParsedInterface(data).node;
      |data| >= 4 && IsKw(data[0], "interface") && data[1].kind == Identifier && IsKw(data[2], "{") &&
      i.name == data[1].text &&
      exists stop :: MethodChain(data[3..], i.methods, stop) && |stop| > 0 && IsKw(stop[0], "}") &&
        ParsedInterface(data).rest == stop[1..]
  {
    var ms, stop := InterfaceMethodsDone(data[1].text, data[3..], []);
    assert [] + ms == ms;
  }

  /** After a chain of signatures, the loop fails with end of input when
      the tokens are used up, with the signature's error when the next one
      fails, and diverges when the next one diverges. */
  lemma InterfaceStall(name: Text, body: seq<Token>, ms: seq<Func>, stop: seq<Token>)
    requires MethodChain(body, ms, stop)
    ensures |stop| == 0 ==> InterfaceMethods(name, body, []) == Fail(UnexpectedEndOfInput)
    ensures |stop| > 0 && !IsKw(stop[0], "}") && ParsedFunc(stop).Fail? ==>
      InterfaceMethods(name, body, []) == Fail(ParsedFunc(stop).error)
    ensures |stop| > 0 && !IsKw(stop[0], "}") && ParsedFunc(stop).Diverges? ==>
      InterfaceMethods(name, body, []) == Diverges
  {
    InterfaceMethodsAt(name, body, [], ms, stop);
  }

  // ---------------------------------------------------------------------
  // Header errors

  /** The header errors of a struct: fewer than four tokens (so `struct s {`
      alone) is an end-of-input error; a missing `struct`, a name that is
      not an identifier or a missing `{` is an unexpected token. */
  lemma StructHeaderFail(data: seq<Token>)
    ensures |data| < 4 ==> ParsedStruct(data) == Fail(UnexpectedEndOfInput)
    ensures |data| >= 4 && (!IsKw(data[0], "struct") || data[1].kind != Identifier || !IsKw(data[2], "{")) ==>
      ParsedStruct(data) == Fail(UnexpectedToken)
  {
  }

  /** The header errors of a signature: fewer than four tokens is an
      end-of-input error; a missing `func`, a name that is not an
      identifier or a missing `(` is an unexpected token. */
  lemma FuncHeaderFail(data: seq<Token>)
    ensures |data| < 4 ==> ParsedFunc(data) == Fail(UnexpectedEndOfInput)
    ensures |data| >= 4 && (!IsKw(data[0], "func") || data[1].kind != Identifier || !IsKw(data[2], "(")) ==>
      ParsedFunc(data) == Fail(UnexpectedToken)
  {
  }

  /** The header errors of an interface: fewer than four tokens is an
      end-of-input error; a missing `interface`, a name that is not an
      identifier or a missing `{` is an unexpected token. */
  lemma InterfaceHeaderFail(data: seq<Token>)
    ensures |data| < 4 ==> ParsedInterface(data) == Fail(UnexpectedEndOfInput)
    ensures |data| >= 4 && (!IsKw(data[0], "interface") || data[1].kind != Identifier || !IsKw(data[2], "{")) ==>
      ParsedInterface(data) == Fail(UnexpectedToken)
  {
  }
}
