/** The fixed-size array production of parser/array.go:
    `[` Integer `]` Type, then an optional `{` literal list `}` whose
    length may not exceed the declared one. */
module Arrays {
  import opened Tokens
  import opened Ast

  const MinInt64: int := -0x8000_0000_0000_0000
  const MaxInt64: int := 0x7FFF_FFFF_FFFF_FFFF

  predicate AllDigits(s: seq<Byte>) {
    forall i :: 0 <= i < |s| ==> IsDigit(s[i])
  }

  /** The natural number a string of decimal digits denotes. */
  function DigitsValue(s: seq<Byte>): nat
    requires AllDigits(s)
  {
    if |s| == 0 then 0
    else DigitsValue(s[..|s| - 1]) * 10 + (s[|s| - 1] as int - '0' as int)
  }

  /** Decimal conversion of a length: an optional sign and at least one
      digit, with the value inside the signed 64-bit range; anything else
      is refused. */
  function Atoi(s: seq<Byte>): (r: Option<int>)
    ensures r.Some? ==> MinInt64 <= r.value <= MaxInt64
    ensures r.Some? ==> |s| > 0 && (AllDigits(s) || (s[0] in "+-" && |s| > 1 && AllDigits(s[1..])))
    ensures r.Some? && r.value < 0 ==> s[0] == '-'
  {
    var neg := |s| > 0 && s[0] == '-';
    var digits := if |s| > 0 && (s[0] == '-' || s[0] == '+') then s[1..] else s;
    if |digits| == 0 || !AllDigits(digits) then None
    else
      var n: int := DigitsValue(digits);
      var v := if neg then -n else n;
      if MinInt64 <= v <= MaxInt64 then Some(v) else None
  }

  /** A plain digit string converts to the number it denotes, as long as
      that number fits in 64 bits. */
  lemma AtoiOfDigits(s: seq<Byte>)
    requires |s| > 0 && AllDigits(s)
    ensures Atoi(s) == if DigitsValue(s) <= MaxInt64 then Some(DigitsValue(s)) else None
  {
  }

  /** The kinds accepted inside an initializer. */
  predicate IsLiteral(k: TokenKind) {
    k == String || k == Integer || k == Float || k == Bool || k == Identifier
  }

  /** The initializer loop, from index `i` of `data` with `values`
      collected so far. */
  function ArrayValues(data: seq<Token>, length: int, typ: Text, i: nat, values: seq<Text>): (r: Parsed<Array>)
    requires i <= |data|
    decreases |data| - i
    ensures !r.Diverges?
    ensures r.Done? ==> |r.rest| < |data| - i && r.rest == data[|data| - |r.rest|..]
  {
    if i == |data| then Fail(UnexpectedEndOfInput)
    else if IsKw(data[i], ",") then ArrayValues(data, length, typ, i + 1, values)
    else if IsKw(data[i], "}") then
      if |values| > length then Fail(UnexpectedToken)
      else Done(Array(length, typ, values), data[i + 1..])
    else if !IsLiteral(data[i].kind) then Fail(UnexpectedToken)
    else ArrayValues(data, length, typ, i + 1, values + [data[i].text])
  }

  /** The array production. */
  function ParsedArray(data: seq<Token>): (r: Parsed<Array>)
    ensures !r.Diverges?
    ensures r.Done? ==> IsSuffix(r.rest, data) && |r.rest| < |data|
  {
    if |data| < 4 then Fail(UnexpectedEndOfInput)
    else if !IsKw(data[0], "[") then Fail(UnexpectedToken)
    else if data[1].kind != Integer then Fail(UnexpectedToken)
    else if !IsKw(data[2], "]") then Fail(UnexpectedToken)
    else if Atoi(data[1].text).None? then Fail(UnexpectedToken)
    else if data[3].kind != Type then Fail(UnexpectedToken)
    else
      var length := Atoi(data[1].text).value;
      var typ := data[3].text;
      if |data| < 5 || !IsKw(data[4], "{") then Done(Array(length, typ, []), data[3..])
      else ArrayValues(data, length, typ, 5, [])
  }

  /** The header errors of an array: fewer than four tokens is an
      end-of-input error; a missing `[`, a length that is not an integer
      token or does not convert, a missing `]` or an element type that is
      not a type name is an unexpected token. */
  lemma ArrayHeaderFail(data: seq<Token>)
    ensures |data| < 4 ==> ParsedArray(data) == Fail(UnexpectedEndOfInput)
    ensures (|data| >= 4 && (!IsKw(data[0], "[") || data[1].kind != Integer || !IsKw(data[2], "]") ||
                             Atoi(data[1].text).None? || data[3].kind != Type)) ==>
      ParsedArray(data) == Fail(UnexpectedToken)
  {
  }

  method ParseArray(data: seq<Token>) returns (r: Parsed<Array>)
    ensures r == ParsedArray(data)
  {
    if |data| < 4 {
      return Fail(UnexpectedEndOfInput);
    }
    if !IsKw(data[0], "[") {
      return Fail(UnexpectedToken);
    }
    if data[1].kind != Integer {
      return Fail(UnexpectedToken);
    }
    if !IsKw(data[2], "]") {
      return Fail(UnexpectedToken);
    }
    var length := Atoi(data[1].text);
    if length.None? {
      return Fail(UnexpectedToken);
    }
    if data[3].kind != Type {
      return Fail(UnexpectedToken);
    }
    var typ := data[3].text;
    if |data| < 5 || !IsKw(data[4], "{") {
      return Done(Array(length.value, typ, []), data[3..]);
    }
    var values: seq<Text> := [];
    var i := 5;
    while i < |data|
      invariant 5 <= i <= |data|
      invariant ParsedArray(data) == ArrayValues(data, length.value, typ, i, values)
    {
      if IsKw(data[i], ",") {
        i := i + 1;
        continue;
      }
      if IsKw(data[i], "}") {
        if |values| > length.value {
          return Fail(UnexpectedToken);
        }
        return Done(Array(length.value, typ, values), data[i + 1..]);
      }
      if !IsLiteral(data[i].kind) {
        return Fail(UnexpectedToken);
      }
      values := values + [data[i].text];
      i := i + 1;
    }
    return Fail(UnexpectedEndOfInput);
  }

  /** The initializer tokens from `i` up to the closing `}` at `j` are
      all commas and literals. */
  predicate InitializerUpTo(data: seq<Token>, i: nat, j: nat) {
    i <= j < |data| && IsKw(data[j], "}") &&
    forall k :: i <= k < j ==> IsKw(data[k], ",") || IsLiteral(data[k].kind)
  }

  /** A successful initializer reaches a `}` over commas and literals
      only. */
  lemma {:induction false} ArrayValuesStop(data: seq<Token>, length: int, typ: Text, i: nat, values: seq<Text>)
    returns (j: nat)
    requires i <= |data| && ArrayValues(data, length, typ, i, values).Done?
    ensures InitializerUpTo(data, i, j)
    decreases |data| - i
  {
    if IsKw(data[i], "}") {
      j := i;
    } else {
      var vs := if IsKw(data[i], ",") then values else values + [data[i].text];
      j := ArrayValuesStop(data, length, typ, i + 1, vs);
    }
  }

  /** Conversely, an initializer of commas and literals closed by `}`
      succeeds exactly when it holds no more values than the length, and
      fails with an unexpected token otherwise. */
  lemma {:induction false} ArrayValuesUpTo(data: seq<Token>, length: int, typ: Text, i: nat, j: nat, values: seq<Text>)
    requires InitializerUpTo(data, i, j)
    ensures ArrayValues(data, length, typ, i, values) ==
      var vs := values + NonCommaTexts(data[i..j]);
      if |vs| > length then Fail(UnexpectedToken) else Done(Array(length, typ, vs), data[j + 1..])
    decreases j - i
  {
    if i == j {
      KeywordsDiffer(data[i], "}", ",");
      assert data[i..j] == [] && values + NonCommaTexts(data[i..j]) == values;
    } else {
      var vs := ArrayValuesStep(data, length, typ, i, j, values);
      ArrayValuesUpTo(data, length, typ, i + 1, j, vs);
    }
  }

  /** One turn of the initializer loop before its `}`: a comma is skipped
      and a literal's text is collected. */
  lemma ArrayValuesStep(data: seq<Token>, length: int, typ: Text, i: nat, j: nat, values: seq<Text>)
    returns (vs: seq<Text>)
    requires InitializerUpTo(data, i, j) && i < j
    ensures InitializerUpTo(data, i + 1, j)
    ensures ArrayValues(data, length, typ, i, values) == ArrayValues(data, length, typ, i + 1, vs)
    ensures vs + NonCommaTexts(data[i + 1..j]) == values + NonCommaTexts(data[i..j])
  {
    vs := if IsKw(data[i], ",") then values else values + [data[i].text];
    if IsKw(data[i], ",") {
      KeywordsDiffer(data[i], ",", "}");
    }
    assert data[i..j] == [data[i]] + data[i + 1..j];
    NonCommaTextsCons(data[i], data[i + 1..j]);
  }

  /** Where the initializer stops before any `}`: commas and literals up
      to index `m`, then either the end of the tokens, an end-of-input
      error, or a token that is neither, an unexpected-token error. */
  lemma {:induction false} ArrayValuesFail(data: seq<Token>, length: int, typ: Text, i: nat, m: nat, values: seq<Text>)
    requires i <= m <= |data|
    requires forall k :: i <= k < m ==> IsKw(data[k], ",") || IsLiteral(data[k].kind)
    requires m < |data| ==> !IsKw(data[m], ",") && !IsKw(data[m], "}") && !IsLiteral(data[m].kind)
    ensures ArrayValues(data, length, typ, i, values) ==
      if m == |data| then Fail(UnexpectedEndOfInput) else Fail(UnexpectedToken)
    decreases m - i
  {
    if i < m {
      if IsKw(data[i], ",") {
        KeywordsDiffer(data[i], ",", "}");
        ArrayValuesFail(data, length, typ, i + 1, m, values);
      } else {
        ArrayValuesFail(data, length, typ, i + 1, m, values + [data[i].text]);
      }
    }
  }

  /** Every successful initializer ends at the first `}`, at index `j`;
      the tokens before it are commas and literals, and the values are the
      literals' texts in order, no more of them than the length. */
  lemma ArrayValuesDone(data: seq<Token>, length: int, typ: Text, i: nat, values: seq<Text>)
    returns (j: nat)
    requires i <= |data| && ArrayValues(data, length, typ, i, values).Done?
    ensures InitializerUpTo(data, i, j)
    ensures ArrayValues(data, length, typ, i, values) ==
      Done(Array(length, typ, values + NonCommaTexts(data[i..j])), data[j + 1..])
    ensures |values + NonCommaTexts(data[i..j])| <= length
  {
    j := ArrayValuesStop(data, length, typ, i, values);
    ArrayValuesUpTo(data, length, typ, i, j, values);
  }

  /** What a successful array parse consumed and built: the header, the
      decimal length, the element type, and either no initializer (the
      remainder then still starts with the element-type token) or the
      initializer's literals up to the first `}`, within the length. */
  lemma ArrayDone(data: seq<Token>)
    requires ParsedArray(data).Done?
    ensures var a := ParsedArray(data).node; var rest := ParsedArray(data).rest;
      |data| >= 4 && IsKw(data[0], "[") && data[1].kind == Integer && IsKw(data[2], "]") &&
      data[3].kind == Type && Atoi(data[1].text) == Some(a.length) && a.elemType == data[3].text &&
      if |data| >= 5 && IsKw(data[4], "{") then
        |a.values| <= a.length &&
        exists j: nat :: InitializerUpTo(data, 5, j) && rest == data[j + 1..] &&
          a.values == NonCommaTexts(data[5..j])
      else
        a.values == [] && rest == data[3..] && rest[0] == data[3]
  {
    if |data| >= 5 && IsKw(data[4], "{") {
      var j := ArrayValuesDone(data, Atoi(data[1].text).value, data[3].text, 5, []);
      assert [] + NonCommaTexts(data[5..j]) == NonCommaTexts(data[5..j]);
    }
  }

  /** A well-formed header with no `{` after it is an array without
      values whose remainder still starts with the element type. */
  lemma ArrayWithoutValues(data: seq<Token>)
    requires |data| >= 4 && IsKw(data[0], "[") && data[1].kind == Integer && IsKw(data[2], "]")
    requires Atoi(data[1].text).Some? && data[3].kind == Type
    requires |data| < 5 || !IsKw(data[4], "{")
    ensures ParsedArray(data) == Done(Array(Atoi(data[1].text).value, data[3].text, []), data[3..])
  {
  }

  /** Conversely, a well-formed header followed by an initializer of
      commas and literals closed by `}`, holding no more values than the
      length, is an array of those values with the remainder after `}`. */
  lemma ArrayWithValues(data: seq<Token>, j: nat)
    requires |data| >= 5 && IsKw(data[0], "[") && data[1].kind == Integer && IsKw(data[2], "]")
    requires Atoi(data[1].text).Some? && data[3].kind == Type && IsKw(data[4], "{")
    requires InitializerUpTo(data, 5, j)
    requires |NonCommaTexts(data[5..j])| <= Atoi(data[1].text).value
    ensures ParsedArray(data) ==
      Done(Array(Atoi(data[1].text).value, data[3].text, NonCommaTexts(data[5..j])), data[j + 1..])
  {
    ArrayValuesUpTo(data, Atoi(data[1].text).value, data[3].text, 5, j, []);
    assert [] + NonCommaTexts(data[5..j]) == NonCommaTexts(data[5..j]);
  }

  /** An initializer holding more literals than the declared length is an
      unexpected-token error. */
  lemma ArrayOverflow(data: seq<Token>, j: nat)
    requires |data| >= 5 && IsKw(data[0], "[") && data[1].kind == Integer && IsKw(data[2], "]")
    requires Atoi(data[1].text).Some? && data[3].kind == Type && IsKw(data[4], "{")
    requires InitializerUpTo(data, 5, j)
    requires |NonCommaTexts(data[5..j])| > Atoi(data[1].text).value
    ensures ParsedArray(data) == Fail(UnexpectedToken)
  {
    ArrayValuesUpTo(data, Atoi(data[1].text).value, data[3].text, 5, j, []);
  }

  /** A one-digit length converts to its value. */
  lemma AtoiDigit(s: seq<Byte>)
    requires |s| == 1 && IsDigit(s[0])
    ensures Atoi(s) == Some(s[0] as int - '0' as int)
  {
    assert s[..0] == [];
    AtoiOfDigits(s);
  }

  /** The tokens of `[<len>]i32{1,2}`. */
  function OneTwoArray(len: Token): seq<Token> {
    [Token(Keyword, "["), len, Token(Keyword, "]"), Token(Type, "i32"), Token(Keyword, "{"),
     Token(Integer, "1"), Token(Keyword, ","), Token(Integer, "2"), Token(Keyword, "}")]
  }

  lemma OneTwoTokens(len: Token)
    ensures var a := OneTwoArray(len);
      |a| == 9 && a[0] == Token(Keyword, "[") && a[1] == len && a[2] == Token(Keyword, "]") &&
      a[3] == Token(Type, "i32") && a[4] == Token(Keyword, "{") &&
      InitializerUpTo(a, 5, 8) && NonCommaTexts(a[5..8]) == ["1", "2"] && a[9..] == []
  {
    var a := OneTwoArray(len);
    assert a[5..8] == [Token(Integer, "1"), Token(Keyword, ","), Token(Integer, "2")];
    NonCommaPair(Token(Integer, "1"), Token(Integer, "2"));
  }

  /** `[1]i32{1,2}` is refused: two values exceed the length 1. */
  lemma ArrayOverflowExample()
    ensures ParsedArray(OneTwoArray(Token(Integer, "1"))) == Fail(UnexpectedToken)
  {
    OneTwoTokens(Token(Integer, "1"));
    AtoiDigit("1");
    ArrayOverflow(OneTwoArray(Token(Integer, "1")), 8);
  }

  /** `[3]i32{1,2}` is accepted with the values "1" and "2" and nothing
      left over. */
  lemma ArrayFitExample()
    ensures ParsedArray(OneTwoArray(Token(Integer, "3"))) == Done(Array(3, "i32", ["1", "2"]), [])
  {
    OneTwoTokens(Token(Integer, "3"));
    AtoiDigit("3");
    ArrayWithValues(OneTwoArray(Token(Integer, "3")), 8);
  }
}
