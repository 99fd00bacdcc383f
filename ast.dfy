/** Declaration nodes built by the declaration parsers, and the outcome
    every production returns. */
module Ast {
  import opened Tokens

  type Text = seq<Byte>

  /** The type of a field, tagged as the field's kind tag says. `Untyped` is
      the zero field left when the type token is neither a type name nor a
      keyword. */
  datatype FieldType =
    | Scalar(typeName: Text)
    | ArrayType(arr: Array)
    | StructType(decl: Struct)
    | InterfaceType(iface: Interface)
    | Untyped

  datatype Field = Field(name: Text, ty: FieldType)

  datatype Struct = Struct(name: Text, fields: seq<Field>)

  datatype Func = Func(name: Text, params: seq<Field>, returnTypes: seq<Text>)

  datatype Interface = Interface(name: Text, methods: seq<Func>)

  datatype Array = Array(length: int, elemType: Text, values: seq<Text>)

  datatype Enum = Enum(name: Text, backing: Text, members: seq<Text>)

  /** A production's outcome: the node and the unconsumed tokens, one of the
      two errors, or `Diverges` when a body loop would repeat forever on the
      same tokens because a field consumed nothing. */
  datatype Parsed<T> = Done(node: T, rest: seq<Token>) | Fail(error: ParseError) | Diverges

  /** Texts of the tokens of `ts`, in order. */
  function Texts(ts: seq<Token>): (r: seq<Text>)
    ensures |r| == |ts| && forall k :: 0 <= k < |ts| ==> r[k] == ts[k].text
  {
    if ts == [] then [] else [ts[0].text] + Texts(ts[1..])
  }

  lemma TextsCons(t: Token, ts: seq<Token>)
    ensures Texts([t] + ts) == [t.text] + Texts(ts)
  {
    assert ([t] + ts)[1..] == ts;
  }

  /** Texts of the tokens of `ts` that are not commas, in order. */
  function NonCommaTexts(ts: seq<Token>): seq<Text> {
    if ts == [] then []
    else if IsKw(ts[0], ",") then NonCommaTexts(ts[1..])
    else [ts[0].text] + NonCommaTexts(ts[1..])
  }

  lemma NonCommaTextsCons(t: Token, ts: seq<Token>)
    ensures NonCommaTexts([t] + ts) ==
      (if IsKw(t, ",") then [] else [t.text]) + NonCommaTexts(ts)
  {
    assert ([t] + ts)[1..] == ts;
  }

  /** Two items separated by a comma give their two texts. */
  lemma NonCommaPair(a: Token, b: Token)
    requires !IsKw(a, ",") && !IsKw(b, ",")
    ensures NonCommaTexts([a, Token(Keyword, ","), b]) == [a.text, b.text]
  {
    var comma := Token(Keyword, ",");
    assert [a, comma, b] == [a] + ([comma] + ([b] + []));
    NonCommaTextsCons(b, []);
    NonCommaTextsCons(comma, [b] + []);
    NonCommaTextsCons(a, [comma] + ([b] + []));
  }
}
