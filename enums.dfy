/** The enum production of parser/enum.go: `enum` name, an optional
    `: type` backing type (default `i32`), then identifier members up to
    `}`. */
module Enums {
  import opened Tokens
  import opened Ast

  /** The backing type an enum gets when none is written. */
  const DefaultBacking: Text := "i32"

  /** Backing types must start with `i`, `u` or `f`; the default backing
      is one. */
  predicate IsNumericTypeName(s: Text): (b: bool)
    ensures b <==> "i" <= s || "u" <= s || "f" <= s
    ensures s == DefaultBacking ==> b
  {
    |s| > 0 && (s[0] == 'i' || s[0] == 'u' || s[0] == 'f')
  }

  /** The member loop over `body`, with `members` collected so far. */
  function EnumMembers(name: Text, backing: Text, body: seq<Token>, members: seq<Text>): (r: Parsed<Enum>)
    ensures !r.Diverges?
    ensures r.Done? ==> |r.rest| < |body| && IsSuffix(r.rest, body)
    ensures r.Done? ==> r.node.name == name && r.node.backing == backing
  {
    if |body| == 0 then Fail(UnexpectedEndOfInput)
    else if IsKw(body[0], "}") then Done(Enum(name, backing, members), body[1..])
    else if body[0].kind != Identifier then Fail(UnexpectedToken)
    else EnumMembers(name, backing, body[1..], members + [body[0].text])
  }

  /** The enum production. */
  function ParsedEnum(data: seq<Token>): (r: Parsed<Enum>)
    ensures !r.Diverges?
    ensures r.Done? ==> IsSuffix(r.rest, data) && |r.rest| < |data|
  {
    if |data| < 4 then Fail(UnexpectedEndOfInput)
    else if !IsKw(data[0], "enum") then Fail(UnexpectedToken)
    else if data[1].kind != Identifier then Fail(UnexpectedToken)
    else if !(IsKw(data[2], ":") || IsKw(data[2], "{")) then Fail(UnexpectedToken)
    else if IsKw(data[2], ":") then
      if |data| < 5 then Fail(UnexpectedEndOfInput)
      else if data[3].kind != Type || !IsNumericTypeName(data[3].text) then Fail(UnexpectedToken)
      else if !IsKw(data[4], "{") then Fail(UnexpectedToken)
      else
        SuffixDrop(data, 5);
        var r := EnumMembers(data[1].text, data[3].text, data[5..], []);
        if r.Done? then SuffixTransitive(r.rest, data[5..], data); r else r
    else
      SuffixDrop(data, 3);
      var r := EnumMembers(data[1].text, DefaultBacking, data[3..], []);
      if r.Done? then SuffixTransitive(r.rest, data[3..], data); r else r
  }

  /** The header errors of an enum: fewer than four tokens, or `enum name :`
      with nothing after it, is an end-of-input error; a missing `enum`, a
      name that is not an identifier, a third token other than `:` or `{`,
      a backing type that is not a numeric type name, or a missing `{`
      after it is an unexpected token. */
  lemma EnumHeaderFail(data: seq<Token>)
    ensures |data| < 4 ==> ParsedEnum(data) == Fail(UnexpectedEndOfInput)
    ensures (|data| >= 4 && (!IsKw(data[0], "enum") || data[1].kind != Identifier ||
                             !(IsKw(data[2], ":") || IsKw(data[2], "{")))) ==>
      ParsedEnum(data) == Fail(UnexpectedToken)
    ensures |data| == 4 && IsKw(data[0], "enum") && data[1].kind == Identifier && IsKw(data[2], ":") ==>
      ParsedEnum(data) == Fail(UnexpectedEndOfInput)
    ensures (|data| >= 5 && IsKw(data[0], "enum") && data[1].kind == Identifier && IsKw(data[2], ":") &&
             (data[3].kind != Type || !IsNumericTypeName(data[3].text) || !IsKw(data[4], "{"))) ==>
      ParsedEnum(data) == Fail(UnexpectedToken)
  {
  }

  method ParseEnum(data: seq<Token>) returns (r: Parsed<Enum>)
    ensures r == ParsedEnum(data)
  {
    if |data| < 4 {
      return Fail(UnexpectedEndOfInput);
    }
    if !IsKw(data[0], "enum") {
      return Fail(UnexpectedToken);
    }
    if data[1].kind != Identifier {
      return Fail(UnexpectedToken);
    }
    var name := data[1].text;
    if !(IsKw(data[2], ":") || IsKw(data[2], "{")) {
      return Fail(UnexpectedToken);
    }
    var typ: Text;
    var body: seq<Token>;
    if IsKw(data[2], ":") {
      if |data| < 5 {
        return Fail(UnexpectedEndOfInput);
      }
      if data[3].kind != Type || !IsNumericTypeName(data[3].text) {
        return Fail(UnexpectedToken);
      }
      if !IsKw(data[4], "{") {
        return Fail(UnexpectedToken);
      }
      typ := data[3].text;
      body := data[5..];
    } else {
      typ := DefaultBacking;
      body := data[3..];
    }
    var values: seq<Text> := [];
    while true
      invariant ParsedEnum(data) == EnumMembers(name, typ, body, values)
      decreases |body|
    {
      if |body| == 0 {
        return Fail(UnexpectedEndOfInput);
      }
      if IsKw(body[0], "}") {
        break;
      }
      if body[0].kind != Identifier {
        return Fail(UnexpectedToken);
      }
      values := values + [body[0].text];
      body := body[1..];
    }
    return Done(Enum(name, typ, values), body[1..]);
  }

  /** The members of `body` before index `j` are identifiers and `body[j]`
      closes the enum. */
  predicate MembersUpTo(body: seq<Token>, j: nat) {
    j < |body| && IsKw(body[j], "}") &&
    forall k :: 0 <= k < j ==> body[k].kind == Identifier
  }

  /** A successful member loop stops at a `}` preceded only by
      identifiers. */
  lemma {:induction false} EnumMembersStop(name: Text, backing: Text, body: seq<Token>, members: seq<Text>)
    returns (j: nat)
    requires EnumMembers(name, backing, body, members).Done?
    ensures MembersUpTo(body, j)
  {
    if IsKw(body[0], "}") {
      j := 0;
    } else {
      var k := EnumMembersStop(name, backing, body[1..], members + [body[0].text]);
      j := k + 1;
      assert forall i :: 1 <= i < j ==> body[i] == body[1..][i - 1];
    }
  }

  /** Conversely, identifiers closed by `}` always make the member loop
      succeed, with their texts as the members. */
  lemma {:induction false} EnumMembersUpTo(name: Text, backing: Text, body: seq<Token>, j: nat, members: seq<Text>)
    requires MembersUpTo(body, j)
    ensures EnumMembers(name, backing, body, members) ==
      Done(Enum(name, backing, members + Texts(body[..j])), body[j + 1..])
  {
    if j == 0 {
      assert body[..0] == [] && members + Texts([]) == members;
    } else {
      EnumMembersStep(name, backing, body, j, members);
      EnumMembersUpTo(name, backing, body[1..], j - 1, members + [body[0].text]);
      assert body[1..][j - 1 + 1..] == body[j + 1..];
    }
  }

  /** One turn of the member loop before its `}`. */
  lemma EnumMembersStep(name: Text, backing: Text, body: seq<Token>, j: nat, members: seq<Text>)
    requires MembersUpTo(body, j) && j > 0
    ensures MembersUpTo(body[1..], j - 1)
    ensures EnumMembers(name, backing, body, members) ==
      EnumMembers(name, backing, body[1..], members + [body[0].text])
    ensures (members + [body[0].text]) + Texts(body[1..][..j - 1]) == members + Texts(body[..j])
  {
    assert body[0].kind == Identifier;
    assert forall k :: 0 <= k < j - 1 ==> body[1..][k] == body[k + 1];
    assert body[..j] == [body[0]] + body[1..][..j - 1];
    TextsCons(body[0], body[1..][..j - 1]);
  }

  /** Every successful member loop stops at the first `}`, at index `j`:
      the tokens before it are identifiers, their texts become the members
      in order, and the remainder is what follows the `}`. */
  lemma EnumMembersDone(name: Text, backing: Text, body: seq<Token>, members: seq<Text>)
    returns (j: nat)
    requires EnumMembers(name, backing, body, members).Done?
    ensures MembersUpTo(body, j)
    ensures EnumMembers(name, backing, body, members) ==
      Done(Enum(name, backing, members + Texts(body[..j])), body[j + 1..])
  {
    j := EnumMembersStop(name, backing, body, members);
    EnumMembersUpTo(name, backing, body, j, members);
  }

  /** Before the first `}`, a token that is not an identifier is an
      unexpected-token error, and running out of tokens is an end-of-input
      error. */
  lemma {:induction false} EnumMembersFail(name: Text, backing: Text, body: seq<Token>, members: seq<Text>)
    requires forall k :: 0 <= k < |body| ==> !IsKw(body[k], "}")
    ensures EnumMembers(name, backing, body, members) ==
      if forall k :: 0 <= k < |body| ==> body[k].kind == Identifier then Fail(UnexpectedEndOfInput)
      else Fail(UnexpectedToken)
  {
    if |body| > 0 && body[0].kind == Identifier {
      EnumMembersFail(name, backing, body[1..], members + [body[0].text]);
      assert forall k :: 1 <= k < |body| ==> body[k] == body[1..][k - 1];
    }
  }

  /** What a successful enum parse read: the header, the backing type (the
      written numeric type after `:`, `i32` otherwise) and the identifier
      members in order up to the first `}`, with the remainder after it. */
  lemma EnumDone(data: seq<Token>)
    requires ParsedEnum(data).Done?
    ensures var e := ParsedEnum(data).node;
      |data| >= 4 && IsKw(data[0], "enum") && data[1].kind == Identifier && e.name == data[1].text &&
      var start := if IsKw(data[2], ":") then 5 else 3;
      (if IsKw(data[2], ":") then
         |data| >= 5 && data[3].kind == Type && IsNumericTypeName(data[3].text) &&
         IsKw(data[4], "{") && e.backing == data[3].text
       else
         IsKw(data[2], "{") && e.backing == DefaultBacking) &&
      exists j: nat :: MembersUpTo(data[start..], j) && e.members == Texts(data[start..][..j]) &&
        ParsedEnum(data).rest == data[start..][j + 1..]
  {
    var start := if IsKw(data[2], ":") then 5 else 3;
    var backing := if IsKw(data[2], ":") then data[3].text else DefaultBacking;
    var j := EnumMembersDone(data[1].text, backing, data[start..], []);
    assert [] + Texts(data[start..][..j]) == Texts(data[start..][..j]);
  }

  /** An enum without a backing type is its member loop run from after
      the `{`, with the default backing. */
  lemma EnumOfBody(data: seq<Token>)
    requires |data| >= 4 && IsKw(data[0], "enum") && data[1].kind == Identifier && IsKw(data[2], "{")
    ensures ParsedEnum(data) == EnumMembers(data[1].text, DefaultBacking, data[3..], [])
  {
    KeywordsDiffer(data[2], "{", ":");
  }

  /** An enum with a backing type is its member loop run from after the
      `{`, provided the type name is numeric. */
  lemma TypedEnumOfBody(data: seq<Token>)
    requires |data| >= 5 && IsKw(data[0], "enum") && data[1].kind == Identifier && IsKw(data[2], ":")
    requires data[3].kind == Type && IsKw(data[4], "{")
    ensures ParsedEnum(data) ==
      if IsNumericTypeName(data[3].text) then EnumMembers(data[1].text, data[3].text, data[5..], [])
      else Fail(UnexpectedToken)
  {
  }

  /** The member loop over `<a> <b> <c> }` collects the three names. */
  lemma ThreeMembers(name: Text, backing: Text, a: Token, b: Token, c: Token)
    requires a.kind == Identifier && b.kind == Identifier && c.kind == Identifier
    ensures EnumMembers(name, backing, [a, b, c, Token(Keyword, "}")], []) ==
      Done(Enum(name, backing, [a.text, b.text, c.text]), [])
  {
    var body := [a, b, c, Token(Keyword, "}")];
    assert body[..3] == [a, b, c] && body[4..] == [];
    EnumMembersUpTo(name, backing, body, 3, []);
    assert Texts([a, b, c]) == [a.text, b.text, c.text];
    assert [] + [a.text, b.text, c.text] == [a.text, b.text, c.text];
  }

  /** `enum color { red green blue }` has the backing type `i32` and the
      members red, green and blue. */
  lemma ColorExample()
    ensures ParsedEnum([Token(Keyword, "enum"), Token(Identifier, "color"), Token(Keyword, "{"),
      Token(Identifier, "red"), Token(Identifier, "green"), Token(Identifier, "blue"), Token(Keyword, "}")]) ==
      Done(Enum("color", "i32", ["red", "green", "blue"]), [])
  {
    var data := [Token(Keyword, "enum"), Token(Identifier, "color"), Token(Keyword, "{"),
      Token(Identifier, "red"), Token(Identifier, "green"), Token(Identifier, "blue"), Token(Keyword, "}")];
    EnumOfBody(data);
    assert data[3..] == [Token(Identifier, "red"), Token(Identifier, "green"), Token(Identifier, "blue"), Token(Keyword, "}")];
    ThreeMembers("color", DefaultBacking, Token(Identifier, "red"), Token(Identifier, "green"), Token(Identifier, "blue"));
  }

  /** The member loop over `<a> }` collects the one name. */
  lemma OneMember(name: Text, backing: Text, a: Token)
    requires a.kind == Identifier
    ensures EnumMembers(name, backing, [a, Token(Keyword, "}")], []) == Done(Enum(name, backing, [a.text]), [])
  {
    var body := [a, Token(Keyword, "}")];
    assert body[1..] == [Token(Keyword, "}")] && body[1..][1..] == [];
    assert [] + [a.text] == [a.text];
  }

  /** `enum color: u8 { red }` has the backing type `u8`. */
  lemma TypedColorExample()
    ensures ParsedEnum([Token(Keyword, "enum"), Token(Identifier, "color"), Token(Keyword, ":"),
      Token(Type, "u8"), Token(Keyword, "{"), Token(Identifier, "red"), Token(Keyword, "}")]) ==
      Done(Enum("color", "u8", ["red"]), [])
  {
    var typed := [Token(Keyword, "enum"), Token(Identifier, "color"), Token(Keyword, ":"),
      Token(Type, "u8"), Token(Keyword, "{"), Token(Identifier, "red"), Token(Keyword, "}")];
    TypedEnumOfBody(typed);
    assert typed[5..] == [Token(Identifier, "red"), Token(Keyword, "}")];
    OneMember("color", "u8", Token(Identifier, "red"));
  }

  /** A backing type that is not numeric, such as `string` in
      `enum color: string { red }`, is refused. */
  lemma StringBackingRefused()
    ensures ParsedEnum([Token(Keyword, "enum"), Token(Identifier, "color"), Token(Keyword, ":"),
      Token(Type, "string"), Token(Keyword, "{"), Token(Identifier, "red"), Token(Keyword, "}")]) ==
      Fail(UnexpectedToken)
  {
    var refused := [Token(Keyword, "enum"), Token(Identifier, "color"), Token(Keyword, ":"),
      Token(Type, "string"), Token(Keyword, "{"), Token(Identifier, "red"), Token(Keyword, "}")];
    TypedEnumOfBody(refused);
    var str: seq<Byte> := "string";
    assert !IsNumericTypeName(str);
  }
}
