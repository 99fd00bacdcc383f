/** The token model shared by the lexer and the declaration parsers. */
module Tokens {

  /** A raw source byte. Source text is a byte slice; a byte is kept as a
      character below 256 so that keyword spellings can be written as
      string literals. */
  type Byte = c: char | c as int < 256

  /** One kind for every token class either stage speaks of. The lexer
      produces the first nine; `Type` (a built-in scalar type spelling) is
      only ever consumed by the declaration parsers. */
  datatype TokenKind =
    | Keyword
    | String
    | Character
    | Integer
    | Float
    | Bool
    | Symbol
    | Identifier
    | Space
    | Type

  /** A decimal digit byte, as the lexer and the length conversion read it. */
  predicate IsDigit(b: Byte) { '0' <= b <= '9' }

  datatype Token = Token(kind: TokenKind, text: seq<Byte>)

  /** The two error kinds of both stages. */
  datatype ParseError = UnexpectedEndOfInput | UnexpectedToken

  datatype Option<T> = None | Some(value: T)

  datatype Result<T> = Ok(value: T) | Err(error: ParseError)

  /** True when `t` is the keyword spelled `s`. */
  predicate IsKw(t: Token, s: string) {
    t.kind == Keyword && t.text == s
  }

  /** Two different one-character keywords are told apart. */
  lemma KeywordsDiffer(t: Token, s: string, u: string)
    requires |s| == 1 && |u| == 1 && s[0] != u[0] && IsKw(t, s)
    ensures !IsKw(t, u)
  {
    assert t.text[0] == s[0];
  }

  /** `r` is a suffix of `s`. */
  ghost predicate IsSuffix<T>(r: seq<T>, s: seq<T>) {
    |r| <= |s| && r == s[|s| - |r|..]
  }

  lemma SuffixTransitive<T>(a: seq<T>, b: seq<T>, c: seq<T>)
    requires IsSuffix(a, b) && IsSuffix(b, c)
    ensures IsSuffix(a, c)
  {
    assert c[|c| - |b|..][|b| - |a|..] == c[|c| - |a|..];
  }

  lemma SuffixDrop<T>(s: seq<T>, k: nat)
    requires k <= |s|
    ensures IsSuffix(s[k..], s)
  {
  }

  /** Appending the head of `b` and then its tail appends `b`. */
  lemma AppendHeadTail<T>(a: seq<T>, b: seq<T>)
    requires |b| > 0
    ensures a + [b[0]] + b[1..] == a + b
  {
    assert b == [b[0]] + b[1..];
  }
}
