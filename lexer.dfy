/** The lexer of token/parse.go: nine recognizers, each turning a byte
    slice into one token and the rest of the slice, and the `Parse` driver
    that tries them in a fixed order until the input is used up. */
module Lexer {
  import opened Tokens

  /** A recognizer's success: the token and the unconsumed bytes. */
  datatype Lexed = Lexed(token: Token, rest: seq<Byte>)

  /** The outcome of the driver: the tokens found, in input order, and the
      error that stopped it, if any. */
  datatype Scan = Scan(tokens: seq<Token>, error: Option<ParseError>)

  // ---------------------------------------------------------------------
  // Character classes

  predicate IsLower(b: Byte) { 'a' <= b <= 'z' }
  predicate IsSpace(b: Byte) { b == ' ' || b == '\t' || b == '\r' || b == '\n' }

  /** The byte classes whose maximal runs the recognizers collect. */
  datatype CharClass = Digits | IdentChars | SymbolChars

  predicate InClass(b: Byte, cls: CharClass) {
    match cls
    case Digits => IsDigit(b)
    case IdentChars => IsLower(b) || IsDigit(b) || b == '_'
    case SymbolChars => IsLower(b) || IsDigit(b)
  }

  /** Length of the longest prefix of `s` whose bytes all lie in `cls`. */
  function Span(s: seq<Byte>, cls: CharClass): (n: nat)
    ensures n <= |s|
    ensures forall i :: 0 <= i < n ==> InClass(s[i], cls)
    ensures n < |s| ==> !InClass(s[n], cls)
  {
    if |s| == 0 || !InClass(s[0], cls) then 0 else 1 + Span(s[1..], cls)
  }

  /** Position of the first occurrence of `b` in `s`, if any. */
  function IndexOf(s: seq<Byte>, b: Byte): (r: Option<nat>)
    ensures r.Some? ==> r.value < |s| && s[r.value] == b
    ensures r.Some? ==> forall j :: 0 <= j < r.value ==> s[j] != b
    ensures r.None? ==> forall j :: 0 <= j < |s| ==> s[j] != b
  {
    if |s| == 0 then None
    else if s[0] == b then Some(0)
    else match IndexOf(s[1..], b)
      case Some(k) => Some(k + 1)
      case None => None
  }

  /** Length of the float-literal prefix of `s`: digits and, when `dot` is
      false, at most one '.'. A second '.' ends the run. */
  function FloatRun(s: seq<Byte>, dot: bool): (n: nat)
    ensures n <= |s|
    ensures forall i :: 0 <= i < n ==> IsDigit(s[i]) || s[i] == '.'
    ensures dot ==> forall i :: 0 <= i < n ==> s[i] != '.'
    ensures forall i, j :: 0 <= i < j < n && s[i] == '.' ==> s[j] != '.'
    ensures n < |s| ==> !IsDigit(s[n]) && (s[n] == '.' ==> dot || exists i :: 0 <= i < n && s[i] == '.')
  {
    if |s| == 0 then 0
    else if IsDigit(s[0]) then 1 + FloatRun(s[1..], dot)
    else if s[0] == '.' && !dot then 1 + FloatRun(s[1..], true)
    else 0
  }

  /** The text a token was lexed from: string and character literals lose
      their delimiters in `text`, every other token keeps all its bytes. */
  function Spelling(t: Token): seq<Byte> {
    match t.kind
    case String => ['"'] + t.text + ['"']
    case Character => ['\''] + t.text + ['\'']
    case _ => t.text
  }

  /** The source text of a token sequence. */
  function Unparse(ts: seq<Token>): seq<Byte> {
    if ts == [] then [] else Spelling(ts[0]) + Unparse(ts[1..])
  }

  // ---------------------------------------------------------------------
  // Keywords

  /** The keyword catalog, in the order in which it is searched, split into
      five consecutive runs so that membership facts can be checked one run
      at a time: entries 0-7, 8-16, 17-29, 30-42 and 43-45. */
  const KeywordsRun1: seq<seq<Byte>> :=
    ["func", "return", "if", "for", "break", "continue", "let", "mut"]
  const KeywordsRun2: seq<seq<Byte>> :=
    ["type", "struct", "enum", "interface", "match", "=>", "(", ")", "{"]
  const KeywordsRun3: seq<seq<Byte>> :=
    ["}", ":", ";", ",", "->", "<-", "<->", ".", "=", "==", "!=", "<", ">"]
  const KeywordsRun4: seq<seq<Byte>> :=
    ["<=", ">=", "+", "-", "*", "/", "%", "&&", "||", "!", "&", "|", "^"]
  const KeywordsRun5: seq<seq<Byte>> :=
    ["<<", ">>", "  "]
  const Keywords: seq<seq<Byte>> :=
    KeywordsRun1 + KeywordsRun2 + KeywordsRun3 + KeywordsRun4 + KeywordsRun5

  /** Catalog entry `k` is the first, in list order, that prefixes `buf`. */
  predicate FirstKeyword(buf: seq<Byte>, k: int) {
    0 <= k < |Keywords| && Keywords[k] <= buf &&
    forall j :: 0 <= j < k ==> !(Keywords[j] <= buf)
  }

  /** The first index at or after `i` whose entry of `catalog` prefixes
      `buf`. */
  function MatchFrom(catalog: seq<seq<Byte>>, buf: seq<Byte>, i: nat): (r: Option<nat>)
    requires i <= |catalog|
    decreases |catalog| - i
    ensures r.Some? ==> i <= r.value < |catalog| && catalog[r.value] <= buf
    ensures r.Some? ==> forall j :: i <= j < r.value ==> !(catalog[j] <= buf)
    ensures r.None? ==> forall j :: i <= j < |catalog| ==> !(catalog[j] <= buf)
  {
    if i == |catalog| then None
    else if catalog[i] <= buf then Some(i)
    else MatchFrom(catalog, buf, i + 1)
  }

  lemma KeywordsNonEmpty()
    ensures forall k :: 0 <= k < |Keywords| ==> |Keywords[k]| > 0
  {
  }

  /** The keyword recognizer: the first catalog entry that prefixes the
      input wins, whatever longer entry comes after it. */
  function ParseKeyword(buf: seq<Byte>): (r: Result<Lexed>)
    ensures r.Ok? ==> r.value.token.kind == Keyword
    ensures r.Err? ==> r.error == if |buf| == 0 then UnexpectedEndOfInput else UnexpectedToken
  {
    if |buf| == 0 then Err(UnexpectedEndOfInput)
    else match MatchFrom(Keywords, buf, 0)
      case Some(k) => Ok(Lexed(Token(Keyword, Keywords[k]), buf[|Keywords[k]|..]))
      case None => Err(UnexpectedToken)
  }

  /** The keyword recognizer succeeds exactly when some catalog entry
      prefixes the non-empty input, and then yields the first such entry
      in catalog order and the bytes after it. */
  lemma KeywordFirst(buf: seq<Byte>)
    ensures var r := ParseKeyword(buf);
      r.Ok? <==> |buf| > 0 && exists k :: 0 <= k < |Keywords| && Keywords[k] <= buf
    ensures var r := ParseKeyword(buf);
      r.Ok? ==> (exists k :: FirstKeyword(buf, k) &&
                   r.value == Lexed(Token(Keyword, Keywords[k]), buf[|Keywords[k]|..]))
  {
    if |buf| > 0 && MatchFrom(Keywords, buf, 0).Some? {
      assert FirstKeyword(buf, MatchFrom(Keywords, buf, 0).value);
    }
  }

  /** An entry `w` preceded in the catalog by one of its own prefixes
      (entry `j`), and not itself listed up to `j`, is never the first match. */
  lemma NeverFirst(buf: seq<Byte>, k: int, j: nat, w: seq<Byte>)
    requires FirstKeyword(buf, k)
    requires j < |Keywords| && Keywords[j] <= w && w !in Keywords[..j + 1]
    ensures Keywords[k] != w
  {
  }

  /** Because matching is first-in-list, an entry listed after one of its
      own prefixes is never produced: "<->" ("<-" comes first), "=="
      ("=" comes first), "<=" and "<<" ("<" comes first), ">=" and ">>"
      (">" comes first). */
  lemma ShadowedKeywords(buf: seq<Byte>)
    requires ParseKeyword(buf).Ok?
    ensures ParseKeyword(buf).value.token.text !in ["<->", "==", "<=", ">=", "<<", ">>"]
  {
    KeywordFirst(buf);
    var t := ParseKeyword(buf).value.token.text;
    var k :| FirstKeyword(buf, k) && t == Keywords[k];
    assert t != "<->" by { ArrowShadowed(); NeverFirst(buf, k, 22, "<->"); }
    assert t != "==" by { EqualsShadowed(); NeverFirst(buf, k, 25, "=="); }
    assert t != "<=" && t != "<<" by {
      LessShadowed();
      NeverFirst(buf, k, 28, "<=");
      NeverFirst(buf, k, 28, "<<");
    }
    assert t != ">=" && t != ">>" by {
      GreaterShadowed();
      NeverFirst(buf, k, 29, ">=");
      NeverFirst(buf, k, 29, ">>");
    }
  }

  lemma ArrowShadowed()
    ensures Keywords[22] == "<-" && "<->" !in Keywords[..23]
  {
    var prefix := KeywordsRun1 + KeywordsRun2 + KeywordsRun3[..6];
    assert Keywords[..23] == prefix;
    assert "<->" !in KeywordsRun1 && "<->" !in KeywordsRun2 && "<->" !in KeywordsRun3[..6];
  }

  lemma EqualsShadowed()
    ensures Keywords[25] == "=" && "==" !in Keywords[..26]
  {
    var prefix := KeywordsRun1 + KeywordsRun2 + KeywordsRun3[..9];
    assert Keywords[..26] == prefix;
    assert "==" !in KeywordsRun1 && "==" !in KeywordsRun2 && "==" !in KeywordsRun3[..9];
  }

  lemma LessShadowed()
    ensures Keywords[28] == "<" && "<=" !in Keywords[..29] && "<<" !in Keywords[..29]
  {
    var prefix := KeywordsRun1 + KeywordsRun2 + KeywordsRun3[..12];
    assert Keywords[..29] == prefix;
    assert "<=" !in KeywordsRun1 && "<=" !in KeywordsRun2 && "<=" !in KeywordsRun3[..12];
    assert "<<" !in KeywordsRun1 && "<<" !in KeywordsRun2 && "<<" !in KeywordsRun3[..12];
  }

  lemma GreaterShadowed()
    ensures Keywords[29] == ">" && ">=" !in Keywords[..30] && ">>" !in Keywords[..30]
  {
    var prefix := KeywordsRun1 + KeywordsRun2 + KeywordsRun3;
    assert Keywords[..30] == prefix;
    assert ">=" !in KeywordsRun1 && ">=" !in KeywordsRun2 && ">=" !in KeywordsRun3;
    assert ">>" !in KeywordsRun1 && ">>" !in KeywordsRun2 && ">>" !in KeywordsRun3;
  }

  // ---------------------------------------------------------------------
  // String and character literals

  /** The quoted-literal rule shared by strings and characters: the bytes
      strictly between the opening delimiter and the next one. */
  function LexQuoted(buf: seq<Byte>, quote: Byte, kind: TokenKind): (r: Result<Lexed>)
    ensures r.Ok? <==> |buf| > 0 && buf[0] == quote && exists j :: 1 <= j < |buf| && buf[j] == quote
    ensures r.Ok? ==> (r.value.token.kind == kind && quote !in r.value.token.text &&
                       [quote] + r.value.token.text + [quote] + r.value.rest == buf)
    ensures r.Err? ==> r.error == if |buf| > 0 && buf[0] != quote then UnexpectedToken else UnexpectedEndOfInput
  {
    if |buf| == 0 then Err(UnexpectedEndOfInput)
    else if buf[0] != quote then Err(UnexpectedToken)
    else match IndexOf(buf[1..], quote)
      case Some(k) =>
        SplitAt(buf, k + 1);
        assert forall j :: 0 <= j < k ==> buf[1..k + 1][j] == buf[1..][j];
        Ok(Lexed(Token(kind, buf[1..k + 1]), buf[k + 2..]))
      case None =>
        assert forall j :: 1 <= j < |buf| ==> buf[j] == buf[1..][j - 1];
        Err(UnexpectedEndOfInput)
  }

  /** `buf` is its first byte, the bytes up to `i`, the byte at `i` and
      the bytes after it. */
  lemma SplitAt(buf: seq<Byte>, i: nat)
    requires 0 < i < |buf|
    ensures buf == [buf[0]] + buf[1..i] + [buf[i]] + buf[i + 1..]
  {
    assert buf[..i] == [buf[0]] + buf[1..i];
    assert buf[i..] == [buf[i]] + buf[i + 1..];
    assert buf == buf[..i] + buf[i..];
  }

  /** The first closing delimiter, at `buf[i + 1]`, ends the literal. */
  lemma QuotedClosed(buf: seq<Byte>, quote: Byte, kind: TokenKind, i: nat)
    requires |buf| > 0 && buf[0] == quote && i + 1 < |buf| && buf[i + 1] == quote
    requires forall j :: 0 <= j < i ==> buf[1..][j] != quote
    ensures LexQuoted(buf, quote, kind) == Ok(Lexed(Token(kind, buf[1..i + 1]), buf[i + 2..]))
  {
    IndexOfUnique(buf[1..], quote, i);
  }

  /** Without a closing delimiter the literal runs out of input. */
  lemma QuotedUnclosed(buf: seq<Byte>, quote: Byte, kind: TokenKind)
    requires |buf| > 0 && buf[0] == quote
    requires forall j :: 0 <= j < |buf| - 1 ==> buf[1..][j] != quote
    ensures LexQuoted(buf, quote, kind) == Err(UnexpectedEndOfInput)
  {
    assert forall j :: 1 <= j < |buf| ==> buf[j] == buf[1..][j - 1];
  }

  lemma IndexOfUnique(s: seq<Byte>, b: Byte, i: nat)
    requires i < |s| && s[i] == b
    requires forall j :: 0 <= j < i ==> s[j] != b
    ensures IndexOf(s, b) == Some(i)
  {
  }

  method ParseQuoted(buf: seq<Byte>, quote: Byte, kind: TokenKind) returns (r: Result<Lexed>)
    ensures r == LexQuoted(buf, quote, kind)
  {
    if |buf| == 0 {
      return Err(UnexpectedEndOfInput);
    }
    if buf[0] != quote {
      return Err(UnexpectedToken);
    }
    var body := buf[1..];
    var value: seq<Byte> := [];
    for i := 0 to |body|
      invariant value == body[..i]
      invariant forall j :: 0 <= j < i ==> body[j] != quote
    {
      if body[i] == quote {
        QuotedClosed(buf, quote, kind, i);
        assert value == buf[1..i + 1] && body[i + 1..] == buf[i + 2..];
        return Ok(Lexed(Token(kind, value), body[i + 1..]));
      }
      value := value + [body[i]];
    }
    QuotedUnclosed(buf, quote, kind);
    return Err(UnexpectedEndOfInput);
  }

  method ParseString(buf: seq<Byte>) returns (r: Result<Lexed>)
    ensures r == LexQuoted(buf, '"', String)
  {
    r := ParseQuoted(buf, '"', String);
  }

  method ParseCharactor(buf: seq<Byte>) returns (r: Result<Lexed>)
    ensures r == LexQuoted(buf, '\'', Character)
  {
    r := ParseQuoted(buf, '\'', Character);
  }

  // ---------------------------------------------------------------------
  // Numbers

  /** Integer literal: the maximal run of digits, which must not be empty. */
  function LexInteger(buf: seq<Byte>): (r: Result<Lexed>)
    ensures r.Ok? <==> |buf| > 0 && IsDigit(buf[0])
    ensures r.Ok? ==> var v := r.value.token.text;
      r.value.token.kind == Integer && |v| > 0 && v + r.value.rest == buf &&
      (forall i :: 0 <= i < |v| ==> IsDigit(v[i])) &&
      (r.value.rest == [] || !IsDigit(r.value.rest[0]))
    ensures r.Err? ==> r.error == if |buf| == 0 then UnexpectedEndOfInput else UnexpectedToken
  {
    if |buf| == 0 then Err(UnexpectedEndOfInput)
    else if !IsDigit(buf[0]) then Err(UnexpectedToken)
    else
      var n := Span(buf, Digits);
      assert buf == buf[..n] + buf[n..];
      Ok(Lexed(Token(Integer, buf[..n]), buf[n..]))
  }

  method ParseInteger(buf: seq<Byte>) returns (r: Result<Lexed>)
    ensures r == LexInteger(buf)
  {
    if |buf| == 0 {
      return Err(UnexpectedEndOfInput);
    }
    if !IsDigit(buf[0]) {
      return Err(UnexpectedToken);
    }
    var value: seq<Byte> := [];
    for i := 0 to |buf|
      invariant value == buf[..i]
      invariant forall j :: 0 <= j < i ==> IsDigit(buf[j])
    {
      if !IsDigit(buf[i]) {
        return Ok(Lexed(Token(Integer, value), buf[i..]));
      }
      value := value + [buf[i]];
    }
    return Ok(Lexed(Token(Integer, value), []));
  }

  lemma FloatRunUnique(s: seq<Byte>, n: nat)
    requires n <= |s|
    requires forall i :: 0 <= i < n ==> IsDigit(s[i]) || s[i] == '.'
    requires forall i, j :: 0 <= i < j < n && s[i] == '.' ==> s[j] != '.'
    requires n < |s| ==> !IsDigit(s[n]) && (s[n] == '.' ==> exists i :: 0 <= i < n && s[i] == '.')
    ensures FloatRun(s, false) == n
  {
  }

  /** Float literal: a leading digit, then digits with at most one '.'. */
  function LexFloat(buf: seq<Byte>): (r: Result<Lexed>)
    ensures r.Ok? <==> |buf| > 0 && IsDigit(buf[0])
    ensures r.Ok? ==> var v := r.value.token.text;
      r.value.token.kind == Float && |v| > 0 && IsDigit(v[0]) && v + r.value.rest == buf &&
      (forall i :: 0 <= i < |v| ==> IsDigit(v[i]) || v[i] == '.') &&
      (forall i, j :: 0 <= i < j < |v| && v[i] == '.' ==> v[j] != '.') &&
      (r.value.rest == [] || !IsDigit(r.value.rest[0])) &&
      (r.value.rest != [] && r.value.rest[0] == '.' ==> '.' in v)
    ensures r.Err? ==> r.error == if |buf| == 0 then UnexpectedEndOfInput else UnexpectedToken
  {
    if |buf| == 0 then Err(UnexpectedEndOfInput)
    else if !IsDigit(buf[0]) then Err(UnexpectedToken)
    else
      var n := FloatRun(buf, false);
      assert buf == buf[..n] + buf[n..];
      Ok(Lexed(Token(Float, buf[..n]), buf[n..]))
  }

  method ParseFloat(buf: seq<Byte>) returns (r: Result<Lexed>)
    ensures r == LexFloat(buf)
  {
    if |buf| == 0 {
      return Err(UnexpectedEndOfInput);
    }
    if !IsDigit(buf[0]) {
      return Err(UnexpectedToken);
    }
    var dotExists := false;
    var value: seq<Byte> := [];
    for i := 0 to |buf|
      invariant value == buf[..i]
      invariant forall j :: 0 <= j < i ==> IsDigit(buf[j]) || buf[j] == '.'
      invariant forall j, k :: 0 <= j < k < i && buf[j] == '.' ==> buf[k] != '.'
      invariant dotExists <==> exists j :: 0 <= j < i && buf[j] == '.'
    {
      if !IsDigit(buf[i]) {
        if buf[i] == '.' {
          if dotExists {
            FloatRunUnique(buf, i);
            return Ok(Lexed(Token(Float, value), buf[i..]));
          }
          value := value + [buf[i]];
          dotExists := true;
          continue;
        }
        FloatRunUnique(buf, i);
        return Ok(Lexed(Token(Float, value), buf[i..]));
      }
      value := value + [buf[i]];
    }
    FloatRunUnique(buf, |buf|);
    return Ok(Lexed(Token(Float, value), []));
  }

  // ---------------------------------------------------------------------
  // Booleans, symbols, identifiers, spaces

  /** Boolean literal: the input starts with "true" or "false". */
  function ParseBool(buf: seq<Byte>): (r: Result<Lexed>)
    ensures r.Ok? <==> "true" <= buf || "false" <= buf
    ensures r.Ok? && "true" <= buf ==> r.value == Lexed(Token(Bool, "true"), buf[4..])
    ensures r.Ok? && "false" <= buf ==> r.value == Lexed(Token(Bool, "false"), buf[5..])
    ensures r.Err? ==> r.error == if |buf| == 0 then UnexpectedEndOfInput else UnexpectedToken
  {
    if |buf| == 0 then Err(UnexpectedEndOfInput)
    else if buf[0] != 't' && buf[0] != 'f' then Err(UnexpectedToken)
    else if |buf| < 4 then Err(UnexpectedToken)
    else if buf[..4] == "true" then Ok(Lexed(Token(Bool, "true"), buf[4..]))
    else if |buf| < 5 then Err(UnexpectedToken)
    else if buf[..5] == "false" then Ok(Lexed(Token(Bool, "false"), buf[5..]))
    else Err(UnexpectedToken)
  }

  /** The symbol rule with the length guard of its second-byte check as a
      parameter: a second byte that is not a lower-case letter is refused
      only when the input is longer than `guard`. */
  function LexSymbolWith(guard: nat, buf: seq<Byte>): (r: Result<Lexed>)
    requires guard >= 1
    ensures r.Ok? <==> |buf| > 0 && buf[0] == ':' && !(|buf| > guard && !IsLower(buf[1]))
    ensures r.Ok? ==> var v := r.value.token.text;
      r.value.token.kind == Symbol && |v| > 0 && v[0] == ':' && v + r.value.rest == buf &&
      (forall i :: 1 <= i < |v| ==> InClass(v[i], SymbolChars)) &&
      (r.value.rest == [] || !InClass(r.value.rest[0], SymbolChars))
    ensures r.Err? ==> r.error == if |buf| == 0 then UnexpectedEndOfInput else UnexpectedToken
  {
    if |buf| == 0 then Err(UnexpectedEndOfInput)
    else if buf[0] != ':' then Err(UnexpectedToken)
    else if |buf| > guard && !IsLower(buf[1]) then Err(UnexpectedToken)
    else
      var n := Span(buf[1..], SymbolChars);
      assert buf == buf[..n + 1] + buf[n + 1..];
      Ok(Lexed(Token(Symbol, buf[..n + 1]), buf[n + 1..]))
  }

  /** The symbol recognizer as written: the second byte is checked only
      when the input has more than two bytes. */
  function LexSymbolAsWritten(buf: seq<Byte>): (r: Result<Lexed>)
    ensures r.Ok? <==> |buf| > 0 && buf[0] == ':' && !(|buf| > 2 && !IsLower(buf[1]))
  {
    LexSymbolWith(2, buf)
  }

  /** As written, a two-byte input ":5" is a symbol whose second byte is a
      digit, while ":55" is refused. */
  lemma SymbolGuardAsWritten()
    ensures LexSymbolAsWritten(":5") == Ok(Lexed(Token(Symbol, ":5"), []))
    ensures LexSymbolAsWritten(":55") == Err(UnexpectedToken)
  {
    var s: seq<Byte> := ":5";
    assert s[1..] == "5" && s[..2] == s && s[2..] == [];
    assert Span(s[1..], SymbolChars) == 1;
  }

  /** The symbol recognizer with the second-byte check guarded by the
      bound that indexing needs: a symbol is ':' followed by nothing or by a
      lower-case letter and then lower-case letters and digits. */
  function LexSymbol(buf: seq<Byte>): (r: Result<Lexed>)
    ensures r.Ok? ==> var v := r.value.token.text; |v| > 0 && v[0] == ':' && (|v| == 1 || IsLower(v[1]))
    ensures r.Ok? <==> |buf| > 0 && buf[0] == ':' && (|buf| == 1 || IsLower(buf[1]))
  {
    LexSymbolWith(1, buf)
  }

  /** The symbol loop as written, with its guard on the second byte. */
  method ParseSymbol(buf: seq<Byte>) returns (r: Result<Lexed>)
    ensures r == LexSymbolAsWritten(buf)
  {
    if |buf| == 0 {
      return Err(UnexpectedEndOfInput);
    }
    if buf[0] != ':' {
      return Err(UnexpectedToken);
    }
    if |buf| > 2 && !IsLower(buf[1]) {
      return Err(UnexpectedToken);
    }
    var body := buf[1..];
    var value: seq<Byte> := [':'];
    for i := 0 to |body|
      invariant value == buf[..i + 1]
      invariant forall j :: 0 <= j < i ==> InClass(body[j], SymbolChars)
    {
      if !InClass(body[i], SymbolChars) {
        return Ok(Lexed(Token(Symbol, value), body[|value| - 1..]));
      }
      value := value + [body[i]];
    }
    return Ok(Lexed(Token(Symbol, value), body[|value| - 1..]));
  }

  /** Identifier: a lower-case letter, then lower-case letters, digits and
      underscores, as many as there are. */
  function LexIdentifier(buf: seq<Byte>): (r: Result<Lexed>)
    ensures r.Ok? <==> |buf| > 0 && IsLower(buf[0])
    ensures r.Ok? ==> var v := r.value.token.text;
      r.value.token.kind == Identifier && |v| > 0 && IsLower(v[0]) && v + r.value.rest == buf &&
      (forall i :: 0 <= i < |v| ==> InClass(v[i], IdentChars)) &&
      (r.value.rest == [] || !InClass(r.value.rest[0], IdentChars))
    ensures r.Err? ==> r.error == if |buf| == 0 then UnexpectedEndOfInput else UnexpectedToken
  {
    if |buf| == 0 then Err(UnexpectedEndOfInput)
    else if !IsLower(buf[0]) then Err(UnexpectedToken)
    else
      var n := Span(buf, IdentChars);
      assert buf == buf[..n] + buf[n..];
      Ok(Lexed(Token(Identifier, buf[..n]), buf[n..]))
  }

  method ParseIdentifier(buf: seq<Byte>) returns (r: Result<Lexed>)
    ensures r == LexIdentifier(buf)
  {
    if |buf| == 0 {
      return Err(UnexpectedEndOfInput);
    }
    if !IsLower(buf[0]) {
      return Err(UnexpectedToken);
    }
    var value: seq<Byte> := [];
    for i := 0 to |buf|
      invariant value == buf[..i]
      invariant forall j :: 0 <= j < i ==> InClass(buf[j], IdentChars)
    {
      if !InClass(buf[i], IdentChars) {
        return Ok(Lexed(Token(Identifier, value), buf[i..]));
      }
      value := value + [buf[i]];
    }
    return Ok(Lexed(Token(Identifier, value), []));
  }

  /** Whitespace: exactly one space, tab, carriage return or line feed. */
  function ParseSpace(buf: seq<Byte>): (r: Result<Lexed>)
    ensures r.Ok? <==> |buf| > 0 && IsSpace(buf[0])
    ensures r.Ok? ==> r.value.token == Token(Space, buf[..1]) && r.value.rest == buf[1..]
    ensures r.Err? ==> r.error == if |buf| == 0 then UnexpectedEndOfInput else UnexpectedToken
  {
    if |buf| == 0 then Err(UnexpectedEndOfInput)
    else if !IsSpace(buf[0]) then Err(UnexpectedToken)
    else Ok(Lexed(Token(Space, buf[..1]), buf[1..]))
  }

  // ---------------------------------------------------------------------
  // The ordered recognizer list and the driver

  const ParserCount: nat := 9

  /** Recognizer `i` of the fixed list: keyword, string, character, float,
      integer, bool, symbol, identifier, space. Every success consumes a
      non-empty prefix, spelled by the token it yields. */
  function Recognizer(i: nat, buf: seq<Byte>): (r: Result<Lexed>)
    requires i < ParserCount
    ensures r.Ok? ==> Spelling(r.value.token) + r.value.rest == buf && |r.value.rest| < |buf|
  {
    match i
    case 0 => KeywordSpelling(buf); ParseKeyword(buf)
    case 1 => LexQuoted(buf, '"', String)
    case 2 => LexQuoted(buf, '\'', Character)
    case 3 => LexFloat(buf)
    case 4 => LexInteger(buf)
    case 5 => BoolSpelling(buf); ParseBool(buf)
    case 6 => LexSymbolAsWritten(buf)
    case 7 => LexIdentifier(buf)
    case 8 => SpaceSpelling(buf); ParseSpace(buf)
  }

  lemma BoolSpelling(buf: seq<Byte>)
    ensures var r := ParseBool(buf);
      r.Ok? ==> Spelling(r.value.token) + r.value.rest == buf && |r.value.rest| < |buf|
  {
    if "true" <= buf {
      assert buf == "true" + buf[4..];
    } else if "false" <= buf {
      assert buf == "false" + buf[5..];
    }
  }

  lemma SpaceSpelling(buf: seq<Byte>)
    ensures var r := ParseSpace(buf);
      r.Ok? ==> Spelling(r.value.token) + r.value.rest == buf && |r.value.rest| < |buf|
  {
    if |buf| > 0 {
      assert buf == buf[..1] + buf[1..];
    }
  }

  lemma KeywordSpelling(buf: seq<Byte>)
    ensures var r := ParseKeyword(buf);
      r.Ok? ==> Spelling(r.value.token) + r.value.rest == buf && |r.value.rest| < |buf|
  {
    var r := ParseKeyword(buf);
    KeywordFirst(buf);
    if r.Ok? {
      KeywordsNonEmpty();
      var k :| FirstKeyword(buf, k) && r.value == Lexed(Token(Keyword, Keywords[k]), buf[|Keywords[k]|..]);
      assert buf == Keywords[k] + buf[|Keywords[k]|..];
    }
  }

  /** The first success among `rs[i..]`; when none of them succeeds, the
      last result. */
  function FirstOk<T>(rs: seq<Result<T>>, i: nat): Result<T>
    requires i < |rs|
    decreases |rs| - i
  {
    if i == |rs| - 1 || rs[i].Ok? then rs[i] else FirstOk(rs, i + 1)
  }

  /** `FirstOk` picks the result at some index `j`: every result before it
      failed, and when it is a failure it is the last one. */
  lemma {:induction false} FirstOkIndex<T>(rs: seq<Result<T>>, i: nat) returns (j: nat)
    requires i < |rs|
    decreases |rs| - i
    ensures i <= j < |rs| && FirstOk(rs, i) == rs[j]
    ensures forall k :: i <= k < j ==> rs[k].Err?
    ensures rs[j].Err? ==> j == |rs| - 1
  {
    if i == |rs| - 1 || rs[i].Ok? {
      j := i;
    } else {
      j := FirstOkIndex(rs, i + 1);
    }
  }

  lemma FirstOkPicks<T>(rs: seq<Result<T>>)
    requires |rs| > 0
    ensures exists j :: 0 <= j < |rs| && FirstOk(rs, 0) == rs[j]
  {
    var j := FirstOkIndex(rs, 0);
  }

  /** What each recognizer of the list makes of `buf`, in order. */
  function Attempts(buf: seq<Byte>): seq<Result<Lexed>> {
    seq(ParserCount, k requires 0 <= k < ParserCount => Recognizer(k, buf))
  }

  /** First success wins; when every recognizer fails, the last one's
      error is reported. */
  function FirstMatch(buf: seq<Byte>): (r: Result<Lexed>)
    ensures r.Ok? ==> Spelling(r.value.token) + r.value.rest == buf && |r.value.rest| < |buf|
  {
    FirstOkPicks(Attempts(buf));
    FirstOk(Attempts(buf), 0)
  }

  /** The ordered list yields the success of the first recognizer that
      succeeds. */
  lemma FirstMatchOk(buf: seq<Byte>)
    requires FirstMatch(buf).Ok?
    ensures exists j :: (0 <= j < ParserCount && Recognizer(j, buf) == FirstMatch(buf) &&
                         forall k :: 0 <= k < j ==> Recognizer(k, buf).Err?)
  {
    var rs := Attempts(buf);
    var j := FirstOkIndex(rs, 0);
    assert forall k :: 0 <= k < ParserCount ==> rs[k] == Recognizer(k, buf);
  }

  /** When the ordered list fails, every recognizer has failed and the
      error is the last recognizer's. */
  lemma FirstMatchErr(buf: seq<Byte>)
    requires FirstMatch(buf).Err?
    ensures FirstMatch(buf) == Recognizer(ParserCount - 1, buf)
    ensures forall k :: 0 <= k < ParserCount ==> Recognizer(k, buf).Err?
  {
    var rs := Attempts(buf);
    var j := FirstOkIndex(rs, 0);
    assert forall k :: 0 <= k < ParserCount ==> rs[k] == Recognizer(k, buf);
  }

  /** When every recognizer fails, so does the ordered list, with the last
      recognizer's error. */
  lemma FirstMatchFails(buf: seq<Byte>)
    requires forall k :: 0 <= k < ParserCount ==> Recognizer(k, buf).Err?
    ensures FirstMatch(buf) == Recognizer(ParserCount - 1, buf)
  {
    var rs := Attempts(buf);
    var j := FirstOkIndex(rs, 0);
    assert rs[j] == Recognizer(j, buf);
  }

  /** A recognizer that succeeds after all earlier ones failed wins. */
  lemma FirstMatchAt(buf: seq<Byte>, i: nat)
    requires i < ParserCount && Recognizer(i, buf).Ok?
    requires forall k :: 0 <= k < i ==> Recognizer(k, buf).Err?
    ensures FirstMatch(buf) == Recognizer(i, buf)
  {
    var rs := Attempts(buf);
    var j := FirstOkIndex(rs, 0);
    assert rs[i] == Recognizer(i, buf) && rs[j] == Recognizer(j, buf);
  }

  /** The tokens `Parse` produces from `buf`, and the error it stops at. */
  function Lex(buf: seq<Byte>): (r: Scan)
    decreases |buf|
    ensures |r.tokens| <= |buf|
    ensures r.error != None ==> r.error == Some(UnexpectedToken) && |buf| > 0
  {
    if |buf| == 0 then Scan([], None)
    else match FirstMatch(buf)
      case Err(e) => FirstMatchErr(buf); Scan([], Some(e))
      case Ok(l) =>
        var s := Lex(l.rest);
        Scan([l.token] + s.tokens, s.error)
  }

  /** A position where a recognizer succeeds yields its token, and the
      scan goes on after it. */
  lemma LexStep(buf: seq<Byte>)
    requires |buf| > 0 && FirstMatch(buf).Ok?
    ensures var l := FirstMatch(buf).value;
      Lex(buf) == Scan([l.token] + Lex(l.rest).tokens, Lex(l.rest).error)
  {
  }

  /** A position where every recognizer fails ends the scan with the last
      recognizer's error. */
  lemma LexStop(buf: seq<Byte>)
    requires |buf| > 0 && FirstMatch(buf).Err?
    ensures Lex(buf) == Scan([], Some(FirstMatch(buf).error))
  {
  }

  /** Dispatch to recognizer `i` of the list. */
  method Recognize(i: nat, buf: seq<Byte>) returns (r: Result<Lexed>)
    requires i < ParserCount
    ensures r == Recognizer(i, buf)
  {
    match i
    case 0 => r := ParseKeyword(buf);
    case 1 => r := ParseString(buf);
    case 2 => r := ParseCharactor(buf);
    case 3 => r := ParseFloat(buf);
    case 4 => r := ParseInteger(buf);
    case 5 => r := ParseBool(buf);
    case 6 => r := ParseSymbol(buf);
    case 7 => r := ParseIdentifier(buf);
    case 8 => r := ParseSpace(buf);
  }

  /** One position of the driver: try the recognizers in order and keep
      the first success; when all of them fail, the error left over is
      the last one's. */
  method RecognizeFirst(buf: seq<Byte>) returns (r: Result<Lexed>)
    ensures r == FirstMatch(buf)
  {
    var i := 0;
    var globalError := UnexpectedEndOfInput;
    while i < ParserCount
      invariant 0 <= i <= ParserCount
      invariant forall k :: 0 <= k < i ==> Recognizer(k, buf).Err?
      invariant i > 0 ==> globalError == Recognizer(i - 1, buf).error
    {
      r := Recognize(i, buf);
      if r.Ok? {
        FirstMatchAt(buf, i);
        return;
      }
      globalError := r.error;
      i := i + 1;
    }
    FirstMatchFails(buf);
    r := Err(globalError);
  }

  /** The driver: at each position take the first recognizer that
      succeeds and go on after its token; stop at the first position where
      all of them fail, returning the tokens found so far. */
  method Parse(input: seq<Byte>) returns (tokens: seq<Token>, err: Option<ParseError>)
    ensures Scan(tokens, err) == Lex(input)
  {
    var buf := input;
    tokens := [];
    while |buf| > 0
      invariant Lex(input) == Scan(tokens + Lex(buf).tokens, Lex(buf).error)
      decreases |buf|
    {
      var r := RecognizeFirst(buf);
      if r.Err? {
        LexStop(buf);
        assert tokens + [] == tokens;
        return tokens, Some(r.error);
      }
      LexStep(buf);
      assert tokens + ([r.value.token] + Lex(r.value.rest).tokens) ==
        (tokens + [r.value.token]) + Lex(r.value.rest).tokens;
      buf := r.value.rest;
      tokens := tokens + [r.value.token];
    }
    assert tokens + [] == tokens;
    err := None;
  }

  // ---------------------------------------------------------------------
  // Properties of the driver

  /** The tokens spell a prefix of the input; scanning stops either at the
      end of the input with no error, or at the first position where every
      recognizer fails, with the last recognizer's error, which is always
      an unexpected token. */
  lemma {:induction false} LexCoverage(buf: seq<Byte>)
    ensures Unparse(Lex(buf).tokens) <= buf
    ensures var stop := buf[|Unparse(Lex(buf).tokens)|..];
      (Lex(buf).error == None <==> stop == []) &&
      (Lex(buf).error != None ==>
         Lex(buf).error == Some(UnexpectedToken) &&
         forall i :: 0 <= i < ParserCount ==> Recognizer(i, stop).Err?)
    decreases |buf|
  {
    if |buf| > 0 {
      match FirstMatch(buf)
      case Err(e) =>
        FirstMatchErr(buf);
        assert Unparse([]) == [];
      case Ok(l) =>
        LexCoverage(l.rest);
        var ts := Lex(l.rest).tokens;
        assert Lex(buf).tokens == [l.token] + ts;
        assert ([l.token] + ts)[1..] == ts;
        assert Unparse(Lex(buf).tokens) == Spelling(l.token) + Unparse(ts);
        assert buf == Spelling(l.token) + l.rest;
        assert buf[|Unparse(Lex(buf).tokens)|..] == l.rest[|Unparse(ts)|..];
    }
  }

  /** The token kind recognizer `i` yields. */
  function KindOf(i: nat): TokenKind
    requires i < ParserCount
  {
    [Keyword, String, Character, Float, Integer, Bool, Symbol, Identifier, Space][i]
  }

  lemma RecognizerKind(i: nat, buf: seq<Byte>)
    requires i < ParserCount && Recognizer(i, buf).Ok?
    ensures Recognizer(i, buf).value.token.kind == KindOf(i)
  {
  }

  /** The float recognizer accepts everything the integer one does. */
  lemma IntegerShadowed(buf: seq<Byte>)
    requires Recognizer(4, buf).Ok?
    ensures Recognizer(3, buf).Ok?
  {
  }

  /** Every symbol starts with ':', which is in the keyword catalog; this
      holds for the symbol rule as written and for the corrected one. */
  lemma SymbolShadowed(buf: seq<Byte>)
    requires Recognizer(6, buf).Ok? || LexSymbol(buf).Ok?
    ensures Recognizer(0, buf).Ok?
  {
    assert |buf| > 0 && buf[0] == ':' by {
      if Recognizer(6, buf).Ok? {
        assert LexSymbolAsWritten(buf).Ok?;
      }
    }
    assert Keywords[18] == ":" && Keywords[18] <= buf;
    KeywordFirst(buf);
  }

  /** Recognizers 4 (integer) and 6 (symbol) never win, and no recognizer
      yields a type-name token. */
  lemma FirstMatchKind(buf: seq<Byte>)
    requires FirstMatch(buf).Ok?
    ensures FirstMatch(buf).value.token.kind !in {Integer, Symbol, Type}
  {
    FirstMatchOk(buf);
    var j :| 0 <= j < ParserCount && Recognizer(j, buf) == FirstMatch(buf) &&
      forall k :: 0 <= k < j ==> Recognizer(k, buf).Err?;
    RecognizerKind(j, buf);
    if j == 4 {
      IntegerShadowed(buf);
    } else if j == 6 {
      SymbolShadowed(buf);
    }
  }

  /** `Parse` never produces integer, symbol or type-name tokens. */
  lemma {:induction false} LexKinds(buf: seq<Byte>)
    ensures forall t :: t in Lex(buf).tokens ==> t.kind !in {Integer, Symbol, Type}
    decreases |buf|
  {
    if |buf| > 0 && FirstMatch(buf).Ok? {
      FirstMatchKind(buf);
      LexKinds(FirstMatch(buf).value.rest);
    }
  }
}
