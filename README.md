# eureka front end in Dafny

A model of the front end of eureka, a small schema-definition language.
It has two parts:

- **The lexer** (`token/parse.go`). Nine byte-level recognizers are tried in a
  fixed order at each position, and the first success wins. They cover
  keywords and punctuation, string and character literals, floats,
  integers, booleans, symbols, identifiers and single whitespace bytes.
- **The declaration parsers** (`parser/*.go`). Recursive-descent
  productions turn a token sequence into a node plus the unconsumed
  remainder, or into one of two errors: unexpected token and unexpected
  end of input. The productions are a field, a struct, a function
  signature, an interface, an enum and a fixed-size array. Field, struct,
  interface and array call each other.

Every production is written twice:

1. as a function, which is the specification;
2. as a method with the source's loops, which is proved to compute that
   function.

The lemmas then state what the source promises about the functions.

Files and modules:

| file | module | contents |
|---|---|---|
| `tokens.dfy` | `Tokens` | bytes, token kinds, tokens, the two errors, `Option`/`Result`, suffix facts |
| `lexer.dfy` | `Lexer` | the keyword catalog, a function for each of the nine recognizers, plus a loop method for each one that loops, the ordered list, the `Parse` driver and its properties |
| `ast.dfy` | `Ast` | the declaration nodes and the `Parsed<T>` outcome |
| `arrays.dfy` | `Arrays` | `Atoi`, the array production, its method and its lemmas |
| `enums.dfy` | `Enums` | the enum production, its method and its lemmas |
| `decls.dfy` | `Decls` | the mutually recursive field, struct, function and interface productions, as functions |
| `parser.dfy` | `Parser` | the same four productions as loop methods, each proved equal to its function |
| `decl_facts.dfy` | `DeclFacts` | what a successful or failing field, struct, function or interface parse looks like |
| `decl_examples.dfy` | `DeclExamples` | worked inputs: a diverging struct, nested arrays, signatures and the parenthesised-return interface |

Behaviour modelled as the code has it, where the language's own
description says otherwise:

- Keyword matching takes the first catalog entry that prefixes the input.
  The catalog lists `<-` before `<->`, `=` before `==`, `<` before `<=`
  and `<<`, and `>` before `>=` and `>>`. The longer spellings are
  therefore never produced (`Lexer.ShadowedKeywords`).
- `true` and `false` are prefix matches: `truex` lexes as `true` followed
  by `x`.
- The scan error is always the last recognizer's, which is the whitespace
  recognizer's. On a non-empty input that is an unexpected token, even
  for an unterminated string such as `"abc` (`Lexer.LexCoverage`).
- The float recognizer runs before the integer one, and `:` is a
  catalog keyword. So `Parse` never yields integer or symbol tokens
  (`Lexer.LexKinds`).
- The lexer has no type-name kind, while the parsers expect one. The
  model uses one `TokenKind` with both `Keyword` and `Type`, and the
  parsers are stated over abstract tokens.
- A field whose third token is neither a type name nor a keyword
  succeeds without consuming anything. Inside a struct body or a
  parameter list, the source's loop would then repeat forever. The
  model reports that case as the outcome `Diverges`.
- An array without an initializer leaves its element-type token at the
  head of the remainder. A struct field of that form therefore makes the
  enclosing struct fail (`DeclExamples.ArrayFieldWithoutValues`).
- A parenthesised return list leaves its `)` unconsumed. So
  `interface calc { func div(a: i32) -> (i32, i32) }` fails with
  unexpected end of input
  (`DeclExamples.ParenthesisedReturnsBreakInterface`).

## Model

| member | source | states |
|---|---|---|
| Lexer.MatchFrom | token/parse.go:71-84 | the index found is the first catalog entry, in list order, that prefixes the input; none is found only when no entry does |
| Lexer.ParseKeyword | token/parse.go:66-85 | a success is a keyword token; an empty input is an end-of-input error, any other miss an unexpected token |
| Lexer.KeywordFirst | token/parse.go:66-85 | the keyword recognizer succeeds iff the input is non-empty and some catalog entry prefixes it; the token is then the first such entry in list order, and the rest is the input after it |
| Lexer.KeywordsNonEmpty | token/parse.go:17-64 | every catalog entry is non-empty |
| Lexer.NeverFirst | token/parse.go:71-84 | an entry preceded in the catalog by one of its own prefixes is never the first match |
| Lexer.ShadowedKeywords | token/parse.go:40-62 | `<->`, `==`, `<=`, `>=`, `<<` and `>>` are never produced by the keyword recognizer |
| Lexer.ArrowShadowed | token/parse.go:40-41 | `<-` is listed before `<->`, and `<->` does not occur earlier |
| Lexer.EqualsShadowed | token/parse.go:43-44 | `=` is listed before `==`, and `==` does not occur earlier |
| Lexer.LessShadowed | token/parse.go:46-61 | `<` is listed before `<=` and `<<`, and neither occurs earlier |
| Lexer.GreaterShadowed | token/parse.go:47-62 | `>` is listed before `>=` and `>>`, and neither occurs earlier |
| Lexer.KeywordSpelling | token/parse.go:76-80 | a keyword success spells a non-empty prefix of the input, and the rest is what follows it |
| Lexer.LexQuoted | token/parse.go:87-110 | success iff the input starts with the delimiter and holds a later one; the value is exactly the bytes between them, holds no delimiter, and the rest follows the closing one; otherwise an unexpected token when the first byte is wrong, else end of input |
| Lexer.QuotedClosed | token/parse.go:96-104 | with the first closing delimiter at a given position, the value is the bytes before it and the rest starts after it |
| Lexer.QuotedUnclosed | token/parse.go:96-109 | with no closing delimiter, the result is an end-of-input error |
| Lexer.ParseQuoted | token/parse.go:87-110 | the byte-appending loop computes `LexQuoted` |
| Lexer.ParseString | token/parse.go:87-110 | the string recognizer is the quoted rule with `"` |
| Lexer.ParseCharactor | token/parse.go:112-135 | the character recognizer is the quoted rule with `'` |
| Lexer.LexInteger | token/parse.go:137-162 | success iff the first byte is a digit; the value is a non-empty run of digits, value ++ rest is the input, and the rest does not start with a digit |
| Lexer.ParseInteger | token/parse.go:137-162 | the loop computes `LexInteger` |
| Lexer.FloatRun | token/parse.go:173-196 | the run holds only digits and at most one `.`, and it stops at a non-digit that is not a first `.` |
| Lexer.LexFloat | token/parse.go:164-202 | success iff the first byte is a digit; the value is digits plus at most one `.` and value ++ rest is the input; the rest starts neither with a digit nor with a `.` unless the value already holds one |
| Lexer.ParseFloat | token/parse.go:164-202 | the loop with its dot flag computes `LexFloat` |
| Lexer.ParseBool | token/parse.go:204-236 | success iff the input starts with `true` or `false`; the rest drops exactly 4 or 5 bytes |
| Lexer.BoolSpelling | token/parse.go:217-232 | a bool success spells a non-empty prefix of the input |
| Lexer.LexIdentifier | token/parse.go:238-263 | success iff the first byte is a lower-case letter; the value is a maximal run of `[a-z0-9_]` and value ++ rest is the input |
| Lexer.ParseIdentifier | token/parse.go:238-263 | the loop computes `LexIdentifier` |
| Lexer.LexSymbolWith | token/parse.go:265-296 | for a given length guard: success iff the input starts with `:` and the guard lets its second byte through; the value is `:` followed by a maximal run of `[a-z0-9]`, and value ++ rest is the input |
| Lexer.LexSymbolAsWritten | token/parse.go:274 | with the guard as written (input longer than 2), a non-letter second byte is refused only when a third byte follows |
| Lexer.SymbolGuardAsWritten | token/parse.go:274 | `:5` is accepted as a symbol while `:55` is refused |
| Lexer.LexSymbol | token/parse.go:265-296 | the corrected rule of Findings: success iff the input starts with `:` and is either just `:` or has a lower-case second byte; every symbol's text is `:` alone or has a lower-case second byte |
| Lexer.ParseSymbol | token/parse.go:265-296 | the loop, with its length guard as written, computes `LexSymbolAsWritten` |
| Lexer.ParseSpace | token/parse.go:298-313 | success iff the first byte is a space, tab, CR or LF; exactly that byte is consumed |
| Lexer.SpaceSpelling | token/parse.go:309-312 | a whitespace success spells a non-empty prefix of the input |
| Lexer.Recognizer | token/parse.go:315-325 | each recognizer of the list (the symbol entry with its guard as written), on success, spells a non-empty prefix of the input followed by the rest |
| Lexer.RecognizerKind | token/parse.go:315-325 | recognizer `i` of the list yields tokens of the `i`-th kind of the list |
| Lexer.Recognize | token/parse.go:333 | dispatch to the `i`-th recognizer computes `Recognizer(i, ·)` |
| Lexer.FirstOkIndex | token/parse.go:332-342 | the first-success rule picks an index before which every attempt failed; a failure is picked only at the last attempt |
| Lexer.FirstMatch | token/parse.go:332-342 | the first success of the list spells a non-empty prefix of the input |
| Lexer.FirstMatchOk | token/parse.go:332-342 | a success of the list is the success of some recognizer, and every recognizer before it failed |
| Lexer.FirstMatchErr | token/parse.go:332-346 | a failure of the list means every recognizer failed, and the error is the last recognizer's |
| Lexer.FirstMatchFails | token/parse.go:332-346 | when every recognizer fails, the list fails with the last recognizer's error |
| Lexer.FirstMatchAt | token/parse.go:332-341 | a recognizer that succeeds after all earlier ones failed is the one whose result is kept |
| Lexer.RecognizeFirst | token/parse.go:332-343 | the inner loop over the list, which keeps the last error, computes `FirstMatch` |
| Lexer.LexStep | token/parse.go:333-341 | helper, one unfolding step: a position where the list succeeds yields its token, and the scan continues after it |
| Lexer.LexStop | token/parse.go:344-346 | helper, one unfolding step: a position where the list fails ends the scan with no further token and with the list's error |
| Lexer.Parse | token/parse.go:327-350 | the driver loop returns exactly the tokens and the error of the scan `Lex` |
| Lexer.Lex | token/parse.go:327-350 | the scan yields at most one token per input byte, and the only error it reports is an unexpected token at a non-empty position: running out of input is never an error |
| Lexer.LexCoverage | token/parse.go:327-350 | the tokens spell a prefix of the input; the scan ends without an error iff it consumed the whole input; otherwise the error is an unexpected token and every recognizer fails at the stop position |
| Lexer.IntegerShadowed | token/parse.go:319-320 | wherever the integer recognizer succeeds, the float recognizer before it succeeds too |
| Lexer.SymbolShadowed | token/parse.go:316-322 | wherever the symbol recognizer succeeds, as written or corrected, the keyword recognizer before it succeeds too |
| Lexer.FirstMatchKind | token/parse.go:315-325 | the list never yields an integer, symbol or type-name token |
| Lexer.LexKinds | token/parse.go:327-350 | `Parse` never produces an integer, symbol or type-name token |
| Arrays.Atoi | parser/array.go:33-36 | a converted length lies in the signed 64-bit range, comes from digits with at most one leading sign, and is negative only after a `-` |
| Arrays.AtoiOfDigits | parser/array.go:33-36 | a digit string converts to the number it denotes when that number fits in 64 bits, and is refused otherwise |
| Arrays.AtoiDigit | parser/array.go:33-36 | a single digit converts to its value |
| Arrays.ArrayValues | parser/array.go:52-76 | the initializer loop never diverges, and a success leaves a strict suffix of the tokens it was given |
| Arrays.ParsedArray | parser/array.go:16-77 | the array production never diverges, and a success leaves a strict suffix of its input |
| Arrays.ParseArray | parser/array.go:16-77 | the index loop from 5, with the bound check at `}`, computes `ParsedArray` |
| Arrays.ArrayValuesStop | parser/array.go:53-76 | a successful initializer loop stops at a `}` that is preceded only by commas and literal tokens |
| Arrays.ArrayValuesUpTo | parser/array.go:53-73 | up to such a `}`, the loop collects the non-comma texts in order; it fails iff they outnumber the length, and otherwise the rest follows the `}` |
| Arrays.ArrayValuesDone | parser/array.go:52-76 | a successful initializer loop yields the non-comma texts before its `}`, no more of them than the length, and the tokens after the `}` |
| Arrays.ArrayValuesFail | parser/array.go:52-76 | before any `}`: commas and literals up to the end of the tokens give end of input, and a first token that is neither gives an unexpected token |
| Arrays.ArrayDone | parser/array.go:16-77 | a parsed array has `[`, an integer, `]` and a type name, with the length converted from the integer and the element type from the type name; with `{` its values are the non-comma texts up to `}`, at most the length, and the rest follows the `}`; without `{` it has no values and the rest still starts with the type token |
| Arrays.ArrayHeaderFail | parser/array.go:16-42 | fewer than 4 tokens give end of input; a missing `[` or `]`, a length that is not an integer token or does not convert, or an element that is not a type name gives an unexpected token |
| Arrays.ArrayWithoutValues | parser/array.go:44-50 | with no `{` after the type, the array has no values and the rest is the input from the type token on |
| Arrays.ArrayWithValues | parser/array.go:52-66 | an initializer with no more values than the length gives those values and the tokens after `}` |
| Arrays.ArrayOverflow | parser/array.go:58-61 | an initializer with more values than the length is an unexpected token |
| Arrays.ArrayOverflowExample | parser/array.go:58-61 | `[1]i32{1,2}` is refused as an unexpected token |
| Arrays.ArrayFitExample | parser/array.go:52-66 | `[3]i32{1,2}` gives length 3, type `i32` and values `1`, `2` |
| Enums.EnumMembers | parser/enum.go:78-101 | the member loop never diverges, and a success keeps the name and backing type and leaves a strict suffix |
| Enums.ParsedEnum | parser/enum.go:35-101 | the enum production never diverges, and a success leaves a strict suffix of its input |
| Enums.ParseEnum | parser/enum.go:35-101 | the header switch and the member loop compute `ParsedEnum` |
| Enums.EnumMembersStop | parser/enum.go:79-95 | a successful member loop stops at a `}` preceded only by identifiers |
| Enums.EnumMembersUpTo | parser/enum.go:79-101 | up to such a `}`, the members are those identifiers' texts in order, and the rest follows the `}` |
| Enums.EnumMembersDone | parser/enum.go:79-101 | a successful member loop yields the identifiers before its `}`, in order, and the tokens after it |
| Enums.EnumMembersFail | parser/enum.go:79-95 | with no `}`, the loop fails with end of input when every token is an identifier, and with an unexpected token otherwise |
| Enums.IsNumericTypeName | parser/enum.go:63-65 | a backing type name is numeric exactly when it has the prefix `i`, `u` or `f`; the default `i32` is one |
| Enums.EnumDone | parser/enum.go:35-101 | a parsed enum has `enum` and a name; either `:`, a type name starting with `i`, `u` or `f` and `{`, which gives the backing type, or `{` directly with backing `i32`; its members are the identifiers up to `}`, and the rest follows the `}` |
| Enums.EnumHeaderFail | parser/enum.go:35-70 | fewer than 4 tokens, or `enum name :` with nothing after it, give end of input; a missing `enum`, a non-identifier name, a third token other than `:` or `{`, a backing type that is not a numeric type name, or a missing `{` after it gives an unexpected token |
| Enums.EnumOfBody | parser/enum.go:73-75 | helper, one unfolding step: `enum name {` continues with the member loop, with backing `i32` |
| Enums.TypedEnumOfBody | parser/enum.go:58-72 | helper, one unfolding step: `enum name : type {` continues with the member loop when the type name starts with `i`, `u` or `f`, and is an unexpected token otherwise |
| Enums.ThreeMembers | parser/enum.go:78-101 | three identifiers and `}` give three members in order |
| Enums.OneMember | parser/enum.go:78-101 | one identifier and `}` give one member |
| Enums.ColorExample | parser/enum.go:73-101 | `enum color { red green blue }` gives backing `i32` and the three members |
| Enums.TypedColorExample | parser/enum.go:58-101 | `enum color: u8 { red }` gives backing `u8` and the member `red` |
| Enums.StringBackingRefused | parser/enum.go:63-65 | `enum color: string { red }` is refused as an unexpected token |
| Decls.ParsedField | parser/struct.go:17-72 | a parsed field starts with an identifier and `:`, takes its name from the identifier, and leaves a suffix of its input |
| Decls.ParsedStruct | parser/struct.go:86-131 | a parsed struct leaves a strict suffix of its input |
| Decls.StructFields | parser/struct.go:107-130 | a successful field loop keeps the struct's name and leaves a strict suffix |
| Decls.ParsedFunc | parser/interface.go:21-120 | a parsed signature leaves a strict suffix of its input |
| Decls.FuncParams | parser/interface.go:40-65 | a successful parameter loop leaves a strict suffix |
| Decls.FuncTail | parser/interface.go:67-119 | what follows `)` never fails, keeps the name and parameters, and leaves a suffix |
| Decls.ReturnList | parser/interface.go:85-89 | the tokens after `->` and one optional `(` are a strict suffix |
| Decls.FuncReturns | parser/interface.go:91-113 | the return loop leaves a suffix of its tokens |
| Decls.ParsedInterface | parser/interface.go:134-179 | a parsed interface leaves a strict suffix of its input |
| Decls.InterfaceMethods | parser/interface.go:155-178 | a successful method loop keeps the interface's name and leaves a strict suffix |
| Parser.ParseField | parser/struct.go:17-72 | the dispatch method computes `ParsedField` |
| Parser.ParseStrcut | parser/struct.go:86-131 | the reslicing field loop computes `ParsedStruct` |
| Parser.ParseFunc | parser/interface.go:21-120 | the parameter and return loops compute `ParsedFunc` |
| Parser.ParseInterface | parser/interface.go:134-179 | the method loop computes `ParsedInterface` |
| DeclFacts.FieldDone | parser/struct.go:30-71 | a parsed field's type is scalar iff the third token is a type name (the rest then follows it); an array, struct or interface iff it is that keyword (the nested parse of the tokens from the third on then gives the node and the rest); untyped iff the third token is neither a type name nor a keyword (the rest is then the whole input) |
| DeclFacts.FieldFail | parser/struct.go:17-68 | fewer than 3 tokens give end of input; a bad name or missing `:` gives an unexpected token; another keyword as type gives an unexpected token; a nested array, struct or interface's error or divergence is passed through unchanged |
| DeclFacts.FieldOfArray | parser/struct.go:42-49 | a field whose type opens with `[` holds the parsed array and its rest |
| DeclFacts.FieldNoProgress | parser/struct.go:33-71 | a field succeeds without consuming anything iff it has an identifier, `:` and a third token that is neither a type name nor a keyword |
| DeclFacts.StructFieldsStep | parser/struct.go:117-124 | helper, one unfolding step: one iteration of the field loop appends the parsed field and continues from its rest |
| DeclFacts.StructFieldsAt | parser/struct.go:108-125 | running the field loop over a chain of fields continues after them with those fields appended in order |
| DeclFacts.StructFieldsChain | parser/struct.go:108-125 | a successful field loop runs through a chain of fields that ends at `}` |
| DeclFacts.StructFieldsDone | parser/struct.go:107-130 | a successful field loop yields the fields of its chain, in order, and the tokens after `}` |
| DeclFacts.StructDone | parser/struct.go:86-131 | a parsed struct has `struct`, a name and `{`; its fields are the chain of fields up to `}`, in order, and the rest follows that `}` |
| DeclFacts.StructUpTo | parser/struct.go:86-131 | a header followed by a chain of fields ending at `}` parses to exactly those fields and the tokens after `}` |
| DeclFacts.StructStall | parser/struct.go:108-125 | after a chain of fields: running out of tokens is end of input, a field that consumes nothing diverges, and a failing field's error is the struct's |
| DeclFacts.FuncParamsStall | parser/interface.go:43-65 | after a chain of parameters: running out of tokens is end of input, a parameter that consumes nothing diverges, and a failing parameter's error is the signature's |
| DeclFacts.FuncParamsStep | parser/interface.go:57-64 | helper, one unfolding step: one parameter iteration appends the parsed field and continues from its rest |
| DeclFacts.FuncParamsComma | parser/interface.go:52-55 | helper, one unfolding step: a comma is skipped |
| DeclFacts.FuncParamsClose | parser/interface.go:48-67 | helper, one unfolding step: `)` ends the parameter list and what follows is the return clause |
| DeclFacts.FuncParamsAt | parser/interface.go:43-65 | running the parameter loop over a chain of commas and fields continues after it with those fields appended in order |
| DeclFacts.FuncParamsDone | parser/interface.go:43-67 | a successful parameter loop runs through a chain ending at `)`, and the signature is the return clause after it with the chain's parameters |
| DeclFacts.FuncDone | parser/interface.go:21-120 | a parsed signature has `func`, a name and `(`; its parameters are the chain of fields up to `)`, in order, and the rest is what the return clause leaves |
| DeclFacts.FuncReturnsAt | parser/interface.go:92-113 | up to its stop position the return loop collects the non-comma texts in order and leaves the tokens from that position on |
| DeclFacts.ReturnsStopExists | parser/interface.go:92-113 | every token sequence has a stop position for the return loop: the end, or the first token that is neither a comma, an identifier nor a type name (a `)` included) |
| DeclFacts.FuncTailReturns | parser/interface.go:67-113 | with fewer than two tokens or no `->`, there are no return types and nothing is consumed; otherwise the return types are the non-comma texts up to the stop position after `->` and one optional `(` |
| DeclFacts.ReturnParenLeft | parser/interface.go:102-104 | the `)` that closes a parenthesised return list is left at the head of the rest |
| DeclFacts.InterfaceMethodsStep | parser/interface.go:165-172 | helper, one unfolding step: one iteration of the method loop appends the parsed signature and continues from its rest |
| DeclFacts.InterfaceMethodsAt | parser/interface.go:156-173 | running the method loop over a chain of signatures continues after it with those methods appended in order |
| DeclFacts.InterfaceMethodsChain | parser/interface.go:156-173 | a successful method loop runs through a chain of signatures that ends at `}` |
| DeclFacts.InterfaceMethodsDone | parser/interface.go:155-178 | a successful method loop yields the signatures of its chain, in order, and the tokens after `}` |
| DeclFacts.InterfaceDone | parser/interface.go:134-179 | a parsed interface has `interface`, a name and `{`; its methods are the chain of signatures up to `}`, in order, and the rest follows that `}` |
| DeclFacts.InterfaceStall | parser/interface.go:156-168 | after a chain of signatures: running out of tokens is end of input, a failing signature's error is the interface's, and a diverging signature makes the interface diverge |
| DeclFacts.StructHeaderFail | parser/struct.go:86-101 | fewer than 4 tokens give end of input; a missing `struct`, a non-identifier name or a missing `{` gives an unexpected token |
| DeclFacts.FuncHeaderFail | parser/interface.go:21-36 | fewer than 4 tokens give end of input; a missing `func`, a non-identifier name or a missing `(` gives an unexpected token |
| DeclFacts.InterfaceHeaderFail | parser/interface.go:134-149 | fewer than 4 tokens give end of input; a missing `interface`, a non-identifier name or a missing `{` gives an unexpected token |
| DeclExamples.DivergingStruct | parser/struct.go:108-125 | `struct s { x: y }` diverges, because the field `x: y` consumes nothing |
| DeclExamples.OpenStructOnly | parser/struct.go:87-89 | `struct s {` with nothing after it is an end-of-input error |
| DeclExamples.StructOfBody | parser/struct.go:86-107 | helper, one unfolding step: `struct name {` continues with the field loop |
| DeclExamples.BareArrayField | parser/struct.go:42-49 | a field `f: [n]t` with no initializer holds the array with no values and leaves the type token |
| DeclExamples.ArrayFieldWithoutValues | parser/array.go:44-50 | inside a struct, such a field makes the struct fail: with end of input when fewer than two tokens follow, with an unexpected token otherwise |
| DeclExamples.TwoValueArray | parser/array.go:52-66 | `[n]t{a, b}` with n at least 2 gives values `a`, `b` and the tokens after `}` |
| DeclExamples.ValuedArrayField | parser/struct.go:42-49 | a field `f: [n]t{a, b}` holds that array |
| DeclExamples.ArrayFieldWithValues | parser/struct.go:108-130 | `struct s { xs: [n]t{a, b} }` gives one array field with length n and values `a`, `b` |
| DeclExamples.FuncOfBody | parser/interface.go:21-42 | helper, one unfolding step: `func name (` continues with the parameter loop |
| DeclExamples.ScalarParam | parser/struct.go:36-39 | `p: t` with a type name is a scalar field and consumes three tokens |
| DeclExamples.PairReturns | parser/interface.go:85-119 | `-> (r1, r2)` gives return types `r1`, `r2` and leaves the `)` |
| DeclExamples.OneParamSignature | parser/interface.go:43-67 | `func name(p: t)` has the one parameter and continues with the return clause |
| DeclExamples.ParenthesisedSignature | parser/interface.go:85-119 | `func name(p: t) -> (r1, r2)` has the parameter and both return types, with `)` left over |
| DeclExamples.InterfaceOfBody | parser/interface.go:134-155 | helper, one unfolding step: `interface name {` continues with the method loop |
| DeclExamples.ParenthesisedReturnsBreakInterface | parser/interface.go:102-104 | an interface whose method has a parenthesised return list fails with end of input, because the leftover `)` starts a signature with too few tokens |
| DeclExamples.BareReturn | parser/interface.go:85-113 | `-> r` gives the single return type `r` and consumes everything |
| DeclExamples.BareReturnSignature | parser/interface.go:67-119 | `func name() -> r` parses completely, with no parameters and return type `r` |

## Left out

- I/O: `main.go` reads a file, prints the results and logs errors. It is not modelled.
- `token.ParseWithoutSpace`, called at main.go:18, is not part of this model.
- `parser/rpc/rpc.go`: an older copy of the parser package. It is not part of this model.
- Error messages: only the two error kinds are modelled, without the offending token's text.
- Lexer to parser: the two halves share the `Token` type, but no lemma composes them. Space-free inputs whose declarations need no type name and no brackets, such as `enumc{}` or `interfacei{funcf()}`, do lex to tokens that the productions accept. Declarations that need a type name or `[` and `]` cannot come from the lexer, which yields no type-name tokens and has no bracket keyword.
- Divergence: where a source loop would spin forever, the model returns the outcome `Diverges` instead of running.
- The error check at parser/interface.go:106-108 can never fire, because the test just before it already breaks on the same condition. It has no counterpart in the model.
- `strconv.Atoi` is modelled only as far as array lengths need: an optional sign, decimal digits, and the signed 64-bit range. Other bases and syntax are not modelled.
- Lexer.ParseKeyword: its own contract states only the kind and the error cases. The first-in-list rule is stated by `Lexer.KeywordFirst`, which keeps that proof separate.

## Findings

| source | as written | input that shows it | evidently intended | confidence | as-written member | corrected member |
|---|---|---|---|---|---|---|
| token/parse.go:274 | the symbol recognizer refuses a second byte that is not a lower-case letter only when the input is longer than 2 bytes | on its own, the symbol recognizer accepts `:5` as the symbol `:5` but refuses `:55` | every symbol after `:` starts with a lower-case letter, so the guard should apply whenever a second byte exists (input longer than 1) | not executed | Lexer.SymbolGuardAsWritten | Lexer.LexSymbol |

The recognizer list keeps the symbol rule as written, as the source does. `Lexer.SymbolShadowed` shows that the keyword `:`, tried first, succeeds wherever either version of the rule does, so the correction would change no scan.
