# Kaleidoscope lexer, modelled in Dafny

This project models the tokenizer of the Kaleidoscope front end: the
`lexer::Lexer` class of `Lexer.cpp`. Its `gettok` reads a character stream
one character at a time. It keeps one character of lookahead (`LastChar`,
initially a blank). It skips whitespace and `#` line comments. It returns one
of these tokens:

- an identifier, or one of the ten keywords (`def`, `extern`, `if`, `then`,
  `else`, `for`, `in`, `unary`, `binary`, `var`);
- a number made of `[0-9.]+`;
- EOF, which it does not consume;
- any other character, as itself.

The lexeme of the last identifier is kept in `identifierStr_`. The value of
the last number is kept in `numVal_`. They are read back with `getId` and
`getNum`.

The model has four modules:

- `CharClass` (`char_class.dfy`): the `<cctype>` classes `isspace`,
  `isdigit`, `isalpha` and `isalnum`, as in the "C" locale.
- `Tokens` (`tokens.dfy`): the token datatype and the keyword comparison
  chain.
- `LexSpec` (`lex_spec.dfy`): `Scan(s)`, a reference definition of one call
  of `gettok`. It works on the *pending text*: the lookahead character
  followed by the unread input, where the empty sequence stands for EOF.
  The lemmas about `Scan` state the lexer's properties:
  - maximal munch;
  - keyword classification;
  - comment and whitespace skipping;
  - sticky EOF;
  - no re-reading;
  - progress.
- `Lexer` (`lexer.dfy`): the lexer object as a class. Its fields are the
  input byte stream (a sequence of `Byte`, the characters with codes 0 to
  255), the read position, the lookahead and the two payload fields.
  `Advance` stands in for `getchar`. `GetTok` is proved to return the token
  `Scan` gives and to leave exactly `Scan`'s remaining text pending. Only
  the payload field of the token's kind changes.

`gettok` is one C++ function. The model splits it along its branches into
methods: `SkipSpace`, `LexIdentifier`/`AppendAlnums`,
`LexNumeral`/`AppendNumChars`, `SkipComment`/`SkipToLineEnd` and `LexToken`.
Each loop of the source is a `while` loop in one of these methods. The
recursive call after a comment is a recursive call from `LexToken` to
`GetTok`.

One property is stated on the pending text rather than on the read position:
every token but EOF consumes at least one character. The read position alone
does not always move. Take the last character of the input returned as a
single-character token. Reading the next lookahead then yields EOF, and
`getchar` does not move past the end. What always shrinks is the pending
text (lookahead plus unread input). The position never moves backwards
(`GetTok` ensures `old(pos) <= pos`).

## Model

| member | source | states |
|---|---|---|
| `Tokens.KeywordOf` | Lexer.cpp:40-61 | classifying an identifier lexeme always yields a keyword or identifier token, never EOF, number or character |
| `Tokens.Spelling` | Lexer.cpp:40-59 | each keyword token is spelled by one of the ten keyword strings |
| `Tokens.KeywordOfClassifies` | Lexer.cpp:40-61 | a lexeme becomes a keyword token exactly when it is one of the ten keyword spellings, and then the keyword it spells; every other lexeme becomes an identifier |
| `Tokens.KeywordOfSpelling` | Lexer.cpp:40-59 | each keyword's spelling is classified as that keyword |
| `CharClass.IsSpace` | Lexer.cpp:26 | `isspace` in the "C" locale: the blank and the five control characters horizontal tab, line feed, vertical tab, form feed and carriage return (a definition, no contract) |
| `CharClass.IsAlpha` | Lexer.cpp:32 | `isalpha` in the "C" locale: the 52 ASCII letters (a definition, no contract) |
| `CharClass.IsAlnum` | Lexer.cpp:35 | `isalnum`: a letter or a decimal digit (a definition, no contract) |
| `CharClass.IsDigit` | Lexer.cpp:64 | `isdigit`: the ten decimal digits (a definition, no contract) |
| `LexSpec.Scan` | Lexer.cpp:20-99 | one call of `gettok` on the pending text: skip the leading whitespace, then lex one token. Every token but EOF leaves strictly less text pending. This follows from `ScanToken`'s own guarantee, including through the restart after a comment |
| `LexSpec.ScanToken` | Lexer.cpp:30-98 | the branches after whitespace in the source's order (identifier, number, comment then restart, EOF, any other character); every token but EOF leaves strictly less text pending |
| `LexSpec.LexWord` | Lexer.cpp:32-61 | the identifier branch splits the text into a non-empty lexeme and the rest, losing nothing, and the token is the lexeme's classification (its shape and maximality are `LexWordShape` and `ScanShape`) |
| `LexSpec.LexNumber` | Lexer.cpp:64-75 | the number branch splits the text into a non-empty lexeme and the rest, losing nothing, and the token is a number |
| `LexSpec.AfterComment` | Lexer.cpp:79-84 | what is left after a comment is a strictly shorter suffix of the text, so the restart after a comment makes progress |
| `LexSpec.LexWordShape` | Lexer.cpp:32-38 | the identifier branch's lexeme is `[a-zA-Z][a-zA-Z0-9]*`, and the text after it does not start with an alphanumeric |
| `LexSpec.LexNumberShape` | Lexer.cpp:64-72 | the number branch's lexeme is non-empty `[0-9.]+`, and the text after it does not start with a digit or `.` |
| `LexSpec.SpanLen` | Lexer.cpp:35-38 | the length of the run of characters a scanning loop consumes never exceeds the text |
| `LexSpec.SpanLenMaximal` | Lexer.cpp:35-38 | that run consists of characters of the class, and the character after it (if any) is not of the class: the loops munch maximally |
| `LexSpec.LexWordSplit` | Lexer.cpp:32-61 | given a full identifier lexeme followed by a non-alphanumeric, the identifier branch takes exactly that lexeme, classifies it and leaves the rest |
| `LexSpec.LexNumberSplit` | Lexer.cpp:64-75 | given a full `[0-9.]+` lexeme followed by a character that is neither digit nor `.`, the number branch takes exactly that lexeme and leaves the rest |
| `LexSpec.ScanShape` | Lexer.cpp:20-99 | for every input: an identifier or keyword lexeme is `[a-zA-Z][a-zA-Z0-9]*`, is classified by its spelling and is not followed by an alphanumeric; a number lexeme is non-empty `[0-9.]+` and not followed by a digit or `.`; a character token is a single character that is not whitespace, a letter, a digit, `.` or `#`; EOF leaves nothing pending; lexeme plus remaining text is a suffix of the input (nothing is re-read); every token but EOF consumes at least one character |
| `LexSpec.ScanSkipsLeadingSpace` | Lexer.cpp:25-28 | any run of whitespace before the text is skipped entirely: the scan of the text with it equals the scan without it |
| `LexSpec.ScanWord` | Lexer.cpp:32-61 | an identifier lexeme followed by a non-alphanumeric is returned whole, as the token its spelling denotes, with exactly the rest left pending |
| `LexSpec.ScanKeyword` | Lexer.cpp:40-59 | each of the ten keywords followed by a non-alphanumeric is returned as its keyword token |
| `LexSpec.KeywordPrefixIsIdentifier` | Lexer.cpp:32-61 | maximal munch: `define(` yields the identifier `define`, not the keyword `def` |
| `LexSpec.ScanNumeral` | Lexer.cpp:64-75 | a `[0-9.]+` lexeme followed by a character that is neither digit nor `.` is returned whole as a number |
| `LexSpec.SeveralDotsAreOneNumber` | Lexer.cpp:64-75 | `1.2.3` is accepted lexically as a single number token |
| `LexSpec.ScanCommentToLineEnd` | Lexer.cpp:79-87 | a `#` comment runs to the first line feed or carriage return, and lexing continues with the text after it |
| `LexSpec.ScanCommentToEnd` | Lexer.cpp:79-92 | a `#` comment that runs to the end of input yields EOF |
| `LexSpec.ScanOtherChar` | Lexer.cpp:94-97 | any character that is not whitespace, a letter, a digit, `.` or `#` is returned as itself, consuming only that character |
| `LexSpec.ScanEofIdempotent` | Lexer.cpp:90-92 | once EOF is returned nothing is pending, and scanning again returns EOF again |
| `Lexer.Lexer.constructor` | Lexer.cpp:16-23 | a fresh lexer has read nothing and has a blank as lookahead. `identifierStr` starts empty, as a default-constructed `std::string` does. The empty starting number lexeme is the model's own choice (see "Left out") |
| `Lexer.Lexer.Advance` | Lexer.cpp:111-126 | reads the next character of the stream and moves the position by one, or returns EOF without moving once the stream is exhausted |
| `Lexer.Lexer.GetId` | Lexer.cpp:106-109 | the identifier payload is empty or a well-formed identifier lexeme |
| `Lexer.Lexer.GetNum` | Lexer.cpp:101-104 | the number payload is empty or a well-formed `[0-9.]+` lexeme |
| `Lexer.Lexer.SkipSpace` | Lexer.cpp:25-28 | consumes exactly the leading run of whitespace of the pending text and leaves a non-whitespace lookahead |
| `Lexer.Lexer.LexIdentifier` | Lexer.cpp:32-61 | stores the maximal identifier lexeme in `identifierStr`, returns its classification, and leaves the rest pending |
| `Lexer.Lexer.AppendAlnums` | Lexer.cpp:35-38 | appends each alphanumeric lookahead to `identifierStr` until one is not alphanumeric; no character is lost or duplicated |
| `Lexer.Lexer.LexNumeral` | Lexer.cpp:64-75 | stores the maximal `[0-9.]+` lexeme as the number payload, returns the number token, and leaves the rest pending |
| `Lexer.Lexer.AppendNumChars` | Lexer.cpp:68-72 | appends each digit or `.` lookahead to the lexeme until one is neither; no character is lost or duplicated |
| `Lexer.Lexer.SkipComment` | Lexer.cpp:79-84 | consumes the `#` and everything up to the first line end or EOF; if a line end follows, the position has moved forward |
| `Lexer.Lexer.SkipToLineEnd` | Lexer.cpp:81-84 | consumes exactly the characters before the first line feed or carriage return |
| `Lexer.Lexer.LexToken` | Lexer.cpp:30-98 | after whitespace, takes the identifier, number, comment, EOF or single-character branch exactly as the reference scan does |
| `Lexer.Lexer.GetTok` | Lexer.cpp:20-99 | returns `Scan`'s token for the pending text and leaves `Scan`'s remaining text pending. An identifier or keyword sets `identifierStr` to its lexeme. A number sets the number payload. Nothing else changes. The position never decreases, and every token but EOF shrinks the pending text. EOF leaves EOF in the lookahead; on an exhausted lexer a call returns EOF and changes nothing. After an identifier the lookahead is not alphanumeric; after a number it is neither a digit nor `.` |

## Left out

- `Lexer.Lexer.GetNum`: returns the numeric lexeme instead of `numVal_`. `numVal_` is that lexeme converted by the C library's `strtod`, which is floating-point parsing and is not modelled.
- `LastChar` is a function-level `static` in the source, so every `Lexer` object shares one lookahead. The model gives each object its own lookahead, which is the same behaviour for a program that uses a single lexer.
- `getchar` reads standard input. The model reads from a fixed input sequence and stands for the stream's end with the `EndOfInput` lookahead.
- `getchar` delivers bytes. The lexer's `input` is therefore a sequence of `Byte`, the characters with codes 0 to 255, one per byte. A character outside that range cannot reach the lexer, and a UTF-8 character such as `é` reaches it as its separate bytes, each lexed on its own. The reference function `Scan` is stated for any string, but the lexer only ever applies it to such byte text.
- The integer token codes of `Lexer.h` are not part of this model. Tokens are a datatype, and a character token carries its character.
- The commented-out source-location tracking in the constructor and in `advance` is dead code and is not modelled.
- Bytes 128 to 255 belong to none of the character classes, as in the "C" locale. Locale-dependent classification is not modelled.
- `Lexer.Lexer.constructor`: the source never sets `numVal_` before the first number, so its value before then is not specified. The model starts the number lexeme as the empty text, which `GetNum` then returns.
- `AST.h` only declares syntax-tree classes whose behaviour is LLVM code generation. The parser, the code generator and the LLVM backend are not part of this model.
