/** The tokens `Lexer::gettok` returns, and the classification of an
    identifier lexeme into a keyword or a plain identifier. */
module Tokens {

  /** gettok's result: end of input, one of the ten keywords, an identifier
      or a number (their payload is left in the lexer's side fields), or any
      other character returned as itself. */
  datatype Token =
    | Eof
    | Def | Extern | If | Then | Else | For | In | Unary | Binary | Var
    | Identifier
    | Number
    | Char(c: char)
  {
    /** The tokens of gettok's identifier branch: a keyword or an identifier. */
    predicate IsWord() {
      !Eof? && !Number? && !Char?
    }

    predicate IsKeyword() {
      IsWord() && !Identifier?
    }
  }

  /** The spellings of the ten keywords. */
  const Keywords: set<string> :=
    {"def", "extern", "if", "then", "else", "for", "in", "unary", "binary", "var"}

  /** The comparison chain that ends gettok's identifier branch. */
  function KeywordOf(w: string): (t: Token)
    ensures t.IsWord()
  {
    if w == "def" then Def
    else if w == "extern" then Extern
    else if w == "if" then If
    else if w == "then" then Then
    else if w == "else" then Else
    else if w == "for" then For
    else if w == "in" then In
    else if w == "unary" then Unary
    else if w == "binary" then Binary
    else if w == "var" then Var
    else Identifier
  }

  /** The text that spells a keyword token. */
  function Spelling(t: Token): (w: string)
    requires t.IsKeyword()
    ensures w in Keywords
  {
    match t
    case Def => "def"
    case Extern => "extern"
    case If => "if"
    case Then => "then"
    case Else => "else"
    case For => "for"
    case In => "in"
    case Unary => "unary"
    case Binary => "binary"
    case Var => "var"
  }

  /** A lexeme is classified as a keyword token exactly when it is one of the ten keyword spellings, in which case it
      is the keyword that this spelling denotes. */
  lemma KeywordOfClassifies(w: string)
    ensures KeywordOf(w) == Identifier <==> w !in Keywords
    ensures KeywordOf(w).IsKeyword() ==> Spelling(KeywordOf(w)) == w
  {
  }

  /** Each keyword's spelling is classified as that keyword. */
  lemma KeywordOfSpelling(t: Token)
    requires t.IsKeyword()
    ensures KeywordOf(Spelling(t)) == t
  {
  }
}
