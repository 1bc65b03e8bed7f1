/** The lexer object of Lexer.cpp: its one character of lookahead (the
    `static int LastChar` of `Lexer::gettok`), the position reached in the
    character stream, and the payload fields `identifierStr_` and `numVal_`. */
module Lexer {
  import opened CharClass
  import opened Tokens
  import opened LexSpec

  /** A byte of the stream, as `getchar` delivers it: a value from 0 to 255,
      held as the character with that code. Text in a multi-byte encoding
      such as UTF-8 arrives one byte at a time. */
  type Byte = c: char | c <= '\U{FF}'

  /** The value `getchar` returns: a byte, or EOF. */
  datatype Lookahead = Ch(c: Byte) | EndOfInput

  /** The text a lookahead holds: its character, or nothing at EOF. */
  function Held(l: Lookahead): string {
    if l.Ch? then [l.c] else []
  }

  class Lexer {
    /** The byte stream `getchar` reads from. */
    const input: seq<Byte>
    /** How many characters of `input` have been read. */
    var pos: nat
    /** The lookahead, `LastChar`. */
    var lastChar: Lookahead
    /** `identifierStr_`: the lexeme of the last identifier or keyword. */
    var identifierStr: string
    /** The lexeme of the last number, whose value is `numVal_`. */
    var numStr: string

    /** The position is within the stream, and the lookahead holds EOF only
        once the stream is exhausted. */
    ghost predicate Reading()
      reads this
    {
      pos <= |input| && (lastChar == EndOfInput ==> pos == |input|)
    }

    /** The object invariant: the stream is read consistently, and each
        payload field is empty or holds a lexeme of its kind. */
    ghost predicate Valid()
      reads this
    {
      && Reading()
      && (identifierStr == [] || IsWordText(identifierStr))
      && (numStr == [] || IsNumeral(numStr))
    }

    /** The text not yet consumed: the lookahead, then the unread input. */
    ghost function Pending(): string
      reads this
      requires Reading()
    {
      Held(lastChar) + input[pos..]
    }

    /** A lexer over `text`; the lookahead starts as a blank. */
    constructor (text: seq<Byte>)
      ensures Valid() && input == text && pos == 0 && lastChar == Ch(' ')
      ensures identifierStr == [] && numStr == []
      ensures Pending() == [' '] + text
    {
      input := text;
      pos := 0;
      lastChar := Ch(' ');
      identifierStr := [];
      numStr := [];
    }

    /** `advance`, and the bare `getchar` calls of gettok: the next character,
        or EOF (again and again) once the stream is exhausted. */
    method Advance() returns (next: Lookahead)
      requires Reading()
      modifies this`pos
      ensures Reading()
      ensures old(pos) < |input| ==> next == Ch(input[old(pos)]) && pos == old(pos) + 1
      ensures old(pos) == |input| ==> next == EndOfInput && pos == old(pos)
      ensures Held(next) + input[pos..] == input[old(pos)..]
    {
      if pos < |input| {
        next := Ch(input[pos]);
        pos := pos + 1;
      } else {
        next := EndOfInput;
      }
    }

    /** `getId`: the lexeme of the last identifier or keyword, if any. */
    function GetId(): (id: string)
      reads this
      requires Valid()
      ensures id == [] || IsWordText(id)
    {
      identifierStr
    }

    /** `getNum`: the lexeme of the last number, if any. */
    function GetNum(): (lexeme: string)
      reads this
      requires Valid()
      ensures lexeme == [] || IsNumeral(lexeme)
    {
      numStr
    }

    /** gettok's first loop: skip any whitespace in the lookahead. */
    method SkipSpace()
      requires Valid()
      modifies this`pos, this`lastChar
      ensures Valid() && old(pos) <= pos
      ensures Pending() == old(Pending())[SpanLen(old(Pending()), IsSpace)..]
      ensures !(lastChar.Ch? && IsSpace(lastChar.c))
    {
      ghost var s0 := Pending();
      ghost var k := 0;
      while lastChar.Ch? && IsSpace(lastChar.c)
        invariant Reading() && old(pos) <= pos
        invariant k <= |s0| && Pending() == s0[k..]
        invariant forall i :: 0 <= i < k ==> IsSpace(s0[i])
        decreases |s0| - k
      {
        ghost var rest := Pending();
        lastChar := Advance();
        assert Pending() == rest[1..];
        k := k + 1;
      }
      SpanLenUnique(s0, IsSpace, k);
    }

    /** gettok's identifier branch: collect [a-zA-Z][a-zA-Z0-9]* into
        `identifierStr`, then classify it as a keyword or an identifier. */
    method LexIdentifier() returns (tok: Token)
      requires Valid() && lastChar.Ch? && IsAlpha(lastChar.c)
      modifies this`pos, this`lastChar, this`identifierStr
      ensures Valid() && old(pos) <= pos
      ensures tok == LexWord(old(Pending())).tok
      ensures identifierStr == LexWord(old(Pending())).text
      ensures Pending() == LexWord(old(Pending())).rest
    {
      ghost var t := Pending();
      identifierStr := [lastChar.c];
      lastChar := Advance();
      AppendAlnums();
      LexWordSplit(identifierStr, Pending());
      tok := KeywordOf(identifierStr);
    }

    /** The loop of the identifier branch: append alphanumerics from the
        lookahead to `identifierStr`. */
    method AppendAlnums()
      requires Reading() && IsWordText(identifierStr)
      modifies this`pos, this`lastChar, this`identifierStr
      ensures Reading() && old(pos) <= pos
      ensures IsWordText(identifierStr)
      ensures identifierStr + Pending() == old(identifierStr) + old(Pending())
      ensures !(lastChar.Ch? && IsAlnum(lastChar.c))
    {
      ghost var t := identifierStr + Pending();
      while lastChar.Ch? && IsAlnum(lastChar.c)
        invariant Reading() && old(pos) <= pos
        invariant IsWordText(identifierStr) && identifierStr + Pending() == t
        decreases |Pending()|
      {
        ghost var (word, rest) := (identifierStr, Pending());
        ExtendWord(word, lastChar.c);
        ShiftOne(word, rest);
        identifierStr := identifierStr + [lastChar.c];
        lastChar := Advance();
        assert Pending() == rest[1..];
      }
    }

    /** gettok's number branch: collect [0-9.]+ and keep it as the number's lexeme. */
    method LexNumeral() returns (tok: Token)
      requires Valid() && lastChar.Ch? && IsNumChar(lastChar.c)
      modifies this`pos, this`lastChar, this`numStr
      ensures Valid() && old(pos) <= pos
      ensures tok == Number
      ensures numStr == LexNumber(old(Pending())).text
      ensures Pending() == LexNumber(old(Pending())).rest
    {
      ghost var t := Pending();
      var text := [lastChar.c];
      lastChar := Advance();
      text := AppendNumChars(text);
      LexNumberSplit(text, Pending());
      numStr := text;
      tok := Number;
    }

    /** The loop of the number branch: append digits and dots from the
        lookahead to the lexeme being built. */
    method AppendNumChars(text0: string) returns (text: string)
      requires Reading() && IsNumeral(text0)
      modifies this`pos, this`lastChar
      ensures Reading() && old(pos) <= pos
      ensures IsNumeral(text) && text + Pending() == text0 + old(Pending())
      ensures !(lastChar.Ch? && IsNumChar(lastChar.c))
    {
      ghost var t := text0 + Pending();
      text := text0;
      while lastChar.Ch? && IsNumChar(lastChar.c)
        invariant Reading() && old(pos) <= pos
        invariant IsNumeral(text) && text + Pending() == t
        decreases |Pending()|
      {
        ghost var (prefix, rest) := (text, Pending());
        ExtendNumeral(prefix, lastChar.c);
        ShiftOne(prefix, rest);
        text := text + [lastChar.c];
        lastChar := Advance();
        assert Pending() == rest[1..];
      }
    }

    /** gettok's comment branch: read past the '#' up to a line end or EOF. */
    method SkipComment()
      requires Valid() && lastChar == Ch('#')
      modifies this`pos, this`lastChar
      ensures Valid() && old(pos) <= pos
      ensures Pending() == AfterComment(old(Pending()))
      ensures lastChar.Ch? ==> old(pos) < pos
    {
      lastChar := Advance();
      SkipToLineEnd();
    }

    /** The loop of the comment branch: read until the lookahead is a line
        feed, a carriage return or EOF. */
    method SkipToLineEnd()
      requires Reading()
      modifies this`pos, this`lastChar
      ensures Reading() && old(pos) <= pos
      ensures Pending() == old(Pending())[SpanLen(old(Pending()), NotLineEnd)..]
    {
      ghost var s0 := Pending();
      ghost var k := 0;
      while lastChar.Ch? && lastChar.c != '\n' && lastChar.c != '\r'
        invariant Reading() && old(pos) <= pos
        invariant k <= |s0| && Pending() == s0[k..]
        invariant forall i :: 0 <= i < k ==> NotLineEnd(s0[i])
        decreases |s0| - k
      {
        ghost var rest := Pending();
        lastChar := Advance();
        assert Pending() == rest[1..];
        k := k + 1;
      }
      SpanLenUnique(s0, NotLineEnd, k);
    }

    /** `gettok`: returns the next token and consumes exactly what `Scan`
        says; an identifier or keyword sets `identifierStr`, a number sets
        `numStr`, and nothing else changes. */
    method GetTok() returns (tok: Token)
      requires Valid()
      modifies this
      decreases |input| - pos, 1
      ensures Valid() && old(pos) <= pos
      ensures tok == Scan(old(Pending())).tok
      ensures Pending() == Scan(old(Pending())).rest
      ensures identifierStr == if tok.IsWord() then Scan(old(Pending())).text else old(identifierStr)
      ensures numStr == if tok == Number then Scan(old(Pending())).text else old(numStr)
      ensures tok != Eof ==> |Pending()| < |old(Pending())|
      ensures tok == Eof ==> lastChar == EndOfInput && pos == |input|
      ensures old(Pending()) == [] ==> tok == Eof && pos == old(pos) && lastChar == old(lastChar)
      ensures tok.IsWord() ==> !(lastChar.Ch? && IsAlnum(lastChar.c))
      ensures tok == Number ==> !(lastChar.Ch? && IsNumChar(lastChar.c))
    {
      ghost var s0 := Pending();
      ScanShape(s0);
      SkipSpace();
      assert Scan(s0) == ScanToken(Pending());
      tok := LexToken();
      assert lastChar.Ch? ==> Pending()[0] == lastChar.c;
    }

    /** The rest of gettok, once the lookahead is not whitespace: the
        identifier, number, comment, EOF and single-character branches. */
    method LexToken() returns (tok: Token)
      requires Valid() && !(lastChar.Ch? && IsSpace(lastChar.c))
      modifies this
      decreases |input| - pos, 0
      ensures Valid() && old(pos) <= pos
      ensures tok == ScanToken(old(Pending())).tok
      ensures Pending() == ScanToken(old(Pending())).rest
      ensures identifierStr == if tok.IsWord() then ScanToken(old(Pending())).text else old(identifierStr)
      ensures numStr == if tok == Number then ScanToken(old(Pending())).text else old(numStr)
    {
      ghost var t := Pending();
      assert t == [] <==> lastChar == EndOfInput;
      assert lastChar.Ch? ==> t[0] == lastChar.c;

      if lastChar.Ch? && IsAlpha(lastChar.c) {
        tok := LexIdentifier();
        return;
      }

      if lastChar.Ch? && IsNumChar(lastChar.c) {
        tok := LexNumeral();
        return;
      }

      if lastChar == Ch('#') {
        SkipComment();
        if lastChar != EndOfInput {
          assert ScanToken(t) == Scan(Pending());
          tok := GetTok();
          return;
        }
      }

      // EOF stays in the lookahead, so the next call sees it again.
      if lastChar == EndOfInput {
        tok := Eof;
        return;
      }

      // Any other character is its own token; read one more into the lookahead.
      var thisChar := lastChar.c;
      lastChar := Advance();
      tok := Char(thisChar);
    }
  }
}
