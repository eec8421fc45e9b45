/** The assembler's lexer: character classes, tokens, the lexer's result as a function of
    the input, and the `Lexer` class that computes it by moving a cursor over the stream.

    The stream is a sequence of bytes. A `char` is signed where the source is built, so
    `static_cast<char>(EOF)` and the byte 0xFF are the same value: reading either stops
    the lexer, and peeking at either ends a run of letters or digits. */
module AsmLexer {
  import opened Isa
  import opened Results

  datatype TokenType = IDENTIFIER | INTEGER | ENDLINE | SECTION

  /** A token: where it starts (line and column) and what it is. */
  datatype Token = Token(line: int, col: int, kind: TokenType, data: string)

  /** The `runtime_error` the lexer throws: the character it could not start a token with,
      and the line it is on. */
  datatype LexError = UnexpectedChar(c: Byte, line: int)

  type Lexed = Result<seq<Token>, LexError>

  /** `static_cast<char>(EOF)`, as a byte. */
  const EOF_BYTE: Byte := 0xFF
  const LF: Byte := 10

  predicate IsAlpha(c: Byte) {
    ('a' as int <= c <= 'z' as int) || ('A' as int <= c <= 'Z' as int) || c == '_' as int
  }

  predicate IsDigit(c: Byte) {
    '0' as int <= c <= '9' as int
  }

  predicate IsBinaryDigit(c: Byte) {
    c == '0' as int || c == '1' as int
  }

  predicate IsHexDigit(c: Byte) {
    IsDigit(c) || ('A' as int <= c <= 'F' as int) || ('a' as int <= c <= 'f' as int)
  }

  predicate IsAlphaNumeric(c: Byte) {
    IsAlpha(c) || IsDigit(c)
  }

  predicate IsWhitespace(c: Byte) {
    c == ' ' as int || c == '\t' as int || c == '\r' as int
  }

  /** The character classes the lexer's loops run over. */
  datatype CharClass = AlphaNumeric | HexDigit | BinaryDigit | Digit

  predicate InClass(c: Byte, cl: CharClass) {
    match cl
    case AlphaNumeric => IsAlphaNumeric(c)
    case HexDigit => IsHexDigit(c)
    case BinaryDigit => IsBinaryDigit(c)
    case Digit => IsDigit(c)
  }

  /** No class holds the end-of-file value. */
  lemma EofInNoClass(cl: CharClass)
    ensures !InClass(EOF_BYTE, cl)
  {
  }

  /** What `peek` and `get` see at position `p`: the byte there, or EOF past the end. */
  function CharAt(input: seq<Byte>, p: nat): Byte {
    if p < |input| then input[p] else EOF_BYTE
  }

  /** The bytes of a token's text as characters. */
  function Text(bytes: seq<Byte>): (s: string)
    ensures |s| == |bytes|
    ensures forall k :: 0 <= k < |bytes| ==> s[k] as int == bytes[k]
  {
    seq(|bytes|, k requires 0 <= k < |bytes| => bytes[k] as char)
  }

  /** Where a loop `while (class(peek_next())) data += next();` started at `j` stops: the
      first position from `j` on whose byte is not in the class. */
  function RunEnd(input: seq<Byte>, j: nat, cl: CharClass): (e: nat)
    requires j <= |input|
    ensures j <= e <= |input|
    ensures forall k :: j <= k < e ==> InClass(input[k], cl)
    ensures e < |input| ==> !InClass(input[e], cl)
    decreases |input| - j
  {
    if j < |input| && InClass(input[j], cl) then RunEnd(input, j + 1, cl) else j
  }

  /** Where `Lexer::number` stops for a numeral whose first digit is at `p`: after that digit
      alone unless it is `0`; after a `0`, the run of hex digits if `x` follows, of binary digits
      if `b` follows, and of decimal digits otherwise. The prefix letter itself is in neither
      run, so neither of the first two loops takes a step. */
  function NumberEnd(input: seq<Byte>, p: nat): (e: nat)
    requires p < |input|
    ensures p < e <= |input|
  {
    if input[p] != '0' as int then p + 1
    else if CharAt(input, p + 1) == 'x' as int then RunEnd(input, p + 1, HexDigit)
    else if CharAt(input, p + 1) == 'b' as int then RunEnd(input, p + 1, BinaryDigit)
    else RunEnd(input, p + 1, Digit)
  }

  /** What the loop of `Lexer::generate_tokens` returns, started with the stream at `pos`, on
      line `line` with the column counter at `col`, having emitted `acc`. Each pass reads one
      byte (advancing the column) and that byte's column is where its token starts; a line
      break resets the counter to 0. */
  function LexFrom(input: seq<Byte>, pos: nat, line: int, col: int, acc: seq<Token>): Lexed
    decreases |input| - pos
  {
    if pos >= |input| then Ok(acc)
    else
      var c := input[pos];
      var start := col + 1;
      if c == EOF_BYTE then Ok(acc)
      else if IsWhitespace(c) then LexFrom(input, pos + 1, line, start, acc)
      else if c == LF then LexFrom(input, pos + 1, line + 1, 0, acc + [Token(line, start, ENDLINE, "")])
      else if IsAlpha(c) then
        var e := RunEnd(input, pos + 1, AlphaNumeric);
        LexFrom(input, e, line, start + (e - pos - 1), acc + [Token(line, start, IDENTIFIER, Text(input[pos..e]))])
      else if IsDigit(c) then
        var e := NumberEnd(input, pos);
        LexFrom(input, e, line, start + (e - pos - 1), acc + [Token(line, start, INTEGER, Text(input[pos..e]))])
      else Err(UnexpectedChar(c, line))
  }

  /** `Lexer::tokens_from_file` on a file whose contents are `input`. */
  function Lex(input: seq<Byte>): Lexed {
    LexFrom(input, 0, 1, 1, [])
  }

  /** A pass of the loop over a letter: the lexer goes on after the identifier's run with the
      identifier emitted. */
  lemma IdentifierPass(input: seq<Byte>, p: nat, line: int, col: int, acc: seq<Token>)
    requires p < |input| && IsAlpha(input[p])
    ensures var e := RunEnd(input, p + 1, AlphaNumeric);
      LexFrom(input, p, line, col, acc) ==
      LexFrom(input, e, line, col + 1 + (e - (p + 1)), acc + [Token(line, col + 1, IDENTIFIER, Text(input[p..e]))])
  {
  }

  /** A pass of the loop over a digit: the lexer goes on after the numeral with the INTEGER
      token emitted. */
  lemma NumberPass(input: seq<Byte>, p: nat, line: int, col: int, acc: seq<Token>)
    requires p < |input| && IsDigit(input[p])
    ensures var e := NumberEnd(input, p);
      LexFrom(input, p, line, col, acc) ==
      LexFrom(input, e, line, col + 1 + (e - (p + 1)), acc + [Token(line, col + 1, INTEGER, Text(input[p..e]))])
  {
  }

  /** `class Lexer`: the stream (its contents, read position and end-of-file flag), the tokens
      emitted so far, and the line and column counters. */
  class Lexer {
    const input: seq<Byte>
    var pos: nat
    var eof: bool
    var tokens: seq<Token>
    var line: int
    var startcol: int
    var col: int

    /** The read position lies in the stream, and the end-of-file flag is only set there. */
    predicate Valid()
      reads this
    {
      pos <= |input| && (eof ==> pos == |input|)
    }

    constructor(contents: seq<Byte>)
      ensures Valid() && input == contents && pos == 0 && !eof
      ensures tokens == [] && line == 1 && startcol == 1 && col == 1
    {
      input := contents;
      pos := 0;
      eof := false;
      tokens := [];
      line := 1;
      startcol := 1;
      col := 1;
    }

    /** `peek_next`: the next byte, without consuming it; peeking past the end sets the flag. */
    method PeekNext() returns (c: Byte)
      requires Valid()
      modifies this`eof
      ensures Valid()
      ensures c == CharAt(input, pos)
      ensures eof == (old(eof) || pos == |input|)
    {
      c := CharAt(input, pos);
      if pos == |input| {
        eof := true;
      }
    }

    /** `next`: count a column and consume the next byte; reading past the end sets the flag. */
    method Next() returns (c: Byte)
      requires Valid()
      modifies this`pos, this`eof, this`col
      ensures Valid()
      ensures c == CharAt(input, old(pos))
      ensures pos == if old(pos) < |input| then old(pos) + 1 else old(pos)
      ensures eof == (old(eof) || old(pos) == |input|)
      ensures col == old(col) + 1
    {
      col := col + 1;
      c := CharAt(input, pos);
      if pos < |input| {
        pos := pos + 1;
      } else {
        eof := true;
      }
    }

    /** The loop `while (class(peek_next())) data += next();`: consume the run of bytes of the
        class, counting a column for each. */
    method TakeWhile(cl: CharClass) returns (run: seq<Byte>)
      requires Valid()
      modifies this`pos, this`eof, this`col
      ensures Valid()
      ensures pos == RunEnd(input, old(pos), cl) && run == input[old(pos)..pos]
      ensures col == old(col) + |run|
      ensures eof == (old(eof) || pos == |input|)
    {
      run := [];
      var c := PeekNext();
      while InClass(c, cl)
        invariant Valid() && old(pos) <= pos
        invariant RunEnd(input, pos, cl) == RunEnd(input, old(pos), cl)
        invariant c == CharAt(input, pos) && run == input[old(pos)..pos]
        invariant col == old(col) + |run|
        invariant eof == (old(eof) || pos == |input|)
        decreases |input| - pos
      {
        EofInNoClass(cl);
        var d := Next();
        run := run + [d];
        c := PeekNext();
      }
      EofInNoClass(cl);
    }

    /** `Lexer::identifier`: the letter just read and the letters, digits and underscores
        after it make one IDENTIFIER token. */
    method Identifier(first: Byte)
      requires Valid() && 0 < pos && first == input[pos - 1] && IsAlpha(first)
      modifies this`pos, this`eof, this`col, this`tokens
      ensures Valid()
      ensures pos == RunEnd(input, old(pos), AlphaNumeric)
      ensures tokens == old(tokens) + [Token(line, startcol, IDENTIFIER, Text(input[old(pos) - 1..pos]))]
      ensures col == old(col) + (pos - old(pos))
      ensures eof == (old(eof) || pos == |input|)
      ensures startcol == old(col) ==>
        LexFrom(input, pos, line, col, tokens) == LexFrom(input, old(pos) - 1, line, old(col) - 1, old(tokens))
    {
      IdentifierPass(input, pos - 1, line, col - 1, tokens);
      var run := TakeWhile(AlphaNumeric);
      assert [first] + run == input[old(pos) - 1..pos];
      tokens := tokens + [Token(line, startcol, IDENTIFIER, Text([first] + run))];
    }

    /** `Lexer::number`: the digit just read, and after a `0` the run its next byte selects,
        make one INTEGER token. */
    method Number(first: Byte)
      requires Valid() && 0 < pos && first == input[pos - 1] && IsDigit(first)
      modifies this`pos, this`eof, this`col, this`tokens
      ensures Valid()
      ensures pos == NumberEnd(input, old(pos) - 1)
      ensures tokens == old(tokens) + [Token(line, startcol, INTEGER, Text(input[old(pos) - 1..pos]))]
      ensures col == old(col) + (pos - old(pos))
      ensures pos < |input| ==> eof == old(eof)
      ensures startcol == old(col) ==>
        LexFrom(input, pos, line, col, tokens) == LexFrom(input, old(pos) - 1, line, old(col) - 1, old(tokens))
    {
      NumberPass(input, pos - 1, line, col - 1, tokens);
      var data := NumberText(first);
      tokens := tokens + [Token(line, startcol, INTEGER, Text(data))];
    }

    /** The bytes of the numeral `Lexer::number` reads: the digit just read, and after a `0`
        a run of hexadecimal digits if an `x` follows, of binary digits if a `b` follows, and
        of decimal digits otherwise. */
    method NumberText(first: Byte) returns (data: seq<Byte>)
      requires Valid() && 0 < pos && first == input[pos - 1] && IsDigit(first)
      modifies this`pos, this`eof, this`col
      ensures Valid()
      ensures pos == NumberEnd(input, old(pos) - 1) && data == input[old(pos) - 1..pos]
      ensures col == old(col) + (pos - old(pos))
      ensures pos < |input| ==> eof == old(eof)
    {
      data := [first];
      if first == '0' as int {
        var c := PeekNext();
        var run;
        if c == 'x' as int {
          run := TakeWhile(HexDigit);
        } else {
          c := PeekNext();
          if c == 'b' as int {
            run := TakeWhile(BinaryDigit);
          } else {
            run := TakeWhile(Digit);
          }
        }
        data := data + run;
      }
    }

    /** `Lexer::generate_tokens`: rewind the stream, then read a byte at a time until the end
        of the stream or an EOF byte, skipping blanks, emitting an ENDLINE token for each line
        break, starting an IDENTIFIER at a letter or underscore and an INTEGER at a digit,
        and failing on any other byte. */
    method GenerateTokens() returns (r: Lexed)
      requires Valid()
      modifies this`pos, this`eof, this`col, this`startcol, this`line, this`tokens
      ensures r == LexFrom(input, 0, old(line), old(col), old(tokens))
    {
      pos := 0;
      eof := false;
      while !eof
        invariant Valid()
        invariant LexFrom(input, pos, line, col, tokens) == LexFrom(input, 0, old(line), old(col), old(tokens))
        decreases |input| - pos, if eof then 0 else 1
      {
        var c := Next();
        startcol := col;
        if c == EOF_BYTE {
          break;
        } else if IsWhitespace(c) {
          continue;
        } else if c == LF {
          tokens := tokens + [Token(line, startcol, ENDLINE, "")];
          line := line + 1;
          col := 0;
        } else if IsAlpha(c) {
          Identifier(c);
        } else if IsDigit(c) {
          Number(c);
        } else {
          return Err(UnexpectedChar(c, line));
        }
      }
      return Ok(tokens);
    }
  }

  /** `Lexer::tokens_from_file`, given the file's contents: a fresh lexer's tokens. */
  method TokensFromFile(contents: seq<Byte>) returns (r: Lexed)
    ensures r == Lex(contents)
  {
    var lexer := new Lexer(contents);
    r := lexer.GenerateTokens();
  }
}
