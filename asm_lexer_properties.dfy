/** What the lexer promises: line numbers count the line breaks before a token, each token
    has the shape its kind calls for, the letters and digits of the input come out in order
    with nothing added, and the lexer fails exactly when a byte before the end cannot start a
    token. Also the forms the number loops give as they are written. */
module AsmLexerProperties {
  import opened Isa
  import opened Results
  import opened AsmLexer

  // ---------------------------------------------------------------------------------------
  // One pass of the loop

  /** The bytes the lexer accepts where a token may start: blanks, line breaks, letters,
      digits and underscores. */
  predicate Lexable(c: Byte) {
    IsWhitespace(c) || c == LF || IsAlphaNumeric(c)
  }

  /** Where one pass of the lexer's loop leaves it: the next position, line and column, and
      the tokens it emitted (none for a blank, one otherwise). */
  datatype Move = Move(pos: nat, line: int, col: int, emitted: seq<Token>)

  function MoveAt(input: seq<Byte>, pos: nat, line: int, col: int): (m: Move)
    requires pos < |input| && Lexable(input[pos])
    ensures pos < m.pos <= |input|
  {
    var c := input[pos];
    var start := col + 1;
    if IsWhitespace(c) then Move(pos + 1, line, start, [])
    else if c == LF then Move(pos + 1, line + 1, 0, [Token(line, start, ENDLINE, "")])
    else if IsAlpha(c) then
      var e := RunEnd(input, pos + 1, AlphaNumeric);
      Move(e, line, start + (e - pos - 1), [Token(line, start, IDENTIFIER, Text(input[pos..e]))])
    else
      var e := NumberEnd(input, pos);
      Move(e, line, start + (e - pos - 1), [Token(line, start, INTEGER, Text(input[pos..e]))])
  }

  /** A pass over a byte that can start a token continues the lexer from where it leaves it. */
  lemma LexFromMove(input: seq<Byte>, pos: nat, line: int, col: int, acc: seq<Token>)
    requires pos < |input| && Lexable(input[pos])
    ensures var m := MoveAt(input, pos, line, col);
      LexFrom(input, pos, line, col, acc) == LexFrom(input, m.pos, m.line, m.col, acc + m.emitted)
  {
    assert acc + [] == acc;
  }

  /** Where no token can start, the lexer stops: at the end or an EOF byte with what it has,
      at any other byte with that byte and the current line. */
  lemma LexFromStops(input: seq<Byte>, pos: nat, line: int, col: int, acc: seq<Token>)
    requires pos < |input| ==> !Lexable(input[pos])
    ensures LexFrom(input, pos, line, col, acc) ==
      if pos < |input| && input[pos] != EOF_BYTE then Err(UnexpectedChar(input[pos], line)) else Ok(acc)
  {
  }

  // ---------------------------------------------------------------------------------------
  // Line numbers

  /** The number of ENDLINE tokens in `ts`. */
  function Endlines(ts: seq<Token>): nat {
    if ts == [] then 0
    else Endlines(ts[..|ts| - 1]) + (if ts[|ts| - 1].kind == ENDLINE then 1 else 0)
  }

  /** Every token is on line 1 plus the number of line breaks before it (stated from the last
      token back; `LineOf` gives the same for any one token). */
  predicate LinesCounted(ts: seq<Token>) {
    ts == [] || (LinesCounted(ts[..|ts| - 1]) && ts[|ts| - 1].line == 1 + Endlines(ts[..|ts| - 1]))
  }

  lemma LinesCountedAppend(acc: seq<Token>, t: Token)
    requires LinesCounted(acc) && t.line == 1 + Endlines(acc)
    ensures LinesCounted(acc + [t])
    ensures Endlines(acc + [t]) == Endlines(acc) + (if t.kind == ENDLINE then 1 else 0)
  {
    assert (acc + [t])[..|acc|] == acc;
  }

  /** The token at `k` is on line 1 plus the number of line breaks before it. */
  lemma {:induction false} LineOf(ts: seq<Token>, k: nat)
    requires LinesCounted(ts) && k < |ts|
    ensures ts[k].line == 1 + Endlines(ts[..k])
    decreases |ts|
  {
    if k < |ts| - 1 {
      var front := ts[..|ts| - 1];
      LineOf(front, k);
      assert front[..k] == ts[..k];
    }
  }

  lemma MoveLines(input: seq<Byte>, pos: nat, line: int, col: int, acc: seq<Token>)
    requires pos < |input| && Lexable(input[pos])
    requires LinesCounted(acc) && line == 1 + Endlines(acc)
    ensures var m := MoveAt(input, pos, line, col);
      LinesCounted(acc + m.emitted) && m.line == 1 + Endlines(acc + m.emitted)
  {
    var m := MoveAt(input, pos, line, col);
    if m.emitted == [] {
      assert acc + m.emitted == acc;
    } else {
      LinesCountedAppend(acc, m.emitted[0]);
    }
  }

  lemma {:induction false} LexFromLines(input: seq<Byte>, pos: nat, line: int, col: int, acc: seq<Token>)
    requires LinesCounted(acc) && line == 1 + Endlines(acc)
    ensures LexFrom(input, pos, line, col, acc).Ok? ==> LinesCounted(LexFrom(input, pos, line, col, acc).value)
    ensures LexFrom(input, pos, line, col, acc).Err? ==> LexFrom(input, pos, line, col, acc).error.line >= line
    decreases |input| - pos
  {
    if pos < |input| && Lexable(input[pos]) {
      var m := MoveAt(input, pos, line, col);
      LexFromMove(input, pos, line, col, acc);
      MoveLines(input, pos, line, col, acc);
      LexFromLines(input, m.pos, m.line, m.col, acc + m.emitted);
    } else {
      LexFromStops(input, pos, line, col, acc);
    }
  }

  /** Each token's line is one more than the number of line breaks before it, so lines never
      go down; a failure reports a line no earlier than 1. */
  lemma LexLines(input: seq<Byte>)
    ensures Lex(input).Ok? ==>
      forall k :: 0 <= k < |Lex(input).value| ==> Lex(input).value[k].line == 1 + Endlines(Lex(input).value[..k])
    ensures Lex(input).Err? ==> Lex(input).error.line >= 1
  {
    LexFromLines(input, 0, 1, 1, []);
    if Lex(input).Ok? {
      var ts := Lex(input).value;
      forall k | 0 <= k < |ts|
        ensures ts[k].line == 1 + Endlines(ts[..k])
      {
        LineOf(ts, k);
      }
    }
  }

  /** A longer prefix never holds fewer ENDLINE tokens. */
  lemma {:induction false} EndlinesGrow(ts: seq<Token>, j: nat, k: nat)
    requires j <= k <= |ts|
    ensures Endlines(ts[..j]) <= Endlines(ts[..k])
    decreases k - j
  {
    if j < k {
      EndlinesGrow(ts, j, k - 1);
      assert ts[..k][..k - 1] == ts[..k - 1];
    }
  }

  /** Line numbers never decrease along the lexer's tokens. */
  lemma LexLinesOrdered(input: seq<Byte>)
    ensures Lex(input).Ok? ==>
      forall j, k :: 0 <= j <= k < |Lex(input).value| ==> Lex(input).value[j].line <= Lex(input).value[k].line
  {
    LexLines(input);
    if Lex(input).Ok? {
      var ts := Lex(input).value;
      forall j, k | 0 <= j <= k < |ts|
        ensures ts[j].line <= ts[k].line
      {
        EndlinesGrow(ts, j, k);
      }
    }
  }

  // ---------------------------------------------------------------------------------------
  // Token shapes

  /** The shape of a token the lexer emits: an ENDLINE has no text; an IDENTIFIER is a letter
      or underscore followed by letters, digits and underscores; an INTEGER is decimal digits,
      and only one digit unless the first is `0`. The lexer never emits a SECTION. */
  predicate Shaped(t: Token) {
    match t.kind
    case ENDLINE => t.data == ""
    case IDENTIFIER =>
      && |t.data| > 0
      && (forall k :: 0 <= k < |t.data| ==> t.data[k] as int < 0x100 && IsAlphaNumeric(t.data[k] as int))
      && IsAlpha(t.data[0] as int)
    case INTEGER =>
      && |t.data| > 0
      && (forall k :: 0 <= k < |t.data| ==> '0' <= t.data[k] <= '9')
      && (|t.data| > 1 ==> t.data[0] == '0')
    case SECTION => false
  }

  predicate AllShaped(ts: seq<Token>) {
    forall k :: 0 <= k < |ts| ==> Shaped(ts[k])
  }

  lemma AllShapedAppend(acc: seq<Token>, t: Token)
    requires AllShaped(acc) && Shaped(t)
    ensures AllShaped(acc + [t])
  {
  }

  /** After `0`, a number's run is decimal digits: the hex and binary runs stop at once,
      because `x` is not a hex digit and `b` is not a binary digit. */
  lemma NumberDigits(input: seq<Byte>, p: nat)
    requires p < |input| && IsDigit(input[p])
    ensures forall k :: p <= k < NumberEnd(input, p) ==> IsDigit(input[k])
    ensures NumberEnd(input, p) > p + 1 ==> input[p] == '0' as int
  {
    var e := NumberEnd(input, p);
    if input[p] == '0' as int && (CharAt(input, p + 1) == 'x' as int || CharAt(input, p + 1) == 'b' as int) {
      assert e == p + 1;
    }
  }

  lemma MoveShapes(input: seq<Byte>, pos: nat, line: int, col: int, acc: seq<Token>)
    requires pos < |input| && Lexable(input[pos]) && AllShaped(acc)
    ensures AllShaped(acc + MoveAt(input, pos, line, col).emitted)
  {
    var m := MoveAt(input, pos, line, col);
    if m.emitted == [] {
      assert acc + m.emitted == acc;
    } else {
      if IsDigit(input[pos]) && !IsAlpha(input[pos]) {
        NumberDigits(input, pos);
      }
      assert Shaped(m.emitted[0]);
      AllShapedAppend(acc, m.emitted[0]);
    }
  }

  lemma {:induction false} LexFromShapes(input: seq<Byte>, pos: nat, line: int, col: int, acc: seq<Token>)
    requires AllShaped(acc)
    ensures LexFrom(input, pos, line, col, acc).Ok? ==> AllShaped(LexFrom(input, pos, line, col, acc).value)
    decreases |input| - pos
  {
    if pos < |input| && Lexable(input[pos]) {
      var m := MoveAt(input, pos, line, col);
      LexFromMove(input, pos, line, col, acc);
      MoveShapes(input, pos, line, col, acc);
      LexFromShapes(input, m.pos, m.line, m.col, acc + m.emitted);
    } else {
      LexFromStops(input, pos, line, col, acc);
    }
  }

  /** Every token the lexer emits has the shape of its kind. */
  lemma LexShapes(input: seq<Byte>)
    ensures Lex(input).Ok? ==> AllShaped(Lex(input).value)
  {
    LexFromShapes(input, 0, 1, 1, []);
  }

  // ---------------------------------------------------------------------------------------
  // Failure

  /** Where the lexer stops reading from `j` on: the first EOF byte, or the end. */
  function LiveEnd(input: seq<Byte>, j: nat): (e: nat)
    requires j <= |input|
    ensures j <= e <= |input|
    decreases |input| - j
  {
    if j < |input| && input[j] != EOF_BYTE then LiveEnd(input, j + 1) else j
  }

  /** Skipping bytes that are not EOF does not move the live end. */
  lemma {:induction false} LiveEndSkip(input: seq<Byte>, j: nat, e: nat)
    requires j <= e <= |input|
    requires forall k :: j <= k < e ==> input[k] != EOF_BYTE
    ensures LiveEnd(input, j) == LiveEnd(input, e)
    decreases e - j
  {
    if j < e {
      LiveEndSkip(input, j + 1, e);
    }
  }

  /** A pass reads only bytes that can be lexed, none of them EOF. */
  lemma MoveBytes(input: seq<Byte>, pos: nat, line: int, col: int)
    requires pos < |input| && Lexable(input[pos])
    ensures forall k :: pos <= k < MoveAt(input, pos, line, col).pos ==> Lexable(input[k]) && input[k] != EOF_BYTE
  {
    if IsDigit(input[pos]) && !IsAlpha(input[pos]) {
      NumberDigits(input, pos);
    }
  }

  lemma {:induction false} LexFromFails(input: seq<Byte>, pos: nat, line: int, col: int, acc: seq<Token>)
    requires pos <= |input|
    ensures LexFrom(input, pos, line, col, acc).Ok? <==>
      forall k :: pos <= k < LiveEnd(input, pos) ==> Lexable(input[k])
    decreases |input| - pos
  {
    if pos < |input| && Lexable(input[pos]) {
      var m := MoveAt(input, pos, line, col);
      LexFromMove(input, pos, line, col, acc);
      MoveBytes(input, pos, line, col);
      LiveEndSkip(input, pos, m.pos);
      LexFromFails(input, m.pos, m.line, m.col, acc + m.emitted);
    } else {
      LexFromStops(input, pos, line, col, acc);
    }
  }

  /** The lexer succeeds exactly when every byte before the first EOF byte is a blank, a line
      break, a letter, a digit or an underscore. */
  lemma LexFails(input: seq<Byte>)
    ensures Lex(input).Ok? <==> forall k :: 0 <= k < LiveEnd(input, 0) ==> Lexable(input[k])
  {
    LexFromFails(input, 0, 1, 1, []);
  }
  // ---------------------------------------------------------------------------------------
  // Nothing lost, nothing added

  /** The letters, digits and underscores the lexer reads from `j` on, in order. */
  function Kept(input: seq<Byte>, j: nat): seq<Byte>
    requires j <= |input|
    decreases |input| - j
  {
    if j < |input| && input[j] != EOF_BYTE then
      (if IsAlphaNumeric(input[j]) then [input[j]] else []) + Kept(input, j + 1)
    else []
  }

  /** The texts of `ts`, one after another. */
  function DataOf(ts: seq<Token>): string {
    if ts == [] then "" else DataOf(ts[..|ts| - 1]) + ts[|ts| - 1].data
  }

  lemma {:induction false} KeptRun(input: seq<Byte>, j: nat, e: nat)
    requires j <= e <= |input|
    requires forall k :: j <= k < e ==> IsAlphaNumeric(input[k]) && input[k] != EOF_BYTE
    ensures Kept(input, j) == input[j..e] + Kept(input, e)
    decreases e - j
  {
    if j < e {
      KeptRun(input, j + 1, e);
      assert input[j..e] == [input[j]] + input[j + 1..e];
    }
  }

  lemma TextConcat(a: seq<Byte>, b: seq<Byte>)
    ensures Text(a + b) == Text(a) + Text(b)
  {
  }

  lemma DataOfAppend(acc: seq<Token>, t: Token)
    ensures DataOf(acc + [t]) == DataOf(acc) + t.data
  {
    assert (acc + [t])[..|acc|] == acc;
  }

  lemma Regroup(a: string, b: string, c: string)
    ensures (a + b) + c == a + (b + c)
  {
  }

  /** A blank or a line break adds no text and keeps nothing. */
  lemma MoveDataBlank(input: seq<Byte>, pos: nat, line: int, col: int, acc: seq<Token>)
    requires pos < |input| && (IsWhitespace(input[pos]) || input[pos] == LF)
    ensures var m := MoveAt(input, pos, line, col);
      DataOf(acc + m.emitted) == DataOf(acc) && Kept(input, m.pos) == Kept(input, pos)
  {
    var m := MoveAt(input, pos, line, col);
    if m.emitted == [] {
      assert acc + m.emitted == acc;
    } else {
      DataOfAppend(acc, m.emitted[0]);
      assert DataOf(acc) + "" == DataOf(acc);
    }
  }

  /** A token's text is the run of bytes the pass read. */
  lemma MoveDataToken(input: seq<Byte>, pos: nat, line: int, col: int, acc: seq<Token>)
    requires pos < |input| && IsAlphaNumeric(input[pos])
    ensures var m := MoveAt(input, pos, line, col);
      DataOf(acc + m.emitted) == DataOf(acc) + Text(input[pos..m.pos])
      && Kept(input, pos) == input[pos..m.pos] + Kept(input, m.pos)
  {
    var m := MoveAt(input, pos, line, col);
    MoveBytes(input, pos, line, col);
    KeptRun(input, pos, m.pos);
    DataOfAppend(acc, m.emitted[0]);
  }

  lemma MoveData(input: seq<Byte>, pos: nat, line: int, col: int, acc: seq<Token>)
    requires pos < |input| && Lexable(input[pos])
    ensures var m := MoveAt(input, pos, line, col);
      DataOf(acc + m.emitted) + Text(Kept(input, m.pos)) == DataOf(acc) + Text(Kept(input, pos))
  {
    var m := MoveAt(input, pos, line, col);
    if IsWhitespace(input[pos]) || input[pos] == LF {
      MoveDataBlank(input, pos, line, col, acc);
    } else {
      MoveDataToken(input, pos, line, col, acc);
      TextConcat(input[pos..m.pos], Kept(input, m.pos));
      Regroup(DataOf(acc), Text(input[pos..m.pos]), Text(Kept(input, m.pos)));
    }
  }

  lemma {:induction false} LexFromData(input: seq<Byte>, pos: nat, line: int, col: int, acc: seq<Token>)
    requires pos <= |input|
    ensures LexFrom(input, pos, line, col, acc).Ok? ==>
      DataOf(LexFrom(input, pos, line, col, acc).value) == DataOf(acc) + Text(Kept(input, pos))
    decreases |input| - pos
  {
    if pos < |input| && Lexable(input[pos]) {
      var m := MoveAt(input, pos, line, col);
      LexFromMove(input, pos, line, col, acc);
      MoveData(input, pos, line, col, acc);
      LexFromData(input, m.pos, m.line, m.col, acc + m.emitted);
    } else {
      LexFromStops(input, pos, line, col, acc);
      if pos == |input| || input[pos] == EOF_BYTE {
        assert Kept(input, pos) == [];
        assert DataOf(acc) + Text([]) == DataOf(acc);
      }
    }
  }

  /** The tokens' texts, one after another, are the letters, digits and underscores before the
      first EOF byte, in order: lexing drops only blanks and line breaks. */
  lemma LexData(input: seq<Byte>)
    ensures Lex(input).Ok? ==> DataOf(Lex(input).value) == Text(Kept(input, 0))
  {
    LexFromData(input, 0, 1, 1, []);
    assert DataOf([]) + Text(Kept(input, 0)) == Text(Kept(input, 0));
  }

  // ---------------------------------------------------------------------------------------
  // The numerals as the loops are written

  /** The bytes of an ASCII string. */
  function Ascii(s: string): (b: seq<Byte>)
    requires forall k :: 0 <= k < |s| ==> s[k] as int < 0x100
    ensures |b| == |s| && Text(b) == s
  {
    seq(|s|, k requires 0 <= k < |s| => s[k] as int)
  }

  /** A numeral that does not start with `0` is one digit long: `16` is two INTEGER tokens. */
  lemma DecimalSplits()
    ensures Lex(Ascii("16")) == Ok([Token(1, 2, INTEGER, "1"), Token(1, 3, INTEGER, "6")])
  {
    var input := Ascii("16");
    assert input == [0x31, 0x36];
    var one := Token(1, 2, INTEGER, "1");
    var six := Token(1, 3, INTEGER, "6");
    assert Text(input[0..1]) == "1";
    assert Text(input[1..2]) == "6";
    LexFromMove(input, 0, 1, 1, []);
    assert MoveAt(input, 0, 1, 1) == Move(1, 1, 2, [one]) && [] + [one] == [one];
    LexFromMove(input, 1, 1, 2, [one]);
    assert MoveAt(input, 1, 1, 2) == Move(2, 1, 3, [six]) && [one] + [six] == [one, six];
  }

  /** After `0x` neither loop takes the `x`, so `0x1F` is the INTEGER `0` and the IDENTIFIER
      `x1F`. */
  lemma HexPrefixSplits()
    ensures Lex(Ascii("0x1F")) == Ok([Token(1, 2, INTEGER, "0"), Token(1, 3, IDENTIFIER, "x1F")])
  {
    var input := Ascii("0x1F");
    assert input == [0x30, 0x78, 0x31, 0x46];
    var zero := Token(1, 2, INTEGER, "0");
    var rest := Token(1, 3, IDENTIFIER, "x1F");
    assert NumberEnd(input, 0) == 1;
    assert Text(input[0..1]) == "0";
    assert RunEnd(input, 2, AlphaNumeric) == 4;
    assert Text(input[1..4]) == "x1F";
    LexFromMove(input, 0, 1, 1, []);
    assert MoveAt(input, 0, 1, 1) == Move(1, 1, 2, [zero]) && [] + [zero] == [zero];
    LexFromMove(input, 1, 1, 2, [zero]);
    assert MoveAt(input, 1, 1, 2) == Move(4, 1, 5, [rest]) && [zero] + [rest] == [zero, rest];
  }

  /** After a `0` the decimal run takes the digits that follow, so `007` is one INTEGER. */
  lemma LeadingZeroRuns()
    ensures Lex(Ascii("007")) == Ok([Token(1, 2, INTEGER, "007")])
  {
    var input := Ascii("007");
    assert input == [0x30, 0x30, 0x37];
    assert NumberEnd(input, 0) == 3;
    assert input[0..3] == input;
    var t := Token(1, 2, INTEGER, "007");
    LexFromMove(input, 0, 1, 1, []);
    assert MoveAt(input, 0, 1, 1) == Move(3, 1, 4, [t]) && [] + [t] == [t];
  }

  /** `016` is one INTEGER token: the digits after a leading `0` continue the numeral. */
  lemma SixteenWithLeadingZero()
    ensures Lex(Ascii("016")) == Ok([Token(1, 2, INTEGER, "016")])
  {
    var input := Ascii("016");
    assert input == [0x30, 0x31, 0x36];
    assert NumberEnd(input, 0) == 3;
    assert input[0..3] == input;
    var t := Token(1, 2, INTEGER, "016");
    LexFromMove(input, 0, 1, 1, []);
    assert MoveAt(input, 0, 1, 1) == Move(3, 1, 4, [t]) && [] + [t] == [t];
  }

  /** The column counter starts at 1 and counts before reading, so the first byte of the first
      line is in column 2; after a line break it restarts at 0, so later lines start in
      column 1. */
  lemma FirstLineColumns()
    ensures Lex(Ascii("HLT\nHLT")) ==
      Ok([Token(1, 2, IDENTIFIER, "HLT"), Token(1, 5, ENDLINE, ""), Token(2, 1, IDENTIFIER, "HLT")])
  {
    var input := Ascii("HLT\nHLT");
    assert input == [0x48, 0x4C, 0x54, 0x0A, 0x48, 0x4C, 0x54];
    var first := Token(1, 2, IDENTIFIER, "HLT");
    var brk := Token(1, 5, ENDLINE, "");
    var second := Token(2, 1, IDENTIFIER, "HLT");
    assert RunEnd(input, 1, AlphaNumeric) == 3;
    assert Text(input[0..3]) == "HLT";
    assert RunEnd(input, 5, AlphaNumeric) == 7;
    assert Text(input[4..7]) == "HLT";
    LexFromMove(input, 0, 1, 1, []);
    assert MoveAt(input, 0, 1, 1) == Move(3, 1, 4, [first]) && [] + [first] == [first];
    LexFromMove(input, 3, 1, 4, [first]);
    assert MoveAt(input, 3, 1, 4) == Move(4, 2, 0, [brk]) && [first] + [brk] == [first, brk];
    LexFromMove(input, 4, 2, 0, [first, brk]);
    assert MoveAt(input, 4, 2, 0) == Move(7, 2, 3, [second]) && [first, brk] + [second] == [first, brk, second];
  }
}
