/** What the parser promises: bitwise-or of disjoint fields is their sum, operands read back
    the values they were written from, a rendered program assembles to its encoding (one word
    per statement, none per empty line), the CPU decodes the fields back, and which
    statements are rejected. */
module AsmParserProperties {
  import opened Isa
  import opened Numerals
  import opened Results
  import opened AsmLexer
  import opened AsmParser

  /** `m << k | b` is `m << k + b` when `b` fits in the low `k` bits. */
  lemma {:induction false} OrOfDisjoint(m: nat, k: nat, b: nat)
    requires b < Pow2(k)
    ensures BitOr(m * Pow2(k), b) == m * Pow2(k) + b
    decreases k
  {
    var p := Pow2(k);
    var a := m * p;
    if k > 0 && a != 0 && b != 0 {
      var p' := Pow2(k - 1);
      assert a == 2 * (m * p');
      DivModUnique(a, 2, m * p', 0);
      OrOfDisjoint(m, k - 1, b / 2);
    }
  }

  /** The prefix `extract_int` looks for in front of a numeral in `base`. */
  function Prefix(base: nat): string {
    if base == 2 then "0b" else if base == 16 then "0x" else ""
  }

  predicate Radix(base: nat) {
    base == 2 || base == 10 || base == 16
  }

  /** `extract_int` reads `0b` numerals in base 2, `0x` numerals in base 16 and plain numerals in
      base 10, and accepts every value below 2^nbits. */
  lemma ExtractIntNumeral(v: nat, base: nat, nbits: nat, line: int, col: int)
    requires Radix(base) && v < Pow2(nbits) && v <= INT_MAX
    ensures ExtractInt(Token(line, col, INTEGER, Prefix(base) + Numeral(v, base)), nbits) == Ok(v)
  {
    ReadNumeral(v, base);
  }

  lemma ReadNumeral(v: nat, base: nat)
    requires Radix(base) && v <= INT_MAX
    ensures ReadNumber(Prefix(base) + Numeral(v, base)) == Converted(v)
  {
    var n := Numeral(v, base);
    var d := Prefix(base) + n;
    StoiNumeral(v, base);
    NumeralDigits(v, base);
    if base == 10 {
      assert d == n;
      DecimalHasNoPrefix(n);
    } else {
      assert d[2..] == n;
      assert d[..2] == Prefix(base);
    }
  }

  lemma DecimalHasNoPrefix(n: string)
    requires forall i :: 0 <= i < |n| ==> IsDigitIn(n[i], 10)
    ensures !StartsWith(n, "0b") && !StartsWith(n, "0x")
  {
    if |n| >= 2 {
      assert IsDigitIn(n[1], 10);
      assert n[..2][1] == n[1];
    }
  }

  // Tokens as a program text would give them; the parser ignores where a token starts.
  function Ident(s: string): Token { Token(1, 1, IDENTIFIER, s) }
  function Reg(r: RegIndex): Token { Ident(RegisterName(r)) }
  function Int(v: nat): Token { Token(1, 1, INTEGER, Numeral(v, 10)) }
  const Endline: Token := Token(1, 1, ENDLINE, "")

  /** `extract_register` reads back the register a name was written from. */
  lemma RegisterToken(r: RegIndex)
    ensures ExtractRegister(Reg(r)) == Ok(r)
  {
    var e := ExtractRegister(Reg(r));
    assert Reg(r).data == RegisterName(r);
    assert DigitChar(e.value) == RegisterName(e.value)[1];
  }

  lemma IntToken(v: nat, nbits: nat)
    requires v < Pow2(nbits) && nbits <= 4
    ensures ExtractInt(Int(v), nbits) == Ok(v)
  {
    assert Pow2(nbits) <= 16;
    ExtractIntNumeral(v, 10, nbits, 1, 1);
    assert Prefix(10) + Numeral(v, 10) == Numeral(v, 10);
  }

  /** The register operand at `j` reads back as the register it names. */
  lemma RegisterAtValue(tokens: seq<Token>, j: nat, r: RegIndex)
    requires j < |tokens| && tokens[j] == Reg(r)
    ensures RegisterAt(tokens, j) == Ok(r)
  {
    RegisterToken(r);
  }

  /** The immediate operand at `j` reads back as the number it spells. */
  lemma IntAtValue(test: RangeTest, tokens: seq<Token>, j: nat, v: nat, nbits: nat)
    requires j < |tokens| && tokens[j] == Int(v) && v < Pow2(nbits) && nbits <= 4
    ensures IntAt(test, tokens, j, nbits) == Ok(v)
  {
    IntToken(v, nbits);
  }

  /** The statements of the assembly language that the parser encodes, and an empty line. */
  datatype ArithmeticOp = Add | Sub | And | Or | Xor

  datatype Asm =
    | Nop
    | Arithmetic(op: ArithmeticOp, cc: RegIndex, aa: RegIndex, bb: RegIndex)
    | Inc(aa: RegIndex)
    | Dec(aa: RegIndex)
    | Set(aa: RegIndex, yy: nat, x: nat)
    | Clr(n: nat)
    | Not(n: nat)
    | Jmp(aa: RegIndex)
    | Bre(ci: nat, ai: nat, bi: nat)
    | Ld(aa: RegIndex, bb: RegIndex)
    | St(aa: RegIndex, bb: RegIndex)
    | Eai
    | Eti(a: nat)
    | Selb(n: nat)
    | Hlt
    | Blank

  function Mnemonic(op: ArithmeticOp): string {
    match op
    case Add => "ADD"
    case Sub => "SUB"
    case And => "AND"
    case Or => "OR"
    case Xor => "XOR"
  }

  function OpcodeOf(op: ArithmeticOp): Byte {
    match op
    case Add => ADD_CODE
    case Sub => SUB_CODE
    case And => AND_CODE
    case Or => OR_CODE
    case Xor => XOR_CODE
  }

  /** Immediate operands that fit the field the CPU decodes them from. */
  predicate WellFormed(st: Asm) {
    match st
    case Set(_, yy, x) => yy < 4 && x < 16
    case Clr(n) => n < 4
    case Not(n) => n < 4
    case Bre(cc, aa, bb) => cc < 4 && aa < 4 && bb < 4
    case Eti(a) => a < 2
    case Selb(n) => n < 4
    case _ => true
  }

  /** The tokens of one line of a program. */
  function Render(st: Asm): (ts: seq<Token>)
    ensures |ts| >= 1
  {
    match st
    case Nop => [Ident("NOP")]
    case Arithmetic(op, cc, aa, bb) => [Ident(Mnemonic(op)), Reg(cc), Reg(aa), Reg(bb)]
    case Inc(aa) => [Ident("INC"), Reg(aa)]
    case Dec(aa) => [Ident("DEC"), Reg(aa)]
    case Set(aa, yy, x) => [Ident("SET"), Reg(aa), Int(yy), Int(x)]
    case Clr(n) => [Ident("CLR"), Int(n)]
    case Not(n) => [Ident("NOT"), Int(n)]
    case Jmp(aa) => [Ident("JMP"), Reg(aa)]
    case Bre(cc, aa, bb) => [Ident("BRE"), Int(cc), Int(aa), Int(bb)]
    case Ld(aa, bb) => [Ident("LD"), Reg(aa), Reg(bb)]
    case St(aa, bb) => [Ident("ST"), Reg(aa), Reg(bb)]
    case Eai => [Ident("EAI")]
    case Eti(a) => [Ident("ETI"), Int(a)]
    case Selb(n) => [Ident("SELB"), Int(n)]
    case Hlt => [Ident("HLT")]
    case Blank => [Endline]
  }

  /** The instruction word of a statement, laid out as the CPU decodes it: the opcode byte from
      the CPU's opcode table, then the operand byte built from its fields. */
  function Encoding(st: Asm): (w: U32)
    requires WellFormed(st) && !st.Blank?
    ensures w < 0x10000
  {
    match st
    case Nop => NOP_CODE * 0x100
    case Arithmetic(op, cc, aa, bb) => OpcodeOf(op) * 0x100 + cc * 16 + aa * 4 + bb
    case Inc(aa) => INC_CODE * 0x100 + aa
    case Dec(aa) => DEC_CODE * 0x100 + aa
    case Set(aa, yy, x) => SET_CODE * 0x100 + aa * 64 + yy * 16 + x
    case Clr(n) => CLR_CODE * 0x100 + n
    case Not(n) => NOT_CODE * 0x100 + n
    case Jmp(aa) => JMP_CODE * 0x100 + aa
    case Bre(cc, aa, bb) => BRE_CODE * 0x100 + cc * 16 + aa * 4 + bb
    case Ld(aa, bb) => LD_CODE * 0x100 + aa * 4 + bb
    case St(aa, bb) => ST_CODE * 0x100 + aa * 4 + bb
    case Eai => EAI_CODE * 0x100
    case Eti(a) => ETI_CODE * 0x100 + a
    case Selb(n) => SELB_CODE * 0x100 + n
    case Hlt => HLT_CODE * 0x100
  }

  /** The instructions a line assembles to: its word, or none for an empty line. */
  function Encode(st: Asm): (ws: seq<U32>)
    requires WellFormed(st)
  {
    if st.Blank? then [] else [Encoding(st)]
  }

  /** What the parser makes of a statement rendered at position `i`: its word and the position
      of its last token, or nothing for an empty line. */
  function Outcome(st: Asm, i: nat): (s: Step)
    requires WellFormed(st)
    ensures s.Emitted() == Encode(st)
  {
    if st.Blank? then Skip(i) else Emit(Encoding(st), i + |Render(st)| - 1)
  }

  /** The CPU's decoder reads the fields back out of `op << 8 | c << 4 | a << 2 | b`. */
  lemma FieldsOf(op: Byte, c: RegIndex, a: RegIndex, b: RegIndex)
    ensures var w := op * 0x100 + c * 16 + a * 4 + b;
      && Opcode(w) == op && Operand(w) == c * 16 + a * 4 + b
      && Bits54(Operand(w)) == c && Bits32(Operand(w)) == a && Bits10(Operand(w)) == b
      && Bit0(Operand(w)) == b % 2
  {
    var data := c * 16 + a * 4 + b;
    var w := op * 0x100 + data;
    DivModUnique(w, 0x100, op, data);
    DivModUnique(op, 0x100, 0, op);
    DivModUnique(data, 16, c, a * 4 + b);
    DivModUnique(c, 4, 0, c);
    DivModUnique(data, 4, c * 4 + a, b);
    DivModUnique(c * 4 + a, 4, c, a);
    DivModUnique(data, 2, c * 8 + a * 2 + b / 2, b % 2);
  }

  /** The same for SET's layout `op << 8 | aa << 6 | yy << 4 | x`. */
  lemma SetFieldsOf(aa: RegIndex, yy: RegIndex, x: int)
    requires 0 <= x < 16
    ensures var w := SET_CODE * 0x100 + aa * 64 + yy * 16 + x;
      Opcode(w) == SET_CODE && Bits76(Operand(w)) == aa && Bits54(Operand(w)) == yy && Bits3210(Operand(w)) == x
  {
    var data := aa * 64 + yy * 16 + x;
    var w := SET_CODE * 0x100 + data;
    DivModUnique(w, 0x100, SET_CODE, data);
    DivModUnique(data, 0x40, aa, yy * 16 + x);
    DivModUnique(aa, 4, 0, aa);
    DivModUnique(data, 0x10, aa * 4 + yy, x);
    DivModUnique(aa * 4 + yy, 4, aa, yy);
  }

  /** What `run_instruction` reads out of the word of a statement. */
  predicate Decodes(st: Asm, w: U32) {
    var data := Operand(w);
    match st
    case Nop => Opcode(w) == NOP_CODE && data == 0
    case Arithmetic(op, cc, aa, bb) => Opcode(w) == OpcodeOf(op) && Bits54(data) == cc && Bits32(data) == aa && Bits10(data) == bb
    case Inc(aa) => Opcode(w) == INC_CODE && Bits10(data) == aa
    case Dec(aa) => Opcode(w) == DEC_CODE && Bits10(data) == aa
    case Set(aa, yy, x) => Opcode(w) == SET_CODE && Bits76(data) == aa && Bits54(data) == yy && Bits3210(data) == x
    case Clr(n) => Opcode(w) == CLR_CODE && Bits10(data) == n
    case Not(n) => Opcode(w) == NOT_CODE && Bits10(data) == n
    case Jmp(aa) => Opcode(w) == JMP_CODE && Bits10(data) == aa
    case Bre(cc, aa, bb) => Opcode(w) == BRE_CODE && Bits54(data) == cc && Bits32(data) == aa && Bits10(data) == bb
    case Ld(aa, bb) => Opcode(w) == LD_CODE && Bits32(data) == aa && Bits10(data) == bb
    case St(aa, bb) => Opcode(w) == ST_CODE && Bits32(data) == aa && Bits10(data) == bb
    case Eai => Opcode(w) == EAI_CODE && data == 0
    case Eti(a) => Opcode(w) == ETI_CODE && Bit0(data) == a
    case Selb(n) => Opcode(w) == SELB_CODE && Bits10(data) == n
    case Hlt => Opcode(w) == HLT_CODE && data == 0
    case Blank => false
  }

  /** The CPU decodes every encoded statement into the opcode and operands it was written with. */
  lemma DecodeEncoded(st: Asm)
    requires WellFormed(st) && !st.Blank?
    ensures Decodes(st, Encoding(st))
  {
    if st.Nop? || st.Arithmetic? || st.Inc? || st.Dec? || st.Set? || st.Clr? || st.Not? {
      DecodeLowOpcodes(st);
    } else {
      DecodeHighOpcodes(st);
    }
  }

  lemma DecodeLowOpcodes(st: Asm)
    requires WellFormed(st) && (st.Nop? || st.Arithmetic? || st.Inc? || st.Dec? || st.Set? || st.Clr? || st.Not?)
    ensures Decodes(st, Encoding(st))
  {
    match st
    case Nop => FieldsOf(NOP_CODE, 0, 0, 0);
    case Arithmetic(op, cc, aa, bb) => FieldsOf(OpcodeOf(op), cc, aa, bb);
    case Inc(aa) => FieldsOf(INC_CODE, 0, 0, aa);
    case Dec(aa) => FieldsOf(DEC_CODE, 0, 0, aa);
    case Set(aa, yy, x) => SetFieldsOf(aa, yy, x);
    case Clr(n) => FieldsOf(CLR_CODE, 0, 0, n);
    case Not(n) => FieldsOf(NOT_CODE, 0, 0, n);
  }

  lemma DecodeHighOpcodes(st: Asm)
    requires WellFormed(st) && (st.Jmp? || st.Bre? || st.Ld? || st.St? || st.Eai? || st.Eti? || st.Selb? || st.Hlt?)
    ensures Decodes(st, Encoding(st))
  {
    match st
    case Jmp(aa) => FieldsOf(JMP_CODE, 0, 0, aa);
    case Bre(cc, aa, bb) => FieldsOf(BRE_CODE, cc, aa, bb);
    case Ld(aa, bb) => FieldsOf(LD_CODE, 0, aa, bb);
    case St(aa, bb) => FieldsOf(ST_CODE, 0, aa, bb);
    case Eai => FieldsOf(EAI_CODE, 0, 0, 0);
    case Eti(a) => FieldsOf(ETI_CODE, 0, 0, a);
    case Selb(n) => FieldsOf(SELB_CODE, 0, 0, n);
    case Hlt => FieldsOf(HLT_CODE, 0, 0, 0);
  }

  /** `a | b` is `a + b` when `a` is a multiple of `p` = 2^k and `b` is below it. */
  lemma OrAdds(a: nat, b: nat, k: nat, p: nat, m: nat)
    requires p == Pow2(k) && a == m * p && b < p
    ensures BitOr(a, b) == a + b
  {
    OrOfDisjoint(m, k, b);
  }

  /** `op << 8 | c << 4 | a << 2 | b` and the shorter forms, for fields that fit below the
      opcode byte. */
  lemma Pack3(op: Byte, c: nat, a: nat, b: nat)
    requires c < 4 && a < 4 && b < 4
    ensures BitOr(BitOr(BitOr(op * 0x100, c * 16), a * 4), b) == op * 0x100 + c * 16 + a * 4 + b
  {
    OrAdds(op * 0x100, c * 16, 6, 64, op * 4);
    var x2 := op * 0x100 + c * 16;
    OrAdds(x2, a * 4, 4, 16, op * 16 + c);
    var x3 := x2 + a * 4;
    OrAdds(x3, b, 2, 4, op * 64 + c * 4 + a);
  }

  lemma Pack2(op: Byte, a: nat, b: nat)
    requires a < 4 && b < 4
    ensures BitOr(BitOr(op * 0x100, a * 4), b) == op * 0x100 + a * 4 + b
  {
    OrAdds(op * 0x100, a * 4, 4, 16, op * 16);
    var x2 := op * 0x100 + a * 4;
    OrAdds(x2, b, 2, 4, op * 64 + a);
  }

  lemma Pack1(op: Byte, a: nat)
    requires a < 4
    ensures BitOr(op * 0x100, a) == op * 0x100 + a
  {
    OrAdds(op * 0x100, a, 2, 4, op * 64);
  }

  lemma PackSet(op: Byte, aa: nat, yy: nat, x: nat)
    requires aa < 4 && yy < 4 && x < 16
    ensures BitOr(BitOr(BitOr(op * 0x100, aa * 64), yy * 16), x) == op * 0x100 + aa * 64 + yy * 16 + x
  {
    OrAdds(op * 0x100, aa * 64, 8, 256, op);
    var x2 := op * 0x100 + aa * 64;
    OrAdds(x2, yy * 16, 6, 64, op * 4 + aa);
    var x3 := x2 + yy * 16;
    OrAdds(x3, x, 4, 16, op * 16 + aa * 4 + yy);
  }

  /** The tokens from position `i` on start with the rendering of `st`. */
  predicate RenderedAt(tokens: seq<Token>, i: nat, st: Asm) {
    i + |Render(st)| <= |tokens| && tokens[i..i + |Render(st)|] == Render(st)
  }

  /** The first four tokens of a rendered statement, read through the token list. */
  lemma RenderedTokens(tokens: seq<Token>, i: nat, st: Asm)
    requires RenderedAt(tokens, i, st)
    ensures tokens[i] == Render(st)[0]
    ensures |Render(st)| > 1 ==> tokens[i + 1] == Render(st)[1]
    ensures |Render(st)| > 2 ==> tokens[i + 2] == Render(st)[2]
    ensures |Render(st)| > 3 ==> tokens[i + 3] == Render(st)[3]
  {
    var r := Render(st);
    var window := tokens[i..i + |r|];
    assert tokens[i] == window[0];
    assert |r| > 1 ==> tokens[i + 1] == window[1];
    assert |r| > 2 ==> tokens[i + 2] == window[2];
    assert |r| > 3 ==> tokens[i + 3] == window[3];
  }

  // The branches of the parser on operands that read back: `op` is the opcode byte the
  // branch's base word carries.

  /** A mnemonic without operands is one word, consumed on its own. */
  lemma ParseNoOperands(test: RangeTest, tokens: seq<Token>, i: nat, word: nat, o: Step)
    requires i < |tokens| && tokens[i].kind == IDENTIFIER && FormOf(tokens[i].data) == NoOperands(word)
    requires o == Emit(word, i)
    ensures StatementAt(test, tokens, i) == Ok(o)
  {
  }

  lemma ArithmeticOperands(op: Byte, tokens: seq<Token>, i: nat, cc: RegIndex, aa: RegIndex, bb: RegIndex)
    requires RegisterAt(tokens, i + 1) == Ok(cc) && RegisterAt(tokens, i + 2) == Ok(aa) && RegisterAt(tokens, i + 3) == Ok(bb)
    ensures ArithmeticInstruction(op * 0x100, tokens, i) == Ok(Emit(op * 0x100 + cc * 16 + aa * 4 + bb, i + 3))
  {
    Pack3(op, cc, aa, bb);
  }

  /** ADD .. XOR followed by three register names. */
  lemma ParseThreeRegisters(test: RangeTest, tokens: seq<Token>, i: nat, op: Byte, cc: RegIndex, aa: RegIndex, bb: RegIndex, o: Step)
    requires i < |tokens| && tokens[i].kind == IDENTIFIER && FormOf(tokens[i].data) == ThreeRegisters(op * 0x100)
    requires RegisterAt(tokens, i + 1) == Ok(cc) && RegisterAt(tokens, i + 2) == Ok(aa) && RegisterAt(tokens, i + 3) == Ok(bb)
    requires o == Emit(op * 0x100 + cc * 16 + aa * 4 + bb, i + 3)
    ensures StatementAt(test, tokens, i) == Ok(o)
  {
    assert StatementAt(test, tokens, i) == ArithmeticInstruction(op * 0x100, tokens, i);
    ArithmeticOperands(op, tokens, i, cc, aa, bb);
  }

  lemma UnaryOperand(op: Byte, tokens: seq<Token>, i: nat, aa: RegIndex)
    requires RegisterAt(tokens, i + 1) == Ok(aa)
    ensures UnaryInstruction(op * 0x100, tokens, i) == Ok(Emit(op * 0x100 + aa, i + 1))
  {
    Pack1(op, aa);
  }

  /** INC, DEC and JMP followed by a register name. */
  lemma ParseOneRegister(test: RangeTest, tokens: seq<Token>, i: nat, op: Byte, aa: RegIndex, o: Step)
    requires i < |tokens| && tokens[i].kind == IDENTIFIER && FormOf(tokens[i].data) == OneRegister(op * 0x100)
    requires RegisterAt(tokens, i + 1) == Ok(aa)
    requires o == Emit(op * 0x100 + aa, i + 1)
    ensures StatementAt(test, tokens, i) == Ok(o)
  {
    assert StatementAt(test, tokens, i) == UnaryInstruction(op * 0x100, tokens, i);
    UnaryOperand(op, tokens, i, aa);
  }

  lemma ImmediateOperand(test: RangeTest, op: Byte, nbits: nat, tokens: seq<Token>, i: nat, n: nat)
    requires 1 <= nbits <= 2 && n < 4
    requires IntAt(test, tokens, i + 1, nbits) == Ok(n)
    ensures ImmediateInstruction(test, op * 0x100, nbits, tokens, i) == Ok(Emit(op * 0x100 + n, i + 1))
  {
    Pack1(op, n);
  }

  /** CLR, NOT, ETI and SELB followed by a numeral that fits the field. */
  lemma ParseOneImmediate(test: RangeTest, tokens: seq<Token>, i: nat, op: Byte, nbits: nat, n: nat, o: Step)
    requires 1 <= nbits <= 2 && n < 4
    requires i < |tokens| && tokens[i].kind == IDENTIFIER && FormOf(tokens[i].data) == OneImmediate(op * 0x100, nbits)
    requires IntAt(test, tokens, i + 1, nbits) == Ok(n)
    requires o == Emit(op * 0x100 + n, i + 1)
    ensures StatementAt(test, tokens, i) == Ok(o)
  {
    assert StatementAt(test, tokens, i) == ImmediateInstruction(test, op * 0x100, nbits, tokens, i);
    ImmediateOperand(test, op, nbits, tokens, i, n);
  }

  lemma SetOperands(test: RangeTest, op: Byte, tokens: seq<Token>, i: nat, aa: RegIndex, yy: nat, x: nat)
    requires yy < 4 && x < 16
    requires RegisterAt(tokens, i + 1) == Ok(aa) && IntAt(test, tokens, i + 2, 2) == Ok(yy) && IntAt(test, tokens, i + 3, 4) == Ok(x)
    ensures SetInstruction(test, op * 0x100, tokens, i) == Ok(Emit(op * 0x100 + aa * 64 + yy * 16 + x, i + 3))
  {
    PackSet(op, aa, yy, x);
  }

  /** SET followed by a register name, a 2-bit and a 4-bit numeral. */
  lemma ParseSet(test: RangeTest, tokens: seq<Token>, i: nat, op: Byte, aa: RegIndex, yy: nat, x: nat, o: Step)
    requires yy < 4 && x < 16
    requires i < |tokens| && tokens[i].kind == IDENTIFIER && FormOf(tokens[i].data) == RegisterAndTwoImmediates(op * 0x100)
    requires RegisterAt(tokens, i + 1) == Ok(aa) && IntAt(test, tokens, i + 2, 2) == Ok(yy) && IntAt(test, tokens, i + 3, 4) == Ok(x)
    requires o == Emit(op * 0x100 + aa * 64 + yy * 16 + x, i + 3)
    ensures StatementAt(test, tokens, i) == Ok(o)
  {
    assert StatementAt(test, tokens, i) == SetInstruction(test, op * 0x100, tokens, i);
    SetOperands(test, op, tokens, i, aa, yy, x);
  }

  lemma CompareOperands(test: RangeTest, op: Byte, tokens: seq<Token>, i: nat, cc: nat, aa: nat, bb: nat)
    requires cc < 4 && aa < 4 && bb < 4
    requires IntAt(test, tokens, i + 1, 2) == Ok(cc) && IntAt(test, tokens, i + 2, 2) == Ok(aa) && IntAt(test, tokens, i + 3, 2) == Ok(bb)
    ensures CompareInstruction(test, op * 0x100, tokens, i) == Ok(Emit(op * 0x100 + cc * 16 + aa * 4 + bb, i + 3))
  {
    Pack3(op, cc, aa, bb);
  }

  /** BRE followed by three 2-bit numerals. */
  lemma ParseThreeImmediates(test: RangeTest, tokens: seq<Token>, i: nat, op: Byte, cc: nat, aa: nat, bb: nat, o: Step)
    requires cc < 4 && aa < 4 && bb < 4
    requires i < |tokens| && tokens[i].kind == IDENTIFIER && FormOf(tokens[i].data) == ThreeImmediates(op * 0x100)
    requires IntAt(test, tokens, i + 1, 2) == Ok(cc) && IntAt(test, tokens, i + 2, 2) == Ok(aa) && IntAt(test, tokens, i + 3, 2) == Ok(bb)
    requires o == Emit(op * 0x100 + cc * 16 + aa * 4 + bb, i + 3)
    ensures StatementAt(test, tokens, i) == Ok(o)
  {
    assert StatementAt(test, tokens, i) == CompareInstruction(test, op * 0x100, tokens, i);
    CompareOperands(test, op, tokens, i, cc, aa, bb);
  }

  lemma MemoryOperands(op: Byte, tokens: seq<Token>, i: nat, aa: RegIndex, bb: RegIndex)
    requires RegisterAt(tokens, i + 1) == Ok(aa) && RegisterAt(tokens, i + 2) == Ok(bb)
    ensures MemoryInstruction(op * 0x100, tokens, i) == Ok(Emit(op * 0x100 + aa * 4 + bb, i + 2))
  {
    Pack2(op, aa, bb);
  }

  /** LD and ST followed by two register names. */
  lemma ParseTwoRegisters(test: RangeTest, tokens: seq<Token>, i: nat, op: Byte, aa: RegIndex, bb: RegIndex, o: Step)
    requires i < |tokens| && tokens[i].kind == IDENTIFIER && FormOf(tokens[i].data) == TwoRegisters(op * 0x100)
    requires RegisterAt(tokens, i + 1) == Ok(aa) && RegisterAt(tokens, i + 2) == Ok(bb)
    requires o == Emit(op * 0x100 + aa * 4 + bb, i + 2)
    ensures StatementAt(test, tokens, i) == Ok(o)
  {
    assert StatementAt(test, tokens, i) == MemoryInstruction(op * 0x100, tokens, i);
    MemoryOperands(op, tokens, i, aa, bb);
  }

  // What a rendered statement puts in front of the parser: the branch its mnemonic selects,
  // the operand values read back, and the outcome it should have.

  lemma NoOperandsShape(tokens: seq<Token>, i: nat, st: Asm) returns (word: nat)
    requires (st.Nop? || st.Eai? || st.Hlt?) && RenderedAt(tokens, i, st)
    ensures i < |tokens| && tokens[i].kind == IDENTIFIER && FormOf(tokens[i].data) == NoOperands(word)
    ensures Outcome(st, i) == Emit(word, i)
  {
    RenderedTokens(tokens, i, st);
    word := NoOperandsSelects(st);
  }

  lemma NoOperandsSelects(st: Asm) returns (word: nat)
    requires st.Nop? || st.Eai? || st.Hlt?
    ensures Render(st) == [Ident(Render(st)[0].data)] && FormOf(Render(st)[0].data) == NoOperands(word) && word == Encoding(st)
  {
    match st
    case Nop =>
      word := NOP_CODE * 0x100;
      assert FormOf("NOP") == NoOperands(word);
    case Eai =>
      word := EAI_CODE * 0x100;
      assert FormOf("EAI") == NoOperands(word);
    case Hlt =>
      word := HLT_CODE * 0x100;
      assert FormOf("HLT") == NoOperands(word);
  }

  lemma ThreeRegistersShape(tokens: seq<Token>, i: nat, st: Asm) returns (op: Byte)
    requires st.Arithmetic? && RenderedAt(tokens, i, st)
    ensures i < |tokens| && tokens[i].kind == IDENTIFIER && FormOf(tokens[i].data) == ThreeRegisters(op * 0x100)
    ensures RegisterAt(tokens, i + 1) == Ok(st.cc) && RegisterAt(tokens, i + 2) == Ok(st.aa) && RegisterAt(tokens, i + 3) == Ok(st.bb)
    ensures Outcome(st, i) == Emit(op * 0x100 + st.cc * 16 + st.aa * 4 + st.bb, i + 3)
  {
    RenderedTokens(tokens, i, st);
    op := OpcodeOf(st.op);
    assert FormOf(Mnemonic(st.op)) == ThreeRegisters(op * 0x100);
    RegisterAtValue(tokens, i + 1, st.cc);
    RegisterAtValue(tokens, i + 2, st.aa);
    RegisterAtValue(tokens, i + 3, st.bb);
  }

  lemma OneRegisterShape(tokens: seq<Token>, i: nat, st: Asm) returns (op: Byte)
    requires (st.Inc? || st.Dec? || st.Jmp?) && RenderedAt(tokens, i, st)
    ensures i < |tokens| && tokens[i].kind == IDENTIFIER && FormOf(tokens[i].data) == OneRegister(op * 0x100)
    ensures RegisterAt(tokens, i + 1) == Ok(st.aa)
    ensures Outcome(st, i) == Emit(op * 0x100 + st.aa, i + 1)
  {
    RenderedTokens(tokens, i, st);
    op := OneRegisterSelects(st);
    RegisterAtValue(tokens, i + 1, st.aa);
  }

  lemma OneRegisterSelects(st: Asm) returns (op: Byte)
    requires st.Inc? || st.Dec? || st.Jmp?
    ensures Encoding(st) == op * 0x100 + st.aa
    ensures Render(st) == [Ident(Render(st)[0].data), Reg(st.aa)] && FormOf(Render(st)[0].data) == OneRegister(op * 0x100)
  {
    match st
    case Inc(_) =>
      op := INC_CODE;
      assert FormOf("INC") == OneRegister(op * 0x100);
    case Dec(_) =>
      op := DEC_CODE;
      assert FormOf("DEC") == OneRegister(op * 0x100);
    case Jmp(_) =>
      op := JMP_CODE;
      assert FormOf("JMP") == OneRegister(op * 0x100);
  }

  lemma SetShape(test: RangeTest, tokens: seq<Token>, i: nat, st: Asm) returns (op: Byte)
    requires st.Set? && WellFormed(st) && RenderedAt(tokens, i, st)
    ensures i < |tokens| && tokens[i].kind == IDENTIFIER && FormOf(tokens[i].data) == RegisterAndTwoImmediates(op * 0x100)
    ensures RegisterAt(tokens, i + 1) == Ok(st.aa) && IntAt(test, tokens, i + 2, 2) == Ok(st.yy) && IntAt(test, tokens, i + 3, 4) == Ok(st.x)
    ensures Outcome(st, i) == Emit(op * 0x100 + st.aa * 64 + st.yy * 16 + st.x, i + 3)
  {
    RenderedTokens(tokens, i, st);
    op := SET_CODE;
    assert FormOf("SET") == RegisterAndTwoImmediates(op * 0x100);
    assert Pow2(2) == 4 && Pow2(4) == 16;
    RegisterAtValue(tokens, i + 1, st.aa);
    IntAtValue(test, tokens, i + 2, st.yy, 2);
    IntAtValue(test, tokens, i + 3, st.x, 4);
  }

  lemma OneImmediateShape(test: RangeTest, tokens: seq<Token>, i: nat, st: Asm) returns (op: Byte, nbits: nat, n: nat)
    requires (st.Clr? || st.Not? || st.Eti? || st.Selb?) && WellFormed(st) && RenderedAt(tokens, i, st)
    ensures 1 <= nbits <= 2 && n < 4
    ensures i < |tokens| && tokens[i].kind == IDENTIFIER && FormOf(tokens[i].data) == OneImmediate(op * 0x100, nbits)
    ensures IntAt(test, tokens, i + 1, nbits) == Ok(n)
    ensures Outcome(st, i) == Emit(op * 0x100 + n, i + 1)
  {
    RenderedTokens(tokens, i, st);
    if st.Clr? || st.Not? {
      op, nbits, n := ClearSelects(st);
    } else {
      op, nbits, n := InterruptSelects(st);
    }
    IntAtValue(test, tokens, i + 1, n, nbits);
  }

  lemma ClearSelects(st: Asm) returns (op: Byte, nbits: nat, n: nat)
    requires (st.Clr? || st.Not?) && WellFormed(st)
    ensures 1 <= nbits <= 2 && n < Pow2(nbits)
    ensures Encoding(st) == op * 0x100 + n
    ensures Render(st) == [Ident(Render(st)[0].data), Int(n)] && FormOf(Render(st)[0].data) == OneImmediate(op * 0x100, nbits)
  {
    assert Pow2(2) == 4;
    nbits, n := 2, st.n;
    if st.Clr? {
      op := CLR_CODE;
      assert FormOf("CLR") == OneImmediate(op * 0x100, 2);
    } else {
      op := NOT_CODE;
      assert FormOf("NOT") == OneImmediate(op * 0x100, 2);
    }
  }

  lemma InterruptSelects(st: Asm) returns (op: Byte, nbits: nat, n: nat)
    requires (st.Eti? || st.Selb?) && WellFormed(st)
    ensures 1 <= nbits <= 2 && n < Pow2(nbits)
    ensures Encoding(st) == op * 0x100 + n
    ensures Render(st) == [Ident(Render(st)[0].data), Int(n)] && FormOf(Render(st)[0].data) == OneImmediate(op * 0x100, nbits)
  {
    assert Pow2(1) == 2 && Pow2(2) == 4;
    if st.Eti? {
      op := ETI_CODE;
      nbits, n := 1, st.a;
      assert FormOf("ETI") == OneImmediate(op * 0x100, 1);
    } else {
      op := SELB_CODE;
      nbits, n := 2, st.n;
      assert FormOf("SELB") == OneImmediate(op * 0x100, 2);
    }
  }

  lemma BreShape(test: RangeTest, tokens: seq<Token>, i: nat, st: Asm) returns (op: Byte)
    requires st.Bre? && WellFormed(st) && RenderedAt(tokens, i, st)
    ensures i < |tokens| && tokens[i].kind == IDENTIFIER && FormOf(tokens[i].data) == ThreeImmediates(op * 0x100)
    ensures IntAt(test, tokens, i + 1, 2) == Ok(st.ci) && IntAt(test, tokens, i + 2, 2) == Ok(st.ai) && IntAt(test, tokens, i + 3, 2) == Ok(st.bi)
    ensures Outcome(st, i) == Emit(op * 0x100 + st.ci * 16 + st.ai * 4 + st.bi, i + 3)
  {
    RenderedTokens(tokens, i, st);
    op := BRE_CODE;
    assert FormOf("BRE") == ThreeImmediates(op * 0x100);
    assert Pow2(2) == 4;
    IntAtValue(test, tokens, i + 1, st.ci, 2);
    IntAtValue(test, tokens, i + 2, st.ai, 2);
    IntAtValue(test, tokens, i + 3, st.bi, 2);
  }

  lemma TwoRegistersShape(tokens: seq<Token>, i: nat, st: Asm) returns (op: Byte)
    requires (st.Ld? || st.St?) && RenderedAt(tokens, i, st)
    ensures i < |tokens| && tokens[i].kind == IDENTIFIER && FormOf(tokens[i].data) == TwoRegisters(op * 0x100)
    ensures RegisterAt(tokens, i + 1) == Ok(st.aa) && RegisterAt(tokens, i + 2) == Ok(st.bb)
    ensures Outcome(st, i) == Emit(op * 0x100 + st.aa * 4 + st.bb, i + 2)
  {
    RenderedTokens(tokens, i, st);
    op := TwoRegistersSelects(st);
    RegisterAtValue(tokens, i + 1, st.aa);
    RegisterAtValue(tokens, i + 2, st.bb);
  }

  lemma TwoRegistersSelects(st: Asm) returns (op: Byte)
    requires st.Ld? || st.St?
    ensures Encoding(st) == op * 0x100 + st.aa * 4 + st.bb
    ensures Render(st) == [Ident(Render(st)[0].data), Reg(st.aa), Reg(st.bb)] && FormOf(Render(st)[0].data) == TwoRegisters(op * 0x100)
  {
    if st.Ld? {
      op := LD_CODE;
      assert FormOf("LD") == TwoRegisters(op * 0x100);
    } else {
      op := ST_CODE;
      assert FormOf("ST") == TwoRegisters(op * 0x100);
    }
  }

  /** One line of a program, found at position `i` of the token list, is parsed into its
      encoding and consumes exactly its own tokens. */
  lemma ParseStatement(test: RangeTest, tokens: seq<Token>, i: nat, st: Asm)
    requires WellFormed(st) && RenderedAt(tokens, i, st)
    ensures StatementAt(test, tokens, i) == Ok(Outcome(st, i))
  {
    if st.Blank? {
      RenderedTokens(tokens, i, st);
    } else if st.Arithmetic? {
      ParseArithmeticStatement(test, tokens, i, st);
    } else if st.Inc? || st.Dec? || st.Jmp? {
      ParseOneRegisterStatement(test, tokens, i, st);
    } else if st.Ld? || st.St? {
      ParseTwoRegistersStatement(test, tokens, i, st);
    } else if st.Nop? || st.Eai? || st.Hlt? {
      ParseNoOperandsStatement(test, tokens, i, st);
    } else if st.Set? {
      ParseSetStatement(test, tokens, i, st);
    } else if st.Bre? {
      ParseBreStatement(test, tokens, i, st);
    } else {
      ParseOneImmediateStatement(test, tokens, i, st);
    }
  }

  lemma ParseArithmeticStatement(test: RangeTest, tokens: seq<Token>, i: nat, st: Asm)
    requires st.Arithmetic? && RenderedAt(tokens, i, st)
    ensures StatementAt(test, tokens, i) == Ok(Outcome(st, i))
  {
    var op := ThreeRegistersShape(tokens, i, st);
    ParseThreeRegisters(test, tokens, i, op, st.cc, st.aa, st.bb, Outcome(st, i));
  }

  lemma ParseOneRegisterStatement(test: RangeTest, tokens: seq<Token>, i: nat, st: Asm)
    requires (st.Inc? || st.Dec? || st.Jmp?) && RenderedAt(tokens, i, st)
    ensures StatementAt(test, tokens, i) == Ok(Outcome(st, i))
  {
    var op := OneRegisterShape(tokens, i, st);
    ParseOneRegister(test, tokens, i, op, st.aa, Outcome(st, i));
  }

  lemma ParseTwoRegistersStatement(test: RangeTest, tokens: seq<Token>, i: nat, st: Asm)
    requires (st.Ld? || st.St?) && RenderedAt(tokens, i, st)
    ensures StatementAt(test, tokens, i) == Ok(Outcome(st, i))
  {
    var op := TwoRegistersShape(tokens, i, st);
    ParseTwoRegisters(test, tokens, i, op, st.aa, st.bb, Outcome(st, i));
  }

  lemma ParseNoOperandsStatement(test: RangeTest, tokens: seq<Token>, i: nat, st: Asm)
    requires (st.Nop? || st.Eai? || st.Hlt?) && RenderedAt(tokens, i, st)
    ensures StatementAt(test, tokens, i) == Ok(Outcome(st, i))
  {
    var word := NoOperandsShape(tokens, i, st);
    ParseNoOperands(test, tokens, i, word, Outcome(st, i));
  }

  lemma ParseSetStatement(test: RangeTest, tokens: seq<Token>, i: nat, st: Asm)
    requires st.Set? && WellFormed(st) && RenderedAt(tokens, i, st)
    ensures StatementAt(test, tokens, i) == Ok(Outcome(st, i))
  {
    var op := SetShape(test, tokens, i, st);
    ParseSet(test, tokens, i, op, st.aa, st.yy, st.x, Outcome(st, i));
  }

  lemma ParseBreStatement(test: RangeTest, tokens: seq<Token>, i: nat, st: Asm)
    requires st.Bre? && WellFormed(st) && RenderedAt(tokens, i, st)
    ensures StatementAt(test, tokens, i) == Ok(Outcome(st, i))
  {
    var op := BreShape(test, tokens, i, st);
    ParseThreeImmediates(test, tokens, i, op, st.ci, st.ai, st.bi, Outcome(st, i));
  }

  lemma ParseOneImmediateStatement(test: RangeTest, tokens: seq<Token>, i: nat, st: Asm)
    requires (st.Clr? || st.Not? || st.Eti? || st.Selb?) && WellFormed(st) && RenderedAt(tokens, i, st)
    ensures StatementAt(test, tokens, i) == Ok(Outcome(st, i))
  {
    var op, nbits, n := OneImmediateShape(test, tokens, i, st);
    ParseOneImmediate(test, tokens, i, op, nbits, n, Outcome(st, i));
  }

  predicate AllWellFormed(prog: seq<Asm>) {
    forall k :: 0 <= k < |prog| ==> WellFormed(prog[k])
  }

  /** The tokens of a program, statement after statement; a `Blank` is a line break. */
  function RenderAll(prog: seq<Asm>): (ts: seq<Token>)
    ensures |ts| >= |prog|
    decreases prog, 1
  {
    if prog == [] then [] else RenderCons(prog)
  }

  /** `RenderAll` of a non-empty program: its first statement, then the rest. */
  function RenderCons(prog: seq<Asm>): (ts: seq<Token>)
    requires prog != []
    ensures |ts| >= |prog|
    decreases prog, 0
  {
    Render(prog[0]) + RenderAll(prog[1..])
  }

  lemma AllWellFormedTail(prog: seq<Asm>)
    requires AllWellFormed(prog) && prog != []
    ensures WellFormed(prog[0]) && AllWellFormed(prog[1..])
  {
    forall k | 0 <= k < |prog| - 1 ensures WellFormed(prog[1..][k]) {
      assert prog[1..][k] == prog[k + 1];
    }
  }

  /** The instruction list a program should assemble to. */
  function EncodeAll(prog: seq<Asm>): (ws: seq<U32>)
    requires AllWellFormed(prog)
    decreases prog, 1
  {
    if prog == [] then [] else EncodeCons(prog)
  }

  /** `EncodeAll` of a non-empty program: its first statement's words, then the rest. */
  function EncodeCons(prog: seq<Asm>): (ws: seq<U32>)
    requires AllWellFormed(prog) && prog != []
    decreases prog, 0
  {
    AllWellFormedTail(prog);
    Encode(prog[0]) + EncodeAll(prog[1..])
  }

  /** The tokens from position `i` to the end are the rendering of `prog`. */
  predicate RenderedFrom(tokens: seq<Token>, i: nat, prog: seq<Asm>) {
    i <= |tokens| && tokens[i..] == RenderAll(prog)
  }

  lemma SuffixSplit(tokens: seq<Token>, i: nat, r: seq<Token>, rest: seq<Token>)
    requires i <= |tokens| && tokens[i..] == r + rest
    ensures i + |r| <= |tokens| && tokens[i..i + |r|] == r && tokens[i + |r|..] == rest
  {
    assert tokens[i..i + |r|] == tokens[i..][..|r|];
    assert tokens[i + |r|..] == tokens[i..][|r|..];
  }

  lemma RenderedSplit(tokens: seq<Token>, i: nat, prog: seq<Asm>)
    requires prog != [] && RenderedFrom(tokens, i, prog)
    ensures RenderedAt(tokens, i, prog[0]) && RenderedFrom(tokens, i + |Render(prog[0])|, prog[1..])
  {
    assert RenderAll(prog) == Render(prog[0]) + RenderAll(prog[1..]);
    SuffixSplit(tokens, i, Render(prog[0]), RenderAll(prog[1..]));
  }

  /** The first statement of a rendered program parses into the parser's outcome for it. */
  lemma RenderedHead(test: RangeTest, tokens: seq<Token>, i: nat, prog: seq<Asm>)
    requires AllWellFormed(prog) && prog != [] && RenderedFrom(tokens, i, prog)
    ensures WellFormed(prog[0]) && i < |tokens| && StatementAt(test, tokens, i) == Ok(Outcome(prog[0], i))
  {
    assert WellFormed(prog[0]);
    RenderedSplit(tokens, i, prog);
    ParseStatement(test, tokens, i, prog[0]);
  }

  /** The rest of a rendered program starts at some later position. */
  lemma RenderedTail(tokens: seq<Token>, i: nat, prog: seq<Asm>) returns (j: nat)
    requires AllWellFormed(prog) && prog != [] && RenderedFrom(tokens, i, prog)
    ensures AllWellFormed(prog[1..]) && RenderedFrom(tokens, j, prog[1..])
  {
    RenderedSplit(tokens, i, prog);
    AllWellFormedTail(prog);
    j := i + |Render(prog[0])|;
  }

  /** Where the rest of a rendered program starts, the parser's outcome for the first
      statement has just ended. */
  lemma OutcomeEnds(tokens: seq<Token>, i: nat, j: nat, prog: seq<Asm>)
    requires prog != [] && WellFormed(prog[0])
    requires RenderedFrom(tokens, i, prog) && RenderedFrom(tokens, j, prog[1..])
    ensures Outcome(prog[0], i).last + 1 == j
  {
    assert RenderAll(prog) == Render(prog[0]) + RenderAll(prog[1..]);
  }

  /** A chain of parser steps, first to last. */
  datatype Chain = End | Link(step: Step, rest: Chain)

  /** The statements from position `i` on parse, one after another, into the steps of `c`,
      and the last of them ends the token list. */
  predicate StepsAt(test: RangeTest, tokens: seq<Token>, i: nat, c: Chain)
    decreases c, 1
  {
    match c
    case End => i == |tokens|
    case Link(o, rest) => StepsAfter(test, tokens, i, o, rest)
  }

  /** `StepsAt` for a link: the statement at `i` is `o`, and `rest` follows it. */
  predicate StepsAfter(test: RangeTest, tokens: seq<Token>, i: nat, o: Step, rest: Chain)
    decreases Link(o, rest), 0
  {
    i < |tokens| && StatementAt(test, tokens, i) == Ok(o) && StepsAt(test, tokens, o.last + 1, rest)
  }

  function EmittedAll(c: Chain): seq<U32> {
    match c
    case End => []
    case Link(o, rest) => o.Emitted() + EmittedAll(rest)
  }

  /** The parser's loop follows a chain of statements to the end of the token list. */
  lemma {:induction false} ListFromSteps(test: RangeTest, tokens: seq<Token>, i: nat, c: Chain, acc: seq<U32>)
    requires StepsAt(test, tokens, i, c)
    ensures ListFrom(test, tokens, i, acc) == Ok(acc + EmittedAll(c))
    decreases c
  {
    match c
    case End =>
      assert acc + EmittedAll(c) == acc;
    case Link(o, rest) =>
      ListFromLink(test, tokens, i, o, rest, acc);
      ListFromSteps(test, tokens, o.last + 1, rest, acc + o.Emitted());
      assert acc + EmittedAll(c) == (acc + o.Emitted()) + EmittedAll(rest);
  }

  /** The parser's loop takes the first step of a chain and goes on where it ends. */
  lemma ListFromLink(test: RangeTest, tokens: seq<Token>, i: nat, o: Step, rest: Chain, acc: seq<U32>)
    requires StepsAt(test, tokens, i, Link(o, rest))
    ensures StepsAt(test, tokens, o.last + 1, rest)
    ensures ListFrom(test, tokens, i, acc) == ListFrom(test, tokens, o.last + 1, acc + o.Emitted())
  {
    ListFromStep(test, tokens, i, acc, o);
  }

  /** A chain for the rest of a rendered program extends to a chain for all of it. */
  lemma RenderedCons(test: RangeTest, tokens: seq<Token>, i: nat, j: nat, prog: seq<Asm>, rest: Chain) returns (c: Chain)
    requires AllWellFormed(prog) && prog != [] && AllWellFormed(prog[1..])
    requires RenderedFrom(tokens, i, prog) && RenderedFrom(tokens, j, prog[1..])
    requires StepsAt(test, tokens, j, rest) && EmittedAll(rest) == EncodeAll(prog[1..])
    ensures StepsAt(test, tokens, i, c) && EmittedAll(c) == EncodeAll(prog)
  {
    assert WellFormed(prog[0]);
    var o := Outcome(prog[0], i);
    c := Link(o, rest);
    LinkSteps(test, tokens, i, j, prog, rest);
    LinkEmits(prog, o, rest);
  }

  /** The first statement's step, followed by a chain from where the rest of the program
      starts, is a chain from `i`. */
  lemma LinkSteps(test: RangeTest, tokens: seq<Token>, i: nat, j: nat, prog: seq<Asm>, rest: Chain)
    requires AllWellFormed(prog) && prog != []
    requires RenderedFrom(tokens, i, prog) && RenderedFrom(tokens, j, prog[1..])
    requires StepsAt(test, tokens, j, rest)
    ensures WellFormed(prog[0]) && StepsAt(test, tokens, i, Link(Outcome(prog[0], i), rest))
  {
    RenderedHead(test, tokens, i, prog);
    OutcomeEnds(tokens, i, j, prog);
    assert StepsAfter(test, tokens, i, Outcome(prog[0], i), rest);
  }

  /** A step emitting the first statement's words, then a chain emitting the rest's, emit the
      whole program's words. */
  lemma LinkEmits(prog: seq<Asm>, o: Step, rest: Chain)
    requires AllWellFormed(prog) && prog != [] && AllWellFormed(prog[1..])
    requires o.Emitted() == Encode(prog[0]) && EmittedAll(rest) == EncodeAll(prog[1..])
    ensures EmittedAll(Link(o, rest)) == EncodeAll(prog)
  {
    assert EncodeAll(prog) == EncodeCons(prog);
  }

  /** A rendered program is such a chain, and the chain emits the program's encoding. */
  lemma {:induction false} RenderedSteps(test: RangeTest, tokens: seq<Token>, i: nat, prog: seq<Asm>) returns (c: Chain)
    requires AllWellFormed(prog) && RenderedFrom(tokens, i, prog)
    ensures StepsAt(test, tokens, i, c) && EmittedAll(c) == EncodeAll(prog)
    decreases |prog|
  {
    if prog == [] {
      assert |tokens[i..]| == 0;
      c := End;
    } else {
      var j := RenderedTail(tokens, i, prog);
      var rest := RenderedSteps(test, tokens, j, prog[1..]);
      c := RenderedCons(test, tokens, i, j, prog, rest);
    }
  }

  /** `Parser::generate_instruction_list` assembles the tokens of a program into the encoding
      of its statements, one word per instruction and none per empty line. */
  lemma AssembleRendered(test: RangeTest, prog: seq<Asm>)
    requires AllWellFormed(prog)
    ensures InstructionList(test, RenderAll(prog)) == Ok(EncodeAll(prog))
  {
    var tokens := RenderAll(prog);
    assert tokens[0..] == tokens;
    var c := RenderedSteps(test, tokens, 0, prog);
    ListFromSteps(test, tokens, 0, c, []);
    assert [] + EmittedAll(c) == EmittedAll(c);
  }

  /** Two token lists with the same kinds and texts, wherever their tokens start. */
  predicate SameText(a: seq<Token>, b: seq<Token>) {
    |a| == |b| && forall k :: 0 <= k < |a| ==> a[k].kind == b[k].kind && a[k].data == b[k].data
  }

  /** A statement that parses reads only its tokens' kinds and texts, not their positions. */
  lemma StatementIgnoresPositions(test: RangeTest, a: seq<Token>, b: seq<Token>, i: nat)
    requires SameText(a, b) && i < |a|
    ensures StatementAt(test, a, i).Ok? ==> StatementAt(test, b, i) == StatementAt(test, a, i)
  {
    OperandsIgnorePositions(test, a, b);
    assert a[i].kind == b[i].kind && a[i].data == b[i].data;
    if a[i].kind == IDENTIFIER {
      match FormOf(a[i].data)
      case ThreeRegisters(base) =>
        assert StatementAt(test, a, i) == ArithmeticInstruction(base, a, i);
        assert StatementAt(test, b, i) == ArithmeticInstruction(base, b, i);
      case OneRegister(base) =>
        assert StatementAt(test, a, i) == UnaryInstruction(base, a, i);
        assert StatementAt(test, b, i) == UnaryInstruction(base, b, i);
      case RegisterAndTwoImmediates(base) =>
        assert StatementAt(test, a, i) == SetInstruction(test, base, a, i);
        assert StatementAt(test, b, i) == SetInstruction(test, base, b, i);
      case OneImmediate(base, nbits) =>
        assert StatementAt(test, a, i) == ImmediateInstruction(test, base, nbits, a, i);
        assert StatementAt(test, b, i) == ImmediateInstruction(test, base, nbits, b, i);
      case ThreeImmediates(base) =>
        assert StatementAt(test, a, i) == CompareInstruction(test, base, a, i);
        assert StatementAt(test, b, i) == CompareInstruction(test, base, b, i);
      case TwoRegisters(base) =>
        assert StatementAt(test, a, i) == MemoryInstruction(base, a, i);
        assert StatementAt(test, b, i) == MemoryInstruction(base, b, i);
      case _ =>
    }
  }

  /** An operand that reads from one list reads the same from a list with the same kinds and texts. */
  lemma OperandsIgnorePositions(test: RangeTest, a: seq<Token>, b: seq<Token>)
    requires SameText(a, b)
    ensures forall j: nat :: RegisterAt(a, j).Ok? ==> RegisterAt(b, j) == RegisterAt(a, j)
    ensures forall j: nat, nbits: nat :: IntAt(test, a, j, nbits).Ok? ==> IntAt(test, b, j, nbits) == IntAt(test, a, j, nbits)
  {
    forall j: nat | RegisterAt(a, j).Ok?
      ensures RegisterAt(b, j) == RegisterAt(a, j)
    {
      assert a[j].kind == b[j].kind && a[j].data == b[j].data;
    }
    forall j: nat, nbits: nat | IntAt(test, a, j, nbits).Ok?
      ensures IntAt(test, b, j, nbits) == IntAt(test, a, j, nbits)
    {
      assert a[j].kind == b[j].kind && a[j].data == b[j].data;
    }
  }

  /** The same for the loop: a token list that assembles does so wherever its tokens start. */
  lemma {:induction false} ListIgnoresPositions(test: RangeTest, a: seq<Token>, b: seq<Token>, i: nat, acc: seq<U32>)
    requires SameText(a, b)
    ensures ListFrom(test, a, i, acc).Ok? ==> ListFrom(test, b, i, acc) == ListFrom(test, a, i, acc)
    decreases |a| - i
  {
    if i < |a| {
      StatementIgnoresPositions(test, a, b, i);
      ListFromStatement(test, a, i, acc);
      ListFromStatement(test, b, i, acc);
      var r := StatementAt(test, a, i);
      if r.Ok? {
        ListIgnoresPositions(test, a, b, r.value.last + 1, acc + r.value.Emitted());
      }
    }
  }

  /** Every well-formed program assembles to its encoding from any token list with its
      tokens' kinds and texts, such as the lexer's, whatever lines and columns it gives them. */
  lemma AssembleAnyPositions(test: RangeTest, prog: seq<Asm>, tokens: seq<Token>)
    requires AllWellFormed(prog) && SameText(RenderAll(prog), tokens)
    ensures InstructionList(test, tokens) == Ok(EncodeAll(prog))
  {
    AssembleRendered(test, prog);
    ListIgnoresPositions(test, RenderAll(prog), tokens, 0, []);
  }
}

/** Statements the parser refuses, and how the mnemonic comparisons classify a name. */
module AsmParserRejections {
  import opened Isa
  import opened Numerals
  import opened Results
  import opened AsmLexer
  import opened AsmParser
  import opened AsmParserProperties

  /** No mnemonic is both encoded and rejected as not implemented. */
  lemma MnemonicsDisjoint(m: string)
    ensures !(EncodedMnemonic(m) && NotImplementedMnemonic(m))
  {
  }

  /** The comparison chain sends exactly the not-implemented mnemonics to `not_implemented`. */
  lemma NotImplementedForms(m: string)
    ensures FormOf(m) == NotImplementedForm <==> NotImplementedMnemonic(m)
  {
    MnemonicsDisjoint(m);
  }

  /** The comparison chain sends exactly the names it has no branch for to `unknown_instruction`. */
  lemma UnknownForms(m: string)
    ensures FormOf(m) == UnknownForm <==> !EncodedMnemonic(m) && !NotImplementedMnemonic(m)
  {
  }

  /** A mnemonic the parser knows but does not encode stops the parse with `not_implemented`. */
  lemma RejectsNotImplemented(test: RangeTest, tokens: seq<Token>, i: nat)
    requires i < |tokens| && tokens[i].kind == IDENTIFIER && NotImplementedMnemonic(tokens[i].data)
    ensures StatementAt(test, tokens, i) == Err(NotImplemented(tokens[i]))
  {
    NotImplementedForms(tokens[i].data);
  }

  /** Any other name in mnemonic position stops the parse with `unknown_instruction`. */
  lemma RejectsUnknown(test: RangeTest, tokens: seq<Token>, i: nat)
    requires i < |tokens| && tokens[i].kind == IDENTIFIER
    requires !EncodedMnemonic(tokens[i].data) && !NotImplementedMnemonic(tokens[i].data)
    ensures StatementAt(test, tokens, i) == Err(UnknownInstruction(tokens[i]))
  {
    UnknownForms(tokens[i].data);
  }

  /** A statement cannot start with an INTEGER or a SECTION token. */
  lemma RejectsNonIdentifier(test: RangeTest, tokens: seq<Token>, i: nat)
    requires i < |tokens| && tokens[i].kind != IDENTIFIER && tokens[i].kind != ENDLINE
    ensures StatementAt(test, tokens, i) == Err(UnexpectedToken(tokens[i], IDENTIFIER))
  {
  }

  /** The two range tests part only at 2^nbits: the test as written accepts it, the test the
      error message names refuses it. */
  lemma AsWrittenDiffersAtBound(t: Token, nbits: nat)
    ensures ExtractInt(t, nbits) != ExtractIntAsWritten(t, nbits) <==> IntegerOf(t) == Ok(Pow2(nbits))
    ensures IntegerOf(t) == Ok(Pow2(nbits)) ==> ExtractInt(t, nbits) == Err(ValueOutOfRange(t, nbits))
  {
    if IntegerOf(t).Ok? {
      var v := IntegerOf(t).value;
      if v == Pow2(nbits) {
        assert ExtractIntAsWritten(t, nbits) == Ok(v);
      }
    }
  }

  /** As written, `extract_int` takes 16 for the 4-bit `xxxx` field of SET; the value spills
      into the `yy` field, so `SET W0 0 16` and `SET W0 1 0` would both encode to 0x0810.
      The range test the parser uses refuses 16. */
  lemma InclusiveBoundCollision()
    ensures ExtractIntAsWritten(Int(16), 4) == Ok(16)
    ensures ExtractInt(Int(16), 4) == Err(ValueOutOfRange(Int(16), 4))
    ensures BitOr(BitOr(BitOr(SET_CODE * 0x100, 0 * 64), 0 * 16), 16) == 0x0810
    ensures BitOr(BitOr(BitOr(SET_CODE * 0x100, 0 * 64), 1 * 16), 0) == 0x0810
  {
    ReadNumeral(16, 10);
    assert Prefix(10) + Numeral(16, 10) == Numeral(16, 10);
    assert Pow2(4) == 16;
    assert IntegerOf(Int(16)) == Ok(16);
    assert Pow2(5) == 32;
    OrAdds(0x0800, 16, 5, 32, 64);
  }

  /** The numeral `016`: the lexer reads a leading `0` and the digits after it as one INTEGER,
      and `std::stoi` in base 10 gives 16. */
  const Sixteen: Token := Token(1, 1, INTEGER, "016")

  lemma SixteenReads()
    ensures IntegerOf(Sixteen) == Ok(16)
  {
    var s := "016";
    assert DigitEnd(s, 3, 10) == 3;
    assert DigitEnd(s, 0, 10) == 3;
    assert DigitsValue(s, 0, 1, 10) == 0;
    assert DigitsValue(s, 0, 2, 10) == 1;
    assert DigitsValue(s, 0, 3, 10) == 16;
  }

  /** As written, the statement `SET W0 0 016` is accepted and encodes to 0x0810. */
  lemma SetSixteenAsWritten()
    ensures StatementAt(Inclusive, [Ident("SET"), Reg(0), Int(0), Sixteen], 0) == Ok(Emit(0x0810, 3))
  {
    var tokens := [Ident("SET"), Reg(0), Int(0), Sixteen];
    assert FormOf(tokens[0].data) == RegisterAndTwoImmediates(SET_CODE * 0x100);
    RegisterAtValue(tokens, 1, 0);
    IntAtValue(Inclusive, tokens, 2, 0, 2);
    SixteenReads();
    assert IntAt(Inclusive, tokens, 3, 4) == Ok(16);
    InclusiveBoundCollision();
    assert StatementAt(Inclusive, tokens, 0) == SetInstruction(Inclusive, SET_CODE * 0x100, tokens, 0);
  }

  /** `SET W0 1 0` encodes to the same word 0x0810 under either range test. */
  lemma SetOneZero(test: RangeTest)
    ensures StatementAt(test, [Ident("SET"), Reg(0), Int(1), Int(0)], 0) == Ok(Emit(0x0810, 3))
  {
    var tokens := [Ident("SET"), Reg(0), Int(1), Int(0)];
    assert FormOf(tokens[0].data) == RegisterAndTwoImmediates(SET_CODE * 0x100);
    RegisterAtValue(tokens, 1, 0);
    IntAtValue(test, tokens, 2, 1, 2);
    IntAtValue(test, tokens, 3, 0, 4);
    ParseSet(test, tokens, 0, SET_CODE, 0, 1, 0, Emit(0x0810, 3));
  }

  /** The corrected range test refuses the 16 of `SET W0 0 016`. */
  lemma SetSixteenRefused()
    ensures StatementAt(Exclusive, [Ident("SET"), Reg(0), Int(0), Sixteen], 0) == Err(ValueOutOfRange(Sixteen, 4))
  {
    var tokens := [Ident("SET"), Reg(0), Int(0), Sixteen];
    assert FormOf(tokens[0].data) == RegisterAndTwoImmediates(SET_CODE * 0x100);
    RegisterAtValue(tokens, 1, 0);
    IntAtValue(Exclusive, tokens, 2, 0, 2);
    SixteenReads();
    assert Pow2(4) == 16;
    assert IntAt(Exclusive, tokens, 3, 4) == Err(ValueOutOfRange(Sixteen, 4));
    assert StatementAt(Exclusive, tokens, 0) == SetInstruction(Exclusive, SET_CODE * 0x100, tokens, 0);
  }

  /** As written, `ETI 2` passes the 1-bit test and encodes to 0xC302, whose bit 0 is clear,
      so the CPU starts timer 0, as for `ETI 0`. */
  lemma EnableTwoAsWritten()
    ensures StatementAt(Inclusive, [Ident("ETI"), Int(2)], 0) == Ok(Emit(0xC302, 1))
    ensures Bit0(Operand(0xC302)) == Bit0(Operand(0xC300)) == 0
  {
    var tokens := [Ident("ETI"), Int(2)];
    assert FormOf(tokens[0].data) == OneImmediate(ETI_CODE * 0x100, 1);
    ReadNumeral(2, 10);
    assert Prefix(10) + Numeral(2, 10) == Numeral(2, 10);
    assert IntegerOf(Int(2)) == Ok(2);
    assert Pow2(1) == 2;
    ParseOneImmediate(Inclusive, tokens, 0, ETI_CODE, 1, 2, Emit(0xC302, 1));
  }

  /** The corrected range test refuses the 2 of `ETI 2`. */
  lemma EnableTwoRefused()
    ensures StatementAt(Exclusive, [Ident("ETI"), Int(2)], 0) == Err(ValueOutOfRange(Int(2), 1))
  {
    var tokens := [Ident("ETI"), Int(2)];
    assert FormOf(tokens[0].data) == OneImmediate(ETI_CODE * 0x100, 1);
    ReadNumeral(2, 10);
    assert Prefix(10) + Numeral(2, 10) == Numeral(2, 10);
    assert IntegerOf(Int(2)) == Ok(2);
    assert Pow2(1) == 2;
    assert StatementAt(Exclusive, tokens, 0) == ImmediateInstruction(Exclusive, ETI_CODE * 0x100, 1, tokens, 0);
  }

  /** As written, the one-statement programs `SET W0 0 016` and `SET W0 1 0` assemble to the
      same instruction list. */
  lemma SixteenProgramCollides()
    ensures InstructionList(Inclusive, [Ident("SET"), Reg(0), Int(0), Sixteen]) == Ok([0x0810])
    ensures InstructionList(Inclusive, [Ident("SET"), Reg(0), Int(1), Int(0)]) == Ok([0x0810])
  {
    var a := [Ident("SET"), Reg(0), Int(0), Sixteen];
    var b := [Ident("SET"), Reg(0), Int(1), Int(0)];
    var o := Emit(0x0810, 3);
    assert [] + o.Emitted() == [0x0810];
    SetSixteenAsWritten();
    ListFromStep(Inclusive, a, 0, [], o);
    assert ListFrom(Inclusive, a, 4, [0x0810]) == Ok([0x0810]);
    SetOneZero(Inclusive);
    ListFromStep(Inclusive, b, 0, [], o);
    assert ListFrom(Inclusive, b, 4, [0x0810]) == Ok([0x0810]);
  }

  /** Wherever the corrected parser succeeds, the parser as written gives the same statement:
      the two differ only on an operand of exactly 2^nbits. */
  lemma StatementAgrees(tokens: seq<Token>, i: nat)
    requires i < |tokens|
    ensures StatementAt(Exclusive, tokens, i).Ok? ==> StatementAt(Inclusive, tokens, i) == StatementAt(Exclusive, tokens, i)
  {
    forall j: nat, nbits: nat | IntAt(Exclusive, tokens, j, nbits).Ok?
      ensures IntAt(Inclusive, tokens, j, nbits) == IntAt(Exclusive, tokens, j, nbits)
    {
    }
  }

  /** Wherever the corrected parser assembles a token list, the parser as written assembles
      it to the same words. */
  lemma {:induction false} ListAgrees(tokens: seq<Token>, i: nat, acc: seq<U32>)
    ensures ListFrom(Exclusive, tokens, i, acc).Ok? ==> ListFrom(Inclusive, tokens, i, acc) == ListFrom(Exclusive, tokens, i, acc)
    decreases |tokens| - i
  {
    if i < |tokens| {
      StatementAgrees(tokens, i);
      ListFromStatement(Exclusive, tokens, i, acc);
      ListFromStatement(Inclusive, tokens, i, acc);
      var r := StatementAt(Exclusive, tokens, i);
      if r.Ok? {
        ListAgrees(tokens, r.value.last + 1, acc + r.value.Emitted());
      }
    }
  }
}
