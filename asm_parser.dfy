/** The assembler's parser: it walks the token list and packs register and immediate operands
    into instruction words with the field layout the CPU decodes. */
module AsmParser {
  import opened Isa
  import opened Numerals
  import opened Results
  import opened AsmLexer

  /** Every way parsing stops: the `ParserError`s the parser throws, the two exceptions
      `std::stoi` throws, and an operand missing at the end of the token list. */
  datatype ParserError =
    | UnexpectedToken(token: Token, expected: TokenType)
    | UnexpectedRegister(token: Token)
    | ValueOutOfRange(token: Token, nbits: nat)
    | InvalidNumber(token: Token)
    | NumberOutOfRange(token: Token)
    | UnknownInstruction(token: Token)
    | NotImplemented(token: Token)
    | MissingOperand(position: nat)

  type Parsed<T> = Result<T, ParserError>

  /** `std::pow(2, n)`. */
  function Pow2(n: nat): (p: nat)
    ensures p >= 1
  {
    if n == 0 then 1 else 2 * Pow2(n - 1)
  }

  predicate StartsWith(s: string, prefix: string) {
    |s| >= |prefix| && s[..|prefix|] == prefix
  }

  /** The lambda inside `extract_int`: `std::stoi` in base 2 after a `0b` prefix, in base 16
      after a `0x` prefix, and in base 10 on the whole text otherwise. */
  function ReadNumber(data: string): StoiResult {
    if StartsWith(data, "0b") then Stoi(data[2..], 2)
    else if StartsWith(data, "0x") then Stoi(data[2..], 16)
    else Stoi(data, 10)
  }

  /** The number an INTEGER token spells, before `extract_int` checks its range. */
  function IntegerOf(t: Token): (r: Parsed<int>)
    ensures r.Ok? ==> t.kind == INTEGER && ReadNumber(t.data) == Converted(r.value)
    ensures t.kind != INTEGER ==> r == Err(UnexpectedToken(t, INTEGER))
  {
    if t.kind != INTEGER then Err(UnexpectedToken(t, INTEGER))
    else
      match ReadNumber(t.data)
      case InvalidArgument => Err(InvalidNumber(t))
      case OutOfRange => Err(NumberOutOfRange(t))
      case Converted(v) => Ok(v)
  }

  /** `extract_int` as written: the range test `value > pow(2, nbits)` lets 2^nbits through,
      one more than an `nbits`-bit field holds. */
  function ExtractIntAsWritten(t: Token, nbits: nat): (r: Parsed<int>)
    ensures r.Ok? ==> IntegerOf(t) == r && 0 <= r.value <= Pow2(nbits)
    ensures IntegerOf(t).Ok? && 0 <= IntegerOf(t).value <= Pow2(nbits) ==> r == IntegerOf(t)
  {
    var v :- IntegerOf(t);
    if v < 0 || v > Pow2(nbits) then Err(ValueOutOfRange(t, nbits)) else Ok(v)
  }

  /** `extract_int` with the range its error message names: an `nbits`-bit value, in
      [0, 2^nbits). The parser uses this one. */
  function ExtractInt(t: Token, nbits: nat): (r: Parsed<int>)
    ensures r.Ok? ==> IntegerOf(t) == r && 0 <= r.value < Pow2(nbits)
    ensures IntegerOf(t).Ok? && 0 <= IntegerOf(t).value < Pow2(nbits) ==> r == IntegerOf(t)
  {
    var v :- IntegerOf(t);
    if v < 0 || v >= Pow2(nbits) then Err(ValueOutOfRange(t, nbits)) else Ok(v)
  }

  /** Which range test the parser's immediate operands pass: `Inclusive` is `extract_int` as
      written (2^nbits passes), `Exclusive` the corrected test of `ExtractInt`. */
  datatype RangeTest = Inclusive | Exclusive

  /** The name of register `r`: `W0` .. `W3`. */
  function RegisterName(r: RegIndex): string {
    ['W', DigitChar(r)]
  }

  /** `extract_register`: the index of a register named by an IDENTIFIER token. */
  function ExtractRegister(t: Token): (r: Parsed<RegIndex>)
    ensures r.Ok? ==> t.data == RegisterName(r.value)
    ensures t.kind != IDENTIFIER ==> r == Err(UnexpectedToken(t, IDENTIFIER))
    ensures t.kind == IDENTIFIER && !r.Ok? ==> r == Err(UnexpectedRegister(t))
  {
    if t.kind != IDENTIFIER then Err(UnexpectedToken(t, IDENTIFIER))
    else if t.data == "W0" then assert t.data == RegisterName(0); Ok(0)
    else if t.data == "W1" then assert t.data == RegisterName(1); Ok(1)
    else if t.data == "W2" then assert t.data == RegisterName(2); Ok(2)
    else if t.data == "W3" then assert t.data == RegisterName(3); Ok(3)
    else Err(UnexpectedRegister(t))
  }

  /** Dereferencing the iterator after it has been moved to position `j`. */
  function TokenAt(tokens: seq<Token>, j: nat): (r: Parsed<Token>)
    ensures r.Ok? <==> j < |tokens|
    ensures r.Ok? ==> r.value == tokens[j]
  {
    if j < |tokens| then Ok(tokens[j]) else Err(MissingOperand(j))
  }

  function RegisterAt(tokens: seq<Token>, j: nat): (r: Parsed<RegIndex>)
    ensures r.Ok? ==> j < |tokens| && r == ExtractRegister(tokens[j])
  {
    var t :- TokenAt(tokens, j);
    ExtractRegister(t)
  }

  /** The `nbits`-bit immediate operand at position `j`, read under range test `test`. */
  function IntAt(test: RangeTest, tokens: seq<Token>, j: nat, nbits: nat): (r: Parsed<int>)
    ensures r.Ok? ==> j < |tokens| && 0 <= r.value <= Pow2(nbits)
    ensures r.Ok? && test == Exclusive ==> r.value < Pow2(nbits)
    ensures test == Exclusive ==> r == (if j < |tokens| then ExtractInt(tokens[j], nbits) else Err(MissingOperand(j)))
    ensures test == Inclusive ==> r == (if j < |tokens| then ExtractIntAsWritten(tokens[j], nbits) else Err(MissingOperand(j)))
  {
    var t :- TokenAt(tokens, j);
    match test
    case Inclusive => ExtractIntAsWritten(t, nbits)
    case Exclusive => ExtractInt(t, nbits)
  }

  /** `a | b` on non-negative integers, bit by bit from the least significant end. */
  function BitOr(a: nat, b: nat): (r: nat)
    ensures r <= a + b
    decreases a + b, 1
  {
    if a == 0 then b
    else if b == 0 then a
    else OrBits(a, b)
  }

  /** `a | b` for two non-zero operands: the lowest bit, then the rest shifted down. */
  function OrBits(a: nat, b: nat): (r: nat)
    requires a > 0 && b > 0
    ensures r <= a + b
    decreases a + b, 0
  {
    2 * BitOr(a / 2, b / 2) + (if a % 2 == 1 || b % 2 == 1 then 1 else 0)
  }

  /** The outcome of one statement: the instructions it appends (none or one), and the
      position of the last token it consumed. */
  datatype Step = Skip(last: nat) | Emit(word: U32, last: nat) {
    /** What the statement appends to the instruction list. */
    function Emitted(): seq<U32> {
      if Emit? then [word] else []
    }
  }

  /** `arithmetic_instruction`: `base | cc << 4 | aa << 2 | bb` from the three register
      operands after the mnemonic at `i`. */
  function ArithmeticInstruction(base: nat, tokens: seq<Token>, i: nat): (r: Parsed<Step>)
    requires base <= 0xFF00
    ensures r.Ok? ==> r.value.last == i + 3 < |tokens| && r.value.Emit?
  {
    var cc :- RegisterAt(tokens, i + 1);
    var aa :- RegisterAt(tokens, i + 2);
    var bb :- RegisterAt(tokens, i + 3);
    Ok(Emit(BitOr(BitOr(BitOr(base, cc * 16), aa * 4), bb), i + 3))
  }

  /** `unary_instruction`: `base | aa` from the register operand after the mnemonic at `i`. */
  function UnaryInstruction(base: nat, tokens: seq<Token>, i: nat): (r: Parsed<Step>)
    requires base <= 0xFF00
    ensures r.Ok? ==> r.value.last == i + 1 < |tokens| && r.value.Emit?
  {
    var aa :- RegisterAt(tokens, i + 1);
    Ok(Emit(BitOr(base, aa), i + 1))
  }

  /** The SET branch: `base | aa << 6 | yy << 4 | xxxx` from a register, a 2-bit and a
      4-bit immediate; `base` is 0x0800. */
  function SetInstruction(test: RangeTest, base: nat, tokens: seq<Token>, i: nat): (r: Parsed<Step>)
    requires base <= 0xFF00
    ensures r.Ok? ==> r.value.last == i + 3 < |tokens| && r.value.Emit?
  {
    var aa :- RegisterAt(tokens, i + 1);
    var yy :- IntAt(test, tokens, i + 2, 2);
    var xxxx :- IntAt(test, tokens, i + 3, 4);
    Ok(Emit(BitOr(BitOr(BitOr(base, aa * 64), yy * 16), xxxx), i + 3))
  }

  /** The CLR, NOT, ETI and SELB branches: `base | a` from one `nbits`-bit immediate. */
  function ImmediateInstruction(test: RangeTest, base: nat, nbits: nat, tokens: seq<Token>, i: nat): (r: Parsed<Step>)
    requires base <= 0xFF00 && nbits <= 2
    ensures r.Ok? ==> r.value.last == i + 1 < |tokens| && r.value.Emit?
  {
    var a :- IntAt(test, tokens, i + 1, nbits);
    Ok(Emit(BitOr(base, a), i + 1))
  }

  /** The BRE branch: `base | cc << 4 | aa << 2 | bb` from three 2-bit immediates. */
  function CompareInstruction(test: RangeTest, base: nat, tokens: seq<Token>, i: nat): (r: Parsed<Step>)
    requires base <= 0xFF00
    ensures r.Ok? ==> r.value.last == i + 3 < |tokens| && r.value.Emit?
  {
    var cc :- IntAt(test, tokens, i + 1, 2);
    var aa :- IntAt(test, tokens, i + 2, 2);
    var bb :- IntAt(test, tokens, i + 3, 2);
    Ok(Emit(BitOr(BitOr(BitOr(base, cc * 16), aa * 4), bb), i + 3))
  }

  /** The LD and ST branches: `base | aa << 2 | bb` from two register operands. */
  function MemoryInstruction(base: nat, tokens: seq<Token>, i: nat): (r: Parsed<Step>)
    requires base <= 0xFF00
    ensures r.Ok? ==> r.value.last == i + 2 < |tokens| && r.value.Emit?
  {
    var aa :- RegisterAt(tokens, i + 1);
    var bb :- RegisterAt(tokens, i + 2);
    Ok(Emit(BitOr(BitOr(base, aa * 4), bb), i + 2))
  }

  /** The mnemonics the parser knows but rejects as not implemented. */
  predicate NotImplementedMnemonic(m: string) {
    m in {"BRNE", "BRL", "BRH", "BRNZ", "CALL", "RET", "RETI", "CPY", "PUSH", "POP", "PEEK", "DAI", "DTI", "BRK"}
  }

  /** The mnemonics the parser encodes. */
  predicate EncodedMnemonic(m: string) {
    m in {"NOP", "ADD", "SUB", "AND", "OR", "XOR", "INC", "DEC", "SET", "CLR", "NOT", "JMP", "BRE",
          "LD", "ST", "EAI", "ETI", "SELB", "HLT"}
  }

  /** The operand shapes that the branches of `generate_instruction_list` read, with the
      opcode bits each branch starts from. */
  datatype Form =
    | NoOperands(word: nat)
    | ThreeRegisters(base: nat)
    | OneRegister(base: nat)
    | RegisterAndTwoImmediates(base: nat)
    | OneImmediate(base: nat, nbits: nat)
    | ThreeImmediates(base: nat)
    | TwoRegisters(base: nat)
    | NotImplementedForm
    | UnknownForm

  predicate ValidForm(f: Form) {
    match f
    case NoOperands(word) => word < 0x10000
    case ThreeRegisters(base) => base <= 0xFF00
    case OneRegister(base) => base <= 0xFF00
    case RegisterAndTwoImmediates(base) => base <= 0xFF00
    case OneImmediate(base, nbits) => base <= 0xFF00 && nbits <= 2
    case ThreeImmediates(base) => base <= 0xFF00
    case TwoRegisters(base) => base <= 0xFF00
    case _ => true
  }

  /** The chain of mnemonic comparisons in `generate_instruction_list`: which branch a
      mnemonic takes. */
  function FormOf(m: string): (f: Form)
    ensures ValidForm(f)
  {
    if m == "NOP" then NoOperands(0x0000)
    else if m == "ADD" then ThreeRegisters(0x0100)
    else if m == "SUB" then ThreeRegisters(0x0200)
    else if m == "AND" then ThreeRegisters(0x0300)
    else if m == "OR" then ThreeRegisters(0x0400)
    else if m == "XOR" then ThreeRegisters(0x0500)
    else if m == "INC" then OneRegister(0x0600)
    else if m == "DEC" then OneRegister(0x0700)
    else if m == "SET" then RegisterAndTwoImmediates(0x0800)
    else if m == "CLR" then OneImmediate(0x0A00, 2)
    else if m == "NOT" then OneImmediate(0x0B00, 2)
    else if m == "JMP" then OneRegister(0x8000)
    else if m == "BRE" then ThreeImmediates(0x8200)
    else if m == "LD" then TwoRegisters(0x4100)
    else if m == "ST" then TwoRegisters(0x4200)
    else if m == "EAI" then NoOperands(0xC100)
    else if m == "ETI" then OneImmediate(0xC300, 1)
    else if m == "SELB" then OneImmediate(0xC400, 2)
    else if m == "HLT" then NoOperands(0xFF00)
    else if NotImplementedMnemonic(m) then NotImplementedForm
    else UnknownForm
  }

  /** One pass of the loop body in `generate_instruction_list` for the token at `i`: an
      ENDLINE is skipped, an IDENTIFIER is a mnemonic whose operands follow it, and any other
      token is an error. */
  function StatementAt(test: RangeTest, tokens: seq<Token>, i: nat): (r: Parsed<Step>)
    requires i < |tokens|
    ensures r.Ok? ==> i <= r.value.last < |tokens|
    ensures r.Ok? ==> (r.value.Emit? <==> tokens[i].kind == IDENTIFIER)
    ensures tokens[i].kind == ENDLINE ==> r == Ok(Skip(i))
  {
    var t := tokens[i];
    if t.kind == IDENTIFIER then
      match FormOf(t.data)
      case NoOperands(word) => Ok(Emit(word, i))
      case ThreeRegisters(base) => ArithmeticInstruction(base, tokens, i)
      case OneRegister(base) => UnaryInstruction(base, tokens, i)
      case RegisterAndTwoImmediates(base) => SetInstruction(test, base, tokens, i)
      case OneImmediate(base, nbits) => ImmediateInstruction(test, base, nbits, tokens, i)
      case ThreeImmediates(base) => CompareInstruction(test, base, tokens, i)
      case TwoRegisters(base) => MemoryInstruction(base, tokens, i)
      case NotImplementedForm => Err(NotImplemented(t))
      case UnknownForm => Err(UnknownInstruction(t))
    else if t.kind == ENDLINE then Ok(Skip(i))
    else Err(UnexpectedToken(t, IDENTIFIER))
  }

  /** The instructions of the statements from position `i` on, appended to `acc`. */
  function ListFrom(test: RangeTest, tokens: seq<Token>, i: nat, acc: seq<U32>): Parsed<seq<U32>>
    decreases |tokens| - i, 1
  {
    if i >= |tokens| then Ok(acc) else ListAfter(test, tokens, i, StatementAt(test, tokens, i), acc)
  }

  /** The rest of one pass of the loop: stop at the statement's error, or append what it
      emits and go on after its last token. */
  function ListAfter(test: RangeTest, tokens: seq<Token>, i: nat, r: Parsed<Step>, acc: seq<U32>): Parsed<seq<U32>>
    requires i < |tokens| && (r.Ok? ==> i <= r.value.last)
    decreases |tokens| - i, 0
  {
    match r
    case Err(e) => Err(e)
    case Ok(step) => ListFrom(test, tokens, step.last + 1, acc + step.Emitted())
  }

  /** One step of `ListFrom`: the statement at `t` either fails the whole list or hands on
      to the next statement. */
  lemma ListFromStatement(test: RangeTest, tokens: seq<Token>, t: nat, acc: seq<U32>)
    requires t < |tokens|
    ensures StatementAt(test, tokens, t).Err? ==> ListFrom(test, tokens, t, acc) == Err(StatementAt(test, tokens, t).error)
    ensures StatementAt(test, tokens, t).Ok? ==>
      ListFrom(test, tokens, t, acc) == ListFrom(test, tokens, StatementAt(test, tokens, t).value.last + 1, acc + StatementAt(test, tokens, t).value.Emitted())
  {
  }

  /** `ListFromStatement` for a statement known to succeed with `o`. */
  lemma ListFromStep(test: RangeTest, tokens: seq<Token>, t: nat, acc: seq<U32>, o: Step)
    requires t < |tokens| && StatementAt(test, tokens, t) == Ok(o)
    ensures ListFrom(test, tokens, t, acc) == ListFrom(test, tokens, o.last + 1, acc + o.Emitted())
  {
  }

  /** What `Parser::generate_instruction_list` returns for `tokens`. */
  function InstructionList(test: RangeTest, tokens: seq<Token>): Parsed<seq<U32>> {
    ListFrom(test, tokens, 0, [])
  }

  /** `Parser::generate_instruction_list`: walk the tokens statement by statement, appending
      each statement's instruction, and stop at the first error. */
  method GenerateInstructionList(test: RangeTest, tokens: seq<Token>) returns (r: Parsed<seq<U32>>)
    ensures r == InstructionList(test, tokens)
  {
    var instructions: seq<U32> := [];
    var t := 0;
    while t < |tokens|
      invariant 0 <= t
      invariant ListFrom(test, tokens, t, instructions) == InstructionList(test, tokens)
      decreases |tokens| - t
    {
      var step := StatementAt(test, tokens, t);
      ListFromStatement(test, tokens, t, instructions);
      if step.Err? {
        return Err(step.error);
      }
      instructions := instructions + step.value.Emitted();
      t := step.value.last + 1;
    }
    return Ok(instructions);
  }
}
