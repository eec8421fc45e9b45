# Micro16 in Dafny

A model of the Micro16 toy computer and its tool chain, with proofs about each part:

- **The CPU** (`src/micro16.cpp`). It has a 32-bit instruction pointer `IP`, a control register `CR`, a stack pointer `SP` and four general registers `W0`..`W3`. Memory is four 64 KiB banks. Two timer threads raise interrupts.
  - Module `Machine` gives the machine state as a value, with pure transitions: one instruction (`Execute`), interrupt entry (`InterruptEntry`), a timer's critical section (`TimerTick`) and one turn of the run loop (`Cycle`).
  - Class `Cpu.Micro16` holds the same state in fields and arrays that its methods update in place. Each method is proved to perform the matching transition on the abstract state `State()`.
  - Modules `RegisterProperties` and `MachineProperties` prove what the instructions do. This covers SET on nibbles, the 32-bit wrap-around of INC, DEC and NOT, and what the CR bit instructions change. It also covers memory words, and how interrupt entry, RETI and the timers interact.
- **The assembler's lexer** (`src/assembler/lexer.cpp`). It is modelled as written. `AsmLexer.LexFrom` is the token list as a function of the input bytes. Class `AsmLexer.Lexer` computes that list with a cursor over the stream. `AsmLexerProperties` proves that line numbers count line breaks, that tokens have the shape of their kind, that the tokens' texts are the input's letters and digits in order, and that the lexer fails exactly on a byte that cannot start a token.
- **The assembler's parser** (`src/assembler/parser.cpp`). `AsmParser` models `extract_int`, `extract_register`, the operand packers and the statement loop. The operand reader `IntAt`, the immediate packers, the statement step `StatementAt` and the loop `GenerateInstructionList` take a range test: `Inclusive` is `extract_int` as written, `Exclusive` is the corrected test. The whole-program theorem holds under both. `AsmParserProperties` proves that every well-formed program assembles to its encoding from any token list carrying its tokens' kinds and texts, whatever lines and columns the lexer gave them. It also proves that the CPU's decoder reads back the fields each word was built from. `AsmParserRejections` proves which statements are refused, and where the two range tests part.
- **The image writer** (`src/assembler/output_utils.h`). `AsmImage.DumpInstructions` lays instructions, keyed by position, into a zeroed code bank, high byte first. Lemmas say what a CPU that is powered on with that bank fetches.
- **The Brainfuck compiler** (`src/brainfuck/compiler.cpp`). `Brainfuck.DumpAsmRepr` is proved equal to `Compile`, a definition read off the bracket structure of the source. `BrainfuckProperties` proves the following:
  - compilation completes exactly on balanced sources;
  - each loop gets its own label;
  - every branch targets a label declared before it;
  - the lines written before an error are those of the source up to the error.
- **`std::stoi` and `std::to_string`**, as the parser and the compiler use them, are modelled in `Numerals`.

Registers, addresses and instruction words are `unsigned int` in the source. They are the bounded type `Isa.U32`, with wrap-around written out (`Machine.Wrap`). Bytes are `Isa.Byte`. Masks and shifts are written as the equivalent divisions and remainders by powers of two.

## Model

| member | source | states |
|---|---|---|
| Isa.Word | src/micro16.cpp:58-64 | joining two bytes high byte first gives a 16-bit word |
| Isa.WordBytes | src/micro16.cpp:159-172 | storing a register high byte first and loading the word back keeps its low 16 bits; splitting a joined word gives the two bytes back |
| Isa.InstructionBytes | src/micro16.cpp:58-77 | an instruction word is its opcode byte followed by its operand byte, as fetched and decoded |
| Machine.SelectedBank | src/micro16.cpp:42 | `(CR & 0x3000) >> 12` is a bank number 0..3 |
| Machine.WriteWord | src/micro16.cpp:166-172 | a store puts the high byte at `a` and the low byte at `a + 1`; reading the word back gives the low 16 bits; no other byte of the bank changes |
| Machine.InterruptEntry | src/micro16.cpp:33-56 | after entry nothing is pending and the pending pair is valid; with nothing pending the state is unchanged |
| Machine.TimerTick | src/micro16.cpp:217-242 | a tick raises an interrupt exactly when none is pending and both the global and the timer's enable bits are set, records that timer's id, is a no-op while one is pending, and changes nothing but the pending pair |
| Machine.Cycle | src/micro16.cpp:17-27 | one turn of the run loop with no timer tick inside it leaves nothing pending and IP inside the code bank |
| Machine.ExecuteKeepsPendingPair | src/micro16.cpp:73-201 | no instruction touches the pending-interrupt pair |
| Machine.PoweredOn | src/micro16.cpp:3-15 | the power-on state: running, IP 0, CR 0x9000, SP 0x8000, W cleared, `code` in bank 0, nothing pending |
| Machine.ReadWord | src/micro16.cpp:58-64 | a bank's word at `a` is byte `a` as the high byte and byte `a + 1` as the low byte |
| Machine.Fetch | src/micro16.cpp:58-64 | the instruction fetched is the word at IP in the code bank, whatever CR selects |
| Machine.FinalIp | src/micro16.cpp:195-200 | after a retarget IP stays, otherwise it moves on by 2 with 32-bit wrap-around; at or past the end of the bank it becomes 0 |
| Machine.ApplyArithmetic | src/micro16.cpp:80-117 | ADD `W[cc] = W[aa] + W[bb]`, INC, DEC and NOT with 32-bit wrap-around, SET on nibble `yy`, CLR to 0; only W changes |
| Machine.ApplyBranch | src/micro16.cpp:118-158 | JMP loads IP from the register in bits 1..0, BRNZ from the register in bits 3..2 when the one in bits 1..0 is not 0, RET and RETI pop IP from the stack word and move SP down 2; RETI also sets bit 3 of CR |
| Machine.ApplyMemory | src/micro16.cpp:159-172 | LD loads the word at `W[aa]` into `W[bb]`, ST writes the low 16 bits of `W[bb]` at `W[aa]`, both in the bank CR selects |
| Machine.ApplyControl | src/micro16.cpp:179-193 | DAI and EAI clear and set bit 3 of CR, DTI and ETI clear and set the enable bit of timer `a`, HLT stops the CPU |
| Machine.Apply | src/micro16.cpp:80-193 | the opcode's branch; NOP and every opcode without a branch change nothing |
| Machine.Execute | src/micro16.cpp:73-201 | one call of `run_instruction`: the opcode's branch, then the IP update of `FinalIp` |
| Cpu.AdapterIds | src/micro16.cpp:28-30 | the adapters of the registered connections, in registration order |
| Cpu.Micro16.constructor | src/micro16.cpp:3-15 | power-on: running, IP 0, CR 0x9000, SP 0x8000, W cleared, nothing pending, `code` in bank 0, no adapters |
| Cpu.Micro16.Step | src/micro16.cpp:17-27 | one loop turn with no timer tick inside it performs `Cycle` on the state; the loop stops exactly when the CPU is no longer running |
| Cpu.Micro16.CheckInterrupts | src/micro16.cpp:33-56 | performs `InterruptEntry` on the state |
| Cpu.Micro16.InstructionFetch | src/micro16.cpp:58-64 | returns the big-endian word at IP in the code bank |
| Cpu.Micro16.RunInstruction | src/micro16.cpp:73-201 | performs `Execute` on the state: the opcode's effect, then the IP update |
| Cpu.Micro16.RunOpcode | src/micro16.cpp:80-193 | performs the effect of the opcode's branch and reports whether it loaded IP |
| Cpu.Micro16.RunArithmetic | src/micro16.cpp:80-117 | the ADD, INC, DEC, SET, CLR and NOT branches, on the general registers only |
| Cpu.Micro16.RunBranch | src/micro16.cpp:118-158 | the JMP, BRNZ, RET and RETI branches, and whether IP was loaded |
| Cpu.Micro16.RunMemory | src/micro16.cpp:159-172 | the LD and ST branches, on the bank CR selects |
| Cpu.Micro16.RunControl | src/micro16.cpp:179-193 | the DAI, EAI, DTI, ETI and HLT branches |
| Cpu.Micro16.LoadWord | src/micro16.cpp:163-164 | loads the big-endian word at `a` of the bank |
| Cpu.Micro16.StoreWord | src/micro16.cpp:171-172 | the bank becomes `WriteWord` of it; the other banks are unchanged |
| Cpu.Micro16.RegisterMmio | src/micro16.cpp:66-71 | the machine state is unchanged and the connection is appended to the adapter list |
| Cpu.Micro16.DisconnectAll | src/micro16.cpp:28-30 | disconnects every registered adapter, in registration order |
| Cpu.Micro16.TimerTick | src/micro16.cpp:224-237 | the timer's critical section performs `Machine.TimerTick`; the thread stops exactly when the CPU is no longer running |
| RegisterProperties.NibbleDigits | src/micro16.cpp:103-109 | every register is its bits 31..16 and its four low nibbles |
| RegisterProperties.ComposedNibbles | src/micro16.cpp:103-109 | composing fields and reading them back gives the fields |
| RegisterProperties.SetNibbleAt | src/micro16.cpp:103-109 | SET makes nibble `yy` equal to `x`, keeps the other three nibbles and keeps bits 31..16 |
| RegisterProperties.SetNibbleClearsThenAdds | src/micro16.cpp:107-108 | clearing the nibble then OR-ing `x` in is subtracting the old nibble and adding `x` at its weight |
| RegisterProperties.NibblesDetermine | src/micro16.cpp:103-109 | a register is determined by its four low nibbles and bits 31..16 |
| RegisterProperties.SetNibbleChain | src/micro16.cpp:103-109 | four SETs with yy = 3, 2, 1, 0 carrying a 16-bit constant leave it in the low half and keep the high half |
| RegisterProperties.SetOnFields | src/micro16.cpp:103-109 | SET on a composed register replaces exactly field `yy` |
| RegisterProperties.ConstantFields | src/micro16.cpp:103-109 | a 16-bit constant's nibbles under high half `hi` compose to `hi * 0x10000 + c` |
| RegisterProperties.WrapInverses | src/micro16.cpp:95-117 | DEC undoes INC and INC undoes DEC across the 32-bit wrap-around; NOT undoes itself; 0xFFFFFFFF + 1 is 0 and 0 - 1 is 0xFFFFFFFF |
| RegisterProperties.CrDigits | src/micro16.cpp:179-190 | every CR value is the composition of its fields |
| RegisterProperties.ComposedCr | src/micro16.cpp:179-190 | composing CR fields and reading them back gives the fields |
| RegisterProperties.InterruptFlagFields | src/micro16.cpp:179-182 | DAI and EAI rewrite bit 3 of CR and keep every other field |
| RegisterProperties.TimerFlagFields | src/micro16.cpp:183-190 | DTI a and ETI a rewrite bit 8 + a and keep every other field |
| RegisterProperties.CrWithFields | src/micro16.cpp:179-190 | reading the fields of CR with bit 3 or the timer bits replaced |
| RegisterProperties.InterruptFlagOnly | src/micro16.cpp:179-182 | DAI clears and EAI sets global interrupts; both timer bits and the selected bank stay |
| RegisterProperties.InterruptFlagIdempotent | src/micro16.cpp:179-182 | EAI after DAI is EAI, and DAI after EAI is DAI |
| RegisterProperties.TimerFlagOnly | src/micro16.cpp:183-190 | DTI a clears and ETI a sets timer a's enable bit; the other timer, the global bit and the bank stay |
| MachineProperties.FetchBytes | src/micro16.cpp:58-64 | the fetched opcode is the byte at IP and the operand the byte after it |
| MachineProperties.FinalIpSteps | src/micro16.cpp:195-200 | after every instruction IP is inside the code bank; without a retarget it moves by 2, and past the end it becomes 0 (or 1 from 0xFFFFFFFF) |
| MachineProperties.NonRetargetingKeepsIp | src/micro16.cpp:80-193 | a branch that does not load IP leaves it where it was |
| MachineProperties.IpAdvancesByTwo | src/micro16.cpp:195-200 | every instruction that does not retarget IP moves it on by 2, or to 0 at the end of the bank |
| MachineProperties.UnimplementedOnlyAdvances | src/micro16.cpp:87-94 | SUB, AND, OR, XOR, BRE..CALL and every other opcode without a branch change nothing but IP |
| MachineProperties.RetargetedIp | src/micro16.cpp:118-158 | JMP and a taken BRNZ load IP from a register, RET and RETI from the stack word, SP moves down a word; targets past the bank become 0 |
| MachineProperties.SetWritesNibble | src/micro16.cpp:103-109 | SET writes nibble yy of W[aa] and changes nothing else but IP |
| MachineProperties.SetWritesRegister | src/micro16.cpp:103-109 | a SET on `aa` leaves `aa` as its old value with nibble `yy` set to `x` |
| MachineProperties.FourSets | src/micro16.cpp:103-109 | four SETs on one register compose their nibble writes in order |
| MachineProperties.FourSetsLoadConstant | src/micro16.cpp:103-109 | four SETs load a 16-bit constant into the low half of a register |
| MachineProperties.ClearedLoadConstant | src/micro16.cpp:103-113 | after CLR, four SETs leave the register holding exactly the constant |
| MachineProperties.IncThenDec | src/micro16.cpp:95-102 | INC then DEC of one register gives the registers back |
| MachineProperties.NotTwice | src/micro16.cpp:114-117 | NOT twice gives the registers back |
| MachineProperties.NotComplementsAllBits | src/micro16.cpp:114-117 | NOT of 0x000a leaves 0xFFFF_FFF5 in a 32-bit register; only its low half is 0xfff5 |
| MachineProperties.StoreWritesWord | src/micro16.cpp:166-172 | ST writes bits 15..8 at W[aa] and bits 7..0 at W[aa]+1 in the selected bank; no other byte and no register but IP changes |
| MachineProperties.LoadReadsWord | src/micro16.cpp:159-165 | LD loads W[bb] with the word at W[aa] in the selected bank; nothing else but IP changes |
| MachineProperties.StoreThenLoad | src/micro16.cpp:159-172 | ST then LD through the same address register loads back the low 16 bits of the stored register |
| MachineProperties.EnableThenTimerMayFire | src/micro16.cpp:181-190 | after EAI and ETI a, timer a may fire while nothing is pending |
| MachineProperties.DisabledTimersDoNotFire | src/micro16.cpp:179-186 | after DAI no timer may fire; after DTI a timer a may not |
| MachineProperties.RetiPops | src/micro16.cpp:149-158 | RETI pops IP from the stack word, moves SP down and re-enables interrupts, and nothing else |
| MachineProperties.EntryJumpsThroughVector | src/micro16.cpp:33-56 | entry disables interrupts, moves SP up a word, jumps through the firing timer's vector and clears the pending pair; W and the running flag stay |
| MachineProperties.EntryPushesIp | src/micro16.cpp:41-45 | entry pushes IP big-endian at the new SP in the selected bank and touches no other bank |
| MachineProperties.EntryVectorFromOtherBank | src/micro16.cpp:41-51 | with the stack outside bank 1 the vector read is the one from before the interrupt |
| MachineProperties.EntryThenReti | src/micro16.cpp:33-56 | RETI right after entry restores IP and SP and enables interrupts in the old CR |
| MachineProperties.EntryUndone | src/micro16.cpp:39-43 | popping a word and setting bit 3 undo entry's SP and CR changes |
| MachineProperties.EntryReadsPushedIp | src/micro16.cpp:42-45 | the word at the new SP in the bank the new CR selects is the pushed IP |
| MachineProperties.PushThenPop | src/micro16.cpp:43 | moving SP up a word and back returns it, across the wrap-around too |
| MachineProperties.SecondTickDropped | src/micro16.cpp:226-233 | once a tick fires, later ticks are no-ops until the interrupt is taken, keeping the first timer's id |
| MachineProperties.NoNestedInterrupt | src/micro16.cpp:37-39 | after entry no timer can fire, because bit 3 of CR is clear |
| MachineProperties.TickBeforeDai | src/micro16.cpp:17-37 | the lock covers only `check_interrupts`: a tick between it and a fetched DAI leaves an interrupt pending with CR bit 3 clear, which the next turn takes; a turn with no tick inside it leaves nothing pending and no tick can fire after its DAI |
| Numerals.Stoi | src/assembler/parser.cpp:33-40 | a converted value is inside `int` |
| Numerals.Numeral | src/brainfuck/compiler.cpp:8 | `std::to_string` of a non-negative number: its digits without leading zeros, at least one |
| Numerals.NumeralDigits | src/brainfuck/compiler.cpp:8 | every character of a numeral is a digit of its base |
| Numerals.NumeralValue | src/brainfuck/compiler.cpp:8 | reading a numeral's digits gives its number back |
| Numerals.NumeralLeadingDigit | src/brainfuck/compiler.cpp:8 | a numeral starts with 0 only for zero |
| Numerals.StoiNumeral | src/assembler/parser.cpp:33-40 | `std::stoi` reads back the numeral of every non-negative `int` |
| Numerals.NumeralInjective | src/brainfuck/compiler.cpp:8 | different numbers have different numerals |
| AsmLexer.EofInNoClass | src/assembler/lexer.cpp:3-27 | the end-of-file value is in no character class, so every run stops at it |
| AsmLexer.IsAlpha | src/assembler/lexer.cpp:3-7 | holds exactly for `a`..`z`, `A`..`Z` and `_` |
| AsmLexer.IsDigit | src/assembler/lexer.cpp:9-12 | holds exactly for `0`..`9` |
| AsmLexer.IsBinaryDigit | src/assembler/lexer.cpp:14-17 | holds exactly for `0` and `1` |
| AsmLexer.IsHexDigit | src/assembler/lexer.cpp:19-22 | holds exactly for `0`..`9`, `A`..`F` and `a`..`f` |
| AsmLexer.IsWhitespace | src/assembler/lexer.cpp:29-32 | holds exactly for blank, tab and carriage return |
| AsmLexer.LexFrom | src/assembler/lexer.cpp:54-110 | the loop of `generate_tokens` from byte `pos`: blanks skipped, a line break an ENDLINE, a letter an IDENTIFIER run, a digit a numeral, EOF the end, any other byte an error |
| AsmLexer.Lex | src/assembler/lexer.cpp:54-79 | the tokens of a whole input, from line 1, column 1 |
| AsmLexer.Text | src/assembler/lexer.cpp:69-72 | a token's text has one character per byte, of the same value |
| AsmLexer.RunEnd | src/assembler/lexer.cpp:83-85 | a run of a class stops at the first byte not in it, or at the end |
| AsmLexer.NumberEnd | src/assembler/lexer.cpp:89-110 | a numeral is at least its first digit and ends inside the input |
| AsmLexer.IdentifierPass | src/assembler/lexer.cpp:68-70 | a pass over a letter emits the identifier of its run and goes on after it |
| AsmLexer.NumberPass | src/assembler/lexer.cpp:71-73 | a pass over a digit emits the numeral and goes on after it |
| AsmLexer.Lexer.constructor | src/assembler/lexer.hpp:60-64 | a fresh lexer is at the start with no tokens, on line 1, column 1 |
| AsmLexer.Lexer.PeekNext | src/assembler/lexer.cpp:112-115 | returns the next byte (EOF past the end) without consuming it |
| AsmLexer.Lexer.Next | src/assembler/lexer.cpp:117-121 | counts a column and consumes the next byte (EOF past the end) |
| AsmLexer.Lexer.TakeWhile | src/assembler/lexer.cpp:83-85 | consumes exactly the run of the class, one column per byte |
| AsmLexer.Lexer.Identifier | src/assembler/lexer.cpp:81-87 | appends one IDENTIFIER token with the letter and its run, and continues the lexer's result |
| AsmLexer.Lexer.Number | src/assembler/lexer.cpp:89-110 | appends one INTEGER token with the numeral's bytes, and continues the lexer's result |
| AsmLexer.Lexer.NumberText | src/assembler/lexer.cpp:91-108 | reads the digit and, after a `0`, the run its next byte selects |
| AsmLexer.Lexer.GenerateTokens | src/assembler/lexer.cpp:54-79 | returns exactly the lexer's result `LexFrom` for the stream |
| AsmLexer.TokensFromFile | src/assembler/lexer.cpp:39-48 | returns the tokens of the file's contents |
| AsmLexerProperties.LexFromMove | src/assembler/lexer.cpp:57-77 | a pass over a lexable byte continues the lexer from where it leaves it |
| AsmLexerProperties.LexFromStops | src/assembler/lexer.cpp:60-76 | at the end or an EOF byte the lexer returns its tokens; at any other unlexable byte it fails with that byte and the line |
| AsmLexerProperties.LineOf | src/assembler/lexer.cpp:64-67 | each token's line is 1 plus the line breaks before it |
| AsmLexerProperties.LexLines | src/assembler/lexer.cpp:54-79 | every token's line is 1 plus the ENDLINE tokens before it; a failure reports a line of at least 1 |
| AsmLexerProperties.EndlinesGrow | src/assembler/lexer.cpp:64-67 | a longer prefix of tokens holds at least as many line breaks |
| AsmLexerProperties.LexLinesOrdered | src/assembler/lexer.cpp:54-79 | line numbers never decrease along the lexer's tokens |
| AsmLexerProperties.NumberDigits | src/assembler/lexer.cpp:89-110 | a numeral is decimal digits, longer than one only after a leading 0 |
| AsmLexerProperties.LexShapes | src/assembler/lexer.cpp:54-110 | every token has its kind's shape: ENDLINE empty, IDENTIFIER a letter then letters and digits, INTEGER digits; never SECTION |
| AsmLexerProperties.LexFails | src/assembler/lexer.cpp:57-77 | the lexer succeeds exactly when every byte before the first EOF byte is a blank, a line break, a letter, a digit or an underscore |
| AsmLexerProperties.LexData | src/assembler/lexer.cpp:54-110 | the tokens' texts, one after another, are the letters, digits and underscores before the first EOF, in order |
| AsmLexerProperties.DecimalSplits | src/assembler/lexer.cpp:89-110 | `16` lexes as two INTEGER tokens `1` and `6` |
| AsmLexerProperties.HexPrefixSplits | src/assembler/lexer.cpp:91-101 | `0x1F` lexes as INTEGER `0` and IDENTIFIER `x1F` |
| AsmLexerProperties.LeadingZeroRuns | src/assembler/lexer.cpp:102-106 | `007` lexes as one INTEGER |
| AsmLexerProperties.SixteenWithLeadingZero | src/assembler/lexer.cpp:102-106 | `016` lexes as one INTEGER |
| AsmLexerProperties.FirstLineColumns | src/assembler/lexer.cpp:57-67 | the first byte is in column 2, and after a line break lines start in column 1 |
| AsmParser.IntegerOf | src/assembler/parser.cpp:27-40 | a number only from an INTEGER token, read by the base its prefix selects; any other token is an unexpected-token error |
| AsmParser.ReadNumber | src/assembler/parser.cpp:33-40 | `std::stoi` in base 2 after `0b`, in base 16 after `0x`, in base 10 on the whole text otherwise |
| AsmParser.ExtractIntAsWritten | src/assembler/parser.cpp:27-46 | as written: accepts exactly the values from 0 to 2^nbits inclusive |
| AsmParser.ExtractInt | src/assembler/parser.cpp:27-46 | accepts exactly the values from 0 below 2^nbits |
| AsmParser.ExtractRegister | src/assembler/parser.cpp:48-65 | a register only for an IDENTIFIER naming it; other kinds are an unexpected token, other names an unexpected register |
| AsmParser.TokenAt | src/assembler/parser.cpp:67-83 | reading the operand at `j` succeeds exactly inside the token list and gives that token |
| AsmParser.RegisterAt | src/assembler/parser.cpp:67-83 | the register operand at `j` is `extract_register` of the token there |
| AsmParser.IntAt | src/assembler/parser.cpp:107-139 | the immediate operand at `j` is `extract_int` of the token there under the range test; as written it may reach 2^nbits, corrected it stays below |
| AsmParser.FormOf | src/assembler/parser.cpp:91-197 | the mnemonic comparisons: which branch a name takes and the base word it packs into, every base fitting below the operand fields |
| AsmParser.ArithmeticInstruction | src/assembler/parser.cpp:67-76 | success consumes three operands and emits a word |
| AsmParser.UnaryInstruction | src/assembler/parser.cpp:78-83 | success consumes one operand and emits a word |
| AsmParser.SetInstruction | src/assembler/parser.cpp:107-115 | success consumes three operands and emits a word |
| AsmParser.ImmediateInstruction | src/assembler/parser.cpp:116-125 | success consumes one operand and emits a word |
| AsmParser.CompareInstruction | src/assembler/parser.cpp:131-139 | success consumes three operands and emits a word |
| AsmParser.MemoryInstruction | src/assembler/parser.cpp:154-167 | success consumes two operands and emits a word |
| AsmParser.StatementAt | src/assembler/parser.cpp:89-204 | a statement ends inside the tokens; it emits exactly when it starts with an IDENTIFIER; an ENDLINE is skipped |
| AsmParser.ListFrom | src/assembler/parser.cpp:89-206 | the loop from token `i`: each statement's words appended in order, the first error ends it |
| AsmParser.InstructionList | src/assembler/parser.cpp:85-207 | the loop from the first token with no instructions yet |
| AsmParser.ListFromStatement | src/assembler/parser.cpp:89-205 | the loop stops at a statement's error, else appends its words and goes on after it |
| AsmParser.GenerateInstructionList | src/assembler/parser.cpp:85-207 | returns exactly `InstructionList` of the tokens under the range test it is given |
| AsmParserProperties.OrOfDisjoint | src/assembler/parser.cpp:114 | OR-ing a value below 2^k into a multiple of 2^k is adding it |
| AsmParserProperties.ExtractIntNumeral | src/assembler/parser.cpp:27-46 | `0b`, `0x` and plain numerals of every value below 2^nbits are read back |
| AsmParserProperties.ReadNumeral | src/assembler/parser.cpp:33-40 | the prefix selects the base the numeral is read in |
| AsmParserProperties.RegisterToken | src/assembler/parser.cpp:48-65 | `W0`..`W3` read back as their registers |
| AsmParserProperties.IntToken | src/assembler/parser.cpp:27-46 | a decimal numeral that fits the field reads back as its value |
| AsmParserProperties.FieldsOf | src/micro16.cpp:80-117 | the CPU's decoder reads op, cc, aa and bb back out of the word `op * 256 + cc * 16 + aa * 4 + bb` |
| AsmParserProperties.SetFieldsOf | src/micro16.cpp:103-106 | the decoder reads aa, yy and xxxx back out of SET's layout |
| AsmParserProperties.DecodeEncoded | src/assembler/parser.cpp:91-195 | the CPU decodes every encoded statement into the opcode and operands it was written with |
| AsmParserProperties.Pack3 | src/assembler/parser.cpp:67-76 | OR-ing the shifted 2-bit fields cc, aa and bb into the base is adding them |
| AsmParserProperties.PackSet | src/assembler/parser.cpp:114 | SET's OR of fields is their sum for fields that fit |
| AsmParserProperties.ParseThreeRegisters | src/assembler/parser.cpp:93-102 | ADD..XOR with three registers emit `base + cc*16 + aa*4 + bb` and consume three operands |
| AsmParserProperties.ParseOneRegister | src/assembler/parser.cpp:103-130 | INC, DEC and JMP with a register emit `base + aa` |
| AsmParserProperties.ParseSet | src/assembler/parser.cpp:107-115 | SET emits `base + aa*64 + yy*16 + x` |
| AsmParserProperties.ParseOneImmediate | src/assembler/parser.cpp:116-191 | CLR, NOT, ETI and SELB with a fitting numeral emit `base + n` |
| AsmParserProperties.ParseThreeImmediates | src/assembler/parser.cpp:131-139 | BRE with three 2-bit numerals emits `base + cc*16 + aa*4 + bb` |
| AsmParserProperties.ParseTwoRegisters | src/assembler/parser.cpp:154-167 | LD and ST with two registers emit `base + aa*4 + bb` |
| AsmParserProperties.ParseNoOperands | src/assembler/parser.cpp:91-92 | NOP, EAI and HLT emit their fixed word and consume nothing more |
| AsmParserProperties.ParseStatement | src/assembler/parser.cpp:89-204 | a well-formed statement rendered at `i` parses to its encoding and consumes exactly its own tokens |
| AsmParserProperties.ListFromSteps | src/assembler/parser.cpp:89-206 | the loop follows a chain of statements to the end of the tokens, appending their words |
| AsmParserProperties.RenderedSteps | src/assembler/parser.cpp:89-206 | a rendered program is a chain of statements that emits the program's encoding |
| AsmParserProperties.AssembleRendered | src/assembler/parser.cpp:85-207 | every well-formed program, rendered as tokens at line 1, column 1, assembles to its encoding: one word per instruction, none per empty line |
| AsmParserProperties.StatementIgnoresPositions | src/assembler/parser.cpp:89-204 | a statement that parses gives the same result from any token list with the same kinds and texts |
| AsmParserProperties.OperandsIgnorePositions | src/assembler/parser.cpp:27-65 | `extract_register` and `extract_int` read only a token's kind and text |
| AsmParserProperties.ListIgnoresPositions | src/assembler/parser.cpp:85-207 | a token list that assembles gives the same words from any list with the same kinds and texts |
| AsmParserProperties.AssembleAnyPositions | src/assembler/parser.cpp:85-207 | every well-formed program assembles to its encoding from any token list with its tokens' kinds and texts, whatever their lines and columns |
| AsmParserRejections.MnemonicsDisjoint | src/assembler/parser.cpp:91-195 | no mnemonic is both encoded and not implemented |
| AsmParserRejections.NotImplementedForms | src/assembler/parser.cpp:140-193 | the comparison chain sends exactly the not-implemented mnemonics to `not_implemented` |
| AsmParserRejections.UnknownForms | src/assembler/parser.cpp:196-197 | exactly the names without a branch go to `unknown_instruction` |
| AsmParserRejections.RejectsNotImplemented | src/assembler/parser.cpp:140-193 | a known but unencoded mnemonic stops the parse with a not-implemented error |
| AsmParserRejections.RejectsUnknown | src/assembler/parser.cpp:196-197 | any other name stops the parse with an unknown-instruction error |
| AsmParserRejections.RejectsNonIdentifier | src/assembler/parser.cpp:201-202 | a statement starting with INTEGER or SECTION is an unexpected token |
| AsmParserRejections.AsWrittenDiffersAtBound | src/assembler/parser.cpp:41 | the written range test and the intended one differ exactly at 2^nbits, which the intended one refuses |
| AsmParserRejections.InclusiveBoundCollision | src/assembler/parser.cpp:41 | as written, `extract_int` takes a value of 16 for the 4-bit field, and OR-ing it in gives the word of `yy` = 1, `xxxx` = 0; the intended test refuses 16 |
| AsmParserRejections.SixteenReads | src/assembler/parser.cpp:39 | the numeral `016` reads as 16 |
| AsmParserRejections.SetSixteenAsWritten | src/assembler/parser.cpp:107-115 | as written, `SET W0 0 016` is accepted and encodes to 0x0810 |
| AsmParserRejections.SetOneZero | src/assembler/parser.cpp:107-115 | `SET W0 1 0` encodes to 0x0810 under either range test |
| AsmParserRejections.SetSixteenRefused | src/assembler/parser.cpp:41-44 | the corrected test refuses `SET W0 0 016` with a range error on the `016` |
| AsmParserRejections.SixteenProgramCollides | src/assembler/parser.cpp:85-207 | as written, the programs `SET W0 0 016` and `SET W0 1 0` assemble to the same list [0x0810] |
| AsmParserRejections.EnableTwoAsWritten | src/assembler/parser.cpp:41 | as written, `ETI 2` passes the 1-bit test and encodes to 0xC302, which starts timer 0 like `ETI 0` |
| AsmParserRejections.EnableTwoRefused | src/assembler/parser.cpp:41-44 | the corrected test refuses `ETI 2` with a range error |
| AsmParserRejections.StatementAgrees | src/assembler/parser.cpp:41 | wherever the corrected statement step succeeds, the step as written gives the same result |
| AsmParserRejections.ListAgrees | src/assembler/parser.cpp:85-207 | wherever the corrected loop assembles a token list, the loop as written gives the same words |
| AsmImage.Image | src/assembler/output_utils.h:8-19 | the image is one bank long |
| AsmImage.WrittenStep | src/assembler/output_utils.h:14-17 | writing the next entry sets its two bytes and no other |
| AsmImage.DumpInstructions | src/assembler/output_utils.h:8-19 | writes out exactly `Image` of the entries |
| AsmImage.ImageFetch | src/assembler/output_utils.h:13-18 | an entry whose next position is free is fetched back as its low 16 bits |
| AsmImage.ImageZero | src/assembler/output_utils.h:13 | an address no entry covers holds 0 |
| AsmImage.ImageOverlap | src/assembler/output_utils.h:14-17 | entries one byte apart overlap: the later high byte replaces the earlier low byte |
| AsmImage.Placed | src/assembler/output_utils.h:8-9 | words placed two bytes apart from 0, each at its own position |
| AsmImage.ImagePlaced | src/assembler/output_utils.h:8-19 | placed words come out one after another and the rest of the bank is 0, which is NOP |
| AsmImage.FirstFetch | src/micro16.cpp:3-15 | a CPU powered on with the image as bank 0 first fetches the entry at position 0 |
| Brainfuck.Extend | src/brainfuck/compiler.cpp:38-53 | one more character moves the depth, the count of `[`, the open-loop stack and the first unmatched `]` as the brackets say |
| Brainfuck.Label | src/brainfuck/compiler.cpp:8 | loop `n`'s label is `_` followed by the decimal numeral of `n` |
| Brainfuck.Plain | src/brainfuck/compiler.cpp:16-65 | the fixed lines of `+`, `-`, `<`, `>` and `.`; no lines for `,` and every other character |
| Brainfuck.Chunk | src/brainfuck/compiler.cpp:13-67 | the lines of the character at `k`: a `[` declares its loop's label, a `]` branches back to the innermost open label, others their fixed lines |
| Brainfuck.Compile | src/brainfuck/compiler.cpp:5-71 | the lines up to the first unmatched `]` and an error there; otherwise all the lines, and an error if a loop is still open |
| Brainfuck.UnclosedDepth | src/brainfuck/compiler.cpp:38-53 | with no unmatched `]` the stack holds exactly `Depth` labels |
| Brainfuck.FirstUnmatchedPrefix | src/brainfuck/compiler.cpp:44-47 | the first unmatched `]` of a prefix is that of the whole source |
| Brainfuck.OpenStep | src/brainfuck/compiler.cpp:38-43 | a `[` declares the next label and pushes it |
| Brainfuck.CloseStep | src/brainfuck/compiler.cpp:44-53 | a `]` inside a loop branches to the innermost label and pops it |
| Brainfuck.UnmatchedStep | src/brainfuck/compiler.cpp:44-47 | a `]` with an empty stack ends compilation with the lines so far and an error |
| Brainfuck.PlainStep | src/brainfuck/compiler.cpp:16-65 | other characters give their fixed lines and leave the stack |
| Brainfuck.CompileEnd | src/brainfuck/compiler.cpp:68-70 | at the end, an error exactly when the stack is not empty |
| Brainfuck.DumpAsmRepr | src/brainfuck/compiler.cpp:5-71 | returns exactly `Compile` of the source |
| BrainfuckProperties.FirstUnmatchedNeverBelow | src/brainfuck/compiler.cpp:44-47 | there is no unmatched `]` exactly when no prefix closes more loops than it opens |
| BrainfuckProperties.CompileStatus | src/brainfuck/compiler.cpp:44-70 | completes exactly on balanced sources; stops at a `]` exactly when a prefix goes below zero; reports an open loop exactly otherwise with depth above zero |
| BrainfuckProperties.OpensGrow | src/brainfuck/compiler.cpp:7-8 | the label counter never goes down |
| BrainfuckProperties.DeclarationInjective | src/brainfuck/compiler.cpp:41 | two declarations are the same line only for the same loop number |
| BrainfuckProperties.LabelsDistinct | src/brainfuck/compiler.cpp:38-43 | two different `[`s declare different labels |
| BrainfuckProperties.UnclosedNumbered | src/brainfuck/compiler.cpp:38-53 | the open loops are numbered among those opened so far |
| BrainfuckProperties.DeclaredSoFar | src/brainfuck/compiler.cpp:38-43 | every loop opened so far has had its label declared |
| BrainfuckProperties.JumpsDeclared | src/brainfuck/compiler.cpp:44-53 | a `]` branches to the innermost open label, which was declared before it |
| BrainfuckProperties.ChunksPrefix | src/brainfuck/compiler.cpp:13-67 | the lines of the first `j` characters depend on them alone |
| BrainfuckProperties.LinesBeforeError | src/brainfuck/compiler.cpp:44-47 | on an unmatched `]` the lines written are those the source before it compiles to |
| BrainfuckProperties.NoBrackets | src/brainfuck/compiler.cpp:16-65 | a source without brackets compiles character by character and completes |
| BrainfuckProperties.CompileClearLoop | src/brainfuck/compiler.cpp:16-53 | `+[-]` compiles to `INC W3`, `.label _1`, `DEC W3`, `SETREG W1 _1`, `BRNZ W1 W3` |

## Findings

| source | as written | input that shows it | evidently intended | confidence | as-written member | corrected member |
|---|---|---|---|---|---|---|
| src/assembler/parser.cpp:41 | `value > std::pow(2, nbits)` accepts 2^nbits, one more than an `nbits`-bit field holds | `SET W0 0 016` (the lexer reads `016` as one numeral, worth 16): 16 passes the 4-bit test and spills into the `yy` field, so it encodes to 0x0810, the same word as `SET W0 1 0`; `ETI 2` passes the 1-bit test and encodes to 0xC302, which starts timer 0 like `ETI 0` | refuse every value of 2^nbits or more (`value >= pow(2, nbits)`), as the error message's "`nbits` value" says | not executed | AsmParser.ExtractIntAsWritten, AsmParserRejections.SixteenProgramCollides | AsmParser.ExtractInt |

The parser model takes the range test as a parameter. Under `Inclusive` it is the code as written, and `SetSixteenAsWritten`, `SixteenProgramCollides` and `EnableTwoAsWritten` show the collision. Under `Exclusive` it uses `ExtractInt`, and `SetSixteenRefused` and `EnableTwoRefused` show the refusals. `ListAgrees` shows that the corrected parser only refuses more: whatever it assembles, the parser as written assembles to the same words. The statement and whole-program properties in `AsmParserProperties` are proved for both.

The lexer is modelled as written. `Lexer::number` (src/assembler/lexer.cpp:89-110) takes further digits only after a leading `0`, and it never consumes the `x` or `b` of a prefix. So `16` lexes as two numerals (`DecimalSplits`), `0x1F` lexes as `0` followed by the identifier `x1F` (`HexPrefixSplits`), and `007` is one numeral (`LeadingZeroRuns`). A multi-digit value therefore reaches the parser only when written with a leading `0`. The parser's prefix handling (`ReadNumber`) is modelled too, but no token from this lexer carries a prefix.

## Left out

- The timer threads, `timer_mutex` and the sleeps are not modelled. Each timer's critical section is one atomic step (`Cpu.Micro16.TimerTick`). `timer_mutex` is held only inside `check_interrupts` (src/micro16.cpp:35), so the interleavings the source allows are sequences of `CheckInterrupts`, `InstructionFetch`, `RunInstruction` and `TimerTick` calls in which the CPU's three calls keep their order; a tick may fall between any two of them. `Step` and `Cycle` are one loop turn with no tick inside it, a subset of those interleavings. `MachineProperties.TickBeforeDai` shows a state that only a tick inside a turn reaches.
- The writes `run_instruction` makes without the lock are not modelled as races: DAI, EAI, DTI, ETI and RETI write CR and HLT writes `running` (src/micro16.cpp:136-193), while a timer reads both under the lock only (src/micro16.cpp:226-236). Each call is one atomic step, so torn or reordered reads of CR and `running` are not captured.
- `run` is modelled one loop turn at a time (`Step`) plus the final `DisconnectAll`; the unbounded loop itself is left to the caller.
- Adapter behaviour is not modelled. The adapters' `connect_to_memory` and `disconnect` effects, and the raw pointer into bank 1 that `register_mmio` hands over (aliasing), belong to the SDL screen and other adapters, which are not part of this model. `DisconnectAll` returns the adapters in the order it disconnects them.
- `Cpu.Micro16.constructor`: banks 1 to 3 are uninitialised in the source. The model zeroes them but states nothing about them.
- Out-of-bounds memory accesses are undefined behaviour in the source, and the model makes them preconditions. This covers the fetch at IP+1, LD/ST at `W[aa]+1`, RET/RETI at `SP+1`, and interrupt entry's push at `SP+3`.
- Out-of-bounds accesses in the image writer are preconditions too. `AsmImage.DumpInstructions` requires every entry to fit below 0xFFFF, because an entry at 0xFFFF writes one past the array.
- The opcode branches marked TODO (SUB, AND, OR, XOR, BRE, BRNE, BRL, BRH, CALL, PUSH, POP) only advance IP in the model, as they do in the source.
- The branch on `MV_CODE` (src/micro16.cpp:173) is not modelled. Neither src/micro16.hpp, which src/micro16.cpp includes, nor src/isa.h defines `MV_CODE`; both define `CPY_CODE` 0x43. So src/micro16.cpp does not compile as given. The branch's body is only a TODO, so whatever opcode the constant stands for, the instruction only advances IP, as `MachineProperties.UnimplementedOnlyAdvances` states for every opcode without an effect.
- BRK and SELB have no branch in the CPU and only advance IP.
- Breakpoints, the SDL screen, `main`, `reader` and the pixel-art tool are not part of this model.
- The top-level micro16.cpp, an older revision of the CPU, is not part of this model.
- Error messages are not modelled. Errors are datatype values that carry the token or byte and line the source puts in the exception; the message text is not kept.
- `std::stoi` is modelled in `Numerals.Stoi` for the inputs the lexer can produce: sign, white space and base prefix handling as `strtol` does, and the two exceptions. Locale effects are not modelled.
- Dereferencing the token iterator past the end is undefined behaviour in the source. The parser model treats it as an error (`MissingOperand`).
- src/assembler/parser.hpp declares `generate_instruction_list` as returning a `std::map<Position, Instruction>`, but parser.cpp returns a `std::vector`. The parser is modelled on the .cpp's list. `dump_instructions` is modelled on the map, and `AsmImage.ImagePlaced` connects a list laid out two bytes apart to the image. The source connects the two nowhere.
- Instruction words are `unsigned int` (32 bits) as in src/micro16.hpp, not the 16-bit type of src/specs.h.
- MachineProperties.FourSetsLoadConstant: promises the constant only in the register's low 16 bits, and bits 31..16 keep what they held. Registers are `unsigned int` (src/micro16.hpp:12), and SET rewrites one of the four low nibbles. The exact load, "the register holds the constant", is `MachineProperties.ClearedLoadConstant`, after a CLR.
- RegisterProperties.SetNibbleChain: the same low-half promise, on the register value alone. src/specs.h:6 declares a 16-bit register type, under which four SETs would load the constant exactly. The model follows the type the CPU uses.
- MachineProperties.NotComplementsAllBits: with 32-bit registers, NOT of 0x000a gives 0xFFFF_FFF5. src/tests/test_instructions.cpp:118 expects 0xfff5 there, the 16-bit result. The model follows the code, so it does not give the value that test expects.
- The Brainfuck compiler's last read, past the end of the stream, yields `(char)EOF`, which falls into the ignored default case. The model therefore reads exactly the source's bytes.
- Lexing an `0xFF` byte is the same as reaching end-of-file, because `char` is signed. The model treats both the same and does not model an unsigned `char` platform.
- `section()` and `comment()` are declared in the lexer's header but never defined, so they are not modelled.
- File I/O is not modelled: `tokens_from_file` takes the file's contents as a parameter, and a file that cannot be opened is not modelled.
