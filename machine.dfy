/** The Micro16 machine state as a value, and the state transitions of the CPU:
    one instruction (`Execute`), interrupt entry (`InterruptEntry`) and the
    guarded update a timer makes under the timer lock (`TimerTick`).
    The class in module Cpu is proved to perform exactly these transitions. */
module Machine {
  import opened Isa

  /** Everything the CPU owns: the running flag, the three special registers, the four
      general registers, the four memory banks and the pending-interrupt pair. */
  datatype State = State(
    running: bool,
    ip: U32,
    cr: U32,
    sp: U32,
    w: Registers,
    mem: Banks,
    timerTriggered: bool,
    triggeredTimerId: int)

  /** The four general registers W0..W3. */
  type Registers = w: seq<U32> | |w| == 4 witness [0, 0, 0, 0]

  /** One 64 KiB memory bank, and the four banks. */
  type Bank = b: seq<Byte> | |b| == BANK_SIZE witness ZeroBank()
  type Banks = m: seq<Bank> | |m| == N_BANKS witness var z: Bank := ZeroBank(); [z, z, z, z]

  function ZeroBank(): (b: seq<Byte>)
    ensures |b| == BANK_SIZE
  {
    seq(BANK_SIZE, _ => 0)
  }

  /** The state the constructor leaves: running, IP 0, CR 0x9000 (stack and data in bank 1,
      interrupts disabled), SP 0x8000, W cleared, nothing pending, `code` as bank 0. */
  predicate PoweredOn(s: State, code: seq<Byte>) {
    && s.running && s.ip == 0x0000 && s.cr == 0x9000 && s.sp == 0x8000
    && s.w == [0x0000, 0x0000, 0x0000, 0x0000]
    && s.mem[CODE_BANK] == code
    && !s.timerTriggered && s.triggeredTimerId == -1
  }

  /** The pending pair is either "nothing pending, id -1" or "pending for timer 0 or 1". */
  predicate PendingPair(s: State) {
    if s.timerTriggered then 0 <= s.triggeredTimerId <= 1 else s.triggeredTimerId == -1
  }

  /** `(CR & 0x3000) >> 12`: the data/stack bank selected by bits 13..12 of CR. */
  function SelectedBank(cr: U32): (b: int)
    ensures 0 <= b < N_BANKS
  {
    cr / 0x1000 % 4
  }

  /** Unsigned 32-bit arithmetic wraps modulo 2^32. */
  function Wrap(x: int): U32 {
    x % 0x1_0000_0000
  }

  /** `~v` on an `unsigned int`. */
  function Complement(v: U32): U32 {
    0xFFFF_FFFF - v
  }

  /** Bit 3 of CR enables interrupts globally. */
  predicate InterruptsEnabled(cr: U32) {
    cr / 8 % 2 == 1
  }

  /** `CR & ~0x0008` and `CR | 0x0008`. */
  function InterruptsOff(cr: U32): U32 {
    if InterruptsEnabled(cr) then cr - 8 else cr
  }

  function InterruptsOn(cr: U32): U32 {
    if InterruptsEnabled(cr) then cr else cr + 8
  }

  /** `0x0100 << a` for the timer number `a`: the enable bit of timer `a` is bit 8 + a of CR. */
  function TimerBit(a: int): int
    requires 0 <= a <= 1
  {
    if a == 0 then 0x100 else 0x200
  }

  predicate TimerEnabled(cr: U32, a: int)
    requires 0 <= a <= 1
  {
    if a == 0 then cr / 0x100 % 2 == 1 else cr / 0x200 % 2 == 1
  }

  /** `CR & ~(0x0100 << a)` and `CR | (0x0100 << a)`. */
  function TimerOff(cr: U32, a: int): U32
    requires 0 <= a <= 1
  {
    if TimerEnabled(cr, a) then cr - TimerBit(a) else cr
  }

  function TimerOn(cr: U32, a: int): U32
    requires 0 <= a <= 1
  {
    if TimerEnabled(cr, a) then cr else cr + TimerBit(a)
  }

  /** Nibble `k` (0 = least significant) of a register: `(v >> (4 * k)) & 0xF`. */
  function Nibble(v: U32, k: int): (n: int)
    requires 0 <= k < 4
    ensures 0 <= n < 0x10
  {
    if k == 0 then v % 0x10
    else if k == 1 then v / 0x10 % 0x10
    else if k == 2 then v / 0x100 % 0x10
    else v / 0x1000 % 0x10
  }

  /** The register with bits 31..16 equal to `hi` and nibbles 3..0 equal to `n3`..`n0`. */
  function FromNibbles(hi: int, n3: int, n2: int, n1: int, n0: int): (v: int)
    requires 0 <= hi < 0x10000
    requires 0 <= n3 < 0x10 && 0 <= n2 < 0x10 && 0 <= n1 < 0x10 && 0 <= n0 < 0x10
    ensures 0 <= v < 0x1_0000_0000
  {
    hi * 0x10000 + n3 * 0x1000 + n2 * 0x100 + n1 * 0x10 + n0
  }

  /** What SET does to a register: `v & ~(0x000F << (4 * yy))` clears nibble `yy` and OR-ing
      `x << (4 * yy)` puts `x` there, so bits 31..16 and the other three nibbles stay. */
  function SetNibble(v: U32, yy: int, x: int): U32
    requires 0 <= yy < 4 && 0 <= x < 0x10
  {
    FromNibbles(v / 0x10000,
      if yy == 3 then x else Nibble(v, 3), if yy == 2 then x else Nibble(v, 2),
      if yy == 1 then x else Nibble(v, 1), if yy == 0 then x else Nibble(v, 0))
  }

  /** The big-endian word at `a` in one bank: `(bank[a] << 8) + bank[a + 1]`. */
  function ReadWord(bank: Bank, a: int): U32
    requires 0 <= a && a + 1 < BANK_SIZE
  {
    Word(bank[a], bank[a + 1])
  }

  /** The bank after storing the low 16 bits of `v` big-endian at `a`: high byte at `a`,
      low byte at `a + 1`. Reading the word back gives those 16 bits and nothing else moves. */
  function WriteWord(bank: Bank, a: int, v: U32): (r: Bank)
    requires 0 <= a && a + 1 < BANK_SIZE
    ensures r[a] == HighByte(v) && r[a + 1] == LowByte(v)
    ensures ReadWord(r, a) == v % 0x10000
    ensures forall k :: 0 <= k < BANK_SIZE && k != a && k != a + 1 ==> r[k] == bank[k]
  {
    WordBytes(v, 0, 0);
    bank[a := HighByte(v)][a + 1 := LowByte(v)]
  }

  /** `instruction_fetch`: the big-endian word at IP in the code bank. */
  function Fetch(s: State): U32
    requires s.ip + 1 < BANK_SIZE
  {
    ReadWord(s.mem[CODE_BANK], s.ip)
  }

  /** The end of `run_instruction`: IP moves on by two unless the instruction loaded it
      (`IP += 2` on the 32-bit register), and an IP at or past the end of the code bank
      becomes 0, whether it got there by stepping or by a jump. */
  function FinalIp(ip: U32, ipChanged: bool): U32 {
    var moved := if ipChanged then ip else Wrap(ip as int + 2);
    if moved >= BANK_SIZE then 0 else moved
  }

  /** The memory reads and writes of the instruction stay inside their bank:
      LD and ST touch `W[aa]` and `W[aa]+1`, RET and RETI touch `SP` and `SP+1`. */
  predicate InBounds(s: State, op: Byte, data: Byte)
  {
    if op == LD_CODE || op == ST_CODE then s.w[Bits32(data)] + 1 < BANK_SIZE
    else if op == RET_CODE || op == RETI_CODE then s.sp + 1 < BANK_SIZE
    else true
  }

  /** The instructions that load IP themselves instead of letting it advance. */
  predicate Retargets(s: State, op: Byte, data: Byte)
  {
    || op == JMP_CODE || op == RET_CODE || op == RETI_CODE
    || (op == BRNZ_CODE && s.w[Bits10(data)] != 0)
  }

  /** The opcodes the CPU gives an effect to. Every other opcode, including SUB, AND, OR, XOR,
      the conditional branches BRE..BRH, CALL, CPY, PUSH, POP, PEEK, SELB and BRK, only advances IP. */
  predicate Implemented(op: Byte) {
    op in {ADD_CODE, INC_CODE, DEC_CODE, SET_CODE, CLR_CODE, NOT_CODE, JMP_CODE, BRNZ_CODE,
           RET_CODE, RETI_CODE, LD_CODE, ST_CODE, DAI_CODE, EAI_CODE, DTI_CODE, ETI_CODE, HLT_CODE}
  }

  /** The effect of the opcode's branch in `run_instruction`, and whether it retargeted IP. */
  datatype Effect = Effect(next: State, ipChanged: bool)

  /** The branch of `run_instruction` taken for opcode `op`, with operand byte `data`.
      The chain of opcode tests is split by instruction group. */
  function Apply(s: State, op: Byte, data: Byte): (e: Effect)
    requires InBounds(s, op, data)
  {
    if op == NOP_CODE then Effect(s, false)
    else if op in {ADD_CODE, INC_CODE, DEC_CODE, SET_CODE, CLR_CODE, NOT_CODE} then ApplyArithmetic(s, op, data)
    else if op in {JMP_CODE, BRNZ_CODE, RET_CODE, RETI_CODE} then ApplyBranch(s, op, data)
    else if op in {LD_CODE, ST_CODE} then ApplyMemory(s, op, data)
    else if op in {DAI_CODE, EAI_CODE, DTI_CODE, ETI_CODE, HLT_CODE} then ApplyControl(s, op, data)
    else Effect(s, false)
  }

  function ApplyArithmetic(s: State, op: Byte, data: Byte): (e: Effect)
  {
    if op == ADD_CODE then
      var aa, bb, cc := Bits32(data), Bits10(data), Bits54(data);
      Effect(s.(w := s.w[cc := Wrap(s.w[aa] as int + s.w[bb])]), false)
    else if op == INC_CODE then
      var aa := Bits10(data);
      Effect(s.(w := s.w[aa := Wrap(s.w[aa] as int + 1)]), false)
    else if op == DEC_CODE then
      var aa := Bits10(data);
      Effect(s.(w := s.w[aa := Wrap(s.w[aa] as int - 1)]), false)
    else if op == SET_CODE then
      var aa, yy, x := Bits76(data), Bits54(data), Bits3210(data);
      Effect(s.(w := s.w[aa := SetNibble(s.w[aa], yy, x)]), false)
    else if op == CLR_CODE then
      var aa := Bits10(data);
      Effect(s.(w := s.w[aa := 0]), false)
    else if op == NOT_CODE then
      var aa := Bits10(data);
      Effect(s.(w := s.w[aa := Complement(s.w[aa])]), false)
    else Effect(s, false)
  }

  function ApplyBranch(s: State, op: Byte, data: Byte): (e: Effect)
    requires InBounds(s, op, data)
  {
    if op == JMP_CODE then
      Effect(s.(ip := s.w[Bits10(data)]), true)
    else if op == BRNZ_CODE then
      var aa, cc := Bits10(data), Bits32(data);
      if s.w[aa] != 0 then Effect(s.(ip := s.w[cc]), true) else Effect(s, false)
    else if op == RET_CODE || op == RETI_CODE then
      var popped := s.(ip := ReadWord(s.mem[SelectedBank(s.cr)], s.sp), sp := Wrap(s.sp as int - 2));
      Effect(if op == RETI_CODE then popped.(cr := InterruptsOn(s.cr)) else popped, true)
    else Effect(s, false)
  }

  function ApplyMemory(s: State, op: Byte, data: Byte): (e: Effect)
    requires InBounds(s, op, data)
  {
    if op == LD_CODE then
      var bank, aa, bb := SelectedBank(s.cr), Bits32(data), Bits10(data);
      Effect(s.(w := s.w[bb := ReadWord(s.mem[bank], s.w[aa])]), false)
    else if op == ST_CODE then
      var bank, aa, bb := SelectedBank(s.cr), Bits32(data), Bits10(data);
      Effect(s.(mem := s.mem[bank := WriteWord(s.mem[bank], s.w[aa], s.w[bb])]), false)
    else Effect(s, false)
  }

  function ApplyControl(s: State, op: Byte, data: Byte): (e: Effect)
  {
    if op == DAI_CODE then Effect(s.(cr := InterruptsOff(s.cr)), false)
    else if op == EAI_CODE then Effect(s.(cr := InterruptsOn(s.cr)), false)
    else if op == DTI_CODE then Effect(s.(cr := TimerOff(s.cr, Bit0(data))), false)
    else if op == ETI_CODE then Effect(s.(cr := TimerOn(s.cr, Bit0(data))), false)
    else if op == HLT_CODE then Effect(s.(running := false), false)
    else Effect(s, false)
  }

  /** One call of `run_instruction`: the opcode's effect, then the IP update of FinalIp. */
  function Execute(s: State, instruction: U32): (r: State)
    requires InBounds(s, Opcode(instruction), Operand(instruction))
  {
    var e := Apply(s, Opcode(instruction), Operand(instruction));
    e.next.(ip := FinalIp(e.next.ip, e.ipChanged))
  }

  /** Interrupt entry moves SP up one word; the pushed word must lie inside the bank. */
  predicate EntryInBounds(s: State) {
    s.timerTriggered ==> Wrap(s.sp as int + 2) + 1 < BANK_SIZE
  }

  /** `check_interrupts`: when an interrupt is pending, disable interrupts (CR bit 3), push IP
      big-endian at SP+2 in the bank selected by the new CR, jump through the vector of the
      triggering timer in bank 1 (read after the push), and clear the pending pair.
      Otherwise nothing changes. */
  function InterruptEntry(s: State): (r: State)
    requires PendingPair(s) && EntryInBounds(s)
    ensures PendingPair(r) && !r.timerTriggered
    ensures !s.timerTriggered ==> r == s
  {
    if !s.timerTriggered then s
    else
      var cr := InterruptsOff(s.cr);
      var bank := SelectedBank(cr);
      var sp := Wrap(s.sp as int + 2);
      var mem := s.mem[bank := WriteWord(s.mem[bank], sp, s.ip)];
      var vector := IT_ADDR + 4 * s.triggeredTimerId;
      s.(cr := cr, sp := sp, mem := mem, ip := ReadWord(mem[IT_BANK], vector),
         timerTriggered := false, triggeredTimerId := -1)
  }

  /** The critical section of timer `id`: it raises an interrupt only when none is pending,
      interrupts are globally enabled (CR bit 3) and the timer is enabled (CR bit 8 + id). */
  predicate TimerMayFire(s: State, id: int)
    requires 0 <= id <= 1
  {
    !s.timerTriggered && InterruptsEnabled(s.cr) && TimerEnabled(s.cr, id)
  }

  function TimerTick(s: State, id: int): (r: State)
    requires 0 <= id <= 1
    ensures PendingPair(s) ==> PendingPair(r)
    ensures r.timerTriggered <==> s.timerTriggered || TimerMayFire(s, id)
    ensures r.timerTriggered && !s.timerTriggered ==> r.triggeredTimerId == id
    ensures s.timerTriggered ==> r == s
    ensures r == s.(timerTriggered := r.timerTriggered, triggeredTimerId := r.triggeredTimerId)
  {
    if TimerMayFire(s, id) then s.(timerTriggered := true, triggeredTimerId := id) else s
  }

  /** One iteration of the loop in `run` stays inside memory: the interrupt push, the fetch
      at IP and the instruction's own accesses. */
  predicate CycleInBounds(s: State) {
    && PendingPair(s) && EntryInBounds(s)
    && var e := InterruptEntry(s);
       e.ip + 1 < BANK_SIZE && InBounds(e, Opcode(Fetch(e)), Operand(Fetch(e)))
  }

  /** One iteration of the loop in `run`: take a pending interrupt, fetch at IP, execute. */
  function Cycle(s: State): (r: State)
    requires CycleInBounds(s)
    ensures PendingPair(r) && !r.timerTriggered
    ensures r.ip < BANK_SIZE
  {
    var e := InterruptEntry(s);
    ExecuteKeepsPendingPair(e, Fetch(e));
    Execute(e, Fetch(e))
  }

  /** No instruction touches the pending-interrupt pair; only timers and interrupt entry do. */
  lemma ExecuteKeepsPendingPair(s: State, instruction: U32)
    requires InBounds(s, Opcode(instruction), Operand(instruction))
    ensures Execute(s, instruction).timerTriggered == s.timerTriggered
    ensures Execute(s, instruction).triggeredTimerId == s.triggeredTimerId
  {
    var op, data := Opcode(instruction), Operand(instruction);
    var e := Apply(s, op, data);
    if op in {ADD_CODE, INC_CODE, DEC_CODE, SET_CODE, CLR_CODE, NOT_CODE} {
      assert e == ApplyArithmetic(s, op, data);
    } else if op in {JMP_CODE, BRNZ_CODE, RET_CODE, RETI_CODE} {
      assert e == ApplyBranch(s, op, data);
    } else if op in {LD_CODE, ST_CODE} {
      assert e == ApplyMemory(s, op, data);
    } else {
      assert e.next == s || e == ApplyControl(s, op, data);
    }
  }
}
