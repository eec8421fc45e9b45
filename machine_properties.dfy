/** Properties of the Micro16 state transitions: what each implemented instruction does to
    the whole state, where IP goes next, and how interrupt entry, RETI and the timers
    interact, stated over all machine states. */
module MachineProperties {
  import opened Isa
  import opened Machine
  import opened RegisterProperties

  // ---- Fetch and IP ----

  /** The fetched word has the byte at IP as its opcode and the byte after it as its operand. */
  lemma FetchBytes(s: State)
    requires s.ip + 1 < BANK_SIZE
    ensures Opcode(Fetch(s)) == s.mem[CODE_BANK][s.ip]
    ensures Operand(Fetch(s)) == s.mem[CODE_BANK][s.ip + 1]
  {
    var hi, lo := s.mem[CODE_BANK][s.ip], s.mem[CODE_BANK][s.ip + 1];
    assert Fetch(s) == hi as int * 0x100 + lo;
    DivModUnique(Fetch(s), 0x100, hi as int, lo as int);
  }

  /** After every run_instruction IP lies inside the code bank; without a retarget it has
      moved on by exactly 2, and reaching or passing the end of the bank sends it to 0
      (or to 1 from 0xFFFFFFFF, where the 32-bit addition itself wraps). */
  lemma FinalIpSteps(ip: U32, ipChanged: bool)
    ensures FinalIp(ip, ipChanged) < BANK_SIZE
    ensures ipChanged ==> FinalIp(ip, ipChanged) == if ip < BANK_SIZE then ip else 0
    ensures !ipChanged && ip + 2 < BANK_SIZE ==> FinalIp(ip, ipChanged) == ip + 2
    ensures !ipChanged && BANK_SIZE <= ip + 2 < 0x1_0000_0001 ==> FinalIp(ip, ipChanged) == 0
    ensures !ipChanged && ip == 0xFFFF_FFFF ==> FinalIp(ip, ipChanged) == 1
  {
  }

  /** The branch of an instruction that does not retarget IP leaves IP where it was. */
  lemma NonRetargetingKeepsIp(s: State, op: Byte, data: Byte)
    requires InBounds(s, op, data)
    requires !Retargets(s, op, data)
    ensures !Apply(s, op, data).ipChanged && Apply(s, op, data).next.ip == s.ip
  {
    var e := Apply(s, op, data);
    if op in {ADD_CODE, INC_CODE, DEC_CODE, SET_CODE, CLR_CODE, NOT_CODE} {
      assert e == ApplyArithmetic(s, op, data);
    } else if op in {JMP_CODE, BRNZ_CODE, RET_CODE, RETI_CODE} {
      assert e == ApplyBranch(s, op, data);
    } else if op in {LD_CODE, ST_CODE} {
      assert e == ApplyMemory(s, op, data);
    } else {
      assert e.next == s || e == ApplyControl(s, op, data);
    }
  }

  /** Every instruction that does not retarget IP (including HLT and each opcode the CPU
      leaves unimplemented) moves IP on by 2 inside the code bank, and to 0 at its end. */
  lemma {:induction false} IpAdvancesByTwo(s: State, instruction: U32)
    requires InBounds(s, Opcode(instruction), Operand(instruction))
    requires !Retargets(s, Opcode(instruction), Operand(instruction))
    requires s.ip + 1 < BANK_SIZE
    ensures var r := Execute(s, instruction);
      && (s.ip + 2 < BANK_SIZE ==> r.ip == s.ip + 2)
      && (s.ip + 2 >= BANK_SIZE ==> r.ip == 0)
  {
    NonRetargetingKeepsIp(s, Opcode(instruction), Operand(instruction));
    FinalIpSteps(s.ip, false);
  }

  /** An opcode the CPU does not implement (SUB, AND, OR, XOR, BRE..BRH, CALL, CPY, PUSH, POP,
      PEEK, SELB, BRK and every unassigned byte) changes nothing but IP. */
  lemma UnimplementedOnlyAdvances(s: State, instruction: U32)
    requires !Implemented(Opcode(instruction))
    ensures Execute(s, instruction) == s.(ip := FinalIp(s.ip, false))
  {
  }

  /** JMP and a taken BRNZ load IP from a register, RET and RETI from the stack; a target at
      or past the end of the code bank becomes 0. */
  lemma RetargetedIp(s: State, instruction: U32)
    requires InBounds(s, Opcode(instruction), Operand(instruction))
    requires Retargets(s, Opcode(instruction), Operand(instruction))
    ensures var op, data, r := Opcode(instruction), Operand(instruction), Execute(s, instruction);
      && (op == JMP_CODE ==> r.ip == if s.w[Bits10(data)] < BANK_SIZE then s.w[Bits10(data)] else 0)
      && (op == BRNZ_CODE ==> r.ip == if s.w[Bits32(data)] < BANK_SIZE then s.w[Bits32(data)] else 0)
      && (op == RET_CODE || op == RETI_CODE ==>
            r.ip == ReadWord(s.mem[SelectedBank(s.cr)], s.sp) && r.sp == Wrap(s.sp as int - 2))
  {
  }

  // ---- Registers ----

  /** SET W[aa], yy, x: nibble yy of W[aa] becomes x and the rest of W[aa], the other
      registers, memory, CR, SP and the pending pair are unchanged. */
  lemma {:induction false} SetWritesNibble(s: State, instruction: U32)
    requires Opcode(instruction) == SET_CODE
    ensures var data := Operand(instruction);
      var aa, yy, x := Bits76(data), Bits54(data), Bits3210(data);
      var r := Execute(s, instruction);
      && r.w[aa] == SetNibble(s.w[aa], yy, x)
      && (forall k :: 0 <= k < 4 ==> Nibble(r.w[aa], k) == if k == yy then x else Nibble(s.w[aa], k))
      && (forall i :: 0 <= i < 4 && i != aa ==> r.w[i] == s.w[i])
      && r == s.(w := r.w, ip := FinalIp(s.ip, false))
  {
    var data := Operand(instruction);
    var aa, yy, x := Bits76(data), Bits54(data), Bits3210(data);
    assert Execute(s, instruction) == ApplyArithmetic(s, SET_CODE, data).next.(ip := FinalIp(s.ip, false));
    forall k | 0 <= k < 4
      ensures Nibble(SetNibble(s.w[aa], yy, x), k) == if k == yy then x else Nibble(s.w[aa], k)
    {
      SetNibbleAt(s.w[aa], yy, x, k);
    }
  }

  /** The operand byte of a SET that writes nibble `x` at position `yy` of register `aa`. */
  predicate IsSet(instruction: U32, aa: RegIndex, yy: int, x: int) {
    && Opcode(instruction) == SET_CODE
    && Bits76(Operand(instruction)) == aa
    && Bits54(Operand(instruction)) == yy
    && Bits3210(Operand(instruction)) == x
  }

  /** A SET on register `aa` leaves `aa` holding its old value with nibble `yy` set to `x`. */
  lemma SetWritesRegister(s: State, instruction: U32, aa: RegIndex, yy: int, x: int)
    requires IsSet(instruction, aa, yy, x)
    ensures Execute(s, instruction).w[aa] == SetNibble(s.w[aa], yy, x)
  {
    SetWritesNibble(s, instruction);
  }

  /** Four SETs on one register compose their nibble writes in order. */
  lemma {:induction false} FourSets(s: State, aa: RegIndex, c: U32, i3: U32, i2: U32, i1: U32, i0: U32)
    requires IsSet(i3, aa, 3, Nibble(c, 3)) && IsSet(i2, aa, 2, Nibble(c, 2))
    requires IsSet(i1, aa, 1, Nibble(c, 1)) && IsSet(i0, aa, 0, Nibble(c, 0))
    ensures Execute(Execute(Execute(Execute(s, i3), i2), i1), i0).w[aa] ==
      SetNibble(SetNibble(SetNibble(SetNibble(s.w[aa], 3, Nibble(c, 3)), 2, Nibble(c, 2)), 1, Nibble(c, 1)), 0, Nibble(c, 0))
  {
    var s3 := Execute(s, i3);
    SetWritesRegister(s, i3, aa, 3, Nibble(c, 3));
    var s2 := Execute(s3, i2);
    SetWritesRegister(s3, i2, aa, 2, Nibble(c, 2));
    var s1 := Execute(s2, i1);
    SetWritesRegister(s2, i1, aa, 1, Nibble(c, 1));
    SetWritesRegister(s1, i0, aa, 0, Nibble(c, 0));
  }

  /** Four SETs on one register with yy = 3, 2, 1, 0 carrying the nibbles of a 16-bit
      constant `c`, most significant first, leave `c` in the register's low half; its high
      half keeps what it held. */
  lemma {:induction false} FourSetsLoadConstant(s: State, aa: RegIndex, c: U32, i3: U32, i2: U32, i1: U32, i0: U32)
    requires c < 0x10000
    requires IsSet(i3, aa, 3, Nibble(c, 3)) && IsSet(i2, aa, 2, Nibble(c, 2))
    requires IsSet(i1, aa, 1, Nibble(c, 1)) && IsSet(i0, aa, 0, Nibble(c, 0))
    ensures Execute(Execute(Execute(Execute(s, i3), i2), i1), i0).w[aa] == s.w[aa] / 0x10000 * 0x10000 + c
  {
    FourSets(s, aa, c, i3, i2, i1, i0);
    SetNibbleChain(s.w[aa], c);
  }

  /** After CLR the four SETs leave the register holding exactly `c`. */
  lemma ClearedLoadConstant(s: State, aa: RegIndex, c: U32, i3: U32, i2: U32, i1: U32, i0: U32)
    requires c < 0x10000 && s.w[aa] == 0
    requires IsSet(i3, aa, 3, Nibble(c, 3)) && IsSet(i2, aa, 2, Nibble(c, 2))
    requires IsSet(i1, aa, 1, Nibble(c, 1)) && IsSet(i0, aa, 0, Nibble(c, 0))
    ensures Execute(Execute(Execute(Execute(s, i3), i2), i1), i0).w[aa] == c
  {
    FourSetsLoadConstant(s, aa, c, i3, i2, i1, i0);
  }

  /** INC then DEC on the same register gives the state back apart from IP, and so does
      NOT twice: each undoes the other, across the 32-bit wrap-around too. */
  lemma {:induction false} IncThenDec(s: State, inc: U32, dec: U32)
    requires Opcode(inc) == INC_CODE && Opcode(dec) == DEC_CODE
    requires Bits10(Operand(inc)) == Bits10(Operand(dec))
    ensures Execute(Execute(s, inc), dec).w == s.w
  {
    var aa := Bits10(Operand(inc));
    WrapInverses(s.w[aa]);
    assert Execute(Execute(s, inc), dec).w[aa] == s.w[aa];
  }

  lemma {:induction false} NotTwice(s: State, not: U32)
    requires Opcode(not) == NOT_CODE
    ensures Execute(Execute(s, not), not).w == s.w
  {
    var aa := Bits10(Operand(not));
    WrapInverses(s.w[aa]);
    assert Execute(Execute(s, not), not).w[aa] == s.w[aa];
  }

  /** NOT complements all 32 bits of its register: from 0x000a it leaves 0xFFFF_FFF5, not
      the 16-bit complement 0xfff5. */
  lemma NotComplementsAllBits(s: State, not: U32)
    requires Opcode(not) == NOT_CODE && s.w[Bits10(Operand(not))] == 0x000a
    ensures Execute(s, not).w[Bits10(Operand(not))] == 0xFFFF_FFF5
    ensures Execute(s, not).w[Bits10(Operand(not))] % 0x10000 == 0xFFF5
  {
  }

  // ---- Memory ----

  /** ST W[aa], W[bb] writes bits 15..8 of W[bb] at address W[aa] and bits 7..0 at W[aa]+1 in
      the bank selected by CR; no other byte and no register except IP changes. */
  lemma StoreWritesWord(s: State, instruction: U32)
    requires Opcode(instruction) == ST_CODE
    requires InBounds(s, Opcode(instruction), Operand(instruction))
    ensures var data := Operand(instruction);
      var bank, a, v := SelectedBank(s.cr), s.w[Bits32(data)], s.w[Bits10(data)];
      var r := Execute(s, instruction);
      && r.mem[bank][a] == HighByte(v) && r.mem[bank][a + 1] == LowByte(v)
      && (forall b, k :: 0 <= b < N_BANKS && 0 <= k < BANK_SIZE && !(b == bank && (k == a || k == a + 1)) ==>
            r.mem[b][k] == s.mem[b][k])
      && r == s.(mem := r.mem, ip := FinalIp(s.ip, false))
  {
  }

  /** LD W[aa], W[bb] loads W[bb] with the big-endian word at W[aa] in the bank selected by
      CR; nothing else but IP changes. */
  lemma LoadReadsWord(s: State, instruction: U32)
    requires Opcode(instruction) == LD_CODE
    requires InBounds(s, Opcode(instruction), Operand(instruction))
    ensures var data := Operand(instruction);
      var bank, aa, bb := SelectedBank(s.cr), Bits32(data), Bits10(data);
      Execute(s, instruction) == s.(w := s.w[bb := ReadWord(s.mem[bank], s.w[aa])], ip := FinalIp(s.ip, false))
  {
  }

  /** ST followed by LD through the same address register, with CR unchanged in between,
      loads back the low 16 bits of the stored register (memory words are 16 bits wide). */
  lemma {:induction false} StoreThenLoad(s: State, st: U32, ld: U32)
    requires Opcode(st) == ST_CODE && Opcode(ld) == LD_CODE
    requires Bits32(Operand(st)) == Bits32(Operand(ld))
    requires InBounds(s, Opcode(st), Operand(st))
    ensures var t := Execute(s, st);
      && InBounds(t, Opcode(ld), Operand(ld))
      && Execute(t, ld).w[Bits10(Operand(ld))] == s.w[Bits10(Operand(st))] % 0x10000
  {
    var t := Execute(s, st);
    var bank, a := SelectedBank(s.cr), s.w[Bits32(Operand(st))];
    assert t.mem[bank] == WriteWord(s.mem[bank], a, s.w[Bits10(Operand(st))]);
    assert t.w == s.w && t.cr == s.cr;
  }

  // ---- CR instructions ----

  /** EAI then DTI/ETI: the CR instructions change only their own bit, so after EAI and
      ETI a, timer `a` may fire whenever nothing is pending. */
  lemma {:induction false} EnableThenTimerMayFire(s: State, eai: U32, eti: U32)
    requires Opcode(eai) == EAI_CODE && Opcode(eti) == ETI_CODE
    requires !s.timerTriggered
    ensures TimerMayFire(Execute(Execute(s, eai), eti), Bit0(Operand(eti)))
  {
    var t := Execute(s, eai);
    InterruptFlagOnly(s.cr);
    TimerFlagOnly(t.cr, Bit0(Operand(eti)));
  }

  /** After DAI no timer may fire, and after DTI a timer `a` may not. */
  lemma {:induction false} DisabledTimersDoNotFire(s: State, dai: U32, dti: U32, id: int)
    requires Opcode(dai) == DAI_CODE && Opcode(dti) == DTI_CODE && 0 <= id <= 1
    ensures !TimerMayFire(Execute(s, dai), id)
    ensures !TimerMayFire(Execute(s, dti), Bit0(Operand(dti)))
  {
    InterruptFlagOnly(s.cr);
    TimerFlagOnly(s.cr, Bit0(Operand(dti)));
  }

  // ---- Interrupts ----

  /** RETI pops IP from the word at SP of the selected bank, moves SP down by one word and
      re-enables interrupts; nothing else changes. */
  lemma RetiPops(s: State, reti: U32)
    requires Opcode(reti) == RETI_CODE && s.sp + 1 < BANK_SIZE
    ensures Execute(s, reti) ==
      s.(ip := ReadWord(s.mem[SelectedBank(s.cr)], s.sp), sp := Wrap(s.sp as int - 2), cr := InterruptsOn(s.cr))
  {
    assert Execute(s, reti) == ApplyBranch(s, RETI_CODE, Operand(reti)).next.(ip := FinalIp(ReadWord(s.mem[SelectedBank(s.cr)], s.sp), true));
  }

  /** Interrupt entry disables interrupts, moves SP up by one word, jumps through the vector of
      the timer that fired and clears the pending pair; W and the running flag are untouched.
      The vector is read after the push, so it comes from the memory the push left behind. */
  lemma EntryJumpsThroughVector(s: State)
    requires PendingPair(s) && EntryInBounds(s) && s.timerTriggered
    ensures var r := InterruptEntry(s);
      && r.cr == InterruptsOff(s.cr)
      && r.sp == Wrap(s.sp as int + 2)
      && r.ip == ReadWord(r.mem[IT_BANK], IT_ADDR + 4 * s.triggeredTimerId)
      && !r.timerTriggered && r.triggeredTimerId == -1
      && r.w == s.w && r.running == s.running
  {
  }

  /** Interrupt entry pushes IP big-endian at the new SP in the bank CR selects, and touches
      no other bank (clearing CR bit 3 does not change the selected bank). */
  lemma {:induction false} EntryPushesIp(s: State)
    requires PendingPair(s) && EntryInBounds(s) && s.timerTriggered
    ensures var r, bank := InterruptEntry(s), SelectedBank(s.cr);
      && r.mem[bank] == WriteWord(s.mem[bank], Wrap(s.sp as int + 2), s.ip)
      && (forall b :: 0 <= b < N_BANKS && b != bank ==> r.mem[b] == s.mem[b])
  {
    InterruptFlagOnly(s.cr);
  }

  /** When the stack lives outside bank 1, the push cannot touch the vector table, so entry
      jumps to the vector as it was before the interrupt. */
  lemma {:induction false} EntryVectorFromOtherBank(s: State)
    requires PendingPair(s) && EntryInBounds(s) && s.timerTriggered
    requires SelectedBank(s.cr) != IT_BANK
    ensures InterruptEntry(s).ip == ReadWord(s.mem[IT_BANK], IT_ADDR + 4 * s.triggeredTimerId)
  {
    EntryPushesIp(s);
  }

  /** RETI right after interrupt entry returns to the interrupted instruction: IP and SP are as
      before the interrupt and CR is the old CR with global interrupts enabled (bit 3). */
  lemma {:induction false} EntryThenReti(s: State, reti: U32)
    requires PendingPair(s) && EntryInBounds(s) && s.timerTriggered
    requires s.ip < BANK_SIZE
    requires Opcode(reti) == RETI_CODE
    ensures var e := InterruptEntry(s);
      && InBounds(e, Opcode(reti), Operand(reti))
      && Execute(e, reti).ip == s.ip
      && Execute(e, reti).sp == s.sp
      && Execute(e, reti).cr == InterruptsOn(s.cr)
  {
    EntryReadsPushedIp(s);
    EntryUndone(s);
    RetiPops(InterruptEntry(s), reti);
  }

  /** Popping one word off the SP entry left and enabling interrupts in the CR it left
      give back SP and, with interrupts enabled, CR as they were before entry. */
  lemma EntryUndone(s: State)
    requires PendingPair(s) && EntryInBounds(s) && s.timerTriggered
    ensures Wrap(InterruptEntry(s).sp as int - 2) == s.sp
    ensures InterruptsOn(InterruptEntry(s).cr) == InterruptsOn(s.cr)
  {
    PushThenPop(s.sp);
    InterruptFlagIdempotent(s.cr);
  }

  /** The word at the new SP in the bank the new CR selects is the pushed IP, which fits in
      one word. */
  lemma EntryReadsPushedIp(s: State)
    requires PendingPair(s) && EntryInBounds(s) && s.timerTriggered
    requires s.ip < BANK_SIZE
    ensures var e := InterruptEntry(s);
      e.sp + 1 < BANK_SIZE && ReadWord(e.mem[SelectedBank(e.cr)], e.sp) == s.ip
  {
    var e := InterruptEntry(s);
    var bank := SelectedBank(s.cr);
    EntryJumpsThroughVector(s);
    EntryPushesIp(s);
    InterruptFlagOnly(s.cr);
    assert SelectedBank(e.cr) == bank;
  }

  /** Moving SP up one word and back down again returns it, across the wrap-around too. */
  lemma PushThenPop(sp: U32)
    ensures Wrap(Wrap(sp as int + 2) as int - 2) == sp
  {
  }

  /** A tick that fires makes every later tick a no-op until the interrupt is taken:
      the second trigger is dropped and the recorded id stays that of the first. */
  lemma {:induction false} SecondTickDropped(s: State, first: int, second: int)
    requires 0 <= first <= 1 && 0 <= second <= 1
    requires TimerMayFire(s, first)
    ensures var t := TimerTick(s, first);
      && t.timerTriggered && t.triggeredTimerId == first
      && TimerTick(t, second) == t
  {
  }

  /** While an interrupt is being handled (after entry, before RETI or EAI) no timer can fire:
      entry cleared CR bit 3. */
  lemma {:induction false} NoNestedInterrupt(s: State, id: int)
    requires PendingPair(s) && EntryInBounds(s) && s.timerTriggered
    requires 0 <= id <= 1
    ensures TimerTick(InterruptEntry(s), id) == InterruptEntry(s)
  {
    InterruptFlagOnly(s.cr);
  }

  /** The timer lock covers only the interrupt check, so a tick can land between
      `check_interrupts` and the instruction. With nothing pending and timer `id` enabled,
      a DAI fetched at IP then leaves an interrupt pending under a cleared CR bit 3, and the
      next turn takes it. A turn with no tick inside it (`Cycle`) leaves nothing pending, and
      after its DAI no tick can fire. */
  lemma TickBeforeDai(s: State, id: int)
    requires 0 <= id <= 1 && PendingPair(s) && TimerMayFire(s, id)
    requires s.ip + 1 < BANK_SIZE && Opcode(Fetch(s)) == DAI_CODE
    ensures InterruptEntry(s) == s
    ensures var t := TimerTick(s, id);
      var r := Execute(t, Fetch(t));
      && r.timerTriggered && r.triggeredTimerId == id && !InterruptsEnabled(r.cr)
    ensures var c := Cycle(s);
      && !c.timerTriggered && !InterruptsEnabled(c.cr) && TimerTick(c, id) == c
  {
    var t := TimerTick(s, id);
    assert Fetch(t) == Fetch(s);
    ExecuteKeepsPendingPair(t, Fetch(t));
    InterruptFlagOnly(s.cr);
  }
}
