/** The Micro16 CPU as an object: its registers and memory banks are fields that the
    methods update in place, and each method is proved to perform the state transition
    of module Machine on the abstract value `State()`. */
module Cpu {
  import opened Isa
  import opened Machine

  /** An adapter registered for memory-mapped I/O: which adapter, and the offset in bank 1
      its memory window starts at. */
  datatype MmioConnection = MmioConnection(adapter: nat, address: U32)

  /** The adapters of a list of connections, in order. */
  function AdapterIds(connections: seq<MmioConnection>): (ids: seq<nat>)
    ensures |ids| == |connections|
    ensures forall i :: 0 <= i < |ids| ==> ids[i] == connections[i].adapter
  {
    if connections == [] then [] else AdapterIds(connections[..|connections| - 1]) + [connections[|connections| - 1].adapter]
  }

  class Micro16 {
    var running: bool
    var ip: U32
    var cr: U32
    var sp: U32
    const w: array<U32>
    const memory: array2<Byte>
    /** The contents of `memory` as four banks, kept in step with the array. */
    ghost var mem: Banks
    var timerTriggered: bool
    var triggeredTimerId: int
    var adapters: seq<MmioConnection>

    ghost predicate Valid()
      reads this, w, memory
    {
      && w.Length == 4
      && Mirrored()
      && (if timerTriggered then 0 <= triggeredTimerId <= 1 else triggeredTimerId == -1)
    }

    /** The array holds exactly the banks `mem`. */
    ghost predicate Mirrored()
      reads this`mem, memory
    {
      && memory.Length0 == N_BANKS && memory.Length1 == BANK_SIZE
      && (forall b, k :: 0 <= b < N_BANKS && 0 <= k < BANK_SIZE ==> memory[b, k] == mem[b][k])
    }

    /** The machine state the object stands for. */
    ghost function State(): (s: State)
      requires Valid()
      reads this, w, memory
      ensures PendingPair(s)
    {
      Machine.State(running, ip, cr, sp, w[..], mem, timerTriggered, triggeredTimerId)
    }

    /** Power-on with `code` as bank 0. The source leaves banks 1..3 uninitialised; here they
        start zeroed, and the contract says nothing about them. */
    constructor(code: seq<Byte>)
      requires |code| == BANK_SIZE
      ensures Valid() && fresh(w) && fresh(memory)
      ensures PoweredOn(State(), code)
      ensures adapters == []
    {
      running := true;
      ip := 0x0000;
      cr := 0x9000;
      sp := 0x8000;
      w := new U32[4](_ => 0x0000);
      timerTriggered := false;
      triggeredTimerId := -1;
      memory := new Byte[N_BANKS, BANK_SIZE]((b: nat, k: nat) => if b == CODE_BANK && k < |code| then code[k] else 0);
      var zero: Bank := ZeroBank();
      mem := [code, zero, zero, zero];
      adapters := [];
      new;
      assert w[..] == [0, 0, 0, 0];
    }

    /** One iteration of the loop in `run`: take a pending interrupt, fetch, execute.
        `halted` tells the loop to stop because HLT ran. */
    method Step() returns (halted: bool)
      requires Valid() && CycleInBounds(State())
      modifies this, w, memory
      ensures Valid() && State() == Cycle(old(State()))
      ensures halted == !running
      ensures adapters == old(adapters)
    {
      CheckInterrupts();
      var instruction := InstructionFetch();
      RunInstruction(instruction);
      halted := !running;
    }

    /** `check_interrupts`: interrupt entry when an interrupt is pending. */
    method CheckInterrupts()
      requires Valid() && EntryInBounds(State())
      modifies this, memory
      ensures Valid() && State() == InterruptEntry(old(State()))
      ensures adapters == old(adapters)
    {
      if timerTriggered {
        // Disable global interrupts
        cr := InterruptsOff(cr);
        // Save IP on the stack, in the bank the new CR selects
        var stackBank := SelectedBank(cr);
        sp := Wrap(sp as int + 2);
        StoreWord(stackBank, sp, ip);
        // Jump through the interrupt table
        ip := LoadWord(IT_BANK, IT_ADDR + 4 * triggeredTimerId);
        timerTriggered := false;
        triggeredTimerId := -1;
      }
    }

    /** `instruction_fetch`: the big-endian word at IP in the code bank. */
    method InstructionFetch() returns (instruction: U32)
      requires Valid() && ip + 1 < BANK_SIZE
      ensures instruction == Fetch(State())
    {
      instruction := LoadWord(CODE_BANK, ip);
    }

    /** `run_instruction`: decode the opcode and operand bytes, perform the opcode's effect,
        then advance IP by two unless the instruction retargeted it, and send an IP at or past
        the end of the code bank to 0. The chain of opcode tests is split by instruction group. */
    method RunInstruction(instruction: U32)
      requires Valid()
      requires InBounds(State(), Opcode(instruction), Operand(instruction))
      modifies this, w, memory
      ensures Valid() && State() == Execute(old(State()), instruction)
      ensures adapters == old(adapters)
    {
      var ipChanged := RunOpcode(Opcode(instruction), Operand(instruction));
      if !ipChanged {
        ip := Wrap(ip as int + 2);
      }
      if ip >= BANK_SIZE {
        ip := 0;
      }
    }

    /** The opcode dispatch of `run_instruction`; `ipChanged` says the instruction loaded IP. */
    method RunOpcode(code: Byte, data: Byte) returns (ipChanged: bool)
      requires Valid() && InBounds(State(), code, data)
      modifies this, w, memory
      ensures Valid() && State() == Apply(old(State()), code, data).next
      ensures ipChanged == Apply(old(State()), code, data).ipChanged
      ensures adapters == old(adapters)
    {
      ipChanged := false;
      if code == NOP_CODE {
      } else if code in {ADD_CODE, INC_CODE, DEC_CODE, SET_CODE, CLR_CODE, NOT_CODE} {
        RunArithmetic(code, data);
      } else if code in {JMP_CODE, BRNZ_CODE, RET_CODE, RETI_CODE} {
        ipChanged := RunBranch(code, data);
      } else if code in {LD_CODE, ST_CODE} {
        RunMemory(code, data);
      } else if code in {DAI_CODE, EAI_CODE, DTI_CODE, ETI_CODE, HLT_CODE} {
        RunControl(code, data);
      }
      // SUB, AND, OR, XOR, BRE..BRH, CALL, CPY, PUSH, POP, PEEK, SELB, BRK and every
      // unassigned opcode have no effect of their own: they only advance IP.
    }

    /** The arithmetic and logic branches of `run_instruction`: they write one general register. */
    method RunArithmetic(code: Byte, data: Byte)
      requires Valid()
      modifies w
      ensures Valid() && State() == ApplyArithmetic(old(State()), code, data).next
    {
      if code == ADD_CODE {
        var aa, bb, cc := Bits32(data), Bits10(data), Bits54(data);
        w[cc] := Wrap(w[aa] as int + w[bb]);
      } else if code == INC_CODE {
        var aa := Bits10(data);
        w[aa] := Wrap(w[aa] as int + 1);
      } else if code == DEC_CODE {
        var aa := Bits10(data);
        w[aa] := Wrap(w[aa] as int - 1);
      } else if code == SET_CODE {
        var aa, yy, xxxx := Bits76(data), Bits54(data), Bits3210(data);
        w[aa] := SetNibble(w[aa], yy, xxxx);
      } else if code == CLR_CODE {
        var aa := Bits10(data);
        w[aa] := 0;
      } else if code == NOT_CODE {
        var aa := Bits10(data);
        w[aa] := Complement(w[aa]);
      }
    }

    /** The branch and return branches of `run_instruction`; `ipChanged` says IP was loaded. */
    method RunBranch(code: Byte, data: Byte) returns (ipChanged: bool)
      requires Valid() && InBounds(State(), code, data)
      modifies this
      ensures Valid() && State() == ApplyBranch(old(State()), code, data).next
      ensures ipChanged == ApplyBranch(old(State()), code, data).ipChanged
      ensures adapters == old(adapters)
    {
      ipChanged := false;
      if code == JMP_CODE {
        var aa := Bits10(data);
        ip := w[aa];
        ipChanged := true;
      } else if code == BRNZ_CODE {
        var aa, cc := Bits10(data), Bits32(data);
        if w[aa] != 0 {
          ip := w[cc];
          ipChanged := true;
        }
      } else if code == RET_CODE || code == RETI_CODE {
        var stackBank := SelectedBank(cr);
        ip := LoadWord(stackBank, sp);
        sp := Wrap(sp as int - 2);
        if code == RETI_CODE {
          // Re-enable interrupts
          cr := InterruptsOn(cr);
        }
        ipChanged := true;
      }
    }

    /** The load and store branches of `run_instruction`, addressing the bank CR selects. */
    method RunMemory(code: Byte, data: Byte)
      requires Valid() && InBounds(State(), code, data)
      modifies this`mem, w, memory
      ensures Valid() && State() == ApplyMemory(old(State()), code, data).next
    {
      if code == LD_CODE {
        var selectedBank, aa, bb := SelectedBank(cr), Bits32(data), Bits10(data);
        w[bb] := LoadWord(selectedBank, w[aa]);
      } else if code == ST_CODE {
        var selectedBank, aa, bb := SelectedBank(cr), Bits32(data), Bits10(data);
        StoreWord(selectedBank, w[aa], w[bb]);
      }
    }

    /** The control-register and halt branches of `run_instruction`. */
    method RunControl(code: Byte, data: Byte)
      requires Valid()
      modifies this
      ensures Valid() && State() == ApplyControl(old(State()), code, data).next
      ensures adapters == old(adapters)
    {
      if code == DAI_CODE {
        cr := InterruptsOff(cr);
      } else if code == EAI_CODE {
        cr := InterruptsOn(cr);
      } else if code == DTI_CODE {
        cr := TimerOff(cr, Bit0(data));
      } else if code == ETI_CODE {
        cr := TimerOn(cr, Bit0(data));
      } else if code == HLT_CODE {
        running := false;
      }
    }

    /** Loads the big-endian word at `a` and `a + 1` of bank `bank`: `(hi << 8) + lo`. */
    method LoadWord(bank: int, a: int) returns (v: U32)
      requires Valid() && 0 <= bank < N_BANKS && 0 <= a && a + 1 < BANK_SIZE
      ensures v == ReadWord(mem[bank], a)
    {
      v := Word(memory[bank, a], memory[bank, a + 1]);
    }

    /** Stores the low 16 bits of `v` big-endian at `a` and `a + 1` of bank `bank`. */
    method StoreWord(bank: int, a: int, v: U32)
      requires Valid() && 0 <= bank < N_BANKS && 0 <= a && a + 1 < BANK_SIZE
      modifies this`mem, memory
      ensures Valid() && mem == old(mem[bank := WriteWord(mem[bank], a, v)])
    {
      memory[bank, a] := HighByte(v);
      memory[bank, a + 1] := LowByte(v);
      mem := mem[bank := WriteWord(mem[bank], a, v)];
    }

    /** `register_mmio`: connect `adapter` to the window of bank 1 that starts at `requestAddr`
        and remember it, so that it can be disconnected when the CPU stops. */
    method RegisterMmio(adapter: nat, requestAddr: U32)
      requires Valid()
      modifies this
      ensures Valid() && State() == old(State())
      ensures adapters == old(adapters) + [MmioConnection(adapter, requestAddr)]
    {
      adapters := adapters + [MmioConnection(adapter, requestAddr)];
    }

    /** The end of `run`: every registered adapter is disconnected, in registration order. */
    method DisconnectAll() returns (disconnected: seq<nat>)
      requires Valid()
      ensures disconnected == AdapterIds(adapters)
    {
      disconnected := [];
      var i := 0;
      while i < |adapters|
        invariant 0 <= i <= |adapters|
        invariant disconnected == AdapterIds(adapters[..i])
      {
        assert adapters[..i + 1][..i] == adapters[..i];
        disconnected := disconnected + [adapters[i].adapter];
        i := i + 1;
      }
      assert adapters[..i] == adapters;
    }

    /** The critical section of the thread of timer `id`, taken as one atomic step: raise an
        interrupt if none is pending and both the global and the timer's enable bits are set.
        `stop` tells the thread to return because the CPU has halted. */
    method TimerTick(id: int) returns (stop: bool)
      requires Valid() && 0 <= id <= 1
      modifies this
      ensures Valid() && State() == Machine.TimerTick(old(State()), id)
      ensures stop == !running
      ensures adapters == old(adapters)
    {
      if !timerTriggered && InterruptsEnabled(cr) && TimerEnabled(cr, id) {
        timerTriggered := true;
        triggeredTimerId := id;
      }
      stop := !running;
    }
  }
}
