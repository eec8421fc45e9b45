/** The assembler's output: `dump_instructions` lays the instructions, keyed by their
    position, into one zeroed 64 KiB code bank, each as its high byte then its low byte, and
    writes the whole bank out. Entries are visited in ascending position order, so where two
    entries are one byte apart the later one's high byte overwrites the earlier one's low
    byte. */
module AsmImage {
  import opened Isa
  import opened Machine

  /** `using Position = uint16_t`. */
  type Position = p: int | 0 <= p < 0x10000

  /** Every entry fits with both its bytes inside the bank. At position 0xFFFF the source
      writes one element past its array. */
  predicate Placeable(instructions: map<Position, U32>) {
    forall p :: p in instructions ==> p + 1 < BANK_SIZE
  }

  /** The byte at address `a` once the entries at the positions in `done` are written in
      ascending order onto zeros: the high byte of an entry at `a`, else the low byte of an
      entry at `a - 1`, else 0. */
  function Written(instructions: map<Position, U32>, done: set<Position>, a: int): Byte
    requires done <= instructions.Keys
  {
    if a in done then HighByte(instructions[a])
    else if a - 1 in done then LowByte(instructions[a - 1])
    else 0
  }

  /** The bank `dump_instructions` writes out. */
  function Image(instructions: map<Position, U32>): (image: seq<Byte>)
    ensures |image| == BANK_SIZE
  {
    seq(BANK_SIZE, a requires 0 <= a < BANK_SIZE => Written(instructions, instructions.Keys, a))
  }

  /** A non-empty finite set of positions has a least element. */
  lemma {:induction false} Least(s: set<Position>) returns (p: Position)
    requires s != {}
    ensures p in s && forall q :: q in s ==> p <= q
    decreases |s|
  {
    var x :| x in s;
    var rest := s - {x};
    if rest == {} {
      p := x;
      assert s == {x};
    } else {
      var r := Least(rest);
      p := if x < r then x else r;
      assert s == rest + {x};
    }
  }

  /** Writing the entry at `pos`, above every position written so far, sets its two bytes
      and no other. */
  lemma WrittenStep(instructions: map<Position, U32>, done: set<Position>, pos: Position, a: int)
    requires done <= instructions.Keys && pos in instructions
    requires forall d :: d in done ==> d < pos
    ensures Written(instructions, done + {pos}, a) ==
      if a == pos then HighByte(instructions[pos])
      else if a == pos + 1 then LowByte(instructions[pos])
      else Written(instructions, done, a)
  {
  }

  /** Moving the least pending position to the written ones keeps the two sets a split of
      the keys with every written position below every pending one. */
  lemma TakeLeast(keys: set<Position>, pending: set<Position>, done: set<Position>, pos: Position)
    requires pending + done == keys && pending !! done
    requires forall d, q :: d in done && q in pending ==> d < q
    requires pos in pending && forall q :: q in pending ==> pos <= q
    ensures (pending - {pos}) + (done + {pos}) == keys && (pending - {pos}) !! (done + {pos})
    ensures forall d, q :: d in done + {pos} && q in pending - {pos} ==> d < q
    ensures |pending - {pos}| < |pending|
  {
  }

  /** A bank holding, at every address, the byte written there once all entries are in, is
      the image. */
  lemma AllWritten(instructions: map<Position, U32>, memory: seq<Byte>)
    requires |memory| == BANK_SIZE
    requires forall a :: 0 <= a < BANK_SIZE ==> memory[a] == Written(instructions, instructions.Keys, a)
    ensures memory == Image(instructions)
  {
  }

  /** `dump_instructions`: a zeroed bank, each entry in ascending position order stored high
      byte first, then the whole bank as the output. */
  method DumpInstructions(instructions: map<Position, U32>) returns (output: seq<Byte>)
    requires Placeable(instructions)
    ensures output == Image(instructions)
  {
    var memory := new Byte[BANK_SIZE](_ => 0);
    var pending := instructions.Keys;
    ghost var done: set<Position> := {};
    while pending != {}
      invariant pending + done == instructions.Keys && pending !! done
      invariant forall d, q :: d in done && q in pending ==> d < q
      invariant forall a :: 0 <= a < BANK_SIZE ==> memory[a] == Written(instructions, done, a)
      decreases |pending|
    {
      ghost var least := Least(pending);
      var pos :| pos in pending && forall q :: q in pending ==> pos <= q;
      var i := instructions[pos];
      memory[pos + 0] := HighByte(i);
      memory[pos + 1] := LowByte(i);
      forall a | 0 <= a < BANK_SIZE
        ensures memory[a] == Written(instructions, done + {pos}, a)
      {
        WrittenStep(instructions, done, pos, a);
      }
      TakeLeast(instructions.Keys, pending, done, pos);
      pending := pending - {pos};
      done := done + {pos};
    }
    output := memory[..];
    AllWritten(instructions, output);
  }

  // ---------------------------------------------------------------------------------------
  // What the image holds

  /** An entry whose next position is free is read back whole by a big-endian fetch: the
      word at its position is its low 16 bits. */
  lemma ImageFetch(instructions: map<Position, U32>, p: Position)
    requires Placeable(instructions) && p in instructions && p + 1 !in instructions
    ensures p + 1 < BANK_SIZE
    ensures ReadWord(Image(instructions), p) == instructions[p] % 0x10000
  {
    WordBytes(instructions[p], 0, 0);
  }

  /** An address that no entry covers holds 0. */
  lemma ImageZero(instructions: map<Position, U32>, a: int)
    requires 0 <= a < BANK_SIZE && a !in instructions && a - 1 !in instructions
    ensures Image(instructions)[a] == 0
  {
  }

  /** Entries one byte apart overlap: the later entry's high byte replaces the earlier one's
      low byte, so the word fetched at the earlier position is made of the two high bytes. */
  lemma ImageOverlap(instructions: map<Position, U32>, p: Position)
    requires Placeable(instructions) && p in instructions && p + 1 in instructions
    ensures ReadWord(Image(instructions), p) == Word(HighByte(instructions[p]), HighByte(instructions[p + 1]))
    ensures LowByte(instructions[p]) != HighByte(instructions[p + 1]) ==>
      ReadWord(Image(instructions), p) != instructions[p] % 0x10000
  {
    var hi, lo := HighByte(instructions[p]), HighByte(instructions[p + 1]);
    WordBytes(instructions[p], hi, lo);
  }

  /** A list of instruction words placed two bytes apart from position 0. */
  function Placed(words: seq<U32>): (instructions: map<Position, U32>)
    requires 2 * |words| <= BANK_SIZE
    ensures forall k :: 0 <= k < |words| ==> 2 * k in instructions && instructions[2 * k] == words[k]
    ensures forall p :: p in instructions ==> p % 2 == 0 && p / 2 < |words|
  {
    map k | 0 <= k < |words| :: (2 * k) as Position := words[k]
  }

  /** Words placed two bytes apart come out one after another, each high byte first, and the
      rest of the bank is zero, which is NOP. */
  lemma ImagePlaced(words: seq<U32>)
    requires 2 * |words| <= BANK_SIZE
    ensures Placeable(Placed(words))
    ensures forall k :: 0 <= k < |words| ==> ReadWord(Image(Placed(words)), 2 * k) == words[k] % 0x10000
    ensures forall a :: 2 * |words| <= a < BANK_SIZE ==> Image(Placed(words))[a] == 0
  {
    var m := Placed(words);
    forall k | 0 <= k < |words|
      ensures ReadWord(Image(m), 2 * k) == words[k] % 0x10000
    {
      assert 2 * k + 1 !in m;
      ImageFetch(m, 2 * k);
    }
    forall a | 2 * |words| <= a < BANK_SIZE
      ensures Image(m)[a] == 0
    {
      ImageZero(m, a);
    }
  }

  /** A machine powered on with the image as its code bank fetches the entry at position 0
      as its first instruction. */
  lemma FirstFetch(instructions: map<Position, U32>, s: State)
    requires Placeable(instructions) && 0 in instructions && 1 !in instructions
    requires PoweredOn(s, Image(instructions))
    ensures Fetch(s) == instructions[0] % 0x10000
  {
    ImageFetch(instructions, 0);
  }
}
