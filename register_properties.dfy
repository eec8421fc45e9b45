/** Properties of the register operations of the Micro16 CPU: SET on nibbles, the 32-bit
    wrap-around of INC, DEC and NOT, and the bit updates DAI, EAI, DTI and ETI make to CR.
    Each register is viewed through its digit fields and every field fact is proved through
    `DivModUnique`. */
module RegisterProperties {
  import opened Isa
  import opened Machine

  // ---- Nibbles ----

  /** Every register is the composition of its bits 31..16 and its four low nibbles. */
  lemma NibbleDigits(v: U32)
    ensures v == FromNibbles(v / 0x10000, Nibble(v, 3), Nibble(v, 2), Nibble(v, 1), Nibble(v, 0))
  {
    var a0 := v / 0x10;
    var a1 := a0 / 0x10;
    var a2 := a1 / 0x10;
    var a3 := a2 / 0x10;
    DivModUnique(v, 0x100, a1, a0 % 0x10 * 0x10 + v % 0x10);
    DivModUnique(v, 0x1000, a2, a1 % 0x10 * 0x100 + a0 % 0x10 * 0x10 + v % 0x10);
    DivModUnique(v, 0x10000, a3, a2 % 0x10 * 0x1000 + a1 % 0x10 * 0x100 + a0 % 0x10 * 0x10 + v % 0x10);
  }

  /** Composing fields and reading them back gives the fields. */
  lemma ComposedNibbles(hi: int, n3: int, n2: int, n1: int, n0: int)
    requires 0 <= hi < 0x10000
    requires 0 <= n3 < 0x10 && 0 <= n2 < 0x10 && 0 <= n1 < 0x10 && 0 <= n0 < 0x10
    ensures var v := FromNibbles(hi, n3, n2, n1, n0);
      && 0 <= v < 0x1_0000_0000
      && Nibble(v, 0) == n0 && Nibble(v, 1) == n1 && Nibble(v, 2) == n2 && Nibble(v, 3) == n3
      && v / 0x10000 == hi
  {
    var v := FromNibbles(hi, n3, n2, n1, n0);
    DivModUnique(v, 0x10, hi * 0x1000 + n3 * 0x100 + n2 * 0x10 + n1, n0);
    DivModUnique(v / 0x10, 0x10, hi * 0x100 + n3 * 0x10 + n2, n1);
    DivModUnique(v, 0x100, hi * 0x100 + n3 * 0x10 + n2, n1 * 0x10 + n0);
    DivModUnique(v / 0x100, 0x10, hi * 0x10 + n3, n2);
    DivModUnique(v, 0x1000, hi * 0x10 + n3, n2 * 0x100 + n1 * 0x10 + n0);
    DivModUnique(v / 0x1000, 0x10, hi, n3);
    DivModUnique(v, 0x10000, hi, n3 * 0x1000 + n2 * 0x100 + n1 * 0x10 + n0);
  }

  /** SET leaves nibble `k` of a register as `x` when `k` is the selected nibble and as it
      was otherwise; bits 31..16, which no SET reaches, are unchanged. */
  lemma {:induction false} SetNibbleAt(v: U32, yy: int, x: int, k: int)
    requires 0 <= yy < 4 && 0 <= x < 0x10 && 0 <= k < 4
    ensures Nibble(SetNibble(v, yy, x), k) == if k == yy then x else Nibble(v, k)
    ensures SetNibble(v, yy, x) / 0x10000 == v / 0x10000
  {
    var hi, n3, n2, n1, n0 := v / 0x10000, Nibble(v, 3), Nibble(v, 2), Nibble(v, 1), Nibble(v, 0);
    ComposedNibbles(hi, if yy == 3 then x else n3, if yy == 2 then x else n2,
                    if yy == 1 then x else n1, if yy == 0 then x else n0);
  }

  /** SET is clearing the nibble and adding `x` at its weight: `v & ~(0xF << 4 * yy)` takes
      the nibble's value times its weight off `v`, and OR-ing into the cleared nibble adds. */
  lemma SetNibbleClearsThenAdds(v: U32, yy: int, x: int)
    requires 0 <= yy < 4 && 0 <= x < 0x10
    ensures var weight := if yy == 0 then 1 else if yy == 1 then 0x10 else if yy == 2 then 0x100 else 0x1000;
      SetNibble(v, yy, x) == v - Nibble(v, yy) * weight + x * weight
  {
    NibbleDigits(v);
  }

  /** A register is determined by its four low nibbles and its bits 31..16. */
  lemma {:induction false} NibblesDetermine(u: U32, v: U32)
    requires Nibble(u, 0) == Nibble(v, 0) && Nibble(u, 1) == Nibble(v, 1)
    requires Nibble(u, 2) == Nibble(v, 2) && Nibble(u, 3) == Nibble(v, 3)
    requires u / 0x10000 == v / 0x10000
    ensures u == v
  {
    NibbleDigits(u);
    NibbleDigits(v);
  }

  /** Four SETs with yy = 3, 2, 1, 0 carrying the nibbles of a 16-bit constant `c` leave `c` in
      the low half of the register and the register's old bits 31..16 in the high half. */
  lemma {:induction false} SetNibbleChain(v: U32, c: U32)
    requires c < 0x10000
    ensures SetNibble(SetNibble(SetNibble(SetNibble(v, 3, Nibble(c, 3)), 2, Nibble(c, 2)), 1, Nibble(c, 1)), 0, Nibble(c, 0))
      == v / 0x10000 * 0x10000 + c
  {
    var hi, c3, c2, c1, c0 := v / 0x10000, Nibble(c, 3), Nibble(c, 2), Nibble(c, 1), Nibble(c, 0);
    var n3, n2, n1, n0 := Nibble(v, 3), Nibble(v, 2), Nibble(v, 1), Nibble(v, 0);
    NibbleDigits(v);
    SetOnFields(v, hi, n3, n2, n1, n0, 3, c3);
    var v3 := SetNibble(v, 3, c3);
    SetOnFields(v3, hi, c3, n2, n1, n0, 2, c2);
    var v2 := SetNibble(v3, 2, c2);
    SetOnFields(v2, hi, c3, c2, n1, n0, 1, c1);
    var v1 := SetNibble(v2, 1, c1);
    SetOnFields(v1, hi, c3, c2, c1, n0, 0, c0);
    ConstantFields(hi, c);
  }

  /** SET on a register made of the given fields replaces field `yy`. */
  lemma SetOnFields(v: U32, hi: int, n3: int, n2: int, n1: int, n0: int, yy: int, x: int)
    requires 0 <= hi < 0x10000 && 0 <= yy < 4 && 0 <= x < 0x10
    requires 0 <= n3 < 0x10 && 0 <= n2 < 0x10 && 0 <= n1 < 0x10 && 0 <= n0 < 0x10
    requires v == FromNibbles(hi, n3, n2, n1, n0)
    ensures SetNibble(v, yy, x) ==
      FromNibbles(hi, if yy == 3 then x else n3, if yy == 2 then x else n2,
                  if yy == 1 then x else n1, if yy == 0 then x else n0)
  {
    ComposedNibbles(hi, n3, n2, n1, n0);
  }

  /** A 16-bit constant's nibbles under high half `hi` make `hi * 0x10000 + c`. */
  lemma ConstantFields(hi: int, c: U32)
    requires 0 <= hi < 0x10000 && c < 0x10000
    ensures FromNibbles(hi, Nibble(c, 3), Nibble(c, 2), Nibble(c, 1), Nibble(c, 0)) == hi * 0x10000 + c
  {
    NibbleDigits(c);
  }

  // ---- 32-bit wrap-around ----

  /** DEC undoes INC and INC undoes DEC, including across the 32-bit wrap-around, which
      takes 0xFFFFFFFF to 0 and back; NOT undoes itself. */
  lemma WrapInverses(v: U32)
    ensures Wrap(Wrap(v as int + 1) as int - 1) == v
    ensures Wrap(Wrap(v as int - 1) as int + 1) == v
    ensures Complement(Complement(v)) == v
    ensures Wrap(v as int + 1) == if v == 0xFFFF_FFFF then 0 else v + 1
    ensures Wrap(v as int - 1) == if v == 0 then 0xFFFF_FFFF else v - 1
  {
  }

  // ---- CR fields ----

  /** CR composed from its fields: bits 31..14, the bank (13..12), bits 11..10, the timer
      enable bits 9 and 8, bits 7..4, the interrupt enable bit 3 and bits 2..0. */
  function FromCrFields(hi: int, bank: int, mid: int, t1: int, t0: int, m: int, ie: int, lo: int): int {
    hi * 0x4000 + bank * 0x1000 + mid * 0x400 + t1 * 0x200 + t0 * 0x100 + m * 0x10 + ie * 8 + lo
  }

  predicate CrFieldsInRange(hi: int, bank: int, mid: int, t1: int, t0: int, m: int, ie: int, lo: int) {
    && 0 <= hi < 0x4_0000 && 0 <= bank < 4 && 0 <= mid < 4 && 0 <= t1 < 2 && 0 <= t0 < 2
    && 0 <= m < 0x10 && 0 <= ie < 2 && 0 <= lo < 8
  }

  /** Every CR value is the composition of its fields. */
  lemma CrDigits(cr: U32)
    ensures CrFieldsInRange(cr / 0x4000, cr / 0x1000 % 4, cr / 0x400 % 4, cr / 0x200 % 2,
                            cr / 0x100 % 2, cr / 0x10 % 0x10, cr / 8 % 2, cr % 8)
    ensures cr == FromCrFields(cr / 0x4000, cr / 0x1000 % 4, cr / 0x400 % 4, cr / 0x200 % 2,
                               cr / 0x100 % 2, cr / 0x10 % 0x10, cr / 8 % 2, cr % 8)
  {
    var a3, a4, a8, a9, a10, a12, a14 := cr / 8, cr / 0x10, cr / 0x100, cr / 0x200, cr / 0x400, cr / 0x1000, cr / 0x4000;
    DivModUnique(cr, 0x10, a3 / 2, a3 % 2 * 8 + cr % 8);
    DivModUnique(cr, 0x100, a4 / 0x10, a4 % 0x10 * 0x10 + cr % 0x10);
    DivModUnique(cr, 0x200, a8 / 2, a8 % 2 * 0x100 + cr % 0x100);
    DivModUnique(cr, 0x400, a9 / 2, a9 % 2 * 0x200 + cr % 0x200);
    DivModUnique(cr, 0x1000, a10 / 4, a10 % 4 * 0x400 + cr % 0x400);
    DivModUnique(cr, 0x4000, a12 / 4, a12 % 4 * 0x1000 + cr % 0x1000);
  }

  /** Composing CR fields and reading them back gives the fields. */
  lemma ComposedCr(hi: int, bank: int, mid: int, t1: int, t0: int, m: int, ie: int, lo: int)
    requires CrFieldsInRange(hi, bank, mid, t1, t0, m, ie, lo)
    ensures var cr := FromCrFields(hi, bank, mid, t1, t0, m, ie, lo);
      && 0 <= cr < 0x1_0000_0000
      && cr / 0x4000 == hi && cr / 0x1000 % 4 == bank && cr / 0x400 % 4 == mid
      && cr / 0x200 % 2 == t1 && cr / 0x100 % 2 == t0 && cr / 0x10 % 0x10 == m
      && cr / 8 % 2 == ie && cr % 8 == lo
  {
    var cr := FromCrFields(hi, bank, mid, t1, t0, m, ie, lo);
    var r14 := bank * 0x1000 + mid * 0x400 + t1 * 0x200 + t0 * 0x100 + m * 0x10 + ie * 8 + lo;
    DivModUnique(cr, 0x4000, hi, r14);
    DivModUnique(cr, 0x1000, hi * 4 + bank, r14 - bank * 0x1000);
    DivModUnique(hi * 4 + bank, 4, hi, bank);
    DivModUnique(cr, 0x400, (hi * 4 + bank) * 4 + mid, r14 - bank * 0x1000 - mid * 0x400);
    DivModUnique((hi * 4 + bank) * 4 + mid, 4, hi * 4 + bank, mid);
    var a10 := (hi * 4 + bank) * 4 + mid;
    DivModUnique(cr, 0x200, a10 * 2 + t1, t0 * 0x100 + m * 0x10 + ie * 8 + lo);
    DivModUnique(a10 * 2 + t1, 2, a10, t1);
    DivModUnique(cr, 0x100, (a10 * 2 + t1) * 2 + t0, m * 0x10 + ie * 8 + lo);
    DivModUnique((a10 * 2 + t1) * 2 + t0, 2, a10 * 2 + t1, t0);
    var a8 := (a10 * 2 + t1) * 2 + t0;
    DivModUnique(cr, 0x10, a8 * 0x10 + m, ie * 8 + lo);
    DivModUnique(a8 * 0x10 + m, 0x10, a8, m);
    DivModUnique(cr, 8, (a8 * 0x10 + m) * 2 + ie, lo);
    DivModUnique((a8 * 0x10 + m) * 2 + ie, 2, a8 * 0x10 + m, ie);
  }

  /** The fields of CR, and CR with bit 3 (`ie`) or a timer bit replaced. */
  function CrWith(cr: U32, ie: int, t1: int, t0: int): int {
    FromCrFields(cr / 0x4000, cr / 0x1000 % 4, cr / 0x400 % 4, t1, t0, cr / 0x10 % 0x10, ie, cr % 8)
  }

  /** DAI and EAI write bit 3 of CR and keep every other field. */
  lemma InterruptFlagFields(cr: U32)
    ensures InterruptsOff(cr) == CrWith(cr, 0, cr / 0x200 % 2, cr / 0x100 % 2)
    ensures InterruptsOn(cr) == CrWith(cr, 1, cr / 0x200 % 2, cr / 0x100 % 2)
  {
    CrDigits(cr);
  }

  /** DTI a and ETI a write bit 8 + a of CR and keep every other field. */
  lemma TimerFlagFields(cr: U32, a: int)
    requires 0 <= a <= 1
    ensures TimerOff(cr, a) == if a == 0 then CrWith(cr, cr / 8 % 2, cr / 0x200 % 2, 0) else CrWith(cr, cr / 8 % 2, 0, cr / 0x100 % 2)
    ensures TimerOn(cr, a) == if a == 0 then CrWith(cr, cr / 8 % 2, cr / 0x200 % 2, 1) else CrWith(cr, cr / 8 % 2, 1, cr / 0x100 % 2)
  {
    CrDigits(cr);
  }

  /** Reading the fields of CR with some fields replaced. */
  lemma CrWithFields(cr: U32, ie: int, t1: int, t0: int)
    requires 0 <= ie < 2 && 0 <= t1 < 2 && 0 <= t0 < 2
    ensures var c := CrWith(cr, ie, t1, t0);
      && 0 <= c < 0x1_0000_0000
      && c / 8 % 2 == ie && c / 0x200 % 2 == t1 && c / 0x100 % 2 == t0
      && c / 0x1000 % 4 == cr / 0x1000 % 4
  {
    CrDigits(cr);
    ComposedCr(cr / 0x4000, cr / 0x1000 % 4, cr / 0x400 % 4, t1, t0, cr / 0x10 % 0x10, ie, cr % 8);
  }

  /** DAI and EAI clear and set bit 3 of CR and nothing else: both timer enable bits and the
      selected bank stay as they were. */
  lemma {:induction false} InterruptFlagOnly(cr: U32)
    ensures !InterruptsEnabled(InterruptsOff(cr)) && InterruptsEnabled(InterruptsOn(cr))
    ensures TimerEnabled(InterruptsOff(cr), 0) == TimerEnabled(cr, 0)
    ensures TimerEnabled(InterruptsOn(cr), 0) == TimerEnabled(cr, 0)
    ensures TimerEnabled(InterruptsOff(cr), 1) == TimerEnabled(cr, 1)
    ensures TimerEnabled(InterruptsOn(cr), 1) == TimerEnabled(cr, 1)
    ensures SelectedBank(InterruptsOff(cr)) == SelectedBank(cr)
    ensures SelectedBank(InterruptsOn(cr)) == SelectedBank(cr)
  {
    InterruptFlagFields(cr);
    CrWithFields(cr, 0, cr / 0x200 % 2, cr / 0x100 % 2);
    CrWithFields(cr, 1, cr / 0x200 % 2, cr / 0x100 % 2);
  }

  /** Clearing bit 3 and then setting it is setting it; setting and then clearing is clearing. */
  lemma {:induction false} InterruptFlagIdempotent(cr: U32)
    ensures InterruptsOn(InterruptsOff(cr)) == InterruptsOn(cr)
    ensures InterruptsOff(InterruptsOn(cr)) == InterruptsOff(cr)
  {
    InterruptFlagOnly(cr);
  }

  /** DTI a and ETI a clear and set the enable bit of timer `a` and nothing else: the other
      timer's bit, the global interrupt bit and the selected bank stay as they were. */
  lemma {:induction false} TimerFlagOnly(cr: U32, a: int)
    requires 0 <= a <= 1
    ensures !TimerEnabled(TimerOff(cr, a), a) && TimerEnabled(TimerOn(cr, a), a)
    ensures TimerEnabled(TimerOff(cr, a), 1 - a) == TimerEnabled(cr, 1 - a)
    ensures TimerEnabled(TimerOn(cr, a), 1 - a) == TimerEnabled(cr, 1 - a)
    ensures InterruptsEnabled(TimerOff(cr, a)) == InterruptsEnabled(cr)
    ensures InterruptsEnabled(TimerOn(cr, a)) == InterruptsEnabled(cr)
    ensures SelectedBank(TimerOff(cr, a)) == SelectedBank(cr)
    ensures SelectedBank(TimerOn(cr, a)) == SelectedBank(cr)
  {
    TimerFlagFields(cr, a);
    var ie, t1, t0 := cr / 8 % 2, cr / 0x200 % 2, cr / 0x100 % 2;
    if a == 0 {
      CrWithFields(cr, ie, t1, 0);
      CrWithFields(cr, ie, t1, 1);
    } else {
      CrWithFields(cr, ie, 0, t0);
      CrWithFields(cr, ie, 1, t0);
    }
  }
}
