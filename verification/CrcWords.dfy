/** One step of the checksum register, as a map on words of 32 bits. */
module CrcWords {
  function CrcStep(crc: bv32): bv32 {
    (crc >> 1) ^ (if crc & 1 == 1 then 0xedb8_8320 else 0)
  }

  function One(b: bool): bv32 { if b then 1 else 0 }

  function Plus(a: bv32, b: bv32): bv32 { a ^ b }

  /** A bit below a word. */
  function Above(bit: bool, rest: bv32): bv32 { One(bit) | (rest << 1) }

  predicate Inside(w: bv32, mask: bv32) { w & !mask == 0 }

  const ALL: bv32 := 0xffff_ffff

  lemma Neutral(state: bv32)
    ensures Plus(state, 0) == state
  {
  }

  lemma PlusTells(state: bv32, v: bv32, w: bv32)
    requires v != w
    ensures Plus(state, v) != Plus(state, w) && Plus(v, state) != Plus(w, state)
  {
  }

  /** The highest bit of the generator tells what a step shifted out. */
  function StepBack(crc: bv32): bv32 {
    if crc & 0x8000_0000 == 0 then crc << 1 else ((crc ^ 0xedb8_8320) << 1) | 1
  }

  lemma StepUndone(x: bv32)
    ensures StepBack(CrcStep(x)) == x
  {
  }

  lemma StepTells(x: bv32, y: bv32)
    requires x != y
    ensures CrcStep(x) != CrcStep(y)
  {
    hide CrcStep, StepBack;
    StepUndone(x);
    StepUndone(y);
  }

  function Double(w: bv32): bv32 { w << 1 }

  lemma OneIsBit(b: bool)
    ensures One(b) <= 1
  {
  }

  lemma AboveIsSum(bit: bool, rest: bv32)
    ensures Above(bit, rest) == Plus(One(bit), Double(rest))
  {
    LowIsFree(if bit then 1 else 0, rest);
  }

  lemma LowIsFree(bit: bv32, rest: bv32)
    requires bit <= 1
    ensures bit | (rest << 1) == bit ^ (rest << 1)
  {
  }

  lemma PlusAssociates(a: bv32, b: bv32, c: bv32)
    ensures Plus(a, Plus(b, c)) == Plus(Plus(a, b), c)
  {
  }

  lemma InsideIsShort(w: bv32)
    requires Inside(w, 0x7fff_ffff)
    ensures w & 0x8000_0000 == 0
  {
  }

  lemma DoubleSteps(state: bv32, w: bv32)
    requires w & 0x8000_0000 == 0
    ensures CrcStep(Plus(state, Double(w))) == Plus(CrcStep(state), w)
  {
    hide CrcStep;
    EvenSteps(state, w);
  }

  lemma EvenSteps(state: bv32, w: bv32)
    requires w & 0x8000_0000 == 0
    ensures CrcStep(state ^ (w << 1)) == CrcStep(state) ^ w
  {
  }

  /** A step shifts what stands above the lowest bit, and is linear in it. */
  lemma StepShifts(state: bv32, bit: bool, rest: bv32)
    requires Inside(rest, 0x7fff_ffff)
    ensures CrcStep(Plus(state, Above(bit, rest))) == Plus(CrcStep(Plus(state, One(bit))), rest)
  {
    hide CrcStep, Plus, One, Double, Above, Inside;
    AboveIsSum(bit, rest);
    PlusAssociates(state, One(bit), Double(rest));
    InsideIsShort(rest);
    DoubleSteps(Plus(state, One(bit)), rest);
  }

  lemma ShiftedMask(w: bv32, mask: bv32, bit: bv32)
    requires bit <= 1 && w & !mask == 0
    ensures (bit | (w << 1)) & !(1 | (mask << 1)) == 0
  {
  }

  lemma InsideStep(w: bv32, mask: bv32, bit: bool)
    requires Inside(w, mask)
    ensures Inside(Above(bit, w), Above(true, mask))
  {
    OneIsBit(bit);
    ShiftedMask(w, mask, One(bit));
  }

  lemma InsideLater(w: bv32, mask: bv32, large: bv32)
    requires Inside(w, mask) && Inside(mask, large)
    ensures Inside(w, large)
  {
  }

  lemma ShiftTells(a: bv32, v: bv32, b: bv32, w: bv32)
    requires a <= 1 && b <= 1 && v & !0x7fff_ffff == 0 && w & !0x7fff_ffff == 0
    requires a | (v << 1) == b | (w << 1)
    ensures a == b && v == w
  {
  }

  lemma AboveTells(a: bool, v: bv32, b: bool, w: bv32)
    requires Inside(v, 0x7fff_ffff) && Inside(w, 0x7fff_ffff) && (a != b || v != w)
    ensures Above(a, v) != Above(b, w)
  {
    if Above(a, v) == Above(b, w) {
      ShiftTells(One(a), v, One(b), w);
    }
  }
}
