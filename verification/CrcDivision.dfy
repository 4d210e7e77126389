/**
 What the checksum of a frame is: the remainder of the message polynomial by the
 generator of CRC-32, and what damage it cannot miss.
 */
module CrcDivision {
  import opened Bytes
  import opened CrcWords
  import opened Crc

  type Bits = seq<bool>

  // ---------------------------------------------------------------------
  // Bits
  // ---------------------------------------------------------------------

  /** The bits of a byte, the lowest first. */
  function LowByte(w: bv32): (bits: Bits)
    ensures |bits| == 8
  {
    [w & 1 == 1, w & 2 == 2, w & 4 == 4, w & 8 == 8, w & 16 == 16, w & 32 == 32, w & 64 == 64, w & 128 == 128]
  }

  /** The bits of a byte string as they enter the register. */
  function BitsOf(bytes: seq<byte>): (bits: Bits)
    ensures |bits| == 8 * |bytes|
  {
    if bytes == [] then [] else BitsOf(bytes[..|bytes| - 1]) + LowByte(Wide(bytes[|bytes| - 1]))
  }

  /** The register when every bit was xored in and followed by a step. */
  function Feed(state: bv32, bits: Bits): bv32 {
    if bits == [] then state else CrcStep(Plus(Feed(state, bits[..|bits| - 1]), One(bits[|bits| - 1])))
  }

  lemma {:induction false} FeedJoin(state: bv32, a: Bits, b: Bits)
    ensures Feed(state, a + b) == Feed(Feed(state, a), b)
  {
    hide CrcStep, One, Plus;
    if b == [] {
      assert a + b == a;
    } else {
      assert (a + b)[..|a + b| - 1] == a + b[..|b| - 1];
      FeedJoin(state, a, b[..|b| - 1]);
    }
  }

  lemma {:induction false} StepsFront(x: bv32, steps: nat)
    requires steps > 0
    ensures CrcSteps(x, steps) == CrcSteps(CrcStep(x), steps - 1)
  {
    hide CrcStep;
    if steps > 1 {
      StepsFront(x, steps - 1);
    }
  }

  lemma {:induction false} StepsTell(x: bv32, y: bv32, steps: nat)
    requires x != y
    ensures CrcSteps(x, steps) != CrcSteps(y, steps)
  {
    hide CrcStep;
    if steps > 0 {
      StepsTell(x, y, steps - 1);
      StepTells(CrcSteps(x, steps - 1), CrcSteps(y, steps - 1));
    }
  }

  /** Registers that differ still differ after the same bits. */
  lemma {:induction false} FeedTells(x: bv32, y: bv32, bits: Bits)
    requires x != y
    ensures Feed(x, bits) != Feed(y, bits)
  {
    hide CrcStep, One, Plus;
    if bits != [] {
      var n := |bits| - 1;
      FeedTells(x, y, bits[..n]);
      PlusTells(One(bits[n]), Feed(x, bits[..n]), Feed(y, bits[..n]));
      StepTells(Plus(Feed(x, bits[..n]), One(bits[n])), Plus(Feed(y, bits[..n]), One(bits[n])));
    }
  }

  // ---------------------------------------------------------------------
  // Up to 32 bits at once
  // ---------------------------------------------------------------------

  /** Up to 32 bits as a number, the first one lowest. */
  function Word(bits: Bits): bv32 {
    if bits == [] then 0 else Above(bits[0], Word(bits[1..]))
  }

  function Mask(n: nat): bv32 {
    if n == 0 then 0 else Above(true, Mask(n - 1))
  }

  lemma {:induction false} WordFits(bits: Bits)
    ensures Inside(Word(bits), Mask(|bits|))
  {
    hide Above, Inside;
    if bits == [] {
      assert Inside(0, 0) by { NothingInside(0); }
    } else {
      WordFits(bits[1..]);
      InsideStep(Word(bits[1..]), Mask(|bits| - 1), bits[0]);
    }
  }

  lemma NothingInside(mask: bv32)
    ensures Inside(0, mask)
  {
  }

  lemma {:induction false} MaskGrows(n: nat, more: nat)
    ensures Inside(Mask(n), Mask(n + more))
  {
    hide Above, Inside;
    if n == 0 {
      NothingInside(Mask(more));
    } else {
      MaskGrows(n - 1, more);
      InsideStep(Mask(n - 1), Mask(n - 1 + more), true);
    }
  }

  lemma Mask31()
    ensures Mask(31) == 0x7fff_ffff
  {
    assert Mask(8) == 0xff;
    assert Mask(16) == 0xffff;
    assert Mask(24) == 0xff_ffff;
  }

  /** The word of fewer than 32 bits leaves the highest bit free. */
  lemma WordIsShort(bits: Bits)
    requires |bits| < 32
    ensures Inside(Word(bits), 0x7fff_ffff)
  {
    hide Word, Inside, Mask;
    WordFits(bits);
    MaskGrows(|bits|, 31 - |bits|);
    Mask31();
    InsideLater(Word(bits), Mask(|bits|), 0x7fff_ffff);
  }

  lemma {:induction false} WordTells(u: Bits, v: Bits)
    requires |u| == |v| <= 32 && u != v
    ensures Word(u) != Word(v)
  {
    hide Above, Inside;
    WordIsShort(u[1..]);
    WordIsShort(v[1..]);
    if u[1..] != v[1..] {
      WordTells(u[1..], v[1..]);
    } else {
      assert u == [u[0]] + u[1..] && v == [v[0]] + v[1..];
    }
    AboveTells(u[0], Word(u[1..]), v[0], Word(v[1..]));
  }

  lemma FeedFront(state: bv32, bits: Bits)
    requires bits != []
    ensures Feed(state, bits) == Feed(CrcStep(Plus(state, One(bits[0]))), bits[1..])
  {
    hide CrcStep, One, Plus;
    assert bits == [bits[0]] + bits[1..];
    FeedJoin(state, [bits[0]], bits[1..]);
    assert [bits[0]][..0] == [];
  }

  /** Feeding up to 32 bits is xoring their word in and stepping as often. */
  lemma {:induction false} FeedWord(state: bv32, bits: Bits)
    requires |bits| <= 32
    ensures Feed(state, bits) == CrcSteps(Plus(state, Word(bits)), |bits|)
    decreases |bits|
  {
    hide CrcStep, One, Plus, Above, Inside;
    if bits == [] {
      Neutral(state);
    } else {
      WordIsShort(bits[1..]);
      StepShifts(state, bits[0], Word(bits[1..]));
      StepsFront(Plus(state, Word(bits)), |bits|);
      FeedFront(state, bits);
      FeedWord(CrcStep(Plus(state, One(bits[0]))), bits[1..]);
    }
  }

  lemma WordFront(bit: bool, rest: Bits)
    ensures Word([bit] + rest) == Above(bit, Word(rest))
  {
    hide Above;
    assert ([bit] + rest)[1..] == rest;
  }

  lemma FourFront(a: bool, b: bool, c: bool, d: bool, rest: Bits)
    ensures Word([a, b, c, d] + rest) == Above(a, Above(b, Above(c, Above(d, Word(rest)))))
  {
    hide Above, Word;
    WordFront(d, rest);
    WordFront(c, [d] + rest);
    WordFront(b, [c] + ([d] + rest));
    WordFront(a, [b] + ([c] + ([d] + rest)));
    assert [a, b, c, d] + rest == [a] + ([b] + ([c] + ([d] + rest)));
  }

  lemma NoWord()
    ensures Word([]) == 0
  {
  }

  function Packed(a: bool, b: bool, c: bool, d: bool, e: bool, f: bool, g: bool, h: bool): bv32 {
    Above(a, Above(b, Above(c, Above(d, Above(e, Above(f, Above(g, Above(h, 0))))))))
  }

  lemma ByteWord(a: bool, b: bool, c: bool, d: bool, e: bool, f: bool, g: bool, h: bool)
    ensures Word([a, b, c, d, e, f, g, h]) == Packed(a, b, c, d, e, f, g, h)
  {
    hide Above, Word;
    NoWord();
    FourFront(e, f, g, h, []);
    FourFront(a, b, c, d, [e, f, g, h]);
    assert [a, b, c, d, e, f, g, h] == [a, b, c, d] + [e, f, g, h] && [e, f, g, h] == [e, f, g, h] + [];
  }

  lemma EightBits(w: bv32)
    requires w & 0xffff_ff00 == 0
    ensures w == Packed(w & 1 == 1, w & 2 == 2, w & 4 == 4, w & 8 == 8, w & 16 == 16, w & 32 == 32, w & 64 == 64, w & 128 == 128)
  {
  }

  lemma WordOfByte(w: bv32)
    requires w & 0xffff_ff00 == 0
    ensures Word(LowByte(w)) == w
  {
    hide Word, Packed;
    EightBits(w);
    ByteWord(w & 1 == 1, w & 2 == 2, w & 4 == 4, w & 8 == 8, w & 16 == 16, w & 32 == 32, w & 64 == 64, w & 128 == 128);
  }

  lemma WideIsByte(b: byte)
    ensures Wide(b) & 0xffff_ff00 == 0
  {
  }

  lemma MixIsPlus(state: bv32, b: byte)
    ensures Mix(state, b) == Plus(state, Wide(b))
  {
  }

  /** The bytes enter bit by bit. */
  lemma {:induction false} StateIsFed(bytes: seq<byte>)
    ensures CrcState(bytes) == Feed(ALL, BitsOf(bytes))
  {
    hide CrcStep, LowByte, Wide, Mix, Plus, One, Word;
    if bytes != [] {
      var rest, last := bytes[..|bytes| - 1], bytes[|bytes| - 1];
      StateIsFed(rest);
      FeedJoin(ALL, BitsOf(rest), LowByte(Wide(last)));
      WideIsByte(last);
      WordOfByte(Wide(last));
      FeedWord(CrcState(rest), LowByte(Wide(last)));
      MixIsPlus(CrcState(rest), last);
    }
  }

  // ---------------------------------------------------------------------
  // Damage
  // ---------------------------------------------------------------------

  /** Bit strings that differ only inside 32 consecutive bits leave different registers. */
  lemma BurstTells(state: bv32, m: Bits, n: Bits, at: nat, length: nat)
    requires |m| == |n| && m != n && length <= 32 && at + length <= |m|
    requires m[..at] == n[..at] && m[at + length..] == n[at + length..]
    ensures Feed(state, m) != Feed(state, n)
  {
    hide CrcStep, Word, Feed, Plus;
    var u, v := m[at..at + length], n[at..at + length];
    assert m == m[..at] + u + m[at + length..] && n == n[..at] + v + n[at + length..];
    FeedJoin(state, m[..at] + u, m[at + length..]);
    FeedJoin(state, n[..at] + v, n[at + length..]);
    FeedJoin(state, m[..at], u);
    FeedJoin(state, n[..at], v);
    var mid := Feed(state, m[..at]);
    FeedWord(mid, u);
    FeedWord(mid, v);
    WordTells(u, v);
    PlusTells(mid, Word(u), Word(v));
    StepsTell(Plus(mid, Word(u)), Plus(mid, Word(v)), length);
    FeedTells(Feed(mid, u), Feed(mid, v), m[at + length..]);
  }

  lemma WideTells(a: byte, b: byte)
    requires a != b
    ensures Wide(a) != Wide(b)
  {
    ByteReturns(a);
    ByteReturns(b);
    WidenTells(a as bv8, b as bv8);
  }

  /** Counting up to a byte. */
  function Counted(n: nat): bv8 { if n == 0 then 0 else Counted(n - 1) + 1 }

  lemma CountUp(x: bv8)
    requires x as int < 255
    ensures (x + 1) as int == x as int + 1
  {
    assert x < 255;
  }

  lemma {:induction false} CountedIs(n: nat)
    requires n < 256
    ensures Counted(n) as int == n
  {
    if n > 0 {
      CountedIs(n - 1);
      CountUp(Counted(n - 1));
    }
  }

  lemma Returns(x: bv8)
    ensures (x as int) as bv8 == x
  {
  }

  lemma ByteReturns(b: byte)
    ensures (b as bv8) as int == b
  {
    CountedIs(b);
    Returns(Counted(b));
  }

  lemma WidenTells(a: bv8, b: bv8)
    requires a != b
    ensures a as bv32 != b as bv32
  {
  }

  lemma {:induction false} BitsTell(a: seq<byte>, b: seq<byte>)
    requires |a| == |b| && a != b
    ensures BitsOf(a) != BitsOf(b)
  {
    hide LowByte, Wide, Word;
    var n := |a| - 1;
    var p, q := Wide(a[n]), Wide(b[n]);
    assert a == a[..n] + [a[n]] && b == b[..n] + [b[n]];
    if a[n] != b[n] {
      WideTells(a[n], b[n]);
      WideIsByte(a[n]);
      WideIsByte(b[n]);
      WordOfByte(p);
      WordOfByte(q);
      assert BitsOf(a)[8 * n..] == LowByte(p) && BitsOf(b)[8 * n..] == LowByte(q);
    } else {
      BitsTell(a[..n], b[..n]);
      assert BitsOf(a)[..8 * n] == BitsOf(a[..n]) && BitsOf(b)[..8 * n] == BitsOf(b[..n]);
    }
  }

  /** The strings agree outside `length` bits from bit `at` on. */
  predicate AgreeOutside(a: seq<byte>, b: seq<byte>, at: nat, length: nat) {
    && |a| == |b| && at + length <= 8 * |a|
    && BitsOf(a)[..at] == BitsOf(b)[..at] && BitsOf(a)[at + length..] == BitsOf(b)[at + length..]
  }

  /** Damage inside 32 consecutive bits always changes the checksum. */
  lemma BurstIsCaught(a: seq<byte>, b: seq<byte>, at: nat, length: nat)
    requires a != b && length <= 32 && AgreeOutside(a, b, at, length)
    ensures Crc32(a) != Crc32(b)
  {
    hide CrcState, Feed, BitsOf;
    BitsTell(a, b);
    BurstTells(ALL, BitsOf(a), BitsOf(b), at, length);
    StateIsFed(a);
    StateIsFed(b);
    PlusTells(ALL, CrcState(a), CrcState(b));
  }

  lemma {:induction false} BitsJoin(a: seq<byte>, b: seq<byte>)
    ensures BitsOf(a + b) == BitsOf(a) + BitsOf(b)
  {
    hide LowByte, Wide;
    if b == [] {
      assert a + b == a;
    } else {
      assert (a + b)[..|a + b| - 1] == a + b[..|b| - 1];
      BitsJoin(a, b[..|b| - 1]);
    }
  }

  /** Four neighbouring bytes are 32 consecutive bits. */
  lemma BytesAreBits(a: seq<byte>, b: seq<byte>, at: nat, count: nat)
    requires |a| == |b| && at + count <= |a| && a[..at] == b[..at] && a[at + count..] == b[at + count..]
    ensures AgreeOutside(a, b, 8 * at, 8 * count)
  {
    hide LowByte, Wide, BitsOf;
    assert a == a[..at] + a[at..at + count] + a[at + count..] && b == b[..at] + b[at..at + count] + b[at + count..];
    BitsJoin(a[..at] + a[at..at + count], a[at + count..]);
    BitsJoin(b[..at] + b[at..at + count], b[at + count..]);
    BitsJoin(a[..at], a[at..at + count]);
    BitsJoin(b[..at], b[at..at + count]);
    assert BitsOf(a)[8 * at + 8 * count..] == BitsOf(a[at + count..]) && BitsOf(b)[8 * at + 8 * count..] == BitsOf(b[at + count..]);
    assert BitsOf(a)[..8 * at] == BitsOf(a[..at]) && BitsOf(b)[..8 * at] == BitsOf(b[..at]);
  }

  /** A single wrong byte always changes the checksum. */
  lemma WrongByteIsCaught(a: seq<byte>, b: seq<byte>, i: nat)
    requires i < |a| == |b| && a[i] != b[i] && a[..i] == b[..i] && a[i + 1..] == b[i + 1..]
    ensures Crc32(a) != Crc32(b)
  {
    hide Crc32, AgreeOutside;
    BytesAreBits(a, b, i, 1);
    BurstIsCaught(a, b, 8 * i, 8);
  }

  // ---------------------------------------------------------------------
  // Polynomials over the field of two elements, the highest power first
  // ---------------------------------------------------------------------

  function Sum(a: Bits, b: Bits): (sum: Bits)
    requires |a| == |b|
    ensures |sum| == |a|
  {
    seq(|a|, i requires 0 <= i < |a| => a[i] != b[i])
  }

  function Zeros(n: nat): (z: Bits)
    ensures |z| == n
  {
    seq(n, _ => false)
  }

  function Ones(n: nat): (z: Bits)
    ensures |z| == n
  {
    seq(n, _ => true)
  }

  /** The powers with coefficient one in the generator of CRC-32, section 3.2.9 of IEEE 802.3. */
  predicate InGenerator(power: nat) {
    power in {0, 1, 2, 4, 5, 7, 8, 10, 11, 12, 16, 22, 23, 26, 32}
  }

  function Generator(): (g: Bits)
    ensures |g| == 33
  {
    seq(33, i requires 0 <= i < 33 => InGenerator(32 - i))
  }

  /** The product of a polynomial and the generator. */
  function Times(q: Bits): (product: Bits)
    ensures |product| == |q| + 32
  {
    if q == [] then Zeros(32)
    else
      var n := |q| - 1;
      Sum(Times(q[..n]) + [false], Zeros(n) + if q[n] then Generator() else Zeros(33))
  }

  /** The message times x to the 32, its first 32 coefficients complemented. */
  function Dividend(m: Bits): (d: Bits)
    ensures |d| == |m| + 32
  {
    Sum(m + Zeros(32), Ones(32) + Zeros(|m|))
  }

  /** Bit k of a register, which stands for the power 31 - k. */
  predicate Coefficient(state: bv32, k: nat) {
    if k == 0 then state & 1 == 1 else Coefficient(state >> 1, k - 1)
  }

  /** The polynomial a register holds. */
  function Register(state: bv32): (r: Bits)
    ensures |r| == 32
  {
    seq(32, k requires 0 <= k < 32 => Coefficient(state, k))
  }

  function Half(w: bv32): bv32 { w >> 1 }

  lemma SumBits(a: bv32, b: bv32)
    ensures Half(Plus(a, b)) == Plus(Half(a), Half(b))
    ensures Plus(a, b) & 1 == 1 <==> (a & 1 == 1) != (b & 1 == 1)
  {
  }

  lemma {:induction false} SumCoefficient(a: bv32, b: bv32, k: nat)
    ensures Coefficient(Plus(a, b), k) <==> Coefficient(a, k) != Coefficient(b, k)
  {
    hide Plus;
    SumBits(a, b);
    if k > 0 {
      SumCoefficient(Half(a), Half(b), k - 1);
    }
  }

  lemma {:induction false} NoCoefficient(k: nat)
    ensures !Coefficient(0, k)
  {
    if k > 0 {
      NoCoefficient(k - 1);
    }
  }

  lemma OneCoefficient(b: bool, k: nat)
    ensures Coefficient(One(b), k) <==> b && k == 0
  {
    NoCoefficient(k);
    if k > 0 {
      NoCoefficient(k - 1);
    }
  }

  lemma FourCoefficients(w: bv32)
    ensures Coefficient(w, 0) == (w & 1 == 1) && Coefficient(w, 1) == (w & 2 == 2)
    ensures Coefficient(w, 2) == (w & 4 == 4) && Coefficient(w, 3) == (w & 8 == 8)
  {
    assert Coefficient(w, 1) == Coefficient(w >> 1, 0);
    assert Coefficient(w, 2) == Coefficient(w >> 1, 1) == Coefficient((w >> 1) >> 1, 0);
    assert Coefficient(w, 3) == Coefficient(w >> 1, 2) == Coefficient((w >> 1) >> 1, 1) == Coefficient(((w >> 1) >> 1) >> 1, 0);
  }

  lemma FourShifts(w: bv32, k: nat)
    ensures Coefficient(w, k + 4) == Coefficient(w >> 4, k)
  {
    assert Coefficient(w, k + 4) == Coefficient(w >> 1, k + 3) == Coefficient((w >> 1) >> 1, k + 2);
    assert Coefficient((w >> 1) >> 1, k + 2) == Coefficient(((w >> 1) >> 1) >> 1, k + 1) == Coefficient((((w >> 1) >> 1) >> 1) >> 1, k);
  }

  /** Bit k of a word by its hexadecimal digits, the lowest first. */
  lemma DigitCoefficients(w: bv32, k: nat)
    ensures Coefficient(w, k) == if k < 4 then (w & 1 == 1 && k == 0) || (w & 2 == 2 && k == 1) || (w & 4 == 4 && k == 2) || (w & 8 == 8 && k == 3)
                                 else Coefficient(w >> 4, k - 4)
  {
    FourCoefficients(w);
    if k >= 4 {
      FourShifts(w, k - 4);
    }
  }

  lemma GeneratorWord(k: nat)
    requires k < 32
    ensures Coefficient(0xedb8_8320, k) <==> InGenerator(31 - k)
  {
    hide Coefficient;
    DigitCoefficients(0xedb8_8320, k);
    if k >= 4 { DigitCoefficients(0xedb_8832, k - 4); }
    if k >= 8 { DigitCoefficients(0xed_b883, k - 8); }
    if k >= 12 { DigitCoefficients(0xe_db88, k - 12); }
    if k >= 16 { DigitCoefficients(0xedb8, k - 16); }
    if k >= 20 { DigitCoefficients(0xedb, k - 20); }
    if k >= 24 { DigitCoefficients(0xed, k - 24); }
    if k >= 28 { DigitCoefficients(0xe, k - 28); }
  }

  lemma FirstRegister(k: nat)
    requires k < 32
    ensures Coefficient(ALL, k)
  {
    hide Coefficient;
    DigitCoefficients(0xffff_ffff, k);
    if k >= 4 { DigitCoefficients(0xfff_ffff, k - 4); }
    if k >= 8 { DigitCoefficients(0xff_ffff, k - 8); }
    if k >= 12 { DigitCoefficients(0xf_ffff, k - 12); }
    if k >= 16 { DigitCoefficients(0xffff, k - 16); }
    if k >= 20 { DigitCoefficients(0xfff, k - 20); }
    if k >= 24 { DigitCoefficients(0xff, k - 24); }
    if k >= 28 { DigitCoefficients(0xf, k - 28); }
  }

  lemma AllShiftedOut(w: bv32)
    ensures ((((((((w >> 4) >> 4) >> 4) >> 4) >> 4) >> 4) >> 4) >> 4) == 0
  {
  }

  lemma LastCoefficient(w: bv32)
    ensures !Coefficient(w, 32)
  {
    hide Coefficient;
    var a := w >> 4;
    var b := a >> 4;
    var c := b >> 4;
    var d := c >> 4;
    var e := d >> 4;
    var f := e >> 4;
    var g := f >> 4;
    FourShifts(w, 28);
    FourShifts(a, 24);
    FourShifts(b, 20);
    FourShifts(c, 16);
    FourShifts(d, 12);
    FourShifts(e, 8);
    FourShifts(f, 4);
    FourShifts(g, 0);
    AllShiftedOut(w);
    NoCoefficient(0);
  }

  lemma StepIsSum(crc: bv32)
    ensures CrcStep(crc) == Plus(Half(crc), if crc & 1 == 1 then 0xedb8_8320 else 0)
  {
  }

  /** A step divides once more: it shifts, and takes the generator off when the bit shifted out is one. */
  lemma StepDivides(state: bv32, bit: bool, k: nat)
    requires k < 32
    ensures Coefficient(CrcStep(Plus(state, One(bit))), k) <==>
            Coefficient(state, k + 1) != (Coefficient(state, 0) != bit && InGenerator(31 - k))
  {
    hide CrcStep, Plus, One, InGenerator;
    var y := Plus(state, One(bit));
    StepIsSum(y);
    SumCoefficient(state, One(bit), 0);
    SumCoefficient(state, One(bit), k + 1);
    OneCoefficient(bit, 0);
    OneCoefficient(bit, k + 1);
    SumCoefficient(Half(y), if y & 1 == 1 then 0xedb8_8320 else 0, k);
    GeneratorWord(k);
    NoCoefficient(k);
  }

  /** The quotient, one coefficient for each bit of the message. */
  function Quotient(m: Bits): (q: Bits)
    ensures |q| == |m|
  {
    if m == [] then []
    else
      var n := |m| - 1;
      Quotient(m[..n]) + [Coefficient(Feed(ALL, m[..n]), 0) != m[n]]
  }

  /** One more bit of the message. */
  lemma DividendNext(m: Bits, bit: bool)
    ensures Dividend(m + [bit]) == Sum(Dividend(m) + [false], Zeros(|m|) + ([bit] + Zeros(32)))
  {
  }

  lemma TimesNext(q: Bits, c: bool)
    ensures Times(q + [c]) == Sum(Times(q) + [false], Zeros(|q|) + if c then Generator() else Zeros(33))
  {
    hide Sum, Generator, Zeros, InGenerator;
    assert (q + [c])[..|q|] == q;
  }

  /** The register with one power more below and the new bit on top is the new register and perhaps the generator. */
  lemma RegisterNext(state: bv32, bit: bool)
    ensures var c := Coefficient(state, 0) != bit;
            Sum(Register(state) + [false], [bit] + Zeros(32)) ==
            Sum(if c then Generator() else Zeros(33), [false] + Register(CrcStep(Plus(state, One(bit)))))
  {
    hide Coefficient, CrcStep, Plus, One, InGenerator;
    var c := Coefficient(state, 0) != bit;
    var next := CrcStep(Plus(state, One(bit)));
    LastCoefficient(state);
    assert InGenerator(32) by { HighestPower(); }
    forall i | 0 <= i < 33
      ensures Sum(Register(state) + [false], [bit] + Zeros(32))[i] ==
              Sum(if c then Generator() else Zeros(33), [false] + Register(next))[i]
    {
      if i > 0 {
        StepDivides(state, bit, i - 1);
      }
    }
  }

  lemma HighestPower()
    ensures InGenerator(32)
  {
  }

  lemma Regrouped(n: nat, d: Bits, t: Bits, r: Bits, b: Bits, g: Bits, next: Bits)
    requires |d| == |t| == n + 33 && |r| == |b| == |g| == |next| == 33
    requires d == Sum(t, Zeros(n) + r) && Sum(r, b) == Sum(g, next)
    ensures Sum(d, Zeros(n) + b) == Sum(Sum(t, Zeros(n) + g), Zeros(n) + next)
  {
    forall i | 0 <= i < n + 33
      ensures Sum(d, Zeros(n) + b)[i] == Sum(Sum(t, Zeros(n) + g), Zeros(n) + next)[i]
    {
      if i >= n {
        assert Sum(r, b)[i - n] == Sum(g, next)[i - n];
      }
    }
  }

  lemma SumShifted(t: Bits, n: nat, r: Bits)
    requires |t| == n + |r|
    ensures Sum(t, Zeros(n) + r) + [false] == Sum(t + [false], Zeros(n) + (r + [false]))
  {
  }

  /** The register is the remainder of the message so far. */
  lemma {:induction false} FeedDivides(m: Bits)
    ensures Dividend(m) == Sum(Times(Quotient(m)), Zeros(|m|) + Register(Feed(ALL, m)))
  {
    hide Coefficient, CrcStep, Plus, One, InGenerator, Sum, Dividend, Times, Generator, Register, Zeros;
    if m == [] {
      NothingDivides();
    } else {
      var n := |m| - 1;
      var rest, bit := m[..n], m[n];
      var state := Feed(ALL, rest);
      var c := Coefficient(state, 0) != bit;
      var g := if c then Generator() else Zeros(33);
      var next := [false] + Register(Feed(ALL, m));
      FeedDivides(rest);
      assert m == rest + [bit];
      DividendNext(rest, bit);
      TimesNext(Quotient(rest), c);
      RegisterNext(state, bit);
      SumShifted(Times(Quotient(rest)), n, Register(state));
      Regrouped(n, Dividend(rest) + [false], Times(Quotient(rest)) + [false], Register(state) + [false], [bit] + Zeros(32), g, next);
      assert Zeros(n) + next == Zeros(n + 1) + Register(Feed(ALL, m)) by { ZeroMore(n); assert Zeros(n) + next == Zeros(n) + [false] + Register(Feed(ALL, m)); }
    }
  }

  lemma ZeroMore(n: nat)
    ensures Zeros(n) + [false] == Zeros(n + 1)
  {
  }

  lemma NothingDivides()
    ensures Dividend([]) == Sum(Times([]), Zeros(0) + Register(Feed(ALL, [])))
  {
    hide Coefficient;
    forall k | 0 <= k < 32 ensures Coefficient(ALL, k) {
      FirstRegister(k);
    }
  }

  lemma {:induction false} QuotientIsUnique(p: Bits, q: Bits)
    requires |p| == |q| && Times(p)[..|p|] == Times(q)[..|q|]
    ensures p == q
  {
    hide Times;
    if p != [] {
      var n := |p| - 1;
      var p0, q0 := p[..n], q[..n];
      assert p == p0 + [p[n]] && q == q0 + [q[n]];
      TimesFront(p0, p[n]);
      TimesFront(q0, q[n]);
      assert Times(p)[..n] == Times(p)[..n + 1][..n] && Times(q)[..n] == Times(q)[..n + 1][..n];
      QuotientIsUnique(p0, q0);
      assert Times(p)[..n + 1][n] == Times(q)[..n + 1][n];
    }
  }

  /** A new lowest coefficient of the factor changes no higher place of the product. */
  lemma TimesFront(q: Bits, c: bool)
    ensures Times(q + [c])[..|q|] == Times(q)[..|q|]
    ensures Times(q + [c])[|q|] <==> Times(q)[|q|] != c
  {
    hide InGenerator, Times, Sum, Generator, Zeros;
    TimesNext(q, c);
    var g := if c then Generator() else Zeros(33);
    FrontCoefficient();
    SumFront(Times(q) + [false], |q|, g);
    assert (Times(q) + [false])[..|q|] == Times(q)[..|q|];
  }

  lemma FrontCoefficient()
    ensures Generator()[0] && !Zeros(33)[0]
  {
  }

  lemma SumFront(a: Bits, n: nat, g: Bits)
    requires |a| == n + |g| && g != []
    ensures Sum(a, Zeros(n) + g)[..n] == a[..n] && Sum(a, Zeros(n) + g)[n] == (a[n] != g[0])
  {
  }

  /** Only one remainder of degree below 32 fits. */
  lemma RemainderIsUnique(p: Bits, q: Bits, r: Bits, s: Bits)
    requires |p| == |q| && |r| == |s| == 32
    requires Sum(Times(p), Zeros(|p|) + r) == Sum(Times(q), Zeros(|q|) + s)
    ensures p == q && r == s
  {
    hide Times;
    var n := |p|;
    var a, b := Sum(Times(p), Zeros(n) + r), Sum(Times(q), Zeros(n) + s);
    forall i | 0 <= i < n ensures Times(p)[i] == Times(q)[i] {
      assert a[i] == b[i];
    }
    assert Times(p)[..n] == Times(q)[..n];
    QuotientIsUnique(p, q);
    forall i | 0 <= i < 32 ensures r[i] == s[i] {
      assert a[n + i] == b[n + i];
    }
  }

  /**
   The checksum is the complement of the remainder that the message, times x to
   the 32 and with its first 32 coefficients complemented, leaves when it is
   divided by the generator.
   */
  lemma ChecksumIsRemainder(bytes: seq<byte>)
    ensures var m := BitsOf(bytes);
            exists q: Bits :: |q| == |m| && Dividend(m) == Sum(Times(q), Zeros(|m|) + Sum(Ones(32), Register(Crc32(bytes))))
  {
    hide Coefficient, Feed, BitsOf, CrcState, Dividend, Times, Plus;
    var m := BitsOf(bytes);
    FeedDivides(m);
    StateIsFed(bytes);
    var state := CrcState(bytes);
    assert Crc32(bytes) == Plus(ALL, state) by { ComplementIsSum(state); }
    forall k | 0 <= k < 32
      ensures Sum(Ones(32), Register(Crc32(bytes)))[k] == Register(state)[k]
    {
      SumCoefficient(ALL, state, k);
      FirstRegister(k);
    }
    assert Sum(Ones(32), Register(Crc32(bytes))) == Register(state);
  }

  lemma ComplementIsSum(state: bv32)
    ensures 0xffff_ffff ^ state == Plus(ALL, state)
  {
  }
}
