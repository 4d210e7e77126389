/** The rate 1/2 convolutional code with constraint length 7, and its puncturing. */
module ConvolutionalCode {
  import opened Arithmetic
  import opened Common

  type bit = x: int | 0 <= x < 2
  type Word = seq<bit>

  datatype Rate = Half | TwoThirds | ThreeQuarters

  const TAIL_BITS := 6
  const STATES := 64
  const SIZE_MAX := 0xFFFF_FFFF_FFFF_FFFF
  const TAIL: Word := [0, 0, 0, 0, 0, 0]

  function Pattern(rate: Rate): (p: Word)
    ensures |p| >= 2 && |p| % 2 == 0
  {
    match rate
    case Half => [1, 1]
    case TwoThirds => [1, 1, 1, 0]
    case ThreeQuarters => [1, 1, 1, 0, 0, 1]
  }

  /** True when the pattern keeps the output bit with this serial number. */
  predicate Keep(rate: Rate, serial: nat) {
    Pattern(rate)[serial % |Pattern(rate)|] == 1
  }

  // ---------------------------------------------------------------------
  // The shift register
  // ---------------------------------------------------------------------

  function FoldXor(value: bv8, shift: nat): bv8
    requires shift < 8
  {
    value ^ (value >> shift)
  }

  function Parity7(value: bv8): bv8 {
    FoldXor(FoldXor(FoldXor(value, 4), 2), 1) & 1
  }

  /** The register after the newest input entered; bit k is the input k steps ago. */
  function Register(state: nat, input: bit): nat {
    2 * state + input
  }

  function NextState(state: nat, input: bit): (next: nat)
    ensures next < STATES
  {
    Register(state, input) % STATES
  }

  function Output(register: nat, mask: bv8): bit
    requires register < 128
  {
    if Parity7((register as bv8) & mask) == 0 then 0 else 1
  }

  function First(register: nat): bit
    requires register < 128
  {
    Output(register, 0x79)
  }

  function Second(register: nat): bit
    requires register < 128
  {
    Output(register, 0x5b)
  }

  /** Folding the masked register adds up the tapped inputs modulo two. */
  lemma FirstTaps(r: nat)
    requires r < 128
    ensures First(r) == (r % 2 + r / 8 % 2 + r / 16 % 2 + r / 32 % 2 + r / 64 % 2) % 2
  {
  }

  lemma SecondTaps(r: nat)
    requires r < 128
    ensures Second(r) == (r % 2 + r / 2 % 2 + r / 8 % 2 + r / 16 % 2 + r / 64 % 2) % 2
  {
  }

  // ---------------------------------------------------------------------
  // Encoding
  // ---------------------------------------------------------------------

  function StateAfter(inputs: Word): (state: nat)
    ensures state < STATES
  {
    if inputs == [] then 0 else NextState(StateAfter(inputs[..|inputs| - 1]), inputs[|inputs| - 1])
  }

  /** The register when input number t enters. */
  function RegisterAt(inputs: Word, t: nat): (r: nat)
    requires t < |inputs|
    ensures r < 128
  {
    Register(StateAfter(inputs[..t]), inputs[t])
  }

  /** The output of the encoder before puncturing, two bits an input. */
  function Serial(inputs: Word): (s: Word)
    ensures |s| == 2 * |inputs|
  {
    if inputs == [] then []
    else
      var t := |inputs| - 1;
      Serial(inputs[..t]) + [First(RegisterAt(inputs, t)), Second(RegisterAt(inputs, t))]
  }

  function Puncture(bits: Word, rate: Rate): Word {
    if bits == [] then []
    else Puncture(bits[..|bits| - 1], rate) + if Keep(rate, |bits| - 1) then [bits[|bits| - 1]] else []
  }

  /** How many of the first `count` output bits the pattern keeps. */
  function Kept(rate: Rate, count: nat): nat {
    if count == 0 then 0 else Kept(rate, count - 1) + if Keep(rate, count - 1) then 1 else 0
  }

  lemma {:induction false} PunctureLength(bits: Word, rate: Rate)
    ensures |Puncture(bits, rate)| == Kept(rate, |bits|)
  {
    if bits != [] {
      PunctureLength(bits[..|bits| - 1], rate);
    }
  }

  /** The codeword of a data word: the tail returns the register to zero. */
  function Encode(data: Word, rate: Rate): Word {
    Puncture(Serial(data + TAIL), rate)
  }

  function FullCount(dataBits: nat): nat {
    2 * (dataBits + TAIL_BITS)
  }

  lemma EncodeLength(data: Word, rate: Rate)
    ensures |Encode(data, rate)| == Kept(rate, FullCount(|data|))
  {
    PunctureLength(Serial(data + TAIL), rate);
  }

  /** The input that entered k steps before the newest one; zero before the start. */
  function Past(inputs: Word, k: nat): bit {
    if k < |inputs| then inputs[|inputs| - 1 - k] else 0
  }

  lemma ShiftSum(x: bit, a: bit, b: bit, c: bit, d: bit, e: bit, f: bit)
    ensures (2 * (a + 2 * b + 4 * c + 8 * d + 16 * e + 32 * f) + x) % STATES ==
            x + 2 * a + 4 * b + 8 * c + 16 * d + 32 * e
  {
  }

  /** The state is the last six inputs, newest in the lowest bit. */
  lemma {:induction false} StateBits(inputs: Word)
    ensures StateAfter(inputs) == Past(inputs, 0) + 2 * Past(inputs, 1) + 4 * Past(inputs, 2) +
                                  8 * Past(inputs, 3) + 16 * Past(inputs, 4) + 32 * Past(inputs, 5)
  {
    if inputs != [] {
      var before := inputs[..|inputs| - 1];
      StateBits(before);
      assert forall k: nat :: Past(before, k) == Past(inputs, k + 1);
      ShiftSum(inputs[|inputs| - 1], Past(before, 0), Past(before, 1), Past(before, 2), Past(before, 3),
               Past(before, 4), Past(before, 5));
    }
  }

  lemma ZeroSum(a: bit, b: bit, c: bit, d: bit, e: bit, f: bit)
    ensures a + 2 * b + 4 * c + 8 * d + 16 * e + 32 * f == 0 <==> [f, e, d, c, b, a] == TAIL
  {
    assert [f, e, d, c, b, a] == TAIL ==>
        f == TAIL[0] && e == TAIL[1] && d == TAIL[2] && c == TAIL[3] && b == TAIL[4] && a == TAIL[5];
  }

  /** A path of six or more inputs ends in state zero exactly when it ends with the tail. */
  lemma ZeroStateIsTail(inputs: Word)
    requires |inputs| >= TAIL_BITS
    ensures StateAfter(inputs) == 0 <==> inputs[|inputs| - TAIL_BITS..] == TAIL
  {
    hide StateAfter;
    StateBits(inputs);
    ZeroSum(Past(inputs, 0), Past(inputs, 1), Past(inputs, 2), Past(inputs, 3), Past(inputs, 4), Past(inputs, 5));
    assert inputs[|inputs| - TAIL_BITS..] ==
        [Past(inputs, 5), Past(inputs, 4), Past(inputs, 3), Past(inputs, 2), Past(inputs, 1), Past(inputs, 0)];
  }

  // ---------------------------------------------------------------------
  // The encoder of the source
  // ---------------------------------------------------------------------

  /** The pattern starts again after every multiple of its length. */
  lemma {:induction false} KeptShift(rate: Rate, groups: nat, rest: nat)
    ensures Kept(rate, |Pattern(rate)| * groups + rest) == Kept(rate, |Pattern(rate)| * groups) + Kept(rate, rest)
    decreases rest
  {
    hide Pattern;
    if rest > 0 {
      KeptShift(rate, groups, rest - 1);
      ModAddMultiple(rest - 1, |Pattern(rate)|, groups);
      assert Keep(rate, |Pattern(rate)| * groups + (rest - 1)) == Keep(rate, rest - 1);
    }
  }

  lemma {:induction false} KeptPeriod(rate: Rate, groups: nat)
    ensures Kept(rate, |Pattern(rate)| * groups) == Kept(rate, |Pattern(rate)|) * groups
  {
    hide Pattern, Keep;
    if groups > 0 {
      KeptPeriod(rate, groups - 1);
      var length, ones := |Pattern(rate)|, Kept(rate, |Pattern(rate)|);
      KeptShift(rate, groups - 1, length);
      assert length * groups == length * (groups - 1) + length;
      assert ones * groups == ones * (groups - 1) + ones;
    }
  }

  lemma KeptTotal(rate: Rate, count: nat, groups: nat, rest: nat)
    requires count == |Pattern(rate)| * groups + rest
    ensures Kept(rate, count) == Kept(rate, |Pattern(rate)|) * groups + Kept(rate, rest)
  {
    hide Pattern, Keep, Kept;
    KeptShift(rate, groups, rest);
    KeptPeriod(rate, groups);
  }

  /** The ones among the first bits of the pattern. */
  lemma KeptOnes(rate: Rate, i: nat)
    requires i < |Pattern(rate)|
    ensures Kept(rate, i + 1) == Kept(rate, i) + Pattern(rate)[i]
  {
    assert i % |Pattern(rate)| == i;
  }

  method CountOnes(rate: Rate, first: nat) returns (ones: nat)
    requires first <= |Pattern(rate)|
    ensures ones == Kept(rate, first)
  {
    hide Pattern;
    KeptNone(rate);
    ones := 0;
    for i := 0 to first
      invariant ones == Kept(rate, i)
    {
      KeptOnes(rate, i);
      ones := ones + Pattern(rate)[i];
    }
  }

  method EncodedBits(dataBits: nat, rate: Rate) returns (count: nat)
    ensures count == if dataBits > SIZE_MAX / 2 - TAIL_BITS then 0 else Kept(rate, FullCount(dataBits))
    ensures count == 0 <==> dataBits > SIZE_MAX / 2 - TAIL_BITS
  {
    hide Kept, Pattern;
    if dataBits > SIZE_MAX / 2 - TAIL_BITS {
      return 0;
    }
    var fullCount, length := FullCount(dataBits), |Pattern(rate)|;
    var ones := CountOnes(rate, length);
    var groups, remainder := fullCount / length, fullCount % length;
    var more := CountOnes(rate, remainder);
    KeptTotal(rate, fullCount, groups, remainder);
    KeptSome(rate, fullCount);
    count := ones * groups + more;
  }

  lemma KeptNone(rate: Rate)
    ensures Kept(rate, 0) == 0
  {
  }

  lemma {:induction false} KeptSome(rate: Rate, count: nat)
    requires count >= 1
    ensures Kept(rate, count) >= 1
  {
    if count > 1 {
      KeptSome(rate, count - 1);
    }
  }

  lemma SerialPrefix(inputs: Word, t: nat)
    requires t < |inputs|
    ensures Serial(inputs[..t + 1]) ==
            Serial(inputs[..t]) + [First(RegisterAt(inputs, t)), Second(RegisterAt(inputs, t))]
    ensures StateAfter(inputs[..t + 1]) == NextState(StateAfter(inputs[..t]), inputs[t])
  {
    assert inputs[..t + 1][..t] == inputs[..t];
  }

  lemma PunctureNext(bits: Word, rate: Rate, k: nat)
    requires k < |bits|
    ensures Puncture(bits[..k + 1], rate) == Puncture(bits[..k], rate) + if Keep(rate, k) then [bits[k]] else []
  {
    assert bits[..k + 1][..k] == bits[..k];
  }

  lemma {:induction false} KeptGrows(rate: Rate, i: nat, j: nat)
    requires i <= j
    ensures Kept(rate, i) <= Kept(rate, j)
    decreases j
  {
    if i < j {
      KeptGrows(rate, i, j - 1);
    }
  }

  /** The lowest bits of values, as the source masks them. */
  function LowBits(values: seq<nat>): (word: Word)
    ensures |word| == |values| && forall i | 0 <= i < |word| :: word[i] == values[i] % 2
    ensures (forall i | 0 <= i < |values| :: values[i] < 2) ==> word == values
  {
    seq(|values|, i requires 0 <= i < |values| => values[i] % 2)
  }

  /** Encodes the lowest bits into the buffer, whose length is the capacity. */
  method EncodeBits(values: seq<nat>, rate: Rate, encoded: array<bit>) returns (status: Status, count: nat)
    modifies encoded
    ensures |values| <= SIZE_MAX / 2 - TAIL_BITS && Kept(rate, FullCount(|values|)) <= encoded.Length <==> status == Ok
    ensures status == Ok ==> count <= encoded.Length && encoded[..count] == Encode(LowBits(values), rate)
    ensures status == Ok ==> encoded[count..] == old(encoded[count..])
    ensures status != Ok ==> status == ErrCapacity && encoded[..] == old(encoded[..])
  {
    hide Kept, Keep, Pattern, First, Second, StateAfter, Serial, Puncture, LowBits;
    count := 0;
    var required := EncodedBits(|values|, rate);
    if required == 0 || encoded.Length < required {
      return ErrCapacity, 0;
    }
    ghost var inputs := LowBits(values) + TAIL;
    ghost var start := encoded[..];
    var state, serial := 0, 0;
    EmptyCode(rate);
    assert inputs[..0] == [];
    for step := 0 to |values| + TAIL_BITS
      invariant serial == 2 * step && state == StateAfter(inputs[..step])
      invariant count == Kept(rate, serial) && count <= encoded.Length
      invariant encoded[..count] == Puncture(Serial(inputs[..step]), rate)
      invariant forall k | count <= k < encoded.Length :: encoded[k] == start[k]
    {
      var input: bit := if step < |values| then values[step] % 2 else 0;
      var register := Register(state, input);
      var pair := [First(register), Second(register)];
      state := register % STATES;
      SerialPrefix(inputs, step);
      ghost var full := Serial(inputs[..step + 1]);
      assert full[..2 * step] == Serial(inputs[..step]);
      for j := 0 to 2
        invariant serial == 2 * step + j
        invariant count == Kept(rate, serial) && count <= encoded.Length
        invariant encoded[..count] == Puncture(full[..serial], rate)
        invariant forall k | count <= k < encoded.Length :: encoded[k] == start[k]
      {
        PunctureNext(full, rate, serial);
        KeptNext(rate, serial);
        KeptGrows(rate, serial + 1, FullCount(|values|));
        if Keep(rate, serial) {
          encoded[count] := pair[j];
          count := count + 1;
        }
        serial := serial + 1;
      }
      assert full[..2 * step + 2] == full;
    }
    assert inputs[..|values| + TAIL_BITS] == inputs;
    status := Ok;
  }

  lemma KeptNext(rate: Rate, serial: nat)
    ensures Kept(rate, serial + 1) == Kept(rate, serial) + if Keep(rate, serial) then 1 else 0
  {
  }

  lemma EmptyCode(rate: Rate)
    ensures StateAfter([]) == 0 && Kept(rate, 0) == 0 && Puncture(Serial([]), rate) == []
  {
  }
}
