/** One block of a frame: bytes to bits, the code, whitening and interleaving, and back. */
module BlockCodec {
  import opened Common
  import opened Bytes
  import opened BitPacking
  import opened ConvolutionalCode
  import opened Viterbi
  import opened CodeDistance
  import opened ViterbiDecoder
  import opened CodeCorrection
  import opened Interleaver

  function RateNumber(rate: Rate): bv32 {
    match rate
    case Half => 0
    case TwoThirds => 1
    case ThreeQuarters => 2
  }

  function Low32(value: nat): bv32 {
    (value % TWO_32) as bv32
  }

  function WhiteningBit(index: nat, rawBits: nat, rate: Rate): bit {
    var a: bv32 := (Low32(index) * 0x9e37_79b1) ^ (Low32(rawBits) * 0x85eb_ca6b) ^ (RateNumber(rate) * 0xc2b2_ae35) ^ 0x71d6_7fff;
    var b: bv32 := (a ^ (a >> 16)) * 0x7feb_352d;
    if (b ^ (b >> 15)) & 1 == 0 then 0 else 1
  }

  function Flip(b: bit, w: bit): bit {
    if b == w then 0 else 1
  }

  /** The code with whitening bits over it and after it. */
  function Whitened(code: Word, rawBits: nat, rate: Rate, capacity: nat): (w: Word)
    requires |code| <= capacity
    ensures |w| == capacity
  {
    seq(capacity, i requires 0 <= i < capacity =>
      if i < |code| then Flip(code[i], WhiteningBit(i, rawBits, rate)) else WhiteningBit(i, rawBits, rate))
  }

  function CodedLength(byteCount: nat, rate: Rate): nat {
    Kept(rate, FullCount(8 * byteCount))
  }

  lemma CodeLength(bytes: seq<byte>, rate: Rate)
    ensures |Encode(ToBits(bytes), rate)| == CodedLength(|bytes|, rate)
  {
    EncodeLength(ToBits(bytes), rate);
  }

  function EncodedBlock(bytes: seq<byte>, rate: Rate, capacity: nat): (block: Word)
    requires CodedLength(|bytes|, rate) <= capacity
    ensures |block| == capacity
  {
    CodeLength(bytes, rate);
    Interleaved(Whitened(Encode(ToBits(bytes), rate), 8 * |bytes|, rate, capacity))
  }

  function Unwhitened(soft: Soft, rawBits: nat, rate: Rate): (plain: Soft)
    ensures |plain| == |soft|
  {
    seq(|soft|, i requires 0 <= i < |soft| => if WhiteningBit(i, rawBits, rate) != 0 then -soft[i] else soft[i])
  }

  /** The received values of the code, in order and with the whitening taken off. */
  function Plain(soft: Soft, byteCount: nat, rate: Rate): (plain: Soft)
    requires CodedLength(byteCount, rate) <= |soft|
    ensures |plain| == CodedLength(byteCount, rate)
  {
    Unwhitened(Deinterleaved(soft), 8 * byteCount, rate)[..CodedLength(byteCount, rate)]
  }

  function DecodedBlock(soft: Soft, byteCount: nat, rate: Rate): (bytes: seq<byte>)
    requires CodedLength(byteCount, rate) <= |soft|
    ensures |bytes| == byteCount
  {
    hide Kept, Plain, DecodedWord, FromBits;
    FromBits(DecodedWord(Plain(soft, byteCount, rate), rate, 8 * byteCount))
  }

  // ---------------------------------------------------------------------
  // Decoding undoes encoding
  // ---------------------------------------------------------------------

  /** What the block and the received values hold for bit i of the code. */
  lemma BitOfBlock(bytes: seq<byte>, soft: Soft, rate: Rate, i: nat)
    requires i < CodedLength(|bytes|, rate) <= |soft|
    ensures |Encode(ToBits(bytes), rate)| == CodedLength(|bytes|, rate)
    ensures var w := WhiteningBit(i, 8 * |bytes|, rate);
            var p := Place(i, |soft|);
            && EncodedBlock(bytes, rate, |soft|)[p] == Flip(Encode(ToBits(bytes), rate)[i], w)
            && Plain(soft, |bytes|, rate)[i] == if w != 0 then -soft[p] else soft[p]
  {
    hide Place, WhiteningBit, Encode, CodedLength, Source;
    CodeLength(bytes, rate);
    var code := Encode(ToBits(bytes), rate);
    InterleavedAt(Whitened(code, 8 * |bytes|, rate, |soft|), i);
  }

  /** Values with the right signs, of any size, give back the bytes at every rate and capacity. */
  lemma BlockRoundTrip(bytes: seq<byte>, rate: Rate, capacity: nat, soft: Soft)
    requires CodedLength(|bytes|, rate) <= capacity
    requires RightSigns(EncodedBlock(bytes, rate, capacity), soft)
    ensures DecodedBlock(soft, |bytes|, rate) == bytes
  {
    hide Place, WhiteningBit, Encode, EncodedBlock, Plain, DecodedWord, ToBits, FromBits, Kept;
    var code, block := Encode(ToBits(bytes), rate), EncodedBlock(bytes, rate, capacity);
    var plain := Plain(soft, |bytes|, rate);
    CodeLength(bytes, rate);
    forall i | 0 <= i < |code|
      ensures if code[i] == 0 then plain[i] < 0.0 else plain[i] > 0.0
    {
      BitOfBlock(bytes, soft, rate, i);
    }
    DecodeUndoesEncode(ToBits(bytes), plain, rate);
    FromBitsUndoes(bytes);
  }

  // ---------------------------------------------------------------------
  // Wrong values anywhere in a block
  // ---------------------------------------------------------------------

  function Errors(a: Word, b: Word): set<nat>
    requires |a| == |b|
  {
    set i: nat | i < |a| && a[i] != b[i]
  }

  lemma {:induction false} DistanceCounts(a: Word, b: Word)
    requires |a| == |b|
    ensures Distance(a, b) == |Errors(a, b)|
  {
    if a != [] {
      var n := |a| - 1;
      DistanceCounts(a[..n], b[..n]);
      if a[n] != b[n] {
        assert Errors(a, b) == Errors(a[..n], b[..n]) + {n};
      } else {
        assert Errors(a, b) == Errors(a[..n], b[..n]);
      }
    }
  }

  /** The permutation sends different errors of the code to different errors of the block. */
  lemma {:induction false} PlacedErrors(errors: set<nat>, placed: set<nat>, count: nat)
    requires forall i | i in errors :: i < count && Place(i, count) in placed
    ensures |errors| <= |placed|
  {
    hide Place;
    if errors != {} {
      var i :| i in errors;
      var rest := placed - {Place(i, count)};
      forall j | j in errors - {i}
        ensures Place(j, count) in rest
      {
        if Place(j, count) == Place(i, count) {
          PlaceIsInjective(i, j, count);
        }
      }
      PlacedErrors(errors - {i}, rest, count);
    }
  }

  lemma PlainBetween(soft: Soft, byteCount: nat, rate: Rate, low: real, high: real)
    requires CodedLength(byteCount, rate) <= |soft| && Between(soft, low, high)
    ensures Between(Plain(soft, byteCount, rate), low, high)
  {
    hide Place, WhiteningBit, CodedLength;
  }

  /** A wrong sign of the code is a wrong sign of the block, at its place. */
  lemma PlacedSign(bytes: seq<byte>, rate: Rate, soft: Soft, i: nat, low: real, high: real)
    requires CodedLength(|bytes|, rate) <= |soft| && 0.0 < low && Between(soft, low, high)
    requires |Encode(ToBits(bytes), rate)| == CodedLength(|bytes|, rate)
    requires i in Errors(Encode(ToBits(bytes), rate), Signs(Plain(soft, |bytes|, rate)))
    ensures Place(i, |soft|) in Errors(EncodedBlock(bytes, rate, |soft|), Signs(soft))
  {
    hide Place, WhiteningBit, Encode, EncodedBlock, ToBits, Kept;
    BitOfBlock(bytes, soft, rate, i);
  }

  /** Wrong values of a block, wherever they fall, still give back the bytes while the right ones outweigh them. */
  lemma BlockErrorsAreCorrected(bytes: seq<byte>, rate: Rate, soft: Soft, low: real, high: real)
    requires CodedLength(|bytes|, rate) <= |soft| && 0.0 < low <= high && Between(soft, low, high)
    requires Outweighed(rate, |Errors(EncodedBlock(bytes, rate, |soft|), Signs(soft))|, low, high)
    ensures DecodedBlock(soft, |bytes|, rate) == bytes
  {
    hide Place, WhiteningBit, Encode, EncodedBlock, Plain, DecodedWord, ToBits, FromBits, Kept, Distance, Between, Signs,
         Outweighed, Errors;
    var code, plain := Encode(ToBits(bytes), rate), Plain(soft, |bytes|, rate);
    CodeLength(bytes, rate);
    PlainBetween(soft, |bytes|, rate, low, high);
    var wrong, placed := Errors(code, Signs(plain)), Errors(EncodedBlock(bytes, rate, |soft|), Signs(soft));
    forall i | i in wrong ensures i < |soft| && Place(i, |soft|) in placed {
      ErrorsInside(code, Signs(plain));
      PlacedSign(bytes, rate, soft, i, low, high);
    }
    PlacedErrors(wrong, placed, |soft|);
    DistanceCounts(code, Signs(plain));
    FewerErrors(rate, |wrong|, |placed|, low, high);
    ErrorsAreCorrected(ToBits(bytes), plain, rate, low, high);
    FromBitsUndoes(bytes);
  }

  lemma ErrorsInside(a: Word, b: Word)
    requires |a| == |b|
    ensures forall i | i in Errors(a, b) :: i < |a|
  {
  }

  /** At rate 1/2 any four wrong values of a block of equal ones still give back the bytes. */
  lemma FourBlockErrorsAreCorrected(bytes: seq<byte>, received: Word, magnitude: real)
    requires CodedLength(|bytes|, Half) <= |received| && magnitude > 0.0
    requires |Errors(EncodedBlock(bytes, Half, |received|), received)| <= 4
    ensures DecodedBlock(HardValues(received, magnitude), |bytes|, Half) == bytes
  {
    hide EncodedBlock, DecodedBlock, Kept, Between, Signs, Outweighed, Errors, HardValues;
    HardBetween(received, magnitude);
    EvenlyOutweighed(Half, |Errors(EncodedBlock(bytes, Half, |received|), received)|, magnitude);
    BlockErrorsAreCorrected(bytes, Half, HardValues(received, magnitude), magnitude, magnitude);
  }

  // ---------------------------------------------------------------------
  // The source's block functions
  // ---------------------------------------------------------------------

  /** Coding the bytes into a zeroed buffer of the block's capacity. */
  method CodeBytes(bytes: seq<byte>, rate: Rate, coded: array<bit>) returns (status: Status, count: nat)
    modifies coded
    ensures status == if 8 * |bytes| <= SIZE_MAX / 2 - TAIL_BITS && CodedLength(|bytes|, rate) <= coded.Length
                      then Ok else ErrCapacity
    ensures status == Ok ==> count == CodedLength(|bytes|, rate) && coded[..count] == Encode(ToBits(bytes), rate)
  {
    hide Encode, ToBits, Kept;
    var bits := new bit[8 * |bytes|];
    BytesToBits(bytes, bits);
    assert bits[..] == ToBits(bytes);
    CodeLength(bytes, rate);
    status, count := EncodeBits(bits[..], rate, coded);
  }

  method Whiten(coded: array<bit>, count: nat, rawBits: nat, rate: Rate)
    requires count <= coded.Length
    modifies coded
    ensures coded[..] == Whitened(old(coded[..count]), rawBits, rate, coded.Length)
  {
    hide WhiteningBit;
    ghost var code := coded[..count];
    for i := 0 to coded.Length
      invariant coded[..i] == Whitened(code, rawBits, rate, coded.Length)[..i]
      invariant forall k | i <= k < count :: coded[k] == code[k]
    {
      var whitening := WhiteningBit(i, rawBits, rate);
      coded[i] := if i < count then Flip(coded[i], whitening) else whitening;
    }
  }

  method EncodeBlock(bytes: seq<byte>, rate: Rate, capacity: nat) returns (status: Status, interleaved: array<bit>, count: nat)
    ensures status == if 8 * |bytes| <= SIZE_MAX / 2 - TAIL_BITS && CodedLength(|bytes|, rate) <= capacity
                      then Ok else ErrCapacity
    ensures status == Ok ==> interleaved[..] == EncodedBlock(bytes, rate, capacity) && count == CodedLength(|bytes|, rate)
  {
    hide WhiteningBit, Encode, ToBits, Kept, Place, Source, Stride, Whitened;
    var rawBits := 8 * |bytes|;
    var fecBits := EncodedBits(rawBits, rate);
    interleaved, count := new bit[0], 0;
    if capacity < fecBits {
      return ErrCapacity, interleaved, count;
    }
    var coded := new bit[capacity](_ => 0);
    var output := new bit[capacity];
    status, count := CodeBytes(bytes, rate, coded);
    if status != Ok {
      return;
    }
    Whiten(coded, count, rawBits, rate);
    status := InterleaveBits(coded, output);
    interleaved := output;
  }

  method DecodeBlock(interleaved: array<real>, byteCount: nat, rate: Rate, bytes: array<byte>) returns (status: Status)
    requires byteCount <= bytes.Length
    modifies bytes
    ensures 8 * byteCount <= SIZE_MAX / 2 - TAIL_BITS ==>
              status == if CodedLength(byteCount, rate) <= interleaved.Length then Ok else ErrTruncated
    ensures 8 * byteCount > SIZE_MAX / 2 - TAIL_BITS ==> status == ErrArgument
    ensures status == Ok ==> CodedLength(byteCount, rate) <= interleaved.Length
    ensures status == Ok ==> bytes[..byteCount] == DecodedBlock(interleaved[..], byteCount, rate)
    ensures bytes[byteCount..] == old(bytes[byteCount..])
    ensures status != Ok ==> bytes[..] == old(bytes[..])
  {
    hide WhiteningBit, Kept, Place, Stride, DecodedWord;
    var rawBits := 8 * byteCount;
    var fecBits := EncodedBits(rawBits, rate);
    if interleaved.Length < fecBits {
      return ErrTruncated;
    }
    var ordered := new real[interleaved.Length];
    var decoded := new bit[rawBits];
    status := DeinterleaveSoft(interleaved, ordered);
    ghost var soft := Deinterleaved(interleaved[..]);
    for i := 0 to ordered.Length
      invariant forall k | 0 <= k < ordered.Length :: ordered[k] == if k < i then Unwhitened(soft, rawBits, rate)[k] else soft[k]
      invariant bytes[..] == old(bytes[..])
    {
      if WhiteningBit(i, rawBits, rate) != 0 {
        ordered[i] := -ordered[i];
      }
    }
    status := DecodeBits(ordered[..fecBits], rawBits, rate, decoded);
    if status != Ok {
      return;
    }
    assert decoded[..rawBits] == decoded[..] && ordered[..fecBits] == Plain(interleaved[..], byteCount, rate);
    BitsToBytes(decoded[..], bytes);
    assert Padded(decoded[..]) == decoded[..];
  }
}
