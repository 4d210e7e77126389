/** The whitening of a block: it depends on the place, the length and the rate, and shows where the code ends. */
module BlockWhitening {
  import opened ConvolutionalCode
  import opened BlockCodec

  lemma Numbers()
    ensures Low32(0) == 0 && Low32(1) == 1 && Low32(2) == 2 && Low32(3) == 3 && Low32(64) == 64
  {
  }

  /** The first whitening bits of a block of eight bytes, at each rate. */
  lemma HalfBegins()
    ensures WhiteningBit(0, 64, Half) == 1
    ensures WhiteningBit(1, 64, Half) == 1
    ensures WhiteningBit(2, 64, Half) == 0
    ensures WhiteningBit(3, 64, Half) == 1
  {
    hide Low32;
    Numbers();
  }

  lemma TwoThirdsBegins()
    ensures WhiteningBit(0, 64, TwoThirds) == 0
    ensures WhiteningBit(1, 64, TwoThirds) == 0
    ensures WhiteningBit(2, 64, TwoThirds) == 0
    ensures WhiteningBit(3, 64, TwoThirds) == 0
  {
    hide Low32;
    Numbers();
  }

  lemma ThreeQuartersBegins()
    ensures WhiteningBit(0, 64, ThreeQuarters) == 1
    ensures WhiteningBit(1, 64, ThreeQuarters) == 1
    ensures WhiteningBit(2, 64, ThreeQuarters) == 1
    ensures WhiteningBit(3, 64, ThreeQuarters) == 0
  {
    hide Low32;
    Numbers();
  }

  /** A place of the code is whitened by its bit, and places after the code show the whitening itself. */
  lemma WhitenedAt(code: Word, rawBits: nat, rate: Rate, capacity: nat, i: nat)
    requires |code| <= capacity && i < capacity
    ensures var w, key := Whitened(code, rawBits, rate, capacity)[i], WhiteningBit(i, rawBits, rate);
            if i < |code| then w == code[i] <==> key == 0 else w == key
  {
    hide WhiteningBit;
  }
}
