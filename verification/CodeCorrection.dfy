/** The decoder undoes the encoder, and at rate 1/2 corrects four wrong symbols. */
module CodeCorrection {
  import opened ConvolutionalCode
  import opened Viterbi
  import opened CodeDistance
  import opened PuncturedDistance

  // ---------------------------------------------------------------------
  // Wrong signs of equal magnitude
  // ---------------------------------------------------------------------

  /** Soft values of one magnitude whose signs spell the word. */
  function HardValues(word: Word, magnitude: real): (soft: Soft)
    ensures |soft| == |word|
  {
    seq(|word|, i requires 0 <= i < |word| => Signed(word[i], magnitude))
  }

  /** The word the signs spell. */
  function Signs(soft: Soft): (word: Word)
    ensures |word| == |soft|
  {
    seq(|soft|, i requires 0 <= i < |soft| => if soft[i] >= 0.0 then 1 else 0)
  }

  function Magnitude(x: real): real { if x >= 0.0 then x else -x }

  predicate Between(soft: Soft, low: real, high: real) {
    forall i | 0 <= i < |soft| :: low <= Magnitude(soft[i]) <= high
  }

  /** So many wrong values, as large as they come, weigh less than the right ones left, as small as they come. */
  predicate Outweighed(rate: Rate, errors: nat, low: real, high: real) {
    (MinimumDistance(rate) - errors) as real * low > errors as real * high
  }

  lemma Weigh(low: real, high: real, apart: nat, wrong: nat)
    ensures low * (apart + 1) as real == low * apart as real + low
    ensures (low + high) * (wrong + 1) as real == (low + high) * wrong as real + low + high
  {
  }

  /** How much better the sent word correlates than another, from their distance and the number of wrong signs. */
  lemma {:induction false} GainBound(sent: Word, other: Word, soft: Soft, low: real, high: real)
    requires |sent| == |other| == |soft| && Between(soft, low, high) && 0.0 <= low <= high
    ensures Correlation(sent, soft) - Correlation(other, soft) >=
            2.0 * (low * Distance(sent, other) as real - (low + high) * Distance(sent, Signs(soft)) as real)
  {
    hide Correlation, Distance;
    if sent == [] {
      NoCorrelation();
      DistanceZero(sent);
      assert other == sent && Signs(soft) == sent && soft == [];
    } else {
      var n := |sent| - 1;
      var s, v := soft[..n], soft[n];
      GainBound(sent[..n], other[..n], s, low, high);
      assert sent == sent[..n] + [sent[n]] && other == other[..n] + [other[n]] && soft == s + [v];
      assert Signs(soft) == Signs(s) + [Signs(soft)[n]];
      CorrelationAppend(sent[..n], s, sent[n], v);
      CorrelationAppend(other[..n], s, other[n], v);
      DistanceAppend(sent[..n], other[..n], sent[n], other[n]);
      DistanceAppend(sent[..n], Signs(s), sent[n], Signs(soft)[n]);
      Weigh(low, high, Distance(sent[..n], other[..n]), Distance(sent[..n], Signs(s)));
    }
  }

  lemma Outweigh(low: real, high: real, apart: nat, least: nat, wrong: nat)
    requires 0.0 <= low && least <= apart && (least - wrong) as real * low > wrong as real * high
    ensures low * apart as real - (low + high) * wrong as real > 0.0
  {
    assert low * apart as real == low * least as real + low * (apart - least) as real;
    assert (least - wrong) as real * low == low * least as real - low * wrong as real;
    assert (low + high) * wrong as real == low * wrong as real + high * wrong as real;
  }

  /** Wrong signs are corrected while the values that are wrong are outweighed, at every rate. */
  lemma ErrorsAreCorrected(data: Word, soft: Soft, rate: Rate, low: real, high: real)
    requires |soft| == |Encode(data, rate)| && Between(soft, low, high) && 0.0 <= low <= high
    requires Outweighed(rate, Distance(Encode(data, rate), Signs(soft)), low, high)
    ensures |soft| == Kept(rate, FullCount(|data|)) && DecodedWord(soft, rate, |data|) == data
  {
    hide Distance, Correlation, Encode, DecodedWord, Kept, Between, Signs, MinimumDistance;
    EncodeLength(data, rate);
    var decoded := DecodedWord(soft, rate, |data|);
    MaximumLikelihood(soft, rate, data);
    if decoded != data {
      var sent, other := Encode(data, rate), Encode(decoded, rate);
      FreeDistance(data, decoded, rate);
      GainBound(sent, other, soft, low, high);
      Outweigh(low, high, Distance(sent, other), MinimumDistance(rate), Distance(sent, Signs(soft)));
    }
  }

  /** Fewer errors are outweighed too. */
  lemma FewerErrors(rate: Rate, errors: nat, more: nat, low: real, high: real)
    requires errors <= more && 0.0 <= low <= high && Outweighed(rate, more, low, high)
    ensures Outweighed(rate, errors, low, high)
  {
    hide MinimumDistance;
    var d := MinimumDistance(rate);
    assert (d - errors) as real * low == (d - more) as real * low + (more - errors) as real * low;
    assert more as real * high == errors as real * high + (more - errors) as real * high;
  }

  lemma HardBetween(word: Word, magnitude: real)
    requires magnitude > 0.0
    ensures Between(HardValues(word, magnitude), magnitude, magnitude) && Signs(HardValues(word, magnitude)) == word
  {
  }

  /** Among values of one magnitude less than half the least distance may be wrong. */
  lemma EvenlyOutweighed(rate: Rate, errors: nat, magnitude: real)
    requires magnitude > 0.0 && 2 * errors < MinimumDistance(rate)
    ensures Outweighed(rate, errors, magnitude, magnitude)
  {
    hide MinimumDistance;
    var spare := MinimumDistance(rate) - 2 * errors;
    assert (MinimumDistance(rate) - errors) as real * magnitude == errors as real * magnitude + spare as real * magnitude;
    assert spare as real * magnitude >= magnitude;
  }

  /** Four wrong signs among values of equal magnitude at rate 1/2, two at the others, decode to exactly the data. */
  lemma EqualErrorsAreCorrected(data: Word, received: Word, rate: Rate, magnitude: real)
    requires |received| == |Encode(data, rate)| && magnitude > 0.0
    requires 2 * Distance(Encode(data, rate), received) < MinimumDistance(rate)
    ensures |received| == Kept(rate, FullCount(|data|))
    ensures DecodedWord(HardValues(received, magnitude), rate, |data|) == data
  {
    hide Distance, Encode, DecodedWord, Kept, Between, Signs, MinimumDistance, Outweighed;
    HardBetween(received, magnitude);
    EvenlyOutweighed(rate, Distance(Encode(data, rate), received), magnitude);
    ErrorsAreCorrected(data, HardValues(received, magnitude), rate, magnitude, magnitude);
  }

  /** Up to four wrong signs among values of equal magnitude decode to exactly the data. */
  lemma FourErrorsAreCorrected(data: Word, received: Word, magnitude: real)
    requires |received| == |Encode(data, Half)| && magnitude > 0.0
    requires Distance(Encode(data, Half), received) <= 4
    ensures |received| == Kept(Half, FullCount(|data|))
    ensures DecodedWord(HardValues(received, magnitude), Half, |data|) == data
  {
    hide Distance, Encode, DecodedWord, Kept;
    EqualErrorsAreCorrected(data, received, Half, magnitude);
  }

  // ---------------------------------------------------------------------
  // Right signs of any magnitude
  // ---------------------------------------------------------------------

  /** Every value is nonzero and has the sign of its bit. */
  predicate RightSigns(word: Word, soft: Soft) {
    |word| == |soft| && forall i | 0 <= i < |word| :: if word[i] == 0 then soft[i] < 0.0 else soft[i] > 0.0
  }

  /** Only the word the signs spell reaches the largest correlation. */
  lemma {:induction false} RightSignsWin(word: Word, other: Word, soft: Soft)
    requires RightSigns(word, soft) && |other| == |soft|
    ensures Correlation(other, soft) <= Correlation(word, soft)
    ensures Correlation(other, soft) == Correlation(word, soft) ==> other == word
  {
    if word != [] {
      var n := |word| - 1;
      RightSignsWin(word[..n], other[..n], soft[..n]);
      assert word == word[..n] + [word[n]] && other == other[..n] + [other[n]];
    }
  }

  /** Of the two outputs of a step the pattern keeps at least one. */
  lemma OneIsKept(rate: Rate, t: nat)
    ensures Keep(rate, 2 * t) || Keep(rate, 2 * t + 1)
  {
  }

  /** Both outputs tap the newest input. */
  lemma OutputsFlip(inputs: Word)
    ensures First(Register(StateAfter(inputs), 0)) != First(Register(StateAfter(inputs), 1))
    ensures Second(Register(StateAfter(inputs), 0)) != Second(Register(StateAfter(inputs), 1))
  {
    hide First, Second, StateAfter, Past;
    OutputSums(inputs, 0);
    OutputSums(inputs, 1);
  }

  /** The kept outputs of the last step tell its input. */
  lemma LastIsTold(u: Word, v: Word, rate: Rate)
    requires |u| == |v| > 0 && Puncture(Serial(u), rate) == Puncture(Serial(v), rate)
    requires u[..|u| - 1] == v[..|u| - 1]
    ensures u[|u| - 1] == v[|u| - 1]
  {
    hide First, Second, Keep, Puncture, Serial, Kept, StateAfter, Past;
    var n := |u| - 1;
    LastOutputs(u, rate);
    LastOutputs(v, rate);
    OneIsKept(rate, n);
    OutputsFlip(u[..n]);
    var before := Puncture(Serial(u[..n]), rate);
    if Keep(rate, 2 * n) {
      assert Puncture(Serial(u), rate)[|before|] == First(RegisterAt(u, n));
      assert Puncture(Serial(v), rate)[|before|] == First(RegisterAt(v, n));
    } else {
      assert Puncture(Serial(u), rate)[|before|] == Second(RegisterAt(u, n));
      assert Puncture(Serial(v), rate)[|before|] == Second(RegisterAt(v, n));
    }
  }

  /** Paths with equal punctured outputs are equal. */
  lemma {:induction false} PathsAreTold(u: Word, v: Word, rate: Rate)
    requires |u| == |v| && Puncture(Serial(u), rate) == Puncture(Serial(v), rate)
    ensures u == v
  {
    hide First, Second, Keep, Puncture, Serial, Kept, RegisterAt;
    if u != [] {
      var n := |u| - 1;
      LastOutputs(u, rate);
      LastOutputs(v, rate);
      assert Puncture(Serial(u[..n]), rate) == Puncture(Serial(u), rate)[..Kept(rate, 2 * n)];
      PathsAreTold(u[..n], v[..n], rate);
      LastIsTold(u, v, rate);
      assert u == u[..n] + [u[n]] && v == v[..n] + [v[n]];
    }
  }

  /** Different data words have different codewords, at every rate. */
  lemma CodewordsDiffer(x: Word, y: Word, rate: Rate)
    requires |x| == |y| && Encode(x, rate) == Encode(y, rate)
    ensures x == y
  {
    PathsAreTold(x + TAIL, y + TAIL, rate);
    assert x == (x + TAIL)[..|x|] && y == (y + TAIL)[..|y|];
  }

  /** Soft values with the right signs, whatever their size, decode to the data at every rate. */
  lemma DecodeUndoesEncode(data: Word, soft: Soft, rate: Rate)
    requires RightSigns(Encode(data, rate), soft)
    ensures |soft| == Kept(rate, FullCount(|data|)) && DecodedWord(soft, rate, |data|) == data
  {
    hide Correlation, Encode, DecodedWord, Kept;
    EncodeLength(data, rate);
    MaximumLikelihood(soft, rate, data);
    var decoded := DecodedWord(soft, rate, |data|);
    RightSignsWin(Encode(data, rate), Encode(decoded, rate), soft);
    CodewordsDiffer(data, decoded, rate);
  }
}
