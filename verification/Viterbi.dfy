/** The Viterbi decoder: add-compare-select over 64 states, then a traceback. */
module Viterbi {
  import opened ConvolutionalCode

  type Soft = seq<real>

  /** A path metric; Unreachable stands for the large negative start value. */
  datatype Metric = Unreachable | Reached(score: real)

  type Metrics = s: seq<Metric> | |s| == STATES witness seq(STATES, _ => Unreachable)

  /** The received values with a zero for every punctured output bit. */
  function Depuncture(soft: Soft, rate: Rate, count: nat): (full: Soft)
    requires |soft| == Kept(rate, count)
    ensures |full| == count
    decreases count
  {
    if count == 0 then []
    else if Keep(rate, count - 1) then
      Depuncture(soft[..|soft| - 1], rate, count - 1) + [soft[|soft| - 1]]
    else Depuncture(soft, rate, count - 1) + [0.0]
  }

  function Signed(b: bit, value: real): real {
    if b != 0 then value else -value
  }

  /** How well the two outputs of a register agree with what was received in this step. */
  function Branch(register: nat, first: real, second: real): real
    requires register < 128
  {
    Signed(First(register), first) + Signed(Second(register), second)
  }

  // ---------------------------------------------------------------------
  // Add, compare, select
  // ---------------------------------------------------------------------

  function Extend(m: Metric, register: nat, first: real, second: real): Metric
    requires register < 128
  {
    match m
    case Unreachable => Unreachable
    case Reached(score) => Reached(score + Branch(register, first, second))
  }

  predicate Better(a: Metric, b: Metric) {
    a.Reached? && (b.Reached? ==> a.score > b.score)
  }

  /** The best way into `state` over registers below `limit`, and the state it comes from. */
  function Select(metrics: Metrics, first: real, second: real, state: nat, limit: nat): (r: (Metric, nat))
    requires limit <= 128
    ensures r.1 < STATES
  {
    if limit == 0 then (Unreachable, 0)
    else
      var best := Select(metrics, first, second, state, limit - 1);
      var score := Extend(metrics[(limit - 1) / 2], limit - 1, first, second);
      if (limit - 1) % STATES == state && Better(score, best.0) then (score, (limit - 1) / 2) else best
  }

  function StartMetrics(): Metrics {
    seq(STATES, s => if s == 0 then Reached(0.0) else Unreachable)
  }

  function NextMetrics(metrics: Metrics, first: real, second: real): Metrics {
    seq(STATES, s requires 0 <= s => Select(metrics, first, second, s, 128).0)
  }

  /** The metrics of all states after `t` steps. */
  function MetricsAt(full: Soft, t: nat): Metrics
    requires 2 * t <= |full|
  {
    if t == 0 then StartMetrics()
    else NextMetrics(MetricsAt(full, t - 1), full[2 * t - 2], full[2 * t - 1])
  }

  /** The state the best path into `state` comes from in step t. */
  function Predecessor(full: Soft, t: nat, state: nat): (p: nat)
    requires 1 <= t && 2 * t <= |full|
    ensures p < STATES
  {
    Select(MetricsAt(full, t - 1), full[2 * t - 2], full[2 * t - 1], state, 128).1
  }

  /** The inputs along the predecessors back from `state`. */
  function Trace(full: Soft, t: nat, state: nat): (inputs: Word)
    requires 2 * t <= |full|
    ensures |inputs| == t
  {
    if t == 0 then [] else Trace(full, t - 1, Predecessor(full, t, state)) + [state % 2]
  }

  /** The data bits of the best path that ends in state zero. */
  function DecodedWord(soft: Soft, rate: Rate, dataBits: nat): (data: Word)
    requires |soft| == Kept(rate, FullCount(dataBits))
    ensures |data| == dataBits
  {
    Trace(Depuncture(soft, rate, FullCount(dataBits)), dataBits + TAIL_BITS, 0)[..dataBits]
  }

  // ---------------------------------------------------------------------
  // The decoder is optimal over all paths
  // ---------------------------------------------------------------------

  /** The score of a whole input word against the received values. */
  function Score(full: Soft, inputs: Word): real
    requires 2 * |inputs| <= |full|
  {
    if inputs == [] then 0.0
    else
      var t := |inputs| - 1;
      Score(full, inputs[..t]) + Branch(RegisterAt(inputs, t), full[2 * t], full[2 * t + 1])
  }

  /** No way into a state is better than the selected one. */
  lemma {:induction false} SelectIsBest(metrics: Metrics, first: real, second: real, register: nat, limit: nat)
    requires register < limit <= 128 && metrics[register / 2].Reached?
    ensures var best := Select(metrics, first, second, register % STATES, limit).0;
            best.Reached? && best.score >= metrics[register / 2].score + Branch(register, first, second)
  {
    hide Branch;
    if register < limit - 1 {
      SelectIsBest(metrics, first, second, register, limit - 1);
    }
  }

  /** The selected metric is the metric of a real way into the state. */
  lemma {:induction false} SelectIsReal(metrics: Metrics, first: real, second: real, state: nat, limit: nat)
    requires limit <= 128 && state < STATES
    ensures var (best, from) := Select(metrics, first, second, state, limit);
            best.Reached? ==>
              && NextState(from, state % 2) == state
              && metrics[from].Reached?
              && best.score == metrics[from].score + Branch(Register(from, state % 2), first, second)
  {
    hide Branch;
    if limit > 0 {
      SelectIsReal(metrics, first, second, state, limit - 1);
    }
  }

  /** Every path of t inputs scores at most the metric of the state it ends in. */
  lemma {:induction false} MetricIsBest(full: Soft, inputs: Word)
    requires 2 * |inputs| <= |full|
    ensures var m := MetricsAt(full, |inputs|)[StateAfter(inputs)];
            m.Reached? && m.score >= Score(full, inputs)
  {
    hide Branch, Select;
    if inputs != [] {
      var t := |inputs| - 1;
      MetricIsBest(full, inputs[..t]);
      var register := RegisterAt(inputs, t);
      SelectIsBest(MetricsAt(full, t), full[2 * t], full[2 * t + 1], register, 128);
    }
  }

  /** The last step of a traceback comes from a reached state and adds its branch. */
  lemma TraceStep(full: Soft, t: nat, state: nat)
    requires 1 <= t && 2 * t <= |full| && state < STATES && MetricsAt(full, t)[state].Reached?
    ensures var from := Predecessor(full, t, state);
            && NextState(from, state % 2) == state
            && MetricsAt(full, t - 1)[from].Reached?
            && MetricsAt(full, t)[state].score ==
               MetricsAt(full, t - 1)[from].score + Branch(Register(from, state % 2), full[2 * t - 2], full[2 * t - 1])
  {
    hide Branch, Select, NextState;
    SelectIsReal(MetricsAt(full, t - 1), full[2 * t - 2], full[2 * t - 1], state, 128);
  }

  /** The traceback from a reached state is a path into that state with exactly its metric. */
  lemma {:induction false} TraceIsBest(full: Soft, t: nat, state: nat)
    requires 2 * t <= |full| && state < STATES && MetricsAt(full, t)[state].Reached?
    ensures StateAfter(Trace(full, t, state)) == state
    ensures Score(full, Trace(full, t, state)) == MetricsAt(full, t)[state].score
    decreases t
  {
    hide Branch, Select, NextState, MetricsAt, Predecessor;
    if t == 0 {
      StartState(full, state);
    } else {
      TraceStep(full, t, state);
      var from := Predecessor(full, t, state);
      TraceIsBest(full, t - 1, from);
      var inputs := Trace(full, t, state);
      assert inputs[..t - 1] == Trace(full, t - 1, from);
    }
  }

  lemma StartState(full: Soft, state: nat)
    requires state < STATES && MetricsAt(full, 0)[state].Reached?
    ensures state == 0 && MetricsAt(full, 0)[state].score == 0.0
  {
  }

  /** The agreement of a codeword with soft values: each value counts with the sign of its bit. */
  function Correlation(word: Word, soft: Soft): real
    requires |word| == |soft|
  {
    if word == [] then 0.0
    else Correlation(word[..|word| - 1], soft[..|word| - 1]) + Signed(word[|word| - 1], soft[|word| - 1])
  }

  lemma CorrelationAppend(word: Word, soft: Soft, b: bit, value: real)
    requires |word| == |soft|
    ensures Correlation(word + [b], soft + [value]) == Correlation(word, soft) + Signed(b, value)
  {
    assert (word + [b])[..|word|] == word && (soft + [value])[..|word|] == soft;
  }

  lemma {:induction false} ScoreIsCorrelation(full: Soft, inputs: Word)
    requires |full| == 2 * |inputs|
    ensures Score(full, inputs) == Correlation(Serial(inputs), full)
  {
    hide First, Second, Correlation, RegisterAt;
    if inputs == [] {
      assert Correlation([], []) == 0.0 by { NoCorrelation(); }
    } else {
      var t := |inputs| - 1;
      var before, word := full[..2 * t], Serial(inputs[..t]);
      var b, c := First(RegisterAt(inputs, t)), Second(RegisterAt(inputs, t));
      ScorePrefix(full, inputs[..t]);
      ScoreIsCorrelation(before, inputs[..t]);
      CorrelationAppend(word, before, b, full[2 * t]);
      CorrelationAppend(word + [b], before + [full[2 * t]], c, full[2 * t + 1]);
      assert full == before + [full[2 * t]] + [full[2 * t + 1]];
      assert Serial(inputs) == word + [b] + [c];
    }
  }

  lemma NoCorrelation()
    ensures Correlation([], []) == 0.0
  {
  }

  /** A score looks only at the values received so far. */
  lemma {:induction false} ScorePrefix(full: Soft, inputs: Word)
    requires 2 * |inputs| <= |full|
    ensures Score(full, inputs) == Score(full[..2 * |inputs|], inputs)
    decreases |inputs|
  {
    hide Branch;
    if inputs != [] {
      var t := |inputs| - 1;
      ScorePrefix(full, inputs[..t]);
      ScorePrefix(full[..2 * |inputs|], inputs[..t]);
      assert full[..2 * |inputs|][..2 * t] == full[..2 * t];
    }
  }

  /** Punctured bits meet a zero, so they do not count. */
  lemma {:induction false} DepunctureKeepsCorrelation(word: Word, soft: Soft, rate: Rate)
    requires |soft| == Kept(rate, |word|)
    ensures |Puncture(word, rate)| == |soft|
    ensures Correlation(word, Depuncture(soft, rate, |word|)) == Correlation(Puncture(word, rate), soft)
    decreases |word|
  {
    hide Keep, Correlation;
    PunctureLength(word, rate);
    if word == [] {
      assert Depuncture(soft, rate, 0) == [] && Puncture(word, rate) == [] && soft == [];
    } else {
      var n := |word| - 1;
      var kept := Keep(rate, n);
      var before := if kept then soft[..|soft| - 1] else soft;
      DepunctureKeepsCorrelation(word[..n], before, rate);
      assert word == word[..n] + [word[n]];
      if kept {
        assert soft == before + [soft[|soft| - 1]];
        CorrelationAppend(word[..n], Depuncture(before, rate, n), word[n], soft[|soft| - 1]);
        CorrelationAppend(Puncture(word[..n], rate), before, word[n], soft[|soft| - 1]);
      } else {
        CorrelationAppend(word[..n], Depuncture(before, rate, n), word[n], 0.0);
        assert Puncture(word, rate) == Puncture(word[..n], rate);
      }
    }
  }

  /** The score of a data word with its tail is the correlation of its codeword. */
  lemma CodewordScore(data: Word, soft: Soft, rate: Rate)
    requires |soft| == Kept(rate, FullCount(|data|))
    ensures |Encode(data, rate)| == |soft|
    ensures Score(Depuncture(soft, rate, FullCount(|data|)), data + TAIL) == Correlation(Encode(data, rate), soft)
  {
    hide Kept, Puncture, Depuncture, Score, Correlation, Serial;
    EncodeLength(data, rate);
    ScoreIsCorrelation(Depuncture(soft, rate, FullCount(|data|)), data + TAIL);
    DepunctureKeepsCorrelation(Serial(data + TAIL), soft, rate);
  }

  /** The best path is the decoded word with its tail. */
  lemma TraceIsDecoded(soft: Soft, rate: Rate, dataBits: nat)
    requires |soft| == Kept(rate, FullCount(dataBits))
    ensures var full := Depuncture(soft, rate, FullCount(dataBits));
            && MetricsAt(full, dataBits + TAIL_BITS)[0].Reached?
            && Trace(full, dataBits + TAIL_BITS, 0) == DecodedWord(soft, rate, dataBits) + TAIL
  {
    hide Kept, Depuncture, MetricsAt, Trace, Score, StateAfter;
    var full := Depuncture(soft, rate, FullCount(dataBits));
    var zeros: Word := seq(dataBits, _ => 0) + TAIL;
    ZeroStateIsTail(zeros);
    MetricIsBest(full, zeros);
    TraceIsBest(full, dataBits + TAIL_BITS, 0);
    ZeroStateIsTail(Trace(full, dataBits + TAIL_BITS, 0));
  }

  /**
   Maximum likelihood: no data word of the same length has a codeword that
   agrees better with the received values than the codeword of the decoded word.
   */
  lemma MaximumLikelihood(soft: Soft, rate: Rate, data: Word)
    requires |soft| == Kept(rate, FullCount(|data|))
    ensures |Encode(data, rate)| == |Encode(DecodedWord(soft, rate, |data|), rate)| == |soft|
    ensures Correlation(Encode(data, rate), soft) <= Correlation(Encode(DecodedWord(soft, rate, |data|), rate), soft)
  {
    hide Kept, Depuncture, MetricsAt, Trace, Correlation, Score;
    var full := Depuncture(soft, rate, FullCount(|data|));
    var decoded := DecodedWord(soft, rate, |data|);
    CodewordScore(data, soft, rate);
    CodewordScore(decoded, soft, rate);
    ZeroStateIsTail(data + TAIL);
    MetricIsBest(full, data + TAIL);
    TraceIsDecoded(soft, rate, |data|);
    TraceIsBest(full, |data| + TAIL_BITS, 0);
  }
}
