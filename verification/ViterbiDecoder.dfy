/** The decoder of the source over its metric and predecessor buffers. */
module ViterbiDecoder {
  import opened Common
  import opened ConvolutionalCode
  import opened Viterbi

  /** Puts the received values at the places the pattern keeps. */
  method FillDepunctured(soft: Soft, rate: Rate, count: nat) returns (full: array<real>)
    requires |soft| == Kept(rate, count)
    ensures fresh(full) && full[..] == Depuncture(soft, rate, count)
  {
    hide Kept, Keep;
    full := new real[count](_ => 0.0);
    var received := 0;
    KeptNone(rate);
    for serial := 0 to count
      invariant received == Kept(rate, serial) <= |soft|
      invariant full[..serial] == Depuncture(soft[..received], rate, serial)
      invariant forall k | serial <= k < count :: full[k] == 0.0
    {
      KeptNext(rate, serial);
      KeptGrows(rate, serial + 1, count);
      if Keep(rate, serial) {
        assert soft[..received + 1][..received] == soft[..received];
        full[serial] := soft[received];
        received := received + 1;
      }
      assert full[..serial + 1] == full[..serial] + [full[serial]];
    }
    assert full[..count] == full[..] && soft[..received] == soft;
  }

  /** The predecessors of one step, kept in the 64 entries from `base` on. */
  ghost predicate RowOk(predecessors: seq<nat>, base: nat, metrics: Metrics, next: Metrics, first: real, second: real, limit: nat)
    requires limit <= 128
  {
    && base + STATES <= |predecessors|
    && forall s | 0 <= s < STATES && next[s].Reached? ::
         predecessors[base + s] == Select(metrics, first, second, s, limit).1
  }

  /** After the registers below `limit` were tried, `next` and its predecessors are the selection so far. */
  ghost predicate Selected(metrics: Metrics, next: Metrics, predecessors: seq<nat>, base: nat, first: real, second: real, limit: nat)
    requires limit <= 128
  {
    && (forall s | 0 <= s < STATES :: next[s] == Select(metrics, first, second, s, limit).0)
    && RowOk(predecessors, base, metrics, next, first, second, limit)
  }

  /** Tries one register: it may improve the state it leads to. */
  method TryRegister(metrics: array<Metric>, next: array<Metric>, predecessors: array<nat>, base: nat,
                     first: real, second: real, previous: nat, input: bit)
    requires metrics.Length == next.Length == STATES && metrics != next && previous < STATES
    requires base + STATES <= predecessors.Length
    requires Selected(metrics[..], next[..], predecessors[..], base, first, second, Register(previous, input))
    modifies next, predecessors
    ensures Selected(metrics[..], next[..], predecessors[..], base, first, second, Register(previous, input) + 1)
    ensures predecessors[..base] == old(predecessors[..base])
  {
    hide Branch;
    var register := Register(previous, input);
    var state := register % STATES;
    var score := Extend(metrics[previous], register, first, second);
    if Better(score, next[state]) {
      next[state] := score;
      predecessors[base + state] := previous;
    }
  }

  /** One step of the trellis. */
  method SelectStep(metrics: array<Metric>, next: array<Metric>, predecessors: array<nat>, base: nat,
                    first: real, second: real)
    requires metrics.Length == next.Length == STATES && metrics != next && base + STATES <= predecessors.Length
    modifies next, predecessors
    ensures next[..] == NextMetrics(metrics[..], first, second)
    ensures RowOk(predecessors[..], base, metrics[..], next[..], first, second, 128)
    ensures predecessors[..base] == old(predecessors[..base])
  {
    forall s | 0 <= s < STATES {
      next[s] := Unreachable;
    }
    for previous := 0 to STATES
      invariant Selected(metrics[..], next[..], predecessors[..], base, first, second, 2 * previous)
      invariant predecessors[..base] == old(predecessors[..base])
    {
      for input := 0 to 2
        invariant Selected(metrics[..], next[..], predecessors[..], base, first, second, Register(previous, 0) + input)
        invariant predecessors[..base] == old(predecessors[..base])
      {
        TryRegister(metrics, next, predecessors, base, first, second, previous, input);
      }
    }
  }

  ghost predicate EntryOk(predecessors: seq<nat>, full: Soft, t: nat, s: nat)
    requires 2 * t + 2 <= |full| && STATES * t + s < |predecessors| && s < STATES
  {
    MetricsAt(full, t + 1)[s].Reached? ==> predecessors[STATES * t + s] == Predecessor(full, t + 1, s)
  }

  /** The rows of the first `steps` steps hold the predecessors of the best paths. */
  ghost predicate RowsOk(predecessors: seq<nat>, full: Soft, steps: nat)
    requires 2 * steps <= |full| && STATES * steps <= |predecessors|
  {
    forall t: nat, s: nat | t < steps && s < STATES :: EntryOk(predecessors, full, t, s)
  }

  lemma RowsMore(predecessors: seq<nat>, predecessors': seq<nat>, full: Soft, steps: nat)
    requires 2 * steps + 2 <= |full| && STATES * steps + STATES <= |predecessors'| == |predecessors|
    requires RowsOk(predecessors, full, steps) && predecessors'[..STATES * steps] == predecessors[..STATES * steps]
    requires RowOk(predecessors', STATES * steps, MetricsAt(full, steps), MetricsAt(full, steps + 1),
                   full[2 * steps], full[2 * steps + 1], 128)
    ensures RowsOk(predecessors', full, steps + 1)
  {
    hide Select, MetricsAt;
    forall t: nat, s: nat | t < steps + 1 && s < STATES
      ensures EntryOk(predecessors', full, t, s)
    {
      if t < steps {
        assert EntryOk(predecessors, full, t, s);
        assert predecessors'[..STATES * steps][STATES * t + s] == predecessors[..STATES * steps][STATES * t + s];
      }
    }
  }

  /** Runs all steps, keeping the metrics of the current one and the predecessors of all. */
  method RunTrellis(full: array<real>, steps: nat) returns (predecessors: array<nat>)
    requires full.Length == 2 * steps
    ensures fresh(predecessors) && predecessors.Length == STATES * steps
    ensures RowsOk(predecessors[..], full[..], steps)
  {
    hide Select, NextMetrics, RowOk, RowsOk;
    ghost var values := full[..];
    predecessors := new nat[STATES * steps];
    var metrics := new Metric[STATES](s => if s == 0 then Reached(0.0) else Unreachable);
    var next := new Metric[STATES](_ => Unreachable);
    assert metrics[..] == StartMetrics();
    RowsNone(predecessors[..], values);
    for step := 0 to steps
      invariant full[..] == values && metrics[..] == MetricsAt(values, step)
      invariant RowsOk(predecessors[..], values, step)
    {
      ghost var before := predecessors[..];
      SelectStep(metrics, next, predecessors, STATES * step, full[2 * step], full[2 * step + 1]);
      ghost var after := predecessors[..];
      RowsMore(before, after, values, step);
      forall s | 0 <= s < STATES {
        metrics[s] := next[s];
      }
      assert metrics[..] == next[..] && predecessors[..] == after;
    }
  }

  lemma RowsNone(predecessors: seq<nat>, full: Soft)
    ensures RowsOk(predecessors, full, 0)
  {
  }

  /** The last input of a path, after the path to the state before. */
  lemma TraceUnfolds(full: Soft, t: nat, state: nat)
    requires 2 * t + 2 <= |full|
    ensures Trace(full, t + 1, state)[..t] == Trace(full, t, Predecessor(full, t + 1, state))
    ensures Trace(full, t + 1, state)[t] == state % 2
  {
    hide Predecessor;
  }

  /** Follows the predecessors back from state zero. */
  method TraceBack(predecessors: array<nat>, ghost full: Soft, steps: nat, dataBits: nat, decoded: array<bit>)
    requires 2 * steps <= |full| && STATES * steps <= predecessors.Length
    requires RowsOk(predecessors[..], full, steps) && MetricsAt(full, steps)[0].Reached?
    requires dataBits <= steps && dataBits <= decoded.Length
    modifies decoded
    ensures decoded[..dataBits] == Trace(full, steps, 0)[..dataBits]
    ensures decoded[dataBits..] == old(decoded[dataBits..])
  {
    hide MetricsAt, Predecessor, Trace;
    ghost var whole := Trace(full, steps, 0);
    var state: nat := 0;
    for step := steps downto 0
      invariant state < STATES && MetricsAt(full, step)[state].Reached?
      invariant Trace(full, step, state) == whole[..step]
      invariant forall k | step <= k < dataBits :: decoded[k] == whole[k]
      invariant decoded[dataBits..] == old(decoded[dataBits..])
    {
      TraceStep(full, step + 1, state);
      TraceUnfolds(full, step, state);
      assert EntryOk(predecessors[..], full, step, state);
      assert whole[..step + 1][..step] == whole[..step];
      assert whole[step] == whole[..step + 1][step];
      if step < dataBits {
        decoded[step] := state % 2;
      }
      state := predecessors[STATES * step + state];
    }
  }

  /** Decodes into the buffer, whose length is the capacity. */
  method DecodeBits(soft: seq<real>, dataBits: nat, rate: Rate, decoded: array<bit>) returns (status: Status)
    modifies decoded
    ensures status == if dataBits <= decoded.Length && dataBits <= SIZE_MAX / 2 - TAIL_BITS &&
                         |soft| == Kept(rate, FullCount(dataBits)) then Ok else ErrArgument
    ensures status == Ok ==> decoded[..dataBits] == DecodedWord(soft, rate, dataBits)
    ensures status == Ok ==> decoded[dataBits..] == old(decoded[dataBits..])
    ensures status != Ok ==> decoded[..] == old(decoded[..])
  {
    if decoded.Length < dataBits {
      return ErrArgument;
    }
    var expected := EncodedBits(dataBits, rate);
    if expected == 0 || |soft| != expected {
      return ErrArgument;
    }
    hide Kept, Depuncture, MetricsAt, Trace, RowsOk;
    var steps := dataBits + TAIL_BITS;
    var depunctured := FillDepunctured(soft, rate, FullCount(dataBits));
    ghost var full := depunctured[..];
    var predecessors := RunTrellis(depunctured, steps);
    TraceIsDecoded(soft, rate, dataBits);
    TraceBack(predecessors, full, steps, dataBits, decoded);
    status := Ok;
  }
}
