/** What the guard of a measured mode is for: no field less robust, fixed margins, and a stronger payload. */
module CalibrationGuard {
  import opened ConvolutionalCode
  import opened Calibration

  /** How many of the kept bits a rate gives to redundancy, as an order. */
  function RateRank(rate: Rate): nat { match rate case Half => 0 case TwoThirds => 1 case ThreeQuarters => 2 }

  /** No field of the first mode is less robust than in the second. */
  predicate AtLeastAsRobust(g: Modem, c: Modem) {
    && g.fftSize == c.fftSize && c.first <= g.first && g.last <= c.last
    && g.prefix >= c.prefix && g.window >= c.window && g.sync >= c.sync && g.gap >= c.gap
    && g.training >= c.training && g.repetitions >= c.repetitions && g.qam <= c.qam && RateRank(g.rate) <= RateRank(c.rate)
  }

  /** The margins every guarded mode has. */
  predicate HasMargins(g: Modem) {
    g.prefix >= 1024 && g.window >= 64 && g.sync >= 1536 && g.gap >= 2048 && g.training >= 3
  }

  /** Every field of the acquisition is the measured one or exactly at its margin. */
  predicate NoFurther(g: Modem, c: Modem) {
    && g.prefix in {c.prefix, 1024} && g.window in {c.window, 64} && g.sync in {c.sync, 1536}
    && g.gap in {c.gap, 2048} && g.training in {c.training, 3}
  }

  /** The payload is one step more robust: each of constellation and rate by one, or the repetitions. */
  predicate PayloadStronger(g: Modem, c: Modem) {
    && (c.qam > 2 ==> g.qam == c.qam - 2) && (c.qam == 2 ==> g.qam == 2)
    && (c.rate != Half ==> RateRank(g.rate) == RateRank(c.rate) - 1) && (c.rate == Half ==> g.rate == Half)
    && (if c.qam == 2 && c.rate == Half then g.repetitions >= 2 && g.repetitions in {c.repetitions, 2}
        else g.repetitions == c.repetitions)
  }

  /** The guard takes back a mode in every field that has a margin, moves the payload one step, and touches nothing further. */
  lemma GuardBacksOff(c: Modem)
    requires Valid(c)
    ensures var g := Guard(c).1; AtLeastAsRobust(g, c) && HasMargins(g) && NoFurther(g, c) && PayloadStronger(g, c)
  {
    hide GuardedFirst, GuardedLast, DataCarriers;
    GuardedBand(c.first, c.last);
  }

  /** The explored edge above a lower end. */
  function NextLower(first: nat): nat {
    if first < 32 then 32 else if first < 48 then 48 else 64
  }

  /** An end outside 64..298 moves to the next explored edge inside, unless that would leave the band. */
  lemma GuardMovesEdges(c: Modem)
    requires Valid(c)
    ensures var g := Guard(c).1;
            && g.last == (if c.last > 298 && UpperEdge(c.last) >= c.first then UpperEdge(c.last) else c.last)
            && g.first == (if c.first < 64 && NextLower(c.first) <= g.last then NextLower(c.first) else c.first)
  {
    hide GuardedLast, GuardedFirst, DataCarriers;
    LowEnd(c.first, c.last);
    if c.last > 298 { UpperEdgeIs(c.first, c.last); }
    if c.first < 64 { LowerEdgeIs(c.first, c.last); }
  }
}
