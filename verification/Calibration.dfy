/** Modem configurations, the length of their frames, and the guard that backs off from a measured one. */
module Calibration {
  import opened Arithmetic
  import opened Common
  import opened ConvolutionalCode

  const FFT_SIZE := 2048
  const SAMPLE_RATE := 48000
  const MAX_SYNC := 2048
  const MAX_TRAINING := 4
  const MAX_REPETITIONS := 4
  const SYNC_LEAD := 128
  const HEADER_BITS := 128

  datatype Modem = Modem(
    fftSize: nat, first: nat, last: nat, prefix: nat, window: nat,
    sync: nat, gap: nat, training: nat, repetitions: nat, qam: nat, rate: Rate)

  /** Every twelfth bin from the first on is a pilot. */
  predicate IsPilot(first: nat, bin: nat)
    requires first <= bin
  {
    (bin - first) % 12 == 0
  }

  /** How many of `width` consecutive bins carry data. */
  function Carriers(width: nat): nat { width - (width + 11) / 12 }

  function DataCarriers(c: Modem): nat {
    if c.last < c.first then 0 else Carriers(c.last - c.first + 1)
  }

  method CountDataCarriers(c: Modem) returns (count: nat)
    ensures count == DataCarriers(c)
  {
    count := 0;
    if c.last < c.first {
      return;
    }
    for bin := c.first to c.last + 1
      invariant count == Carriers(bin - c.first)
    {
      PilotStep(bin - c.first);
      if !IsPilot(c.first, bin) {
        count := count + 1;
      }
    }
  }

  lemma PilotStep(width: nat)
    ensures Carriers(width + 1) == Carriers(width) + if width % 12 == 0 then 0 else 1
  {
    if width % 12 == 0 {
      DivModUnique(width + 11, 12, width / 12, 11);
      DivModUnique(width + 12, 12, width / 12 + 1, 0);
    } else {
      DivModUnique(width + 11, 12, width / 12 + 1, width % 12 - 1);
      DivModUnique(width + 12, 12, width / 12 + 1, width % 12);
    }
  }

  lemma {:induction false} CarriersGrow(w: nat, v: nat)
    requires w <= v
    ensures Carriers(w) <= Carriers(v)
  {
    hide Carriers;
    if w < v {
      CarriersGrow(w, v - 1);
      PilotStep(v - 1);
    }
  }

  predicate Valid(c: Modem) {
    && c.fftSize == FFT_SIZE && 2 <= c.first <= c.last < c.fftSize / 2
    && 8 <= c.prefix <= c.fftSize / 2 && c.window <= c.prefix
    && 512 <= c.sync <= MAX_SYNC && c.gap <= SAMPLE_RATE / 5
    && 2 <= c.training <= MAX_TRAINING && 1 <= c.repetitions <= MAX_REPETITIONS
    && (c.qam == 2 || c.qam == 4 || c.qam == 6)
    && DataCarriers(c) >= 8
  }

  // ---------------------------------------------------------------------
  // The length of a frame
  // ---------------------------------------------------------------------

  function CeilDiv(a: nat, b: nat): nat
    requires b > 0
  {
    a / b + if a % b != 0 then 1 else 0
  }

  function Symbols(c: Modem, payloadBytes: nat): nat
    requires DataCarriers(c) > 0 && c.qam > 0
  {
    assert DataCarriers(c) * c.qam > 0 by { Positive(DataCarriers(c), c.qam); }
    CeilDiv(Kept(Half, FullCount(HEADER_BITS)), DataCarriers(c) * 2) +
    CeilDiv(Kept(c.rate, FullCount(8 * payloadBytes)), DataCarriers(c) * c.qam)
  }

  lemma Positive(a: nat, b: nat)
    requires a > 0 && b > 0
    ensures a * b > 0
  {
  }

  /** Samples of the training symbols and the repeated ones after them. */
  function SymbolSamples(training: nat, symbols: nat, repetitions: nat, each: nat): nat {
    Times(training + Times(symbols, repetitions), each)
  }

  function Times(a: nat, b: nat): nat { a * b }

  /** Samples of a whole frame, from the lead-in to the guard after the last symbol. */
  function Samples(c: Modem, payloadBytes: nat): nat
    requires DataCarriers(c) > 0 && c.qam > 0
  {
    SYNC_LEAD + c.sync + c.gap +
    SymbolSamples(c.training, Symbols(c, payloadBytes), c.repetitions, c.fftSize + c.prefix) + c.window + 64
  }

  // ---------------------------------------------------------------------
  // The guard
  // ---------------------------------------------------------------------

  const HIGH_EDGES: seq<nat> := [298, 362, 448, 512, 640, 768, 853, 896]
  const LOW_EDGES: seq<nat> := [128, 96, 64, 48, 32]

  /** The largest of the values below `limit`, or zero. */
  function LargestBelow(values: seq<nat>, limit: nat): (best: nat)
    ensures best == 0 || (best in values && best < limit)
    ensures forall v | v in values && v < limit :: v <= best
  {
    if values == [] then 0
    else
      var best := LargestBelow(values[..|values| - 1], limit);
      var v := values[|values| - 1];
      assert values == values[..|values| - 1] + [v];
      if v < limit && v > best then v else best
  }

  /** The smallest of the values above `limit`, if there is one. */
  function SmallestAbove(values: seq<nat>, limit: nat): (best: Option<nat>)
    ensures best.Some? ==> best.value in values && best.value > limit
    ensures forall v | v in values && v > limit :: best.Some? && best.value <= v
  {
    if values == [] then None
    else
      var best := SmallestAbove(values[..|values| - 1], limit);
      var v := values[|values| - 1];
      assert values == values[..|values| - 1] + [v];
      if v > limit && (best.None? || v < best.value) then Some(v) else best
  }

  function GuardedLast(first: nat, last: nat): nat {
    if last <= 298 then last
    else
      var edge := LargestBelow(HIGH_EDGES, last);
      var capped := if edge > 768 then 768 else edge;
      if capped >= first then capped else last
  }

  function GuardedFirst(first: nat, last: nat): nat {
    if first >= 64 then first
    else
      var edge := SmallestAbove(LOW_EDGES, first);
      if edge.Some? && edge.value <= GuardedLast(first, last) then edge.value else first
  }

  function Max(a: nat, b: nat): nat { if a < b then b else a }

  function Slower(rate: Rate): Rate {
    if rate == ThreeQuarters then TwoThirds else Half
  }

  /** A more robust mode next to a measured one; the status says whether it is a mode at all. */
  function Guard(c: Modem): (Status, Modem) {
    if !Valid(c) then (ErrArgument, c)
    else
      var strengthened := c.rate != Half || c.qam > 2;
      var g := Modem(c.fftSize, GuardedFirst(c.first, c.last), GuardedLast(c.first, c.last),
                     Max(c.prefix, 1024), Max(c.window, 64), Max(c.sync, 1536), Max(c.gap, 2048), Max(c.training, 3),
                     if strengthened then c.repetitions else Max(c.repetitions, 2),
                     if c.qam > 2 then c.qam - 2 else c.qam,
                     if c.rate != Half then Slower(c.rate) else Half);
      (if Valid(g) then Ok else ErrConfig, g)
  }

  lemma GuardedBand(first: nat, last: nat)
    requires first <= last
    ensures first <= GuardedFirst(first, last) <= GuardedLast(first, last) <= last
  {
  }

  lemma EightCarriers(width: nat)
    ensures Carriers(width) >= 8 <==> width >= 9
  {
    if width >= 9 {
      CarriersGrow(9, width);
    } else {
      CarriersGrow(width, 8);
    }
  }

  /** The guard gives a valid mode exactly when the band it leaves has nine bins. */
  lemma GuardNeedsNineBins(c: Modem)
    requires Valid(c)
    ensures Guard(c).0 == Ok <==> GuardedLast(c.first, c.last) >= GuardedFirst(c.first, c.last) + 8
  {
    hide GuardedLast, GuardedFirst, Carriers;
    GuardedBand(c.first, c.last);
    EightCarriers(GuardedLast(c.first, c.last) - GuardedFirst(c.first, c.last) + 1);
  }

  /** Bands that start just below, or at, the edge the guard takes their upper end to. */
  predicate UpperEdgeCuts(first: nat, last: nat) {
    || (299 <= last <= 362 && 291 <= first <= 298)
    || (363 <= last <= 448 && 355 <= first <= 362)
    || (449 <= last <= 512 && 441 <= first <= 448)
    || (513 <= last <= 640 && 505 <= first <= 512)
    || (641 <= last <= 768 && 633 <= first <= 640)
    || (769 <= last && 761 <= first <= 768)
  }

  /** Bands that end at, or just above, the edge the guard takes their lower end to. */
  predicate LowerEdgeCuts(first: nat, last: nat) {
    || (first <= 31 && 32 <= last <= 39)
    || (32 <= first <= 47 && 48 <= last <= 55)
    || (48 <= first <= 63 && 64 <= last <= 71)
  }

  /** The edge the guard takes an upper end above 298 to. */
  function UpperEdge(last: nat): nat {
    if last <= 362 then 298 else if last <= 448 then 362 else if last <= 512 then 448
    else if last <= 640 then 512 else if last <= 768 then 640 else 768
  }

  lemma UpperEdgeIs(first: nat, last: nat)
    requires last > 298
    ensures GuardedLast(first, last) == if UpperEdge(last) >= first then UpperEdge(last) else last
  {
    var v := HIGH_EDGES;
    assert v[0] in v && v[1] in v && v[2] in v && v[3] in v && v[4] in v && v[5] in v && v[6] in v && v[7] in v;
  }

  lemma LowerEdgeIs(first: nat, last: nat)
    requires first < 64
    ensures var edge := if first < 32 then 32 else if first < 48 then 48 else 64;
            GuardedFirst(first, last) == if edge <= GuardedLast(first, last) then edge else first
  {
    hide GuardedLast;
    var v := LOW_EDGES;
    assert v[2] in v && v[3] in v && v[4] in v;
  }

  /** The guard fails exactly on the bands that an edge cuts to less than nine bins. */
  lemma GuardExact(c: Modem)
    requires Valid(c)
    ensures Guard(c).0 != Ok <==> UpperEdgeCuts(c.first, c.last) || LowerEdgeCuts(c.first, c.last)
  {
    hide Guard, Carriers, GuardedLast, GuardedFirst;
    GuardNeedsNineBins(c);
    EightCarriers(c.last - c.first + 1);
    if c.last > 298 {
      UpperEdgeIs(c.first, c.last);
    } else {
      assert GuardedLast(c.first, c.last) == c.last by { LowEnd(c.first, c.last); }
    }
    if c.first < 64 {
      LowerEdgeIs(c.first, c.last);
    } else {
      assert GuardedFirst(c.first, c.last) == c.first by { LowEnd(c.first, c.last); }
    }
  }

  /** A band that ends at 298 or below, or starts at 64 or above, keeps that end. */
  lemma LowEnd(first: nat, last: nat)
    ensures last <= 298 ==> GuardedLast(first, last) == last
    ensures first >= 64 ==> GuardedFirst(first, last) == first
  {
  }

  /** It is not always so: this valid mode has no guarded one. */
  lemma GuardCanFail()
    ensures var c := Modem(2048, 295, 362, 1024, 64, 1536, 2560, 3, 1, 2, TwoThirds);
            Valid(c) && Guard(c).0 != Ok
  {
    var c := Modem(2048, 295, 362, 1024, 64, 1536, 2560, 3, 1, 2, TwoThirds);
    GuardExact(c);
  }

  // ---------------------------------------------------------------------
  // The guard never shortens a frame
  // ---------------------------------------------------------------------

  lemma CeilDivGrows(a: nat, a': nat, b: nat, b': nat)
    requires a <= a' && 0 < b' <= b
    ensures CeilDiv(a, b) <= CeilDiv(a', b')
  {
    var q, q' := CeilDiv(a, b), CeilDiv(a', b');
    CeilDivBounds(a, b);
    CeilDivBounds(a', b');
    if q > q' {
      Product(q' * b', q' * b, q', b', b);
      Product(q' * b, (q - 1) * b, b, q', q - 1);
    }
  }

  lemma Product(x: int, y: int, k: nat, b: int, c: int)
    requires x == k * b && y == k * c && b <= c
    ensures x <= y
  {
    assert y == x + k * (c - b);
  }

  lemma CeilDivBounds(a: nat, b: nat)
    requires b > 0
    ensures var q := CeilDiv(a, b);
            a <= q * b && (q > 0 ==> (q - 1) * b < a)
  {
    var d := a / b;
    assert a == b * d + a % b;
    assert (d + 1) * b == b * d + b;
  }

  function Kept23(n: nat): nat { 3 * (n / 4) + if n % 4 == 3 then 3 else n % 4 }

  function Kept34(n: nat): nat { 4 * (n / 6) + if n % 6 <= 3 then n % 6 else 3 }

  lemma NextDigit(n: nat, d: nat)
    requires d > 1
    ensures if n % d == d - 1 then (n + 1) / d == n / d + 1 && (n + 1) % d == 0
            else (n + 1) / d == n / d && (n + 1) % d == n % d + 1
  {
    assert n == d * (n / d) + n % d;
    if n % d == d - 1 {
      DivModUnique(n + 1, d, n / d + 1, 0);
    } else {
      DivModUnique(n + 1, d, n / d, n % d + 1);
    }
  }

  /** How many of the first n output bits the patterns keep. */
  lemma {:induction false} KeptForms(n: nat)
    ensures Kept(Half, n) == n && Kept(TwoThirds, n) == Kept23(n) && Kept(ThreeQuarters, n) == Kept34(n)
  {
    hide Keep;
    if n > 0 {
      KeptForms(n - 1);
      Patterns(n - 1);
      NextDigit(n - 1, 4);
      NextDigit(n - 1, 6);
    }
  }

  lemma Patterns(n: nat)
    ensures Keep(Half, n)
    ensures Keep(TwoThirds, n) <==> n % 4 < 3
    ensures Keep(ThreeQuarters, n) <==> n % 6 < 3 || n % 6 == 5
  {
  }

  lemma KeptCompare(n: nat)
    ensures Kept34(n) <= Kept23(n) <= n
  {
    var k, r := n / 12, n % 12;
    assert n == 12 * k + r;
    DivModUnique(n, 6, 2 * k + r / 6, r % 6);
    DivModUnique(n, 4, 3 * k + r / 4, r % 4);
  }

  /** A higher code rate never keeps more bits. */
  lemma KeptOrder(n: nat)
    ensures Kept(ThreeQuarters, n) <= Kept(TwoThirds, n) <= Kept(Half, n)
  {
    KeptForms(n);
    KeptCompare(n);
  }

  lemma SlowerKeepsMore(rate: Rate, n: nat)
    ensures Kept(rate, n) <= Kept(Slower(rate), n)
    ensures Kept(rate, n) <= Kept(Half, n)
  {
    KeptOrder(n);
  }

  lemma SymbolsGrow(c: Modem, g: Modem, payloadBytes: nat)
    requires Valid(c) && Valid(g) && DataCarriers(g) <= DataCarriers(c) && g.qam <= c.qam
    requires Kept(c.rate, FullCount(8 * payloadBytes)) <= Kept(g.rate, FullCount(8 * payloadBytes))
    ensures Symbols(c, payloadBytes) <= Symbols(g, payloadBytes)
  {
    hide Kept, DataCarriers, CeilDiv;
    assert DataCarriers(c) >= 8 && DataCarriers(g) >= 8 by { ManyCarriers(c); ManyCarriers(g); }
    var header := Kept(Half, FullCount(HEADER_BITS));
    CeilDivGrows(header, header, DataCarriers(c) * 2, DataCarriers(g) * 2);
    Positive(DataCarriers(g), g.qam);
    Product(DataCarriers(g) * g.qam, DataCarriers(g) * c.qam, DataCarriers(g), g.qam, c.qam);
    Product(c.qam * DataCarriers(g), c.qam * DataCarriers(c), c.qam, DataCarriers(g), DataCarriers(c));
    CeilDivGrows(Kept(c.rate, FullCount(8 * payloadBytes)), Kept(g.rate, FullCount(8 * payloadBytes)),
                 DataCarriers(c) * c.qam, DataCarriers(g) * g.qam);
  }

  lemma ManyCarriers(c: Modem)
    requires Valid(c)
    ensures DataCarriers(c) >= 8
  {
  }

  lemma SamplesGrow(c: Modem, g: Modem, payloadBytes: nat)
    requires Valid(c) && Valid(g) && Symbols(c, payloadBytes) <= Symbols(g, payloadBytes)
    requires c.sync <= g.sync && c.gap <= g.gap && c.training <= g.training && c.repetitions <= g.repetitions
    requires c.prefix <= g.prefix && c.window <= g.window
    ensures Samples(c, payloadBytes) <= Samples(g, payloadBytes)
  {
    hide Symbols, DataCarriers;
    Longer(c.training, Symbols(c, payloadBytes), c.repetitions, c.fftSize + c.prefix,
           g.training, Symbols(g, payloadBytes), g.repetitions, g.fftSize + g.prefix);
  }

  lemma Longer(t: nat, s: nat, r: nat, h: nat, t': nat, s': nat, r': nat, h': nat)
    requires t <= t' && s <= s' && r <= r' && h <= h'
    ensures SymbolSamples(t, s, r, h) <= SymbolSamples(t', s', r', h')
  {
    Grows(s, s', r, r');
    Grows(t + s * r, t' + s' * r', h, h');
  }

  lemma Grows(a: nat, a': nat, b: nat, b': nat)
    requires a <= a' && b <= b'
    ensures a * b <= a' * b'
  {
    assert a' * b' == a * b + (a' - a) * b + a' * (b' - b);
  }

  /** A guarded frame takes at least as many samples as the measured one, for every payload. */
  lemma GuardNeverShortens(c: Modem, payloadBytes: nat)
    requires Guard(c).0 == Ok
    ensures Valid(c) && Valid(Guard(c).1)
    ensures Samples(c, payloadBytes) <= Samples(Guard(c).1, payloadBytes)
  {
    hide GuardedLast, GuardedFirst, Carriers, Kept, Samples, Symbols;
    var g := Guard(c).1;
    GuardedBand(c.first, c.last);
    CarriersGrow(g.last - g.first + 1, c.last - c.first + 1);
    SlowerKeepsMore(c.rate, FullCount(8 * payloadBytes));
    SymbolsGrow(c, g, payloadBytes);
    SamplesGrow(c, g, payloadBytes);
  }
}
