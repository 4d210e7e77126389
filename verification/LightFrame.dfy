/** The optical frame: a 48 by 48 grid of modules, and its decoding under each of the eight orientations. */
module LightFrames {
  import opened Common
  import opened Bytes
  import opened BitPacking
  import opened ConvolutionalCode
  import opened Viterbi
  import opened ViterbiDecoder
  import opened CodeDistance
  import opened CodeCorrection
  import opened Interleaver
  import opened BlockCodec
  import opened ByteBits
  import opened Crc

  const GRID := 48
  const BORDER := 2
  const DATA_FIRST := 3
  const DATA_SIDE := 42
  const DATA_MODULES := DATA_SIDE * DATA_SIDE
  const RAW_BYTES := 109
  const RAW_BITS := 872
  const HEADER_BYTES := 14
  const MAX_PAYLOAD := 91
  const CODED_BITS := 1756

  // ---------------------------------------------------------------------
  // The raw frame
  // ---------------------------------------------------------------------

  function DrawKey(state: bv32): bv32 {
    var v: bv32 := if state == 0 then 0x6d2b_79f5 else state;
    var a := v ^ (v << 13);
    var b := a ^ (a >> 17);
    b ^ (b << 5)
  }

  function KeyState(n: nat): bv32 {
    if n == 0 then 0x87a4_c31d else DrawKey(KeyState(n - 1))
  }

  function KeyByte(key: bv32): byte {
    Byte8((key >> 24) as bv8)
  }

  /** Every byte xored with the key stream; the same once more takes it off. */
  function Keyed(raw: seq<byte>): (w: seq<byte>)
    ensures |w| == |raw|
  {
    seq(|raw|, i requires 0 <= i < |raw| => XorByte(raw[i], KeyByte(KeyState(i + 1))))
  }

  lemma KeyedTwice(raw: seq<byte>)
    ensures Keyed(Keyed(raw)) == raw
  {
    hide XorByte, KeyState, KeyByte;
    forall i | 0 <= i < |raw| ensures Keyed(Keyed(raw))[i] == raw[i] {
      XorTwice(raw[i], KeyByte(KeyState(i + 1)));
    }
  }

  function Number(x: bv32): uint32 {
    x as uint32
  }

  datatype Content = Content(kind: byte, session: uint32, sequence: uint32, payload: seq<byte>)

  function Header(c: Content): (h: seq<byte>)
    requires |c.payload| <= MAX_PAYLOAD
    ensures |h| == HEADER_BYTES
  {
    [0xb6, 0x4d, 1, c.kind] + WriteU32(c.session) + WriteU32(c.sequence) + WriteU16(|c.payload|)
  }

  function Zeros(n: nat): (z: seq<byte>)
    ensures |z| == n
  {
    seq(n, _ => 0)
  }

  function RawFrame(c: Content): (raw: seq<byte>)
    requires |c.payload| <= MAX_PAYLOAD
    ensures |raw| == RAW_BYTES
  {
    Header(c) + c.payload + Zeros(MAX_PAYLOAD - |c.payload|) + WriteU32(Number(Crc32(Header(c) + c.payload)))
  }

  function ReadRaw(raw: seq<byte>): (r: (Status, Content))
    requires |raw| == RAW_BYTES
    ensures r.0 == Ok ==> |r.1.payload| <= MAX_PAYLOAD
  {
    var none := Content(0, 0, 0, []);
    if raw[0] != 0xb6 || raw[1] != 0x4d || raw[2] != 1 then (ErrHeader, none)
    else
      var length := ReadU16(raw, 12);
      if length > MAX_PAYLOAD then (ErrHeader, none)
      else if Number(Crc32(raw[..HEADER_BYTES + length])) != ReadU32(raw, RAW_BYTES - 4) then (ErrCrc, none)
      else (Ok, Content(raw[3], ReadU32(raw, 4), ReadU32(raw, 8), raw[HEADER_BYTES..HEADER_BYTES + length]))
  }

  lemma RawReads(c: Content)
    requires |c.payload| <= MAX_PAYLOAD
    ensures ReadRaw(RawFrame(c)) == (Ok, c)
  {
    hide Number, Crc32, ReadU16, ReadU32;
    var raw, crc := RawFrame(c), Number(Crc32(Header(c) + c.payload));
    var head: seq<byte> := [0xb6, 0x4d, 1, c.kind];
    var fill := Zeros(MAX_PAYLOAD - |c.payload|);
    var body := c.payload + fill + WriteU32(crc);
    U32RoundTrip(c.session, head, WriteU32(c.sequence) + WriteU16(|c.payload|) + body);
    assert raw == head + WriteU32(c.session) + (WriteU32(c.sequence) + WriteU16(|c.payload|) + body);
    U32RoundTrip(c.sequence, head + WriteU32(c.session), WriteU16(|c.payload|) + body);
    assert raw == head + WriteU32(c.session) + WriteU32(c.sequence) + (WriteU16(|c.payload|) + body);
    U16RoundTrip(|c.payload|, head + WriteU32(c.session) + WriteU32(c.sequence), body);
    assert raw == head + WriteU32(c.session) + WriteU32(c.sequence) + WriteU16(|c.payload|) + body;
    U32RoundTrip(crc, Header(c) + c.payload + fill, []);
    assert raw == Header(c) + c.payload + fill + WriteU32(crc) + [];
    assert raw[..HEADER_BYTES + |c.payload|] == Header(c) + c.payload;
    assert raw[HEADER_BYTES..HEADER_BYTES + |c.payload|] == c.payload;
  }

  // ---------------------------------------------------------------------
  // The module grid
  // ---------------------------------------------------------------------

  /** The place of module (row, column) in the grid. */
  function Module(row: nat, column: nat): (m: nat)
    requires row < GRID && column < GRID
    ensures m < GRID * GRID && m / GRID == row && m % GRID == column
  {
    row * GRID + column
  }

  function DataRow(i: nat): (r: nat)
    requires i < DATA_MODULES
    ensures DATA_FIRST <= r < GRID - DATA_FIRST
  {
    DATA_FIRST + i / DATA_SIDE
  }

  function DataColumn(i: nat): (c: nat)
    requires i < DATA_MODULES
    ensures DATA_FIRST <= c < GRID - DATA_FIRST
  {
    DATA_FIRST + i % DATA_SIDE
  }

  predicate InBorder(row: nat, column: nat) {
    row < BORDER || row >= GRID - BORDER || column < BORDER || column >= GRID - BORDER
  }

  predicate InData(row: nat, column: nat) {
    DATA_FIRST <= row < GRID - DATA_FIRST && DATA_FIRST <= column < GRID - DATA_FIRST
  }

  /** The number of a data module. */
  function IndexOf(row: nat, column: nat): (i: nat)
    requires InData(row, column)
    ensures i < DATA_MODULES && DataRow(i) == row && DataColumn(i) == column
  {
    (row - DATA_FIRST) * DATA_SIDE + (column - DATA_FIRST)
  }

  /** The coded and interleaved bits of a frame. */
  function CodedFrame(c: Content): (bits: Word)
    requires |c.payload| <= MAX_PAYLOAD
    ensures |bits| == CODED_BITS
  {
    FrameCodeLength(ToBits(Keyed(RawFrame(c))));
    Interleaved(Encode(ToBits(Keyed(RawFrame(c))), Half))
  }

  lemma FrameCodeLength(data: Word)
    requires |data| == RAW_BITS
    ensures |Encode(data, Half)| == CODED_BITS
  {
    EncodeLength(data, Half);
    HalfKept(FullCount(|data|));
  }

  /** What module (row, column) shows: border dark, separator light, then the coded bits and a pattern. */
  function ModuleOf(c: Content, row: nat, column: nat): bit
    requires |c.payload| <= MAX_PAYLOAD && row < GRID && column < GRID
  {
    if InBorder(row, column) then 1
    else if !InData(row, column) then 0
    else
      var i := IndexOf(row, column);
      if i < CODED_BITS then CodedFrame(c)[i] else i % 2
  }

  function Modules(c: Content): (m: Word)
    requires |c.payload| <= MAX_PAYLOAD
    ensures |m| == GRID * GRID
  {
    seq(GRID * GRID, k requires 0 <= k < GRID * GRID => ModuleOf(c, k / GRID, k % GRID))
  }

  // ---------------------------------------------------------------------
  // Orientations
  // ---------------------------------------------------------------------

  /** Where the camera sees module (row, column). */
  function Orient(orientation: nat, row: nat, column: nat): (p: (nat, nat))
    requires row < GRID && column < GRID
    ensures p.0 < GRID && p.1 < GRID
  {
    var last := GRID - 1;
    match orientation
    case 0 => (row, column)
    case 1 => (column, last - row)
    case 2 => (last - row, last - column)
    case 3 => (last - column, row)
    case 4 => (row, last - column)
    case 5 => (last - column, last - row)
    case 6 => (last - row, column)
    case _ => (column, row)
  }

  /** No orientation shows two modules in one place. */
  lemma OrientInjective(o: nat, row: nat, column: nat, row': nat, column': nat)
    requires row < GRID && column < GRID && row' < GRID && column' < GRID
    requires Orient(o, row, column) == Orient(o, row', column')
    ensures row == row' && column == column'
  {
  }

  function Clamp(x: real): real {
    if x > 6.0 then 6.0 else if x < -6.0 then -6.0 else x
  }

  function Scaled(x: real, gain: real): real { x * gain }

  function SoftOf(level: real, threshold: real, contrast: real): real
    requires contrast > 0.0
  {
    Clamp(Scaled(threshold - level, 4.0 / contrast))
  }

  function SoftBits(grid: seq<real>, threshold: real, contrast: real, o: nat): (soft: Soft)
    requires |grid| == GRID * GRID && contrast > 0.0
    ensures |soft| == CODED_BITS
  {
    seq(CODED_BITS, i requires 0 <= i < CODED_BITS =>
      var (r, c) := Orient(o, DataRow(i), DataColumn(i));
      SoftOf(grid[Module(r, c)], threshold, contrast))
  }

  datatype Seen = Seen(content: Content, disagreements: nat)

  function DataBits(soft: Soft): (data: Word)
    requires |soft| == CODED_BITS
    ensures |data| == RAW_BITS
  {
    HalfKept(FullCount(RAW_BITS));
    DecodedWord(Deinterleaved(soft), Half, RAW_BITS)
  }

  lemma {:induction false} HalfKept(count: nat)
    ensures Kept(Half, count) == count
  {
    if count > 0 {
      HalfKept(count - 1);
    }
  }

  /** Decoding under one orientation; the count says how many observed bits the code corrected. */
  function DecodeOrientation(grid: seq<real>, threshold: real, contrast: real, o: nat, room: nat): (Status, Seen)
    requires |grid| == GRID * GRID && contrast > 0.0
  {
    var soft := SoftBits(grid, threshold, contrast, o);
    var data := DataBits(soft);
    var (status, content) := ReadRaw(Keyed(FromBits(data)));
    if status != Ok then (status, Seen(content, 0))
    else if room < |content.payload| then (ErrCapacity, Seen(content, 0))
    else
      FrameCodeLength(data);
      (Ok, Seen(content, Distance(Signs(soft), Interleaved(Encode(data, Half)))))
  }

  // ---------------------------------------------------------------------
  // The round trip
  // ---------------------------------------------------------------------

  /** The grid shows the frame under this orientation, dark modules below the threshold and light ones above. */
  ghost predicate Shows(grid: seq<real>, modules: Word, threshold: real, o: nat)
    requires |grid| == |modules| == GRID * GRID
  {
    forall row: nat, column: nat | row < GRID && column < GRID ::
      var (r, c) := Orient(o, row, column);
      if modules[Module(row, column)] == 1 then grid[Module(r, c)] < threshold else grid[Module(r, c)] > threshold
  }

  lemma SoftSign(level: real, threshold: real, contrast: real)
    requires contrast > 0.0 && level != threshold
    ensures if level < threshold then SoftOf(level, threshold, contrast) > 0.0 else SoftOf(level, threshold, contrast) < 0.0
  {
    Positive(contrast);
    ScaledSign(threshold - level, 4.0 / contrast);
  }

  lemma Positive(contrast: real)
    requires contrast > 0.0
    ensures 4.0 / contrast > 0.0
  {
  }

  lemma ScaledSign(x: real, gain: real)
    requires gain > 0.0
    ensures x > 0.0 ==> Scaled(x, gain) > 0.0
    ensures x < 0.0 ==> Scaled(x, gain) < 0.0
  {
  }

  lemma DataModule(c: Content, i: nat)
    requires |c.payload| <= MAX_PAYLOAD && i < CODED_BITS
    ensures Modules(c)[Module(DataRow(i), DataColumn(i))] == CodedFrame(c)[i]
  {
    hide CodedFrame;
    assert i / DATA_SIDE * DATA_SIDE + i % DATA_SIDE == i;
  }

  /** The soft values of a frame that is shown have the right signs. */
  lemma ShownSigns(c: Content, grid: seq<real>, threshold: real, contrast: real, o: nat)
    requires |c.payload| <= MAX_PAYLOAD && |grid| == GRID * GRID && contrast > 0.0
    requires Shows(grid, Modules(c), threshold, o)
    ensures RightSigns(CodedFrame(c), SoftBits(grid, threshold, contrast, o))
    ensures Signs(SoftBits(grid, threshold, contrast, o)) == CodedFrame(c)
  {
    hide CodedFrame, SoftOf, Orient, Modules, Module;
    var soft := SoftBits(grid, threshold, contrast, o);
    forall i | 0 <= i < CODED_BITS
      ensures if CodedFrame(c)[i] == 0 then soft[i] < 0.0 else soft[i] > 0.0
    {
      DataModule(c, i);
      var (r, s) := Orient(o, DataRow(i), DataColumn(i));
      SoftSign(grid[Module(r, s)], threshold, contrast);
    }
  }

  lemma SignsUnderPermutation(word: Word, soft: Soft)
    requires |word| == |soft| && RightSigns(Interleaved(word), soft)
    ensures RightSigns(word, Deinterleaved(soft))
  {
    hide Place, Source;
    forall i | 0 <= i < |word|
      ensures if word[i] == 0 then Deinterleaved(soft)[i] < 0.0 else Deinterleaved(soft)[i] > 0.0
    {
      InterleavedAt(word, i);
    }
  }

  lemma DataBack(c: Content, soft: Soft)
    requires |c.payload| <= MAX_PAYLOAD && |soft| == CODED_BITS && RightSigns(CodedFrame(c), soft)
    ensures DataBits(soft) == ToBits(Keyed(RawFrame(c)))
  {
    hide Encode, DecodedWord, ToBits, Keyed, RawFrame, Kept, Deinterleaved, RightSigns;
    var data := ToBits(Keyed(RawFrame(c)));
    FrameCodeLength(data);
    SignsUnderPermutation(Encode(data, Half), soft);
    DecodeUndoesEncode(data, Deinterleaved(soft), Half);
  }

  /**
   Every frame, seen in any of the eight orientations with its dark and light
   modules on the right sides of the threshold, decodes under that orientation
   to the same content, with no bit corrected.
   */
  lemma FrameRoundTrip(c: Content, grid: seq<real>, threshold: real, contrast: real, o: nat, room: nat)
    requires |c.payload| <= MAX_PAYLOAD && |c.payload| <= room && |grid| == GRID * GRID && contrast > 0.0
    requires Shows(grid, Modules(c), threshold, o)
    ensures DecodeOrientation(grid, threshold, contrast, o, room) == (Ok, Seen(c, 0))
  {
    hide Encode, ToBits, FromBits, Keyed, RawFrame, Interleaved, DataBits, Shows, ReadRaw, RightSigns, SoftBits;
    var soft := SoftBits(grid, threshold, contrast, o);
    var raw := RawFrame(c);
    ShownSigns(c, grid, threshold, contrast, o);
    DataBack(c, soft);
    FromBitsUndoes(Keyed(raw));
    KeyedTwice(raw);
    RawReads(c);
    DistanceZero(CodedFrame(c));
  }

  // ---------------------------------------------------------------------
  // Damaged frames
  // ---------------------------------------------------------------------

  lemma SoftDeinterleaves(soft: Soft, low: real, high: real)
    ensures Deinterleaved(Signs(soft)) == Signs(Deinterleaved(soft))
    ensures Between(soft, low, high) ==> Between(Deinterleaved(soft), low, high)
  {
    hide Place;
  }

  lemma ErrorsUnderPermutation(word: Word, received: Word)
    requires |word| == |received|
    ensures Distance(word, Deinterleaved(received)) <= |Errors(Interleaved(word), received)|
  {
    hide Place, Source, Distance;
    forall i | i in Errors(word, Deinterleaved(received))
      ensures Place(i, |word|) in Errors(Interleaved(word), received)
    {
      InterleavedAt(word, i);
    }
    PlacedErrors(Errors(word, Deinterleaved(received)), Errors(Interleaved(word), received), |word|);
    DistanceCounts(word, Deinterleaved(received));
  }

  lemma DataRepaired(c: Content, soft: Soft, low: real, high: real)
    requires |c.payload| <= MAX_PAYLOAD && |soft| == CODED_BITS && 0.0 <= low <= high && Between(soft, low, high)
    requires Outweighed(Half, |Errors(CodedFrame(c), Signs(soft))|, low, high)
    ensures DataBits(soft) == ToBits(Keyed(RawFrame(c)))
  {
    hide Encode, DecodedWord, ToBits, Keyed, RawFrame, Kept, Deinterleaved, Distance, Interleaved, Between, Signs, Outweighed,
         Errors;
    var data := ToBits(Keyed(RawFrame(c)));
    FrameCodeLength(data);
    SoftDeinterleaves(soft, low, high);
    ErrorsUnderPermutation(Encode(data, Half), Signs(soft));
    FewerErrors(Half, Distance(Encode(data, Half), Signs(Deinterleaved(soft))), |Errors(CodedFrame(c), Signs(soft))|, low, high);
    ErrorsAreCorrected(data, Deinterleaved(soft), Half, low, high);
  }

  /**
   A frame with wrong modules decodes to its content while the right ones
   outweigh them, and the count says exactly how many modules were wrong.
   Soft values of one magnitude allow four wrong modules.
   */
  lemma DamagedFrame(c: Content, grid: seq<real>, threshold: real, contrast: real, o: nat, room: nat, low: real, high: real)
    requires |c.payload| <= MAX_PAYLOAD && |c.payload| <= room && |grid| == GRID * GRID && contrast > 0.0
    requires 0.0 <= low <= high && Between(SoftBits(grid, threshold, contrast, o), low, high)
    requires Outweighed(Half, |Errors(CodedFrame(c), Signs(SoftBits(grid, threshold, contrast, o)))|, low, high)
    ensures DecodeOrientation(grid, threshold, contrast, o, room) ==
            (Ok, Seen(c, |Errors(Signs(SoftBits(grid, threshold, contrast, o)), CodedFrame(c))|))
  {
    hide Encode, ToBits, FromBits, Keyed, RawFrame, Interleaved, DataBits, ReadRaw, SoftBits, Distance, Errors, Between, Signs,
         Outweighed;
    var raw := RawFrame(c);
    var soft := SoftBits(grid, threshold, contrast, o);
    DataRepaired(c, soft, low, high);
    FromBitsUndoes(Keyed(raw));
    KeyedTwice(raw);
    RawReads(c);
    DistanceCounts(Signs(soft), CodedFrame(c));
  }

  /** Up to four wrong modules in an image of even contrast, whatever the contrast. */
  lemma FourWrongModules(c: Content, grid: seq<real>, threshold: real, contrast: real, o: nat, room: nat, magnitude: real)
    requires |c.payload| <= MAX_PAYLOAD && |c.payload| <= room && |grid| == GRID * GRID && contrast > 0.0
    requires magnitude > 0.0 && Between(SoftBits(grid, threshold, contrast, o), magnitude, magnitude)
    requires |Errors(CodedFrame(c), Signs(SoftBits(grid, threshold, contrast, o)))| <= 4
    ensures DecodeOrientation(grid, threshold, contrast, o, room) ==
            (Ok, Seen(c, |Errors(Signs(SoftBits(grid, threshold, contrast, o)), CodedFrame(c))|))
  {
    hide SoftBits, Errors, Between, Signs, Outweighed, CodedFrame, DecodeOrientation;
    EvenlyOutweighed(Half, |Errors(CodedFrame(c), Signs(SoftBits(grid, threshold, contrast, o)))|, magnitude);
    DamagedFrame(c, grid, threshold, contrast, o, room, magnitude, magnitude);
  }

  // ---------------------------------------------------------------------
  // The encoder and decoder of the source
  // ---------------------------------------------------------------------

  method Whiten(raw: array<byte>)
    requires raw.Length == RAW_BYTES
    modifies raw
    ensures raw[..] == Keyed(old(raw[..]))
  {
    hide XorByte, DrawKey, KeyByte;
    var state := KeyState(0);
    for i := 0 to RAW_BYTES
      invariant state == KeyState(i)
      invariant forall k | 0 <= k < RAW_BYTES :: raw[k] == if k < i then Keyed(old(raw[..]))[k] else old(raw[k])
    {
      state := DrawKey(state);
      raw[i] := XorByte(raw[i], KeyByte(state));
    }
  }

  /** Copies bytes into the buffer, as the big-endian writers and memcpy of the source do. */
  method PutBytes(raw: array<byte>, at: nat, bytes: seq<byte>)
    requires at + |bytes| <= raw.Length
    modifies raw
    ensures raw[..] == old(raw[..at]) + bytes + old(raw[at + |bytes|..])
  {
    forall k | 0 <= k < |bytes| {
      raw[at + k] := bytes[k];
    }
  }

  /** The frame with its header written, before payload and checksum. */
  method StartRaw(c: Content) returns (raw: array<byte>)
    requires |c.payload| <= MAX_PAYLOAD
    ensures fresh(raw) && raw[..] == Header(c) + Zeros(RAW_BYTES - HEADER_BYTES)
  {
    ghost var head := [0xb6, 0x4d, 1, c.kind];
    raw := new byte[RAW_BYTES](_ => 0);
    PutBytes(raw, 0, [0xb6, 0x4d, 1, c.kind]);
    assert raw[..] == head + Zeros(105);
    PutBytes(raw, 4, WriteU32(c.session));
    assert raw[..] == head + WriteU32(c.session) + Zeros(101);
    PutBytes(raw, 8, WriteU32(c.sequence));
    assert raw[..] == head + WriteU32(c.session) + WriteU32(c.sequence) + Zeros(97);
    PutBytes(raw, 12, WriteU16(|c.payload|));
    assert raw[..] == head + WriteU32(c.session) + WriteU32(c.sequence) + WriteU16(|c.payload|) + Zeros(95);
  }

  method BuildRaw(c: Content) returns (raw: array<byte>)
    requires |c.payload| <= MAX_PAYLOAD
    ensures fresh(raw) && raw[..] == RawFrame(c)
  {
    hide Crc32, Number, Header;
    raw := StartRaw(c);
    PutBytes(raw, HEADER_BYTES, c.payload);
    assert raw[..] == Header(c) + c.payload + Zeros(95 - |c.payload|);
    assert raw[..HEADER_BYTES + |c.payload|] == Header(c) + c.payload;
    var crc := ComputeCrc(raw[..HEADER_BYTES + |c.payload|]);
    assert raw[..RAW_BYTES - 4] == Header(c) + c.payload + Zeros(MAX_PAYLOAD - |c.payload|);
    PutBytes(raw, RAW_BYTES - 4, WriteU32(Number(crc)));
  }

  /** The coded and interleaved bits of the content. */
  method CodeFrame(c: Content) returns (interleaved: array<bit>)
    requires |c.payload| <= MAX_PAYLOAD
    ensures fresh(interleaved) && interleaved[..] == CodedFrame(c)
  {
    hide Keyed, RawFrame, ToBits, Encode, Kept, Interleaved;
    var raw := BuildRaw(c);
    Whiten(raw);
    var bits := new bit[RAW_BITS];
    BytesToBits(raw[..], bits);
    assert bits[..] == ToBits(Keyed(RawFrame(c)));
    FrameCodeLength(bits[..]);
    EncodeLength(bits[..], Half);
    var coded := new bit[CODED_BITS];
    var status, count := EncodeBits(bits[..], Half, coded);
    assert count == CODED_BITS && coded[..] == Encode(bits[..], Half);
    interleaved := new bit[CODED_BITS];
    status := InterleaveBits(coded, interleaved);
  }

  /** Border, separator and nothing else yet. */
  function Blank(row: nat, column: nat): bit {
    if InBorder(row, column) then 1 else 0
  }

  method DrawBorder(modules: array<bit>)
    requires modules.Length >= GRID * GRID
    modifies modules
    ensures forall row: nat, column: nat | row < GRID && column < GRID ::
              modules[Module(row, column)] == Blank(row, column)
    ensures modules[GRID * GRID..] == old(modules[GRID * GRID..])
  {
    forall k | 0 <= k < GRID * GRID {
      modules[k] := 0;
    }
    for row := 0 to GRID
      invariant forall r: nat, c: nat | r < GRID && c < GRID ::
                  modules[Module(r, c)] == if r < row then Blank(r, c) else 0
      invariant modules[GRID * GRID..] == old(modules[GRID * GRID..])
    {
      for column := 0 to GRID
        invariant forall r: nat, c: nat | r < GRID && c < GRID ::
                    modules[Module(r, c)] == if r < row || (r == row && c < column) then Blank(r, c) else 0
        invariant modules[GRID * GRID..] == old(modules[GRID * GRID..])
      {
        if InBorder(row, column) {
          modules[row * GRID + column] := 1;
        }
        assert row * GRID + column == Module(row, column);
      }
    }
  }

  lemma DataIndex(i: nat)
    requires i < DATA_MODULES
    ensures InData(DataRow(i), DataColumn(i)) && !InBorder(DataRow(i), DataColumn(i))
    ensures IndexOf(DataRow(i), DataColumn(i)) == i
  {
  }

  method EncodeFrame(c: Content, modules: array<bit>) returns (status: Status)
    modifies modules
    ensures status == if modules.Length < GRID * GRID then ErrArgument else if |c.payload| > MAX_PAYLOAD then ErrCapacity else Ok
    ensures status == Ok ==> modules[..GRID * GRID] == Modules(c)
    ensures status == Ok ==> modules[GRID * GRID..] == old(modules[GRID * GRID..])
    ensures status != Ok ==> modules[..] == old(modules[..])
  {
    hide CodedFrame, Module, InBorder, InData, IndexOf, DataRow, DataColumn;
    if modules.Length < GRID * GRID {
      return ErrArgument;
    }
    if |c.payload| > MAX_PAYLOAD {
      return ErrCapacity;
    }
    DrawBorder(modules);
    var interleaved := CodeFrame(c);
    for i := 0 to DATA_MODULES
      invariant interleaved[..] == CodedFrame(c)
      invariant forall row: nat, column: nat | row < GRID && column < GRID ::
                  modules[Module(row, column)] ==
                  if InData(row, column) && IndexOf(row, column) < i
                  then ModuleOf(c, row, column) else Blank(row, column)
      invariant modules[GRID * GRID..] == old(modules[GRID * GRID..])
    {
      var row, column := DATA_FIRST + i / DATA_SIDE, DATA_FIRST + i % DATA_SIDE;
      DataIndex(i);
      PlaceModule(i, row, column);
      modules[row * GRID + column] := if i < CODED_BITS then interleaved[i] else i % 2;
      assert modules[Module(row, column)] == ModuleOf(c, row, column);
    }
    status := Ok;
  }

  lemma PlaceModule(i: nat, row: nat, column: nat)
    requires i < DATA_MODULES && row == DATA_FIRST + i / DATA_SIDE && column == DATA_FIRST + i % DATA_SIDE
    ensures row == DataRow(i) && column == DataColumn(i) && row * GRID + column == Module(row, column)
  {
  }

  /** The soft values of the data modules under one orientation. */
  method SampleBits(grid: array<real>, threshold: real, contrast: real, o: nat) returns (soft: array<real>)
    requires grid.Length == GRID * GRID && contrast > 0.0
    ensures fresh(soft) && soft[..] == SoftBits(grid[..], threshold, contrast, o)
  {
    hide Orient, Module, Scaled;
    soft := new real[CODED_BITS];
    for i := 0 to CODED_BITS
      invariant forall k | 0 <= k < i :: soft[k] == SoftBits(grid[..], threshold, contrast, o)[k]
    {
      var (row, column) := Orient(o, DataRow(i), DataColumn(i));
      var value := Scaled(threshold - grid[Module(row, column)], 4.0 / contrast);
      if value > 6.0 {
        value := 6.0;
      } else if value < -6.0 {
        value := -6.0;
      }
      soft[i] := value;
    }
  }

  /** The data bits behind the soft values, and the raw bytes they spell. */
  method DecodeData(soft: array<real>, raw: array<byte>) returns (data: array<bit>)
    requires soft.Length == CODED_BITS && raw.Length == RAW_BYTES
    modifies raw
    ensures fresh(data) && data[..] == DataBits(soft[..])
    ensures raw[..] == Keyed(FromBits(DataBits(soft[..])))
  {
    hide Place, Kept, DecodedWord, Keyed;
    var ordered := new real[CODED_BITS];
    data := new bit[RAW_BITS];
    var status := DeinterleaveSoft(soft, ordered);
    HalfKept(FullCount(RAW_BITS));
    status := DecodeBits(ordered[..], RAW_BITS, Half, data);
    assert data[..RAW_BITS] == data[..];
    BitsToBytes(data[..], raw);
    assert Padded(data[..]) == data[..];
    assert raw[..RAW_BYTES] == raw[..];
    Whiten(raw);
  }

  method CountDisagreements(soft: array<real>, bits: array<bit>) returns (count: nat)
    requires soft.Length == bits.Length
    ensures count == Distance(Signs(soft[..]), bits[..])
  {
    hide Distance;
    count := 0;
    DistanceZero([]);
    for i := 0 to soft.Length
      invariant count == Distance(Signs(soft[..])[..i], bits[..][..i])
    {
      var observed: bit := if soft[i] >= 0.0 then 1 else 0;
      DistanceAppend(Signs(soft[..])[..i], bits[..][..i], observed, bits[i]);
      assert Signs(soft[..])[..i + 1] == Signs(soft[..])[..i] + [observed];
      assert bits[..][..i + 1] == bits[..][..i] + [bits[i]];
      if observed != bits[i] {
        count := count + 1;
      }
    }
    assert Signs(soft[..])[..soft.Length] == Signs(soft[..]) && bits[..][..soft.Length] == bits[..];
  }

  /** The coded bits of what was decoded, for comparison with what was seen. */
  method Reconstruct(data: array<bit>) returns (interleaved: array<bit>)
    requires data.Length == RAW_BITS
    ensures fresh(interleaved) && interleaved[..] == Interleaved(Encode(data[..], Half)) && interleaved.Length == CODED_BITS
  {
    hide Kept, Encode, Interleaved;
    FrameCodeLength(data[..]);
    EncodeLength(data[..], Half);
    var coded := new bit[CODED_BITS];
    var status, count := EncodeBits(data[..], Half, coded);
    assert count == CODED_BITS && coded[..] == Encode(data[..], Half);
    interleaved := new bit[CODED_BITS];
    status := InterleaveBits(coded, interleaved);
  }

  method DecodeGrid(grid: array<real>, threshold: real, contrast: real, o: nat, room: nat) returns (status: Status, seen: Seen)
    requires grid.Length == GRID * GRID && contrast > 0.0
    ensures (status, seen) == DecodeOrientation(grid[..], threshold, contrast, o, room)
  {
    hide SoftBits, DataBits, FromBits, Keyed, Interleaved, Encode, Distance, Crc32, Number, ReadU16, ReadU32;
    var soft := SampleBits(grid, threshold, contrast, o);
    var raw := new byte[RAW_BYTES];
    var data := DecodeData(soft, raw);
    seen := Seen(Content(0, 0, 0, []), 0);
    if raw[0] != 0xb6 || raw[1] != 0x4d || raw[2] != 1 {
      return ErrHeader, seen;
    }
    var length := ReadU16(raw[..], 12);
    if length > MAX_PAYLOAD {
      return ErrHeader, seen;
    }
    var crc := ComputeCrc(raw[..HEADER_BYTES + length]);
    assert raw[..HEADER_BYTES + length] == raw[..][..HEADER_BYTES + length];
    if Number(crc) != ReadU32(raw[..], RAW_BYTES - 4) {
      return ErrCrc, seen;
    }
    var content := Content(raw[3], ReadU32(raw[..], 4), ReadU32(raw[..], 8), raw[HEADER_BYTES..HEADER_BYTES + length]);
    assert raw[HEADER_BYTES..HEADER_BYTES + length] == raw[..][HEADER_BYTES..HEADER_BYTES + length];
    seen := Seen(content, 0);
    if room < length {
      return ErrCapacity, seen;
    }
    var interleaved := Reconstruct(data);
    var count := CountDisagreements(soft, interleaved);
    return Ok, Seen(content, count);
  }
}
