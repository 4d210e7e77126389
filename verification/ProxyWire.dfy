/** What the audio proxy puts on the wire: batches of packets, and the cells of a window. */
module ProxyWire {
  import opened Arithmetic
  import opened Bytes
  import opened Common
  import opened PacketTransport

  const BATCH_HEADER := 6
  const BATCH_ENTRY := 2
  const WINDOW_HEADER := 10
  const MAX_CELLS := 5
  const MAX_BODY := 2048
  const WINDOW_MAX := MAX_CELLS * (MAX_BODY - WINDOW_HEADER)
  const YIELD_FLAG := 0x8000
  const END_FLAG := 0x80
  const NETWORK_MAX := 2048

  // ---------------------------------------------------------------------
  // Batches
  // ---------------------------------------------------------------------

  /** The length fields of an IP header agree with the packet. */
  predicate ValidIp(p: Packet) {
    && 1 <= |p| <= NETWORK_MAX
    && var version := p[0] / 16;
       if version == 4 then
         |p| >= 20 && 20 <= p[0] % 16 * 4 <= |p| && ReadU16(p, 2) == |p|
       else version == 6 && |p| >= 40 && ReadU16(p, 4) + 40 == |p|
  }

  predicate AllValid(packets: seq<Packet>) {
    forall p <- packets :: ValidIp(p)
  }

  function Entries(packets: seq<Packet>): seq<byte>
    requires AllValid(packets)
  {
    if packets == [] then []
    else
      assert packets[0] in packets;
      Record(packets[0]) + Entries(packets[1..])
  }

  /** A batch: its id, the yield bit, the packet count and the packets with their lengths. */
  function BatchBytes(id: uint32, yielding: bool, packets: seq<Packet>): (body: seq<byte>)
    requires AllValid(packets) && |packets| < 0x100
    ensures |body| == BATCH_HEADER + |Entries(packets)|
  {
    WriteU32(id) + [if yielding then 1 else 0, |packets|] + Entries(packets)
  }

  datatype Batch = Batch(id: uint32, yielding: bool, packets: seq<Packet>)

  function ParseEntries(rest: seq<byte>, count: nat): Option<seq<Packet>> {
    if count == 0 then if rest == [] then Some([]) else None
    else if |rest| < BATCH_ENTRY then None
    else
      var length := ReadU16(rest, 0);
      if length == 0 || length > |rest| - BATCH_ENTRY || !ValidIp(rest[BATCH_ENTRY..BATCH_ENTRY + length]) then None
      else match ParseEntries(rest[BATCH_ENTRY + length..], count - 1)
           case None => None
           case Some(packets) => Some([rest[BATCH_ENTRY..BATCH_ENTRY + length]] + packets)
  }

  function InspectBatch(body: seq<byte>): Option<Batch> {
    if |body| <= BATCH_HEADER || body[4] > 1 || body[5] == 0 then None
    else match ParseEntries(body[BATCH_HEADER..], body[5])
         case None => None
         case Some(packets) => Some(Batch(ReadU32(body, 0), body[4] == 1, packets))
  }

  lemma RecordParts(p: Packet, rest: seq<byte>)
    requires ValidIp(p)
    ensures ReadU16(Record(p) + rest, 0) == |p|
    ensures (Record(p) + rest)[BATCH_ENTRY..BATCH_ENTRY + |p|] == p
    ensures (Record(p) + rest)[BATCH_ENTRY + |p|..] == rest
  {
    U16RoundTrip(|p|, [], p + rest);
    assert Record(p) + rest == [] + WriteU16(|p|) + (p + rest);
  }

  lemma {:induction false} EntriesParse(packets: seq<Packet>)
    requires AllValid(packets)
    ensures ParseEntries(Entries(packets), |packets|) == Some(packets)
  {
    hide ValidIp, Record;
    if packets != [] {
      RecordParts(packets[0], Entries(packets[1..]));
      EntriesParse(packets[1..]);
      assert packets == [packets[0]] + packets[1..];
      assert 1 <= |packets[0]| by { NotEmpty(packets[0]); }
    }
  }

  lemma NotEmpty(p: Packet)
    requires ValidIp(p)
    ensures 1 <= |p| <= NETWORK_MAX
  {
  }

  lemma RecordOf(rest: seq<byte>, length: nat)
    requires BATCH_ENTRY + length <= |rest| && length == ReadU16(rest, 0)
    ensures Record(rest[BATCH_ENTRY..BATCH_ENTRY + length]) == rest[..BATCH_ENTRY + length]
  {
    var high, low := rest[0] as int, rest[1] as int;
    assert length == high * 0x100 + low;
    assert length / 0x100 == high && length % 0x100 == low;
  }

  /** Only the entries themselves parse. */
  lemma {:induction false} ParseMeans(rest: seq<byte>, count: nat)
    ensures var parsed := ParseEntries(rest, count);
            parsed.Some? ==> |parsed.value| == count && AllValid(parsed.value) && rest == Entries(parsed.value)
  {
    hide ValidIp, Record;
    if count > 0 && ParseEntries(rest, count).Some? {
      var length := ReadU16(rest, 0);
      var tail := rest[BATCH_ENTRY + length..];
      ParseMeans(tail, count - 1);
      RecordOf(rest, length);
      var packets := ParseEntries(rest, count).value;
      assert packets[1..] == ParseEntries(tail, count - 1).value;
      assert rest == rest[..BATCH_ENTRY + length] + tail;
    }
  }

  /** A body is accepted exactly when it is a batch of one to 255 well-formed packets, and it has one reading. */
  lemma InspectExact(body: seq<byte>, b: Batch)
    ensures InspectBatch(body) == Some(b) <==>
              AllValid(b.packets) && 1 <= |b.packets| < 0x100 && body == BatchBytes(b.id, b.yielding, b.packets)
  {
    hide ValidIp, ParseEntries, Entries;
    if AllValid(b.packets) && 1 <= |b.packets| < 0x100 && body == BatchBytes(b.id, b.yielding, b.packets) {
      BatchReads(b);
    }
    if InspectBatch(body) == Some(b) {
      ParseMeans(body[BATCH_HEADER..], body[5]);
      HeaderOf(body);
      assert body == body[..BATCH_HEADER] + body[BATCH_HEADER..];
    }
  }

  lemma HeaderOf(body: seq<byte>)
    requires |body| >= BATCH_HEADER
    ensures body[..BATCH_HEADER] == WriteU32(ReadU32(body, 0)) + [body[4], body[5]]
  {
    var a, b, c, d := body[0] as int, body[1] as int, body[2] as int, body[3] as int;
    var v := a * 0x100_0000 + b * 0x1_0000 + c * 0x100 + d;
    assert v == ReadU32(body, 0);
    DivModUnique(v, 0x100_0000, a, b * 0x1_0000 + c * 0x100 + d);
    DivModUnique(v, 0x1_0000, a * 0x100 + b, c * 0x100 + d);
    DivModUnique(v, 0x100, a * 0x1_0000 + b * 0x100 + c, d);
    DivModUnique(a * 0x100 + b, 0x100, a, b);
    DivModUnique(a * 0x1_0000 + b * 0x100 + c, 0x100, a * 0x100 + b, c);
  }

  lemma EntriesNotEmpty(packets: seq<Packet>)
    requires AllValid(packets) && packets != []
    ensures |Entries(packets)| > BATCH_ENTRY
  {
    NotEmpty(packets[0]);
  }

  lemma BatchReads(b: Batch)
    requires AllValid(b.packets) && 1 <= |b.packets| < 0x100
    ensures InspectBatch(BatchBytes(b.id, b.yielding, b.packets)) == Some(b)
  {
    hide ValidIp, ParseEntries, Entries;
    var body := BatchBytes(b.id, b.yielding, b.packets);
    EntriesNotEmpty(b.packets);
    EntriesParse(b.packets);
    U32RoundTrip(b.id, [], [if b.yielding then 1 else 0, |b.packets|] + Entries(b.packets));
    assert body == [] + WriteU32(b.id) + ([if b.yielding then 1 else 0, |b.packets|] + Entries(b.packets));
    assert body[BATCH_HEADER..] == Entries(b.packets);
  }

  /** The inspection loop of the source. */
  method InspectProxyBatch(body: seq<byte>) returns (status: Status, id: uint32, yielding: bool, count: nat, bytes: nat)
    ensures status == if InspectBatch(body).Some? then Ok else ErrHeader
    ensures status == Ok ==>
              var b := InspectBatch(body).value;
              && id == b.id && yielding == b.yielding && count == |b.packets|
              && bytes == |body| - BATCH_HEADER - BATCH_ENTRY * count
  {
    hide ValidIp, ReadU16, ReadU32;
    id, yielding, count, bytes := 0, false, 0, 0;
    if |body| <= BATCH_HEADER || body[4] > 1 {
      return ErrHeader, id, yielding, count, bytes;
    }
    count := body[5];
    if count == 0 {
      return ErrHeader, id, yielding, count, bytes;
    }
    id := ReadU32(body, 0);
    yielding := body[4] == 1;
    var offset := BATCH_HEADER;
    ghost var all := ParseEntries(body[BATCH_HEADER..], count);
    ParseMeans(body[BATCH_HEADER..], count);
    for index := 0 to count
      invariant BATCH_HEADER <= offset <= |body|
      invariant ParseEntries(body[offset..], count - index).Some? <==> all.Some?
      invariant bytes + BATCH_ENTRY * index == offset - BATCH_HEADER
    {
      ghost var rest := body[offset..];
      if |body| - offset < BATCH_ENTRY {
        return ErrHeader, id, yielding, count, bytes;
      }
      var length := ReadU16(body, offset);
      assert ReadU16(rest, 0) == length by { ReadLater(body, offset); }
      offset := offset + BATCH_ENTRY;
      if length == 0 || length > |body| - offset {
        return ErrHeader, id, yielding, count, bytes;
      }
      assert rest[BATCH_ENTRY..BATCH_ENTRY + length] == body[offset..offset + length];
      if !ValidIp(body[offset..offset + length]) {
        return ErrHeader, id, yielding, count, bytes;
      }
      bytes := bytes + length;
      offset := offset + length;
      assert rest[BATCH_ENTRY + length..] == body[offset..];
    }
    status := if offset == |body| then Ok else ErrHeader;
  }

  lemma ReadLater(body: seq<byte>, offset: nat)
    requires offset + 2 <= |body|
    ensures ReadU16(body[offset..], 0) == ReadU16(body, offset)
  {
  }

  // ---------------------------------------------------------------------
  // Cells
  // ---------------------------------------------------------------------

  /** One cell of a window, or with index == count the marker that ends a round. */
  datatype Cell = Cell(id: uint32, total: nat, yielding: bool, offset: nat, index: nat, end: bool, count: nat, payload: seq<byte>)

  predicate CellValid(c: Cell) {
    && BATCH_HEADER < c.total <= WINDOW_MAX && 1 <= c.count <= MAX_CELLS && c.index <= c.count
    && if c.index == c.count then c.end && c.offset == c.total && c.payload == []
       else c.offset < c.total && 1 <= |c.payload| <= c.total - c.offset
  }

  function EncodeCell(c: Cell): seq<byte>
    requires CellValid(c)
  {
    WriteU32(c.id) + WriteU16(c.total + if c.yielding then YIELD_FLAG else 0) + WriteU16(c.offset) +
    [c.index + if c.end then END_FLAG else 0, c.count] + c.payload
  }

  function InspectCell(body: seq<byte>): Option<Cell> {
    if |body| < WINDOW_HEADER then None
    else
      var total, index := ReadU16(body, 4), body[8];
      var c := Cell(ReadU32(body, 0), total % YIELD_FLAG, total >= YIELD_FLAG, ReadU16(body, 6), index % END_FLAG,
                    index >= END_FLAG, body[9], body[WINDOW_HEADER..]);
      if CellValid(c) then Some(c) else None
  }

  lemma FieldsRead(id: uint32, total: uint16, offset: uint16, index: byte, count: byte, payload: seq<byte>)
    ensures var body := WriteU32(id) + WriteU16(total) + WriteU16(offset) + [index, count] + payload;
            && ReadU32(body, 0) == id && ReadU16(body, 4) == total && ReadU16(body, 6) == offset
            && body[8] == index && body[9] == count && body[WINDOW_HEADER..] == payload
  {
    var body := WriteU32(id) + WriteU16(total) + WriteU16(offset) + [index, count] + payload;
    var tail := [index, count] + payload;
    U32RoundTrip(id, [], WriteU16(total) + WriteU16(offset) + tail);
    assert body == [] + WriteU32(id) + (WriteU16(total) + WriteU16(offset) + tail);
    U16RoundTrip(total, WriteU32(id), WriteU16(offset) + tail);
    assert body == WriteU32(id) + WriteU16(total) + (WriteU16(offset) + tail);
    U16RoundTrip(offset, WriteU32(id) + WriteU16(total), tail);
    assert body == WriteU32(id) + WriteU16(total) + WriteU16(offset) + tail;
  }

  /** A window's length never touches the yield bit, so every valid cell reads back as it was. */
  lemma CellReads(c: Cell)
    requires CellValid(c)
    ensures InspectCell(EncodeCell(c)) == Some(c)
  {
    hide ReadU16, ReadU32;
    FieldsRead(c.id, c.total + if c.yielding then YIELD_FLAG else 0, c.offset, c.index + if c.end then END_FLAG else 0,
               c.count, c.payload);
  }
}
