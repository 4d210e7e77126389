/** The cells of a window put together again are the window's batch, however they arrive. */
module ProxyWindows {
  import opened Bytes
  import opened Common
  import opened PacketTransport
  import opened ProxyWire
  import opened ProxyLink

  /** A window as it was started. */
  datatype Job = Job(id: uint32, yielding: bool, packets: seq<Packet>)

  predicate Packable(j: Job) {
    AllValid(j.packets) && 1 <= |j.packets| < 0x100
  }

  function BatchOf(j: Job): seq<byte>
    requires Packable(j)
  {
    BatchBytes(j.id, j.yielding, j.packets)
  }

  function Capacity(limit: nat): nat
    requires limit > WINDOW_HEADER
  {
    limit - WINDOW_HEADER
  }

  predicate FitsLimit(j: Job, limit: nat) {
    && Packable(j) && limit > WINDOW_HEADER && |BatchOf(j)| <= WINDOW_MAX
    && CellCount(|BatchOf(j)|, Capacity(limit)) <= MAX_CELLS
  }

  function Cells(j: Job, limit: nat): nat
    requires FitsLimit(j, limit)
  {
    CellCount(|BatchOf(j)|, Capacity(limit))
  }

  lemma CountBounds(total: nat, capacity: nat)
    requires capacity > 0 && total > 0
    ensures var count := CellCount(total, capacity);
            count >= 1 && CellStart(capacity, count - 1) < total <= CellStart(capacity, count)
  {
    var count := CellCount(total, capacity);
    var r := (total + capacity - 1) % capacity;
    assert total + capacity - 1 == capacity * count + r;
    assert CellStart(capacity, count) == capacity * count;
    assert CellStart(capacity, count - 1) == capacity * count - capacity;
  }

  lemma StartsGrow(capacity: nat, i: nat, j: nat)
    requires i <= j
    ensures CellStart(capacity, i) <= CellStart(capacity, j)
    ensures i < j ==> CellStart(capacity, i) + capacity <= CellStart(capacity, j)
  {
    assert CellStart(capacity, j) == CellStart(capacity, i) + (j - i) * capacity;
    if i < j {
      assert (j - i) * capacity == capacity + (j - i - 1) * capacity;
    }
  }

  lemma BatchLong(j: Job)
    requires Packable(j)
    ensures |BatchOf(j)| > BATCH_HEADER
  {
    EntriesNotEmpty(j.packets);
  }

  /** Every cell of a window starts inside the batch. */
  lemma StartsInside(j: Job, limit: nat)
    requires FitsLimit(j, limit)
    ensures Cells(j, limit) >= 1
    ensures forall i: nat | i < Cells(j, limit) :: CellStart(Capacity(limit), i) < |BatchOf(j)|
  {
    hide CellStart, BatchOf, CellCount;
    BatchLong(j);
    CountBounds(|BatchOf(j)|, Capacity(limit));
    forall i: nat | i < Cells(j, limit) ensures CellStart(Capacity(limit), i) < |BatchOf(j)| {
      StartsGrow(Capacity(limit), i, Cells(j, limit) - 1);
    }
  }

  /** The cell belongs to the window, wherever it stands in its round. */
  predicate Fits(j: Job, limit: nat, c: Cell)
    requires FitsLimit(j, limit)
  {
    var count := Cells(j, limit);
    if c.index < count then
      && CellStart(Capacity(limit), c.index) < |BatchOf(j)|
      && c == CellAt(BatchOf(j), j.id, j.yielding, Capacity(limit), count, c.index, c.end)
    else c == EndMarker(BatchOf(j), j.id, j.yielding, count)
  }

  /** A true cell passes all checks on the wire format. */
  lemma FitsIsValid(j: Job, limit: nat, c: Cell)
    requires FitsLimit(j, limit) && Fits(j, limit, c)
    ensures CellValid(c) && c.count == Cells(j, limit) == CellCount(c.total, Capacity(limit))
    ensures c.total == |BatchOf(j)| && c.id == j.id && c.yielding == j.yielding
    ensures c.index < c.count ==>
              && c.offset == CellStart(Capacity(limit), c.index) < c.total
              && c.offset + |c.payload| == CellEnd(c.total, Capacity(limit), c.index)
              && c.payload == BatchOf(j)[c.offset..CellEnd(c.total, Capacity(limit), c.index)]
  {
    hide CellStart, BatchOf, CellCount;
    BatchLong(j);
    StartsInside(j, limit);
  }

  // ---------------------------------------------------------------------
  // Rounds
  // ---------------------------------------------------------------------

  ghost predicate AllFit(messages: seq<Message>, sequence: nat, j: Job, limit: nat)
    requires FitsLimit(j, limit)
  {
    forall m <- messages :: m.Window? && m.sequence == sequence && Fits(j, limit, m.cell)
  }

  lemma CoversBatch(j: Job, limit: nat)
    requires FitsLimit(j, limit)
    ensures Covers(BatchOf(j), Capacity(limit), Cells(j, limit))
  {
    hide CellStart, BatchOf, CellCount;
    StartsInside(j, limit);
  }

  lemma {:induction false} PendingFit(sequence: nat, j: Job, limit: nat, pending: seq<bool>, index: nat)
    requires FitsLimit(j, limit) && |pending| == Cells(j, limit) && index <= |pending|
    ensures Covers(BatchOf(j), Capacity(limit), |pending|)
    ensures AllFit(PendingCells(sequence, BatchOf(j), j.id, j.yielding, Capacity(limit), pending, index), sequence, j, limit)
    decreases |pending| - index
  {
    hide CellStart, BatchOf, CellCount;
    CoversBatch(j, limit);
    if index < |pending| {
      PendingFit(sequence, j, limit, pending, index + 1);
      StartsInside(j, limit);
    }
  }

  /** A round sends only true cells of the window. */
  lemma RoundFits(sequence: nat, j: Job, limit: nat, pending: seq<bool>)
    requires FitsLimit(j, limit) && |pending| == Cells(j, limit)
    ensures Covers(BatchOf(j), Capacity(limit), |pending|)
    ensures AllFit(RoundMessages(sequence, BatchOf(j), j.id, j.yielding, Capacity(limit), pending), sequence, j, limit)
  {
    hide CellStart, BatchOf, CellCount;
    PendingFit(sequence, j, limit, pending, 0);
  }

  // ---------------------------------------------------------------------
  // The inbox
  // ---------------------------------------------------------------------

  predicate HasCell(buffer: seq<byte>, batch: seq<byte>, capacity: nat, i: nat) {
    && CellStart(capacity, i) <= CellEnd(|batch|, capacity, i) <= |batch| <= |buffer|
    && buffer[CellStart(capacity, i)..CellEnd(|batch|, capacity, i)] ==
       batch[CellStart(capacity, i)..CellEnd(|batch|, capacity, i)]
  }

  /** The inbox is collecting the window, and the cells it has are the window's. */
  ghost predicate Collecting(inbox: Inbox, j: Job, limit: nat)
    requires FitsLimit(j, limit)
  {
    && |inbox.buffer| == WINDOW_MAX
    && inbox.id == j.id && inbox.total == |BatchOf(j)| && inbox.count == Cells(j, limit) && inbox.yielding == j.yielding
    && |inbox.bitmap| == inbox.count
    && forall i: nat | i < inbox.count && inbox.bitmap[i] :: HasCell(inbox.buffer, BatchOf(j), Capacity(limit), i)
  }

  lemma OpensRight(inbox: Inbox, j: Job, limit: nat, c: Cell)
    requires FitsLimit(j, limit) && Fits(j, limit, c) && |inbox.buffer| == WINDOW_MAX
    requires inbox.total == 0 || Collecting(inbox, j, limit)
    ensures OpenInbox(inbox, c).Some? && Collecting(OpenInbox(inbox, c).value, j, limit)
    ensures OpenInbox(inbox, c).value.sequence == inbox.sequence
  {
    hide CellStart, BatchOf, CellCount, HasCell;
    FitsIsValid(j, limit, c);
  }

  lemma SpliceKeeps(buffer: seq<byte>, offset: nat, bytes: seq<byte>, from: nat, to: nat)
    requires offset + |bytes| <= |buffer| && from <= to <= |buffer|
    requires to <= offset || offset + |bytes| <= from
    ensures Spliced(buffer, offset, bytes)[from..to] == buffer[from..to]
  {
  }

  lemma SpliceHas(buffer: seq<byte>, offset: nat, bytes: seq<byte>)
    requires offset + |bytes| <= |buffer|
    ensures Spliced(buffer, offset, bytes)[offset..offset + |bytes|] == bytes
  {
  }

  /** A true cell is recorded, whatever else the inbox holds; an end marker changes nothing. */
  lemma StoresRight(inbox: Inbox, j: Job, limit: nat, c: Cell)
    requires FitsLimit(j, limit) && Fits(j, limit, c) && Collecting(inbox, j, limit)
    ensures CellValid(c) && StoreCell(inbox, c, Capacity(limit)).Some?
    ensures Collecting(StoreCell(inbox, c, Capacity(limit)).value, j, limit)
    ensures var after := StoreCell(inbox, c, Capacity(limit)).value;
            && after.sequence == inbox.sequence
            && (if c.index < c.count then after.bitmap == inbox.bitmap[c.index := true] && HasCell(after.buffer, BatchOf(j), Capacity(limit), c.index)
                else after == inbox)
  {
    hide CellStart, BatchOf, CellCount, Spliced;
    FitsIsValid(j, limit, c);
    var capacity := Capacity(limit);
    if c.index < c.count && !inbox.bitmap[c.index] {
      var after := StoreCell(inbox, c, capacity).value;
      SpliceHas(inbox.buffer, c.offset, c.payload);
      forall i: nat | i < inbox.count && after.bitmap[i]
        ensures HasCell(after.buffer, BatchOf(j), capacity, i)
      {
        if i != c.index {
          if i < c.index { StartsGrow(capacity, i, c.index); } else { StartsGrow(capacity, c.index, i); }
          SpliceKeeps(inbox.buffer, c.offset, c.payload, CellStart(capacity, i), CellEnd(c.total, capacity, i));
        }
      }
    }
  }

  lemma {:induction false} CellsJoin(buffer: seq<byte>, batch: seq<byte>, capacity: nat, count: nat)
    requires forall i: nat | i < count :: HasCell(buffer, batch, capacity, i)
    requires |batch| <= |buffer| && capacity > 0
    ensures var end := CellStart(capacity, count);
            if end <= |batch| then buffer[..end] == batch[..end] else buffer[..|batch|] == batch
    decreases count
  {
    if count > 0 {
      CellsJoin(buffer, batch, capacity, count - 1);
      assert HasCell(buffer, batch, capacity, count - 1);
      var start, end := CellStart(capacity, count - 1), CellEnd(|batch|, capacity, count - 1);
      assert CellStart(capacity, count) == start + capacity;
      assert buffer[..end] == buffer[..start] + buffer[start..end];
      assert batch[..end] == batch[..start] + batch[start..end];
    }
  }

  /** A full bitmap means that the buffer starts with the batch. */
  lemma FullMeansWhole(inbox: Inbox, j: Job, limit: nat)
    requires FitsLimit(j, limit) && Collecting(inbox, j, limit) && inbox.bitmap == Full(inbox.count)
    ensures inbox.total <= |inbox.buffer| && inbox.buffer[..inbox.total] == BatchOf(j)
    ensures InspectBatch(inbox.buffer[..inbox.total]) == Some(Batch(j.id, j.yielding, j.packets))
  {
    hide CellStart, BatchOf, HasCell, InspectBatch, CellCount;
    BatchLong(j);
    CountBounds(|BatchOf(j)|, Capacity(limit));
    forall i: nat | i < inbox.count ensures HasCell(inbox.buffer, BatchOf(j), Capacity(limit), i) {
      assert inbox.bitmap[i];
    }
    CellsJoin(inbox.buffer, BatchOf(j), Capacity(limit), inbox.count);
    BatchIs(j);
  }

  lemma BatchIs(j: Job)
    requires Packable(j)
    ensures InspectBatch(BatchOf(j)) == Some(Batch(j.id, j.yielding, j.packets))
  {
    BatchReads(Batch(j.id, j.yielding, j.packets));
  }
}
