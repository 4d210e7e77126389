/** Concatenations of byte chunks: where a position of the whole falls inside a chunk. */
module ByteStream {
  import opened Bytes
  import opened PacketTransport

  type Chunks = seq<seq<byte>>

  function Flatten(chunks: Chunks): seq<byte> {
    if chunks == [] then [] else Flatten(chunks[..|chunks| - 1]) + chunks[|chunks| - 1]
  }

  lemma FlattenAppend(chunks: Chunks, last: seq<byte>)
    ensures Flatten(chunks + [last]) == Flatten(chunks) + last
  {
    assert (chunks + [last])[..|chunks|] == chunks;
  }

  /** Chunk n, from its first byte to its last, lies in the whole right after the n chunks before it. */
  lemma {:induction false} ChunkInWhole(chunks: Chunks, n: nat)
    requires n < |chunks|
    ensures Flatten(chunks[..n]) + chunks[n] <= Flatten(chunks)
  {
    if n < |chunks| - 1 {
      var shorter := chunks[..|chunks| - 1];
      ChunkInWhole(shorter, n);
      assert shorter[..n] == chunks[..n];
    }
  }

  lemma ByteInWhole(chunks: Chunks, n: nat, k: nat)
    requires n < |chunks| && k < |chunks[n]|
    ensures |Flatten(chunks[..n])| + k < |Flatten(chunks)|
    ensures Flatten(chunks)[|Flatten(chunks[..n])| + k] == chunks[n][k]
  {
    ChunkInWhole(chunks, n);
    assert (Flatten(chunks[..n]) + chunks[n])[|Flatten(chunks[..n])| + k] == chunks[n][k];
  }

  lemma FlattenNext(chunks: Chunks, n: nat)
    requires n < |chunks|
    ensures Flatten(chunks[..n + 1]) == Flatten(chunks[..n]) + chunks[n]
  {
    assert chunks[..n + 1] == chunks[..n] + [chunks[n]];
    FlattenAppend(chunks[..n], chunks[n]);
  }

  /** The records of a packet sequence, one chunk each. */
  function Records(packets: seq<Packet>): Chunks
    requires Queueable(packets)
  {
    seq(|packets|, i requires 0 <= i < |packets| => Record(packets[i]))
  }

  /** The bytes sent when `popped` packets are out whole and `offset` bytes of the next record are. */
  function Sent(accepted: seq<Packet>, popped: nat, offset: nat): seq<byte>
    requires Queueable(accepted) && popped <= |accepted|
    requires offset <= if popped < |accepted| then |Record(accepted[popped])| else 0
  {
    Flatten(Records(accepted)[..popped]) + if popped < |accepted| then Record(accepted[popped])[..offset] else []
  }

  lemma SentPrefix(accepted: seq<Packet>, popped: nat, offset: nat)
    requires Queueable(accepted) && popped <= |accepted|
    requires offset <= if popped < |accepted| then |Record(accepted[popped])| else 0
    ensures Sent(accepted, popped, offset) <= Flatten(Records(accepted))
  {
    if popped < |accepted| {
      ChunkInWhole(Records(accepted), popped);
    } else {
      assert Records(accepted)[..popped] == Records(accepted);
    }
  }

  lemma SentMore(accepted: seq<Packet>, popped: nat, offset: nat, take: nat)
    requires Queueable(accepted) && popped < |accepted| && offset + take <= |Record(accepted[popped])|
    ensures Sent(accepted, popped, offset) + Record(accepted[popped])[offset..offset + take] ==
            Sent(accepted, popped, offset + take)
  {
    var record := Record(accepted[popped]);
    assert record[..offset] + record[offset..offset + take] == record[..offset + take];
  }

  lemma SentWhole(accepted: seq<Packet>, popped: nat, offset: nat)
    requires Queueable(accepted) && popped < |accepted| && offset <= |Record(accepted[popped])|
    ensures Sent(accepted, popped, offset) + Record(accepted[popped])[offset..] == Sent(accepted, popped + 1, 0)
  {
    var record := Record(accepted[popped]);
    SentMore(accepted, popped, offset, |record| - offset);
    assert record[offset..] == record[offset..|record|];
    FlattenNext(Records(accepted), popped);
  }

  /** What one serialization hands over: bytes that continue what was sent, and the queue left. */
  ghost predicate Continues(accepted: seq<Packet>, popped: nat, offset: nat, room: nat, r: (seq<byte>, seq<Packet>, nat))
    requires Queueable(accepted) && popped <= |accepted|
    requires if popped < |accepted| then offset < |Record(accepted[popped])| else offset == 0
  {
    var (bytes, queue, end) := r;
    var left := |accepted| - |queue|;
    && popped <= left && queue == accepted[left..]
    && (if left < |accepted| then end < |Record(accepted[left])| else end == 0)
    && |bytes| <= room
    && (room > 0 && popped < |accepted| ==> bytes != [])
    && Sent(accepted, popped, offset) + bytes == Sent(accepted, left, end)
  }

  lemma ContinuesInside(accepted: seq<Packet>, popped: nat, offset: nat, room: nat)
    requires Queueable(accepted) && popped < |accepted|
    requires offset + room < |Record(accepted[popped])|
    ensures Continues(accepted, popped, offset, room,
                      (Record(accepted[popped])[offset..offset + room], accepted[popped..], offset + room))
  {
    SentMore(accepted, popped, offset, room);
  }

  lemma ContinuesAfter(accepted: seq<Packet>, popped: nat, offset: nat, room: nat, r: (seq<byte>, seq<Packet>, nat))
    requires Queueable(accepted) && popped < |accepted|
    requires offset < |Record(accepted[popped])| && |Record(accepted[popped])| - offset <= room
    requires Continues(accepted, popped + 1, 0, room - (|Record(accepted[popped])| - offset), r)
    ensures Continues(accepted, popped, offset, room, (Record(accepted[popped])[offset..] + r.0, r.1, r.2))
  {
    hide Sent, Records, Flatten;
    var rest := Record(accepted[popped])[offset..];
    SentWhole(accepted, popped, offset);
    assert Sent(accepted, popped, offset) + (rest + r.0) == Sent(accepted, popped, offset) + rest + r.0;
  }

  lemma ContinuesNothing(accepted: seq<Packet>, popped: nat, offset: nat, room: nat)
    requires Queueable(accepted) && popped <= |accepted|
    requires if popped < |accepted| then offset < |Record(accepted[popped])| else offset == 0
    requires room == 0 || popped == |accepted|
    ensures Continues(accepted, popped, offset, room, ([], accepted[popped..], offset))
  {
    assert Sent(accepted, popped, offset) + [] == Sent(accepted, popped, offset);
  }

  /** Serializing continues the sent bytes exactly where they stopped. */
  lemma {:induction false} SerializeContinues(accepted: seq<Packet>, popped: nat, offset: nat, room: nat)
    requires Queueable(accepted) && popped <= |accepted|
    requires if popped < |accepted| then offset < |Record(accepted[popped])| else offset == 0
    ensures Continues(accepted, popped, offset, room, Serialize(accepted[popped..], offset, room))
    decreases |accepted| - popped
  {
    hide Continues, Sent, Flatten, Records;
    if room == 0 || popped == |accepted| {
      ContinuesNothing(accepted, popped, offset, room);
    } else if room < |Record(accepted[popped])| - offset {
      ContinuesInside(accepted, popped, offset, room);
    } else {
      var left := room - (|Record(accepted[popped])| - offset);
      assert accepted[popped..][1..] == accepted[popped + 1..];
      SerializeContinues(accepted, popped + 1, 0, left);
      ContinuesAfter(accepted, popped, offset, room, Serialize(accepted[popped + 1..], 0, left));
    }
  }
}
