/** Which cell a retransmission takes, and when it takes one at all. */
module RetrySelection {
  import opened Common
  import opened PacketTransport

  /** Picking with `choice` from slot `from` finds the due cell with exactly `choice` due cells before it. */
  lemma {:induction false} PickDueExact(ring: TxRing, random: bv32, retransmitAfter: nat, frame: nat, choice: nat, from: nat)
    requires from <= SLOTS
    ensures var before := CountDue(ring[..from], random, retransmitAfter, frame);
            var slot := PickDue(ring, random, retransmitAfter, frame, choice, from);
            && (slot.Some? <==> before + choice < CountDue(ring, random, retransmitAfter, frame))
            && (slot.Some? ==> Due(ring[slot.value], random, retransmitAfter, frame) &&
                               CountDue(ring[..slot.value], random, retransmitAfter, frame) == before + choice)
    decreases SLOTS - from
  {
    hide Due;
    if from == SLOTS {
      assert ring[..from] == ring;
    } else {
      assert ring[..from + 1][..from] == ring[..from];
      var due := Due(ring[from], random, retransmitAfter, frame);
      if due && choice == 0 {
        CountMore(ring, random, retransmitAfter, frame, from + 1);
      } else {
        PickDueExact(ring, random, retransmitAfter, frame, if due then choice - 1 else choice, from + 1);
      }
    }
  }

  lemma {:induction false} CountMore(ring: TxRing, random: bv32, retransmitAfter: nat, frame: nat, from: nat)
    requires from <= SLOTS
    ensures CountDue(ring[..from], random, retransmitAfter, frame) <= CountDue(ring, random, retransmitAfter, frame)
    decreases SLOTS - from
  {
    hide Due;
    if from == SLOTS {
      assert ring[..from] == ring;
    } else {
      assert ring[..from + 1][..from] == ring[..from];
      CountMore(ring, random, retransmitAfter, frame, from + 1);
    }
  }

  /**
   A retransmission happens exactly when some cell is due in the old random
   state and the drawn choice is below the number of cells due in the new one;
   the cell taken is due in the new state.
   */
  lemma RetryExact(ring: TxRing, random: bv32, retransmitAfter: nat, frame: nat)
    ensures var due := CountDue(ring, random, retransmitAfter, frame);
            var drawn := Draw(random);
            var slot := SelectRetry(ring, random, retransmitAfter, frame).0;
            && (slot.Some? <==> due > 0 && (drawn as int) % due < CountDue(ring, drawn, retransmitAfter, frame))
            && (slot.Some? ==> Due(ring[slot.value], drawn, retransmitAfter, frame))
  {
    hide Draw, Due;
    var due := CountDue(ring, random, retransmitAfter, frame);
    if due > 0 {
      PickDueExact(ring, Draw(random), retransmitAfter, frame, (Draw(random) as int) % due, 0);
    }
  }

  /** One cell, sent in frame 0 and due in frame 4, that is counted and then not picked. */
  lemma RetryCanMiss()
    ensures var ring := EmptyTxRing()[0 := TxCell(true, 0, 0, [1])];
            && Due(ring[0], 6, 4, 4)
            && SelectRetry(ring, 6, 4, 4).0 == None
  {
    var ring: TxRing := EmptyTxRing()[0 := TxCell(true, 0, 0, [1])];
    assert RetryHash(6, 0, 0) == 0xff82c008;
    assert Draw(6) == 0x18c0c6 && RetryHash(0x18c0c6, 0, 0) == 0x52117925;
    assert RetryDelay(6, 4, 0, 0) == 4;
    assert RetryDelay(0x18c0c6, 4, 0, 0) == 5;
    CountSingle(ring, 6, 4, 4);
    CountSingle(ring, 0x18c0c6, 4, 4);
    RetryExact(ring, 6, 4, 4);
  }

  lemma CountSingle(ring: TxRing, random: bv32, retransmitAfter: nat, frame: nat)
    requires forall i | 1 <= i < SLOTS :: !ring[i].occupied
    ensures CountDue(ring, random, retransmitAfter, frame) == if Due(ring[0], random, retransmitAfter, frame) then 1 else 0
  {
    assert ring[..SLOTS] == ring;
    CountHead(ring, random, retransmitAfter, frame, SLOTS);
  }

  lemma {:induction false} CountHead(ring: TxRing, random: bv32, retransmitAfter: nat, frame: nat, n: nat)
    requires forall i | 1 <= i < SLOTS :: !ring[i].occupied
    requires 1 <= n <= SLOTS
    ensures CountDue(ring[..n], random, retransmitAfter, frame) == if Due(ring[0], random, retransmitAfter, frame) then 1 else 0
  {
    hide RetryDelay;
    assert ring[..n][..n - 1] == ring[..n - 1];
    if n > 1 {
      CountHead(ring, random, retransmitAfter, frame, n - 1);
    } else {
      assert ring[..0] == [];
    }
  }
}
