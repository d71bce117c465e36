/** The values the tracker persists. */
module Records {
  import opened Bytes

  /** A transaction signature with the slot it landed in; the zero signature means "none". */
  datatype TxPoint = TxPoint(sig: Signature, slot: u64)

  const NO_POINT := TxPoint(ZERO_SIGNATURE, 0)

  /** What one accepted event says besides where it was emitted. */
  datatype EventBody = EventBody(program: Key, name: string, actionHash: bytes, data: bytes)

  /** A delivered and stored event. */
  datatype Event = Event(slot: u64, block: u64, sig: Signature, body: EventBody)

  datatype EventRecord = EventRecord(id: u64, event: Event)

  datatype BlockPoint = BlockPoint(slot: u64, hash: Key, number: u64)

  function NonZero(): TxPoint -> bool {
    (p: TxPoint) => p.sig != ZERO_SIGNATURE
  }

  ghost predicate HasSignature(p: TxPoint) {
    exists b :: b in p.sig && b != 0
  }

  function ByBlock(block: u64): EventRecord -> bool {
    (r: EventRecord) => r.event.block == block
  }

  function BySlot(slot: u64): EventRecord -> bool {
    (r: EventRecord) => r.event.slot == slot
  }

  /** The records a log of events is stored as: ids count from one in storage order. */
  function Numbered(log: seq<Event>): (r: seq<EventRecord>)
    requires |log| < U64_LIMIT
    ensures |r| == |log|
    ensures forall i :: 0 <= i < |log| ==> r[i] == EventRecord(i + 1, log[i])
  {
    seq(|log|, i requires 0 <= i < |log| => EventRecord(i + 1, log[i]))
  }
}
