/** The bolt-backed storage handler: its buckets are byte-keyed maps changed in place, and every
    method is one bolt transaction proved against plain sequences and maps. */
module Store {
  import opened Sequences
  import opened Bytes
  import opened Records
  import opened StoreEncoding

  class BoltStorageHandler {
    // the buckets
    var txBucket: Bucket
    var unprocessedEvents: map<bytes, EventRecord>
    var processedEvents: map<bytes, EventRecord>
    var eventCounter: Bucket
    var eventIndex: Bucket
    var blocks: map<bytes, BlockPoint>
    var hashToNumber: Bucket
    var latestBlock: Option<BlockPoint>
    var finalizedNumber: bytes

    // what they stand for
    ghost var queue: seq<TxPoint>
    ghost var log: seq<Event>
    ghost var blockView: map<u64, BlockPoint>

    // how many writes failed
    ghost var failures: nat

    ghost predicate Valid()
      reads this
    {
      && QueueRep(txBucket, queue)
      && PointOk(txBucket, LAST_PROCESSED_KEY)
      && PointOk(txBucket, LAST_QUERIED_KEY)
      && EventsRep(unprocessedEvents, eventCounter, eventIndex, log)
      && processedEvents == map[]
      && BlockRep(blocks, blockView)
      && (finalizedNumber == [] || |finalizedNumber| == 8)
    }

    ghost function Processed(): TxPoint
      reads this
      requires Valid()
    {
      PointIn(txBucket, LAST_PROCESSED_KEY)
    }

    ghost function Queried(): TxPoint
      reads this
      requires Valid()
    {
      PointIn(txBucket, LAST_QUERIED_KEY)
    }

    ghost function Number(): u64
      reads this
      requires Valid()
    {
      if finalizedNumber == [] then 0 else DecodeUint64(finalizedNumber)
    }

    /** One past the index of the newest queue entry ever pushed. */
    ghost function Tail(): u64
      reads this
      requires Valid()
    {
      Counter(txBucket, TAIL_KEY)
    }

    constructor ()
      ensures Valid()
      ensures queue == [] && log == [] && blockView == map[]
      ensures Processed() == Queried() == NO_POINT && Number() == 0 && latestBlock == None
      ensures Tail() == 0
    {
      txBucket, eventCounter, eventIndex, hashToNumber := map[], map[], map[], map[];
      unprocessedEvents, processedEvents, blocks := map[], map[], map[];
      latestBlock, finalizedNumber := None, [];
      queue, log, blockView := [], [], map[];
    }

    /** A bolt write can fail, and is taken to once a 64-bit counter would overflow. */
    method WriteFails(pushed: nat) returns (fails: bool)
      requires Valid()
      modifies this`failures
      ensures Valid()
      ensures !fails ==> Tail() + pushed < U64_LIMIT && |log| + 1 < U64_LIMIT
      ensures failures == old(failures) + if fails then 1 else 0
    {
      hide BlockRep;
      Uint64RoundTrip(|log|);
      var tail: u64 := if TAIL_KEY in txBucket then DecodeUint64(txBucket[TAIL_KEY]) else 0;
      var stored: u64 := if COUNTER_KEY in eventCounter then DecodeUint64(eventCounter[COUNTER_KEY]) else 0;
      fails := *;
      fails := fails || tail + pushed >= U64_LIMIT || stored + 1 >= U64_LIMIT;
      failures := failures + if fails then 1 else 0;
    }

    lemma LogFits()
      requires Valid()
      ensures |log| < U64_LIMIT
    {
    }

    // ---- the queue of unprocessed transactions ----

    static method DropZeroSignatures(points: seq<TxPoint>) returns (nonEmpty: seq<TxPoint>)
      ensures nonEmpty == Filter(points, NonZero())
    {
      nonEmpty := [];
      for i := 0 to |points|
        invariant nonEmpty == Filter(points[..i], NonZero())
      {
        assert points[..i + 1][..i] == points[..i];
        if points[i].sig != ZERO_SIGNATURE {
          nonEmpty := nonEmpty + [points[i]];
        }
      }
      assert points[..|points|] == points;
    }

    /** A point is kept if and only if some byte of its signature is not zero. */
    static lemma NonZeroIsPushed(points: seq<TxPoint>, p: TxPoint)
      ensures p in Filter(points, NonZero()) <==> p in points && HasSignature(p)
    {
      FilterMember(points, NonZero(), p);
      ZerosOnly(p.sig);
    }

    method PushUnprocessedTransactions(points: seq<TxPoint>)
      requires Valid()
      requires Tail() + |points| < U64_LIMIT
      modifies this`txBucket, this`queue
      ensures Valid()
      ensures queue == old(queue) + Filter(points, NonZero())
      ensures forall p :: p in Filter(points, NonZero()) <==> p in points && HasSignature(p)
      ensures Processed() == old(Processed()) && Queried() == old(Queried())
      ensures Tail() == old(Tail()) + |Filter(points, NonZero())|
    {
      hide EventsRep, BlockRep, Slots, PutEntries, EncodeUint64, HasSignature, NonZero;
      forall p
        ensures p in Filter(points, NonZero()) <==> p in points && HasSignature(p)
      {
        NonZeroIsPushed(points, p);
      }
      var nonEmpty := DropZeroSignatures(points);
      if nonEmpty == [] {
        return;
      }
      PushRep(txBucket, queue, Processed(), Queried(), nonEmpty);
      var tail: u64 := if TAIL_KEY in txBucket then DecodeUint64(txBucket[TAIL_KEY]) else 0;
      tail := WriteEntries(tail, nonEmpty);
      txBucket := txBucket[TAIL_KEY := EncodeUint64(tail)];
      queue := queue + nonEmpty;
    }

    method WriteEntries(from: u64, points: seq<TxPoint>) returns (tail: u64)
      requires from + |points| < U64_LIMIT
      modifies this`txBucket
      ensures txBucket == PutEntries(old(txBucket), from, points)
      ensures tail == from + |points|
    {
      tail := from;
      for i := 0 to |points|
        invariant tail == from + i
        invariant txBucket == PutEntries(old(txBucket), from, points[..i])
      {
        assert points[..i + 1][..i] == points[..i];
        txBucket := txBucket[EncodeUint64(tail) := EncodeTxPoint(points[i])];
        tail := tail + 1;
      }
      assert points[..|points|] == points;
    }

    method GetAllUnprocessedTransactions() returns (r: Result<seq<TxPoint>, StoreError>)
      requires Valid()
      ensures r == Ok(queue)
    {
      hide EventsRep, BlockRep, DecodeTxPoint, EncodeUint64, DecodeUint64;
      var head: u64 := if HEAD_KEY in txBucket then DecodeUint64(txBucket[HEAD_KEY]) else 0;
      var tail: u64 := if TAIL_KEY in txBucket then DecodeUint64(txBucket[TAIL_KEY]) else 0;
      if tail < head {
        return Err(Corrupt);
      }
      hide Valid;
      var result: seq<TxPoint> := [];
      for i := head to tail
        invariant result == queue[..i - head]
      {
        EntryDecodes(txBucket, queue, i - head);
        var point := DecodeTxPoint(Get(txBucket, EncodeUint64(i)));
        if point.Err? {
          return Err(Corrupt);
        }
        result := result + [point.value];
      }
      assert queue[..tail - head] == queue;
      return Ok(result);
    }

    /** Pops the front of the queue if it is `sig`, and records it with its slot as last processed. */
    method FinalizeProcessedTransaction(sig: Signature) returns (r: Result<(), StoreError>)
      requires Valid()
      modifies this`txBucket, this`queue
      ensures Valid()
      ensures r.Ok? <==> old(queue) != [] && old(queue)[0].sig == sig
      ensures r.Ok? ==> queue == old(queue)[1..] && Processed() == old(queue)[0]
      ensures r.Err? ==> queue == old(queue) && txBucket == old(txBucket)
      ensures r == Err(EmptyQueue) <==> old(queue) == []
      ensures Queried() == old(Queried()) && Tail() == old(Tail())
    {
      var front := RemoveTransaction(sig);
      if front.Err? {
        return Err(front.error);
      }
      SetLastProcessedTransaction(front.value);
      return Ok(());
    }

    method RemoveTransaction(sig: Signature) returns (r: Result<TxPoint, StoreError>)
      requires Valid()
      modifies this`txBucket, this`queue
      ensures Valid()
      ensures r.Ok? <==> old(queue) != [] && old(queue)[0].sig == sig
      ensures r.Ok? ==> r.value == old(queue)[0] && queue == old(queue)[1..]
      ensures r.Err? ==> queue == old(queue) && txBucket == old(txBucket)
      ensures r == Err(EmptyQueue) <==> old(queue) == []
      ensures Processed() == old(Processed()) && Queried() == old(Queried()) && Tail() == old(Tail())
    {
      hide EventsRep, BlockRep, DecodeTxPoint, EncodeTxPoint;
      var head: u64 := if HEAD_KEY in txBucket then DecodeUint64(txBucket[HEAD_KEY]) else 0;
      var tail: u64 := if TAIL_KEY in txBucket then DecodeUint64(txBucket[TAIL_KEY]) else 0;
      if head >= tail {
        return Err(EmptyQueue);
      }
      EntryDecodes(txBucket, queue, 0);
      var front := DecodeTxPoint(Get(txBucket, EncodeUint64(head)));
      if front.Err? {
        return Err(Corrupt);
      }
      if front.value.sig != sig {
        return Err(NotAtFront);
      }
      PopRep(txBucket, queue, Processed(), Queried());
      txBucket := (txBucket - {EncodeUint64(head)})[HEAD_KEY := EncodeUint64(head + 1)];
      queue := queue[1..];
      return front;
    }

    method SetLastProcessedTransaction(point: TxPoint)
      requires Valid()
      modifies this`txBucket
      ensures Valid()
      ensures Processed() == point && Queried() == old(Queried()) && Tail() == old(Tail())
    {
      hide EventsRep, BlockRep;
      SetPointRep(txBucket, queue, Processed(), Queried(), point);
      txBucket := txBucket[LAST_PROCESSED_KEY := EncodeTxPoint(point)];
    }

    method StoreLatestQueriedTransaction(point: TxPoint)
      requires Valid()
      modifies this`txBucket
      ensures Valid()
      ensures Queried() == point && Processed() == old(Processed()) && Tail() == old(Tail())
    {
      hide EventsRep, BlockRep;
      SetPointRep(txBucket, queue, Processed(), Queried(), point);
      txBucket := txBucket[LAST_QUERIED_KEY := EncodeTxPoint(point)];
    }

    method GetLastProcessedTransaction() returns (r: Result<TxPoint, StoreError>)
      requires Valid()
      ensures r == Ok(Processed())
    {
      r := if LAST_PROCESSED_KEY in txBucket then DecodeTxPoint(txBucket[LAST_PROCESSED_KEY]) else Ok(NO_POINT);
    }

    method GetLatestQueriedTransaction() returns (r: Result<TxPoint, StoreError>)
      requires Valid()
      ensures r == Ok(Queried())
    {
      r := if LAST_QUERIED_KEY in txBucket then DecodeTxPoint(txBucket[LAST_QUERIED_KEY]) else Ok(NO_POINT);
    }

    method StoreLatestFinalizedBlockNumber(number: u64)
      requires Valid()
      modifies this`finalizedNumber
      ensures Valid() && Number() == number
    {
      hide EventsRep, QueueRep, BlockRep;
      Uint64RoundTrip(number);
      finalizedNumber := EncodeUint64(number);
    }

    // ---- events ----

    /** Stores the event under the next id and indexes it under its block number. */
    method StoreEvent(e: Event)
      requires Valid()
      requires |log| + 1 < U64_LIMIT
      modifies this`unprocessedEvents, this`eventCounter, this`eventIndex, this`log
      ensures Valid()
      ensures log == old(log) + [e]
    {
      hide BlockRep, QueueRep, EventsRep, DecodeTxPoint, IndexRep, RecordsRep;
      NextEventId(eventCounter, unprocessedEvents, eventIndex, log);
      StoreEventRep(unprocessedEvents, eventCounter, eventIndex, log, e);
      var id: u64 := if COUNTER_KEY in eventCounter then DecodeUint64(eventCounter[COUNTER_KEY]) + 1 else 1;
      eventCounter := eventCounter[COUNTER_KEY := EncodeUint64(id)];
      unprocessedEvents := unprocessedEvents[EncodeUint64(id) := EventRecord(id, e)];
      var existing := Get(eventIndex, EncodeUint64(e.block));
      eventIndex := eventIndex[EncodeUint64(e.block) := existing + EncodeUint64(id)];
      log := log + [e];
    }

    method DecodeEventIds(data: bytes) returns (r: Result<seq<u64>, StoreError>)
      ensures |data| % 8 != 0 ==> r == Err(Corrupt)
      ensures |data| % 8 == 0 ==> r == Ok(DecodeIds(data))
    {
      if |data| % 8 != 0 {
        return Err(Corrupt);
      }
      var ids: seq<u64> := [];
      var offset := 0;
      while offset < |data|
        invariant 0 <= offset <= |data| && offset % 8 == 0
        invariant ids == DecodeIds(data[..offset])
      {
        DecodeIdsStep(data, offset);
        ids := ids + [DecodeUint64(data[offset..offset + 8])];
        offset := offset + 8;
      }
      assert data[..offset] == data;
      return Ok(ids);
    }

    lemma IndexEntryHolds(block: u64)
      requires Valid()
      ensures |log| < U64_LIMIT && IndexEntryOk(eventIndex, log, block)
    {
      hide BlockRep, QueueRep, EncodeIds, EncodeUint64;
    }

    static lemma NoIds(log: seq<Event>)
      ensures RecordsOf([], log) == []
    {
    }

    /** The index lookup answers what filtering a scan of every stored record would. */
    method GetEventsByBlockNumber(block: u64) returns (r: Result<seq<EventRecord>, StoreError>)
      requires Valid()
      ensures r == Ok(Filter(Numbered(log), ByBlock(block)))
      ensures forall e :: e in r.value <==> e in Numbered(log) && e.event.block == block
      ensures InIdOrder(r.value)
    {
      hide Filter, ByBlock, InIdOrder, Numbered, Valid, EncodeUint64, DecodeIds, EncodeIds, IdsOf, RecordsOf;
      IndexEntryHolds(block);
      ScanByBlock(log, block);
      IndexMatchesScan(log, block);
      NoIds(log);
      if EncodeUint64(block) !in eventIndex {
        return Ok([]);
      }
      IdsRoundTrip(IdsOf(log, block));
      var eventIds := DecodeEventIds(eventIndex[EncodeUint64(block)]);
      if eventIds.Err? {
        return Err(Corrupt);
      }
      r := LoadRecords(eventIds.value);
    }

    method LoadRecords(ids: seq<u64>) returns (r: Result<seq<EventRecord>, StoreError>)
      requires Valid()
      requires forall i :: 0 <= i < |ids| ==> 1 <= ids[i] <= |log|
      ensures r == Ok(RecordsOf(ids, log))
    {
      hide BlockRep, QueueRep, EncodeUint64, IndexRep, EventIdsRep;
      var results: seq<EventRecord> := [];
      for i := 0 to |ids|
        invariant results == RecordsOf(ids[..i], log)
      {
        assert ids[..i + 1] == ids[..i] + [ids[i]];
        RecordsOfSnoc(ids[..i], log, ids[i]);
        RecordAt(unprocessedEvents, log, ids[i]);
        var key := EncodeUint64(ids[i]);
        var raw := Find(unprocessedEvents, key);
        if raw.None? {
          raw := Find(processedEvents, key);
        }
        if raw.None? {
          return Err(Corrupt);
        }
        results := results + [raw.value];
      }
      assert ids[..|ids|] == ids;
      return Ok(results);
    }

    /** The key a cursor moves to: the least key, in byte order, after the current one. */
    static method CursorNext(keys: set<bytes>, from: Option<bytes>) returns (next: Option<bytes>)
      ensures IsNextKey(keys, from, next)
    {
      next := None;
      var rest := keys;
      while rest != {}
        invariant rest <= keys
        invariant IsNextKey(keys - rest, from, next)
        decreases rest
      {
        var k :| k in rest;
        rest := rest - {k};
        if IsAfter(k, from) && (next.None? || LexLess(k, next.value)) {
          CursorBetter(keys - rest - {k}, from, next, k);
          next := Some(k);
        } else if next.Some? {
          LexTotal(k, next.value);
        }
      }
      assert keys - rest == keys;
    }

    static lemma CursorBetter(keys: set<bytes>, from: Option<bytes>, next: Option<bytes>, k: bytes)
      requires IsNextKey(keys, from, next)
      requires IsAfter(k, from) && (next.Some? ==> LexLess(k, next.value))
      ensures IsNextKey(keys + {k}, from, Some(k))
    {
      forall other | other in keys && IsAfter(other, from)
        ensures LexLess(k, other)
      {
        if other != next.value {
          LexTransitive(k, next.value, other);
        }
      }
    }

    /** Walks one bucket with a cursor from the first key to the last. */
    static method ScanBucket(bucket: map<bytes, EventRecord>, slot: u64, ghost records: seq<EventRecord>)
      returns (results: seq<EventRecord>)
      requires RecordsRep(bucket, records)
      ensures results == Filter(records, BySlot(slot))
    {
      hide Filter, IsNextKey, RecordsRep, BySlot;
      RecordsFit(bucket, records);
      FilterStep(records, slot, 0);
      results := [];
      ghost var i := 0;
      var k := CursorNext(bucket.Keys, None);
      CursorVisitsInIdOrder(bucket, records, 0, k);
      while k.Some?
        invariant 0 <= i <= |records|
        invariant k == if i < |records| then Some(EncodeUint64(i + 1)) else None
        invariant results == Filter(records[..i], BySlot(slot))
        decreases |records| - i
      {
        RecordHeld(bucket, records, i);
        FilterStep(records, slot, i);
        var record := bucket[k.value];
        if record.event.slot == slot {
          results := results + [record];
        }
        var next := CursorNext(bucket.Keys, k);
        CursorVisitsInIdOrder(bucket, records, i + 1, next);
        k, i := next, i + 1;
      }
      assert records[..i] == records;
    }

    static lemma RecordsFit(bucket: map<bytes, EventRecord>, records: seq<EventRecord>)
      requires RecordsRep(bucket, records)
      ensures |records| < U64_LIMIT
    {
    }

    static lemma RecordHeld(bucket: map<bytes, EventRecord>, records: seq<EventRecord>, i: nat)
      requires RecordsRep(bucket, records) && i < |records|
      ensures i + 1 < U64_LIMIT && Holds(bucket, i + 1, records[i])
    {
    }

    static lemma FilterStep(records: seq<EventRecord>, slot: u64, i: nat)
      requires i <= |records|
      ensures Filter(records[..0], BySlot(slot)) == []
      ensures i < |records| ==>
                Filter(records[..i + 1], BySlot(slot))
                == Filter(records[..i], BySlot(slot)) + if records[i].event.slot == slot then [records[i]] else []
    {
      if i < |records| {
        assert records[..i + 1][..i] == records[..i];
      }
    }

    method GetEventsBySlot(slot: u64) returns (results: seq<EventRecord>)
      requires Valid()
      ensures results == Filter(Numbered(log), BySlot(slot))
      ensures forall e :: e in results <==> e in Numbered(log) && e.event.slot == slot
      ensures InIdOrder(results)
    {
      ScanBySlot(log, slot);
      hide InIdOrder;
      var unprocessed := ScanBucket(unprocessedEvents, slot, Numbered(log));
      var processed := ScanBucket(processedEvents, slot, []);
      results := unprocessed + processed;
    }

    /** The distinct signatures of the slot's stored events, in storage order. */
    method GetProcessedTxSignaturesBySlot(slot: u64) returns (signatures: seq<Signature>)
      requires Valid()
      ensures signatures == Distinct(SlotSignatures(log, slot))
    {
      hide InIdOrder, Valid, Distinct, Numbered, Filter, BySlot;
      LogFits();
      NoneDistinct();
      var records := GetEventsBySlot(slot);
      var seen: set<Signature> := {};
      signatures := [];
      ghost var all := SlotSignatures(log, slot);
      for i := 0 to |records|
        invariant signatures == Distinct(all[..i])
        invariant forall x: Signature :: x in seen <==> x in all[..i]
      {
        assert all[..i + 1] == all[..i] + [all[i]];
        DistinctSnoc(all[..i], all[i]);
        var sig := records[i].event.sig;
        if sig !in seen {
          seen := seen + {sig};
          signatures := signatures + [sig];
        }
      }
      assert all[..|records|] == all;
    }

    static lemma NoneDistinct()
      ensures Distinct<Signature>([]) == []
    {
    }

    // ---- the block index ----

    method StoreBlock(bp: BlockPoint)
      requires Valid()
      modifies this`blocks, this`hashToNumber, this`blockView
      ensures Valid()
      ensures blockView == old(blockView)[bp.slot := bp]
      ensures hashToNumber == old(hashToNumber)[bp.hash := EncodeUint64(bp.number)]
    {
      hide EventsRep, QueueRep;
      StoreBlockRep(blocks, blockView, bp);
      blocks := blocks[EncodeUint64(bp.slot) := bp];
      hashToNumber := hashToNumber[bp.hash := EncodeUint64(bp.number)];
      blockView := blockView[bp.slot := bp];
    }

    method StoreLatestBlockPoint(bp: BlockPoint)
      requires Valid()
      modifies this`latestBlock
      ensures Valid() && latestBlock == Some(bp)
      ensures forall slot: u64 :: slot > bp.slot ==>
                BlockhashBySlot(latestBlock, blockView, slot) == Err(BeyondHead)
      ensures forall slot: u64, at: u64 :: slot <= bp.slot && ClosestStored(blockView, slot, at) ==>
                BlockhashBySlot(latestBlock, blockView, slot) == Ok(blockView[at].hash)
    {
      latestBlock := Some(bp);
      forall slot: u64, at: u64 | slot <= bp.slot && ClosestStored(blockView, slot, at)
        ensures BlockhashBySlot(latestBlock, blockView, slot) == Ok(blockView[at].hash)
      {
        LookupFinds(blockView, slot, at);
      }
    }

    /** The hash stored at `slot`, or at the closest stored slot below it. */
    method GetBlockhashBySlot(slot: u64) returns (r: Result<Key, StoreError>)
      requires Valid()
      ensures r == BlockhashBySlot(latestBlock, blockView, slot)
      ensures r == Err(NoChainHead) <==> latestBlock == None
      ensures r == Err(BeyondHead) <==> latestBlock.Some? && slot > latestBlock.value.slot
      ensures r == Err(NotFound)
              <==> latestBlock.Some? && slot <= latestBlock.value.slot && NothingStored(blockView, slot)
      ensures r.Ok? ==> exists at: u64 :: ClosestStored(blockView, slot, at) && r.value == blockView[at].hash
    {
      LookupExactly(blockView, slot);
      hide NothingStored, ClosestStored;
      if latestBlock.None? {
        return Err(NoChainHead);
      }
      if slot > latestBlock.value.slot {
        return Err(BeyondHead);
      }
      var s := slot;
      while true
        invariant Lookup(blockView, slot) == Lookup(blockView, s)
        decreases s
      {
        if EncodeUint64(s) in blocks {
          return Ok(blocks[EncodeUint64(s)].hash);
        }
        if s == 0 {
          break;
        }
        s := s - 1;
      }
      return Err(NotFound);
    }
  }

  /** Each record once, in the order in which they were stored. */
  ghost predicate InIdOrder(records: seq<EventRecord>) {
    forall i, j :: 0 <= i < j < |records| ==> records[i].id < records[j].id
  }

  lemma {:induction false} FilterKeepsIds(records: seq<EventRecord>, keep: EventRecord -> bool)
    requires InIdOrder(records)
    ensures InIdOrder(Filter(records, keep))
  {
    if records != [] {
      var front, last := records[..|records| - 1], Last(records);
      FilterKeepsIds(front, keep);
      var kept := Filter(front, keep);
      forall i | 0 <= i < |kept|
        ensures kept[i].id < last.id
      {
        FilterMember(front, keep, kept[i]);
        var j :| 0 <= j < |front| && front[j] == kept[i];
        assert records[j] == kept[i];
      }
    }
  }

  lemma ScanByBlock(log: seq<Event>, block: u64)
    requires |log| < U64_LIMIT
    ensures var records := Filter(Numbered(log), ByBlock(block));
            InIdOrder(records) && forall e :: e in records <==> e in Numbered(log) && e.event.block == block
  {
    FilterKeepsIds(Numbered(log), ByBlock(block));
    forall e
      ensures e in Filter(Numbered(log), ByBlock(block)) <==> e in Numbered(log) && e.event.block == block
    {
      FilterMember(Numbered(log), ByBlock(block), e);
    }
  }

  lemma ScanBySlot(log: seq<Event>, slot: u64)
    requires |log| < U64_LIMIT
    ensures var records := Filter(Numbered(log), BySlot(slot));
            InIdOrder(records) && forall e :: e in records <==> e in Numbered(log) && e.event.slot == slot
  {
    FilterKeepsIds(Numbered(log), BySlot(slot));
    forall e
      ensures e in Filter(Numbered(log), BySlot(slot)) <==> e in Numbered(log) && e.event.slot == slot
    {
      FilterMember(Numbered(log), BySlot(slot), e);
    }
  }

  function Find(bucket: map<bytes, EventRecord>, key: bytes): Option<EventRecord> {
    if key in bucket then Some(bucket[key]) else None
  }

  /** What a hash lookup answers, given the stored chain head and the stored blocks. */
  function BlockhashBySlot(latest: Option<BlockPoint>, view: map<u64, BlockPoint>, slot: u64)
    : (r: Result<Key, StoreError>)
  {
    if latest.None? then Err(NoChainHead)
    else if slot > latest.value.slot then Err(BeyondHead)
    else match Lookup(view, slot)
      case None => Err(NotFound)
      case Some(bp) => Ok(bp.hash)
  }

  /** Signatures of the slot's events, in storage order, with repetitions. */
  function SlotSignatures(log: seq<Event>, slot: u64): (r: seq<Signature>)
    requires |log| < U64_LIMIT
    ensures |r| == |Filter(Numbered(log), BySlot(slot))|
    ensures forall i :: 0 <= i < |r| ==> r[i] == Filter(Numbered(log), BySlot(slot))[i].event.sig
  {
    var records := Filter(Numbered(log), BySlot(slot));
    seq(|records|, i requires 0 <= i < |records| => records[i].event.sig)
  }

  lemma SlotSignaturesMember(log: seq<Event>, slot: u64, sig: Signature)
    requires |log| < U64_LIMIT
    ensures sig in Distinct(SlotSignatures(log, slot))
            <==> exists e :: e in log && e.sig == sig && e.slot == slot
  {
    var records := Filter(Numbered(log), BySlot(slot));
    DistinctSound(SlotSignatures(log, slot));
    if sig in SlotSignatures(log, slot) {
      var i :| 0 <= i < |records| && records[i].event.sig == sig;
      FilterMember(Numbered(log), BySlot(slot), records[i]);
      var j :| 0 <= j < |log| && Numbered(log)[j] == records[i];
      assert log[j] in log;
    }
    if e :| e in log && e.sig == sig && e.slot == slot {
      var j :| 0 <= j < |log| && log[j] == e;
      assert Numbered(log)[j] in Numbered(log);
      FilterMember(Numbered(log), BySlot(slot), Numbered(log)[j]);
      var i :| 0 <= i < |records| && records[i] == Numbered(log)[j];
      assert SlotSignatures(log, slot)[i] == sig;
    }
  }
}
