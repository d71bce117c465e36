/** How the bolt buckets encode a queue, an event log with its block-number index, and the block
    index: representation predicates over byte-keyed maps, and the laws each write relies on. */
module StoreEncoding {
  import opened Sequences
  import opened Bytes
  import opened Records

  type Bucket = map<bytes, bytes>

  const HEAD_KEY: bytes := [104, 101, 97, 100]                              // "head"
  const TAIL_KEY: bytes := [116, 97, 105, 108]                              // "tail"
  const LAST_PROCESSED_KEY: bytes :=
    [108, 97, 115, 116, 95, 112, 114, 111, 99, 101, 115, 115, 101, 100]     // "last_processed"
  const LAST_QUERIED_KEY: bytes :=
    [108, 97, 115, 116, 95, 113, 117, 101, 114, 105, 101, 100]              // "last_queried"
  const COUNTER_KEY: bytes := [99, 111, 117, 110, 116, 101, 114]            // "counter"

  datatype StoreError = Corrupt | EmptyQueue | NotAtFront | BeyondHead | NoChainHead | NotFound

  // ---- transaction points ----

  function EncodeTxPoint(p: TxPoint): (r: bytes)
    ensures |r| == 72
  {
    p.sig + EncodeUint64(p.slot)
  }

  /** Values written before slots were persisted hold the signature only and decode with slot 0. */
  function DecodeTxPoint(data: bytes): Result<TxPoint, StoreError> {
    if |data| != 64 && |data| != 72 then Err(Corrupt)
    else Ok(TxPoint(data[..64], if |data| > 64 then DecodeUint64(data[64..]) else 0))
  }

  lemma TxPointRoundTrip(p: TxPoint)
    ensures DecodeTxPoint(EncodeTxPoint(p)) == Ok(p)
  {
    Uint64RoundTrip(p.slot);
    assert EncodeTxPoint(p)[..64] == p.sig;
    assert EncodeTxPoint(p)[64..] == EncodeUint64(p.slot);
  }

  /** Stored bytes stand for a point if and only if they are its signature and its slot in eight bytes, the highest
      first, or, for slot 0, its signature alone; any other bytes are corrupt. */
  lemma TxPointReads(data: bytes, p: TxPoint)
    ensures DecodeTxPoint(data) == Ok(p)
            <==> || (|data| == 72 && data[..64] == p.sig && BigEndian(data[64..], p.slot))
                 || (data == p.sig && p.slot == 0)
    ensures DecodeTxPoint(data) == Err(Corrupt) <==> |data| !in {64, 72}
  {
    assert |data| == 64 ==> data[..64] == data;
    if |data| == 72 {
      var slot := data[64..];
      BigEndianExactly(slot, p.slot);
      EncodeDecodeBE(slot);
      Uint64RoundTrip(p.slot);
      hide EncodeBE, DecodeBE, BigEndian;
      assert DecodeUint64(slot) == p.slot <==> slot == EncodeUint64(p.slot);
    }
  }

  function Ascii(s: string): bytes {
    seq(|s|, i requires 0 <= i < |s| => s[i] as int % 256)
  }

  lemma KeyNames()
    ensures HEAD_KEY == Ascii("head") && TAIL_KEY == Ascii("tail") && COUNTER_KEY == Ascii("counter")
    ensures LAST_PROCESSED_KEY == Ascii("last_processed") && LAST_QUERIED_KEY == Ascii("last_queried")
  {
  }

  /** Index keys are 8 bytes wide and none of the named keys is, so they never collide. */
  lemma IndexKeysAreSeparate(i: u64)
    ensures EncodeUint64(i) !in {HEAD_KEY, TAIL_KEY, LAST_PROCESSED_KEY, LAST_QUERIED_KEY}
    ensures |{HEAD_KEY, TAIL_KEY, LAST_PROCESSED_KEY, LAST_QUERIED_KEY}| == 4
  {
    assert HEAD_KEY[0] != TAIL_KEY[0];
  }

  // ---- the queue ----

  function Get(b: Bucket, k: bytes): bytes {
    if k in b then b[k] else []
  }

  ghost predicate CounterOk(b: Bucket, k: bytes) {
    k in b ==> |b[k]| == 8
  }

  function Counter(b: Bucket, k: bytes): u64
    requires CounterOk(b, k)
  {
    if k in b then DecodeUint64(b[k]) else 0
  }

  /** Index key `n` is present and holds `v`. */
  ghost predicate Holds<V>(b: map<bytes, V>, n: u64, v: V) {
    EncodeUint64(n) in b && b[EncodeUint64(n)] == v
  }

  lemma HoldsUnlessOverwritten<V>(b: map<bytes, V>, n: u64, v: V, m: u64, w: V)
    requires Holds(b, n, v) && n != m
    ensures Holds(b[EncodeUint64(m) := w], n, v)
    ensures Holds(b - {EncodeUint64(m)}, n, v)
  {
    if EncodeUint64(n) == EncodeUint64(m) {
      Uint64Injective(n, m);
    }
  }

  /** Entries head, head + 1, ... of the bucket hold the queue, front first. */
  ghost predicate Slots(b: Bucket, head: nat, queue: seq<TxPoint>) {
    && head + |queue| < U64_LIMIT
    && forall i :: 0 <= i < |queue| ==> Holds(b, head + i, EncodeTxPoint(queue[i]))
  }

  ghost predicate QueueRep(b: Bucket, queue: seq<TxPoint>) {
    && CounterOk(b, HEAD_KEY)
    && CounterOk(b, TAIL_KEY)
    && Counter(b, TAIL_KEY) == Counter(b, HEAD_KEY) + |queue|
    && Slots(b, Counter(b, HEAD_KEY), queue)
  }

  lemma SlotsPush(b: Bucket, head: nat, queue: seq<TxPoint>, p: TxPoint)
    requires Slots(b, head, queue)
    requires head + |queue| + 1 < U64_LIMIT
    ensures Slots(b[EncodeUint64(head + |queue|) := EncodeTxPoint(p)], head, queue + [p])
  {
    var b' := b[EncodeUint64(head + |queue|) := EncodeTxPoint(p)];
    forall i | 0 <= i < |queue + [p]|
      ensures Holds(b', head + i, EncodeTxPoint((queue + [p])[i]))
    {
      if i < |queue| {
        HoldsUnlessOverwritten(b, head + i, EncodeTxPoint(queue[i]), head + |queue|, EncodeTxPoint(p));
      }
    }
  }

  lemma SlotsPop(b: Bucket, head: nat, queue: seq<TxPoint>)
    requires Slots(b, head, queue)
    requires queue != []
    ensures Slots(b - {EncodeUint64(head)}, head + 1, queue[1..])
  {
    forall i | 0 <= i < |queue[1..]|
      ensures Holds(b - {EncodeUint64(head)}, head + 1 + i, EncodeTxPoint(queue[1..][i]))
    {
      HoldsUnlessOverwritten(b, head + 1 + i, EncodeTxPoint(queue[i + 1]), head, []);
    }
  }

  /** Writing under a key that is not an index key leaves every entry alone. */
  lemma SlotsOtherKey(b: Bucket, head: nat, queue: seq<TxPoint>, k: bytes, v: bytes)
    requires Slots(b, head, queue)
    requires |k| != 8
    ensures Slots(b[k := v], head, queue)
  {
  }

  /** Entry head + i of the bucket decodes to the i-th queued point. */
  lemma EntryDecodes(b: Bucket, queue: seq<TxPoint>, i: nat)
    requires QueueRep(b, queue)
    requires i < |queue|
    ensures DecodeTxPoint(Get(b, EncodeUint64(Counter(b, HEAD_KEY) + i))) == Ok(queue[i])
  {
    assert Holds(b, Counter(b, HEAD_KEY) + i, EncodeTxPoint(queue[i]));
    TxPointRoundTrip(queue[i]);
  }

  ghost predicate PointOk(b: Bucket, key: bytes) {
    key in b ==> DecodeTxPoint(b[key]).Ok?
  }

  /** The point stored under a named key; a missing key means none was recorded. */
  function PointIn(b: Bucket, key: bytes): TxPoint
    requires PointOk(b, key)
  {
    if key in b then DecodeTxPoint(b[key]).value else NO_POINT
  }

  /** The whole transaction bucket: a queue and the two cursors. */
  ghost predicate TxBucketRep(b: Bucket, queue: seq<TxPoint>, processed: TxPoint, queried: TxPoint) {
    && QueueRep(b, queue)
    && PointOk(b, LAST_PROCESSED_KEY) && PointIn(b, LAST_PROCESSED_KEY) == processed
    && PointOk(b, LAST_QUERIED_KEY) && PointIn(b, LAST_QUERIED_KEY) == queried
  }

  /** The bucket after writing `points` from index `tail` on, one entry after another. */
  function PutEntries(b: Bucket, tail: nat, points: seq<TxPoint>): Bucket
    requires tail + |points| < U64_LIMIT
  {
    if points == [] then b
    else
      PutEntries(b, tail, points[..|points| - 1])
        [EncodeUint64(tail + |points| - 1) := EncodeTxPoint(Last(points))]
  }

  lemma {:induction false} PutEntriesRep(b: Bucket, head: nat, queue: seq<TxPoint>, points: seq<TxPoint>)
    requires Slots(b, head, queue)
    requires head + |queue| + |points| < U64_LIMIT
    ensures Slots(PutEntries(b, head + |queue|, points), head, queue + points)
  {
    if points == [] {
      assert queue + points == queue;
    } else {
      var front := points[..|points| - 1];
      PutEntriesRep(b, head, queue, front);
      SlotsPush(PutEntries(b, head + |queue|, front), head, queue + front, Last(points));
      assert queue + points == queue + front + [Last(points)];
    }
  }

  /** Writing entries leaves the named keys alone, which are never 8 bytes wide. */
  lemma {:induction false} PutEntriesKeeps(b: Bucket, tail: nat, points: seq<TxPoint>, k: bytes)
    requires tail + |points| < U64_LIMIT
    requires |k| != 8
    ensures k in PutEntries(b, tail, points) <==> k in b
    ensures k in b ==> PutEntries(b, tail, points)[k] == b[k]
  {
    if points != [] {
      PutEntriesKeeps(b, tail, points[..|points| - 1], k);
    }
  }

  lemma PushRep(b: Bucket, queue: seq<TxPoint>, processed: TxPoint, queried: TxPoint,
                points: seq<TxPoint>)
    requires TxBucketRep(b, queue, processed, queried)
    requires Counter(b, TAIL_KEY) + |points| < U64_LIMIT
    ensures var tail := Counter(b, TAIL_KEY);
            var b' := PutEntries(b, tail, points)[TAIL_KEY := EncodeUint64(tail + |points|)];
            && TxBucketRep(b', queue + points, processed, queried)
            && Counter(b', TAIL_KEY) == tail + |points|
  {
    hide PutEntries, DecodeTxPoint, EncodeTxPoint;
    var head, tail := Counter(b, HEAD_KEY), Counter(b, TAIL_KEY);
    var entries := PutEntries(b, tail, points);
    PutEntriesRep(b, head, queue, points);
    NamedKeysDiffer();
    PutEntriesKeeps(b, tail, points, HEAD_KEY);
    PutEntriesKeeps(b, tail, points, LAST_PROCESSED_KEY);
    PutEntriesKeeps(b, tail, points, LAST_QUERIED_KEY);
    SlotsOtherKey(entries, head, queue + points, TAIL_KEY, EncodeUint64(tail + |points|));
    Uint64RoundTrip(tail + |points|);
  }

  lemma NamedKeysDiffer()
    ensures HEAD_KEY != TAIL_KEY
    ensures |HEAD_KEY| == |TAIL_KEY| == 4
    ensures |LAST_PROCESSED_KEY| == 14 && |LAST_QUERIED_KEY| == 12
  {
    assert HEAD_KEY[0] != TAIL_KEY[0];
  }

  lemma PopRep(b: Bucket, queue: seq<TxPoint>, processed: TxPoint, queried: TxPoint)
    requires TxBucketRep(b, queue, processed, queried)
    requires queue != []
    ensures var head := Counter(b, HEAD_KEY);
            var b' := (b - {EncodeUint64(head)})[HEAD_KEY := EncodeUint64(head + 1)];
            && TxBucketRep(b', queue[1..], processed, queried)
            && Counter(b', TAIL_KEY) == Counter(b, TAIL_KEY)
  {
    var head := Counter(b, HEAD_KEY);
    var popped := b - {EncodeUint64(head)};
    SlotsPop(b, head, queue);
    NamedKeysDiffer();
    SlotsOtherKey(popped, head + 1, queue[1..], HEAD_KEY, EncodeUint64(head + 1));
    Uint64RoundTrip(head + 1);
  }

  lemma SetPointRep(b: Bucket, queue: seq<TxPoint>, processed: TxPoint, queried: TxPoint, p: TxPoint)
    requires TxBucketRep(b, queue, processed, queried)
    ensures TxBucketRep(b[LAST_PROCESSED_KEY := EncodeTxPoint(p)], queue, p, queried)
    ensures TxBucketRep(b[LAST_QUERIED_KEY := EncodeTxPoint(p)], queue, processed, p)
    ensures Counter(b[LAST_PROCESSED_KEY := EncodeTxPoint(p)], TAIL_KEY) == Counter(b, TAIL_KEY)
    ensures Counter(b[LAST_QUERIED_KEY := EncodeTxPoint(p)], TAIL_KEY) == Counter(b, TAIL_KEY)
  {
    NamedKeysDiffer();
    TxPointRoundTrip(p);
    SlotsOtherKey(b, Counter(b, HEAD_KEY), queue, LAST_PROCESSED_KEY, EncodeTxPoint(p));
    SlotsOtherKey(b, Counter(b, HEAD_KEY), queue, LAST_QUERIED_KEY, EncodeTxPoint(p));
  }

  // ---- events and their block-number index ----

  /** Ids of the events of one block, in storage order. */
  function IdsOf(log: seq<Event>, block: u64): (ids: seq<u64>)
    requires |log| < U64_LIMIT
    ensures forall i :: 0 <= i < |ids| ==> 1 <= ids[i] <= |log|
  {
    if log == [] then []
    else IdsOf(log[..|log| - 1], block) + (if Last(log).block == block then [|log|] else [])
  }

  function EncodeIds(ids: seq<u64>): (r: bytes)
    ensures |r| == 8 * |ids|
  {
    if ids == [] then [] else EncodeIds(ids[..|ids| - 1]) + EncodeUint64(Last(ids))
  }

  function DecodeIds(data: bytes): (ids: seq<u64>)
    requires |data| % 8 == 0
    ensures |ids| == |data| / 8
  {
    if data == [] then [] else DecodeIds(data[..|data| - 8]) + [DecodeUint64(data[|data| - 8..])]
  }

  lemma DecodeIdsSnoc(data: bytes, last: bytes)
    requires |data| % 8 == 0 && |last| == 8
    ensures DecodeIds(data + last) == DecodeIds(data) + [DecodeUint64(last)]
  {
    assert (data + last)[..|data + last| - 8] == data;
    assert (data + last)[|data + last| - 8..] == last;
  }

  /** Decoding advances one id per 8 bytes. */
  lemma DecodeIdsStep(data: bytes, offset: nat)
    requires offset % 8 == 0 && offset + 8 <= |data|
    ensures DecodeIds(data[..offset + 8])
            == DecodeIds(data[..offset]) + [DecodeUint64(data[offset..offset + 8])]
  {
    DecodeIdsSnoc(data[..offset], data[offset..offset + 8]);
    assert data[..offset + 8] == data[..offset] + data[offset..offset + 8];
  }

  lemma {:induction false} IdsRoundTrip(ids: seq<u64>)
    ensures |EncodeIds(ids)| % 8 == 0
    ensures DecodeIds(EncodeIds(ids)) == ids
  {
    if ids != [] {
      IdsRoundTrip(ids[..|ids| - 1]);
      Uint64RoundTrip(Last(ids));
      DecodeIdsSnoc(EncodeIds(ids[..|ids| - 1]), EncodeUint64(Last(ids)));
      assert ids == ids[..|ids| - 1] + [Last(ids)];
    }
  }

  function RecordsOf(ids: seq<u64>, log: seq<Event>): (r: seq<EventRecord>)
    requires forall i :: 0 <= i < |ids| ==> 1 <= ids[i] <= |log|
    ensures |r| == |ids|
  {
    if ids == [] then []
    else RecordsOf(ids[..|ids| - 1], log) + [EventRecord(Last(ids), log[Last(ids) - 1])]
  }

  /** The indexed ids of a block name exactly the records a full scan would keep for it. */
  lemma {:induction false} IndexMatchesScan(log: seq<Event>, block: u64)
    requires |log| < U64_LIMIT
    ensures Filter(Numbered(log), ByBlock(block)) == RecordsOf(IdsOf(log, block), log)
  {
    if log != [] {
      var front := log[..|log| - 1];
      hide IdsOf, RecordsOf, Numbered;
      IndexMatchesScan(front, block);
      assert log == front + [Last(log)];
      ScanSnoc(front, Last(log), block);
      LookupSnoc(front, Last(log), block);
    }
  }

  lemma ScanSnoc(log: seq<Event>, e: Event, block: u64)
    requires |log| + 1 < U64_LIMIT
    ensures Filter(Numbered(log + [e]), ByBlock(block))
            == Filter(Numbered(log), ByBlock(block))
               + (if e.block == block then [EventRecord(|log| + 1, e)] else [])
  {
    hide Numbered;
    NumberedSnoc(log, e);
    FilterConcat(Numbered(log), [EventRecord(|log| + 1, e)], ByBlock(block));
  }

  lemma LookupSnoc(log: seq<Event>, e: Event, block: u64)
    requires |log| + 1 < U64_LIMIT
    ensures RecordsOf(IdsOf(log + [e], block), log + [e])
            == RecordsOf(IdsOf(log, block), log)
               + (if e.block == block then [EventRecord(|log| + 1, e)] else [])
  {
    hide RecordsOf, IdsOf, EncodeIds;
    IdsSnoc(log, e, block);
    var ids := IdsOf(log, block);
    RecordsOfPrefix(ids, log, log + [e]);
    if e.block == block {
      RecordsOfSnoc(ids, log + [e], |log| + 1);
    }
  }

  lemma IdsSnoc(log: seq<Event>, e: Event, block: u64)
    requires |log| + 1 < U64_LIMIT
    ensures IdsOf(log + [e], block)
            == if e.block == block then IdsOf(log, block) + [|log| + 1] else IdsOf(log, block)
    ensures EncodeIds(IdsOf(log, block) + [|log| + 1])
            == EncodeIds(IdsOf(log, block)) + EncodeUint64(|log| + 1)
  {
    assert (log + [e])[..|log|] == log;
    var ids := IdsOf(log, block);
    assert (ids + [|log| + 1])[..|ids|] == ids;
  }

  lemma NumberedSnoc(log: seq<Event>, e: Event)
    requires |log| + 1 < U64_LIMIT
    ensures Numbered(log + [e]) == Numbered(log) + [EventRecord(|log| + 1, e)]
  {
  }

  lemma {:induction false} RecordsOfPrefix(ids: seq<u64>, front: seq<Event>, log: seq<Event>)
    requires forall i :: 0 <= i < |ids| ==> 1 <= ids[i] <= |front|
    requires front <= log
    ensures RecordsOf(ids, front) == RecordsOf(ids, log)
  {
    if ids != [] {
      RecordsOfPrefix(ids[..|ids| - 1], front, log);
    }
  }

  lemma RecordsOfSnoc(ids: seq<u64>, log: seq<Event>, id: u64)
    requires forall i :: 0 <= i < |ids| ==> 1 <= ids[i] <= |log|
    requires 1 <= id <= |log|
    ensures RecordsOf(ids + [id], log) == RecordsOf(ids, log) + [EventRecord(id, log[id - 1])]
  {
    var all := ids + [id];
    RecordsOfLast(all, log);
    hide RecordsOf;
    assert all[..|all| - 1] == ids && Last(all) == id;
  }

  lemma RecordsOfLast(ids: seq<u64>, log: seq<Event>)
    requires ids != [] && forall i :: 0 <= i < |ids| ==> 1 <= ids[i] <= |log|
    ensures RecordsOf(ids, log)
            == RecordsOf(ids[..|ids| - 1], log) + [EventRecord(Last(ids), log[Last(ids) - 1])]
  {
  }

  function IndexEntry(index: Bucket, block: u64): bytes {
    Get(index, EncodeUint64(block))
  }

  ghost predicate IndexRep(index: Bucket, log: seq<Event>)
    requires |log| < U64_LIMIT
  {
    forall block: u64 :: IndexEntryOk(index, log, block)
  }

  ghost predicate IndexEntryOk(index: Bucket, log: seq<Event>, block: u64)
    requires |log| < U64_LIMIT
  {
    && IndexEntry(index, block) == EncodeIds(IdsOf(log, block))
    && (EncodeUint64(block) in index <==> IdsOf(log, block) != [])
  }

  ghost predicate IsRecordKey(k: bytes, i: int) {
    0 <= i + 1 < U64_LIMIT && k == EncodeUint64(i + 1)
  }

  /** Keys one to n, and nothing else, hold the records in id order. */
  ghost predicate RecordsRep(events: map<bytes, EventRecord>, records: seq<EventRecord>) {
    && |records| < U64_LIMIT
    && (forall i :: 0 <= i < |records| ==> Holds(events, i + 1, records[i]))
    && (forall k :: k in events ==> exists i :: 0 <= i < |records| && IsRecordKey(k, i))
  }

  ghost predicate EventIdsRep(counter: Bucket, n: nat) {
    && n < U64_LIMIT
    && (n == 0 ==> COUNTER_KEY !in counter)
    && (n > 0 ==> COUNTER_KEY in counter && counter[COUNTER_KEY] == EncodeUint64(n))
  }

  /** The event buckets stand for a log of events. */
  ghost predicate EventsRep(events: map<bytes, EventRecord>, counter: Bucket, index: Bucket,
                            log: seq<Event>) {
    && EventIdsRep(counter, |log|)
    && RecordsRep(events, Numbered(log))
    && IndexRep(index, log)
  }

  lemma StoreEventRep(events: map<bytes, EventRecord>, counter: Bucket, index: Bucket,
                      log: seq<Event>, e: Event)
    requires EventsRep(events, counter, index, log)
    requires |log| + 1 < U64_LIMIT
    ensures var id := |log| + 1;
            EventsRep(events[EncodeUint64(id) := EventRecord(id, e)],
                      counter[COUNTER_KEY := EncodeUint64(id)],
                      index[EncodeUint64(e.block) := IndexEntry(index, e.block) + EncodeUint64(id)],
                      log + [e])
  {
    IndexAppend(index, log, e);
    RecordsAppend(events, Numbered(log), EventRecord(|log| + 1, e));
    NumberedSnoc(log, e);
  }

  /** The counter holds the number of events stored. */
  lemma NextEventId(counter: Bucket, events: map<bytes, EventRecord>, index: Bucket, log: seq<Event>)
    requires EventsRep(events, counter, index, log)
    ensures COUNTER_KEY in counter ==>
              |counter[COUNTER_KEY]| == 8 && DecodeUint64(counter[COUNTER_KEY]) == |log|
    ensures COUNTER_KEY !in counter ==> log == []
  {
    hide RecordsRep, IndexRep;
    if log != [] {
      Uint64RoundTrip(|log|);
    }
  }

  lemma IndexAppend(index: Bucket, log: seq<Event>, e: Event)
    requires |log| + 1 < U64_LIMIT
    requires IndexRep(index, log)
    ensures IndexRep(
              index[EncodeUint64(e.block) := IndexEntry(index, e.block) + EncodeUint64(|log| + 1)],
              log + [e])
  {
    var index' := index[EncodeUint64(e.block) := IndexEntry(index, e.block) + EncodeUint64(|log| + 1)];
    forall block: u64
      ensures IndexEntryOk(index', log + [e], block)
    {
      assert IndexEntryOk(index, log, block);
      IdsSnoc(log, e, block);
      if block != e.block && EncodeUint64(block) == EncodeUint64(e.block) {
        Uint64Injective(block, e.block);
      }
    }
  }

  lemma RecordsAppend(events: map<bytes, EventRecord>, records: seq<EventRecord>, r: EventRecord)
    requires RecordsRep(events, records)
    requires |records| + 1 < U64_LIMIT
    ensures RecordsRep(events[EncodeUint64(|records| + 1) := r], records + [r])
  {
    var n := |records|;
    var events' := events[EncodeUint64(n + 1) := r];
    forall i | 0 <= i < n
      ensures Holds(events', i + 1, records[i])
    {
      HoldsUnlessOverwritten(events, i + 1, records[i], n + 1, r);
    }
    forall k | k in events'
      ensures exists i :: 0 <= i < n + 1 && IsRecordKey(k, i)
    {
      if k == EncodeUint64(n + 1) {
        assert IsRecordKey(k, n);
      } else {
        var i :| 0 <= i < n && IsRecordKey(k, i);
        assert 0 <= i < n + 1;
      }
    }
  }

  /** An indexed id leads to its record. */
  lemma RecordAt(events: map<bytes, EventRecord>, log: seq<Event>, id: u64)
    requires |log| < U64_LIMIT
    requires RecordsRep(events, Numbered(log))
    requires 1 <= id <= |log|
    ensures EncodeUint64(id) in events
    ensures events[EncodeUint64(id)] == EventRecord(id, log[id - 1])
  {
    assert Holds(events, id - 1 + 1, Numbered(log)[id - 1]);
  }

  // ---- bucket cursors ----

  predicate IsAfter(k: bytes, from: Option<bytes>) {
    from.None? || LexLess(from.value, k)
  }

  /** `next` is the key a cursor standing at `from`, or before the first key, moves to. */
  ghost predicate IsNextKey(keys: set<bytes>, from: Option<bytes>, next: Option<bytes>) {
    match next
    case None => forall k :: k in keys ==> !IsAfter(k, from)
    case Some(n) =>
      && n in keys
      && IsAfter(n, from)
      && forall k :: k in keys && IsAfter(k, from) ==> k == n || LexLess(n, k)
  }

  /** Because big-endian keys sort numerically, the cursor visits records in id order. */
  lemma CursorVisitsInIdOrder(events: map<bytes, EventRecord>, records: seq<EventRecord>,
                              i: nat, next: Option<bytes>)
    requires RecordsRep(events, records)
    requires i <= |records|
    requires IsNextKey(events.Keys, if i == 0 then None else Some(EncodeUint64(i)), next)
    ensures next == if i < |records| then Some(EncodeUint64(i + 1)) else None
  {
    if i < |records| {
      assert Holds(events, i + 1, records[i]);
      Uint64Order(i, i + 1);
    }
    if next.Some? {
      var j :| 0 <= j < |records| && IsRecordKey(next.value, j);
      Uint64Order(i, j + 1);
      Uint64Order(j + 1, i + 1);
      LexIrreflexive(next.value);
    }
  }

  // ---- blocks ----

  ghost predicate BlockRep(blocks: map<bytes, BlockPoint>, view: map<u64, BlockPoint>) {
    && (forall s: u64 :: EncodeUint64(s) in blocks <==> s in view)
    && (forall s: u64 :: s in view ==> blocks[EncodeUint64(s)] == view[s] && view[s].slot == s)
  }

  lemma StoreBlockRep(blocks: map<bytes, BlockPoint>, view: map<u64, BlockPoint>, bp: BlockPoint)
    requires BlockRep(blocks, view)
    ensures BlockRep(blocks[EncodeUint64(bp.slot) := bp], view[bp.slot := bp])
  {
    forall s: u64 | s != bp.slot
      ensures EncodeUint64(s) != EncodeUint64(bp.slot)
    {
      if EncodeUint64(s) == EncodeUint64(bp.slot) {
        Uint64Injective(s, bp.slot);
      }
    }
  }

  /** The closest stored block at or below `slot`. */
  function Lookup(view: map<u64, BlockPoint>, slot: u64): (r: Option<BlockPoint>)
    ensures r.Some? ==> r.value in view.Values
  {
    if slot in view then Some(view[slot])
    else if slot == 0 then None
    else Lookup(view, slot - 1)
  }

  /** `at` is the greatest stored slot at or below `slot`. */
  ghost predicate ClosestStored(view: map<u64, BlockPoint>, slot: u64, at: u64) {
    at in view && at <= slot && forall s: u64 :: at < s <= slot ==> s !in view
  }

  ghost predicate NothingStored(view: map<u64, BlockPoint>, slot: u64) {
    forall s: u64 :: s <= slot ==> s !in view
  }

  lemma OneSlotUp(view: map<u64, BlockPoint>, slot: u64)
    requires slot > 0 && slot !in view
    ensures NothingStored(view, slot) <==> NothingStored(view, slot - 1)
    ensures forall at: u64 :: ClosestStored(view, slot - 1, at) ==> ClosestStored(view, slot, at)
  {
    if NothingStored(view, slot - 1) {
      forall s: u64 | s <= slot
        ensures s !in view
      {
      }
    }
  }

  /** A lookup finds nothing if and only if nothing is stored at or below the slot; otherwise it finds the closest
      stored block. */
  lemma {:induction false} LookupExactly(view: map<u64, BlockPoint>, slot: u64)
    ensures Lookup(view, slot) == None <==> NothingStored(view, slot)
    ensures Lookup(view, slot).Some? ==>
              exists at: u64 :: ClosestStored(view, slot, at) && Lookup(view, slot).value == view[at]
  {
    if slot in view {
      assert ClosestStored(view, slot, slot);
    } else if slot == 0 {
      assert NothingStored(view, 0);
    } else {
      LookupExactly(view, slot - 1);
      OneSlotUp(view, slot);
      hide NothingStored;
      if Lookup(view, slot).Some? {
        var at: u64 :| ClosestStored(view, slot - 1, at) && Lookup(view, slot).value == view[at];
        assert ClosestStored(view, slot, at);
      }
    }
  }

  lemma {:induction false} LookupFinds(view: map<u64, BlockPoint>, slot: u64, at: u64)
    requires at <= slot && at in view
    requires forall s :: at < s <= slot ==> s !in view
    ensures Lookup(view, slot) == Some(view[at])
  {
    if slot > at {
      LookupFinds(view, slot - 1, at);
    }
  }
}
