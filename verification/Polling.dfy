/** What one poll of the tracker does to its durable state, one single effect at a time.

    An effect is one bolt transaction, or one delivery to the subscriber. A poll that fails or is cut
    short by a crash has done exactly the first `c` effects, so every reachable durable state is
    `QueryAt(.., c)` or `ProcessAt(.., c)` for some `c`. */
module Polling {
  import opened Sequences
  import opened Bytes
  import opened Records
  import opened Events

  /** Everything that survives a restart, with the delivery and finalization histories. */
  datatype Snapshot = Snapshot(
    queue: seq<TxPoint>,
    queried: TxPoint,
    processed: TxPoint,
    number: u64,
    stored: seq<Event>,
    delivered: seq<Event>,
    finalized: seq<TxPoint>)

  const EMPTY := Snapshot([], NO_POINT, NO_POINT, 0, [], [], [])

  /** The dispatcher processes the queue when the cursors differ, and queries when they agree. */
  predicate MustProcess(s: Snapshot) {
    s.queried.sig != s.processed.sig
  }

  // ---- querying for new transactions ----

  /** Signatures a query must not queue again: the last processed one, the queued ones, and those
      with stored events in the cursor's slot. */
  ghost predicate Known(s: Snapshot, sig: Signature) {
    || (s.processed.sig != ZERO_SIGNATURE && sig == s.processed.sig)
    || Queued(s, sig)
    || (exists e :: e in s.stored && e.sig == sig && e.slot == s.queried.slot)
  }

  ghost predicate Queued(s: Snapshot, sig: Signature) {
    exists p :: p in s.queue && p.sig == sig
  }

  ghost function Unknown(s: Snapshot): TxPoint -> bool {
    (p: TxPoint) => !Known(s, p.sig)
  }

  /** The start-slot filter: it only applies while no cursor has been recorded. */
  function FromStart(queried: TxPoint, start: u64): TxPoint -> bool {
    (p: TxPoint) => queried.sig != ZERO_SIGNATURE || start <= p.slot
  }

  ghost function NewsOf(s: Snapshot, listed: seq<TxPoint>): seq<TxPoint> {
    Filter(listed, Unknown(s))
  }

  ghost function BatchOf(s: Snapshot, start: u64, listed: seq<TxPoint>): seq<TxPoint> {
    Filter(NewsOf(s, listed), FromStart(s.queried, start))
  }

  /** How many effects a query has: one when nothing is new, else two. */
  ghost function QueryLength(s: Snapshot, listed: seq<TxPoint>): nat {
    if NewsOf(s, listed) == [] then 1 else 2
  }

  /** The durable state after the first `c` effects of a query that listed these transactions,
      oldest first, after reading block height `height`. */
  ghost function QueryAt(s: Snapshot, start: u64, listed: seq<TxPoint>, height: u64, c: nat): Snapshot
    requires c <= QueryLength(s, listed)
  {
    var news := NewsOf(s, listed);
    var batch := BatchOf(s, start, listed);
    if c == 0 then s
    else if news == [] then s.(number := height)
    else if batch == [] then
      // everything new lies before the start slot: skip to the newest of it
      if c == 1 then s.(processed := Last(news))
      else s.(processed := Last(news), queried := Last(news))
    else
      var pushed := s.(queue := s.queue + Filter(batch, NonZero()));
      if c == 1 then pushed else pushed.(queried := Last(batch))
  }

  // ---- processing the queue head ----

  function TxEvents(p: TxPoint, block: u64, bodies: seq<EventBody>): (r: seq<Event>)
    ensures |r| == |bodies|
    ensures forall i :: 0 <= i < |bodies| ==> r[i] == Event(p.slot, block, p.sig, bodies[i])
  {
    seq(|bodies|, i requires 0 <= i < |bodies| => Event(p.slot, block, p.sig, bodies[i]))
  }

  /** Pops the head and records it as last processed. */
  function Finalize(s: Snapshot): Snapshot
    requires s.queue != []
  {
    s.(queue := s.queue[1..], processed := s.queue[0], finalized := s.finalized + [s.queue[0]])
  }

  /** Three effects per event, in order: record its block number, deliver it, store it. */
  function AttemptAt(s: Snapshot, es: seq<Event>, c: nat): Snapshot
    requires c <= 3 * |es|
  {
    s.(number := if c == 0 then s.number else es[(c - 1) / 3].block,
       delivered := s.delivered + es[..(c + 1) / 3],
       stored := s.stored + es[..c / 3])
  }

  /** The events an attempt has to deliver. A queue head equal to the last processed transaction is
      dropped without looking at it. */
  ghost function HeadEvents(s: Snapshot, block: u64, outcome: Outcome): seq<Event>
    requires s.queue != []
  {
    if s.queue[0].sig == s.processed.sig || !outcome.Emits? then []
    else TxEvents(s.queue[0], block, outcome.bodies)
  }

  ghost function ProcessLength(s: Snapshot, block: u64, outcome: Outcome): nat
    requires s.queue != []
  {
    3 * |HeadEvents(s, block, outcome)| + 1
  }

  /** The durable state after the first `c` effects of an attempt at the queue head. */
  ghost function ProcessAt(s: Snapshot, block: u64, outcome: Outcome, c: nat): Snapshot
    requires s.queue != []
    requires c <= ProcessLength(s, block, outcome)
  {
    var es := HeadEvents(s, block, outcome);
    if c <= 3 * |es| then AttemptAt(s, es, c) else Finalize(AttemptAt(s, es, 3 * |es|))
  }
}
