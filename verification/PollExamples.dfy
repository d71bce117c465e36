/** Runs that show where a guarantee stops: a skip that lets too early transactions in, a crash that
    wedges the poller, a crash that leaves the stored number too high, and a crash followed by a
    refused cursor that makes a processed transaction eligible again. */
module PollExamples {
  import opened Sequences
  import opened Bytes
  import opened Records
  import opened Events
  import opened Chain
  import opened Polling
  import opened PollMachine
  import opened PollBasic
  import opened PollDelivery
  import opened PollWatermark
  import opened PollTheorems

  // ---- building runs ----

  lemma ReachGrow(cfg: Config, w: World, txs: seq<Tx>, height: u64) returns (w': World)
    requires Reached(cfg, w) && CanGrow(w, txs, height)
    ensures Reached(cfg, w') && w' == w.(chain := w.chain + txs, height := height)
  {
    w' := w.(chain := w.chain + txs, height := height);
    ReachStep(cfg, w, Grow(txs, height), w');
  }

  lemma QueryHidingNothing(cfg: Config, r: World, refused: bool, c: nat, listed: seq<TxPoint>)
    requires r.report == Some(HeightReport(r.height, |r.chain|)) && !MustProcess(r.now)
    requires refused ==> r.now.queried.sig != ZERO_SIGNATURE
    requires Listed(Points(r.chain), r.now.queried, refused) == listed
    requires c <= QueryLength(r.now, listed)
    ensures CanQuery(r, |r.chain|, {}, refused, c)
    ensures ListedAt(r, |r.chain|, {}, refused) == listed
  {
    var points := Points(r.chain);
    assert points[..|points|] == points;
    FilterAll(points, NotHidden({}));
  }

  /** A poll that reads the height and then queries, hiding nothing. */
  lemma ReachQuery(cfg: Config, w: World, refused: bool, c: nat, listed: seq<TxPoint>) returns (w': World)
    requires Reached(cfg, w) && w.report == None && !MustProcess(w.now)
    requires refused ==> w.now.queried.sig != ZERO_SIGNATURE
    requires Listed(Points(w.chain), w.now.queried, refused) == listed
    requires 0 < c <= QueryLength(w.now, listed)
    ensures Reached(cfg, w')
    ensures w'.chain == w.chain && w'.height == w.height && w'.report == None
    ensures w'.now == QueryAt(w.now, cfg.start, listed, w.height, c)
    ensures w'.torn == (w.torn || c < QueryLength(w.now, listed))
    ensures w'.partial == (w.partial || listed != FullHistory(w, |w.chain|))
  {
    hide QueryAt, QueryLength, Listed, FullHistory, AfterQuery, Reached;
    var r := ReachHeight(cfg, w);
    SameFullHistory(w, r);
    QueryHidingNothing(cfg, r, refused, c, listed);
    w' := AfterQuery(cfg, r, |w.chain|, {}, refused, c);
    QueryDoes(cfg, r, |w.chain|, {}, refused, c);
    ReachStep(cfg, r, Query(|w.chain|, {}, refused, c), w');
  }

  lemma ReachHeight(cfg: Config, w: World) returns (r: World)
    requires Reached(cfg, w) && w.report == None && !MustProcess(w.now)
    ensures Reached(cfg, r) && r == w.(report := Some(HeightReport(w.height, |w.chain|)))
  {
    hide Reached;
    r := w.(report := Some(HeightReport(w.height, |w.chain|)));
    ReachStep(cfg, w, ReadHeight, r);
  }

  lemma SameFullHistory(w: World, r: World)
    requires r.chain == w.chain && r.now == w.now
    ensures FullHistory(r, |w.chain|) == FullHistory(w, |w.chain|)
  {
  }

  /** A whole attempt at the queue head, which is the chain's transaction at position i. */
  lemma ReachProcess(cfg: Config, w: World, i: nat) returns (w': World)
    requires Reached(cfg, w) && w.report == None && MustProcess(w.now) && w.now.queue != []
    requires ChainOk(w.chain) && i < |w.chain| && w.chain[i].point == w.now.queue[0]
    requires w.now.queue[0].sig != w.now.processed.sig
    ensures Reached(cfg, w') && exists c :: Step(cfg, w, Process(c), w')
    ensures w'.chain == w.chain && w'.height == w.height && w'.report == None
    ensures w'.torn == w.torn && w'.partial == w.partial
    ensures w'.now.number == if EventsAt(cfg, w, i) == [] then w.now.number else w.chain[i].block
    ensures w'.now == w.now.(number := w'.now.number, queue := w.now.queue[1..], processed := w.now.queue[0],
                             finalized := w.now.finalized + [w.now.queue[0]],
                             stored := w.now.stored + EventsAt(cfg, w, i),
                             delivered := w.now.delivered + EventsAt(cfg, w, i))
  {
    hide OutcomeOf, Reached, ProcessAt, TxEvents;
    IndexOfAt(Points(w.chain), i);
    var block, outcome := w.chain[i].block, OutcomeOf(cfg.decoding, w.chain[i].content);
    var c := ProcessLength(w.now, block, outcome);
    w' := AfterProcess(cfg, w, c);
    assert Step(cfg, w, Process(c), w');
    ReachStep(cfg, w, Process(c), w');
    WholeAttempt(w.now, block, outcome);
    assert HeadEvents(w.now, block, outcome) == EventsAt(cfg, w, i);
  }

  // ---- small filters ----

  lemma FilterOne(a: TxPoint, keep: TxPoint -> bool)
    ensures Filter([a], keep) == if keep(a) then [a] else []
  {
  }

  lemma FilterThree(a: TxPoint, b: TxPoint, c: TxPoint, keep: TxPoint -> bool)
    ensures Filter([a, b, c], keep) == Filter([a], keep) + Filter([b], keep) + Filter([c], keep)
  {
    assert [a, b, c] == [a, b] + [c] && [a, b] == [a] + [b];
    FilterConcat([a, b], [c], keep);
    FilterConcat([a], [b], keep);
  }

  // ---- the examples ----

  /** Every transaction listed is new and accepted by the start filter. */
  lemma AllNew(s: Snapshot, start: u64, listed: seq<TxPoint>, height: u64, c: nat)
    requires listed != [] && 0 < c <= 2
    requires forall p :: p in listed ==> !Known(s, p.sig) && p.sig != ZERO_SIGNATURE
    requires s.queried.sig != ZERO_SIGNATURE || forall p :: p in listed ==> start <= p.slot
    ensures QueryLength(s, listed) == 2
    ensures QueryAt(s, start, listed, height, c)
            == s.(queue := s.queue + listed, queried := if c == 1 then s.queried else Last(listed))
  {
    FilterAll(listed, Unknown(s));
    FilterAll(listed, FromStart(s.queried, start));
    FilterAll(listed, NonZero());
  }

  /** A first poll that finds one transaction before the start slot, cut after c effects. */
  lemma ReachSkip(cfg: Config, t0: Tx, c: nat) returns (w: World)
    requires ChainOk([t0]) && t0.point.slot < cfg.start && 0 < c <= 2
    ensures Reached(cfg, w) && w.chain == [t0] && w.height == t0.block && w.report == None
    ensures w.torn == (c == 1) && !w.partial
    ensures w.now == EMPTY.(processed := t0.point, queried := if c == 1 then NO_POINT else t0.point)
  {
    OnePoint(t0);
    SkipOnly(cfg.start, t0.point, t0.block, c);
    hide Reached, QueryAt, QueryLength, PointsOk, Known;
    w := ReachFirst(cfg, [t0], t0.block);
    w := ReachQuery(cfg, w, false, c, [t0.point]);
  }

  lemma OnePoint(t0: Tx)
    requires ChainOk([t0])
    ensures Points([t0]) == [t0.point] && t0.point.sig != ZERO_SIGNATURE
    ensures forall w: World :: w.chain == [t0] && w.now.queried == NO_POINT ==> FullHistory(w, 1) == [t0.point]
  {
    assert Points([t0])[0] == t0.point;
  }

  lemma FirstOfChain(t0: Tx)
    requires ChainOk([t0])
    ensures Listed([t0.point], NO_POINT, false) == [t0.point]
  {
  }

  lemma SkipOnly(start: u64, p: TxPoint, height: u64, c: nat)
    requires p.slot < start && p.sig != ZERO_SIGNATURE && 0 < c <= 2
    ensures QueryLength(EMPTY, [p]) == 2
    ensures QueryAt(EMPTY, start, [p], height, c) == EMPTY.(processed := p, queried := if c == 1 then NO_POINT else p)
  {
    FilterAll([p], Unknown(EMPTY));
    FilterNone([p], FromStart(NO_POINT, start));
  }

  /** The start-slot filter stops filtering once it has skipped something: of two transactions before
      the start slot, listed by two different polls, the second is queued. No crash, no refusal. */
  lemma SkipLetsEarlyTransactionsIn(cfg: Config, t0: Tx, t1: Tx) returns (w: World)
    requires ChainOk([t0, t1]) && t0.block < t1.block && t1.point.slot < cfg.start
    ensures Reached(cfg, w) && !w.torn && !w.partial
    ensures w.now.queue == [t1.point] && HandledTooEarly(cfg, w)
  {
    hide Reached, QueryAt, QueryLength, Known, PointsOk, ChainOk, FullHistory, Listed;
    var p0, p1 := t0.point, t1.point;
    TwoPoints(t0, t1);
    w := ReachSkip(cfg, t0, 2);
    w := ReachGrow(cfg, w, [t1], t1.block);
    NotKnownYet(w.now, p1.sig);
    AllNew(w.now, cfg.start, [p1], w.height, 2);
    SecondAfterFirst(w, t0, t1);
    w := ReachQuery(cfg, w, false, 2, [p1]);
    assert w.now.queue == [p1];
    assert p1 in Done(w);
  }

  lemma TwoPoints(t0: Tx, t1: Tx)
    requires ChainOk([t0, t1])
    ensures ChainOk([t0]) && Points([t0, t1]) == [t0.point, t1.point] && [t0] + [t1] == [t0, t1]
    ensures PointsOk([t0.point, t1.point]) && t0.point.slot <= t1.point.slot
    ensures t0.point.sig != t1.point.sig && ZERO_SIGNATURE !in {t0.point.sig, t1.point.sig}
  {
    assert Points([t0, t1])[0] == t0.point && Points([t0, t1])[1] == t1.point;
    assert Points([t0])[0] == t0.point;
  }

  lemma SecondAfterFirst(w: World, t0: Tx, t1: Tx)
    requires w.chain == [t0, t1] && w.now.queried == t0.point && PointsOk([t0.point, t1.point])
    requires Points([t0, t1]) == [t0.point, t1.point]
    ensures Listed(Points(w.chain), t0.point, false) == [t1.point] == FullHistory(w, 2)
  {
    IndexOfAt([t0.point, t1.point], 0);
  }

  lemma NotKnownYet(s: Snapshot, sig: Signature)
    requires s.queue == [] && s.stored == [] && sig != s.processed.sig
    ensures !Known(s, sig)
  {
  }

  /** A crash between the two writes of a skip leaves the poller stuck for good. */
  lemma TornSkipWedges(cfg: Config, t0: Tx) returns (w: World)
    requires ChainOk([t0]) && t0.point.slot < cfg.start
    ensures Reached(cfg, w) && MustProcess(w.now) && w.now.queue == [] && w.report == None
  {
    assert Points([t0])[0] == t0.point;
    w := ReachSkip(cfg, t0, 1);
  }

  /** After a crash between queueing a transaction and moving the cursor, the next poll finds nothing new
      and records the height it read as the stored number: the queued transaction, which lies strictly
      below it, has not been processed. */
  lemma TornPushRaisesNumber(cfg: Config, t0: Tx, height: u64) returns (w: World)
    requires ChainOk([t0]) && cfg.start <= t0.point.slot && t0.block < height
    ensures Reached(cfg, w) && !w.partial
    ensures w.chain == [t0] && t0.block < w.now.number && t0.point !in w.now.finalized
    ensures w.height == w.now.number == height && w.report == None
    ensures w.now == EMPTY.(queue := [t0.point], number := height)
  {
    hide Reached, QueryAt, QueryLength, PointsOk, Known, FullHistory, Points, ChainOk, IndexOf, Listed, Filter;
    var p0 := t0.point;
    OnePoint(t0);
    FirstOfChain(t0);
    w := ReachFirst(cfg, [t0], height);
    NotKnownYet(EMPTY, p0.sig);
    AllNew(EMPTY, cfg.start, [p0], height, 1);
    w := ReachQuery(cfg, w, false, 1, [p0]);
    assert w.now.queue == [p0];
    KnownWhenQueued(w.now, p0);
    NothingNew(w.now, cfg.start, [p0], height);
    w := ReachQuery(cfg, w, false, 1, [p0]);
  }

  lemma KnownWhenQueued(s: Snapshot, p: TxPoint)
    requires p in s.queue
    ensures Known(s, p.sig)
  {
  }

  ghost predicate HasEvents(cfg: Config, t: Tx) {
    OutcomeOf(cfg.decoding, t.content).Emits? && OutcomeOf(cfg.decoding, t.content).bodies != []
  }

  lemma HasEventsAt(cfg: Config, w: World, i: nat)
    requires i < |w.chain| && HasEvents(cfg, w.chain[i])
    ensures EventsAt(cfg, w, i) != []
  {
    hide OutcomeOf;
  }

  /** With complete answers throughout, a crash between queueing and moving the cursor is enough for the stored
      number to go down later: once the next transaction is queued, the first one is worked on and its
      lower block number recorded. */
  lemma TornPushLowersNumber(cfg: Config, t0: Tx, t1: Tx, height: u64) returns (w: World, w': World)
    requires ChainOk([t0, t1]) && cfg.start <= t0.point.slot && t0.block < height < t1.block
    requires HasEvents(cfg, t0)
    ensures Reached(cfg, w) && Reached(cfg, w') && exists c :: Step(cfg, w, Process(c), w')
    ensures !w'.partial && w'.now.number < w.now.number
  {
    hide Reached, QueryAt, QueryLength, Known, PointsOk, ChainOk, Listed, OutcomeOf, HasEvents, Step;
    var p0, p1 := t0.point, t1.point;
    TwoPoints(t0, t1);
    w := TornPushRaisesNumber(cfg, t0, height);
    GrowsBy(t0, t1, height);
    w := ReachGrow(cfg, w, [t1], t1.block);
    SecondOnlyNew(w.now, cfg.start, p0, p1, w.height);
    ListedFromGenesis(t0, t1);
    w := ReachQuery(cfg, w, false, 2, [p0, p1]);
    assert w.now.queue == [p0, p1];
    w' := ReachProcess(cfg, w, 0);
    HasEventsAt(cfg, w, 0);
  }

  lemma GrowsBy(t0: Tx, t1: Tx, height: u64)
    requires ChainOk([t0, t1]) && height < t1.block
    ensures Extends([t0], height, [t1], t1.block)
  {
    assert [t0] + [t1] == [t0, t1];
  }

  lemma ListedFromGenesis(t0: Tx, t1: Tx)
    requires Points([t0, t1]) == [t0.point, t1.point]
    ensures Listed([t0.point, t1.point], NO_POINT, false) == [t0.point, t1.point]
    ensures forall w: World :: w.chain == [t0, t1] && w.now.queried == NO_POINT ==>
              FullHistory(w, 2) == [t0.point, t1.point]
  {
  }

  /** Of two listed transactions the first is queued already. */
  lemma SecondOnlyNew(s: Snapshot, start: u64, p0: TxPoint, p1: TxPoint, height: u64)
    requires p0.sig != p1.sig && ZERO_SIGNATURE != p1.sig && start <= p1.slot
    requires s.queue == [p0] && s.processed == s.queried == NO_POINT && s.stored == []
    ensures QueryLength(s, [p0, p1]) == 2
    ensures QueryAt(s, start, [p0, p1], height, 2) == s.(queue := [p0] + [p1], queried := p1)
  {
    assert p0 in s.queue;
    FilterTwo(p0, p1, Unknown(s));
    assert Queued(s, p0.sig) && !Queued(s, p1.sig);
    FilterOne(p1, FromStart(s.queried, start));
    FilterOne(p1, NonZero());
  }

  lemma FilterTwo(a: TxPoint, b: TxPoint, keep: TxPoint -> bool)
    ensures Filter([a, b], keep) == (if keep(a) then [a] else []) + (if keep(b) then [b] else [])
  {
    assert [a, b] == [a] + [b];
    FilterConcat([a], [b], keep);
    FilterOne(a, keep);
    FilterOne(b, keep);
  }

  /** Without any torn query, a refused cursor is enough too: it lists the cursor's slot again, including a
      transaction that the start-slot filter had skipped and that lies before the base. */
  lemma RefusedCursorLowersNumber(cfg: Config, t0: Tx, t1: Tx, height: u64) returns (w: World, w': World)
    requires ChainOk([t0, t1]) && t0.point.slot == t1.point.slot < cfg.start
    requires t0.block < height && t1.block <= height && HasEvents(cfg, t0)
    ensures Reached(cfg, w) && Reached(cfg, w') && exists c :: Step(cfg, w, Process(c), w')
    ensures !w'.torn && w'.now.number < w.now.number && t0.point.slot < cfg.start
  {
    hide Reached, QueryAt, QueryLength, Known, PointsOk, ChainOk, Listed, OutcomeOf, HasEvents, Step, FullHistory;
    var p0, p1 := t0.point, t1.point;
    TwoPoints(t0, t1);
    w := ReachFirst(cfg, [t0, t1], height);
    ListedFromGenesis(t0, t1);
    SkipBoth(cfg.start, p0, p1, height);
    w := ReachQuery(cfg, w, false, 2, [p0, p1]);
    ListedAfterSecond(w.now, p0, p1, cfg.start, height);
    w := ReachQuery(cfg, w, false, 1, []);
    FirstOnlyNew(w.now, cfg.start, p0, p1, height);
    w := ReachQuery(cfg, w, true, 2, [p0, p1]);
    assert w.now.queue == [p0];
    w' := ReachProcess(cfg, w, 0);
    HasEventsAt(cfg, w, 0);
  }

  lemma SkipBoth(start: u64, p0: TxPoint, p1: TxPoint, height: u64)
    requires p0.slot == p1.slot < start && ZERO_SIGNATURE !in {p0.sig, p1.sig}
    ensures QueryLength(EMPTY, [p0, p1]) == 2
    ensures QueryAt(EMPTY, start, [p0, p1], height, 2) == EMPTY.(processed := p1, queried := p1)
  {
    FilterAll([p0, p1], Unknown(EMPTY));
    FilterNone([p0, p1], FromStart(NO_POINT, start));
  }

  /** After the newest transaction nothing is listed; at its slot both are. */
  lemma ListedAfterSecond(s: Snapshot, p0: TxPoint, p1: TxPoint, start: u64, height: u64)
    requires PointsOk([p0, p1]) && p0.slot == p1.slot
    ensures Listed([p0, p1], p1, false) == [] && Listed([p0, p1], p1, true) == [p0, p1]
    ensures QueryLength(s, []) == 1 && QueryAt(s, start, [], height, 1) == s.(number := height)
  {
    hide Filter;
    IndexOfAt([p0, p1], 1);
    assert [p0, p1][1] == p1 && [p0, p1][2..] == [];
    FilterAll([p0, p1], SlotFrom(p1.slot));
    NothingNew(s, start, [], height);
  }

  /** A query that lists only known transactions records the height it read. */
  lemma NothingNew(s: Snapshot, start: u64, listed: seq<TxPoint>, height: u64)
    requires forall p :: p in listed ==> Known(s, p.sig)
    ensures QueryLength(s, listed) == 1 && QueryAt(s, start, listed, height, 1) == s.(number := height)
  {
    hide Filter;
    FilterNone(listed, Unknown(s));
  }

  /** Of two listed transactions the second is the last processed one. */
  lemma FirstOnlyNew(s: Snapshot, start: u64, p0: TxPoint, p1: TxPoint, height: u64)
    requires p0.sig != p1.sig && ZERO_SIGNATURE !in {p0.sig, p1.sig}
    requires s.queue == [] && s.processed == s.queried == p1 && s.stored == []
    ensures QueryLength(s, [p0, p1]) == 2
    ensures QueryAt(s, start, [p0, p1], height, 2) == s.(queue := [] + [p0], queried := p0)
  {
    FilterTwo(p0, p1, Unknown(s));
    NotKnownYet(s, p0.sig);
    FilterOne(p0, FromStart(s.queried, start));
    FilterOne(p0, NonZero());
  }

  /** Three transactions: two in one slot without events, then one with events in a later slot. */
  ghost predicate RequeueSetting(cfg: Config, t0: Tx, t1: Tx, t2: Tx) {
    && ChainOk([t0, t1, t2])
    && cfg.start <= t0.point.slot == t1.point.slot < t2.point.slot
    && t1.block < t2.block
    && OutcomeOf(cfg.decoding, t0.content) == Reverted
    && OutcomeOf(cfg.decoding, t1.content) == Reverted
    && OutcomeOf(cfg.decoding, t2.content).Emits?
    && OutcomeOf(cfg.decoding, t2.content).bodies != []
  }

  /** The points of the setting, and what is used of the chain they form. */
  lemma SettingPoints(cfg: Config, t0: Tx, t1: Tx, t2: Tx)
    requires RequeueSetting(cfg, t0, t1, t2)
    ensures ChainOk([t0, t1]) && Points([t0, t1]) == [t0.point, t1.point]
    ensures Points([t0, t1, t2]) == [t0.point, t1.point, t2.point]
    ensures PointsOk([t0.point, t1.point, t2.point]) && PointsOk([t0.point, t1.point])
    ensures [t0, t1] + [t2] == [t0, t1, t2]
    ensures ZERO_SIGNATURE !in {t0.point.sig, t1.point.sig, t2.point.sig}
    ensures t0.point.sig != t1.point.sig && t0.point.sig != t2.point.sig && t1.point.sig != t2.point.sig
    ensures t0.block <= t1.block < t2.block
  {
    hide OutcomeOf;
    var ps := Points([t0, t1, t2]);
    assert ps[0] == t0.point && ps[1] == t1.point && ps[2] == t2.point;
    assert [t0, t1, t2][0] == t0 && [t0, t1, t2][1] == t1;
    assert Points([t0, t1])[0] == t0.point && Points([t0, t1])[1] == t1.point;
  }

  /** The first two transactions are queued ... */
  lemma ReachTwoQueued(cfg: Config, t0: Tx, t1: Tx, t2: Tx) returns (w: World)
    requires RequeueSetting(cfg, t0, t1, t2)
    ensures Reached(cfg, w) && w.chain == [t0, t1] && w.height == t1.block && w.report == None
    ensures w.now == EMPTY.(queue := [t0.point, t1.point], queried := t1.point)
  {
    SettingPoints(cfg, t0, t1, t2);
    ListedFromGenesis(t0, t1);
    hide Reached, QueryAt, QueryLength, OutcomeOf, ChainOk, PointsOk, Points, FullHistory, Known, IndexOf, Listed;
    var listed := [t0.point, t1.point];
    w := ReachFirst(cfg, [t0, t1], t1.block);
    QueueBoth(cfg.start, t0.point, t1.point, t1.block);
    w := ReachQuery(cfg, w, false, 2, listed);
  }

  lemma QueueBoth(start: u64, p0: TxPoint, p1: TxPoint, height: u64)
    requires start <= p0.slot == p1.slot && ZERO_SIGNATURE !in {p0.sig, p1.sig}
    ensures QueryLength(EMPTY, [p0, p1]) == 2
    ensures QueryAt(EMPTY, start, [p0, p1], height, 2) == EMPTY.(queue := [p0, p1], queried := p1)
  {
    hide QueryAt, QueryLength, Known;
    NotKnownYet(EMPTY, p0.sig);
    NotKnownYet(EMPTY, p1.sig);
    AllNew(EMPTY, start, [p0, p1], height, 2);
    assert [] + [p0, p1] == [p0, p1];
  }

  /** ... and then processed. */
  lemma ReachTwoProcessed(cfg: Config, t0: Tx, t1: Tx, t2: Tx) returns (w: World)
    requires RequeueSetting(cfg, t0, t1, t2)
    ensures Reached(cfg, w) && w.chain == [t0, t1] && w.height == t1.block && w.report == None
    ensures w.now == EMPTY.(number := w.now.number, queried := t1.point, processed := t1.point,
                            finalized := [t0.point, t1.point])
  {
    SettingPoints(cfg, t0, t1, t2);
    hide Reached, OutcomeOf, ChainOk, PointsOk, EventsAt, Step;
    w := ReachTwoQueued(cfg, t0, t1, t2);
    w := ReachSilent(cfg, w, 0, [t0.point], [t1.point]);
    w := ReachSilent(cfg, w, 1, [t0.point, t1.point], []);
  }

  /** A reverted transaction only moves from the queue to the finalized ones. */
  lemma ReachSilent(cfg: Config, w: World, i: nat, finalized: seq<TxPoint>, queue: seq<TxPoint>)
    returns (w': World)
    requires Reached(cfg, w) && w.report == None && MustProcess(w.now) && w.now.queue != []
    requires ChainOk(w.chain) && i < |w.chain| && w.chain[i].point == w.now.queue[0]
    requires w.now.queue[0].sig != w.now.processed.sig
    requires OutcomeOf(cfg.decoding, w.chain[i].content) == Reverted
    requires w.now.queue[1..] == queue && w.now.finalized + [w.now.queue[0]] == finalized
    ensures Reached(cfg, w') && w'.chain == w.chain && w'.height == w.height && w'.report == None
    ensures w'.now == w.now.(queue := queue, processed := w.now.queue[0], finalized := finalized)
  {
    RevertedHasNoEvents(cfg, w, i);
    hide Reached, OutcomeOf, ChainOk, EventsAt, Step;
    w' := ReachProcess(cfg, w, i);
  }

  lemma RevertedHasNoEvents(cfg: Config, w: World, i: nat)
    requires i < |w.chain| && OutcomeOf(cfg.decoding, w.chain[i].content) == Reverted
    ensures EventsAt(cfg, w, i) == []
  {
  }

  /** The third is queued by a query cut before it moved the cursor; a refused cursor then brings the
      first one back behind it, and moves the cursor back with it. */
  lemma ReachCursorMovedBack(cfg: Config, t0: Tx, t1: Tx, t2: Tx) returns (w: World)
    requires RequeueSetting(cfg, t0, t1, t2)
    ensures Reached(cfg, w) && w.chain == [t0, t1, t2] && w.report == None
    ensures w.now == EMPTY.(number := w.now.number, queue := [t2.point, t0.point], queried := t0.point,
                            processed := t1.point, finalized := [t0.point, t1.point])
  {
    w := ReachTornPush(cfg, t0, t1, t2);
    SettingPoints(cfg, t0, t1, t2);
    var p0, p1, p2 := t0.point, t1.point, t2.point;
    ListedFromSlot(p0, p1, p2);
    hide Reached, QueryAt, QueryLength, OutcomeOf, Known, FullHistory, IndexOf, ChainOk, PointsOk, Filter, Listed;
    OnlyFirstNew(w.now, cfg.start, p0, p1, p2, w.height);
    w := ReachQuery(cfg, w, true, 2, [p0, p1, p2]);
    assert [p2] + [p0] == [p2, p0];
  }

  lemma ListedFromSlot(p0: TxPoint, p1: TxPoint, p2: TxPoint)
    requires p0.slot == p1.slot <= p2.slot
    ensures Listed([p0, p1, p2], p1, true) == [p0, p1, p2]
  {
    hide Filter;
    FilterAll([p0, p1, p2], SlotFrom(p1.slot));
  }

  lemma ListedAfterMiddle(p0: TxPoint, p1: TxPoint, p2: TxPoint)
    requires PointsOk([p0, p1, p2])
    ensures Listed([p0, p1, p2], p1, false) == [p2]
  {
    IndexOfAt([p0, p1, p2], 1);
    assert [p0, p1, p2][1] == p1 && [p0, p1, p2][2..] == [p2];
  }

  lemma ReachTornPush(cfg: Config, t0: Tx, t1: Tx, t2: Tx) returns (w: World)
    requires RequeueSetting(cfg, t0, t1, t2)
    ensures Reached(cfg, w) && w.chain == [t0, t1, t2] && w.report == None
    ensures w.now == EMPTY.(number := w.now.number, queue := [t2.point], queried := t1.point,
                            processed := t1.point, finalized := [t0.point, t1.point])
  {
    w := ReachTwoProcessed(cfg, t0, t1, t2);
    SettingPoints(cfg, t0, t1, t2);
    var p0, p1, p2 := t0.point, t1.point, t2.point;
    ListedAfterMiddle(p0, p1, p2);
    hide Reached, QueryAt, QueryLength, OutcomeOf, Known, FullHistory, PointsOk, Listed, IndexOf, Filter, Points;
    w := ReachGrow(cfg, w, [t2], t2.block);
    NotKnownYet(w.now, p2.sig);
    AllNew(w.now, cfg.start, [p2], w.height, 1);
    w := ReachQuery(cfg, w, false, 1, [p2]);
  }

  lemma OnlyFirstNew(s: Snapshot, start: u64, p0: TxPoint, p1: TxPoint, p2: TxPoint, height: u64)
    requires p0.sig != p1.sig && p0.sig != p2.sig && ZERO_SIGNATURE !in {p0.sig, p1.sig}
    requires s.queue == [p2] && s.processed == s.queried == p1 && s.stored == []
    ensures QueryLength(s, [p0, p1, p2]) == 2
    ensures QueryAt(s, start, [p0, p1, p2], height, 2) == s.(queue := [p2] + [p0], queried := p0)
  {
    assert p2 in s.queue;
    FilterThree(p0, p1, p2, Unknown(s));
    FilterOne(p0, Unknown(s));
    FilterOne(p1, Unknown(s));
    FilterOne(p2, Unknown(s));
    assert Queued(s, p2.sig) && !Queued(s, p0.sig);
    FilterOne(p0, FromStart(s.queried, start));
    FilterOne(p0, NonZero());
  }

  /** A torn query and a refused cursor together make a finalized transaction that stored events
      eligible again: the next query can queue it. */
  lemma TornPushThenRefusalRequeues(cfg: Config, t0: Tx, t1: Tx, t2: Tx) returns (w: World)
    requires RequeueSetting(cfg, t0, t1, t2)
    ensures Reached(cfg, w)
    ensures t2.point in w.now.finalized && StoredSig(w.now, t2.point.sig)
    ensures t2.point !in w.now.queue && CanQueueNext(cfg, w, t2.point)
  {
    w := ReachThirdProcessed(cfg, t0, t1, t2);
    SettingPoints(cfg, t0, t1, t2);
    hide Reached, OutcomeOf, Known, CanQueueNext, StoredSig, ChainOk, PointsOk, Step;
    var s := w.now;
    w := ReachSilent(cfg, w, 0, [t0.point, t1.point, t2.point, t0.point], []);
    w := ReachHeight(cfg, w);
    StoredAlike(s, w.now, t2.point.sig);
    ReachedIsBasic(cfg, w);
    RequeuedExactlyWhenBeyondCursor(cfg, w, t2.point);
  }

  lemma StoredAlike(s: Snapshot, s': Snapshot, sig: Signature)
    requires s'.stored == s.stored
    ensures StoredSig(s', sig) == StoredSig(s, sig)
  {
  }

  /** The third is processed, and its events stored. */
  lemma ReachThirdProcessed(cfg: Config, t0: Tx, t1: Tx, t2: Tx) returns (w: World)
    requires RequeueSetting(cfg, t0, t1, t2)
    ensures Reached(cfg, w) && w.chain == [t0, t1, t2] && w.report == None && StoredSig(w.now, t2.point.sig)
    ensures w.now.queue == [t0.point] && w.now.queried == t0.point && w.now.processed == t2.point
    ensures w.now.finalized == [t0.point, t1.point, t2.point]
  {
    w := ReachCursorMovedBack(cfg, t0, t1, t2);
    SettingPoints(cfg, t0, t1, t2);
    StoresEvents(cfg, w, 2);
    hide Reached, OutcomeOf, EventsAt, StoredSig, ChainOk, PointsOk, Step;
    var stored, events := w.now.stored, EventsAt(cfg, w, 2);
    w := ReachProcess(cfg, w, 2);
    SigStored(w.now, stored, events, t2.point.sig);
  }

  lemma StoresEvents(cfg: Config, w: World, i: nat)
    requires i < |w.chain| && HasEvents(cfg, w.chain[i])
    ensures EventsAt(cfg, w, i) != [] && EventsAt(cfg, w, i)[0].sig == w.chain[i].point.sig
  {
    hide OutcomeOf;
  }

  lemma SigStored(s: Snapshot, stored: seq<Event>, events: seq<Event>, sig: Signature)
    requires s.stored == stored + events && events != [] && events[0].sig == sig
    ensures StoredSig(s, sig)
  {
    assert s.stored[|stored|] == events[0];
  }
}
