/** What the polling invariants say about whole runs, in the tracker's own terms. */
module PollTheorems {
  import opened Sequences
  import opened Bytes
  import opened Records
  import opened Events
  import opened Chain
  import opened Polling
  import opened PollMachine
  import opened PollBasic
  import opened PollOrder
  import opened PollDelivery
  import PollLoss
  import PollWatermark
  import PollExactlyOnce

  // ---- order ----

  /** Consecutive positions of the chain from b on. */
  ghost predicate RunOfChain(points: seq<TxPoint>, done: seq<TxPoint>, b: nat) {
    b + |done| <= |points| && done == points[b..b + |done|]
  }

  lemma RunOfChainFacts(points: seq<TxPoint>, done: seq<TxPoint>, b: nat)
    requires PointsOk(points) && RunOfChain(points, done, b)
    ensures NoRepeats(done)
    ensures forall p :: p in done ==> points[b].slot <= p.slot
    ensures done != [] ==> b < |points| && points[b] in done
  {
    forall i, j | 0 <= i < j < |done|
      ensures done[i] != done[j]
    {
      assert points[b + i].sig != points[b + j].sig;
    }
    forall i | 0 <= i < |done|
      ensures points[b].slot <= done[i].slot
    {
      assert points[b + i] == done[i];
    }
    if done != [] {
      assert done[0] == points[b];
    }
  }

  lemma OrderedIsRunOfChain(cfg: Config, w: World)
    requires Ordered(cfg, w)
    ensures RunOfChain(Points(w.chain), Done(w), Base(cfg, w))
    ensures w.now.queried != NO_POINT ==>
              && CursorAt(Points(w.chain), w.now.queried, CursorOf(w))
              && Base(cfg, w) - 1 <= CursorOf(w) < Base(cfg, w) + |Done(w)|
  {
    hide FirstFrom, IndexOf;
  }

  /** With complete answers, crashes anywhere: finalized then queued transactions are consecutive
      positions of the chain, none twice, and the cursor is among them or right before them. */
  lemma HandledRunIsContiguous(cfg: Config, ws: seq<World>, actions: seq<Action>)
    requires IsRun(cfg, ws, actions) && !Last(ws).partial
    ensures var w := Last(ws);
            && RunOfChain(Points(w.chain), Done(w), Base(cfg, w))
            && NoRepeats(Done(w))
            && (w.now.queried != NO_POINT ==>
                  && CursorAt(Points(w.chain), w.now.queried, CursorOf(w))
                  && Base(cfg, w) - 1 <= CursorOf(w) < Base(cfg, w) + |Done(w)|)
  {
    RunsStayOrdered(cfg, ws, actions);
    RunsKeepBasic(cfg, ws, actions);
    BasicChain(Last(ws));
    hide IsRun, Ordered;
    OrderedIsRunOfChain(cfg, Last(ws));
    RunOfChainFacts(Points(Last(ws).chain), Done(Last(ws)), Base(cfg, Last(ws)));
  }

  /** Some handled transaction lies before the start slot. */
  ghost predicate HandledTooEarly(cfg: Config, w: World) {
    exists p :: p in Done(w) && p.slot < cfg.start
  }

  /** The start-slot filter is exact unless it skipped something and the transaction after the skipped
      ones still lies before the start slot: then, and only then, too early transactions are handled. */
  lemma StartFilterExactUnlessSkipped(cfg: Config, ws: seq<World>, actions: seq<Action>)
    requires IsRun(cfg, ws, actions) && !Last(ws).partial
    ensures var w := Last(ws);
            HandledTooEarly(cfg, w)
            <==> && w.skip.Some? && Done(w) != [] && w.skip.value + 1 < |w.chain|
                 && w.chain[w.skip.value + 1].point.slot < cfg.start
    ensures Base(cfg, Last(ws)) <= FirstFrom(Points(Last(ws).chain), cfg.start)
  {
    hide Basic, RunOfChain, Ordered, CursorAt, NoRepeats, FirstFrom, Step, Init, HandledTooEarly, Done, Cursor;
    var w := Last(ws);
    HandledRunIsContiguous(cfg, ws, actions);
    RunsStayOrdered(cfg, ws, actions);
    RunsKeepBasic(cfg, ws, actions);
    BasicChain(w);
    hide IsRun;
    BaseBelowStart(cfg, w);
    TooEarlyAtFront(cfg, w);
    FirstFromTail(Points(w.chain), cfg.start);
  }

  /** Slots never decrease, so the front of the handled run tells. */
  lemma TooEarlyAtFront(cfg: Config, w: World)
    requires ChainOk(w.chain) && RunOfChain(Points(w.chain), Done(w), Base(cfg, w))
    ensures HandledTooEarly(cfg, w)
            <==> Done(w) != [] && Base(cfg, w) < |w.chain| && w.chain[Base(cfg, w)].point.slot < cfg.start
  {
    hide RunOfChain, Base, Done;
    RunOfChainFacts(Points(w.chain), Done(w), Base(cfg, w));
  }

  lemma FirstFromTail(points: seq<TxPoint>, start: u64)
    ensures FirstFrom(points, start) < |points| ==> start <= points[FirstFrom(points, start)].slot
  {
  }

  lemma BaseBelowStart(cfg: Config, w: World)
    requires Ordered(cfg, w)
    ensures Base(cfg, w) <= FirstFrom(Points(w.chain), cfg.start)
    ensures w.skip == None ==> Base(cfg, w) == FirstFrom(Points(w.chain), cfg.start)
  {
    hide FirstFrom, IndexOf;
  }

  /** While no skip is recorded, nothing handled lies before the start slot, and neither does the cursor. */
  ghost predicate StartKept(start: u64, w: World) {
    w.skip == None ==>
      && (forall p :: p in Done(w) ==> start <= p.slot)
      && (w.now.queried != NO_POINT ==> start <= w.now.queried.slot)
  }

  /** Hidden history, refused cursors and torn queries included: no too early transaction is handled in a run
      in which no poll has skipped anything. */
  lemma {:induction false} NothingTooEarlyUnlessSkipped(cfg: Config, ws: seq<World>, actions: seq<Action>)
    requires IsRun(cfg, ws, actions)
    ensures StartKept(cfg.start, Last(ws))
    ensures HandledTooEarly(cfg, Last(ws)) ==> Last(ws).skip.Some?
  {
    if actions != [] {
      RunPrefix(cfg, ws, actions);
      var front, w := actions[..|actions| - 1], ws[|actions| - 1];
      NothingTooEarlyUnlessSkipped(cfg, ws[..|actions|], front);
      RunsKeepBasic(cfg, ws[..|actions|], front);
      hide Step, IsRun, Basic, StartKept, HandledTooEarly;
      StepKeepsStart(cfg, w, Last(actions), Last(ws));
    }
    hide IsRun;
    KeptMeansNotEarly(cfg, Last(ws));
  }

  lemma KeptMeansNotEarly(cfg: Config, w: World)
    requires StartKept(cfg.start, w)
    ensures HandledTooEarly(cfg, w) ==> w.skip.Some?
  {
  }

  lemma StepKeepsStart(cfg: Config, w: World, a: Action, w': World)
    requires Basic(w) && StartKept(cfg.start, w) && Step(cfg, w, a, w')
    ensures StartKept(cfg.start, w')
  {
    hide AfterQuery, CanQuery, Basic, OutcomeOf, IndexOf, CanGrow, ProcessAt;
    match a
    case Query(m, hidden, refused, c) => QueryKeepsStart(cfg, w, m, hidden, refused, c);
    case Process(c) =>
      AttemptEvents(w.now, HeadTx(w).block, OutcomeOf(cfg.decoding, HeadTx(w).content), c);
      SameDone(w.now.finalized, w.now.queue);
    case _ =>
  }

  lemma SameDone(finalized: seq<TxPoint>, queue: seq<TxPoint>)
    requires queue != []
    ensures finalized + [queue[0]] + queue[1..] == finalized + queue
  {
  }

  lemma QueryKeepsStart(cfg: Config, w: World, m: nat, hidden: set<Signature>, refused: bool, c: nat)
    requires Basic(w) && StartKept(cfg.start, w) && CanQuery(w, m, hidden, refused, c)
    ensures StartKept(cfg.start, AfterQuery(cfg, w, m, hidden, refused, c))
  {
    hide AfterQuery, CanQuery, NewsOf, BatchOf, ListedAt, FullHistory, PassedOver, PassedBelow, MovedPast, Basic, Known, IndexOf;
    if c == 0 {
      NoEffect(cfg, w, m, hidden, refused);
    } else {
      BasicChain(w);
      CanQueryBounds(w, m, hidden, refused, c);
      QuietFacts(w);
      QueryEffect(cfg, w, m, hidden, refused, c);
      if w.skip == None {
        BatchFromStart(cfg, w, m, hidden, refused, c);
      }
    }
  }

  /** Without a recorded skip, a batch has nothing before the start slot: the filter sees to it while there is
      no cursor, and the cursor's slot afterwards. */
  lemma BatchFromStart(cfg: Config, w: World, m: nat, hidden: set<Signature>, refused: bool, c: nat)
    requires Basic(w) && StartKept(cfg.start, w) && CanQuery(w, m, hidden, refused, c) && w.skip == None
    ensures forall p :: p in BatchOf(w.now, cfg.start, ListedAt(w, m, hidden, refused)) ==> cfg.start <= p.slot
  {
    hide AfterQuery, CanQuery, NewsOf, BatchOf, ListedAt, Basic, Known, Filter;
    BasicChain(w);
    CanQueryBounds(w, m, hidden, refused, c);
    QuietFacts(w);
    var listed := ListedAt(w, m, hidden, refused);
    ListedIsOk(w, m, hidden, refused);
    BatchFacts(w.now, cfg.start, listed);
    forall p | p in BatchOf(w.now, cfg.start, listed)
      ensures cfg.start <= p.slot
    {
      if w.now.queried != NO_POINT {
        ListedAboveCursor(w, m, hidden, refused, c, p);
      }
    }
  }

  // ---- the dispatcher ----

  /** In a run without a torn query, "last queried differs from last processed" holds exactly when the
      queue is non-empty, and then the last queried transaction is the queue's last element. */
  lemma CursorTestTellsQueue(cfg: Config, ws: seq<World>, actions: seq<Action>)
    requires IsRun(cfg, ws, actions) && !Last(ws).torn
    ensures MustProcess(Last(ws).now) <==> Last(ws).now.queue != []
    ensures Last(ws).now.queue != [] ==> Last(Last(ws).now.queue) == Last(ws).now.queried
  {
    RunsKeepBasic(cfg, ws, actions);
  }

  /** In no run does the queue hold the last processed transaction, so the branch that drops a repeated
      head without looking at it is never taken. */
  lemma RepeatedHeadNeverOccurs(cfg: Config, ws: seq<World>, actions: seq<Action>)
    requires IsRun(cfg, ws, actions)
    ensures forall p :: p in Last(ws).now.queue ==> p.sig != Last(ws).now.processed.sig
  {
    RunsKeepBasic(cfg, ws, actions);
  }

  // ---- finalization ----

  /** A transaction is finalized only by one whole attempt at the queue head: that attempt delivered and
      stored, in order, every accepted event of that transaction and nothing else. */
  lemma FinalizedOnlyByWholeAttempt(cfg: Config, ws: seq<World>, actions: seq<Action>, i: nat)
    requires IsRun(cfg, ws, actions) && i < |actions|
    requires ws[i + 1].now.finalized != ws[i].now.finalized
    ensures var s, s' := ws[i].now, ws[i + 1].now;
            && s.queue != [] && HeadPosition(ws[i]) < |ws[i].chain|
            && s.queue[0] == Points(ws[i].chain)[HeadPosition(ws[i])]
            && s'.finalized == s.finalized + [s.queue[0]]
            && s'.queue == s.queue[1..] && s'.processed == s.queue[0]
            && s'.stored == s.stored + EventsAt(cfg, ws[i], HeadPosition(ws[i]))
            && s'.delivered == s.delivered + EventsAt(cfg, ws[i], HeadPosition(ws[i]))
  {
    RunUpTo(cfg, ws, actions, i);
    RunsKeepBasic(cfg, ws[..i + 1], actions[..i]);
    hide IsRun;
    StepFinalizes(cfg, ws[i], actions[i], ws[i + 1]);
  }

  lemma {:induction false} RunUpTo(cfg: Config, ws: seq<World>, actions: seq<Action>, i: nat)
    requires IsRun(cfg, ws, actions) && i < |actions|
    ensures IsRun(cfg, ws[..i + 1], actions[..i]) && Step(cfg, ws[i], actions[i], ws[i + 1])
  {
    hide Step, Init;
    assert ws[..i + 1][0] == ws[0];
    forall k | 0 <= k < i
      ensures Step(cfg, ws[..i + 1][k], actions[..i][k], ws[..i + 1][k + 1])
    {
      assert Step(cfg, ws[k], actions[k], ws[k + 1]);
    }
  }

  lemma StepFinalizes(cfg: Config, w: World, a: Action, w': World)
    requires Basic(w) && Step(cfg, w, a, w') && w'.now.finalized != w.now.finalized
    ensures w.now.queue != [] && HeadPosition(w) < |w.chain|
    ensures w.now.queue[0] == Points(w.chain)[HeadPosition(w)]
    ensures w'.now.finalized == w.now.finalized + [w.now.queue[0]]
    ensures w'.now.queue == w.now.queue[1..] && w'.now.processed == w.now.queue[0]
    ensures w'.now.stored == w.now.stored + EventsAt(cfg, w, HeadPosition(w))
    ensures w'.now.delivered == w.now.delivered + EventsAt(cfg, w, HeadPosition(w))
  {
    hide AfterQuery, CanQuery, OutcomeOf, IndexOf, Basic, EventsAt;
    match a
    case Query(m, hidden, refused, c) => QueryBase(cfg, w, m, hidden, refused, c);
    case Process(c) =>
      var block, outcome := HeadTx(w).block, OutcomeOf(cfg.decoding, HeadTx(w).content);
      HeadEventsAreAccepted(cfg, w);
      AttemptEvents(w.now, block, outcome, c);
      AttemptProgress(w.now, block, outcome, c);
      hide HeadEvents;
      var es := EventsAt(cfg, w, HeadPosition(w));
      assert es[..|es|] == es;
      hide ProcessAt;
      assert c == ProcessLength(w.now, block, outcome);
    case _ =>
  }

  /** The accepted events of a chain transaction: none when it failed or recorded no inner instructions, else
      one per recorded emission, in the order of the instructions, each with the transaction's slot, block and
      signature. */
  lemma EventsOfTransaction(cfg: Config, w: World, i: nat)
    requires i < |w.chain|
    ensures var t, es := w.chain[i], EventsAt(cfg, w, i);
            && (t.content.failed || t.content.inner == None ==> es == [])
            && (!t.content.failed && t.content.inner.Some? ==>
                  exists bodies :: BodiesOf(cfg.decoding, t.content, t.content.inner.value, bodies)
                                   && |es| == |bodies|
                                   && forall k :: 0 <= k < |es| ==>
                                        && es[k].slot == t.point.slot && es[k].block == t.block
                                        && es[k].sig == t.point.sig && es[k].body == bodies[k])
  {
    hide OutcomeOf, BodiesOf;
    OutcomeExactly(cfg.decoding, w.chain[i].content);
  }

  // ---- what a refused cursor can bring back ----

  /** Some answer of the node makes the next query put `p` in the queue. */
  ghost predicate CanQueueNext(cfg: Config, w: World, p: TxPoint) {
    exists m: nat, hidden: set<Signature>, refused: bool, c: nat ::
      CanQuery(w, m, hidden, refused, c) && p in AfterQuery(cfg, w, m, hidden, refused, c).now.queue
  }

  /** Between two polls, a finalized transaction with stored events can be queued again if and only if
      it lies beyond the cursor's slot and is not the last processed one. */
  lemma RequeuedExactlyWhenBeyondCursor(cfg: Config, w: World, p: TxPoint)
    requires Basic(w) && !MustProcess(w.now) && w.report.Some? && w.report.value.length <= |w.chain|
    requires w.now.queried != NO_POINT
    requires p in w.now.finalized && StoredSig(w.now, p.sig) && p !in w.now.queue
    ensures CanQueueNext(cfg, w, p) <==> p.slot > w.now.queried.slot && p.sig != w.now.processed.sig
  {
    hide Basic, AfterQuery, CanQuery;
    if CanQueueNext(cfg, w, p) {
      var m: nat, hidden: set<Signature>, refused: bool, c: nat :|
        CanQuery(w, m, hidden, refused, c) && p in AfterQuery(cfg, w, m, hidden, refused, c).now.queue;
      QueuedMeansBeyond(cfg, w, p, m, hidden, refused, c);
    } else if p.slot > w.now.queried.slot && p.sig != w.now.processed.sig {
      BeyondIsQueued(cfg, w, p);
    }
  }

  lemma QueuedMeansBeyond(cfg: Config, w: World, p: TxPoint,
                          m: nat, hidden: set<Signature>, refused: bool, c: nat)
    requires Basic(w) && w.now.queried != NO_POINT
    requires CanQuery(w, m, hidden, refused, c) && p in AfterQuery(cfg, w, m, hidden, refused, c).now.queue
    requires p in w.now.finalized && StoredSig(w.now, p.sig) && p !in w.now.queue
    ensures p.slot > w.now.queried.slot && p.sig != w.now.processed.sig
  {
    hide AfterQuery, CanQuery, NewsOf, BatchOf, ListedAt, FullHistory, PassedOver, Basic;
    if c == 0 {
      NoEffect(cfg, w, m, hidden, refused);
    }
    BasicChain(w);
    CanQueryBounds(w, m, hidden, refused, c);
    QueryEffect(cfg, w, m, hidden, refused, c);
    BatchFacts(w.now, cfg.start, ListedAt(w, m, hidden, refused));
    ListedAboveCursor(w, m, hidden, refused, c, p);
    StoredSlots(w);
    QuietFacts(w);
  }

  /** A refused cursor with nothing hidden lists everything at or above the cursor's slot. */
  lemma BeyondIsQueued(cfg: Config, w: World, p: TxPoint)
    requires Basic(w) && !MustProcess(w.now) && w.report.Some? && w.report.value.length <= |w.chain|
    requires w.now.queried != NO_POINT
    requires p in w.now.finalized && p !in w.now.queue
    requires p.slot > w.now.queried.slot && p.sig != w.now.processed.sig
    ensures CanQueueNext(cfg, w, p)
  {
    hide AfterQuery, NewsOf, BatchOf, FullHistory, PassedOver, MovedPast, Basic, ListedAt, Known, CanQuery, PointsOk;
    var m, listed := |w.chain|, ListedAt(w, |w.chain|, {}, true);
    BeyondIsListed(w, p);
    QuietFacts(w);
    assert CanQuery(w, m, {}, true, 1) by { RefusedQuery(w); }
    UnknownBeyond(w, p);
    BasicChain(w);
    QueryEffect(cfg, w, m, {}, true, 1);
    BatchFacts(w.now, cfg.start, listed);
  }

  lemma BeyondIsListed(w: World, p: TxPoint)
    requires Basic(w) && p in w.now.finalized && p.slot > w.now.queried.slot
    ensures p in ListedAt(w, |w.chain|, {}, true)
  {
    hide StoredOk, QueueOk, DispatchOk, PointsOk;
    var points := Points(w.chain);
    assert points[..|w.chain|] == points && p in points;
    FilterMember(points, NotHidden({}), p);
    FilterMember(Visible(points, {}), SlotFrom(w.now.queried.slot), p);
  }

  lemma RefusedQuery(w: World)
    requires !MustProcess(w.now) && w.report.Some? && w.report.value.length <= |w.chain|
    requires w.now.queried.sig != ZERO_SIGNATURE
    ensures CanQuery(w, |w.chain|, {}, true, 1)
  {
    hide ListedAt, NewsOf;
  }

  lemma UnknownBeyond(w: World, p: TxPoint)
    requires Basic(w) && p in w.now.finalized && p !in w.now.queue
    requires p.slot > w.now.queried.slot && p.sig != w.now.processed.sig
    ensures !Known(w.now, p.sig)
  {
    StoredSlots(w);
    var points := Points(w.chain);
    var i :| 0 <= i < |points| && points[i] == p;
    forall x | x in w.now.queue
      ensures x.sig != p.sig
    {
      var j :| 0 <= j < |points| && points[j] == x;
      assert i != j;
    }
  }

  /** Without a torn query, a finalized transaction that a query queues again lies in the cursor's slot and
      stored no event. */
  lemma OnlyCursorSlotComesBack(cfg: Config, ws: seq<World>, actions: seq<Action>, i: nat, p: TxPoint)
    requires IsRun(cfg, ws, actions) && i < |actions| && actions[i].Query? && !ws[i].torn
    requires p in ws[i].now.finalized && p !in ws[i].now.queue && p in ws[i + 1].now.queue
    ensures p.slot == ws[i].now.queried.slot && !StoredSig(ws[i].now, p.sig)
  {
    RunUpTo(cfg, ws, actions, i);
    RunsKeepBasic(cfg, ws[..i + 1], actions[..i]);
    UntornRunsDoNotRequeue(cfg, ws[..i + 1], actions[..i]);
    hide IsRun;
    var Query(m, hidden, refused, c) := actions[i];
    QueuedAgain(cfg, ws[i], m, hidden, refused, c, p);
  }

  lemma QueuedAgain(cfg: Config, w: World, m: nat, hidden: set<Signature>, refused: bool, c: nat, p: TxPoint)
    requires Basic(w) && NoRequeue(w.now) && CanQuery(w, m, hidden, refused, c)
    requires p in w.now.finalized && p !in w.now.queue
    requires p in AfterQuery(cfg, w, m, hidden, refused, c).now.queue
    ensures p.slot == w.now.queried.slot && !StoredSig(w.now, p.sig)
  {
    hide AfterQuery, CanQuery, NewsOf, BatchOf, ListedAt, FullHistory, PassedOver, Basic, Known;
    if c == 0 {
      NoEffect(cfg, w, m, hidden, refused);
    }
    BasicChain(w);
    CanQueryBounds(w, m, hidden, refused, c);
    QuietFacts(w);
    QueryEffect(cfg, w, m, hidden, refused, c);
    BatchFacts(w.now, cfg.start, ListedAt(w, m, hidden, refused));
    ListedAboveCursor(w, m, hidden, refused, c, p);
    if StoredSig(w.now, p.sig) {
      QueuedMeansBeyond(cfg, w, p, m, hidden, refused, c);
    }
  }

  // ---- the wedge ----

  /** The cursors say "skipped, but not recorded as queried" exactly when some skip was cut between its
      two writes. */
  ghost predicate WedgeRecorded(w: World) {
    Wedged(w.now) <==> w.skipTorn
  }

  lemma QueryKeepsWedge(cfg: Config, w: World, m: nat, hidden: set<Signature>, refused: bool, c: nat)
    requires Basic(w) && WedgeRecorded(w) && CanQuery(w, m, hidden, refused, c)
    ensures WedgeRecorded(AfterQuery(cfg, w, m, hidden, refused, c))
  {
    hide AfterQuery, CanQuery, NewsOf, BatchOf, ListedAt, FullHistory, PassedOver, MovedPast, Basic, Known;
    CanQueryBounds(w, m, hidden, refused, c);
    QuietFacts(w);
    if Wedged(w.now) {
      WedgedMustProcess(w);
    }
    if c == 0 {
      NoEffect(cfg, w, m, hidden, refused);
    } else {
      BasicChain(w);
      var news := NewsOf(w.now, ListedAt(w, m, hidden, refused));
      var batch := BatchOf(w.now, cfg.start, ListedAt(w, m, hidden, refused));
      QueryEffect(cfg, w, m, hidden, refused, c);
      if news != [] {
        PollWatermark.LastIsPoint(news);
      }
      if batch != [] {
        PollWatermark.LastIsPoint(batch);
      }
    }
  }

  lemma StepKeepsWedge(cfg: Config, w: World, a: Action, w': World)
    requires Basic(w) && WedgeRecorded(w) && Step(cfg, w, a, w')
    ensures WedgeRecorded(w')
  {
    hide AfterQuery, CanQuery, Basic, OutcomeOf, IndexOf, CanGrow;
    match a
    case Query(m, hidden, refused, c) => QueryKeepsWedge(cfg, w, m, hidden, refused, c);
    case Process(c) =>
      AttemptEvents(w.now, HeadTx(w).block, OutcomeOf(cfg.decoding, HeadTx(w).content), c);
      QueuedIsNoPoint(w);
    case _ =>
  }

  /** Cursors that differ, and a queue head that is a transaction. */
  lemma QueuedIsNoPoint(w: World)
    requires Basic(w) && w.now.queue != []
    ensures w.now.queue[0] != NO_POINT
    ensures MustProcess(w.now) && w.now.queried == NO_POINT ==> w.now.processed != NO_POINT
  {
    HeadIsNoPoint(w);
  }

  /** Over every run, the dispatcher finds nothing to process although the cursors differ if and only if
      some skip was cut between its two writes and nothing is queued. */
  lemma {:induction false} StuckExactlyWhenSkipTorn(cfg: Config, ws: seq<World>, actions: seq<Action>)
    requires IsRun(cfg, ws, actions)
    ensures Wedged(Last(ws).now) <==> Last(ws).skipTorn
    ensures MustProcess(Last(ws).now) && Last(ws).now.queue == []
            <==> Last(ws).skipTorn && Last(ws).now.queue == []
  {
    RunsKeepBasic(cfg, ws, actions);
    var w := Last(ws);
    if actions != [] {
      RunPrefix(cfg, ws, actions);
      StuckExactlyWhenSkipTorn(cfg, ws[..|actions|], actions[..|actions| - 1]);
      RunsKeepBasic(cfg, ws[..|actions|], actions[..|actions| - 1]);
      hide Step, IsRun, Basic;
      StepKeepsWedge(cfg, ws[|actions| - 1], Last(actions), w);
    }
    hide IsRun;
    StuckMeansWedged(w);
  }

  lemma StuckMeansWedged(w: World)
    requires Basic(w)
    ensures Wedged(w.now) ==> MustProcess(w.now)
    ensures MustProcess(w.now) && w.now.queue == [] ==> Wedged(w.now)
  {
    if Wedged(w.now) {
      WedgedMustProcess(w);
    }
  }

  lemma WedgedMustProcess(w: World)
    requires Basic(w) && Wedged(w.now)
    ensures MustProcess(w.now)
  {
    assert w.now.processed in Points(w.chain);
    assert PointsOk(Points(w.chain));
  }

  /** From there on no step, crash and restart included, changes the durable state. */
  lemma {:induction false} WedgedForGood(cfg: Config, ws: seq<World>, actions: seq<Action>, i: nat)
    requires IsRun(cfg, ws, actions) && i < |ws|
    requires MustProcess(ws[i].now) && ws[i].now.queue == [] && ws[i].report == None
    ensures Last(ws).now == ws[i].now && Last(ws).report == None
  {
    if i < |actions| {
      RunPrefix(cfg, ws, actions);
      WedgedForGood(cfg, ws[..|actions|], actions[..|actions| - 1], i);
      hide AfterQuery, AfterProcess, CanGrow;
    }
  }

  // ---- everything a reachable state is known to satisfy ----

  /** The guarantees of every state some run reaches, each under the history it needs. */
  lemma ReachedGuarantees(cfg: Config, w: World)
    requires Reached(cfg, w)
    ensures Basic(w) && PollLoss.NoLoss(cfg, w) && AtLeastOnce(cfg, w)
    ensures !w.partial ==> Ordered(cfg, w)
    ensures !w.torn ==> NoRequeue(w.now)
    ensures !w.torn ==> (MustProcess(w.now) <==> w.now.queue != [])
    ensures PollWatermark.HeightsOk(w)
    ensures !w.torn ==> PollWatermark.Safe(cfg, w)
    ensures !w.faulted ==> PollExactlyOnce.DeliveredAlong(cfg, w)
    ensures !w.torn ==> PollExactlyOnce.RepeatsAreSilent(cfg, w, w.now.finalized)
  {
    var ws: seq<World>, actions: seq<Action> :| IsRun(cfg, ws, actions) && Last(ws) == w;
    hide Step, Init, Basic, AtLeastOnce, Ordered, NoRequeue, PollExactlyOnce.DeliveredAlong, PollExactlyOnce.RepeatsAreSilent;
    hide PollWatermark.HeightsOk, PollWatermark.Safe, PollWatermark.OrderedIn;
    RunsKeepBasic(cfg, ws, actions);
    PollLoss.RunsLoseNothingListed(cfg, ws, actions);
    RunsDeliverAtLeastOnce(cfg, ws, actions);
    RunsStayOrdered(cfg, ws, actions);
    PollWatermark.RunsKeepHeights(cfg, ws, actions);
    if !w.torn {
      UntornRunsDoNotRequeue(cfg, ws, actions);
      CursorTestTellsQueue(cfg, ws, actions);
      PollExactlyOnce.FinalizedTwiceIsSilent(cfg, ws, actions);
      PollWatermark.RunsStaySafe(cfg, ws, actions);
    }
    if !w.faulted {
      PollExactlyOnce.RunsDeliverAlongFinalized(cfg, ws, actions);
    }
  }
}
