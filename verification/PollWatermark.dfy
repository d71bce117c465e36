/** The finalized block number the tracker stores. Without a torn query, whatever is refused or hidden, no
    accepted event is missing below it; and exactly which steps lower it. */
module PollWatermark {
  import opened Sequences
  import opened Bytes
  import opened Records
  import opened Events
  import opened Chain
  import opened Polling
  import opened PollMachine
  import opened PollBasic
  import opened PollOrder
  import opened PollLoss
  import opened PollDelivery
  import PollExactlyOnce

  // ---- heights ----

  ghost predicate BlocksFrom(chain: seq<Tx>, from: nat, number: u64) {
    forall i :: from <= i < |chain| ==> number <= chain[i].block
  }

  /** All blocks lie at or below the height reached, those after a height reading lie above it, and the
      stored number is a height that was reached. */
  ghost predicate HeightsOk(w: World) {
    && (forall i :: 0 <= i < |w.chain| ==> w.chain[i].block <= w.height)
    && w.now.number <= w.height
    && (w.report.Some? ==>
          && w.now.number <= w.report.value.height <= w.height
          && w.report.value.length <= |w.chain|
          && BlocksFrom(w.chain, w.report.value.length, w.report.value.height))
  }

  /** Which effects of an attempt record a number, and which number. */
  lemma AttemptNumber(s: Snapshot, block: u64, outcome: Outcome, c: nat)
    requires s.queue != [] && c <= ProcessLength(s, block, outcome)
    ensures ProcessAt(s, block, outcome, c).number
            == if c > 0 && HeadEvents(s, block, outcome) != [] then block else s.number
  {
    var es := HeadEvents(s, block, outcome);
    assert forall i :: 0 <= i < |es| ==> es[i].block == block;
  }

  /** What a processing step does to the number. */
  lemma ProcessNumber(cfg: Config, w: World, c: nat)
    requires Basic(w) && CanProcess(cfg, w, c)
    ensures var w' := AfterProcess(cfg, w, c);
            && w'.chain == w.chain && w'.height == w.height && w'.report == None
            && w'.now.number == if c > 0 && EventsAt(cfg, w, HeadPosition(w)) != [] then HeadTx(w).block else w.now.number
  {
    hide Basic, OutcomeOf, IndexOf, EventsAt;
    HeadEventsAreAccepted(cfg, w);
    AttemptNumber(w.now, HeadTx(w).block, OutcomeOf(cfg.decoding, HeadTx(w).content), c);
  }

  /** What a query does to the number. */
  lemma QueryNumber(cfg: Config, w: World, m: nat, hidden: set<Signature>, refused: bool, c: nat)
    requires Basic(w) && CanQuery(w, m, hidden, refused, c)
    ensures var w' := AfterQuery(cfg, w, m, hidden, refused, c);
            && w'.chain == w.chain && w'.height == w.height && w'.report == None && w.report.Some?
            && w'.now.number == if c > 0 && NewsOf(w.now, ListedAt(w, m, hidden, refused)) == []
                                then w.report.value.height else w.now.number
  {
    hide AfterQuery, CanQuery, NewsOf, BatchOf, ListedAt, FullHistory, PassedOver, MovedPast, Basic;
    CanQueryBounds(w, m, hidden, refused, c);
    if c == 0 {
      NoEffect(cfg, w, m, hidden, refused);
    } else {
      BasicChain(w);
      QueryEffect(cfg, w, m, hidden, refused, c);
    }
  }

  lemma StepKeepsHeights(cfg: Config, w: World, a: Action, w': World)
    requires Basic(w) && HeightsOk(w) && Step(cfg, w, a, w')
    ensures HeightsOk(w')
  {
    hide Basic, AfterQuery, CanQuery, AfterProcess, OutcomeOf, IndexOf, ChainOk;
    match a
    case Query(m, hidden, refused, c) => QueryNumber(cfg, w, m, hidden, refused, c);
    case Process(c) => ProcessNumber(cfg, w, c);
    case _ =>
  }

  lemma {:induction false} RunsKeepHeights(cfg: Config, ws: seq<World>, actions: seq<Action>)
    requires IsRun(cfg, ws, actions)
    ensures HeightsOk(Last(ws))
  {
    if actions != [] {
      RunPrefix(cfg, ws, actions);
      RunsKeepHeights(cfg, ws[..|actions|], actions[..|actions| - 1]);
      RunsKeepBasic(cfg, ws[..|actions|], actions[..|actions| - 1]);
      hide Step, Basic, IsRun, HeightsOk;
      StepKeepsHeights(cfg, ws[|actions| - 1], Last(actions), Last(ws));
    }
  }

  /** A step lowers the stored number if and only if it works on a queue head that has accepted events and
      lies in a block below the number. */
  lemma NumberDropsExactlyWhen(cfg: Config, w: World, a: Action, w': World)
    requires Basic(w) && HeightsOk(w) && Step(cfg, w, a, w')
    ensures w'.now.number < w.now.number
            <==> && a.Process? && a.effects > 0 && w.now.queue != [] && HeadPosition(w) < |w.chain|
                 && EventsAt(cfg, w, HeadPosition(w)) != [] && HeadTx(w).block < w.now.number
  {
    hide Basic, AfterQuery, CanQuery, AfterProcess, OutcomeOf, IndexOf, ChainOk, EventsAt, CanGrow;
    match a
    case Query(m, hidden, refused, c) => QueryNumber(cfg, w, m, hidden, refused, c);
    case Process(c) => ProcessNumber(cfg, w, c);
    case _ =>
  }

  // ---- the queue of an untorn run is in chain order ----

  /** These are transactions of the history, in its order. */
  ghost predicate OrderedIn(points: seq<TxPoint>, s: seq<TxPoint>) {
    && (forall p :: p in s ==> IndexOf(points, p.sig) < |points|)
    && (forall i, j :: 0 <= i < j < |s| ==> IndexOf(points, s[i].sig) < IndexOf(points, s[j].sig))
  }

  lemma {:induction false} FilterOrderedIn(points: seq<TxPoint>, s: seq<TxPoint>, keep: TxPoint -> bool)
    requires OrderedIn(points, s)
    ensures OrderedIn(points, Filter(s, keep))
  {
    hide IndexOf, OrderedIn;
    if s != [] {
      var front := s[..|s| - 1];
      assert s == front + [Last(s)];
      OrderedFront(points, front, Last(s));
      FilterOrderedIn(points, front, keep);
      forall p | p in Filter(front, keep)
        ensures p in front
      {
        FilterMember(front, keep, p);
      }
      OrderedSnoc(points, front, Filter(front, keep), Last(s));
    }
  }

  lemma OrderedFront(points: seq<TxPoint>, front: seq<TxPoint>, last: TxPoint)
    requires OrderedIn(points, front + [last])
    ensures OrderedIn(points, front)
  {
    hide IndexOf;
    assert forall i :: 0 <= i < |front| ==> (front + [last])[i] == front[i];
  }

  lemma OrderedSnoc(points: seq<TxPoint>, front: seq<TxPoint>, kept: seq<TxPoint>, last: TxPoint)
    requires OrderedIn(points, front + [last]) && OrderedIn(points, kept)
    requires forall p :: p in kept ==> p in front
    ensures OrderedIn(points, kept + [last]) && kept + [] == kept
  {
    hide IndexOf;
    var s := front + [last];
    assert s[|front|] == last && last in s;
    forall i | 0 <= i < |kept|
      ensures IndexOf(points, kept[i].sig) < IndexOf(points, last.sig)
    {
      assert kept[i] in front;
      var j :| 0 <= j < |front| && front[j] == kept[i];
      assert s[j] == kept[i];
    }
  }

  lemma PrefixOrderedIn(points: seq<TxPoint>, m: nat)
    requires PointsOk(points) && m <= |points|
    ensures OrderedIn(points, points[..m])
  {
    hide PointsOk, IndexOf;
    forall i | 0 <= i < m
      ensures IndexOf(points, points[..m][i].sig) == i
    {
      IndexOfAt(points, i);
    }
  }

  lemma SuffixOrderedIn(points: seq<TxPoint>, s: seq<TxPoint>, k: nat)
    requires OrderedIn(points, s) && k <= |s|
    ensures OrderedIn(points, s[k..])
  {
    hide IndexOf;
  }

  lemma ListedOrderedIn(points: seq<TxPoint>, m: nat, hidden: set<Signature>, q: TxPoint, refused: bool)
    requires PointsOk(points) && m <= |points|
    ensures OrderedIn(points, Listed(Visible(points[..m], hidden), q, refused))
  {
    hide PointsOk, OrderedIn, IndexOf;
    var visible := Visible(points[..m], hidden);
    PrefixOrderedIn(points, m);
    FilterOrderedIn(points, points[..m], NotHidden(hidden));
    FilterOrderedIn(points, visible, SlotFrom(q.slot));
    SuffixOrderedIn(points, visible, |visible|);
    assert visible[|visible|..] == [];
    if IndexOf(visible, q.sig) < |visible| {
      SuffixOrderedIn(points, visible, IndexOf(visible, q.sig) + 1);
    }
  }

  /** What a query finds is in chain order. */
  lemma NewsOrderedIn(cfg: Config, w: World, m: nat, hidden: set<Signature>, refused: bool)
    requires PointsOk(Points(w.chain)) && m <= |w.chain|
    ensures OrderedIn(Points(w.chain), NewsOf(w.now, ListedAt(w, m, hidden, refused)))
    ensures OrderedIn(Points(w.chain), BatchOf(w.now, cfg.start, ListedAt(w, m, hidden, refused)))
  {
    hide PointsOk, OrderedIn, Listed, Visible, Filter;
    var listed := ListedAt(w, m, hidden, refused);
    ListedOrderedIn(Points(w.chain), m, hidden, w.now.queried, refused);
    FilterOrderedIn(Points(w.chain), listed, Unknown(w.now));
    FilterOrderedIn(Points(w.chain), NewsOf(w.now, listed), FromStart(w.now.queried, cfg.start));
  }

  lemma IndexGrows(points: seq<TxPoint>, more: seq<TxPoint>, sig: Signature)
    requires IndexOf(points, sig) < |points|
    ensures IndexOf(points + more, sig) == IndexOf(points, sig)
  {
    assert (points + more)[IndexOf(points, sig)].sig == sig;
    assert forall i :: 0 <= i < |points| ==> (points + more)[i] == points[i];
  }

  lemma GrowOrderedIn(points: seq<TxPoint>, more: seq<TxPoint>, s: seq<TxPoint>)
    requires OrderedIn(points, s)
    ensures OrderedIn(points + more, s)
  {
    hide IndexOf;
    forall p | p in s
      ensures IndexOf(points + more, p.sig) == IndexOf(points, p.sig)
    {
      IndexGrows(points, more, p.sig);
    }
    assert forall i :: 0 <= i < |s| ==> s[i] in s;
  }

  // ---- nothing is missing below the number ----

  ghost predicate SafeAt(w: World, i: nat)
    requires i < |w.chain|
  {
    i in w.overlooked || w.now.number <= w.chain[i].block || w.chain[i].point in w.now.finalized
  }

  /** Below the stored number, everything from the base on that no answer has left out is finalized. */
  ghost predicate Safe(cfg: Config, w: World) {
    && w.unlisted <= w.overlooked
    && forall i: nat :: Base(cfg, w) <= i < |w.chain| ==> SafeAt(w, i)
  }

  /** As long as nothing was queried, that holds from the first position on. */
  ghost predicate GenesisSafe(w: World) {
    w.now.queried == NO_POINT ==> forall i: nat :: i < |w.chain| ==> SafeAt(w, i)
  }

  lemma GrowKeepsSafe(cfg: Config, w: World, txs: seq<Tx>, newHeight: u64)
    requires HeightsOk(w) && Safe(cfg, w) && GenesisSafe(w) && CanGrow(w, txs, newHeight)
    ensures var w' := w.(chain := w.chain + txs, height := newHeight);
            Safe(cfg, w') && GenesisSafe(w')
  {
    var w' := w.(chain := w.chain + txs, height := newHeight);
    NewBlocksAbove(w, txs, newHeight);
    hide Base, HeightsOk, CanGrow, BlocksFrom, SafeAt;
    BaseGrows(cfg, w, w', txs);
    forall i: nat | i < |w'.chain| && (Base(cfg, w') <= i || w.now.queried == NO_POINT)
      ensures SafeAt(w', i)
    {
      SafeAtGrows(w, txs, newHeight, i);
    }
  }

  lemma SafeAtGrows(w: World, txs: seq<Tx>, newHeight: u64, i: nat)
    requires i < |w.chain + txs| && BlocksFrom(txs, 0, w.now.number)
    requires i < |w.chain| ==> SafeAt(w, i)
    ensures SafeAt(w.(chain := w.chain + txs, height := newHeight), i)
  {
    assert (w.chain + txs)[i] == if i < |w.chain| then w.chain[i] else txs[i - |w.chain|];
  }

  lemma SameKeepsSafe(cfg: Config, w: World, w': World)
    requires Safe(cfg, w) && GenesisSafe(w) && w'.chain == w.chain && w'.skip == w.skip
    requires w.overlooked <= w'.overlooked && w'.unlisted <= w'.overlooked
    requires w'.now.number <= w.now.number && w'.now.finalized == w.now.finalized
    requires w'.now.queried == NO_POINT ==> w.now.queried == NO_POINT
    ensures Safe(cfg, w') && GenesisSafe(w')
  {
    hide FirstFrom;
    forall i: nat | i < |w'.chain| && (Base(cfg, w') <= i || w'.now.queried == NO_POINT)
      ensures SafeAt(w', i)
    {
      assert SafeAt(w, i);
    }
  }

  /** Positions a cursor is moved past lie before the end of what was answered. */
  lemma MovedPastIsPassedOver(w: World, m: nat, to: int, listed: seq<TxPoint>)
    requires m <= |w.chain| && (to <= m || to == CursorOf(w))
    ensures MovedPast(w, to, listed) <= PassedOver(w, m, listed)
  {
    hide IndexOf;
  }

  /** Where a query leaves the cursor. */
  lemma CursorAfterQuery(cfg: Config, w: World, m: nat, hidden: set<Signature>, refused: bool, c: nat)
    requires Basic(w) && CanQuery(w, m, hidden, refused, c)
    ensures var w' := AfterQuery(cfg, w, m, hidden, refused, c);
            m <= |w.chain| && (CursorOf(w') <= m || CursorOf(w') == CursorOf(w))
  {
    hide AfterQuery, CanQuery, NewsOf, BatchOf, ListedAt, FullHistory, PassedOver, MovedPast, Basic, Known;
    CanQueryBounds(w, m, hidden, refused, c);
    if c == 0 {
      NoEffect(cfg, w, m, hidden, refused);
    } else {
      BasicChain(w);
      QueryEffect(cfg, w, m, hidden, refused, c);
      var listed := ListedAt(w, m, hidden, refused);
      var news, batch := NewsOf(w.now, listed), BatchOf(w.now, cfg.start, listed);
      BatchFacts(w.now, cfg.start, listed);
      assert news != [] ==> Last(news) in news;
      assert batch != [] ==> Last(batch) in batch;
      hide PushOf, SkipTo;
      var w' := AfterQuery(cfg, w, m, hidden, refused, c);
      if w'.now.queried != w.now.queried {
        assert w'.now.queried in Points(w.chain)[..m] by { QueriedAfter(w, w', listed, news, batch); }
        CursorBelow(Points(w.chain), w'.now.queried, m);
      }
    }
  }

  lemma QueriedAfter(w: World, w': World, listed: seq<TxPoint>, news: seq<TxPoint>, batch: seq<TxPoint>)
    requires w'.now.queried != w.now.queried
    requires if news == [] then w'.now == w.now.(number := w'.now.number)
             else if batch == [] then SkipTo(w, w', Last(news))
             else PushOf(w, w', batch)
    ensures news != [] && w'.now.queried == if batch == [] then Last(news) else Last(batch)
  {
  }

  /** With nothing queued, a poll that finds nothing new accounts for everything up to its height. */
  lemma EmptyNewsKeepsSafe(cfg: Config, w: World, w': World, m: nat, listed: seq<TxPoint>)
    requires Basic(w) && HeightsOk(w) && NoLoss(cfg, w) && Safe(cfg, w) && GenesisSafe(w)
    requires !MustProcess(w.now) && w.now.queue == []
    requires w.report.Some? && w.report.value.length <= m <= |w.chain|
    requires forall p :: p in listed ==> Known(w.now, p.sig)
    requires w'.chain == w.chain && w'.skip == w.skip && w'.now.finalized == w.now.finalized
    requires w'.overlooked == w.overlooked + PassedBelow(w, m, listed, w.report.value.height)
    requires w'.unlisted <= w'.overlooked && w'.now.queried == w.now.queried
    requires w'.now.number == w.report.value.height
    ensures Safe(cfg, w') && GenesisSafe(w')
  {
    hide Basic, Known, IndexOf, FirstFrom, PassedOver, NoLoss;
    forall i: nat | i < |w'.chain| && (Base(cfg, w') <= i || w.now.queried == NO_POINT)
      ensures SafeAt(w', i)
    {
      if i < m && CursorOf(w) < i {
        if w.chain[i].point in listed {
          KnownIsHandled(w, i);
        } else {
          InPassedOver(w, m, listed, i);
        }
      } else if i <= CursorOf(w) {
        CoveredUpToCursor(cfg, w, i);
      }
    }
  }

  lemma CoveredUpToCursor(cfg: Config, w: World, i: nat)
    requires NoLoss(cfg, w) && i <= CursorOf(w) && i < |w.chain|
    requires Base(cfg, w) <= i || w.now.queried == NO_POINT
    ensures Covered(w, i)
  {
    hide IndexOf, FirstFrom, Handled;
  }

  lemma InPassedOver(w: World, m: nat, listed: seq<TxPoint>, i: nat)
    requires CursorOf(w) < i < m <= |w.chain| && w.chain[i].point !in listed
    ensures i in PassedOver(w, m, listed)
  {
    assert Points(w.chain)[i] == w.chain[i].point;
  }

  /** A skip moves the base right behind the newest transaction it found; nothing was queried before. */
  lemma SkipKeepsSafe(cfg: Config, w: World, w': World)
    requires GenesisSafe(w) && w.now.queried == NO_POINT
    requires w'.chain == w.chain && w'.now.queried != NO_POINT
    requires w.overlooked <= w'.overlooked && w'.unlisted <= w'.overlooked
    requires w'.now.number == w.now.number && w'.now.finalized == w.now.finalized
    ensures Safe(cfg, w') && GenesisSafe(w')
  {
    hide FirstFrom;
    forall i: nat | i < |w'.chain|
      ensures SafeAt(w', i)
    {
      assert SafeAt(w, i);
    }
  }

  lemma NoEarlierThanFirst(points: seq<TxPoint>, s: seq<TxPoint>, i: nat)
    requires PointsOk(points) && s != [] && OrderedIn(points, s) && i < |points| && points[i] in s
    ensures IndexOf(points, s[0].sig) <= i
  {
    hide IndexOf, PointsOk;
    var j :| 0 <= j < |s| && s[j] == points[i];
    IndexOfAt(points, i);
    assert 0 < j ==> IndexOf(points, s[0].sig) < IndexOf(points, s[j].sig);
  }

  lemma QueryKeepsSafe(cfg: Config, w: World, m: nat, hidden: set<Signature>, refused: bool, c: nat)
    requires Basic(w) && HeightsOk(w) && NoLoss(cfg, w) && Safe(cfg, w) && GenesisSafe(w)
    requires CanQuery(w, m, hidden, refused, c) && !AfterQuery(cfg, w, m, hidden, refused, c).torn
    ensures var w' := AfterQuery(cfg, w, m, hidden, refused, c);
            Safe(cfg, w') && GenesisSafe(w')
  {
    hide AfterQuery, CanQuery, NewsOf, BatchOf, ListedAt, FullHistory, PassedOver, MovedPast, Basic, Known, NoLoss, Safe;
    hide HeightsOk, OrderedIn, IndexOf, PointsOk, GenesisSafe, PassedBelow;
    var w' := AfterQuery(cfg, w, m, hidden, refused, c);
    CanQueryBounds(w, m, hidden, refused, c);
    SafeSets(cfg, w);
    if c == 0 {
      NoEffect(cfg, w, m, hidden, refused);
      SameKeepsSafe(cfg, w, w');
    } else {
      BasicChain(w);
      NoPointIsZero(w);
      QuietQueue(w);
      QueryEffect(cfg, w, m, hidden, refused, c);
      var listed := ListedAt(w, m, hidden, refused);
      BatchFacts(w.now, cfg.start, listed);
      if NewsOf(w.now, listed) == [] {
        NothingMovedPast(w, CursorOf(w'), listed);
        EmptyNewsKeepsSafe(cfg, w, w', m, listed);
      } else if BatchOf(w.now, cfg.start, listed) == [] {
        LastIsPoint(NewsOf(w.now, listed));
        SkipKeepsSafe(cfg, w, w');
      } else {
        LastIsPoint(BatchOf(w.now, cfg.start, listed));
        SameKeepsSafe(cfg, w, w');
      }
    }
  }

  lemma LastIsPoint(points: seq<TxPoint>)
    requires PointsOk(points) && points != []
    ensures Last(points) != NO_POINT
  {
  }

  lemma SafeSets(cfg: Config, w: World)
    requires Safe(cfg, w)
    ensures w.unlisted <= w.overlooked
  {
  }

  /** Working on the queue head is safe because everything before it is accounted for. */
  lemma ProcessKeepsSafe(cfg: Config, w: World, c: nat)
    requires Basic(w) && NoLoss(cfg, w) && Safe(cfg, w) && OrderedIn(Points(w.chain), w.now.queue)
    requires CanProcess(cfg, w, c) && Last(w.now.queue) == w.now.queried != NO_POINT
    ensures Safe(cfg, AfterProcess(cfg, w, c)) && GenesisSafe(AfterProcess(cfg, w, c))
  {
    hide ProcessAt, ProcessLength, OutcomeOf, Basic, IndexOf, FirstFrom, EventsAt, NoLoss, OrderedIn, PointsOk, Safe;
    var w' := AfterProcess(cfg, w, c);
    ProcessNumber(cfg, w, c);
    AttemptEvents(w.now, HeadTx(w).block, OutcomeOf(cfg.decoding, HeadTx(w).content), c);
    BasicChain(w);
    forall i: nat | Base(cfg, w) <= i < HeadPosition(w)
      ensures i in w.unlisted || w.chain[i].point in w.now.finalized
    {
      BeforeHeadIsSafe(cfg, w, i);
    }
    NumberOfHeadIsSafe(cfg, w, w', HeadPosition(w));
  }

  /** Recording the block of a position before which everything is accounted for. */
  lemma NumberOfHeadIsSafe(cfg: Config, w: World, w': World, h: nat)
    requires Safe(cfg, w) && ChainOk(w.chain) && h < |w.chain|
    requires forall i: nat :: Base(cfg, w) <= i < h ==> i in w.unlisted || w.chain[i].point in w.now.finalized
    requires w'.chain == w.chain && w'.skip == w.skip
    requires w'.overlooked == w.overlooked && w'.unlisted == w.unlisted
    requires w.now.finalized <= w'.now.finalized
    requires w'.now.number == w.now.number || w'.now.number == w.chain[h].block
    ensures Safe(cfg, w')
  {
    hide FirstFrom, PointsOk;
    forall i: nat | Base(cfg, w') <= i < |w'.chain|
      ensures SafeAt(w', i)
    {
      assert SafeAt(w, i);
    }
  }

  /** Before the queue head, everything from the base on that no answer has left out is finalized. */
  lemma BeforeHeadIsSafe(cfg: Config, w: World, i: nat)
    requires Basic(w) && NoLoss(cfg, w) && OrderedIn(Points(w.chain), w.now.queue)
    requires w.now.queue != [] && Last(w.now.queue) == w.now.queried != NO_POINT
    requires Base(cfg, w) <= i < HeadPosition(w) && i < |w.chain|
    ensures i in w.unlisted || w.chain[i].point in w.now.finalized
  {
    hide Basic, IndexOf, FirstFrom;
    NoPointIsZero(w);
    var points, queue := Points(w.chain), w.now.queue;
    assert HeadPosition(w) <= CursorOf(w) by {
      assert |queue| > 1 ==> IndexOf(points, queue[0].sig) < IndexOf(points, queue[|queue| - 1].sig);
    }
    assert Last(queue) in queue;
    assert Covered(w, i);
    if points[i] in queue {
      NoEarlierThanFirst(points, queue, i);
    }
  }

  // ---- over every run ----

  lemma StepKeepsQueueOrder(cfg: Config, w: World, a: Action, w': World)
    requires Basic(w) && Step(cfg, w, a, w') && !w'.torn
    requires OrderedIn(Points(w.chain), w.now.queue)
    ensures OrderedIn(Points(w'.chain), w'.now.queue)
  {
    hide Basic, AfterQuery, CanQuery, OrderedIn, OutcomeOf, IndexOf;
    HistoryOnlyGrows(cfg, w, a, w');
    match a
    case Grow(txs, newHeight) =>
      assert Points(w'.chain) == Points(w.chain) + Points(txs);
      GrowOrderedIn(Points(w.chain), Points(txs), w.now.queue);
    case Query(m, hidden, refused, c) => QueryKeepsQueueOrder(cfg, w, m, hidden, refused, c);
    case Process(c) =>
      AttemptEvents(w.now, HeadTx(w).block, OutcomeOf(cfg.decoding, HeadTx(w).content), c);
      SuffixOrderedIn(Points(w.chain), w.now.queue, 1);
    case _ =>
  }

  lemma QueryKeepsQueueOrder(cfg: Config, w: World, m: nat, hidden: set<Signature>, refused: bool, c: nat)
    requires Basic(w) && CanQuery(w, m, hidden, refused, c) && OrderedIn(Points(w.chain), w.now.queue) && !w.torn
    ensures var w' := AfterQuery(cfg, w, m, hidden, refused, c);
            OrderedIn(Points(w'.chain), w'.now.queue)
  {
    hide AfterQuery, CanQuery, NewsOf, BatchOf, ListedAt, FullHistory, PassedOver, MovedPast, Basic, OrderedIn, Known;
    CanQueryBounds(w, m, hidden, refused, c);
    if c == 0 {
      NoEffect(cfg, w, m, hidden, refused);
    } else {
      BasicChain(w);
      NoPointIsZero(w);
      QuietQueue(w);
      QueryEffect(cfg, w, m, hidden, refused, c);
      NewsOrderedIn(cfg, w, m, hidden, refused);
      var batch := BatchOf(w.now, cfg.start, ListedAt(w, m, hidden, refused));
      assert [] + batch == batch;
    }
  }

  lemma StepKeepsSafe(cfg: Config, w: World, a: Action, w': World)
    requires Basic(w) && HeightsOk(w) && NoLoss(cfg, w) && Safe(cfg, w) && GenesisSafe(w) && Step(cfg, w, a, w')
    requires OrderedIn(Points(w.chain), w.now.queue) && !w.torn && !w'.torn
    ensures Safe(cfg, w') && GenesisSafe(w')
  {
    SafeSets(cfg, w);
    UntornFacts(w);
    hide Basic, HeightsOk, NoLoss, Safe, GenesisSafe, OrderedIn, AfterQuery, CanQuery, AfterProcess, OutcomeOf, IndexOf, ChainOk, CanGrow;
    match a
    case Grow(txs, newHeight) => GrowKeepsSafe(cfg, w, txs, newHeight);
    case Query(m, hidden, refused, c) => QueryKeepsSafe(cfg, w, m, hidden, refused, c);
    case Process(c) => ProcessKeepsSafe(cfg, w, c);
    case _ => SameKeepsSafe(cfg, w, w');
  }

  /** What the dispatcher's invariant says in an untorn world. */
  lemma UntornFacts(w: World)
    requires Basic(w) && !w.torn
    ensures MustProcess(w.now) ==> w.now.queue != [] && Last(w.now.queue) == w.now.queried != NO_POINT
  {
  }

  /** Over every run without a torn query, refused cursors and hidden history anywhere: below the stored
      number, everything from the base on that no answer has left out is finalized. */
  lemma {:induction false} RunsStaySafe(cfg: Config, ws: seq<World>, actions: seq<Action>)
    requires IsRun(cfg, ws, actions) && !Last(ws).torn
    ensures Safe(cfg, Last(ws)) && GenesisSafe(Last(ws))
    ensures OrderedIn(Points(Last(ws).chain), Last(ws).now.queue)
  {
    if actions != [] {
      RunPrefix(cfg, ws, actions);
      var before, front := ws[..|actions|], actions[..|actions| - 1];
      HistoryOnlyGrows(cfg, ws[|actions| - 1], Last(actions), Last(ws));
      RunsStaySafe(cfg, before, front);
      RunsKeepBasic(cfg, before, front);
      RunsKeepHeights(cfg, before, front);
      RunsLoseNothingListed(cfg, before, front);
      hide Step, Basic, IsRun, HeightsOk, NoLoss, Safe, GenesisSafe, OrderedIn;
      StepKeepsSafe(cfg, ws[|actions| - 1], Last(actions), Last(ws));
      StepKeepsQueueOrder(cfg, ws[|actions| - 1], Last(actions), Last(ws));
    }
  }

  // ---- what it means ----

  /** Every transaction at or after the base whose block lies strictly below the stored number, and that no
      answer has left out, is finalized with all its accepted events stored. */
  lemma NothingMissingBelowNumber(cfg: Config, ws: seq<World>, actions: seq<Action>, i: nat)
    requires IsRun(cfg, ws, actions) && !Last(ws).torn
    requires Base(cfg, Last(ws)) <= i < |Last(ws).chain| && i !in Last(ws).overlooked
    requires Last(ws).chain[i].block < Last(ws).now.number
    ensures Last(ws).chain[i].point in Last(ws).now.finalized
    ensures forall e :: e in EventsAt(cfg, Last(ws), i) ==> e in Last(ws).now.stored
  {
    RunsStaySafe(cfg, ws, actions);
    RunsDeliverAtLeastOnce(cfg, ws, actions);
    RunsKeepBasic(cfg, ws, actions);
    hide IsRun;
    SafeMeansStored(cfg, Last(ws), i);
  }

  lemma SafeMeansStored(cfg: Config, w: World, i: nat)
    requires Basic(w) && AtLeastOnce(cfg, w) && Safe(cfg, w)
    requires Base(cfg, w) <= i < |w.chain| && i !in w.overlooked && w.chain[i].block < w.now.number
    ensures w.chain[i].point in w.now.finalized
    ensures forall e :: e in EventsAt(cfg, w, i) ==> e in w.now.stored
  {
    hide Basic, FirstFrom, EventsAt, IndexOf, PointsOk;
    assert SafeAt(w, i);
    assert AllStored(cfg, w, w.chain[i].point);
    NoPointIsZero(w);
    IndexOfAt(Points(w.chain), i);
  }

  /** Without a torn query a step lowers the number only for a queue head that lies before the base or that
      some earlier answer had left out. */
  lemma NumberDropsOnlyForOverlooked(cfg: Config, ws: seq<World>, actions: seq<Action>)
    requires IsRun(cfg, ws, actions) && actions != [] && !Last(ws).torn
    requires Last(ws).now.number < ws[|actions| - 1].now.number
    ensures var w := ws[|actions| - 1];
            && Last(actions).Process? && w.now.queue != []
            && (HeadPosition(w) < Base(cfg, w) || HeadPosition(w) in w.overlooked)
  {
    RunPrefix(cfg, ws, actions);
    var before, front, w := ws[..|actions|], actions[..|actions| - 1], ws[|actions| - 1];
    HistoryOnlyGrows(cfg, w, Last(actions), Last(ws));
    RunsStaySafe(cfg, before, front);
    RunsKeepBasic(cfg, before, front);
    RunsKeepHeights(cfg, before, front);
    RunsDeliverAtLeastOnce(cfg, before, front);
    UntornRunsDoNotRequeue(cfg, before, front);
    hide IsRun, Step, HeightsOk, Safe, OrderedIn, Basic, AtLeastOnce, NoRequeue;
    NumberDropsExactlyWhen(cfg, w, Last(actions), Last(ws));
    SafeHeadHasNoEvents(cfg, w);
  }

  /** A queue head below the number, from the base on and never left out, is finalized already, and so
      has no events. */
  lemma SafeHeadHasNoEvents(cfg: Config, w: World)
    requires Basic(w) && AtLeastOnce(cfg, w) && NoRequeue(w.now) && Safe(cfg, w)
    requires w.now.queue != [] && HeadPosition(w) < |w.chain| && HeadTx(w).block < w.now.number
    ensures || EventsAt(cfg, w, HeadPosition(w)) == []
            || HeadPosition(w) < Base(cfg, w) || HeadPosition(w) in w.overlooked
  {
    hide Basic, NoRequeue, FirstFrom, EventsAt, IndexOf, AtLeastOnce;
    var i := HeadPosition(w);
    if Base(cfg, w) <= i && i !in w.overlooked {
      assert SafeAt(w, i);
      HeadPoint(cfg, w);
      PollExactlyOnce.RequeuedHasNoEvents(cfg, w);
    }
  }

  lemma HeadPoint(cfg: Config, w: World)
    requires Basic(w) && w.now.queue != []
    ensures HeadPosition(w) < |w.chain| && w.chain[HeadPosition(w)].point == w.now.queue[0]
  {
    hide EventsAt, OutcomeOf;
    HeadEventsAreAccepted(cfg, w);
  }

  // ---- complete answers ----

  lemma StepOverlooksNothing(cfg: Config, w: World, a: Action, w': World)
    requires Basic(w) && Step(cfg, w, a, w') && !w'.partial && w.overlooked == w.unlisted == {}
    ensures w'.overlooked == w'.unlisted == {}
  {
    match a
    case Query(m, hidden, refused, c) => QueryOverlooksNothing(cfg, w, m, hidden, refused, c);
    case Process(c) =>
      hide ProcessAt, OutcomeOf, ProcessLength, IndexOf;
    case _ =>
  }

  lemma QueryOverlooksNothing(cfg: Config, w: World, m: nat, hidden: set<Signature>, refused: bool, c: nat)
    requires Basic(w) && CanQuery(w, m, hidden, refused, c) && w.overlooked == w.unlisted == {}
    requires !AfterQuery(cfg, w, m, hidden, refused, c).partial
    ensures var w' := AfterQuery(cfg, w, m, hidden, refused, c);
            w'.overlooked == w'.unlisted == {}
  {
    hide AfterQuery, CanQuery, NewsOf, BatchOf, ListedAt, FullHistory, PassedOver, MovedPast, Basic, Known, IndexOf;
    if c == 0 {
      NoEffect(cfg, w, m, hidden, refused);
    } else {
      BasicChain(w);
      CanQueryBounds(w, m, hidden, refused, c);
      QueryEffect(cfg, w, m, hidden, refused, c);
      CursorAfterQuery(cfg, w, m, hidden, refused, c);
      MovedPastIsPassedOver(w, m, CursorOf(AfterQuery(cfg, w, m, hidden, refused, c)), FullHistory(w, m));
      FullHistoryPassesNothing(w, m);
      assert PassedBelow(w, m, FullHistory(w, m), w.report.value.height) <= PassedOver(w, m, FullHistory(w, m));
    }
  }

  lemma FullHistoryPassesNothing(w: World, m: nat)
    requires m <= |w.chain|
    ensures PassedOver(w, m, FullHistory(w, m)) == {}
  {
    hide IndexOf;
    forall i: nat | i < m && CursorOf(w) < i
      ensures Points(w.chain)[i] in FullHistory(w, m)
    {
      InSlice(Points(w.chain), CursorOf(w) + 1, m, i);
    }
  }

  lemma InSlice(points: seq<TxPoint>, a: nat, b: nat, i: nat)
    requires a <= i < b <= |points|
    ensures points[i] in points[a..b]
  {
    assert points[a..b][i - a] == points[i];
  }

  /** When every answer was complete, none has left anything out. */
  lemma {:induction false} CompleteRunsOverlookNothing(cfg: Config, ws: seq<World>, actions: seq<Action>)
    requires IsRun(cfg, ws, actions) && !Last(ws).partial
    ensures Last(ws).overlooked == Last(ws).unlisted == {}
  {
    if actions != [] {
      RunPrefix(cfg, ws, actions);
      HistoryOnlyGrows(cfg, ws[|actions| - 1], Last(actions), Last(ws));
      CompleteRunsOverlookNothing(cfg, ws[..|actions|], actions[..|actions| - 1]);
      RunsKeepBasic(cfg, ws[..|actions|], actions[..|actions| - 1]);
      hide Step, IsRun, Basic;
      StepOverlooksNothing(cfg, ws[|actions| - 1], Last(actions), Last(ws));
    }
  }

  /** Without a torn query and with complete answers the stored number never decreases along a run. */
  lemma {:induction false} NumberNeverDecreases(cfg: Config, ws: seq<World>, actions: seq<Action>, i: nat)
    requires IsRun(cfg, ws, actions) && i < |ws|
    requires !Last(ws).torn && !Last(ws).partial
    ensures ws[i].now.number <= Last(ws).now.number
  {
    hide Step, Init;
    if i < |actions| {
      RunPrefix(cfg, ws, actions);
      var before, front, w := ws[..|actions|], actions[..|actions| - 1], ws[|actions| - 1];
      HistoryOnlyGrows(cfg, w, Last(actions), Last(ws));
      NumberNeverDecreases(cfg, before, front, i);
      if Last(ws).now.number < w.now.number {
        NumberDropsOnlyForOverlooked(cfg, ws, actions);
        CompleteRunsOverlookNothing(cfg, before, front);
        RunsStayOrdered(cfg, before, front);
        RunsKeepBasic(cfg, before, front);
        hide IsRun, Basic, Ordered, Base;
        NoPointIsZero(w);
        HeadFollowsFinalized(cfg, w);
      }
    }
  }

  // ---- complete answers, torn queries or not ----

  /** Nothing after the handled run lies below the number; nor does anything while there is no such run and
      nothing was queried. */
  ghost predicate AheadIsAbove(cfg: Config, w: World) {
    && BlocksFrom(w.chain, End(w.now, Base(cfg, w)), w.now.number)
    && (w.now.queried == NO_POINT && End(w.now, 0) == 0 ==> BlocksFrom(w.chain, 0, w.now.number))
  }

  lemma GrowKeepsAhead(cfg: Config, w: World, txs: seq<Tx>, newHeight: u64)
    requires HeightsOk(w) && AheadIsAbove(cfg, w) && CanGrow(w, txs, newHeight)
    ensures AheadIsAbove(cfg, w.(chain := w.chain + txs, height := newHeight))
  {
    NewBlocksAbove(w, txs, newHeight);
    hide Base, BlocksFrom, HeightsOk, CanGrow;
    var w' := w.(chain := w.chain + txs, height := newHeight);
    BaseGrows(cfg, w, w', txs);
    BlocksFromGrows(w.chain, txs, End(w.now, Base(cfg, w)), End(w.now, Base(cfg, w')), w.now.number);
    BlocksFromGrows(w.chain, txs, 0, 0, w.now.number);
  }

  lemma BaseGrows(cfg: Config, w: World, w': World, txs: seq<Tx>)
    requires w'.chain == w.chain + txs && w'.skip == w.skip
    ensures Base(cfg, w) <= Base(cfg, w')
  {
    hide FirstFrom;
    FirstFromGrows(Points(w.chain), Points(txs), cfg.start);
    assert Points(w'.chain) == Points(w.chain) + Points(txs);
  }

  lemma NewBlocksAbove(w: World, txs: seq<Tx>, newHeight: u64)
    requires HeightsOk(w) && CanGrow(w, txs, newHeight)
    ensures BlocksFrom(txs, 0, w.now.number)
  {
    hide ChainOk;
  }

  lemma BlocksFromGrows(chain: seq<Tx>, txs: seq<Tx>, from: nat, from': nat, number: u64)
    requires from <= from' && BlocksFrom(txs, 0, number)
    ensures BlocksFrom(chain, from, number) ==> BlocksFrom(chain + txs, from', number)
  {
    if BlocksFrom(chain, from, number) {
      forall i | from' <= i < |chain + txs|
        ensures number <= (chain + txs)[i].block
      {
        assert (chain + txs)[i] == if i < |chain| then chain[i] else txs[i - |chain|];
      }
    }
  }

  /** Neither the handled run's end nor the number changes. */
  lemma SameKeepsAhead(cfg: Config, w: World, w': World)
    requires AheadIsAbove(cfg, w) && w'.chain == w.chain && w'.skip == w.skip
    requires w'.now.number == w.now.number && |w.now.finalized| == |w'.now.finalized|
    requires |w.now.queue| <= |w'.now.queue| && (w'.now.queried == NO_POINT ==> w.now.queried == NO_POINT)
    ensures AheadIsAbove(cfg, w')
  {
    hide FirstFrom;
  }

  lemma ProcessKeepsAhead(cfg: Config, w: World, c: nat)
    requires Basic(w) && Ordered(cfg, w) && AheadIsAbove(cfg, w) && CanProcess(cfg, w, c)
    ensures AheadIsAbove(cfg, AfterProcess(cfg, w, c))
  {
    hide Basic, Ordered, AheadIsAbove, AfterProcess, ProcessAt, ProcessLength, OutcomeOf, FirstFrom, IndexOf, PointsOk, EventsAt;
    var w' := AfterProcess(cfg, w, c);
    ProcessNumber(cfg, w, c);
    ProcessMoves(cfg, w, c);
    BasicChain(w);
    NoPointIsZero(w);
    QueuedFacts(cfg, w, c);
    HeadFollowsFinalized(cfg, w);
    HeadKeepsAhead(cfg, w, w');
  }

  lemma QueuedFacts(cfg: Config, w: World, c: nat)
    requires CanProcess(cfg, w, c)
    ensures w.now.queue != [] && HeadPosition(w) < |w.chain|
  {
    hide OutcomeOf, IndexOf;
  }

  /** A processing step leaves the queue or moves its head to the finalized ones. */
  lemma ProcessMoves(cfg: Config, w: World, c: nat)
    requires CanProcess(cfg, w, c)
    ensures var s, s' := w.now, AfterProcess(cfg, w, c).now;
            && AfterProcess(cfg, w, c).skip == w.skip && s'.queried == s.queried && s.queue != []
            && ((s'.queue == s.queue && s'.finalized == s.finalized)
                || (s'.queue == s.queue[1..] && s'.finalized == s.finalized + [s.queue[0]]))
  {
    hide OutcomeOf, IndexOf;
    AttemptEvents(w.now, HeadTx(w).block, OutcomeOf(cfg.decoding, HeadTx(w).content), c);
  }

  lemma HeadKeepsAhead(cfg: Config, w: World, w': World)
    requires ChainOk(w.chain) && AheadIsAbove(cfg, w) && w.now.queue != []
    requires HeadPosition(w) == Base(cfg, w) + |w.now.finalized| < |w.chain|
    requires w'.chain == w.chain && w'.skip == w.skip
    requires || (w'.now.queue == w.now.queue && w'.now.finalized == w.now.finalized)
             || (w'.now.queue == w.now.queue[1..] && w'.now.finalized == w.now.finalized + [w.now.queue[0]])
    requires w'.now.number in {w.now.number, HeadTx(w).block}
    ensures AheadIsAbove(cfg, w')
  {
    hide FirstFrom, IndexOf, PointsOk;
  }

  lemma QueryKeepsAhead(cfg: Config, w: World, m: nat, hidden: set<Signature>, refused: bool, c: nat)
    requires Basic(w) && Ordered(cfg, w) && HeightsOk(w) && AheadIsAbove(cfg, w)
    requires CanQuery(w, m, hidden, refused, c) && !AfterQuery(cfg, w, m, hidden, refused, c).partial
    ensures AheadIsAbove(cfg, AfterQuery(cfg, w, m, hidden, refused, c))
  {
    hide AfterQuery, CanQuery, NewsOf, BatchOf, ListedAt, FullHistory, PassedOver, MovedPast, Basic, Ordered, HeightsOk;
    hide AheadIsAbove, FirstFrom, PointsOk, Base, RestOf, FrontOf, Contiguous, IndexOf, PassedBelow;
    var w' := AfterQuery(cfg, w, m, hidden, refused, c);
    CanQueryBounds(w, m, hidden, refused, c);
    if c == 0 {
      NoEffect(cfg, w, m, hidden, refused);
      SameKeepsAhead(cfg, w, w');
    } else {
      BasicChain(w);
      NoPointIsZero(w);
      QueryEffect(cfg, w, m, hidden, refused, c);
      assert ListedAt(w, m, hidden, refused) == FullHistory(w, m);
      CompleteAnswer(cfg, w, m);
      if NewsOf(w.now, FullHistory(w, m)) == [] {
        NothingOwed(cfg, w, m);
        NumberKeepsAhead(cfg, w, w', m);
      } else if BatchOf(w.now, cfg.start, FullHistory(w, m)) == [] {
        if w'.now.queried == w.now.queried {
          SameKeepsAhead(cfg, w, w');
        } else {
          SkipsTo(cfg, w, w', m);
          SkipKeepsAhead(cfg, w, w');
        }
      } else {
        LastIsPoint(BatchOf(w.now, cfg.start, FullHistory(w, m)));
        SameKeepsAhead(cfg, w, w');
      }
    }
  }

  /** Recording the height read is harmless once the handled run reaches to the end of what was answered. */
  lemma NumberKeepsAhead(cfg: Config, w: World, w': World, m: nat)
    requires HeightsOk(w) && w.report.Some? && w.report.value.length <= m <= End(w.now, Base(cfg, w))
    requires w.now.queried == NO_POINT && End(w.now, 0) == 0 ==> m == 0
    requires w'.chain == w.chain && w'.skip == w.skip
    requires w'.now == w.now.(number := w.report.value.height)
    ensures AheadIsAbove(cfg, w')
  {
    hide FirstFrom;
  }

  /** Where a skip leaves the base: at the end of the front it found. */
  lemma SkipsTo(cfg: Config, w: World, w': World, m: nat)
    requires PointsOk(Points(w.chain)) && m <= |w.chain| && Base(cfg, w) <= |w.chain|
    requires w.now.queue != [] ==> Base(cfg, w) <= m
    requires w.now.queried == NO_POINT && w.now.finalized == []
    requires RestOf(Points(w.chain), End(w.now, Base(cfg, w)), m) == []
    requires FrontOf(Points(w.chain), Base(cfg, w), m) != [] && w'.chain == w.chain
    requires SkipTo(w, w', Last(FrontOf(Points(w.chain), Base(cfg, w), m))) && w'.now.queried != w.now.queried
    ensures w'.now.queried != NO_POINT
    ensures w.now.queue != [] ==> Base(cfg, w') == Base(cfg, w)
  {
    hide FirstFrom;
    var points, b := Points(w.chain), Base(cfg, w);
    var k := (if b <= m then b else m) - 1;
    assert Last(FrontOf(points, b, m)) == points[k];
    IndexOfAt(points, k);
  }

  lemma SkipKeepsAhead(cfg: Config, w: World, w': World)
    requires AheadIsAbove(cfg, w) && w.now.queried == NO_POINT && w.now.finalized == [] && w'.chain == w.chain
    requires w'.now == w.now.(processed := w'.now.processed, queried := w'.now.queried) && w'.now.queried != NO_POINT
    requires w.now.queue != [] ==> Base(cfg, w') == Base(cfg, w)
    ensures AheadIsAbove(cfg, w')
  {
    hide Base;
  }

  lemma StepKeepsAhead(cfg: Config, w: World, a: Action, w': World)
    requires Basic(w) && Ordered(cfg, w) && HeightsOk(w) && AheadIsAbove(cfg, w) && Step(cfg, w, a, w') && !w'.partial
    ensures AheadIsAbove(cfg, w')
  {
    hide Basic, Ordered, HeightsOk, AheadIsAbove, AfterQuery, CanQuery, AfterProcess, CanProcess, CanGrow;
    match a
    case Grow(txs, newHeight) => GrowKeepsAhead(cfg, w, txs, newHeight);
    case Query(m, hidden, refused, c) => QueryKeepsAhead(cfg, w, m, hidden, refused, c);
    case Process(c) => ProcessKeepsAhead(cfg, w, c);
    case _ => SameKeepsAhead(cfg, w, w');
  }

  lemma {:induction false} CompleteRunsStayAhead(cfg: Config, ws: seq<World>, actions: seq<Action>)
    requires IsRun(cfg, ws, actions) && !Last(ws).partial
    ensures AheadIsAbove(cfg, Last(ws))
  {
    if actions == [] {
      FreshIsAhead(cfg, ws[0]);
    } else {
      RunPrefix(cfg, ws, actions);
      var before, front := ws[..|actions|], actions[..|actions| - 1];
      HistoryOnlyGrows(cfg, ws[|actions| - 1], Last(actions), Last(ws));
      CompleteRunsStayAhead(cfg, before, front);
      RunsKeepBasic(cfg, before, front);
      RunsStayOrdered(cfg, before, front);
      RunsKeepHeights(cfg, before, front);
      hide Step, IsRun, Basic, Ordered, HeightsOk, AheadIsAbove;
      StepKeepsAhead(cfg, ws[|actions| - 1], Last(actions), Last(ws));
    }
  }

  lemma FreshIsAhead(cfg: Config, w: World)
    requires Init(w)
    ensures AheadIsAbove(cfg, w)
  {
    hide FirstFrom;
  }

  /** Over every run with complete answers, torn queries or not: everything from the base on below the stored
      number is finalized if and only if nothing is queued, or the queue head's block is at least the
      number. */
  lemma CompleteRunsSafeExactlyWhen(cfg: Config, ws: seq<World>, actions: seq<Action>)
    requires IsRun(cfg, ws, actions) && !Last(ws).partial
    ensures var w := Last(ws);
            Safe(cfg, w)
            <==> w.now.queue == [] || (HeadPosition(w) < |w.chain| && w.now.number <= HeadTx(w).block)
  {
    hide *;
    RunNotEmpty(cfg, ws, actions);
    RunsKeepBasic(cfg, ws, actions);
    RunsStayOrdered(cfg, ws, actions);
    CompleteRunsOverlookNothing(cfg, ws, actions);
    CompleteRunsStayAhead(cfg, ws, actions);
    SafeWhenHeadReached(cfg, Last(ws));
  }

  lemma SafeWhenHeadReached(cfg: Config, w: World)
    requires Basic(w) && Ordered(cfg, w) && w.overlooked == w.unlisted == {} && AheadIsAbove(cfg, w)
    ensures Safe(cfg, w)
            <==> w.now.queue == [] || (HeadPosition(w) < |w.chain| && w.now.number <= HeadTx(w).block)
  {
    hide Basic, Ordered, Safe, FirstFrom, PointsOk, Base, Contiguous, IndexOf;
    BasicChain(w);
    NoPointIsZero(w);
    RunAt(cfg, w);
    if w.now.queue != [] {
      HeadFollowsFinalized(cfg, w);
      HeadPoint(cfg, w);
    }
    SafeInPositions(cfg, w);
  }

  /** A poll with a complete answer and nothing new leaves everything below the number it records finalized if
      and only if nothing is queued, or the queue head's block is at least the height it read. */
  lemma EmptyNewsSafeExactlyWhen(cfg: Config, ws: seq<World>, actions: seq<Action>)
    requires IsRun(cfg, ws, actions) && actions != [] && !Last(ws).partial
    requires var w, a := ws[|actions| - 1], Last(actions);
             a.Query? && a.c == 1 && a.m <= |w.chain| && NewsOf(w.now, ListedAt(w, a.m, a.hidden, a.refused)) == []
    ensures var w := ws[|actions| - 1];
            Safe(cfg, Last(ws))
            <==> w.now.queue == [] || (HeadPosition(w) < |w.chain| && w.report.Some?
                                       && w.report.value.height <= HeadTx(w).block)
  {
    RunPrefix(cfg, ws, actions);
    CompleteRunsSafeExactlyWhen(cfg, ws, actions);
    RunsKeepBasic(cfg, ws[..|actions|], actions[..|actions| - 1]);
    hide IsRun, Basic, Safe, CanQuery, AfterQuery, ListedAt, NewsOf, BatchOf, IndexOf;
    var Query(m, hidden, refused, c) := Last(actions);
    var w := ws[|actions| - 1];
    CanQueryBounds(w, m, hidden, refused, c);
    BasicChain(w);
    QueryEffect(cfg, w, m, hidden, refused, c);
  }

  lemma NothingMovedPast(w: World, to: int, listed: seq<TxPoint>)
    requires to == CursorOf(w)
    ensures MovedPast(w, to, listed) == {}
  {
    hide IndexOf;
  }

  /** Nothing new in a complete answer: the handled run reaches to the end of what was answered. */
  lemma NothingOwed(cfg: Config, w: World, m: nat)
    requires Base(cfg, w) <= |w.chain| && m <= |w.chain|
    requires w.now.queried != NO_POINT || End(w.now, 0) > 0 ==> End(w.now, Base(cfg, w)) <= m
    requires [] == (if w.now.queried == NO_POINT then FrontOf(Points(w.chain), Base(cfg, w), m) else [])
                   + RestOf(Points(w.chain), End(w.now, Base(cfg, w)), m)
    ensures m <= End(w.now, Base(cfg, w))
    ensures w.now.queried == NO_POINT && End(w.now, 0) == 0 ==> m == 0
  {
    hide Base;
  }

  lemma RunAt(cfg: Config, w: World)
    requires Ordered(cfg, w)
    ensures Contiguous(Points(w.chain), w.now, Base(cfg, w))
  {
    hide FirstFrom, IndexOf;
  }

  lemma SafeInPositions(cfg: Config, w: World)
    requires ChainOk(w.chain) && Contiguous(Points(w.chain), w.now, Base(cfg, w))
    requires BlocksFrom(w.chain, End(w.now, Base(cfg, w)), w.now.number) && w.overlooked == w.unlisted == {}
    ensures Safe(cfg, w)
            <==> w.now.queue == [] || w.now.number <= w.chain[Base(cfg, w) + |w.now.finalized|].block
  {
    var points, b, f := Points(w.chain), Base(cfg, w), |w.now.finalized|;
    assert b + f + |w.now.queue| <= |w.chain|;
    hide Base, IndexOf, Contiguous, BlocksFrom;
    if w.now.queue != [] {
      QueueHeadNotFinalized(points, w.now, b);
      assert Safe(cfg, w) ==> SafeAt(w, b + f);
    }
    if w.now.queue == [] || w.now.number <= w.chain[b + f].block {
      forall i: nat | b <= i < |w.chain|
        ensures SafeAt(w, i)
      {
        SafeFromFront(w, b, i);
      }
    }
  }

  /** Blocks never go back, so when the queue's head does not lie below the number nothing after it does. */
  lemma SafeFromFront(w: World, b: nat, i: nat)
    requires ChainOk(w.chain) && Contiguous(Points(w.chain), w.now, b) && b <= i < |w.chain|
    requires BlocksFrom(w.chain, End(w.now, b), w.now.number)
    requires w.now.queue == [] || w.now.number <= w.chain[b + |w.now.finalized|].block
    ensures SafeAt(w, i)
  {
    if i < b + |w.now.finalized| {
      assert w.now.finalized[i - b] == Points(w.chain)[i];
    }
  }

  lemma QueueHeadNotFinalized(points: seq<TxPoint>, s: Snapshot, b: nat)
    requires PointsOk(points) && Contiguous(points, s, b) && s.queue != []
    ensures points[b + |s.finalized|] == s.queue[0] && s.queue[0] !in s.finalized
  {
    forall i | 0 <= i < |s.finalized|
      ensures s.finalized[i] != s.queue[0]
    {
      assert points[b + i].sig != points[b + |s.finalized|].sig;
    }
  }
}
