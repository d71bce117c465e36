/** Delivery guarantees of every run: at-least-once, and which transactions a refused cursor can bring
    back. */
module PollDelivery {
  import opened Sequences
  import opened Bytes
  import opened Records
  import opened Events
  import opened Chain
  import opened Polling
  import opened PollMachine
  import opened PollBasic
  import opened PollOrder
  import PollLoss

  // ---- at least once ----

  /** `e` is an accepted event of the chain transaction with its signature. */
  ghost predicate Genuine(cfg: Config, w: World, e: Event) {
    var i := IndexOf(Points(w.chain), e.sig);
    i < |w.chain| && e in EventsAt(cfg, w, i)
  }

  ghost predicate AllStored(cfg: Config, w: World, p: TxPoint) {
    var i := IndexOf(Points(w.chain), p.sig);
    i < |w.chain| && forall e :: e in EventsAt(cfg, w, i) ==> e in w.now.stored
  }

  /** Finalized transactions have all their events stored; only accepted events are stored or
      delivered; and no event was stored more often than delivered. */
  ghost predicate AtLeastOnce(cfg: Config, w: World) {
    && (forall p :: p in w.now.finalized ==> AllStored(cfg, w, p))
    && (forall e :: e in w.now.delivered ==> Genuine(cfg, w, e))
    && multiset(w.now.stored) <= multiset(w.now.delivered)
  }

  /** An attempt works through exactly the accepted events of the head, which is never a repeat of the
      last processed transaction. */
  lemma HeadEventsAreAccepted(cfg: Config, w: World)
    requires Basic(w) && w.now.queue != []
    ensures HeadPosition(w) < |w.chain|
    ensures Points(w.chain)[HeadPosition(w)] == w.now.queue[0] != NO_POINT
    ensures w.now.queue[0].sig != w.now.processed.sig
    ensures HeadEvents(w.now, HeadTx(w).block, OutcomeOf(cfg.decoding, HeadTx(w).content))
            == EventsAt(cfg, w, HeadPosition(w))
  {
    var head := w.now.queue[0];
    assert head in w.now.queue;
    var i :| 0 <= i < |w.chain| && Points(w.chain)[i] == head;
    IndexOfAt(Points(w.chain), i);
  }

  /** What is known of one event or transaction survives growth. */
  lemma GrowKeepsGenuine(cfg: Config, w: World, w': World, sig: Signature)
    requires ChainOk(w.chain) && ChainOk(w'.chain) && w.chain <= w'.chain
    requires IndexOf(Points(w.chain), sig) < |w.chain|
    ensures IndexOf(Points(w'.chain), sig) == IndexOf(Points(w.chain), sig)
  {
    var i := IndexOf(Points(w.chain), sig);
    assert Points(w'.chain)[i] == Points(w.chain)[i];
    IndexOfAt(Points(w'.chain), i);
  }

  lemma GrowKeepsAtLeastOnce(cfg: Config, w: World, w': World)
    requires ChainOk(w.chain) && ChainOk(w'.chain) && w.chain <= w'.chain && w'.now == w.now
    requires AtLeastOnce(cfg, w)
    ensures AtLeastOnce(cfg, w')
  {
    hide IndexOf, PointsOk, OutcomeOf;
    forall p | p in w.now.finalized
      ensures AllStored(cfg, w', p)
    {
      assert AllStored(cfg, w, p);
      GrowKeepsGenuine(cfg, w, w', p.sig);
    }
    forall e | e in w.now.delivered
      ensures Genuine(cfg, w', e)
    {
      assert Genuine(cfg, w, e);
      GrowKeepsGenuine(cfg, w, w', e.sig);
    }
  }

  lemma SameEffectsKeepAtLeastOnce(cfg: Config, w: World, w': World)
    requires AtLeastOnce(cfg, w) && w'.chain == w.chain
    requires w'.now.finalized == w.now.finalized && w'.now.stored == w.now.stored
    requires w'.now.delivered == w.now.delivered
    ensures AtLeastOnce(cfg, w')
  {
    hide IndexOf, OutcomeOf;
    assert forall p :: AllStored(cfg, w, p) ==> AllStored(cfg, w', p);
    assert forall e :: Genuine(cfg, w, e) ==> Genuine(cfg, w', e);
  }

  /** How many events an attempt has stored and delivered after c effects. */
  lemma AttemptProgress(s: Snapshot, block: u64, outcome: Outcome, c: nat)
    requires s.queue != [] && c <= ProcessLength(s, block, outcome)
    ensures var s' := ProcessAt(s, block, outcome, c);
            var es := HeadEvents(s, block, outcome);
            exists k: nat, d: nat ::
              && k <= d <= |es|
              && s'.stored == s.stored + es[..k] && s'.delivered == s.delivered + es[..d]
              && (c == ProcessLength(s, block, outcome) ==> k == d == |es|)
  {
    hide HeadEvents;
    var es := HeadEvents(s, block, outcome);
    if c <= 3 * |es| {
      assert c / 3 <= (c + 1) / 3 <= |es|;
      assert ProcessAt(s, block, outcome, c).stored == s.stored + es[..c / 3];
    } else {
      assert es[..|es|] == es;
      assert (3 * |es|) / 3 == |es| == (3 * |es| + 1) / 3;
    }
  }

  /** A whole attempt takes the head off the queue, with all its events. */
  lemma WholeAttempt(s: Snapshot, block: u64, outcome: Outcome)
    requires s.queue != []
    ensures var es := HeadEvents(s, block, outcome);
            ProcessAt(s, block, outcome, ProcessLength(s, block, outcome))
            == s.(number := if es == [] then s.number else block,
                  queue := s.queue[1..], processed := s.queue[0], finalized := s.finalized + [s.queue[0]],
                  stored := s.stored + es, delivered := s.delivered + es)
  {
    var es := HeadEvents(s, block, outcome);
    assert forall i :: 0 <= i < |es| ==> es[i].block == block;
    hide HeadEvents;
    assert es[..|es|] == es && (3 * |es|) / 3 == |es| == (3 * |es| + 1) / 3;
  }

  lemma PrefixMultiset(a: seq<Event>, b: seq<Event>, es: seq<Event>, k: nat, d: nat)
    requires multiset(a) <= multiset(b) && k <= d <= |es|
    ensures multiset(a + es[..k]) <= multiset(b + es[..d])
  {
    assert es[..d] == es[..k] + es[k..d];
  }

  /** Appending the head's events, first delivered and then stored, and finalizing only at the end. */
  lemma AppendKeepsAtLeastOnce(cfg: Config, w: World, w': World, i: nat, k: nat, d: nat)
    requires PointsOk(Points(w.chain)) && AtLeastOnce(cfg, w) && w'.chain == w.chain && i < |w.chain|
    requires k <= d <= |EventsAt(cfg, w, i)|
    requires w'.now.stored == w.now.stored + EventsAt(cfg, w, i)[..k]
    requires w'.now.delivered == w.now.delivered + EventsAt(cfg, w, i)[..d]
    requires w'.now.finalized == w.now.finalized
             || (k == |EventsAt(cfg, w, i)| && w'.now.finalized == w.now.finalized + [Points(w.chain)[i]])
    ensures AtLeastOnce(cfg, w')
  {
    hide IndexOf, OutcomeOf;
    var es, p := EventsAt(cfg, w, i), Points(w.chain)[i];
    IndexOfAt(Points(w.chain), i);
    PrefixMultiset(w.now.stored, w.now.delivered, es, k, d);
    forall e | e in es
      ensures Genuine(cfg, w', e)
    {
      EventsCarrySignature(cfg, w, i, e);
    }
    forall e | e in w.now.delivered
      ensures Genuine(cfg, w', e)
    {
      assert Genuine(cfg, w, e);
    }
    forall q | q in w.now.finalized
      ensures AllStored(cfg, w', q)
    {
      assert AllStored(cfg, w, q);
    }
    assert k == |es| ==> es[..k] == es && AllStored(cfg, w', p);
  }

  lemma ProcessKeepsAtLeastOnce(cfg: Config, w: World, c: nat)
    requires Basic(w) && AtLeastOnce(cfg, w) && CanProcess(cfg, w, c)
    ensures AtLeastOnce(cfg, AfterProcess(cfg, w, c))
  {
    hide Basic, IndexOf, OutcomeOf, AtLeastOnce;
    var s, w' := w.now, AfterProcess(cfg, w, c);
    var block, outcome := HeadTx(w).block, OutcomeOf(cfg.decoding, HeadTx(w).content);
    HeadEventsAreAccepted(cfg, w);
    AttemptEvents(s, block, outcome, c);
    AttemptProgress(s, block, outcome, c);
    PollLoss.NoPointIsZero(w);
    var es := EventsAt(cfg, w, HeadPosition(w));
    hide ProcessAt, HeadEvents, EventsAt, PointsOk;
    var k: nat, d: nat :|
      && k <= d <= |es|
      && w'.now.stored == s.stored + es[..k] && w'.now.delivered == s.delivered + es[..d]
      && (c == ProcessLength(s, block, outcome) ==> k == d == |es|);
    AppendKeepsAtLeastOnce(cfg, w, w', HeadPosition(w), k, d);
  }

  lemma EventsCarrySignature(cfg: Config, w: World, i: nat, e: Event)
    requires i < |w.chain| && e in EventsAt(cfg, w, i)
    ensures e.sig == Points(w.chain)[i].sig && e.slot == Points(w.chain)[i].slot && e.block == w.chain[i].block
  {
  }

  lemma StepKeepsAtLeastOnce(cfg: Config, w: World, a: Action, w': World)
    requires Basic(w) && AtLeastOnce(cfg, w) && Step(cfg, w, a, w')
    ensures AtLeastOnce(cfg, w')
  {
    hide Basic, AtLeastOnce, AfterQuery, CanQuery, AfterProcess, CanProcess, CanGrow;
    BasicChain(w);
    match a
    case Grow(txs, newHeight) =>
      GrowsOk(w, txs, newHeight);
      GrowKeepsAtLeastOnce(cfg, w, w');
    case ReadHeight => SameEffectsKeepAtLeastOnce(cfg, w, w');
    case Query(m, hidden, refused, c) =>
      QueryBase(cfg, w, m, hidden, refused, c);
      SameEffectsKeepAtLeastOnce(cfg, w, w');
    case Process(c) => ProcessKeepsAtLeastOnce(cfg, w, c);
    case Crash => SameEffectsKeepAtLeastOnce(cfg, w, w');
  }

  lemma GrowsOk(w: World, txs: seq<Tx>, newHeight: u64)
    requires CanGrow(w, txs, newHeight)
    ensures ChainOk(w.chain + txs)
  {
  }

  /** At-least-once delivery, over every run. */
  lemma {:induction false} RunsDeliverAtLeastOnce(cfg: Config, ws: seq<World>, actions: seq<Action>)
    requires IsRun(cfg, ws, actions)
    ensures AtLeastOnce(cfg, Last(ws))
  {
    if actions != [] {
      RunPrefix(cfg, ws, actions);
      RunsDeliverAtLeastOnce(cfg, ws[..|actions|], actions[..|actions| - 1]);
      RunsKeepBasic(cfg, ws[..|actions|], actions[..|actions| - 1]);
      hide Step, Basic, AtLeastOnce, IsRun;
      StepKeepsAtLeastOnce(cfg, ws[|actions| - 1], Last(actions), Last(ws));
    }
  }

  // ---- single steps ----

  /** In an ordered world the queue head lies right after the finalized positions. */
  lemma HeadFollowsFinalized(cfg: Config, w: World)
    requires Ordered(cfg, w) && PointsOk(Points(w.chain)) && w.now.queue != []
    ensures HeadPosition(w) == Base(cfg, w) + |w.now.finalized|
  {
    hide IndexOf, FirstFrom, PointsOk;
    var at := Base(cfg, w) + |w.now.finalized|;
    assert Points(w.chain)[at] == w.now.queue[0];
    IndexOfAt(Points(w.chain), at);
  }

  /** A query never touches what was stored, delivered or finalized, and keeps the base once something
      is finalized. */
  lemma QueryBase(cfg: Config, w: World, m: nat, hidden: set<Signature>, refused: bool, c: nat)
    requires Basic(w) && CanQuery(w, m, hidden, refused, c)
    ensures var w' := AfterQuery(cfg, w, m, hidden, refused, c);
            && w'.chain == w.chain && w'.now.finalized == w.now.finalized
            && w'.now.stored == w.now.stored && w'.now.delivered == w.now.delivered
            && (w.now.finalized != [] ==> Base(cfg, w') == Base(cfg, w))
  {
    hide AfterQuery, CanQuery, NewsOf, BatchOf, ListedAt, FullHistory, PassedOver;
    if c == 0 {
      NoEffect(cfg, w, m, hidden, refused);
    } else {
      assert ChainOk(w.chain) by { BasicChain(w); }
      QueryEffect(cfg, w, m, hidden, refused, c);
      CanQueryBounds(w, m, hidden, refused, c);
      QuietFacts(w);
    }
  }

  lemma HistoryOnlyGrows(cfg: Config, w: World, a: Action, w': World)
    requires Step(cfg, w, a, w')
    ensures w.faulted ==> w'.faulted
    ensures w.partial ==> w'.partial
    ensures w.torn ==> w'.torn
  {
    hide ListedAt, NewsOf, BatchOf, QueryAt, ProcessAt, PassedOver, OutcomeOf, FullHistory;
  }

  // ---- what a refused cursor can bring back ----

  ghost predicate StoredSig(s: Snapshot, sig: Signature) {
    exists e :: e in s.stored && e.sig == sig
  }

  /** No finalized or queued transaction lies beyond the cursor's slot, and a queued transaction that
      was finalized before has no stored event. */
  ghost predicate NoRequeue(s: Snapshot) {
    && (forall p :: p in s.queue || p in s.finalized ==> p.slot <= s.queried.slot)
    && (forall p :: p in s.queue && p in s.finalized ==> !StoredSig(s, p.sig))
  }

  /** Everything a query lists lies at or above the cursor's slot. */
  lemma ListedAboveCursor(w: World, m: nat, hidden: set<Signature>, refused: bool, c: nat, p: TxPoint)
    requires Basic(w) && CanQuery(w, m, hidden, refused, c)
    requires p in ListedAt(w, m, hidden, refused) && w.now.queried != NO_POINT
    ensures w.now.queried.slot <= p.slot
  {
    hide StoredOk, QueueOk, DispatchOk, Known, QueryLength;
    var points, q := Points(w.chain)[..m], w.now.queried;
    assert PointsOk(points) && q.sig != ZERO_SIGNATURE;
    if refused {
      FilterMember(Visible(points, hidden), SlotFrom(q.slot), p);
    } else {
      ListedAfter(Points(w.chain), m, hidden, q, p);
    }
  }

  lemma ListedAfter(points: seq<TxPoint>, m: nat, hidden: set<Signature>, q: TxPoint, p: TxPoint)
    requires PointsOk(points) && m <= |points| && q in points && q.sig != ZERO_SIGNATURE
    requires p in Listed(Visible(points[..m], hidden), q, false)
    ensures q.slot <= p.slot
  {
    hide IndexOf, Filter;
    var visible := Visible(points[..m], hidden);
    FilterKeepsOrder(points[..m], NotHidden(hidden));
    var at := IndexOf(visible, q.sig);
    var i :| 0 <= i < |visible[at + 1..]| && visible[at + 1..][i] == p;
    assert visible[at + 1 + i] == p && visible[at] in visible;
    FilterMember(points[..m], NotHidden(hidden), visible[at]);
    var x :| 0 <= x < |points| && points[x] == q;
    PollLoss.SameSignature(points, visible[at], x);
  }

  lemma PushKeepsNoRequeue(cfg: Config, w: World, w': World, batch: seq<TxPoint>)
    requires NoRequeue(w.now) && w.now.queue == []
    requires w.now.queried == NO_POINT ==> w.now.finalized == []
    requires PointsOk(batch) && forall p :: p in batch ==> !Known(w.now, p.sig)
    requires w.now.queried != NO_POINT ==> forall p :: p in batch ==> w.now.queried.slot <= p.slot
    requires PushOf(w, w', batch) && w'.now.queried == Last(batch)
    requires forall e, p :: e in w.now.stored && p in w.now.finalized && p.sig == e.sig ==> p.slot == e.slot
    ensures NoRequeue(w'.now)
  {
    var s, s' := w.now, w'.now;
    assert s'.queue == batch && s'.finalized == s.finalized && s'.stored == s.stored;
    forall p | p in batch && p in s.finalized
      ensures !StoredSig(s', p.sig)
    {
      NotStored(s, p);
    }
    hide Known, StoredSig;
    LastIsHighest(batch);
    forall p | p in s.finalized
      ensures p.slot <= Last(batch).slot
    {
      assert Last(batch) in batch;
    }
  }

  /** A transaction of the cursor's slot that is not known stored no event. */
  lemma NotStored(s: Snapshot, p: TxPoint)
    requires !Known(s, p.sig) && p.slot == s.queried.slot
    requires forall e :: e in s.stored && p.sig == e.sig ==> p.slot == e.slot
    ensures !StoredSig(s, p.sig)
  {
    hide Queued;
  }

  lemma LastIsHighest(points: seq<TxPoint>)
    requires PointsOk(points) && points != []
    ensures forall p :: p in points ==> p.slot <= Last(points).slot
  {
  }

  /** A stored event names the slot of the finalized transaction it belongs to. */
  lemma StoredSlots(w: World)
    requires Basic(w)
    ensures forall e, p :: e in w.now.stored && p in w.now.finalized && p.sig == e.sig ==> p.slot == e.slot
  {
    forall e, p | e in w.now.stored && p in w.now.finalized && p.sig == e.sig
      ensures p.slot == e.slot
    {
      assert TxPoint(e.sig, e.slot) in Points(w.chain) && p in Points(w.chain);
    }
  }

  lemma QueryKeepsNoRequeue(cfg: Config, w: World, m: nat, hidden: set<Signature>, refused: bool, c: nat)
    requires Basic(w) && NoRequeue(w.now) && CanQuery(w, m, hidden, refused, c)
    requires !AfterQuery(cfg, w, m, hidden, refused, c).torn
    ensures NoRequeue(AfterQuery(cfg, w, m, hidden, refused, c).now)
  {
    hide AfterQuery, CanQuery, NewsOf, BatchOf, ListedAt, FullHistory, PassedOver, Basic, Known, NoRequeue;
    var w' := AfterQuery(cfg, w, m, hidden, refused, c);
    if c == 0 {
      NoEffect(cfg, w, m, hidden, refused);
    } else {
      assert ChainOk(w.chain) by { BasicChain(w); }
      QueryEffect(cfg, w, m, hidden, refused, c);
      CanQueryBounds(w, m, hidden, refused, c);
      var listed := ListedAt(w, m, hidden, refused);
      var news, batch := NewsOf(w.now, listed), BatchOf(w.now, cfg.start, listed);
      BatchFacts(w.now, cfg.start, listed);
      QuietFacts(w);
      QuietQueue(w);
      if news == [] {
        NumberKeepsNoRequeue(w.now, w'.now);
      } else if batch == [] {
        SkipKeepsNoRequeue(w.now, w'.now);
      } else {
        forall p | p in batch && w.now.queried != NO_POINT
          ensures w.now.queried.slot <= p.slot
        {
          ListedAboveCursor(w, m, hidden, refused, c, p);
        }
        StoredSlots(w);
        PushKeepsNoRequeue(cfg, w, w', batch);
      }
    }
  }

  lemma QuietQueue(w: World)
    requires Basic(w) && !MustProcess(w.now)
    ensures !w.torn ==> w.now.queue == []
    ensures !w.torn ==> !Wedged(w.now)
  {
  }

  lemma NumberKeepsNoRequeue(s: Snapshot, s': Snapshot)
    requires NoRequeue(s) && s' == s.(number := s'.number)
    ensures NoRequeue(s')
  {
    assert forall sig :: StoredSig(s', sig) ==> StoredSig(s, sig);
  }

  lemma SkipKeepsNoRequeue(s: Snapshot, s': Snapshot)
    requires s.queue == [] && s.finalized == []
    requires s' == s.(processed := s'.processed, queried := s'.queried)
    ensures NoRequeue(s')
  {
  }

  lemma ProcessKeepsNoRequeue(cfg: Config, w: World, c: nat)
    requires Basic(w) && AtLeastOnce(cfg, w) && NoRequeue(w.now) && CanProcess(cfg, w, c)
    ensures NoRequeue(AfterProcess(cfg, w, c).now)
  {
    hide OutcomeOf, IndexOf, PointsOk, FromChain, StoredOk, DispatchOk;
    var s, s' := w.now, AfterProcess(cfg, w, c).now;
    var block, outcome := HeadTx(w).block, OutcomeOf(cfg.decoding, HeadTx(w).content);
    HeadEventsAreAccepted(cfg, w);
    AttemptEvents(s, block, outcome, c);
    AttemptProgress(s, block, outcome, c);
    var es, head := EventsAt(cfg, w, HeadPosition(w)), s.queue[0];
    hide ProcessAt, HeadEvents;
    if head in s.finalized {
      assert AllStored(cfg, w, head);
      forall e | e in es
        ensures StoredSig(s, head.sig)
      {
        EventsCarrySignature(cfg, w, HeadPosition(w), e);
      }
      assert head in s.queue;
      EmptyOrFirst(es);
      assert s'.stored == s.stored;
    }
    forall p | p in s'.queue || p in s'.finalized
      ensures p.slot <= s'.queried.slot
    {
      assert p in s.queue || p in s.finalized;
    }
    forall p | p in s'.queue && p in s'.finalized
      ensures !StoredSig(s', p.sig)
    {
      assert p in s.queue;
      if p == head {
        assert s'.queue == s.queue by { HeadStays(s, s', head); }
        assert p in s.finalized;
      } else {
        assert p in s.finalized;
        OtherSignature(s, p);
      }
    }
  }

  lemma EmptyOrFirst(es: seq<Event>)
    ensures es == [] || es[0] in es
  {
  }

  /** Queue entries other than the head have other signatures. */
  lemma OtherSignature(s: Snapshot, p: TxPoint)
    requires QueueOk(s) && s.queue != [] && p in s.queue && p != s.queue[0]
    ensures p.sig != s.queue[0].sig
  {
    var i :| 0 <= i < |s.queue| && s.queue[i] == p;
  }

  lemma HeadStays(s: Snapshot, s': Snapshot, head: TxPoint)
    requires QueueOk(s) && s.queue != [] && head == s.queue[0]
    requires s'.queue == s.queue || s'.queue == s.queue[1..]
    requires head in s'.queue
    ensures s'.queue == s.queue
  {
    forall i | 0 <= i < |s.queue[1..]|
      ensures s.queue[1..][i] != head
    {
      assert s.queue[0].sig != s.queue[i + 1].sig;
    }
  }

  lemma StepKeepsNoRequeue(cfg: Config, w: World, a: Action, w': World)
    requires Basic(w) && AtLeastOnce(cfg, w) && Step(cfg, w, a, w')
    requires NoRequeue(w.now) && !w'.torn
    ensures NoRequeue(w'.now)
  {
    hide Basic, AtLeastOnce, NoRequeue;
    match a
    case Grow(txs, newHeight) =>
    case ReadHeight =>
    case Query(m, hidden, refused, c) => QueryKeepsNoRequeue(cfg, w, m, hidden, refused, c);
    case Process(c) => ProcessKeepsNoRequeue(cfg, w, c);
    case Crash =>
  }

  lemma {:induction false} UntornRunsDoNotRequeue(cfg: Config, ws: seq<World>, actions: seq<Action>)
    requires IsRun(cfg, ws, actions) && !Last(ws).torn
    ensures NoRequeue(Last(ws).now)
  {
    if actions == [] {
      assert ws[0].now == EMPTY;
    } else {
      RunPrefix(cfg, ws, actions);
      var before := ws[..|actions|];
      HistoryOnlyGrows(cfg, ws[|actions| - 1], Last(actions), Last(ws));
      UntornRunsDoNotRequeue(cfg, before, actions[..|actions| - 1]);
      RunsKeepBasic(cfg, before, actions[..|actions| - 1]);
      RunsDeliverAtLeastOnce(cfg, before, actions[..|actions| - 1]);
      hide Step, Basic, IsRun, AtLeastOnce, NoRequeue;
      StepKeepsNoRequeue(cfg, ws[|actions| - 1], Last(actions), Last(ws));
    }
  }

  /** No finalized transaction that stored an event is ever queued again, in every run that does not
      combine a torn query with an incomplete answer. */
  lemma ProcessedEventsStayProcessed(cfg: Config, ws: seq<World>, actions: seq<Action>, p: TxPoint)
    requires IsRun(cfg, ws, actions)
    requires !Last(ws).torn || !Last(ws).partial
    requires p in Last(ws).now.finalized && StoredSig(Last(ws).now, p.sig)
    ensures p !in Last(ws).now.queue
  {
    var w := Last(ws);
    if !w.torn {
      UntornRunsDoNotRequeue(cfg, ws, actions);
    } else {
      RunsStayOrdered(cfg, ws, actions);
      RunsKeepBasic(cfg, ws, actions);
      var points, b := Points(w.chain), Base(cfg, w);
      assert PointsOk(points) && Contiguous(points, w.now, b);
      hide PointsOk, Basic, Ordered;
      FinalizedNotQueued(points, w.now, b, p);
    }
  }

  lemma FinalizedNotQueued(points: seq<TxPoint>, s: Snapshot, b: nat, p: TxPoint)
    requires PointsOk(points) && Contiguous(points, s, b) && p in s.finalized
    ensures p !in s.queue
  {
    var i :| 0 <= i < |s.finalized| && s.finalized[i] == p;
    assert points[b + i] == p;
    forall k | 0 <= k < |s.queue|
      ensures s.queue[k] != p
    {
      assert points[b + |s.finalized| + k] == s.queue[k];
    }
  }
}
