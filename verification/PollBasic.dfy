/** The invariant every run keeps: all points come from the chain, the queue never repeats a
    transaction, and the dispatcher's cursor test tells what the queue holds. */
module PollBasic {
  import opened Sequences
  import opened Bytes
  import opened Records
  import opened Events
  import opened Chain
  import opened Polling
  import opened PollMachine

  // ---- listings ----

  lemma {:induction false} FilterKeepsOrder(points: seq<TxPoint>, keep: TxPoint -> bool)
    requires PointsOk(points)
    ensures PointsOk(Filter(points, keep))
  {
    hide PointsOk;
    if points == [] {
      PrefixPointsOk(points, 0);
    } else {
      var front := points[..|points| - 1];
      PrefixPointsOk(points, |points| - 1);
      FilterKeepsOrder(front, keep);
      var kept := Filter(front, keep);
      forall p | p in kept
        ensures p in front
      {
        FilterMember(front, keep, p);
      }
      assert points == front + [Last(points)] && kept + [] == kept;
      OrderSnoc(front, kept, Last(points));
    }
  }

  lemma OrderSnoc(front: seq<TxPoint>, kept: seq<TxPoint>, last: TxPoint)
    requires PointsOk(front + [last]) && PointsOk(kept)
    requires forall p :: p in kept ==> p in front
    ensures PointsOk(kept + [last])
  {
    forall i | 0 <= i < |kept|
      ensures kept[i].sig != last.sig && kept[i].slot <= last.slot
    {
      assert kept[i] in front;
      var j :| 0 <= j < |front| && front[j] == kept[i];
      assert (front + [last])[j] == kept[i] && (front + [last])[|front|] == last;
    }
    assert last == (front + [last])[|front|];
  }

  /** A listing is part of the history, in chain order. */
  lemma ListingFacts(points: seq<TxPoint>, hidden: set<Signature>, q: TxPoint, refused: bool)
    requires PointsOk(points)
    ensures var listed := Listed(Visible(points, hidden), q, refused);
            PointsOk(listed) && forall p :: p in listed ==> p in points
  {
    hide Filter, PointsOk, IndexOf;
    var visible := Visible(points, hidden);
    FilteredFacts(points, NotHidden(hidden));
    if refused {
      FilteredFacts(visible, SlotFrom(q.slot));
    } else if q.sig != ZERO_SIGNATURE {
      hide Visible;
      var at := IndexOf(visible, q.sig);
      SuffixKeepsOrder(visible, if at < |visible| then at + 1 else |visible|);
    }
  }

  lemma FilteredFacts(points: seq<TxPoint>, keep: TxPoint -> bool)
    requires PointsOk(points)
    ensures PointsOk(Filter(points, keep)) && forall p :: p in Filter(points, keep) ==> p in points
  {
    hide Filter, PointsOk;
    FilterKeepsOrder(points, keep);
    forall p | p in Filter(points, keep)
      ensures p in points
    {
      FilterMember(points, keep, p);
    }
  }

  lemma SuffixKeepsOrder(points: seq<TxPoint>, k: nat)
    requires PointsOk(points) && k <= |points|
    ensures PointsOk(points[k..])
    ensures k == |points| ==> points[k..] == []
    ensures forall p :: p in points[k..] ==> p in points
  {
  }

  /** The news of a listing are its unknown points, and the batch those the start filter accepts. */
  lemma BatchFacts(s: Snapshot, start: u64, listed: seq<TxPoint>)
    requires PointsOk(listed)
    ensures PointsOk(NewsOf(s, listed)) && PointsOk(BatchOf(s, start, listed))
    ensures forall p :: p in NewsOf(s, listed) <==> p in listed && !Known(s, p.sig)
    ensures forall p :: p in BatchOf(s, start, listed)
                        <==> p in NewsOf(s, listed) && FromStart(s.queried, start)(p)
    ensures Filter(BatchOf(s, start, listed), NonZero()) == BatchOf(s, start, listed)
  {
    var news, batch := NewsOf(s, listed), BatchOf(s, start, listed);
    FilterKeepsOrder(listed, Unknown(s));
    FilterKeepsOrder(news, FromStart(s.queried, start));
    forall p
      ensures p in news <==> p in listed && !Known(s, p.sig)
      ensures p in batch <==> p in news && FromStart(s.queried, start)(p)
    {
      FilterMember(listed, Unknown(s), p);
      FilterMember(news, FromStart(s.queried, start), p);
    }
    FilterAll(batch, NonZero());
  }

  // ---- the invariant ----

  ghost predicate FinalizedSig(s: Snapshot, sig: Signature) {
    exists p :: p in s.finalized && p.sig == sig
  }

  /** Everything recorded is a point of the chain. */
  ghost predicate FromChain(points: seq<TxPoint>, s: Snapshot) {
    && (forall p :: p in s.queue ==> p in points)
    && (forall p :: p in s.finalized ==> p in points)
    && (s.queried == NO_POINT || s.queried in points)
    && (s.processed == NO_POINT || s.processed in points)
    && (forall e :: e in s.stored ==> TxPoint(e.sig, e.slot) in points)
  }

  /** No signature is queued twice, and the last processed one is not queued. */
  ghost predicate QueueOk(s: Snapshot) {
    && (forall i, j :: 0 <= i < j < |s.queue| ==> s.queue[i].sig != s.queue[j].sig)
    && !Queued(s, s.processed.sig)
  }

  /** Stored events belong to finalized transactions, or to the one at the head. */
  ghost predicate StoredOk(s: Snapshot) {
    forall e :: e in s.stored ==> FinalizedSig(s, e.sig) || (s.queue != [] && s.queue[0].sig == e.sig)
  }

  /** The skip path was cut between its two writes: the cursors differ for good. */
  predicate Wedged(s: Snapshot) {
    s.queried == NO_POINT && s.processed != NO_POINT
  }

  ghost predicate DispatchOk(w: World) {
    var s := w.now;
    && (MustProcess(s) && !Wedged(s) ==> s.queue != [] && Last(s.queue) == s.queried)
    && (!w.torn && !MustProcess(s) ==> s.queue == [])
    && (!w.torn ==> !Wedged(s))
    && (s.queried == NO_POINT && s.processed == NO_POINT ==> s.finalized == [])
  }

  ghost predicate Basic(w: World) {
    && ChainOk(w.chain)
    && FromChain(Points(w.chain), w.now)
    && QueueOk(w.now)
    && StoredOk(w.now)
    && DispatchOk(w)
  }

  /** The three things a query can do to the durable state. */
  lemma QueryShape(s: Snapshot, start: u64, listed: seq<TxPoint>, height: u64, c: nat)
    requires PointsOk(listed)
    requires 0 < c <= QueryLength(s, listed)
    ensures var s' := QueryAt(s, start, listed, height, c);
            var news := NewsOf(s, listed);
            var batch := BatchOf(s, start, listed);
            if news == [] then
              s' == s.(number := height)
            else if batch == [] then
              && s.queried.sig == ZERO_SIGNATURE
              && s' == s.(processed := Last(news), queried := if c == 1 then s.queried else Last(news))
            else
              s' == s.(queue := s.queue + batch, queried := if c == 1 then s.queried else Last(batch))
  {
    BatchFacts(s, start, listed);
    var news, batch := NewsOf(s, listed), BatchOf(s, start, listed);
    if news != [] {
      assert Last(news) in news;
      assert s.queried.sig != ZERO_SIGNATURE ==> Last(news) in batch;
    }
  }

  /** A query that had an effect: what it listed, what it changed and what it left alone. */
  lemma QueryEffect(cfg: Config, w: World, m: nat, hidden: set<Signature>, refused: bool, c: nat)
    requires ChainOk(w.chain) && CanQuery(w, m, hidden, refused, c) && c > 0
    ensures var w' := AfterQuery(cfg, w, m, hidden, refused, c);
            var listed := ListedAt(w, m, hidden, refused);
            var news := NewsOf(w.now, listed);
            var batch := BatchOf(w.now, cfg.start, listed);
            && PointsOk(listed) && PointsOk(news) && PointsOk(batch)
            && (forall p :: p in listed ==> p in Points(w.chain)[..m])
            && w' == w.(now := w'.now, report := None, skip := w'.skip,
                        unlisted := w.unlisted + MovedPast(w, CursorOf(w'), listed),
                        overlooked := w'.overlooked,
                        torn := w'.torn, skipTorn := w'.skipTorn,
                        partial := w.partial || listed != FullHistory(w, m))
            && (news != [] ==> w'.overlooked == w.overlooked + MovedPast(w, CursorOf(w'), listed))
            && (if news == [] then
                  && w'.now == w.now.(number := w.report.value.height)
                  && w'.torn == w.torn && w'.skip == w.skip && w'.skipTorn == w.skipTorn
                  && w'.overlooked == w.overlooked + PassedBelow(w, m, listed, w.report.value.height)
                else if batch == [] then
                  w.now.queried.sig == ZERO_SIGNATURE && SkipTo(w, w', Last(news))
                else
                  PushOf(w, w', batch) && w'.skip == w.skip && w'.skipTorn == w.skipTorn)
  {
    hide Listed, Visible, NewsOf, BatchOf, QueryAt, FullHistory, PassedOver, PassedBelow, MovedPast, PointsOk, Known, IndexOf, Filter;
    var points, s := Points(w.chain), w.now;
    var listed := ListedAt(w, m, hidden, refused);
    PrefixPointsOk(points, m);
    ListingFacts(points[..m], hidden, s.queried, refused);
    QueryShape(s, cfg.start, listed, w.report.value.height, c);
    BatchFacts(s, cfg.start, listed);
    assert QueryLength(s, listed) == if NewsOf(s, listed) == [] then 1 else 2;
    hide ListedAt, QueryLength;
  }

  lemma PrefixPointsOk(points: seq<TxPoint>, m: nat)
    requires PointsOk(points) && m <= |points|
    ensures PointsOk(points[..m])
  {
  }

  lemma QueryDoes(cfg: Config, r: World, m: nat, hidden: set<Signature>, refused: bool, c: nat)
    requires CanQuery(r, m, hidden, refused, c) && c > 0
    ensures var w', listed := AfterQuery(cfg, r, m, hidden, refused, c), ListedAt(r, m, hidden, refused);
            && w'.chain == r.chain && w'.height == r.height && w'.report == None
            && w'.now == QueryAt(r.now, cfg.start, listed, r.report.value.height, c)
            && w'.torn == (r.torn || c < QueryLength(r.now, listed))
            && w'.partial == (r.partial || listed != FullHistory(r, m))
  {
    hide QueryAt, QueryLength, FullHistory, ListedAt, NewsOf, BatchOf, PassedBelow, MovedPast, IndexOf, Cursor;
  }

  lemma ListedIsOk(w: World, m: nat, hidden: set<Signature>, refused: bool)
    requires ChainOk(w.chain) && m <= |w.chain|
    ensures PointsOk(ListedAt(w, m, hidden, refused))
  {
    hide PointsOk, Listed, Visible;
    PointsAreOk(w.chain);
    PrefixPointsOk(Points(w.chain), m);
    ListingFacts(Points(w.chain)[..m], hidden, w.now.queried, refused);
  }

  lemma PointsAreOk(chain: seq<Tx>)
    requires ChainOk(chain)
    ensures PointsOk(Points(chain))
  {
  }

  lemma NoEffect(cfg: Config, w: World, m: nat, hidden: set<Signature>, refused: bool)
    requires CanQuery(w, m, hidden, refused, 0)
    ensures AfterQuery(cfg, w, m, hidden, refused, 0) == w.(report := None)
  {
  }

  lemma CanQueryBounds(w: World, m: nat, hidden: set<Signature>, refused: bool, c: nat)
    requires CanQuery(w, m, hidden, refused, c)
    ensures w.report.Some? && w.report.value.length <= m <= |w.chain| && !MustProcess(w.now)
  {
  }

  /** The two effects of skipping to `p`: last processed, then last queried. */
  ghost predicate SkipTo(w: World, w': World, p: TxPoint) {
    && w'.now == w.now.(processed := p, queried := w'.now.queried)
    && if w'.now.queried == w.now.queried then w'.torn && w'.skipTorn && w'.skip == w.skip
       else && w'.now.queried == p && w'.torn == w.torn && w'.skipTorn == w.skipTorn
            && w'.skip == Some(IndexOf(Points(w.chain), p.sig))
  }

  /** The two effects of queueing a batch: the push, then the new cursor. */
  ghost predicate PushOf(w: World, w': World, batch: seq<TxPoint>) {
    && batch != []
    && w'.now == w.now.(queue := w.now.queue + batch, queried := w'.now.queried)
    && ((w'.now.queried == w.now.queried && w'.torn)
        || (w'.now.queried == Last(batch) && w'.torn == w.torn))
  }

  lemma QueryKeepsBasic(cfg: Config, w: World, m: nat, hidden: set<Signature>, refused: bool, c: nat)
    requires Basic(w) && CanQuery(w, m, hidden, refused, c)
    ensures Basic(AfterQuery(cfg, w, m, hidden, refused, c))
  {
    if c > 0 {
      var listed := ListedAt(w, m, hidden, refused);
      QueryEffect(cfg, w, m, hidden, refused, c);
      BatchFacts(w.now, cfg.start, listed);
      var news, batch := NewsOf(w.now, listed), BatchOf(w.now, cfg.start, listed);
      var w' := AfterQuery(cfg, w, m, hidden, refused, c);
      hide NewsOf, BatchOf, QueryAt, AfterQuery, ListedAt, QueryLength, FullHistory, PassedOver;
      if news == [] {
        NumberKeepsBasic(w, w');
      } else if batch == [] {
        assert Last(news) in news;
        SkipKeepsBasic(w, w', Last(news));
      } else {
        PushKeepsBasic(w, w', batch);
      }
    }
  }

  lemma NumberKeepsBasic(w: World, w': World)
    requires Basic(w) && w'.chain == w.chain
    requires w'.now == w.now.(number := w'.now.number) && w'.torn == w.torn
    ensures Basic(w')
  {
    assert forall sig :: FinalizedSig(w.now, sig) ==> FinalizedSig(w'.now, sig);
    assert Queued(w'.now, w.now.processed.sig) ==> Queued(w.now, w.now.processed.sig);
  }

  lemma SkipKeepsBasic(w: World, w': World, p: TxPoint)
    requires Basic(w) && w'.chain == w.chain
    requires !MustProcess(w.now) && w.now.queried.sig == ZERO_SIGNATURE
    requires p in Points(w.chain) && !Known(w.now, p.sig)
    requires SkipTo(w, w', p)
    ensures Basic(w')
  {
    assert p.sig != ZERO_SIGNATURE;
    assert forall sig :: FinalizedSig(w.now, sig) ==> FinalizedSig(w'.now, sig);
    assert Queued(w'.now, p.sig) ==> Queued(w.now, p.sig);
  }

  lemma PushKeepsBasic(w: World, w': World, batch: seq<TxPoint>)
    requires Basic(w) && w'.chain == w.chain && !MustProcess(w.now)
    requires PointsOk(batch)
    requires forall p :: p in batch ==> p in Points(w.chain) && !Known(w.now, p.sig)
    requires PushOf(w, w', batch)
    ensures Basic(w')
  {
    PushKeepsQueueOk(w.now, w'.now, batch);
    assert Last(batch) in batch;
    assert Last(w'.now.queue) == Last(batch);
  }

  lemma PushKeepsDistinct(s: Snapshot, batch: seq<TxPoint>)
    requires QueueOk(s) && PointsOk(batch)
    requires forall p :: p in batch ==> !Known(s, p.sig)
    ensures var queue := s.queue + batch;
            forall i, j :: 0 <= i < j < |queue| ==> queue[i].sig != queue[j].sig
  {
    var queue := s.queue + batch;
    forall i, j | 0 <= i < j < |queue|
      ensures queue[i].sig != queue[j].sig
    {
      if i < |s.queue| <= j {
        assert s.queue[i] in s.queue && batch[j - |s.queue|] in batch;
      } else if |s.queue| <= i {
        assert queue[i] == batch[i - |s.queue|] && queue[j] == batch[j - |s.queue|];
      }
    }
  }

  lemma PushKeepsQueueOk(s: Snapshot, s': Snapshot, batch: seq<TxPoint>)
    requires QueueOk(s) && StoredOk(s)
    requires PointsOk(batch)
    requires forall p :: p in batch ==> !Known(s, p.sig)
    requires s'.queue == s.queue + batch && s'.processed == s.processed
    requires s'.stored == s.stored && s'.finalized == s.finalized
    ensures QueueOk(s') && StoredOk(s')
  {
    PushKeepsDistinct(s, batch);
    PushNotProcessed(s, batch);
    PushKeepsStored(s, s');
    hide PointsOk, Known, StoredOk;
  }

  lemma PushNotProcessed(s: Snapshot, batch: seq<TxPoint>)
    requires QueueOk(s) && PointsOk(batch)
    requires forall p :: p in batch ==> !Known(s, p.sig)
    ensures forall p :: p in s.queue + batch ==> p.sig != s.processed.sig
  {
    forall p | p in s.queue
      ensures p.sig != s.processed.sig
    {
      assert !Queued(s, s.processed.sig);
    }
    forall p | p in batch
      ensures p.sig != s.processed.sig
    {
      assert p.sig != ZERO_SIGNATURE && !Known(s, p.sig);
    }
  }

  lemma PushKeepsStored(s: Snapshot, s': Snapshot)
    requires StoredOk(s) && s'.stored == s.stored && s'.finalized == s.finalized && s.queue <= s'.queue
    ensures StoredOk(s')
  {
    forall e | e in s.stored
      ensures FinalizedSig(s', e.sig) || (s'.queue != [] && s'.queue[0].sig == e.sig)
    {
      assert FinalizedSig(s, e.sig) ==> FinalizedSig(s', e.sig);
    }
  }

  /** Events stored so far by an attempt are accepted events of the head. */
  lemma AttemptEvents(s: Snapshot, block: u64, outcome: Outcome, c: nat)
    requires s.queue != [] && c <= ProcessLength(s, block, outcome)
    ensures var s' := ProcessAt(s, block, outcome, c);
            && (forall e :: e in s'.stored ==>
                  e in s.stored || (e.sig == s.queue[0].sig && e.slot == s.queue[0].slot && e.block == block))
            && s'.queried == s.queried
            && (c < ProcessLength(s, block, outcome) ==>
                  s'.queue == s.queue && s'.processed == s.processed && s'.finalized == s.finalized)
            && (c == ProcessLength(s, block, outcome) ==>
                  && s'.queue == s.queue[1..]
                  && s'.processed == s.queue[0]
                  && s'.finalized == s.finalized + [s.queue[0]])
  {
  }

  /** What is stored newly belongs to the queue head. */
  ghost predicate StoresHead(s: Snapshot, s': Snapshot)
    requires s.queue != []
  {
    forall e :: e in s'.stored ==> e in s.stored || (e.sig == s.queue[0].sig && e.slot == s.queue[0].slot)
  }

  lemma ProcessKeepsBasic(cfg: Config, w: World, c: nat)
    requires Basic(w) && CanProcess(cfg, w, c)
    ensures Basic(AfterProcess(cfg, w, c))
  {
    hide Basic, ProcessAt, ProcessLength, OutcomeOf, IndexOf;
    AttemptEvents(w.now, HeadTx(w).block, OutcomeOf(cfg.decoding, HeadTx(w).content), c);
    if c < ProcessLength(w.now, HeadTx(w).block, OutcomeOf(cfg.decoding, HeadTx(w).content)) {
      AttemptKeepsBasic(w, AfterProcess(cfg, w, c));
    } else {
      PopKeepsBasic(w, AfterProcess(cfg, w, c));
    }
  }

  lemma AttemptKeepsBasic(w: World, w': World)
    requires Basic(w) && w.now.queue != [] && StoresHead(w.now, w'.now)
    requires w'.chain == w.chain && w'.torn == w.torn
    requires w'.now.queue == w.now.queue && w'.now.finalized == w.now.finalized
    requires w'.now.processed == w.now.processed && w'.now.queried == w.now.queried
    ensures Basic(w')
  {
    hide PointsOk;
    assert w.now.queue[0] in w.now.queue;
    assert forall sig :: FinalizedSig(w.now, sig) ==> FinalizedSig(w'.now, sig);
    assert forall sig :: Queued(w'.now, sig) ==> Queued(w.now, sig);
  }

  lemma PopKeepsBasic(w: World, w': World)
    requires Basic(w) && w.now.queue != [] && StoresHead(w.now, w'.now) && MustProcess(w.now)
    requires w'.chain == w.chain && w'.torn == w.torn
    requires w'.now.queue == w.now.queue[1..] && w'.now.finalized == w.now.finalized + [w.now.queue[0]]
    requires w'.now.processed == w.now.queue[0] && w'.now.queried == w.now.queried
    ensures Basic(w')
  {
    hide PointsOk;
    FinalizeKeepsBasic(w.now, w'.now);
    assert w.now.queue[0] in w.now.queue;
    hide QueueOk, StoredOk;
    assert DispatchOk(w') by {
      HeadIsNoPoint(w);
      hide FromChain;
    }
  }

  lemma HeadIsNoPoint(w: World)
    requires Basic(w) && w.now.queue != []
    ensures w.now.queue[0] != NO_POINT
  {
    assert w.now.queue[0] in w.now.queue;
  }

  lemma FinalizeKeepsBasic(s: Snapshot, s': Snapshot)
    requires s.queue != [] && QueueOk(s) && StoredOk(s)
    requires s'.queue == s.queue[1..] && s'.processed == s.queue[0]
    requires s'.finalized == s.finalized + [s.queue[0]]
    requires forall e :: e in s'.stored ==> e in s.stored || e.sig == s.queue[0].sig
    ensures QueueOk(s') && StoredOk(s')
    ensures forall p :: p in s'.queue ==> p in s.queue
  {
    forall p | p in s'.queue
      ensures p in s.queue && p.sig != s.queue[0].sig
    {
      var i :| 0 <= i < |s'.queue| && s'.queue[i] == p;
      assert s.queue[i + 1] == p;
    }
    assert s.queue[0] in s'.finalized;
    forall e | e in s'.stored
      ensures FinalizedSig(s', e.sig)
    {
      if e.sig != s.queue[0].sig {
        var p :| p in s.finalized && p.sig == e.sig;
        assert p in s'.finalized;
      }
    }
  }

  lemma GrowKeepsBasic(w: World, txs: seq<Tx>, newHeight: u64)
    requires Basic(w) && CanGrow(w, txs, newHeight)
    ensures Basic(w.(chain := w.chain + txs, height := newHeight))
  {
    var points, points' := Points(w.chain), Points(w.chain + txs);
    assert points <= points';
    assert forall p :: p in points ==> p in points';
  }

  lemma StepKeepsBasic(cfg: Config, w: World, a: Action, w': World)
    requires Basic(w) && Step(cfg, w, a, w')
    ensures Basic(w')
  {
    match a
    case Grow(txs, newHeight) => GrowKeepsBasic(w, txs, newHeight);
    case ReadHeight =>
    case Query(m, hidden, refused, c) => QueryKeepsBasic(cfg, w, m, hidden, refused, c);
    case Process(c) => ProcessKeepsBasic(cfg, w, c);
    case Crash =>
  }

  lemma {:induction false} RunsKeepBasic(cfg: Config, ws: seq<World>, actions: seq<Action>)
    requires IsRun(cfg, ws, actions)
    ensures Basic(Last(ws))
  {
    if actions != [] {
      RunPrefix(cfg, ws, actions);
      RunsKeepBasic(cfg, ws[..|actions|], actions[..|actions| - 1]);
      StepKeepsBasic(cfg, ws[|actions| - 1], Last(actions), Last(ws));
    }
  }

  lemma ReachedIsBasic(cfg: Config, w: World)
    requires Reached(cfg, w)
    ensures Basic(w)
  {
    var ws: seq<World>, actions: seq<Action> :| IsRun(cfg, ws, actions) && Last(ws) == w;
    RunsKeepBasic(cfg, ws, actions);
  }
}
