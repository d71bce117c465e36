/** Exactly-once delivery, refused cursors and hidden history included: when no attempt was cut, what was
    delivered is the events of the finalized transactions in the order they were finalized; and without a
    torn query a transaction finalized twice has none. */
module PollExactlyOnce {
  import opened Sequences
  import opened Bytes
  import opened Records
  import opened Events
  import opened Chain
  import opened Polling
  import opened PollMachine
  import opened PollBasic
  import opened PollOrder
  import PollLoss
  import opened PollDelivery

  /** The accepted events of the chain transaction with this signature. */
  ghost function EventsOf(cfg: Config, w: World, sig: Signature): seq<Event> {
    var i := IndexOf(Points(w.chain), sig);
    if i < |w.chain| then EventsAt(cfg, w, i) else []
  }

  /** The accepted events of these transactions, one after another. */
  ghost function EventsAlong(cfg: Config, w: World, points: seq<TxPoint>): seq<Event> {
    if points == [] then []
    else EventsAlong(cfg, w, points[..|points| - 1]) + EventsOf(cfg, w, Last(points).sig)
  }

  ghost predicate DeliveredAlong(cfg: Config, w: World) {
    && w.now.stored == EventsAlong(cfg, w, w.now.finalized)
    && w.now.delivered == EventsAlong(cfg, w, w.now.finalized)
  }

  // ---- growth ----

  lemma EventsOfStays(cfg: Config, w: World, w': World, sig: Signature)
    requires ChainOk(w.chain) && ChainOk(w'.chain) && w.chain <= w'.chain
    requires IndexOf(Points(w.chain), sig) < |w.chain|
    ensures EventsOf(cfg, w', sig) == EventsOf(cfg, w, sig)
  {
    hide IndexOf, OutcomeOf, ChainOk;
    GrowKeepsGenuine(cfg, w, w', sig);
  }

  /** All these transactions are on the chain. */
  ghost predicate OnChain(w: World, points: seq<TxPoint>) {
    forall p :: p in points ==> IndexOf(Points(w.chain), p.sig) < |w.chain|
  }

  lemma {:induction false} EventsAlongStays(cfg: Config, w: World, w': World, points: seq<TxPoint>)
    requires ChainOk(w.chain) && ChainOk(w'.chain) && w.chain <= w'.chain
    requires OnChain(w, points)
    ensures EventsAlong(cfg, w', points) == EventsAlong(cfg, w, points)
  {
    hide IndexOf, ChainOk, EventsOf;
    if points != [] {
      EventsAlongStays(cfg, w, w', points[..|points| - 1]);
      assert Last(points) in points;
      EventsOfStays(cfg, w, w', Last(points).sig);
    }
  }

  lemma FinalizedOnChain(w: World)
    requires Basic(w)
    ensures ChainOk(w.chain) && OnChain(w, w.now.finalized)
  {
    forall p | p in w.now.finalized
      ensures IndexOf(Points(w.chain), p.sig) < |w.chain|
    {
      var i :| 0 <= i < |w.chain| && Points(w.chain)[i] == p;
    }
  }

  // ---- delivered along the finalized transactions ----

  lemma SameEffectsKeepAlong(cfg: Config, w: World, w': World)
    requires Basic(w) && DeliveredAlong(cfg, w)
    requires ChainOk(w'.chain) && w.chain <= w'.chain
    requires w'.now.finalized == w.now.finalized && w'.now.stored == w.now.stored
    requires w'.now.delivered == w.now.delivered
    ensures DeliveredAlong(cfg, w')
  {
    hide *;
    FinalizedOnChain(w);
    EventsAlongStays(cfg, w, w', w.now.finalized);
    SameAlong(cfg, w, w');
  }

  lemma SameAlong(cfg: Config, w: World, w': World)
    requires DeliveredAlong(cfg, w)
    requires w'.now.finalized == w.now.finalized && w'.now.stored == w.now.stored
    requires w'.now.delivered == w.now.delivered
    requires EventsAlong(cfg, w', w.now.finalized) == EventsAlong(cfg, w, w.now.finalized)
    ensures DeliveredAlong(cfg, w')
  {
  }

  /** An attempt at the queue head that was not cut. */
  ghost predicate IsWhole(cfg: Config, w: World, c: nat) {
    && CanProcess(cfg, w, c)
    && c == ProcessLength(w.now, HeadTx(w).block, OutcomeOf(cfg.decoding, HeadTx(w).content))
  }

  /** A whole attempt appends exactly the head's events, and the head to the finalized ones. */
  lemma WholeAttemptAppends(cfg: Config, w: World, c: nat)
    requires Basic(w) && IsWhole(cfg, w, c)
    ensures var s, w' := w.now, AfterProcess(cfg, w, c);
            && w' == w.(now := w'.now)
            && w'.now == s.(number := w'.now.number, queue := s.queue[1..], processed := s.queue[0],
                            finalized := s.finalized + [s.queue[0]],
                            stored := s.stored + EventsOf(cfg, w, s.queue[0].sig),
                            delivered := s.delivered + EventsOf(cfg, w, s.queue[0].sig))
  {
    hide Basic, OutcomeOf, IndexOf, EventsAt, ProcessAt;
    HeadEventsAreAccepted(cfg, w);
    WholeAttempt(w.now, HeadTx(w).block, OutcomeOf(cfg.decoding, HeadTx(w).content));
  }

  lemma ProcessKeepsAlong(cfg: Config, w: World, c: nat)
    requires Basic(w) && DeliveredAlong(cfg, w) && CanProcess(cfg, w, c)
    requires !AfterProcess(cfg, w, c).faulted
    ensures DeliveredAlong(cfg, AfterProcess(cfg, w, c))
  {
    var w' := AfterProcess(cfg, w, c);
    if c == 0 {
      NoAttempt(cfg, w);
      hide AfterProcess, CanProcess;
      BasicChain(w);
      SameEffectsKeepAlong(cfg, w, w');
    } else {
      WholeAttemptAppends(cfg, w, c);
      hide ProcessAt, OutcomeOf, Basic, IndexOf, EventsOf, HeadEvents;
      FinalizedOnChain(w);
      BasicChain(w);
      EventsAlongStays(cfg, w, w', w.now.finalized);
      AlongSnoc(cfg, w, w', w.now.finalized, w.now.queue[0]);
    }
  }

  lemma NoAttempt(cfg: Config, w: World)
    requires CanProcess(cfg, w, 0)
    ensures AfterProcess(cfg, w, 0).now == w.now && AfterProcess(cfg, w, 0).chain == w.chain
  {
    hide OutcomeOf, IndexOf;
  }

  lemma AlongSnoc(cfg: Config, w: World, w': World, points: seq<TxPoint>, p: TxPoint)
    requires w'.chain == w.chain && EventsAlong(cfg, w', points) == EventsAlong(cfg, w, points)
    ensures EventsAlong(cfg, w', points + [p]) == EventsAlong(cfg, w, points) + EventsOf(cfg, w, p.sig)
  {
    hide IndexOf, OutcomeOf;
    assert (points + [p])[..|points|] == points;
  }

  lemma StepKeepsAlong(cfg: Config, w: World, a: Action, w': World)
    requires Basic(w) && Basic(w') && DeliveredAlong(cfg, w) && Step(cfg, w, a, w') && !w'.faulted
    ensures DeliveredAlong(cfg, w')
  {
    hide Basic, DeliveredAlong, AfterQuery, CanQuery, AfterProcess, CanProcess, CanGrow;
    BasicChain(w');
    match a
    case Query(m, hidden, refused, c) =>
      QueryBase(cfg, w, m, hidden, refused, c);
      SameEffectsKeepAlong(cfg, w, w');
    case Process(c) => ProcessKeepsAlong(cfg, w, c);
    case _ => SameEffectsKeepAlong(cfg, w, w');
  }

  /** In every run in which no attempt was cut, with crashes between polls, torn queries, refused cursors and
      hidden history anywhere: the stored and the delivered events are both exactly the accepted events of
      the finalized transactions, in the order they were finalized. */
  lemma {:induction false} RunsDeliverAlongFinalized(cfg: Config, ws: seq<World>, actions: seq<Action>)
    requires IsRun(cfg, ws, actions) && !Last(ws).faulted
    ensures DeliveredAlong(cfg, Last(ws))
  {
    RunsKeepBasic(cfg, ws, actions);
    if actions == [] {
      assert ws[0].now == EMPTY;
    } else {
      RunPrefix(cfg, ws, actions);
      var before := ws[..|actions|];
      HistoryOnlyGrows(cfg, ws[|actions| - 1], Last(actions), Last(ws));
      RunsDeliverAlongFinalized(cfg, before, actions[..|actions| - 1]);
      RunsKeepBasic(cfg, before, actions[..|actions| - 1]);
      hide Step, Basic, IsRun, DeliveredAlong;
      StepKeepsAlong(cfg, ws[|actions| - 1], Last(actions), Last(ws));
    }
  }

  // ---- a transaction finalized twice has no events ----

  ghost predicate RepeatsAreSilent(cfg: Config, w: World, points: seq<TxPoint>) {
    forall i, j :: 0 <= i < j < |points| && points[i] == points[j] ==> EventsOf(cfg, w, points[j].sig) == []
  }

  lemma SilentStays(cfg: Config, w: World, w': World, points: seq<TxPoint>)
    requires ChainOk(w.chain) && ChainOk(w'.chain) && w.chain <= w'.chain
    requires OnChain(w, points) && RepeatsAreSilent(cfg, w, points)
    ensures RepeatsAreSilent(cfg, w', points)
  {
    hide IndexOf, EventsOf, ChainOk;
    forall i, j | 0 <= i < j < |points| && points[i] == points[j]
      ensures EventsOf(cfg, w', points[j].sig) == []
    {
      assert points[j] in points;
      EventsOfStays(cfg, w, w', points[j].sig);
    }
  }

  /** A queued transaction that was finalized before has no accepted event. */
  lemma RequeuedHasNoEvents(cfg: Config, w: World)
    requires Basic(w) && AtLeastOnce(cfg, w) && NoRequeue(w.now) && w.now.queue != []
    requires w.now.queue[0] in w.now.finalized
    ensures EventsOf(cfg, w, w.now.queue[0].sig) == []
  {
    hide OutcomeOf, PointsOk, StoredOk, DispatchOk, QueueOk, EventsAt, EventsOf, AllStored;
    var head := w.now.queue[0];
    assert AllStored(cfg, w, head) && head in w.now.queue;
    NoneOrStored(cfg, w, head);
  }

  /** When all its events are stored, a transaction has none or some event with its signature is stored. */
  lemma NoneOrStored(cfg: Config, w: World, p: TxPoint)
    requires AllStored(cfg, w, p)
    ensures EventsOf(cfg, w, p.sig) == [] || StoredSig(w.now, p.sig)
  {
    hide OutcomeOf;
    var es := EventsOf(cfg, w, p.sig);
    if es != [] {
      assert es[0] in es;
      EventsCarrySignature(cfg, w, IndexOf(Points(w.chain), p.sig), es[0]);
    }
  }

  lemma ProcessKeepsSilent(cfg: Config, w: World, c: nat)
    requires Basic(w) && AtLeastOnce(cfg, w) && NoRequeue(w.now) && CanProcess(cfg, w, c)
    requires RepeatsAreSilent(cfg, w, w.now.finalized)
    ensures RepeatsAreSilent(cfg, AfterProcess(cfg, w, c), AfterProcess(cfg, w, c).now.finalized)
  {
    hide Basic, AtLeastOnce, NoRequeue, OutcomeOf, IndexOf;
    var w', head := AfterProcess(cfg, w, c), w.now.queue[0];
    AttemptEvents(w.now, HeadTx(w).block, OutcomeOf(cfg.decoding, HeadTx(w).content), c);
    hide ProcessAt, ProcessLength, HeadEvents, EventsAt;
    FinalizedOnChain(w);
    SilentStays(cfg, w, w', w.now.finalized);
    if head in w.now.finalized {
      RequeuedHasNoEvents(cfg, w);
    }
    SilentSnoc(cfg, w', w.now.finalized, head);
  }

  lemma SilentSnoc(cfg: Config, w: World, points: seq<TxPoint>, p: TxPoint)
    requires RepeatsAreSilent(cfg, w, points) && (p in points ==> EventsOf(cfg, w, p.sig) == [])
    ensures RepeatsAreSilent(cfg, w, points + [p])
  {
    hide EventsOf;
    assert forall i :: 0 <= i < |points| ==> points[i] in points;
  }

  lemma StepKeepsSilent(cfg: Config, w: World, a: Action, w': World)
    requires Basic(w) && Basic(w') && AtLeastOnce(cfg, w) && NoRequeue(w.now) && Step(cfg, w, a, w')
    requires RepeatsAreSilent(cfg, w, w.now.finalized)
    ensures RepeatsAreSilent(cfg, w', w'.now.finalized)
  {
    hide Basic, AtLeastOnce, NoRequeue, RepeatsAreSilent, AfterQuery, CanQuery, AfterProcess, CanProcess, CanGrow;
    BasicChain(w');
    FinalizedOnChain(w);
    match a
    case Query(m, hidden, refused, c) =>
      QueryBase(cfg, w, m, hidden, refused, c);
      SilentStays(cfg, w, w', w.now.finalized);
    case Process(c) => ProcessKeepsSilent(cfg, w, c);
    case _ => SilentStays(cfg, w, w', w.now.finalized);
  }

  /** In every run without a torn query, refused cursors and hidden history anywhere, a transaction that was
      finalized more than once has no accepted event. */
  lemma {:induction false} FinalizedTwiceIsSilent(cfg: Config, ws: seq<World>, actions: seq<Action>)
    requires IsRun(cfg, ws, actions) && !Last(ws).torn
    ensures RepeatsAreSilent(cfg, Last(ws), Last(ws).now.finalized)
  {
    RunsKeepBasic(cfg, ws, actions);
    if actions == [] {
      assert ws[0].now == EMPTY;
    } else {
      RunPrefix(cfg, ws, actions);
      var before := ws[..|actions|];
      HistoryOnlyGrows(cfg, ws[|actions| - 1], Last(actions), Last(ws));
      FinalizedTwiceIsSilent(cfg, before, actions[..|actions| - 1]);
      RunsKeepBasic(cfg, before, actions[..|actions| - 1]);
      RunsDeliverAtLeastOnce(cfg, before, actions[..|actions| - 1]);
      UntornRunsDoNotRequeue(cfg, before, actions[..|actions| - 1]);
      hide Step, Basic, IsRun, RepeatsAreSilent, AtLeastOnce, NoRequeue;
      StepKeepsSilent(cfg, ws[|actions| - 1], Last(actions), Last(ws));
    }
  }

  // ---- exactly once ----

  lemma {:induction false} SilentRepeatsAddNothing(cfg: Config, w: World, points: seq<TxPoint>)
    requires RepeatsAreSilent(cfg, w, points)
    ensures EventsAlong(cfg, w, points) == EventsAlong(cfg, w, Distinct(points))
  {
    hide EventsOf;
    if points != [] {
      var front, last := points[..|points| - 1], Last(points);
      SilentRepeatsAddNothing(cfg, w, front);
      DistinctSound(front);
      hide NoRepeats;
      if last in front {
        var i :| 0 <= i < |front| && front[i] == last;
        assert points[i] == points[|points| - 1];
      } else {
        assert (Distinct(front) + [last])[..|Distinct(front)|] == Distinct(front);
      }
    }
  }

  /** Exactly once: when no attempt was cut and no query was torn, with refused cursors and hidden history
      anywhere, every accepted event of every finalized transaction was delivered and stored exactly once,
      in the order the transactions were first finalized. */
  lemma RunsDeliverExactlyOnce(cfg: Config, ws: seq<World>, actions: seq<Action>)
    requires IsRun(cfg, ws, actions) && !Last(ws).faulted && !Last(ws).torn
    ensures Last(ws).now.delivered == EventsAlong(cfg, Last(ws), Distinct(Last(ws).now.finalized))
    ensures Last(ws).now.stored == EventsAlong(cfg, Last(ws), Distinct(Last(ws).now.finalized))
  {
    RunsDeliverAlongFinalized(cfg, ws, actions);
    FinalizedTwiceIsSilent(cfg, ws, actions);
    hide IsRun, RepeatsAreSilent, Distinct;
    SilentRepeatsAddNothing(cfg, Last(ws), Last(ws).now.finalized);
  }

  /** Along consecutive positions these are the events of the positions. */
  lemma {:induction false} AlongPositions(cfg: Config, w: World, b: nat, n: nat)
    requires PointsOk(Points(w.chain)) && b + n <= |w.chain|
    ensures EventsAlong(cfg, w, Points(w.chain)[b..b + n]) == EventsBetween(cfg, w, b, b + n)
  {
    hide PointsOk, IndexOf, EventsAt, EventsOf, EventsAlong;
    var points := Points(w.chain);
    if n == 0 {
      assert points[b..b] == [];
      NothingAlong(cfg, w);
    } else {
      AlongPositions(cfg, w, b, n - 1);
      assert points[b..b + n] == points[b..b + n - 1] + [points[b + n - 1]];
      AlongSnoc(cfg, w, w, points[b..b + n - 1], points[b + n - 1]);
      EventsOfPosition(cfg, w, b + n - 1);
    }
  }

  lemma NothingAlong(cfg: Config, w: World)
    ensures EventsAlong(cfg, w, []) == []
  {
  }

  lemma EventsOfPosition(cfg: Config, w: World, i: nat)
    requires PointsOk(Points(w.chain)) && i < |w.chain|
    ensures EventsOf(cfg, w, Points(w.chain)[i].sig) == EventsAt(cfg, w, i)
  {
    hide EventsAt;
    IndexOfAt(Points(w.chain), i);
  }

  /** With complete answers, torn queries or not, they are the events of the finalized positions of the chain,
      in chain order. */
  lemma CompleteRunsDeliverInChainOrder(cfg: Config, ws: seq<World>, actions: seq<Action>)
    requires IsRun(cfg, ws, actions) && !Last(ws).faulted && !Last(ws).partial
    ensures var w := Last(ws);
            var b := Base(cfg, w);
            && b + |w.now.finalized| <= |w.chain|
            && w.now.delivered == w.now.stored == EventsBetween(cfg, w, b, b + |w.now.finalized|)
  {
    hide *;
    RunNotEmpty(cfg, ws, actions);
    RunsDeliverAlongFinalized(cfg, ws, actions);
    RunsStayOrdered(cfg, ws, actions);
    RunsKeepBasic(cfg, ws, actions);
    OrderedDelivery(cfg, Last(ws));
  }

  lemma OrderedDelivery(cfg: Config, w: World)
    requires Basic(w) && Ordered(cfg, w) && DeliveredAlong(cfg, w)
    ensures var b := Base(cfg, w);
            && b + |w.now.finalized| <= |w.chain|
            && w.now.delivered == w.now.stored == EventsBetween(cfg, w, b, b + |w.now.finalized|)
  {
    hide Basic, Ordered, EventsBetween, EventsAlong, PointsOk, Base;
    PollLoss.NoPointIsZero(w);
    FinalizedRun(cfg, w);
    AlongPositions(cfg, w, Base(cfg, w), |w.now.finalized|);
  }

  lemma FinalizedRun(cfg: Config, w: World)
    requires Ordered(cfg, w)
    ensures Base(cfg, w) + |w.now.finalized| <= |w.chain|
    ensures w.now.finalized == Points(w.chain)[Base(cfg, w)..Base(cfg, w) + |w.now.finalized|]
  {
    hide FirstFrom, IndexOf;
  }
}
