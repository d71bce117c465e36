/** How polling gets on: whole attempts empty the queue and bring the cursors together, and what has to happen
    before a queue left by a torn push is worked on. */
module PollProgress {
  import opened Sequences
  import opened Bytes
  import opened Records
  import opened Events
  import opened Chain
  import opened Polling
  import opened PollMachine
  import opened PollBasic
  import opened PollOrder
  import opened PollDelivery
  import opened PollExactlyOnce
  import opened PollTheorems

  // ---- draining the queue ----

  ghost predicate WholeFrom(cfg: Config, ws: seq<World>, actions: seq<Action>, i: nat)
    requires |ws| == |actions| + 1
  {
    forall j :: i <= j < |actions| ==> actions[j].Process? && IsWhole(cfg, ws[j], actions[j].effects)
  }

  /** The first n queued transactions have been finalized, each with its events, and nothing else happened. */
  ghost predicate Worked(cfg: Config, w: World, w': World, n: nat)
    requires n <= |w.now.queue|
  {
    && w'.chain == w.chain
    && w'.now == w.now.(number := w'.now.number,
                        queue := w.now.queue[n..],
                        processed := if n == 0 then w.now.processed else w.now.queue[n - 1],
                        finalized := w.now.finalized + w.now.queue[..n],
                        stored := w.now.stored + EventsAlong(cfg, w, w.now.queue[..n]),
                        delivered := w.now.delivered + EventsAlong(cfg, w, w.now.queue[..n]))
  }

  /** While transactions are left to work on, a whole attempt is possible. */
  lemma NextAttemptCanBeMade(cfg: Config, w: World)
    requires Basic(w) && w.report == None && MustProcess(w.now) && w.now.queue != []
    ensures exists c: nat :: IsWhole(cfg, w, c)
  {
    hide Basic, OutcomeOf, IndexOf;
    HeadEventsAreAccepted(cfg, w);
    var c := ProcessLength(w.now, HeadTx(w).block, OutcomeOf(cfg.decoding, HeadTx(w).content));
    assert IsWhole(cfg, w, c);
  }

  lemma BasicAt(cfg: Config, ws: seq<World>, actions: seq<Action>, i: nat)
    requires IsRun(cfg, ws, actions) && i <= |actions|
    ensures |ws| == |actions| + 1 && Basic(ws[i]) && (Wedged(ws[i].now) <==> ws[i].skipTorn)
  {
    hide Step, Init, Basic, Wedged;
    if i < |actions| {
      RunUpTo(cfg, ws, actions, i);
      RunsKeepBasic(cfg, ws[..i + 1], actions[..i]);
      StuckExactlyWhenSkipTorn(cfg, ws[..i + 1], actions[..i]);
    } else {
      RunsKeepBasic(cfg, ws, actions);
      StuckExactlyWhenSkipTorn(cfg, ws, actions);
    }
  }

  /** From a state in which the cursors differ, no skip having been torn: n whole attempts finalize the first n
      queued transactions, in order, each with exactly its events; and the cursors agree again exactly when all
      of them are done, so there are no more attempts than queued transactions. */
  lemma {:induction false} WholeAttemptsDrain(cfg: Config, ws: seq<World>, actions: seq<Action>, i: nat)
    requires IsRun(cfg, ws, actions) && i <= |actions| && WholeFrom(cfg, ws, actions, i)
    requires MustProcess(ws[i].now) && !ws[i].skipTorn
    ensures var n := |actions| - i;
            && n <= |ws[i].now.queue|
            && Worked(cfg, ws[i], Last(ws), n)
            && (MustProcess(Last(ws).now) <==> n < |ws[i].now.queue|)
  {
    hide Step, Init, Basic, IsWhole, Worked, MustProcess, Wedged, AfterProcess;
    BasicAt(cfg, ws, actions, i);
    if i == |actions| {
      NothingWorked(cfg, ws[i]);
    } else {
      RunPrefix(cfg, ws, actions);
      WholeAttemptsDrain(cfg, ws[..|actions|], actions[..|actions| - 1], i);
      BasicAt(cfg, ws, actions, |actions| - 1);
      StepWhole(cfg, ws[|actions| - 1], Last(actions), Last(ws));
      OneMoreWorked(cfg, ws[i], ws[|actions| - 1], Last(actions).effects, |actions| - 1 - i);
    }
    CursorsAgreeAtTheEnd(cfg, ws[i], Last(ws), |actions| - i);
  }

  lemma StepWhole(cfg: Config, w: World, a: Action, w': World)
    requires Step(cfg, w, a, w') && a.Process? && IsWhole(cfg, w, a.effects)
    ensures MustProcess(w.now) && w' == AfterProcess(cfg, w, a.effects)
  {
    hide AfterProcess;
  }

  lemma NothingWorked(cfg: Config, w: World)
    ensures Worked(cfg, w, w, 0)
  {
    hide EventsOf;
    var queue := w.now.queue;
    assert queue[..0] == [] && queue[0..] == queue;
  }

  lemma OneMoreWorked(cfg: Config, w0: World, w: World, c: nat, n: nat)
    requires Basic(w0) && Basic(w) && IsWhole(cfg, w, c)
    requires n < |w0.now.queue| && Worked(cfg, w0, w, n)
    ensures Worked(cfg, w0, AfterProcess(cfg, w, c), n + 1)
  {
    hide Basic, EventsOf, EventsAlong, IsWhole, AfterProcess;
    var queue, s := w0.now.queue, w0.now;
    QueueSplits(queue, n);
    WholeAttemptAppends(cfg, w, c);
    AlongSnoc(cfg, w0, w0, queue[..n], queue[n]);
    SameEventsOf(cfg, w0, w, queue[n].sig);
    var events, more := EventsAlong(cfg, w0, queue[..n]), EventsOf(cfg, w0, queue[n].sig);
    ConcatAssociates(s.finalized, queue[..n], [queue[n]]);
    ConcatAssociates(s.stored, events, more);
    ConcatAssociates(s.delivered, events, more);
  }

  lemma QueueSplits(queue: seq<TxPoint>, n: nat)
    requires n < |queue|
    ensures queue[n..][0] == queue[n] && queue[n..][1..] == queue[n + 1..]
    ensures queue[..n + 1] == queue[..n] + [queue[n]]
  {
  }

  lemma ConcatAssociates<T>(a: seq<T>, b: seq<T>, c: seq<T>)
    ensures (a + b) + c == a + (b + c)
  {
  }

  lemma SameEventsOf(cfg: Config, w: World, w': World, sig: Signature)
    requires w'.chain == w.chain
    ensures EventsOf(cfg, w', sig) == EventsOf(cfg, w, sig)
  {
    hide OutcomeOf, IndexOf;
  }

  /** The cursor is the queue's last element, so the cursors agree once it is the last processed one. */
  lemma CursorsAgreeAtTheEnd(cfg: Config, w0: World, w: World, n: nat)
    requires Basic(w0) && MustProcess(w0.now) && !Wedged(w0.now)
    requires n <= |w0.now.queue| && Worked(cfg, w0, w, n)
    ensures MustProcess(w.now) <==> n < |w0.now.queue|
  {
    hide EventsAlong, ChainOk;
  }

  // ---- the queue of a torn push ----

  /** A query that found something new and whose last write is a cursor that differs from the other one: the
      second write of a push, or the first of a skip. */
  ghost predicate Turns(cfg: Config, w: World, a: Action) {
    match a
    case Query(m, hidden, refused, c) =>
      && CanQuery(w, m, hidden, refused, c)
      && var listed := ListedAt(w, m, hidden, refused);
         && NewsOf(w.now, listed) != []
         && c == if BatchOf(w.now, cfg.start, listed) == [] then 1 else 2
    case _ => false
  }

  /** What is queued is not worked on: it stays in front of the queue. */
  ghost predicate Stands(s: Snapshot, s': Snapshot) {
    && s.queue <= s'.queue
    && s'.finalized == s.finalized && s'.stored == s.stored && s'.delivered == s.delivered
  }

  /** While the cursors agree, whatever is queued, exactly such a query makes the dispatcher process; any other
      step leaves the cursors equal and the queued transactions where they are. */
  lemma StandstillEndsExactlyWhen(cfg: Config, w: World, a: Action, w': World)
    requires Basic(w) && Step(cfg, w, a, w') && !MustProcess(w.now)
    ensures MustProcess(w'.now) <==> Turns(cfg, w, a)
    ensures Stands(w.now, w'.now)
  {
    hide AfterQuery, AfterProcess, Basic, CanGrow, Turns, CanQuery, QueryAt, BatchOf, NewsOf, ListedAt;
    match a
    case Query(m, hidden, refused, c) => QueryTurns(cfg, w, m, hidden, refused, c);
    case _ => NoQuery(cfg, w, a);
  }

  lemma NoQuery(cfg: Config, w: World, a: Action)
    requires !a.Query?
    ensures !Turns(cfg, w, a)
  {
  }

  lemma QueryTurns(cfg: Config, w: World, m: nat, hidden: set<Signature>, refused: bool, c: nat)
    requires Basic(w) && CanQuery(w, m, hidden, refused, c)
    ensures var w' := AfterQuery(cfg, w, m, hidden, refused, c);
            && (MustProcess(w'.now) <==> Turns(cfg, w, Query(m, hidden, refused, c)))
            && Stands(w.now, w'.now)
  {
    hide AfterQuery, NewsOf, BatchOf, ListedAt, FullHistory, PassedOver, PassedBelow, MovedPast, Basic, Known, Filter, PointsOk;
    BasicChain(w);
    CanQueryBounds(w, m, hidden, refused, c);
    if c == 0 {
      NoEffect(cfg, w, m, hidden, refused);
    } else {
      var listed := ListedAt(w, m, hidden, refused);
      ListedIsOk(w, m, hidden, refused);
      QueryDoes(cfg, w, m, hidden, refused, c);
      CanQueryLength(w, m, hidden, refused, c);
      QueryShape(w.now, cfg.start, listed, w.report.value.height, c);
      LastIsNew(w.now, cfg.start, listed);
    }
  }

  lemma CanQueryLength(w: World, m: nat, hidden: set<Signature>, refused: bool, c: nat)
    requires CanQuery(w, m, hidden, refused, c)
    ensures c <= if NewsOf(w.now, ListedAt(w, m, hidden, refused)) == [] then 1 else 2
    ensures c <= QueryLength(w.now, ListedAt(w, m, hidden, refused))
  {
    hide ListedAt, NewsOf;
  }

  /** What is new is not the last processed transaction. */
  lemma LastIsNew(s: Snapshot, start: u64, listed: seq<TxPoint>)
    requires PointsOk(listed)
    ensures NewsOf(s, listed) != [] ==> Last(NewsOf(s, listed)).sig != s.processed.sig
    ensures BatchOf(s, start, listed) != [] ==> Last(BatchOf(s, start, listed)).sig != s.processed.sig
  {
    BatchFacts(s, start, listed);
    hide Queued;
    assert forall p :: p in NewsOf(s, listed) ==> p.sig != s.processed.sig;
  }

  /** So until such a query succeeds, whatever else happens, restarts included: what is queued is not worked on
      and stays queued. */
  lemma {:induction false} QueueStandsStill(cfg: Config, ws: seq<World>, actions: seq<Action>, i: nat)
    requires IsRun(cfg, ws, actions) && i <= |actions| && !MustProcess(ws[i].now)
    requires forall j :: i <= j < |actions| ==> !Turns(cfg, ws[j], actions[j])
    ensures !MustProcess(Last(ws).now) && Stands(ws[i].now, Last(ws).now)
  {
    hide Step, Init, Basic, MustProcess, Turns;
    if i < |actions| {
      RunPrefix(cfg, ws, actions);
      QueueStandsStill(cfg, ws[..|actions|], actions[..|actions| - 1], i);
      BasicAt(cfg, ws, actions, |actions| - 1);
      StandstillEndsExactlyWhen(cfg, ws[|actions| - 1], Last(actions), Last(ws));
    }
  }
}
