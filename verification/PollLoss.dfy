/** No loss: in every run, with crashes, hidden history and refused cursors anywhere, a transaction
    between the base and the cursor is finalized or queued unless the node did not list it. */
module PollLoss {
  import opened Sequences
  import opened Bytes
  import opened Records
  import opened Events
  import opened Chain
  import opened Polling
  import opened PollMachine
  import opened PollBasic
  import PollOrder

  ghost predicate Handled(w: World, p: TxPoint) {
    p in w.now.finalized || p in w.now.queue
  }

  ghost predicate NoLoss(cfg: Config, w: World) {
    && (w.now.queried == NO_POINT ==> w.skip == None)
    && forall i: nat :: Base(cfg, w) <= i <= CursorOf(w) && i < |w.chain| ==> Covered(w, i)
  }

  ghost predicate Covered(w: World, i: nat)
    requires i < |w.chain|
  {
    i in w.unlisted || Handled(w, Points(w.chain)[i])
  }

  /** Two points of the chain with one signature are the same point. */
  lemma SameSignature(points: seq<TxPoint>, p: TxPoint, i: nat)
    requires PointsOk(points) && p in points && i < |points| && points[i].sig == p.sig
    ensures points[i] == p
  {
  }

  /** A known transaction after the cursor is handled already. */
  lemma KnownIsHandled(w: World, i: nat)
    requires Basic(w) && !MustProcess(w.now)
    requires CursorOf(w) < i < |w.chain|
    requires Known(w.now, Points(w.chain)[i].sig)
    ensures Handled(w, Points(w.chain)[i])
  {
    var points, s := Points(w.chain), w.now;
    var sig := points[i].sig;
    if s.processed.sig == sig {
      IndexOfAt(points, i);
    }
    assert !(s.processed.sig == sig);
    if Queued(s, sig) {
      var p :| p in s.queue && p.sig == sig;
      SameSignature(points, p, i);
    } else {
      var e :| e in s.stored && e.sig == sig;
      if FinalizedSig(s, e.sig) {
        var p :| p in s.finalized && p.sig == sig;
        SameSignature(points, p, i);
      } else {
        assert s.queue[0] in s.queue;
      }
    }
  }

  lemma PushKeepsNoLoss(cfg: Config, w: World, w': World, m: nat, listed: seq<TxPoint>)
    requires Basic(w) && NoLoss(cfg, w) && !MustProcess(w.now) && m <= |w.chain|
    requires PointsOk(listed) && forall p :: p in listed ==> p in Points(w.chain)[..m]
    requires w'.chain == w.chain && w'.skip == w.skip
    requires w'.unlisted == w.unlisted + MovedPast(w, CursorOf(w'), listed)
    requires PushOf(w, w', BatchOf(w.now, cfg.start, listed))
    ensures NoLoss(cfg, w')
  {
    hide BatchOf, Basic, Handled, IndexOf, FirstFrom, PointsOk, Known, NewsOf, PassedOver, MovedPast, Listed;
    var batch := BatchOf(w.now, cfg.start, listed);
    BatchLast(w.now, cfg.start, listed);
    NoPointIsZero(w);
    CursorBelow(Points(w.chain), Last(batch), m);
    forall i: nat | Base(cfg, w') <= i <= CursorOf(w') && i < |w.chain|
      ensures Covered(w', i)
    {
      if i <= CursorOf(w) {
        assert Covered(w, i);
        if Handled(w, Points(w.chain)[i]) {
          HandledKept(w, w', Points(w.chain)[i]);
        }
      } else {
        PushCovers(cfg, w, w', m, listed, i);
      }
    }
  }

  lemma BatchLast(s: Snapshot, start: u64, listed: seq<TxPoint>)
    requires PointsOk(listed) && BatchOf(s, start, listed) != []
    ensures Last(BatchOf(s, start, listed)) in listed
  {
    BatchFacts(s, start, listed);
    assert Last(BatchOf(s, start, listed)) in BatchOf(s, start, listed);
  }

  lemma HandledKept(w: World, w': World, p: TxPoint)
    requires w.now.queue <= w'.now.queue && w'.now.finalized == w.now.finalized
    requires Handled(w, p)
    ensures Handled(w', p)
  {
  }

  /** A position the answer covers is listed and then known or queued, or it is passed over. */
  lemma PushCovers(cfg: Config, w: World, w': World, m: nat, listed: seq<TxPoint>, i: nat)
    requires Basic(w) && !MustProcess(w.now) && PointsOk(listed)
    requires w.now.queried == NO_POINT ==> w.skip == None
    requires Base(cfg, w) <= i && CursorOf(w) < i < m <= |w.chain|
    requires w'.unlisted == w.unlisted + MovedPast(w, CursorOf(w'), listed)
    requires PushOf(w, w', BatchOf(w.now, cfg.start, listed)) && w'.chain == w.chain && i <= CursorOf(w')
    requires Last(BatchOf(w.now, cfg.start, listed)) in Points(w.chain)
    ensures Covered(w', i)
  {
    hide BatchOf, Basic, IndexOf, FirstFrom, PointsOk, Known, NewsOf, PassedOver, MovedPast, Listed;
    var p := Points(w.chain)[i];
    NoPointIsZero(w);
    BatchLast(w.now, cfg.start, listed);
    if i == CursorOf(w') {
      CursorIsLast(w, w', BatchOf(w.now, cfg.start, listed));
    } else if p !in listed {
      InMovedPast(w, CursorOf(w'), listed, i);
    } else if Known(w.now, p.sig) {
      KnownIsHandled(w, i);
      HandledKept(w, w', p);
    } else {
      StartFilterAccepts(cfg, w, i);
      BatchFacts(w.now, cfg.start, listed);
    }
  }

  lemma InMovedPast(w: World, to: int, listed: seq<TxPoint>, i: nat)
    requires CursorOf(w) < i < to && i < |w.chain| && Points(w.chain)[i] !in listed
    ensures i in MovedPast(w, to, listed)
  {
  }

  /** The position a whole push moves the cursor to is queued. */
  lemma CursorIsLast(w: World, w': World, batch: seq<TxPoint>)
    requires PointsOk(Points(w.chain)) && PushOf(w, w', batch) && w'.chain == w.chain
    requires Last(batch) in Points(w.chain) && CursorOf(w) < CursorOf(w') < |w.chain|
    ensures Points(w.chain)[CursorOf(w')] in w'.now.queue
  {
    SameSignature(Points(w.chain), Last(batch), CursorOf(w'));
    assert Last(batch) == w'.now.queue[|w'.now.queue| - 1];
  }

  lemma NoPointIsZero(w: World)
    requires Basic(w)
    ensures PointsOk(Points(w.chain))
    ensures w.now.queried == NO_POINT || w.now.queried.sig != ZERO_SIGNATURE
  {
  }

  lemma CursorBelow(points: seq<TxPoint>, p: TxPoint, m: nat)
    requires PointsOk(points) && m <= |points| && p in points[..m]
    ensures 0 <= Cursor(points, p) < m
  {
    var i :| 0 <= i < m && points[..m][i] == p;
    IndexOfAt(points, i);
  }

  lemma StartFilterAccepts(cfg: Config, w: World, i: nat)
    requires PointsOk(Points(w.chain)) && i < |w.chain| && Base(cfg, w) <= i
    requires w.now.queried == NO_POINT ==> w.skip == None
    requires w.now.queried == NO_POINT || w.now.queried.sig != ZERO_SIGNATURE
    ensures FromStart(w.now.queried, cfg.start)(Points(w.chain)[i])
  {
    if w.now.queried == NO_POINT {
      var b := Base(cfg, w);
      assert Points(w.chain)[b].slot <= Points(w.chain)[i].slot;
    }
  }

  /** Nothing but the history counters moved, or nothing above the cursor became owed. */
  lemma StillNoLoss(cfg: Config, w: World, w': World)
    requires NoLoss(cfg, w)
    requires w'.chain == w.chain && w'.now.queried == w.now.queried && w'.skip == w.skip
    requires w.unlisted <= w'.unlisted
    requires forall p :: Handled(w, p) ==> Handled(w', p)
    ensures NoLoss(cfg, w')
  {
    hide IndexOf, FirstFrom, Handled;
    forall i: nat | Base(cfg, w') <= i <= CursorOf(w') && i < |w'.chain|
      ensures Covered(w', i)
    {
      assert Covered(w, i);
    }
  }

  lemma SkipKeepsNoLoss(cfg: Config, w: World, w': World, p: TxPoint)
    requires NoLoss(cfg, w)
    requires w'.chain == w.chain && w.unlisted <= w'.unlisted && SkipTo(w, w', p)
    requires PointsOk(Points(w.chain)) && p in Points(w.chain)
    ensures NoLoss(cfg, w')
  {
    if w'.now.queried == w.now.queried {
      StillNoLoss(cfg, w, w');
    } else {
      assert CursorOf(w') < Base(cfg, w');
    }
  }

  lemma QueryKeepsNoLoss(cfg: Config, w: World, m: nat, hidden: set<Signature>, refused: bool, c: nat)
    requires Basic(w) && NoLoss(cfg, w) && CanQuery(w, m, hidden, refused, c)
    ensures NoLoss(cfg, AfterQuery(cfg, w, m, hidden, refused, c))
  {
    hide AfterQuery, ListedAt, FullHistory, NewsOf, BatchOf, CanQuery, NoLoss;
    var w' := AfterQuery(cfg, w, m, hidden, refused, c);
    if c == 0 {
      NoEffect(cfg, w, m, hidden, refused);
      StillNoLoss(cfg, w, w');
    } else {
      CanQueryBounds(w, m, hidden, refused, c);
      QueryEffect(cfg, w, m, hidden, refused, c);
      var listed := ListedAt(w, m, hidden, refused);
      var news := NewsOf(w.now, listed);
      if news == [] {
        StillNoLoss(cfg, w, w');
      } else if BatchOf(w.now, cfg.start, listed) == [] {
        BatchFacts(w.now, cfg.start, listed);
        assert Last(news) in news;
        SkipKeepsNoLoss(cfg, w, w', Last(news));
      } else {
        PushKeepsNoLoss(cfg, w, w', m, listed);
      }
    }
  }

  lemma ProcessKeepsNoLoss(cfg: Config, w: World, c: nat)
    requires Basic(w) && NoLoss(cfg, w) && CanProcess(cfg, w, c)
    ensures NoLoss(cfg, AfterProcess(cfg, w, c))
  {
    hide OutcomeOf, NoLoss, Basic;
    var s, w' := w.now, AfterProcess(cfg, w, c);
    AttemptEvents(s, HeadTx(w).block, OutcomeOf(cfg.decoding, HeadTx(w).content), c);
    hide ProcessAt;
    assert s.queue == [s.queue[0]] + s.queue[1..];
    StillNoLoss(cfg, w, w');
  }

  lemma GrowKeepsNoLoss(cfg: Config, w: World, txs: seq<Tx>, newHeight: u64)
    requires Basic(w) && NoLoss(cfg, w) && CanGrow(w, txs, newHeight)
    ensures NoLoss(cfg, w.(chain := w.chain + txs, height := newHeight))
  {
    hide Basic, IndexOf, FirstFrom, PointsOk, Handled;
    var w' := w.(chain := w.chain + txs, height := newHeight);
    var points, more := Points(w.chain), Points(txs);
    GrowthFacts(w, txs, newHeight);
    PollOrder.FirstFromGrows(points, more, cfg.start);
    CursorGrows(points, more, w.now.queried);
    forall i: nat | Base(cfg, w') <= i <= CursorOf(w') && i < |w'.chain|
      ensures Covered(w', i)
    {
      assert Covered(w, i);
      assert Points(w'.chain)[i] == points[i];
      if Handled(w, points[i]) {
        HandledKept(w, w', points[i]);
      }
    }
  }

  lemma GrowthFacts(w: World, txs: seq<Tx>, newHeight: u64)
    requires Basic(w) && CanGrow(w, txs, newHeight)
    ensures Points(w.chain + txs) == Points(w.chain) + Points(txs)
    ensures PointsOk(Points(w.chain)) && PointsOk(Points(w.chain) + Points(txs))
    ensures w.now.queried == NO_POINT || w.now.queried in Points(w.chain)
  {
    hide StoredOk, QueueOk, DispatchOk;
    assert Points(w.chain + txs) == Points(w.chain) + Points(txs);
  }

  lemma CursorGrows(points: seq<TxPoint>, more: seq<TxPoint>, q: TxPoint)
    requires PointsOk(points) && PointsOk(points + more)
    requires q == NO_POINT || q in points
    ensures Cursor(points + more, q) == Cursor(points, q) < |points| || q == NO_POINT
    ensures q == NO_POINT ==> Cursor(points + more, q) == -1
  {
    if q != NO_POINT {
      var i :| 0 <= i < |points| && points[i] == q;
      IndexOfAt(points, i);
      assert (points + more)[i] == q;
      IndexOfAt(points + more, i);
    }
  }

  lemma StepKeepsNoLoss(cfg: Config, w: World, a: Action, w': World)
    requires Basic(w) && NoLoss(cfg, w) && Step(cfg, w, a, w')
    ensures NoLoss(cfg, w')
  {
    hide AfterQuery, CanQuery, AfterProcess, CanProcess, CanGrow, Basic, NoLoss;
    match a
    case Grow(txs, newHeight) => GrowKeepsNoLoss(cfg, w, txs, newHeight);
    case ReadHeight => StillNoLoss(cfg, w, w');
    case Query(m, hidden, refused, c) => QueryKeepsNoLoss(cfg, w, m, hidden, refused, c);
    case Process(c) => ProcessKeepsNoLoss(cfg, w, c);
    case Crash => StillNoLoss(cfg, w, w');
  }

  lemma InitNoLoss(cfg: Config, w: World)
    requires Init(w)
    ensures NoLoss(cfg, w)
  {
  }

  /** No loss, over every run. */
  lemma {:induction false} RunsLoseNothingListed(cfg: Config, ws: seq<World>, actions: seq<Action>)
    requires IsRun(cfg, ws, actions)
    ensures NoLoss(cfg, Last(ws))
  {
    if actions == [] {
      InitNoLoss(cfg, ws[0]);
    } else {
      RunPrefix(cfg, ws, actions);
      RunsLoseNothingListed(cfg, ws[..|actions|], actions[..|actions| - 1]);
      RunsKeepBasic(cfg, ws[..|actions|], actions[..|actions| - 1]);
      hide Step, NoLoss, Basic, IsRun;
      StepKeepsNoLoss(cfg, ws[|actions| - 1], Last(actions), Last(ws));
    }
  }

  // ---- what being passed over means ----

  /** A known cursor's listing is everything visible after it. */
  lemma ListedAfterCursor(points: seq<TxPoint>, hidden: set<Signature>, q: TxPoint, j: nat)
    requires PointsOk(points) && j < |points| && points[j] == q && q.sig !in hidden
    ensures Listed(Visible(points, hidden), q, false) == Visible(points[j + 1..], hidden)
  {
    var visible, before, after := Visible(points, hidden), Visible(points[..j], hidden), Visible(points[j + 1..], hidden);
    VisibleSplits(points, hidden, j);
    FilterKeepsOrder(points, NotHidden(hidden));
    assert q.sig != ZERO_SIGNATURE;
    hide Visible, IndexOf;
    assert visible[|before|] == q && visible[|before| + 1..] == after;
    IndexOfAt(visible, |before|);
    hide PointsOk;
  }

  lemma VisibleSplits(points: seq<TxPoint>, hidden: set<Signature>, j: nat)
    requires j < |points| && points[j].sig !in hidden
    ensures Visible(points, hidden)
            == Visible(points[..j], hidden) + [points[j]] + Visible(points[j + 1..], hidden)
  {
    hide Filter;
    var keep, q := NotHidden(hidden), points[j];
    assert points == points[..j] + [q] + points[j + 1..];
    FilterConcat(points[..j] + [q], points[j + 1..], keep);
    FilterConcat(points[..j], [q], keep);
    FilterAll([q], keep);
  }

  /** A query passes a position over exactly when the node hid it: nothing the node still listed after
      the cursor is left out, whether the cursor was accepted or refused. */
  lemma PassedOverWasHidden(w: World, m: nat, hidden: set<Signature>, refused: bool, c: nat, i: nat)
    requires Basic(w) && CanQuery(w, m, hidden, refused, c)
    requires CursorOf(w) < i < m
    ensures i in PassedOver(w, m, ListedAt(w, m, hidden, refused)) <==> Points(w.chain)[i].sig in hidden
  {
    var points, q, j := Points(w.chain)[..m], w.now.queried, CursorOf(w);
    CursorInPrefix(w, m);
    assert points[i] == Points(w.chain)[i];
    hide Basic, IndexOf, Listed, Visible, PointsOk, NewsOf;
    ListedIfVisible(points, hidden, q, j, refused, i);
  }

  /** The cursor's position, in a listed part of the history that reaches beyond it. */
  lemma CursorInPrefix(w: World, m: nat)
    requires Basic(w) && CursorOf(w) < m <= |w.chain|
    ensures PointsOk(Points(w.chain)[..m])
    ensures w.now.queried == NO_POINT ==> CursorOf(w) == -1
    ensures w.now.queried != NO_POINT ==>
              w.now.queried.sig != ZERO_SIGNATURE && CursorOf(w) >= 0
              && Points(w.chain)[..m][CursorOf(w)] == w.now.queried
  {
    var points, q := Points(w.chain), w.now.queried;
    PrefixPointsOk(points, m);
    if q != NO_POINT {
      assert q.sig != ZERO_SIGNATURE && points[CursorOf(w)].sig == q.sig;
      SameSignature(points, q, CursorOf(w));
    }
  }

  /** Behind the cursor, what is not hidden is listed. */
  lemma ListedIfVisible(points: seq<TxPoint>, hidden: set<Signature>, q: TxPoint, j: int, refused: bool, i: nat)
    requires PointsOk(points) && -1 <= j < i < |points|
    requires if j == -1 then q == NO_POINT && !refused else points[j] == q && q.sig != ZERO_SIGNATURE
    requires !refused && j >= 0 ==> q.sig !in hidden
    ensures points[i] in Listed(Visible(points, hidden), q, refused) <==> points[i].sig !in hidden
  {
    hide Filter, IndexOf;
    FilterMember(points, NotHidden(hidden), points[i]);
    if refused {
      FilterMember(Visible(points, hidden), SlotFrom(q.slot), points[i]);
      assert points[j].slot <= points[i].slot;
    } else if j >= 0 {
      ListedAfterCursor(points, hidden, q, j);
      hide PointsOk, Listed;
      assert points[j + 1..][i - j - 1] == points[i];
      FilterMember(points[j + 1..], NotHidden(hidden), points[i]);
    }
  }

  /** The cursor moves past a position without its transaction having been listed exactly when the node
      hid it. */
  lemma MovedPastWasHidden(w: World, m: nat, hidden: set<Signature>, refused: bool, c: nat, to: int, i: nat)
    requires Basic(w) && CanQuery(w, m, hidden, refused, c) && to <= m
    requires CursorOf(w) < i < to
    ensures i in MovedPast(w, to, ListedAt(w, m, hidden, refused)) <==> Points(w.chain)[i].sig in hidden
  {
    hide Basic, CanQuery, ListedAt, IndexOf;
    CanQueryBounds(w, m, hidden, refused, c);
    PassedOverWasHidden(w, m, hidden, refused, c, i);
  }
}
