/** In-order, gap-free, duplicate-free processing: in every run whose answers are complete, crashes
    included, the finalized transactions followed by the queue are one contiguous run of the chain. */
module PollOrder {
  import opened Sequences
  import opened Bytes
  import opened Records
  import opened Events
  import opened Chain
  import opened Polling
  import opened PollMachine
  import opened PollBasic

  // ---- alignment of a durable state with the chain ----

  /** `q` is the point at position j; j is minus one when there is none. */
  ghost predicate CursorAt(points: seq<TxPoint>, q: TxPoint, j: int) {
    (j == -1 && q == NO_POINT) || (0 <= j < |points| && points[j] == q)
  }

  /** Finalized then queued transactions are the positions from b on. */
  ghost predicate Contiguous(points: seq<TxPoint>, s: Snapshot, b: nat) {
    && b + |s.finalized| + |s.queue| <= |points|
    && s.finalized == points[b..b + |s.finalized|]
    && s.queue == points[b + |s.finalized|..b + |s.finalized| + |s.queue|]
  }

  /** One past the last handled position. */
  function End(s: Snapshot, b: nat): nat {
    b + |s.finalized| + |s.queue|
  }

  /** The cursor never runs ahead of what is handled, and only positions up to it are finalized. */
  ghost predicate Aligned(points: seq<TxPoint>, s: Snapshot, b: nat, j: int) {
    && Contiguous(points, s, b)
    && CursorAt(points, s.queried, j)
    && j < End(s, b)
    && (s.queried != NO_POINT ==> b <= j + 1 && (s.finalized == [] || b + |s.finalized| <= j + 1))
  }

  ghost predicate SkipOk(cfg: Config, w: World) {
    && (w.now.queried == NO_POINT ==> w.skip == None)
    && (w.skip == None && w.now.queried != NO_POINT ==> End(w.now, 0) > 0)
    && (w.skip.Some? ==> w.skip.value + 1 <= FirstFrom(Points(w.chain), cfg.start))
  }

  /** A height reading dates from after everything handled so far. */
  ghost predicate ReportOk(cfg: Config, w: World) {
    w.report.Some? ==>
      && CursorOf(w) + 1 <= w.report.value.length <= |w.chain|
      && (End(w.now, 0) > 0 ==> End(w.now, Base(cfg, w)) <= w.report.value.length)
  }

  ghost predicate Ordered(cfg: Config, w: World) {
    && Aligned(Points(w.chain), w.now, Base(cfg, w), CursorOf(w))
    && SkipOk(cfg, w)
    && ReportOk(cfg, w)
  }

  lemma PositionUnique(points: seq<TxPoint>, q: TxPoint, j: int)
    requires PointsOk(points) && CursorAt(points, q, j)
    ensures Cursor(points, q) == j
  {
    if j >= 0 {
      IndexOfAt(points, j);
    }
  }

  // ---- which part of a complete answer is new ----

  /** A point outside the handled run is neither queued, finalized nor stored. */
  lemma OutsideRun(points: seq<TxPoint>, s: Snapshot, b: nat, x: nat)
    requires PointsOk(points) && Contiguous(points, s, b) && StoredOk(s)
    requires x < |points| && !(b <= x < End(s, b))
    ensures !Queued(s, points[x].sig) && !FinalizedSig(s, points[x].sig)
    ensures forall e :: e in s.stored ==> e.sig != points[x].sig
  {
    forall p | p in s.queue
      ensures p.sig != points[x].sig
    {
      var i :| 0 <= i < |s.queue| && s.queue[i] == p;
      assert points[b + |s.finalized| + i] == p;
    }
    forall p | p in s.finalized
      ensures p.sig != points[x].sig
    {
      var i :| 0 <= i < |s.finalized| && s.finalized[i] == p;
      assert points[b + i] == p;
    }
    assert s.queue != [] ==> s.queue[0] in s.queue;
  }

  /** After the cursor, the known transactions are exactly the handled ones. */
  lemma KnownAreHandled(points: seq<TxPoint>, s: Snapshot, b: nat, j: int, x: nat)
    requires PointsOk(points) && Aligned(points, s, b, j) && StoredOk(s)
    requires !MustProcess(s) && (s.queried == NO_POINT ==> s.finalized == [])
    requires j < x < |points|
    ensures Known(s, points[x].sig) <==> b <= x < End(s, b)
  {
    if b <= x < End(s, b) {
      assert s.queue[x - b - |s.finalized|] == points[x];
      assert Queued(s, points[x].sig);
    } else {
      OutsideRun(points, s, b, x);
    }
  }

  /** With a cursor, a complete answer's news are the unhandled rest of the history. */
  lemma NewsAfterCursor(points: seq<TxPoint>, s: Snapshot, b: nat, j: int, m: nat, start: u64)
    requires PointsOk(points) && Aligned(points, s, b, j) && StoredOk(s) && !MustProcess(s)
    requires s.queried != NO_POINT && s.queried.sig != ZERO_SIGNATURE
    requires End(s, b) <= m <= |points|
    ensures NewsOf(s, points[j + 1..m]) == points[End(s, b)..m]
    ensures BatchOf(s, start, points[j + 1..m]) == points[End(s, b)..m]
  {
    hide PointsOk, StoredOk, Known, Filter;
    var listed, k := points[j + 1..m], End(s, b) - (j + 1);
    forall i | 0 <= i < |listed|
      ensures Unknown(s)(listed[i]) <==> k <= i
    {
      KnownAreHandled(points, s, b, j, j + 1 + i);
    }
    hide Aligned;
    FilterSuffix(listed, Unknown(s), k);
    assert listed[k..] == points[End(s, b)..m];
    FilterAll(points[End(s, b)..m], FromStart(s.queried, start));
  }

  /** Filtering out one contiguous stretch of a prefix. */
  lemma FilterAround(points: seq<TxPoint>, keep: TxPoint -> bool, b: nat, h: nat, m: nat)
    requires b <= h && b <= |points| && m <= |points| && (b < h ==> h <= m)
    requires forall x :: 0 <= x < m ==> (keep(points[x]) <==> !(b <= x < h))
    ensures Filter(points[..m], keep) == FrontOf(points, b, m) + RestOf(points, h, m)
  {
    var front, rest := FrontOf(points, b, m), RestOf(points, h, m);
    var gap := if h <= m then points[b..h] else [];
    assert points[..m] == front + gap + rest;
    FilterAll(front, keep);
    FilterNone(gap, keep);
    FilterAll(rest, keep);
    FilterConcat(front + gap, rest, keep);
    FilterConcat(front, gap, keep);
    assert front + [] == front;
  }

  /** The start filter keeps exactly what lies at or after the first position it accepts. */
  lemma StartFilterSplits(points: seq<TxPoint>, b: nat, h: nat, m: nat, start: u64)
    requires PointsOk(points) && b == FirstFrom(points, start)
    requires b <= h && m <= |points|
    ensures Filter(FrontOf(points, b, m) + RestOf(points, h, m), FromStart(NO_POINT, start))
            == RestOf(points, h, m)
  {
    var front, rest, keep := FrontOf(points, b, m), RestOf(points, h, m), FromStart(NO_POINT, start);
    forall x | b <= x < |points|
      ensures keep(points[x])
    {
      assert points[b].slot <= points[x].slot;
    }
    hide PointsOk, FirstFrom;
    FilterNone(front, keep);
    FilterAll(rest, keep);
    FilterConcat(front, rest, keep);
    assert [] + rest == rest;
  }

  /** Without one, they are the front before the start slot and the unhandled rest; the start filter
      keeps the rest. */
  lemma NewsFromGenesis(points: seq<TxPoint>, s: Snapshot, b: nat, m: nat, start: u64)
    requires PointsOk(points) && Aligned(points, s, b, -1) && StoredOk(s) && !MustProcess(s)
    requires s.queried == NO_POINT && s.finalized == []
    requires b == FirstFrom(points, start) && m <= |points|
    requires s.queue == [] || End(s, b) <= m
    ensures NewsOf(s, points[..m]) == FrontOf(points, b, m) + RestOf(points, End(s, b), m)
    ensures BatchOf(s, start, points[..m]) == RestOf(points, End(s, b), m)
  {
    forall x | 0 <= x < m
      ensures Unknown(s)(points[x]) <==> !(b <= x < End(s, b))
    {
      KnownAreHandled(points, s, b, -1, x);
    }
    StartFilterSplits(points, b, End(s, b), m, start);
    hide Known, Aligned, StoredOk, PointsOk, FirstFrom;
    FilterAround(points, Unknown(s), b, End(s, b), m);
  }

  function FrontOf(points: seq<TxPoint>, b: nat, m: nat): seq<TxPoint>
    requires b <= |points| && m <= |points|
  {
    if b <= m then points[..b] else points[..m]
  }

  function RestOf(points: seq<TxPoint>, h: nat, m: nat): seq<TxPoint>
    requires m <= |points|
  {
    if h <= m then points[h..m] else []
  }

  // ---- alignment is kept ----

  /** Queueing the unhandled rest of the first m positions, with or without moving the cursor. */
  lemma PushAligned(points: seq<TxPoint>, s: Snapshot, b: nat, j: int, m: nat, s': Snapshot)
    requires Aligned(points, s, b, j) && End(s, b) < m <= |points|
    requires s' == s.(queue := s.queue + points[End(s, b)..m], queried := s'.queried)
    requires s'.queried == s.queried || s'.queried == points[m - 1]
    ensures Aligned(points, s', b, if s'.queried == s.queried then j else m - 1)
    ensures End(s', b) == m
  {
    PushContiguous(points, s, b, m, s');
    hide Contiguous;
  }

  lemma PushContiguous(points: seq<TxPoint>, s: Snapshot, b: nat, m: nat, s': Snapshot)
    requires Contiguous(points, s, b) && End(s, b) < m <= |points|
    requires s'.finalized == s.finalized && s'.queue == s.queue + points[End(s, b)..m]
    ensures Contiguous(points, s', b) && End(s', b) == m
  {
    JoinSlices(points, b + |s.finalized|, End(s, b), m);
  }

  lemma JoinSlices(points: seq<TxPoint>, i: nat, j: nat, k: nat)
    requires i <= j <= k <= |points|
    ensures points[i..j] + points[j..k] == points[i..k]
    ensures |points[i..j] + points[j..k]| == k - i
  {
  }

  /** With nothing finalized, the run may be taken to begin anywhere that keeps the queue in place. */
  lemma SkipAligned(points: seq<TxPoint>, s: Snapshot, b: nat, k: nat, s': Snapshot)
    requires Aligned(points, s, b, -1) && s.finalized == []
    requires k < |points| && (s.queue != [] ==> k + 1 == b) && k + 1 <= b
    requires s' == s.(processed := points[k], queried := points[k]) && points[k] != NO_POINT
    ensures Aligned(points, s', k + 1, k)
  {
    SkipContiguous(points, s, b, k + 1, s');
    hide Contiguous;
  }

  lemma SkipContiguous(points: seq<TxPoint>, s: Snapshot, b: nat, b': nat, s': Snapshot)
    requires Contiguous(points, s, b) && s.finalized == [] && b' <= |points|
    requires s.queue != [] ==> b' == b
    requires s'.queue == s.queue && s'.finalized == s.finalized
    ensures Contiguous(points, s', b')
  {
    assert points[b'..b'] == [];
  }

  lemma FinalizeAligned(points: seq<TxPoint>, s: Snapshot, b: nat, j: int, s': Snapshot)
    requires PointsOk(points) && Aligned(points, s, b, j) && s.queue != []
    requires s.queried != NO_POINT ==> Last(s.queue) == s.queried
    requires s'.queue == s.queue[1..] && s'.finalized == s.finalized + [s.queue[0]]
    requires s'.queried == s.queried
    ensures Aligned(points, s', b, j) && End(s', b) == End(s, b)
  {
    hide PointsOk;
    FinalizeContiguous(points, s, b, s');
    if s.queried != NO_POINT {
      CursorIsLastQueued(points, s, b, j);
    }
  }

  lemma FinalizeContiguous(points: seq<TxPoint>, s: Snapshot, b: nat, s': Snapshot)
    requires Contiguous(points, s, b) && s.queue != []
    requires s'.queue == s.queue[1..] && s'.finalized == s.finalized + [s.queue[0]]
    ensures Contiguous(points, s', b)
  {
    MoveBorder(points, b, b + |s.finalized|, End(s, b));
  }

  /** The first element behind a border moves to the front of it. */
  lemma MoveBorder(points: seq<TxPoint>, b: nat, f: nat, e: nat)
    requires b <= f < e <= |points|
    ensures points[f..e][0] == points[f]
    ensures points[b..f] + [points[f]] == points[b..f + 1]
    ensures points[f..e][1..] == points[f + 1..e]
  {
  }

  lemma CursorIsLastQueued(points: seq<TxPoint>, s: Snapshot, b: nat, j: int)
    requires PointsOk(points) && Contiguous(points, s, b) && CursorAt(points, s.queried, j)
    requires s.queue != [] && s.queried != NO_POINT && Last(s.queue) == s.queried
    ensures j == End(s, b) - 1
  {
    var e := End(s, b) - 1;
    assert Last(s.queue) == points[e];
    IndexOfAt(points, e);
    IndexOfAt(points, j);
  }

  lemma GrowAligned(points: seq<TxPoint>, more: seq<TxPoint>, s: Snapshot, b: nat, j: int)
    requires Aligned(points, s, b, j)
    ensures Aligned(points + more, s, b, j)
  {
  }

  lemma FirstFromGrows(points: seq<TxPoint>, more: seq<TxPoint>, start: u64)
    ensures FirstFrom(points, start) <= FirstFrom(points + more, start)
    ensures FirstFrom(points, start) < |points| ==> FirstFrom(points + more, start) == FirstFrom(points, start)
  {
    var at := FirstFrom(points, start);
    assert forall i :: 0 <= i < |points| ==> (points + more)[i] == points[i];
    hide FirstFrom;
    var grown := FirstFrom(points + more, start);
    assert grown < |points| ==> start <= (points + more)[grown].slot;
  }

  // ---- the invariant is kept ----

  /** Growth can only move the base while nothing is handled and no cursor is set. */
  lemma GrowBase(cfg: Config, w: World, w': World, more: seq<TxPoint>)
    requires Aligned(Points(w.chain), w.now, Base(cfg, w), CursorOf(w)) && SkipOk(cfg, w)
    requires Points(w'.chain) == Points(w.chain) + more && w'.now == w.now && w'.skip == w.skip
    ensures Base(cfg, w) <= Base(cfg, w') <= |w'.chain|
    ensures w.now.queried != NO_POINT || End(w.now, 0) > 0 ==> Base(cfg, w') == Base(cfg, w)
    ensures SkipOk(cfg, w')
  {
    FirstFromGrows(Points(w.chain), more, cfg.start);
  }

  lemma GrowKeepsOrdered(cfg: Config, w: World, txs: seq<Tx>, newHeight: u64)
    requires ChainOk(w.chain) && Ordered(cfg, w) && CanGrow(w, txs, newHeight)
    ensures Ordered(cfg, w.(chain := w.chain + txs, height := newHeight))
  {
    hide *;
    var w' := w.(chain := w.chain + txs, height := newHeight);
    OrderedParts(cfg, w);
    GrownOk(w, txs, newHeight);
    GrowBase(cfg, w, w', Points(txs));
    GrownCursor(w, w', Points(txs), Base(cfg, w));
    GrownAligned(cfg, w, w', Points(txs));
    GrownReport(cfg, w, w', CursorOf(w));
  }

  lemma GrownOk(w: World, txs: seq<Tx>, newHeight: u64)
    requires CanGrow(w, txs, newHeight)
    ensures PointsOk(Points(w.chain + txs)) && Points(w.chain + txs) == Points(w.chain) + Points(txs)
  {
  }

  lemma GrownCursor(w: World, w': World, more: seq<TxPoint>, b: nat)
    requires PointsOk(Points(w'.chain)) && Points(w'.chain) == Points(w.chain) + more && w'.now == w.now
    requires Aligned(Points(w.chain), w.now, b, CursorOf(w))
    ensures CursorOf(w') == CursorOf(w)
  {
    hide PointsOk, IndexOf;
    AlignedCursor(Points(w.chain), w.now, b, CursorOf(w));
    hide Aligned, CursorAt;
    PositionUnique(Points(w'.chain), w.now.queried, CursorOf(w));
  }

  lemma GrownAligned(cfg: Config, w: World, w': World, more: seq<TxPoint>)
    requires Aligned(Points(w.chain), w.now, Base(cfg, w), CursorOf(w))
    requires Points(w'.chain) == Points(w.chain) + more && w'.now == w.now
    requires Base(cfg, w') <= |w'.chain|
    requires w.now.queried != NO_POINT || End(w.now, 0) > 0 ==> Base(cfg, w') == Base(cfg, w)
    ensures Aligned(Points(w'.chain), w'.now, Base(cfg, w'), CursorOf(w))
  {
    hide PointsOk, IndexOf, FirstFrom, Base;
    GrowAligned(Points(w.chain), more, w.now, Base(cfg, w), CursorOf(w));
    if End(w.now, 0) == 0 && w.now.queried == NO_POINT {
      EmptyAligned(Points(w'.chain), w.now, Base(cfg, w'));
    }
  }

  /** A height reading still dates from after everything handled. */
  lemma GrownReport(cfg: Config, w: World, w': World, j: int)
    requires Ordered(cfg, w) && CursorOf(w) == j == CursorOf(w')
    requires w'.now == w.now && w'.report == w.report && |w.chain| <= |w'.chain|
    requires w.now.queried != NO_POINT || End(w.now, 0) > 0 ==> Base(cfg, w') == Base(cfg, w)
    requires Aligned(Points(w'.chain), w'.now, Base(cfg, w'), j) && SkipOk(cfg, w')
    ensures Ordered(cfg, w')
  {
    hide IndexOf, FirstFrom, Aligned, SkipOk, Base;
  }

  lemma AlignedCursor(points: seq<TxPoint>, s: Snapshot, b: nat, j: int)
    requires Aligned(points, s, b, j)
    ensures CursorAt(points, s.queried, j) && j < End(s, b) <= |points|
    ensures forall more :: CursorAt(points + more, s.queried, j)
  {
  }

  lemma EmptyAligned(points: seq<TxPoint>, s: Snapshot, b: nat)
    requires s.queue == [] && s.finalized == [] && s.queried == NO_POINT && b <= |points|
    ensures Aligned(points, s, b, -1)
  {
  }

  /** What the invariant says about a height reading and the handled run. */
  lemma ReadingFacts(cfg: Config, w: World, m: nat)
    requires Ordered(cfg, w) && w.report.Some? && w.report.value.length <= m <= |w.chain|
    ensures Aligned(Points(w.chain), w.now, Base(cfg, w), CursorOf(w)) && Base(cfg, w) <= |w.chain|
    ensures CursorOf(w) + 1 <= m
    ensures w.now.queried != NO_POINT || End(w.now, 0) > 0 ==> End(w.now, Base(cfg, w)) <= m
    ensures w.now.queried == NO_POINT ==> CursorOf(w) == -1
    ensures w.now.queried == NO_POINT ==> Base(cfg, w) == FirstFrom(Points(w.chain), cfg.start)
  {
    hide IndexOf, FirstFrom;
    OrderedFacts(cfg, w);
  }

  /** What a complete answer adds when there is a cursor. */
  lemma CompleteAnswerAfterCursor(cfg: Config, w: World, m: nat)
    requires Basic(w) && Ordered(cfg, w) && !MustProcess(w.now) && w.now.queried != NO_POINT
    requires w.report.Some? && w.report.value.length <= m <= |w.chain|
    ensures Base(cfg, w) <= |w.chain| && End(w.now, Base(cfg, w)) <= m
    ensures NewsOf(w.now, FullHistory(w, m)) == Points(w.chain)[End(w.now, Base(cfg, w))..m]
    ensures BatchOf(w.now, cfg.start, FullHistory(w, m)) == Points(w.chain)[End(w.now, Base(cfg, w))..m]
  {
    hide *;
    ReadingFacts(cfg, w, m);
    QuietFacts(w);
    FullHistoryIs(w, m);
    NewsAfterCursor(Points(w.chain), w.now, Base(cfg, w), CursorOf(w), m, cfg.start);
  }

  /** What a complete answer adds before there is one. */
  lemma CompleteAnswerFromGenesis(cfg: Config, w: World, m: nat)
    requires Basic(w) && Ordered(cfg, w) && !MustProcess(w.now) && w.now.queried == NO_POINT
    requires w.report.Some? && w.report.value.length <= m <= |w.chain|
    ensures Base(cfg, w) <= |w.chain| && w.now.finalized == []
    ensures w.now.queue != [] ==> End(w.now, Base(cfg, w)) <= m
    ensures NewsOf(w.now, FullHistory(w, m))
            == FrontOf(Points(w.chain), Base(cfg, w), m) + RestOf(Points(w.chain), End(w.now, Base(cfg, w)), m)
    ensures BatchOf(w.now, cfg.start, FullHistory(w, m)) == RestOf(Points(w.chain), End(w.now, Base(cfg, w)), m)
  {
    hide *;
    ReadingFacts(cfg, w, m);
    QuietFacts(w);
    FullHistoryIs(w, m);
    assert w.now.queue != [] ==> End(w.now, 0) > 0 by { QueueCounts(w.now); }
    assert Points(w.chain)[0..m] == Points(w.chain)[..m];
    NewsFromGenesis(Points(w.chain), w.now, Base(cfg, w), m, cfg.start);
  }

  lemma QueueCounts(s: Snapshot)
    ensures s.queue != [] || s.finalized != [] <==> End(s, 0) > 0
  {
  }

  /** What a complete answer adds, in both cursor cases. */
  lemma CompleteAnswer(cfg: Config, w: World, m: nat)
    requires Basic(w) && Ordered(cfg, w) && !MustProcess(w.now)
    requires w.report.Some? && w.report.value.length <= m <= |w.chain|
    ensures var points := Points(w.chain);
            var b := Base(cfg, w);
            var rest := RestOf(points, End(w.now, b), m);
            && (w.now.queried != NO_POINT || End(w.now, 0) > 0 ==> End(w.now, b) <= m)
            && (w.now.queried == NO_POINT ==> w.now.finalized == [])
            && b <= |points|
            && NewsOf(w.now, FullHistory(w, m))
               == (if w.now.queried == NO_POINT then FrontOf(points, b, m) else []) + rest
            && BatchOf(w.now, cfg.start, FullHistory(w, m)) == rest
  {
    hide *;
    QueueCounts(w.now);
    if w.now.queried != NO_POINT {
      CompleteAnswerAfterCursor(cfg, w, m);
      RestIs(Points(w.chain), End(w.now, Base(cfg, w)), m);
    } else {
      CompleteAnswerFromGenesis(cfg, w, m);
    }
  }

  lemma RestIs(points: seq<TxPoint>, h: nat, m: nat)
    requires h <= m <= |points|
    ensures RestOf(points, h, m) == points[h..m] && [] + points[h..m] == points[h..m]
  {
  }

  /** What the basic invariant says when the cursors agree. */
  lemma QuietFacts(w: World)
    requires Basic(w) && !MustProcess(w.now)
    ensures PointsOk(Points(w.chain)) && StoredOk(w.now)
    ensures w.now.queried == NO_POINT ==> w.now.processed == NO_POINT && w.now.finalized == []
    ensures w.now.queried != NO_POINT ==> w.now.queried.sig != ZERO_SIGNATURE
  {
  }

  lemma OrderedFacts(cfg: Config, w: World)
    requires Ordered(cfg, w)
    ensures Base(cfg, w) <= |w.chain|
    ensures w.now.queried == NO_POINT ==> CursorOf(w) == -1
    ensures w.now.queried == NO_POINT ==> Base(cfg, w) == FirstFrom(Points(w.chain), cfg.start)
    ensures w.now.queried != NO_POINT ==> CursorOf(w) < End(w.now, Base(cfg, w))
    ensures w.now.queried != NO_POINT && End(w.now, 0) == 0 ==> End(w.now, Base(cfg, w)) == CursorOf(w) + 1
  {
    hide IndexOf, FirstFrom;
  }

  lemma FullHistoryIs(w: World, m: nat)
    requires m <= |w.chain| && CursorOf(w) + 1 <= m
    ensures FullHistory(w, m) == Points(w.chain)[CursorOf(w) + 1..m]
  {
  }

  lemma QueryKeepsOrdered(cfg: Config, w: World, m: nat, hidden: set<Signature>, refused: bool, c: nat)
    requires Basic(w) && Ordered(cfg, w) && CanQuery(w, m, hidden, refused, c)
    ensures var w' := AfterQuery(cfg, w, m, hidden, refused, c);
            !w'.partial ==> Ordered(cfg, w')
  {
    hide AfterQuery, ListedAt, FullHistory, NewsOf, BatchOf, CanQuery, Basic, Aligned, PushOf, SkipTo, PassedOver;
    hide Ordered, Base, IndexOf, FirstFrom, PointsOk;
    var w' := AfterQuery(cfg, w, m, hidden, refused, c);
    if c == 0 {
      NoEffect(cfg, w, m, hidden, refused);
      QuietOrdered(cfg, w, w');
    } else if !w'.partial {
      var points, s, b := Points(w.chain), w.now, Base(cfg, w);
      assert ChainOk(w.chain) by { BasicChain(w); }
      QueryEffect(cfg, w, m, hidden, refused, c);
      CanQueryBounds(w, m, hidden, refused, c);
      CompleteAnswer(cfg, w, m);
      assert ListedAt(w, m, hidden, refused) == FullHistory(w, m);
      if RestOf(points, End(s, b), m) != [] {
        PushOrdered(cfg, w, w', m);
      } else if s.queried == NO_POINT && FrontOf(points, b, m) != [] {
        SkipOrdered(cfg, w, w', m);
      } else {
        QuietOrdered(cfg, w, w');
      }
    }
  }

  lemma BasicChain(w: World)
    requires Basic(w)
    ensures ChainOk(w.chain)
  {
  }

  lemma QuietOrdered(cfg: Config, w: World, w': World)
    requires Ordered(cfg, w)
    requires w'.chain == w.chain && w'.skip == w.skip
    requires w'.report == None || w'.report == w.report
    requires w'.now.queue == w.now.queue && w'.now.finalized == w.now.finalized
    requires w'.now.queried == w.now.queried
    ensures Ordered(cfg, w')
  {
    hide IndexOf, FirstFrom, Aligned;
    QuietAligned(Points(w.chain), w.now, w'.now, Base(cfg, w), CursorOf(w));
  }

  lemma QuietAligned(points: seq<TxPoint>, s: Snapshot, s': Snapshot, b: nat, j: int)
    requires Aligned(points, s, b, j)
    requires s'.queue == s.queue && s'.finalized == s.finalized && s'.queried == s.queried
    ensures Aligned(points, s', b, j)
  {
  }

  lemma PushOrdered(cfg: Config, w: World, w': World, m: nat)
    requires ChainOk(w.chain) && Ordered(cfg, w)
    requires End(w.now, Base(cfg, w)) < m <= |w.chain|
    requires PushOf(w, w', Points(w.chain)[End(w.now, Base(cfg, w))..m])
    requires w'.chain == w.chain && w'.skip == w.skip && w'.report == None
    requires w.now.queried == NO_POINT ==> w.now.finalized == []
    ensures Ordered(cfg, w')
  {
    hide IndexOf, FirstFrom, PointsOk, Aligned, Base, Ordered, SkipOk;
    var points, b := Points(w.chain), Base(cfg, w);
    assert Last(points[End(w.now, b)..m]) == points[m - 1];
    OrderedParts(cfg, w);
    PushAligned(points, w.now, b, CursorOf(w), m, w'.now);
    if w'.now.queried != w.now.queried {
      LastAligned(points, w'.now, b, m);
      PushSkip(cfg, w, w', m);
      OrderedFrom(cfg, w', m - 1);
    } else {
      PushSkip(cfg, w, w', m);
      OrderedFrom(cfg, w', CursorOf(w));
    }
  }

  /** The parts put together, without a height reading. */
  lemma OrderedFrom(cfg: Config, w: World, j: int)
    requires Aligned(Points(w.chain), w.now, Base(cfg, w), j) && CursorOf(w) == j
    requires SkipOk(cfg, w) && w.report == None
    ensures Ordered(cfg, w)
  {
    hide IndexOf, FirstFrom, Aligned;
  }

  lemma PushSkip(cfg: Config, w: World, w': World, m: nat)
    requires SkipOk(cfg, w) && w'.chain == w.chain && w'.skip == w.skip
    requires w'.now.queue != [] && (w.now.queried != NO_POINT ==> w'.now.queried != NO_POINT)
    ensures SkipOk(cfg, w') && Base(cfg, w') == Base(cfg, w)
  {
    hide IndexOf, FirstFrom;
  }

  lemma OrderedParts(cfg: Config, w: World)
    requires Ordered(cfg, w)
    ensures Aligned(Points(w.chain), w.now, Base(cfg, w), CursorOf(w)) && SkipOk(cfg, w)
    ensures Base(cfg, w) <= |w.chain|
  {
    hide IndexOf, FirstFrom;
  }

  lemma LastAligned(points: seq<TxPoint>, s: Snapshot, b: nat, m: nat)
    requires PointsOk(points) && Aligned(points, s, b, m - 1) && m > 0
    ensures Cursor(points, s.queried) == m - 1
    ensures s.queried != NO_POINT
  {
    PositionUnique(points, s.queried, m - 1);
  }

  lemma SkipOrdered(cfg: Config, w: World, w': World, m: nat)
    requires ChainOk(w.chain) && Ordered(cfg, w)
    requires w.now.queried == NO_POINT && w.now.finalized == [] && m <= |w.chain|
    requires Base(cfg, w) <= |w.chain| && FrontOf(Points(w.chain), Base(cfg, w), m) != []
    requires w.now.queue != [] ==> Base(cfg, w) <= m
    requires SkipTo(w, w', Last(FrontOf(Points(w.chain), Base(cfg, w), m)))
    requires w'.chain == w.chain && w'.report == None
    ensures Ordered(cfg, w')
  {
    hide IndexOf, FirstFrom, Aligned, PointsOk;
    var points, b := Points(w.chain), Base(cfg, w);
    var k := (if b <= m then b else m) - 1;
    NonZeroAt(points, k);
    assert Last(FrontOf(points, b, m)) == points[k];
    IndexOfAt(points, k);
    if w'.now.queried != w.now.queried {
      SkipAligned(points, w.now, b, k, w'.now);
      PositionUnique(points, w'.now.queried, k);
    } else {
      QuietOrdered(cfg, w, w');
    }
  }

  lemma NonZeroAt(points: seq<TxPoint>, k: nat)
    requires PointsOk(points) && k < |points|
    ensures points[k] != NO_POINT
  {
  }

  lemma PopOrdered(cfg: Config, w: World, w': World)
    requires ChainOk(w.chain) && Ordered(cfg, w) && w.now.queue != []
    requires w.now.queried != NO_POINT ==> Last(w.now.queue) == w.now.queried
    requires w'.chain == w.chain && w'.skip == w.skip && w'.report == None
    requires w'.now.queue == w.now.queue[1..] && w'.now.finalized == w.now.finalized + [w.now.queue[0]]
    requires w'.now.queried == w.now.queried
    ensures Ordered(cfg, w')
  {
    PointsAreOk(w.chain);
    hide IndexOf, FirstFrom, Aligned, PointsOk, ChainOk;
    FinalizeAligned(Points(w.chain), w.now, Base(cfg, w), CursorOf(w), w'.now);
  }

  lemma ProcessKeepsOrdered(cfg: Config, w: World, c: nat)
    requires Basic(w) && Ordered(cfg, w) && CanProcess(cfg, w, c)
    ensures Ordered(cfg, AfterProcess(cfg, w, c))
  {
    var s, w' := w.now, AfterProcess(cfg, w, c);
    var block, outcome := HeadTx(w).block, OutcomeOf(cfg.decoding, HeadTx(w).content);
    AttemptEvents(s, block, outcome, c);
    assert s.queried != NO_POINT ==> Last(s.queue) == s.queried;
    hide ProcessAt, OutcomeOf, FromChain, QueueOk, StoredOk, DispatchOk, Ordered;
    if c == ProcessLength(s, block, outcome) {
      PopOrdered(cfg, w, w');
    } else {
      QuietOrdered(cfg, w, w');
    }
  }

  lemma StepKeepsOrdered(cfg: Config, w: World, a: Action, w': World)
    requires Basic(w) && Step(cfg, w, a, w')
    requires !w.partial ==> Ordered(cfg, w)
    ensures !w'.partial ==> Ordered(cfg, w')
  {
    hide Basic, Ordered, AfterQuery, CanQuery, AfterProcess, CanProcess, CanGrow, PassedOver;
    PartialStays(cfg, w, a, w');
    if !w.partial {
      match a
      case Grow(txs, newHeight) =>
        BasicChain(w);
        GrowKeepsOrdered(cfg, w, txs, newHeight);
      case ReadHeight => ReadKeepsOrdered(cfg, w, w');
      case Query(m, hidden, refused, c) => QueryKeepsOrdered(cfg, w, m, hidden, refused, c);
      case Process(c) => ProcessKeepsOrdered(cfg, w, c);
      case Crash => QuietOrdered(cfg, w, w');
    }
  }

  lemma PartialStays(cfg: Config, w: World, a: Action, w': World)
    requires Step(cfg, w, a, w')
    ensures w.partial ==> w'.partial
  {
    hide PassedOver, FullHistory, ListedAt, QueryAt, ProcessAt, OutcomeOf;
  }

  lemma ReadKeepsOrdered(cfg: Config, w: World, w': World)
    requires Ordered(cfg, w) && w' == w.(report := Some(HeightReport(w.height, |w.chain|)))
    ensures Ordered(cfg, w')
  {
    hide IndexOf, FirstFrom, Aligned;
    OrderedParts(cfg, w);
    EndInside(Points(w.chain), w.now, Base(cfg, w), CursorOf(w));
  }

  lemma EndInside(points: seq<TxPoint>, s: Snapshot, b: nat, j: int)
    requires Aligned(points, s, b, j)
    ensures End(s, b) <= |points| && j < End(s, b)
  {
  }

  lemma {:induction false} RunsStayOrdered(cfg: Config, ws: seq<World>, actions: seq<Action>)
    requires IsRun(cfg, ws, actions)
    ensures !Last(ws).partial ==> Ordered(cfg, Last(ws))
  {
    if actions == [] {
      InitOrdered(cfg, ws[0]);
    } else {
      RunPrefix(cfg, ws, actions);
      RunsStayOrdered(cfg, ws[..|actions|], actions[..|actions| - 1]);
      RunsKeepBasic(cfg, ws[..|actions|], actions[..|actions| - 1]);
      hide Step, Ordered, Basic, IsRun;
      StepKeepsOrdered(cfg, ws[|actions| - 1], Last(actions), Last(ws));
    }
  }

  lemma InitOrdered(cfg: Config, w: World)
    requires Init(w)
    ensures Ordered(cfg, w)
  {
  }
}
