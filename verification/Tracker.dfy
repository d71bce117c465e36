/** The event tracker's transaction polling as it runs: it pages through the node's history, writes the
    durable state one bolt transaction at a time, and delivers events. Every method keeps the tracker in
    a state the polling machine reaches, so everything proved of the machine's runs holds of it. */
module Tracker {
  import opened Sequences
  import opened Bytes
  import opened Records
  import opened Events
  import opened Chain
  import opened Polling
  import opened PollMachine
  import opened PollBasic
  import opened Node
  import opened Paging
  import opened Store

  class EventSubscriber {
    ghost var delivered: seq<Event>
    ghost var failures: nat

    /** Takes the event, or fails. */
    method AddEvent(e: Event) returns (ok: bool)
      modifies this
      ensures delivered == if ok then old(delivered) + [e] else old(delivered)
      ensures failures == old(failures) + if ok then 0 else 1
    {
      ok := *;
      if ok {
        delivered := delivered + [e];
      } else {
        failures := failures + 1;
      }
    }
  }

  /** Pages through the node's history. */
  class SignatureFetcher {
    const node: SolanaNode

    constructor (node: SolanaNode)
      ensures this.node == node
    {
      this.node := node;
    }

    /** Gives up only after every try failed. */
    method GetPageWithRetry(before: Signature, until: Signature) returns (r: Result<seq<TxPoint>, NodeError>)
      requires node.Valid()
      modifies node`chain, node`height, node`hidden, node`faults, node`refusals
      ensures node.Valid() && GrewTo(old(node.chain), old(node.height), node.chain, node.height)
      ensures old(node.hidden) <= node.hidden && node.refusals >= old(node.refusals)
      ensures r.Ok? ==> r == PageOf(node.View(|node.chain|), before, until)
      ensures node.faults >= old(node.faults) + if r.Err? then 10 else 0
    {
      r := Err(Unavailable);
      NotGrown(node.chain, node.height);
      for count := 0 to RETRY_COUNT
        invariant node.Valid() && GrewTo(old(node.chain), old(node.height), node.chain, node.height)
        invariant old(node.hidden) <= node.hidden
        invariant node.faults == old(node.faults) + count && node.refusals >= old(node.refusals)
      {
        ghost var chain, height := node.chain, node.height;
        r := node.GetSignaturesForAddress(before, until);
        GrewTwice(old(node.chain), old(node.height), chain, height, node.chain, node.height);
        if r.Ok? {
          return;
        }
      }
      r := Err(Unavailable);
    }

    static method KeepFromSlot(signatures: seq<TxPoint>, slot: u64) returns (kept: seq<TxPoint>)
      ensures kept == Filter(signatures, SlotFrom(slot))
    {
      kept := [];
      for i := 0 to |signatures|
        invariant kept == Filter(signatures[..i], SlotFrom(slot))
      {
        assert signatures[..i + 1][..i] == signatures[..i];
        if signatures[i].slot >= slot {
          kept := kept + [signatures[i]];
        }
      }
      assert signatures[..|signatures|] == signatures;
    }

    /** Fetches what precedes `beforeStart`, the oldest signature of a full first page, down to the cursor
        or, when the cursor was not found, down to its slot. `points` is the history of the first page and
        `first` what was hidden then; `hidden` adds what was forgotten while fetching. */
    method CatchUpLoop(lastQueried: TxPoint, beforeStart: Signature, cursorNotFound: bool,
                       ghost points: seq<TxPoint>, ghost top: nat, ghost first: set<Signature>)
      returns (r: Result<seq<TxPoint>, NodeError>, ghost hidden: set<Signature>)
      requires node.Valid() && points <= Points(node.chain) && first <= node.hidden
      requires CursorKnown(points, lastQueried, cursorNotFound)
      requires Floor(points, lastQueried, cursorNotFound) <= top < |points| && points[top].sig == beforeStart
      modifies node`chain, node`height, node`hidden, node`faults, node`refusals
      ensures node.Valid() && GrewTo(old(node.chain), old(node.height), node.chain, node.height)
      ensures old(node.hidden) <= node.hidden && node.refusals >= old(node.refusals)
      ensures node.faults >= old(node.faults) + if r.Err? then 10 else 0
      ensures r.Ok? ==>
                var floor := Floor(points, lastQueried, cursorNotFound);
                && r.value == Reverse(Segment(points, floor, top, hidden))
                && ForgottenSince(points, floor, top, first, node.hidden, hidden)
    {
      hide Floor, PageOf, ChainOk, PointsOk, Visible, CursorKnown, Extends, Filter, Reverse, Segment;
      hide ForgottenSince;
      var before, until := beforeStart, if cursorNotFound then ZERO_SIGNATURE else lastQueried.sig;
      var signatures: seq<TxPoint> := [];
      ghost var floor, pos := Floor(points, lastQueried, cursorNotFound), top;
      hidden := first;
      NotGrown(node.chain, node.height);
      NothingYet(points, top, first, node.hidden);
      while true
        invariant node.Valid() && GrewTo(old(node.chain), old(node.height), node.chain, node.height)
        invariant points <= Points(node.chain) && old(node.hidden) <= node.hidden
        invariant floor <= pos <= top && points[pos].sig == before
        invariant ForgottenSince(points, pos, top, first, node.hidden, hidden)
        invariant signatures == Reverse(Segment(points, pos, top, hidden))
        invariant node.faults >= old(node.faults) && node.refusals >= old(node.refusals)
        decreases pos
      {
        ghost var chain, height, known := node.chain, node.height, node.hidden;
        var page := GetPageWithRetry(before, until);
        GrewTwice(old(node.chain), old(node.height), chain, height, node.chain, node.height);
        if page.Err? {
          return Err(page.error), hidden;
        }
        PointsGrew(chain, node.chain, points);
        ChainPoints(node.chain);
        ForgottenLater(points, pos, top, first, known, node.hidden, hidden);
        ghost var cut, joined := OneMorePage(points, Points(node.chain), first, node.hidden, lastQueried,
                                             cursorNotFound, pos, top, hidden);
        var appended := page.value;
        if cursorNotFound {
          appended := KeepFromSlot(page.value, lastQueried.slot);
        }
        signatures := signatures + appended;
        hidden, pos := joined, cut;
        if |appended| < MAX_SIGNATURES {
          break;
        }
        before := page.value[|page.value| - 1].sig;
      }
      return Ok(signatures), hidden;
    }

    /** Everything newer than the cursor, newest first; when the node refuses the cursor, everything at or
        above its slot. What was appended while paging is left for the next poll; what was forgotten while
        paging may or may not be listed. */
    method SignaturesForAddress(lastQueried: TxPoint)
      returns (r: Result<seq<TxPoint>, NodeError>, ghost m: nat, ghost refused: bool, ghost hidden: set<Signature>)
      requires node.Valid()
      modifies node`chain, node`height, node`hidden, node`faults, node`refusals
      ensures node.Valid() && GrewTo(old(node.chain), old(node.height), node.chain, node.height)
      ensures |old(node.chain)| <= m <= |node.chain|
      ensures refused ==> lastQueried.sig != ZERO_SIGNATURE && node.refusals > old(node.refusals)
      ensures node.faults >= old(node.faults) + if r.Err? then 1 else 0
      ensures r.Ok? ==> old(node.hidden) <= hidden <= node.hidden
      ensures r.Ok? && !refused && lastQueried.sig != ZERO_SIGNATURE ==> lastQueried.sig !in hidden
      ensures r.Ok? ==> r.value == Reverse(Listed(Visible(Points(node.chain)[..m], hidden), lastQueried, refused))
    {
      hide PageOf, ChainOk, PointsOk, Visible, Extends, Filter, Reverse, Listed, Floor, CursorKnown, PageDone, Segment;
      hide ForgottenSince;
      m, refused, hidden := |node.chain|, false, node.hidden;
      var cursorNotFound := false;
      var page := node.GetSignaturesForAddress(ZERO_SIGNATURE, lastQueried.sig);
      if page == Err(CursorNotFound) {
        cursorNotFound := true;
        ghost var chain, height := node.chain, node.height;
        page := node.GetSignaturesForAddress(ZERO_SIGNATURE, ZERO_SIGNATURE);
        GrewTwice(old(node.chain), old(node.height), chain, height, node.chain, node.height);
      }
      m, refused := |node.chain|, cursorNotFound;
      if page.Err? {
        return Err(page.error), m, refused, hidden;
      }
      ghost var chain, height, points, first := node.chain, node.height, Points(node.chain), node.hidden;
      ChainPoints(node.chain);
      ghost var cut := FirstPage(points, first, lastQueried, refused);
      var signatures := page.value;
      if cursorNotFound {
        signatures := KeepFromSlot(signatures, lastQueried.slot);
      }
      var whole;
      whole, hidden := WithOlder(lastQueried, signatures, cursorNotFound, points, cut, first);
      GrewTwice(old(node.chain), old(node.height), chain, height, node.chain, node.height);
      if whole.Ok? {
        WholeIsListed(chain, node.chain, first, node.hidden, hidden, lastQueried, refused);
      }
      return whole, m, refused, hidden;
    }

    /** A full first page is completed by what precedes it. */
    method WithOlder(lastQueried: TxPoint, signatures: seq<TxPoint>, cursorNotFound: bool,
                     ghost points: seq<TxPoint>, ghost cut: nat, ghost first: set<Signature>)
      returns (r: Result<seq<TxPoint>, NodeError>, ghost hidden: set<Signature>)
      requires node.Valid() && points == Points(node.chain) && first == node.hidden
      requires CursorKnown(points, lastQueried, cursorNotFound)
      requires Floor(points, lastQueried, cursorNotFound) <= |points|
      requires PageDone(points, Floor(points, lastQueried, cursorNotFound), |points|, first, signatures, cut)
      modifies node`chain, node`height, node`hidden, node`faults, node`refusals
      ensures node.faults >= old(node.faults) + if r.Err? then 1 else 0
      ensures old(node.hidden) <= node.hidden && node.refusals >= old(node.refusals)
      ensures node.Valid() && GrewTo(old(node.chain), old(node.height), node.chain, node.height)
      ensures r.Ok? ==>
                var floor := Floor(points, lastQueried, cursorNotFound);
                && r.value == Reverse(Segment(points, floor, |points|, hidden))
                && ForgottenSince(points, floor, |points|, first, node.hidden, hidden)
    {
      hide ChainOk, PointsOk, Visible, Extends, Reverse, Floor, CursorKnown, Segment, ForgottenSince;
      NotGrown(node.chain, node.height);
      ChainPoints(node.chain);
      hidden := first;
      if |signatures| != MAX_SIGNATURES {
        NothingYet(points, |points|, first, first);
        ForgottenWider(points, cut, |points|, first);
        return Ok(signatures), hidden;
      }
      var older;
      older, hidden := CatchUpLoop(lastQueried, signatures[|signatures| - 1].sig, cursorNotFound, points, cut, first);
      if older.Err? {
        return Err(older.error), hidden;
      }
      OlderJoins(points, Floor(points, lastQueried, cursorNotFound), cut, first, node.hidden, hidden);
      return Ok(signatures + older.value), hidden;
    }
  }

  lemma ChainPoints(chain: seq<Tx>)
    requires ChainOk(chain)
    ensures PointsOk(Points(chain))
  {
  }

  lemma PointsGrew(chain: seq<Tx>, later: seq<Tx>, points: seq<TxPoint>)
    requires chain <= later && points <= Points(chain)
    ensures points <= Points(later)
  {
  }

  lemma NothingYet(points: seq<TxPoint>, top: nat, first: set<Signature>, now: set<Signature>)
    requires top <= |points| && first <= now
    ensures ForgottenSince(points, top, top, first, now, first)
    ensures Reverse(Segment(points, top, top, first)) == []
  {
    assert points[top..top] == [];
  }

  lemma ForgottenWider(points: seq<TxPoint>, i: nat, j: nat, first: set<Signature>)
    requires i <= j <= |points|
    ensures ForgottenSince(points, i, j, first, first, first)
  {
  }

  lemma ForgottenLater(points: seq<TxPoint>, i: nat, j: nat, first: set<Signature>, now: set<Signature>,
                       later: set<Signature>, hidden: set<Signature>)
    requires i <= j <= |points| && now <= later && ForgottenSince(points, i, j, first, now, hidden)
    ensures ForgottenSince(points, i, j, first, later, hidden)
  {
  }

  /** What was fetched is the unlimited query over the first page's history. */
  lemma WholeIsListed(chain: seq<Tx>, later: seq<Tx>, first: set<Signature>, now: set<Signature>,
                      hidden: set<Signature>, q: TxPoint, refused: bool)
    requires ChainOk(chain) && chain <= later
    requires CursorKnown(Points(chain), q, refused) && Floor(Points(chain), q, refused) <= |chain|
    requires !refused && q.sig != ZERO_SIGNATURE ==> q.sig !in first
    requires ForgottenSince(Points(chain), Floor(Points(chain), q, refused), |chain|, first, now, hidden)
    ensures first <= hidden <= now
    ensures !refused && q.sig != ZERO_SIGNATURE ==> q.sig !in hidden
    ensures Listed(Visible(Points(later)[..|chain|], hidden), q, refused)
            == Segment(Points(chain), Floor(Points(chain), q, refused), |chain|, hidden)
  {
    var points := Points(chain);
    assert Points(later)[..|chain|] == points[..|points|] == points;
    if !refused && q.sig != ZERO_SIGNATURE {
      CursorStays(points, q, first, now, hidden);
    }
    hide Listed, Visible, Segment, Floor, CursorKnown, PointsOk;
    ListedIsSegment(points, |points|, hidden, q, refused);
  }

  class EventTracker {
    const storage: BoltStorageHandler
    const fetcher: SignatureFetcher
    const node: SolanaNode
    const subscriber: EventSubscriber
    const config: Config

    // how the durable state came about
    ghost var finalized: seq<TxPoint>
    ghost var world: World

    /** The durable state, as the polling machine sees it. */
    ghost function Snap(): Snapshot
      reads this, storage, subscriber
      requires storage.Valid()
    {
      Snapshot(storage.queue, storage.Queried(), storage.Processed(), storage.Number(),
               storage.log, subscriber.delivered, finalized)
    }

    /** Everything that has failed so far: writes, calls to the node, deliveries. */
    ghost function Faults(): nat
      reads storage, node, subscriber
    {
      storage.failures + node.faults + subscriber.failures
    }

    ghost predicate Valid()
      reads this, storage, node, subscriber
    {
      && storage.Valid() && node.Valid() && fetcher.node == node
      && world.chain == node.chain && world.height == node.height && world.report == None
      && world.now == Snap()
      && Reached(config, world)
    }

    constructor (storage: BoltStorageHandler, node: SolanaNode, subscriber: EventSubscriber, config: Config)
      requires storage.Valid() && node.Valid()
      requires storage.queue == [] && storage.log == [] && subscriber.delivered == []
      requires storage.Queried() == storage.Processed() == NO_POINT && storage.Number() == 0
      ensures Valid() && Snap() == EMPTY
      ensures this.storage == storage && this.node == node && this.subscriber == subscriber
      ensures this.config == config
    {
      this.storage, this.node, this.subscriber, this.config := storage, node, subscriber, config;
      this.fetcher := new SignatureFetcher(node);
      this.finalized := [];
      ghost var first := ReachFirst(config, node.chain, node.height);
      this.world := first;
    }

    // ---- what is not queued again ----

    /** Signatures waiting in the queue, the last processed one, and those with stored events in `slot`. */
    method GetQueuedTxSignatures(slot: u64) returns (queued: set<Signature>, ok: bool)
      requires storage.Valid() && slot == storage.Queried().slot
      ensures ok && forall sig: Signature :: sig in queued <==> Known(Snap(), sig)
    {
      hide BoltStorageHandler.Valid, Known, Distinct, SlotSignatures, InFirst;
      storage.LogFits();
      var points := storage.GetAllUnprocessedTransactions();
      var stored := storage.GetProcessedTxSignaturesBySlot(slot);
      var lastProcessed := storage.GetLastProcessedTransaction();
      queued, ok := {}, points.Ok? && lastProcessed.Ok?;
      if lastProcessed.value.sig != ZERO_SIGNATURE {
        queued := {lastProcessed.value.sig};
      }
      ghost var base := queued;
      FirstOf(points.value, 0);
      for i := 0 to |points.value|
        invariant forall sig: Signature :: sig in queued <==> sig in base || InFirst(points.value, i, sig)
      {
        FirstOf(points.value, i);
        queued := queued + {points.value[i].sig};
      }
      ghost var withQueue := queued;
      for i := 0 to |stored|
        invariant forall sig: Signature :: sig in queued <==> sig in withQueue || sig in stored[..i]
      {
        NextOf(stored, i);
        queued := queued + {stored[i]};
      }
      assert stored[..|stored|] == stored;
      KnownIs(Snap(), stored, queued, storage.queue, base, withQueue);
    }

    /** The signature is one of the first i points'. */
    static ghost predicate InFirst(points: seq<TxPoint>, i: nat, sig: Signature)
      requires i <= |points|
    {
      exists k :: 0 <= k < i && points[k].sig == sig
    }

    static lemma FirstOf(points: seq<TxPoint>, i: nat)
      requires i <= |points|
      ensures forall sig: Signature :: !InFirst(points, 0, sig)
      ensures i < |points| ==> forall sig: Signature ::
                InFirst(points, i + 1, sig) <==> InFirst(points, i, sig) || sig == points[i].sig
    {
      if i < |points| {
        forall sig: Signature
          ensures InFirst(points, i + 1, sig) <==> InFirst(points, i, sig) || sig == points[i].sig
        {
        }
      }
    }

    static lemma NextOf(s: seq<Signature>, i: nat)
      requires i < |s|
      ensures forall sig: Signature :: sig in s[..i + 1] <==> sig in s[..i] || sig == s[i]
    {
      assert s[..i + 1] == s[..i] + [s[i]];
    }

    static lemma KnownIs(s: Snapshot, stored: seq<Signature>, queued: set<Signature>, points: seq<TxPoint>,
                         base: set<Signature>, withQueue: set<Signature>)
      requires |s.stored| < U64_LIMIT && points == s.queue
      requires stored == Distinct(SlotSignatures(s.stored, s.queried.slot))
      requires base == if s.processed.sig != ZERO_SIGNATURE then {s.processed.sig} else {}
      requires forall sig: Signature :: sig in withQueue <==>
                 sig in base || InFirst(points, |points|, sig)
      requires forall sig: Signature :: sig in queued <==> sig in withQueue || sig in stored
      ensures forall sig: Signature :: sig in queued <==> Known(s, sig)
    {
      forall sig: Signature
        ensures sig in queued <==> Known(s, sig)
      {
        SlotSignaturesMember(s.stored, s.queried.slot, sig);
        assert Queued(s, sig) <==> exists k :: 0 <= k < |points| && points[k].sig == sig;
      }
    }

    // ---- writing what a query found ----

    static method DropKnown(signatures: seq<TxPoint>, queued: set<Signature>, ghost s: Snapshot)
      returns (kept: seq<TxPoint>)
      requires forall sig: Signature :: sig in queued <==> Known(s, sig)
      ensures kept == Filter(signatures, Unknown(s))
    {
      kept := [];
      for i := 0 to |signatures|
        invariant kept == Filter(signatures[..i], Unknown(s))
      {
        assert signatures[..i + 1][..i] == signatures[..i];
        if signatures[i].sig !in queued {
          kept := kept + [signatures[i]];
        }
      }
      assert signatures[..|signatures|] == signatures;
    }

    /** Turns the newest-first news around, leaving out what lies before the start slot when no cursor has
        been recorded. */
    method OldestFirst(news: seq<TxPoint>, lastQueried: TxPoint) returns (points: seq<TxPoint>)
      ensures points == Filter(Reverse(news), FromStart(lastQueried, config.start))
    {
      hide Filter, Reverse, FromStart;
      points := [];
      ghost var reversed := Reverse(news);
      assert |reversed| == |news| && forall k :: 0 <= k < |news| ==> reversed[k] == news[|news| - 1 - k];
      FilterNext(reversed, FromStart(lastQueried, config.start), 0);
      var i := |news|;
      while i > 0
        invariant 0 <= i <= |news|
        invariant points == Filter(reversed[..|news| - i], FromStart(lastQueried, config.start))
      {
        FilterNext(reversed, FromStart(lastQueried, config.start), |news| - i);
        StartFilter(lastQueried, config.start, news[i - 1]);
        i := i - 1;
        if lastQueried.sig == ZERO_SIGNATURE {
          if config.start > news[i].slot {
            continue;
          }
        }
        points := points + [news[i]];
      }
      assert reversed[..|news|] == reversed;
    }

    static lemma StartFilter(lastQueried: TxPoint, start: u64, p: TxPoint)
      ensures FromStart(lastQueried, start)(p) <==> lastQueried.sig != ZERO_SIGNATURE || start <= p.slot
    {
    }

    static lemma FilterNext(s: seq<TxPoint>, keep: TxPoint -> bool, n: nat)
      requires n <= |s|
      ensures Filter(s[..0], keep) == []
      ensures n < |s| ==> Filter(s[..n + 1], keep) == Filter(s[..n], keep) + if keep(s[n]) then [s[n]] else []
    {
      if n < |s| {
        assert s[..n + 1][..n] == s[..n];
      }
    }

    /** The writes of a query that listed these signatures, newest first: as many of its effects as came
        through, all of them when it reports success. */
    method StoreNews(lastQueried: TxPoint, signatures: seq<TxPoint>, height: u64, ghost listed: seq<TxPoint>)
      returns (ok: bool, ghost c: nat)
      requires storage.Valid() && lastQueried == storage.Queried()
      requires signatures == Reverse(listed)
      modifies storage`txBucket, storage`queue, storage`finalizedNumber, storage`failures
      ensures storage.Valid() && c <= QueryLength(old(Snap()), listed)
      ensures Snap() == QueryAt(old(Snap()), config.start, listed, height, c)
      ensures ok ==> c == QueryLength(old(Snap()), listed)
      ensures storage.failures >= old(storage.failures) + if ok then 0 else 1
    {
      hide BoltStorageHandler.Valid, Filter, Known, Reverse, QueryAt, QueryLength, NewsOf, BatchOf;
      ghost var s := Snap();
      QueryEffects(s, config.start, listed, height);
      ok, c := false, 0;
      var queued, found := GetQueuedTxSignatures(lastQueried.slot);
      if !found {
        return;
      }
      var news := DropKnown(signatures, queued, s);
      NewsReversed(s, config.start, listed, news);
      var points := OldestFirst(news, lastQueried);
      var fails := storage.WriteFails(|points|);
      if fails {
        return;
      }
      if |news| == 0 {
        storage.StoreLatestFinalizedBlockNumber(height);
        return true, 1;
      }
      if |points| == 0 {
        storage.SetLastProcessedTransaction(news[0]);
        fails := storage.WriteFails(0);
        if fails {
          return false, 1;
        }
        storage.StoreLatestQueriedTransaction(news[0]);
        return true, 2;
      }
      storage.PushUnprocessedTransactions(points);
      fails := storage.WriteFails(0);
      if fails {
        return false, 1;
      }
      storage.StoreLatestQueriedTransaction(points[|points| - 1]);
      return true, 2;
    }

    /** The news, newest first, are the machine's news the other way around. */
    static lemma NewsReversed(s: Snapshot, start: u64, listed: seq<TxPoint>, news: seq<TxPoint>)
      requires news == Filter(Reverse(listed), Unknown(s))
      ensures Reverse(news) == NewsOf(s, listed)
      ensures Filter(Reverse(news), FromStart(s.queried, start)) == BatchOf(s, start, listed)
      ensures |news| == |NewsOf(s, listed)|
      ensures news != [] ==> news[0] == Last(NewsOf(s, listed))
    {
      FilterReverse(listed, Unknown(s));
      ReverseInvolutive(NewsOf(s, listed));
    }

    /** What a query's effects are, case by case. */
    static lemma QueryEffects(s: Snapshot, start: u64, listed: seq<TxPoint>, height: u64)
      ensures QueryAt(s, start, listed, height, 0) == s
      ensures NewsOf(s, listed) == [] ==>
                QueryLength(s, listed) == 1 && QueryAt(s, start, listed, height, 1) == s.(number := height)
      ensures NewsOf(s, listed) != [] ==> QueryLength(s, listed) == 2
      ensures NewsOf(s, listed) != [] && BatchOf(s, start, listed) == [] ==>
                var newest := Last(NewsOf(s, listed));
                && QueryAt(s, start, listed, height, 1) == s.(processed := newest)
                && QueryAt(s, start, listed, height, 2) == s.(processed := newest, queried := newest)
      ensures NewsOf(s, listed) != [] && BatchOf(s, start, listed) != [] ==>
                var batch := BatchOf(s, start, listed);
                var pushed := s.(queue := s.queue + Filter(batch, NonZero()));
                && QueryAt(s, start, listed, height, 1) == pushed
                && QueryAt(s, start, listed, height, 2) == pushed.(queried := Last(batch))
    {
    }

    // ---- the two kinds of poll ----

    /** Reads the finalized height, then lists what is new. `reading` is the machine's state between its
        height reading and its query, brought up to date. */
    method ReadAndList(lastQueried: TxPoint)
      returns (r: Result<seq<TxPoint>, NodeError>, height: u64, ghost m: nat, ghost refused: bool,
               ghost hidden: set<Signature>, ghost reading: World)
      requires Valid() && !MustProcess(Snap()) && lastQueried == storage.Queried()
      modifies this`world, node`chain, node`height, node`hidden, node`faults, node`refusals
      ensures Valid() && |old(node.chain)| <= m <= |node.chain|
      ensures node.faults >= old(node.faults) + if r.Err? then 1 else 0
      ensures refused ==> lastQueried.sig != ZERO_SIGNATURE && node.refusals > old(node.refusals)
      ensures r.Ok? ==>
                && Reached(config, reading) && world == reading.(report := None)
                && reading.report.Some? && reading.report.value.length <= m
                && reading.report.value.height == height
                && old(node.height) <= height <= node.height
                && old(node.hidden) <= hidden <= node.hidden
                && (!refused && lastQueried.sig != ZERO_SIGNATURE ==> lastQueried.sig !in hidden)
                && r.value == Reverse(Listed(Visible(Points(node.chain)[..m], hidden), lastQueried, refused))
    {
      hide BoltStorageHandler.Valid, Reached, Extends, ChainOk, PointsOk, Listed, Visible, Reverse, IndexOf;
      m, refused, hidden, height, reading := |node.chain|, false, {}, 0, world;
      var reported := node.GetBlockHeight();
      Grown(config, world, node.chain, node.height);
      HeightGrew(old(node.chain), old(node.height), node.chain, node.height);
      world := world.(chain := node.chain, height := node.height);
      if reported.Err? {
        return Err(reported.error), height, m, refused, hidden, reading;
      }
      height := reported.value;
      reading := world.(report := Some(HeightReport(height, |node.chain|)));
      ReadsHeight(config, world, reading);
      ghost var before := node.chain;
      r, m, refused, hidden := fetcher.SignaturesForAddress(lastQueried);
      HeightGrew(before, height, node.chain, node.height);
      Grown(config, reading, node.chain, node.height);
      reading := reading.(chain := node.chain, height := node.height);
      GaveUp(config, reading);
      world := reading.(report := None);
    }

    /** A poll that queries: reads the finalized height, lists what is new, and queues it. Its steps are a
        height reading and one query of the polling machine, with the chain growing in between. The answer
        hides what was forgotten before the poll, and nothing that is not forgotten after it. */
    method FetchNextGetSignaturesForAddress(lastQueried: TxPoint)
      returns (ok: bool, ghost m: nat, ghost hidden: set<Signature>, ghost refused: bool, ghost c: nat,
               ghost height: u64)
      requires Valid() && !MustProcess(Snap()) && lastQueried == storage.Queried()
      modifies this`world, node`chain, node`height, node`hidden, node`faults, node`refusals
      modifies storage`txBucket, storage`queue, storage`finalizedNumber, storage`failures
      ensures Valid() && |old(node.chain)| <= m <= |node.chain|
      ensures Faults() >= old(Faults()) + if ok then 0 else 1
      ensures refused ==> node.refusals > old(node.refusals)
      ensures c == 0 || (old(node.hidden) <= hidden <= node.hidden && old(node.height) <= height <= node.height)
      ensures var listed := Listed(Visible(Points(node.chain)[..m], hidden), lastQueried, refused);
              && c <= QueryLength(old(Snap()), listed)
              && Snap() == QueryAt(old(Snap()), config.start, listed, height, c)
              && (ok ==> c == QueryLength(old(Snap()), listed))
    {
      hide BoltStorageHandler.Valid, QueryAt, QueryLength, Reached, Extends, ChainOk, PointsOk, Listed, Visible, CanQuery, AfterQuery;
      hide Known, ListedAt, NewsOf, BatchOf, FullHistory, PassedOver, MovedPast, IndexOf, Reverse;
      ok, c := false, 0;
      NoEffects(Snap(), config.start);
      var signatures, reported;
      ghost var reading;
      signatures, reported, m, refused, hidden, reading := ReadAndList(lastQueried);
      height := reported;
      if signatures.Err? {
        return;
      }
      ghost var listed := Listed(Visible(Points(node.chain)[..m], hidden), lastQueried, refused);
      ok, c := StoreNews(lastQueried, signatures.value, reported, listed);
      Queries(config, reading, m, hidden, refused, c, listed);
      world := AfterQuery(config, reading, m, hidden, refused, c);
    }

    static lemma ReadsHeight(cfg: Config, w: World, reading: World)
      requires Reached(cfg, w) && w.report == None && !MustProcess(w.now)
      requires reading == w.(report := Some(HeightReport(w.height, |w.chain|)))
      ensures Reached(cfg, reading)
    {
      hide Reached;
      ReachStep(cfg, w, ReadHeight, reading);
    }

    static lemma NoEffects(s: Snapshot, start: u64)
      ensures forall listed: seq<TxPoint>, height: u64 :: QueryAt(s, start, listed, height, 0) == s
    {
    }

    static lemma HeightGrew(chain: seq<Tx>, height: u64, chain': seq<Tx>, height': u64)
      requires GrewTo(chain, height, chain', height')
      ensures height <= height'
    {
    }

    /** Whatever the node did meanwhile is a growth step of the machine. */
    static lemma Grown(cfg: Config, w: World, chain: seq<Tx>, height: u64)
      requires Reached(cfg, w) && GrewTo(w.chain, w.height, chain, height)
      ensures Reached(cfg, w.(chain := chain, height := height))
    {
      var txs := chain[|w.chain|..];
      assert chain == w.chain + txs;
      ReachStep(cfg, w, Grow(txs, height), w.(chain := chain, height := height));
    }

    static lemma GaveUp(cfg: Config, w: World)
      requires Reached(cfg, w)
      ensures Reached(cfg, w.(report := None))
    {
      ReachStep(cfg, w, Crash, w.(report := None));
    }

    static lemma Queries(cfg: Config, w: World, m: nat, hidden: set<Signature>, refused: bool, c: nat,
                         listed: seq<TxPoint>)
      requires Reached(cfg, w) && w.report.Some? && w.report.value.length <= m <= |w.chain|
      requires !MustProcess(w.now) && (refused ==> w.now.queried.sig != ZERO_SIGNATURE)
      requires !refused && w.now.queried.sig != ZERO_SIGNATURE ==> w.now.queried.sig !in hidden
      requires listed == Listed(Visible(Points(w.chain)[..m], hidden), w.now.queried, refused)
      requires c <= QueryLength(w.now, listed)
      ensures CanQuery(w, m, hidden, refused, c)
      ensures var w' := AfterQuery(cfg, w, m, hidden, refused, c);
              && Reached(cfg, w') && w'.chain == w.chain && w'.height == w.height && w'.report == None
              && w'.now == QueryAt(w.now, cfg.start, listed, w.report.value.height, c)
    {
      hide QueryAt, Listed, Visible, NewsOf, BatchOf, PassedOver, MovedPast, FullHistory, IndexOf;
      assert listed == ListedAt(w, m, hidden, refused);
      NoEffects(w.now, cfg.start);
      ReachStep(cfg, w, Query(m, hidden, refused, c), AfterQuery(cfg, w, m, hidden, refused, c));
    }

    // ---- processing the queue head ----

    /** Gives up only after every try failed. */
    method GetBlockWithRetry(sig: Signature) returns (r: Result<u64, NodeError>)
      requires node.Valid()
      modifies node`faults
      ensures node.faults >= old(node.faults) + if r.Err? then 10 else 0
      ensures r.Ok? ==> var i := IndexOf(Points(node.chain), sig); i < |node.chain| && r.value == node.chain[i].block
    {
      for count := 0 to RETRY_COUNT
        invariant node.Valid() && node.faults == old(node.faults) + count
      {
        r := node.GetBlockOf(sig);
        if r.Ok? {
          return;
        }
      }
      r := Err(Unavailable);
    }

    /** The first c of the three effects an event has. */
    static function EventEffects(s: Snapshot, e: Event, c: nat): Snapshot {
      var numbered := if c >= 1 then s.(number := e.block) else s;
      var delivered := if c >= 2 then numbered.(delivered := s.delivered + [e]) else numbered;
      if c >= 3 then delivered.(stored := s.stored + [e]) else delivered
    }

    /** Three effects advance an attempt by one event. */
    static lemma AttemptSteps(s: Snapshot, es: seq<Event>, k: nat)
      requires k <= |es|
      ensures AttemptAt(s, es, 0) == s
      ensures k < |es| ==> forall c :: 0 <= c <= 3 ==>
                AttemptAt(s, es, 3 * k + c) == EventEffects(AttemptAt(s, es, 3 * k), es[k], c)
    {
      Thirds(k);
      assert k < |es| ==> es[..k + 1] == es[..k] + [es[k]];
    }

    static lemma Thirds(k: nat)
      ensures (3 * k) / 3 == (3 * k + 1) / 3 == (3 * k + 2) / 3 == k
      ensures (3 * k + 3) / 3 == (3 * k + 4) / 3 == k + 1
      ensures k > 0 ==> (3 * k - 1) / 3 == k - 1
    {
    }

    /** The next emission adds its body, if it is accepted. */
    static lemma BodiesFrom(d: Decoding, tx: Transaction, emitted: seq<Emitted>, j: nat, bodies: seq<EventBody>, k: nat)
      requires j < |emitted| && k <= |bodies| && bodies[k..] == AcceptedBodies(d, tx, emitted[j..])
      ensures match AcceptedBody(d, tx, emitted[j])
              case None => bodies[k..] == AcceptedBodies(d, tx, emitted[j + 1..])
              case Some(body) =>
                k < |bodies| && bodies[k] == body && bodies[k + 1..] == AcceptedBodies(d, tx, emitted[j + 1..])
    {
      hide AcceptedBody;
      assert emitted[j..][1..] == emitted[j + 1..];
      assert k < |bodies| ==> bodies[k..][0] == bodies[k] && bodies[k..][1..] == bodies[k + 1..];
    }

    static lemma NoMoreBodies(d: Decoding, tx: Transaction, emitted: seq<Emitted>)
      ensures AcceptedBodies(d, tx, emitted[|emitted|..]) == []
    {
    }

    static lemma OneEventMore(s: Snapshot, es: seq<Event>, k: nat, c: nat)
      requires k < |es| && c <= 3
      ensures AttemptAt(s, es, 3 * k + c) == EventEffects(AttemptAt(s, es, 3 * k), es[k], c)
    {
      AttemptSteps(s, es, k);
    }

    /** One accepted event: its block number is recorded, it is delivered, and then stored. */
    method DeliverEvent(head: TxPoint, body: EventBody, ghost block: u64) returns (ok: bool, ghost c: nat)
      requires storage.Valid() && node.Valid()
      requires var i := IndexOf(Points(node.chain), head.sig); i < |node.chain| && node.chain[i].block == block
      modifies storage`finalizedNumber, storage`failures, subscriber, node`faults
      modifies storage`unprocessedEvents, storage`eventCounter, storage`eventIndex, storage`log
      ensures Faults() >= old(Faults()) + if ok then 0 else 1
      ensures storage.Valid() && c <= 3 && (ok ==> c == 3)
      ensures Snap() == EventEffects(old(Snap()), Event(head.slot, block, head.sig, body), c)
    {
      hide BoltStorageHandler.Valid, ChainOk, IndexOf;
      var height := GetBlockWithRetry(head.sig);
      var fails := storage.WriteFails(0);
      if height.Err? || fails {
        return false, 0;
      }
      storage.StoreLatestFinalizedBlockNumber(height.value);
      var event := Event(head.slot, height.value, head.sig, body);
      var added := subscriber.AddEvent(event);
      if !added {
        return false, 1;
      }
      fails := storage.WriteFails(0);
      if fails {
        return false, 2;
      }
      storage.StoreEvent(event);
      return true, 3;
    }

    /** Works through the emitted events in order: each accepted one has its block number recorded, is
        delivered and then stored; the first failure ends the attempt. */
    method DeliverEvents(head: TxPoint, tx: Transaction, ghost block: u64) returns (ok: bool, ghost c: nat)
      requires storage.Valid() && node.Valid()
      requires !tx.failed && tx.inner.Some?
      requires var i := IndexOf(Points(node.chain), head.sig); i < |node.chain| && node.chain[i].block == block
      modifies storage`finalizedNumber, storage`failures, subscriber, node`faults
      modifies storage`unprocessedEvents, storage`eventCounter, storage`eventIndex, storage`log
      ensures Faults() >= old(Faults()) + if ok then 0 else 1
      ensures storage.Valid()
      ensures var es := TxEvents(head, block, OutcomeOf(config.decoding, tx).bodies);
              && c <= 3 * |es|
              && Snap() == AttemptAt(old(Snap()), es, c)
              && (ok ==> c == 3 * |es|)
    {
      hide BoltStorageHandler.Valid, AttemptAt, AcceptedBody, CollectedEvents, ChainOk, PointsOk, IndexOf, IsEmission, TxEvents;
      hide RecordOf, AcceptedBodies, EventEffects, CollectedInOrder;
      var emitted := CollectEvents(tx.inner.value, AccountKeys(tx), config.decoding.authorities);
      ghost var s := Snap();
      ghost var bodies := AcceptedBodies(config.decoding, tx, emitted);
      ghost var es, k := TxEvents(head, block, bodies), 0;
      AttemptSteps(s, es, 0);
      assert emitted[0..] == emitted;
      ok, c := false, 0;
      for j := 0 to |emitted|
        invariant storage.Valid() && k <= |bodies| && c == 3 * k
        invariant bodies[k..] == AcceptedBodies(config.decoding, tx, emitted[j..])
        invariant Snap() == AttemptAt(s, es, 3 * k)
        invariant node.Valid() && node.chain == old(node.chain) && Faults() >= old(Faults())
      {
        var body := AcceptEvent(config.decoding, tx, emitted[j]);
        BodiesFrom(config.decoding, tx, emitted, j, bodies, k);
        if body.None? {
          continue;
        }
        var delivered, effects := DeliverEvent(head, body.value, block);
        OneEventMore(s, es, k, effects);
        c := 3 * k + effects;
        if !delivered {
          return;
        }
        k := k + 1;
      }
      NoMoreBodies(config.decoding, tx, emitted);
      return true, c;
    }

    /** An attempt at the queue head: every failure leaves some of its effects done, success all of them. */
    method FetchNextGetFullTxBySignature() returns (ok: bool, ghost c: nat)
      requires Valid() && MustProcess(Snap())
      modifies this`world, this`finalized, storage, subscriber, node`faults
      ensures Valid() && node.chain == old(node.chain)
      ensures Faults() >= old(Faults()) + if ok then 0 else 1
      ensures old(storage.queue) == [] ==> Snap() == old(Snap())
      ensures old(storage.queue) != [] ==>
                && CanProcess(config, old(world), c)
                && var head := HeadTx(old(world));
                && Snap() == ProcessAt(old(Snap()), head.block, OutcomeOf(config.decoding, head.content), c)
                && (ok ==> c == ProcessLength(old(Snap()), head.block, OutcomeOf(config.decoding, head.content)))
    {
      hide BoltStorageHandler.Valid, Reached, OutcomeOf, ChainOk, Basic, IndexOf, HeadEvents, ProcessAt, ProcessLength;
      ok, c := false, 0;
      var queue := storage.GetAllUnprocessedTransactions();
      if queue.Err? || |queue.value| == 0 {
        return queue.Ok?, 0;
      }
      HeadKnown(config, world);
      ghost var tx := HeadTx(world);
      NothingDone(Snap(), tx.block, OutcomeOf(config.decoding, tx.content));
      ok, c := Attempt(queue.value[0], tx);
      Processed(config, old(world), c);
      world := AfterProcess(config, old(world), c);
    }

    method Attempt(head: TxPoint, ghost tx: Tx) returns (ok: bool, ghost c: nat)
      requires storage.Valid() && node.Valid() && storage.queue != [] && head == storage.queue[0]
      requires var i := IndexOf(Points(node.chain), head.sig); i < |node.chain| && node.chain[i] == tx
      requires tx.point == head
      modifies this`finalized, storage, subscriber, node`faults
      ensures storage.Valid()
      ensures Faults() >= old(Faults()) + if ok then 0 else 1
      ensures var outcome := OutcomeOf(config.decoding, tx.content);
              && c <= ProcessLength(old(Snap()), tx.block, outcome)
              && Snap() == ProcessAt(old(Snap()), tx.block, outcome, c)
              && (ok ==> c == ProcessLength(old(Snap()), tx.block, outcome))
    {
      hide BoltStorageHandler.Valid, AttemptAt, ProcessAt, OutcomeOf, ChainOk, IndexOf;
      ok, c := false, 0;
      ghost var s, outcome := Snap(), OutcomeOf(config.decoding, tx.content);
      NothingDone(s, tx.block, outcome);
      var lastProcessed := storage.GetLastProcessedTransaction();
      if lastProcessed.Err? {
        return;
      }
      if head.sig == lastProcessed.value.sig {
        ok, c := Finalize(head, tx.block, outcome, s, 0);
        return;
      }
      var response := node.GetTransaction(head.sig);
      if response.Err? {
        return;
      }
      Outcomes(config.decoding, response.value.content);
      if response.value.content.failed || response.value.content.inner.None? {
        ok, c := Finalize(head, tx.block, outcome, s, 0);
        return;
      }
      ok, c := DeliverEvents(TxPoint(head.sig, response.value.slot), response.value.content, tx.block);
      assert HeadEvents(s, tx.block, outcome) == TxEvents(head, tx.block, outcome.bodies);
      Partly(s, tx.block, outcome, c);
      if ok {
        ok, c := Finalize(head, tx.block, outcome, s, c);
      }
    }

    static lemma NothingDone(s: Snapshot, block: u64, outcome: Outcome)
      requires s.queue != []
      ensures 0 <= ProcessLength(s, block, outcome) && ProcessAt(s, block, outcome, 0) == s
      ensures AttemptAt(s, HeadEvents(s, block, outcome), 0) == s
    {
      AttemptSteps(s, HeadEvents(s, block, outcome), 0);
    }

    static lemma Partly(s: Snapshot, block: u64, outcome: Outcome, c: nat)
      requires s.queue != [] && c <= 3 * |HeadEvents(s, block, outcome)|
      ensures c <= ProcessLength(s, block, outcome)
      ensures ProcessAt(s, block, outcome, c) == AttemptAt(s, HeadEvents(s, block, outcome), c)
    {
    }

    /** The last effect of an attempt. */
    method Finalize(head: TxPoint, ghost block: u64, ghost outcome: Outcome, ghost s: Snapshot, ghost done: nat)
      returns (ok: bool, ghost c: nat)
      requires storage.Valid() && s.queue != [] && storage.queue == s.queue && head == s.queue[0]
      requires done == 3 * |HeadEvents(s, block, outcome)|
      requires Snap() == AttemptAt(s, HeadEvents(s, block, outcome), done)
      modifies this`finalized, storage`txBucket, storage`queue, storage`failures
      ensures storage.failures >= old(storage.failures) + if ok then 0 else 1
      ensures storage.Valid() && c <= ProcessLength(s, block, outcome)
      ensures Snap() == ProcessAt(s, block, outcome, c)
      ensures ok ==> c == ProcessLength(s, block, outcome)
    {
      hide BoltStorageHandler.Valid, HeadEvents;
      var fails := storage.WriteFails(0);
      if fails {
        return false, done;
      }
      var r := storage.FinalizeProcessedTransaction(head.sig);
      finalized := finalized + [head];
      return true, done + 1;
    }

    /** The queue head is a transaction of the chain. */
    static lemma HeadKnown(cfg: Config, w: World)
      requires Reached(cfg, w) && w.now.queue != []
      ensures HeadPosition(w) < |w.chain| && w.chain[HeadPosition(w)].point == w.now.queue[0]
    {
      ReachedIsBasic(cfg, w);
      assert w.now.queue[0] in w.now.queue;
      var i :| 0 <= i < |w.chain| && Points(w.chain)[i] == w.now.queue[0];
      IndexOfAt(Points(w.chain), i);
    }

    static lemma Outcomes(d: Decoding, tx: Transaction)
      ensures tx.failed || tx.inner.None? ==> !OutcomeOf(d, tx).Emits?
      ensures !tx.failed && tx.inner.Some? ==> OutcomeOf(d, tx).Emits?
    {
    }

    static lemma Processed(cfg: Config, w: World, c: nat)
      requires Reached(cfg, w) && CanProcess(cfg, w, c)
      ensures Reached(cfg, AfterProcess(cfg, w, c))
    {
      ReachStep(cfg, w, Process(c), AfterProcess(cfg, w, c));
    }

    /** One round of the polling loop: a whole processing or querying poll of the state it found, unless
        something failed meanwhile. */
    method PollOnce()
      returns (ok: bool, ghost m: nat, ghost hidden: set<Signature>, ghost refused: bool, ghost c: nat,
               ghost height: u64)
      requires Valid()
      modifies this`world, this`finalized, storage, subscriber, node
      ensures Valid() && m <= |node.chain|
      ensures Faults() >= old(Faults()) + if ok then 0 else 1
      ensures old(MustProcess(Snap())) && old(storage.queue) == [] ==> Snap() == old(Snap())
      ensures old(MustProcess(Snap())) && old(storage.queue) != [] ==>
                && CanProcess(config, old(world), c)
                && var head := HeadTx(old(world));
                && Snap() == ProcessAt(old(Snap()), head.block, OutcomeOf(config.decoding, head.content), c)
                && (ok ==> c == ProcessLength(old(Snap()), head.block, OutcomeOf(config.decoding, head.content)))
      ensures !old(MustProcess(Snap())) ==>
                && m >= |old(node.chain)|
                && (refused ==> node.refusals > old(node.refusals))
                && (c == 0 || hidden <= node.hidden)
                && var listed := Listed(Visible(Points(node.chain)[..m], hidden), old(storage.Queried()), refused);
                && c <= QueryLength(old(Snap()), listed)
                && Snap() == QueryAt(old(Snap()), config.start, listed, height, c)
                && (ok ==> c == QueryLength(old(Snap()), listed))
    {
      hide BoltStorageHandler.Valid, Reached, HistoryOk, QueryAt, QueryLength, ProcessAt, ProcessLength, CanProcess, Listed, Visible, OutcomeOf;
      m, hidden, refused, c, height := |node.chain|, {}, false, 0, 0;
      ok := true;
      node.ForgetSome();
      var lastProcessed := storage.GetLastProcessedTransaction();
      var lastQueried := storage.GetLatestQueriedTransaction();
      if lastQueried.value.sig != lastProcessed.value.sig {
        ok, c := FetchNextGetFullTxBySignature();
      } else {
        ok, m, hidden, refused, c, height := FetchNextGetSignaturesForAddress(lastQueried.value);
      }
    }
  }
}
