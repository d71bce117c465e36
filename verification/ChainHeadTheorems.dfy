/** What the chain-head invariants say about whole runs: the block index is the chain's selected slots without
    those a forced advance jumped, a lookup's answer, and the head's movement. */
module ChainHeadTheorems {
  import opened Sequences
  import opened Bytes
  import opened Records
  import opened StoreEncoding
  import opened Store
  import opened ChainHead
  import opened ChainHeadIndex

  // ---- the index is a function of the chain ----

  /** Over every run, whatever the windows, lags, failed fetches, restarts and forced advances: in (start, head]
      the stored blocks are exactly the selected slots of the whole chain that were not jumped. */
  lemma IndexIsChainWithoutJumped(c: HeadConfig, ws: seq<HeadWorld>, actions: seq<HeadAction>, s: u64)
    requires ConfigOk(c) && IsHeadRun(c, ws, actions)
    requires c.start < s <= Last(ws).state.head
    ensures s in Last(ws).state.stored <==> s in Picked(Last(ws).chain, c.threshold) && s !in Last(ws).jumped
    ensures s in Last(ws).state.stored ==> Last(ws).state.stored[s] == c.block(s)
  {
    HeadRunsKeepInv(c, ws, actions);
    var chain := Last(ws).chain;
    PickedUpToFacts(chain, c.threshold, |chain|);
    hide IsHeadRun, HasLater;
    assert s in Picked(chain, c.threshold) <==> OnGrid(chain, c.threshold, s);
  }

  /** The index holds exactly the chain's selected slots in (start, head]. */
  ghost predicate Exact(c: HeadConfig, w: HeadWorld)
    requires c.threshold > 0
  {
    forall s: u64 :: c.start < s <= w.state.head ==> (s in w.state.stored <==> OnGrid(w.chain, c.threshold, s))
  }

  /** No slot at or below `slot` that was jumped is selected. */
  ghost predicate NoGap(c: HeadConfig, w: HeadWorld, slot: u64)
    requires c.threshold > 0
  {
    forall s :: s in w.jumped && s <= slot ==> !OnGrid(w.chain, c.threshold, s)
  }

  lemma ExactWithoutGap(c: HeadConfig, w: HeadWorld)
    requires ConfigOk(c) && HeadInv(c, w)
    ensures Exact(c, w) <==> NoGap(c, w, w.state.head)
  {
    hide OnGrid, HasLater, Increasing;
    if Exact(c, w) {
      assert forall s :: s in w.jumped ==> c.start < s <= w.state.head;
    }
  }

  /** Over every run, the index is exact if and only if no jumped slot is selected by the chain as it is by
      now. */
  lemma ExactUnlessSelectedJumped(c: HeadConfig, ws: seq<HeadWorld>, actions: seq<HeadAction>)
    requires ConfigOk(c) && IsHeadRun(c, ws, actions)
    ensures Exact(c, Last(ws)) <==> forall s :: s in Last(ws).jumped ==> !OnGrid(Last(ws).chain, c.threshold, s)
  {
    HeadRunsKeepInv(c, ws, actions);
    hide IsHeadRun, OnGrid;
    ExactWithoutGap(c, Last(ws));
    JumpedBelowHead(c, Last(ws));
  }

  lemma JumpedBelowHead(c: HeadConfig, w: HeadWorld)
    requires ConfigOk(c) && HeadInv(c, w)
    ensures forall s :: s in w.jumped ==> c.start < s <= w.state.head && s !in w.state.stored
  {
    hide OnGrid, HasLater, Increasing;
  }

  /** So when no jumped slot is selected, and in particular without forced advances: the stored blocks in
      (start, head] are exactly the selected slots of the whole chain in that interval. */
  lemma IndexIsFunctionOfChain(c: HeadConfig, ws: seq<HeadWorld>, actions: seq<HeadAction>, s: u64)
    requires ConfigOk(c) && IsHeadRun(c, ws, actions)
    requires NoGap(c, Last(ws), Last(ws).state.head)
    requires c.start < s <= Last(ws).state.head
    ensures s in Last(ws).state.stored <==> s in Picked(Last(ws).chain, c.threshold)
    ensures s in Last(ws).state.stored ==> Last(ws).state.stored[s] == c.block(s)
  {
    HeadRunsKeepInv(c, ws, actions);
    IndexIsChainWithoutJumped(c, ws, actions, s);
    PickedUpToFacts(Last(ws).chain, c.threshold, |Last(ws).chain|);
    hide IsHeadRun, HasLater;
  }

  /** In every run, forced advances included, what is stored is a selected slot with its own block. */
  lemma StoredBlocksAreSelected(c: HeadConfig, ws: seq<HeadWorld>, actions: seq<HeadAction>, s: u64)
    requires ConfigOk(c) && IsHeadRun(c, ws, actions) && s in Last(ws).state.stored
    ensures c.start < s && OnGrid(Last(ws).chain, c.threshold, s) && Last(ws).state.stored[s] == c.block(s)
  {
    HeadRunsKeepInv(c, ws, actions);
  }

  // ---- lookups ----

  /** `q` is the last selected slot in (start, slot]. */
  ghost predicate GridFloor(chain: seq<u64>, threshold: u64, start: u64, slot: u64, q: u64)
    requires threshold > 0
  {
    && start < q <= slot && OnGrid(chain, threshold, q)
    && forall g: u64 :: q < g <= slot ==> !OnGrid(chain, threshold, g)
  }

  function HashAt(s: HeadState, slot: u64): Result<Key, StoreError> {
    BlockhashBySlot(s.latest, s.stored, slot)
  }

  /** A lookup within the recorded head answers the hash of the last selected slot at or below it, unless that
      slot was jumped. */
  lemma LookupAnswersGridFloor(c: HeadConfig, w: HeadWorld, slot: u64, q: u64)
    requires ConfigOk(c) && HeadInv(c, w) && q !in w.jumped
    requires w.state.latest.Some? && slot <= w.state.latest.value.slot
    requires GridFloor(w.chain, c.threshold, c.start, slot, q)
    ensures HashAt(w.state, slot) == Ok(c.block(q).hash)
  {
    hide OnGrid, Increasing, HasLater;
    assert q in w.state.stored;
    LookupFinds(w.state.stored, slot, q);
  }

  lemma {:induction false} GridFloorExists(chain: seq<u64>, threshold: u64, start: u64, slot: u64, some: u64)
    returns (q: u64)
    requires threshold > 0 && start < some <= slot && OnGrid(chain, threshold, some)
    ensures GridFloor(chain, threshold, start, slot, q) && some <= q
    decreases slot
  {
    hide OnGrid;
    if OnGrid(chain, threshold, slot) {
      q := slot;
    } else {
      q := GridFloorExists(chain, threshold, start, slot - 1, some);
    }
  }

  /** Two trackers of one chain, each with its own start slot, window, target, failures, restarts and forced
      advances, answer alike wherever both cover the slot and neither jumped a selected slot up to it. */
  lemma TrackersAgree(c: HeadConfig, ws: seq<HeadWorld>, actions: seq<HeadAction>,
                      c': HeadConfig, ws': seq<HeadWorld>, actions': seq<HeadAction>, slot: u64, some: u64)
    requires ConfigOk(c) && ConfigOk(c') && c.threshold == c'.threshold && c.block == c'.block
    requires IsHeadRun(c, ws, actions) && IsHeadRun(c', ws', actions')
    requires Last(ws).chain <= Last(ws').chain
    requires NoGap(c, Last(ws), slot) && NoGap(c', Last(ws'), slot)
    requires var latest, latest' := Last(ws).state.latest, Last(ws').state.latest;
             latest.Some? && latest'.Some? && slot <= latest.value.slot && slot <= latest'.value.slot
    requires Max(c.start, c'.start) < some <= slot && OnGrid(Last(ws).chain, c.threshold, some)
    ensures HashAt(Last(ws).state, slot) == HashAt(Last(ws').state, slot)
    ensures HashAt(Last(ws).state, slot).Ok?
  {
    HeadRunsKeepInv(c, ws, actions);
    HeadRunsKeepInv(c', ws', actions');
    hide IsHeadRun, OnGrid, Increasing;
    var w, w', t := Last(ws), Last(ws'), c.threshold;
    var q := GridFloorExists(w.chain, t, Max(c.start, c'.start), slot, some);
    SameGridBelow(c, w, w'.chain);
    LookupAnswersGridFloor(c, w, slot, q);
    LookupAnswersGridFloor(c', w', slot, q);
  }

  /** Up to the recorded head, growth changes nothing about which slots are selected. */
  lemma SameGridBelow(c: HeadConfig, w: HeadWorld, chain: seq<u64>)
    requires ConfigOk(c) && HeadInv(c, w) && w.chain <= chain && Increasing(chain)
    requires w.state.latest.Some?
    ensures forall g: u64 :: g <= w.state.latest.value.slot ==>
                       (OnGrid(w.chain, c.threshold, g) <==> OnGrid(chain, c.threshold, g))
  {
    hide OnGrid, Increasing;
    var more := chain[|w.chain|..];
    assert chain == w.chain + more;
    OnGridInChain(w.chain, c.threshold);
    forall g: u64 | g <= w.state.latest.value.slot
      ensures OnGrid(w.chain, c.threshold, g) <==> OnGrid(chain, c.threshold, g)
    {
      GridGrows(w.chain, more, c.threshold, g);
    }
  }

  /** The sparse index against the full one: for a multiple of the threshold within the recorded head,
      with the last block at or before it above the start slot, the lookup returns that block's hash if
      and only if the block lies on a multiple or the next block does not, and it was not jumped. */
  lemma SparseMatchesFull(c: HeadConfig, ws: seq<HeadWorld>, actions: seq<HeadAction>, multiple: u64, x: nat)
    requires ConfigOk(c) && IsHeadRun(c, ws, actions)
    requires forall s, t :: c.block(s).hash == c.block(t).hash ==> s == t
    requires Last(ws).state.latest.Some? && multiple <= Last(ws).state.latest.value.slot
    requires multiple % c.threshold == 0
    requires var chain := Last(ws).chain;
             && x < |chain| && c.start < chain[x] <= multiple
             && (x + 1 < |chain| ==> multiple < chain[x + 1])
    ensures var chain := Last(ws).chain;
            HashAt(Last(ws).state, multiple) == Ok(c.block(chain[x]).hash)
            <==> && (chain[x] % c.threshold == 0 || (x + 1 < |chain| && chain[x + 1] % c.threshold != 0))
                 && chain[x] !in Last(ws).jumped
  {
    HeadRunsKeepInv(c, ws, actions);
    var w := Last(ws);
    FloorIsLastBlock(w.chain, c.threshold, x, multiple);
    hide IsHeadRun, OnGrid, IsPicked, HasLater;
    LatestBeyond(c, w, x, multiple);
    assert w.chain[x] in w.state.stored <==> OnGrid(w.chain, c.threshold, w.chain[x]) && w.chain[x] !in w.jumped;
    LookupIsBlock(c, w, multiple, w.chain[x]);
  }

  /** With nothing stored between `p` and the slot, the lookup returns the hash of `p` if and only if `p` is
      stored. */
  lemma LookupIsBlock(c: HeadConfig, w: HeadWorld, slot: u64, p: u64)
    requires ConfigOk(c) && HeadInv(c, w)
    requires forall s, t :: c.block(s).hash == c.block(t).hash ==> s == t
    requires w.state.latest.Some? && p <= slot <= w.state.latest.value.slot
    requires forall g: u64 :: p < g <= slot ==> !OnGrid(w.chain, c.threshold, g)
    ensures HashAt(w.state, slot) == Ok(c.block(p).hash) <==> p in w.state.stored
  {
    hide OnGrid, HasLater, Increasing, Indexed;
    var view := w.state.stored;
    if p in view {
      LookupFinds(view, slot, p);
    } else if Lookup(view, slot).Some? {
      var s :| s in view && view[s] == Lookup(view, slot).value;
      assert s != p;
    }
  }

  /** No block lies between x and the multiple, and whether x is selected depends on the next block. */
  lemma FloorIsLastBlock(chain: seq<u64>, t: u64, x: nat, multiple: u64)
    requires t > 0 && Increasing(chain) && x < |chain| && chain[x] <= multiple && multiple % t == 0
    requires x + 1 < |chain| ==> multiple < chain[x + 1]
    ensures forall g: u64 :: chain[x] < g <= multiple ==> !OnGrid(chain, t, g)
    ensures OnGrid(chain, t, chain[x])
            <==> chain[x] % t == 0 || (x + 1 < |chain| && chain[x + 1] % t != 0)
  {
    forall g: u64 | chain[x] < g <= multiple
      ensures g !in chain && !OnGrid(chain, t, g)
    {
      forall i | 0 <= i < |chain|
        ensures chain[i] != g
      {
        assert i > x ==> chain[x + 1] <= chain[i];
      }
    }
    assert OnGrid(chain, t, chain[x]) <==> IsPicked(chain, t, x);
    if x + 1 < |chain| && chain[x] % t != 0 {
      BeyondMultiple(chain[x], multiple, chain[x + 1], t);
    }
  }

  /** Numbers on the two sides of a multiple have different quotients. */
  lemma BeyondMultiple(a: u64, multiple: u64, b: u64, t: u64)
    requires t > 0 && multiple % t == 0 && a < multiple < b
    ensures a / t != b / t
  {
    var k := multiple / t;
    assert multiple == t * k + multiple % t;
    QuotientBelow(a, k, t);
    QuotientAtLeast(b, k, t);
  }

  /** A multiple of the threshold. */
  predicate IsMultiple(b: nat, t: nat)
    requires t > 0
  {
    b % t == 0
  }

  /** What is selected, said without quotients: a slot on a multiple, or the last one before a multiple when
      the next slot lies strictly beyond it and on no multiple itself. */
  lemma SelectedWhenItClosesAMultiple(slots: seq<u64>, t: u64, i: nat)
    requires t > 0 && Increasing(slots) && i < |slots|
    ensures IsPicked(slots, t, i)
            <==> || IsMultiple(slots[i], t)
                 || (&& i + 1 < |slots| && !IsMultiple(slots[i + 1], t)
                     && exists b: nat :: slots[i] < b < slots[i + 1] && IsMultiple(b, t))
  {
    if i + 1 < |slots| && !IsMultiple(slots[i + 1], t) {
      QuotientsDiffer(slots[i], slots[i + 1], t);
    }
  }

  lemma QuotientsDiffer(a: u64, next: u64, t: u64)
    requires t > 0 && a < next && !IsMultiple(next, t)
    ensures a / t != next / t <==> exists b: nat :: a < b < next && IsMultiple(b, t)
  {
    forall b: nat | a < b < next && IsMultiple(b, t)
      ensures a / t != next / t
    {
      BeyondMultiple(a, b, next, t);
    }
    if a / t != next / t {
      var b := MultipleBelow(a, next, t);
    }
  }

  lemma MultipleBelow(a: nat, next: nat, t: nat) returns (b: nat)
    requires t > 0 && a < next && !IsMultiple(next, t) && a / t != next / t
    ensures a < b < next && IsMultiple(b, t)
  {
    var n, k := next / t, a / t;
    b := t * n;
    DivisionWithRest(next, t);
    DivisionWithRest(a, t);
    QuotientAtLeast(next, k, t);
    TimesMonotone(t, k + 1, n);
    NextProduct(t, k);
    ProductIsMultiple(t, n);
  }

  lemma DivisionWithRest(x: nat, t: nat)
    requires t > 0
    ensures x == t * (x / t) + x % t && 0 <= x % t < t
  {
  }

  lemma NextProduct(t: nat, k: nat)
    ensures t * (k + 1) == t * k + t
  {
  }

  lemma ProductIsMultiple(t: nat, k: nat)
    requires t > 0
    ensures IsMultiple(t * k, t)
  {
    ModUnique(t * k, t, k, 0);
  }

  lemma QuotientBelow(a: nat, k: nat, t: nat)
    requires t > 0 && a < t * k
    ensures a / t < k
  {
    assert a == t * (a / t) + a % t;
    TimesMonotone(t, k, a / t);
  }

  lemma QuotientAtLeast(b: nat, k: nat, t: nat)
    requires t > 0 && t * k <= b
    ensures k <= b / t
  {
    assert b == t * (b / t) + b % t && t * (b / t + 1) == t * (b / t) + t;
    TimesMonotone(t, b / t + 1, k);
  }

  lemma TimesMonotone(t: nat, a: nat, b: nat)
    ensures a <= b ==> t * a <= t * b
  {
    assert t * b == t * a + t * (b - a);
  }

  /** If nothing follows x, the recorded head is at most x's slot, which is then the multiple itself. */
  lemma LatestBeyond(c: HeadConfig, w: HeadWorld, x: nat, multiple: u64)
    requires ConfigOk(c) && HeadInv(c, w) && w.state.latest.Some? && multiple <= w.state.latest.value.slot
    requires x < |w.chain| && w.chain[x] <= multiple && multiple % c.threshold == 0
    ensures x + 1 == |w.chain| ==> w.chain[x] % c.threshold == 0
  {
    OnGridInChain(w.chain, c.threshold);
    hide OnGrid;
    var latest := w.state.latest.value.slot;
    assert latest in w.chain;
    var y :| 0 <= y < |w.chain| && w.chain[y] == latest;
    assert y < x ==> w.chain[y] < w.chain[x];
  }

  // ---- the head ----

  lemma HeadInvAt(c: HeadConfig, ws: seq<HeadWorld>, actions: seq<HeadAction>, i: nat)
    requires ConfigOk(c) && IsHeadRun(c, ws, actions) && i < |ws|
    ensures HeadInv(c, ws[i])
    ensures i < |actions| ==> HeadStep(c, ws[i], actions[i], ws[i + 1])
  {
    var front, ws' := actions[..i], ws[..i + 1];
    assert IsHeadRun(c, ws', front) by {
      assert ws'[0] == ws[0];
      hide HeadStep;
      assert forall j :: 0 <= j < |front| ==> ws'[j + 1] == ws[j + 1] && front[j] == actions[j];
    }
    HeadRunsKeepInv(c, ws', front);
  }

  /** A refresh never moves the head back, and when it moves it, not beyond both the last slot the node
      returned and the node's current slot. */
  lemma HeadMovesForwardAndNotTooFar(c: HeadConfig, ws: seq<HeadWorld>, actions: seq<HeadAction>, i: nat)
    requires ConfigOk(c) && IsHeadRun(c, ws, actions) && i < |actions| && actions[i].Refresh?
    ensures var head, head', window := ws[i].state.head, ws[i + 1].state.head, WindowAt(c, ws[i], actions[i].m);
            && head <= head'
            && (head' != head ==>
                  || (window != [] && head' <= Last(window))
                  || (actions[i].current.Some? && head' <= actions[i].current.value))
  {
    HeadInvAt(c, ws, actions, i);
    hide IsHeadRun, HeadInv, Window, ToFetch, StoreUpTo;
    var w, w', m := ws[i], ws[i + 1], actions[i].m;
    var Refresh(_, k, persist, current) := actions[i];
    if w.state.seen == Fingerprint(w.state.head, |WindowAt(c, w, m)|) {
      ForceKeepsInv(c, w, m, k, persist, current, w');
    } else {
      FetchKeepsInv(c, w, m, k, persist, current, w');
    }
    assert HeadInv(c, w);
    WindowLast(c, w, m);
  }

  lemma WindowLast(c: HeadConfig, w: HeadWorld, m: nat)
    requires ConfigOk(c) && HeadInv(c, w) && m <= |w.chain|
    ensures forall s :: s in WindowAt(c, w, m) ==> WindowAt(c, w, m) != [] && s <= Last(WindowAt(c, w, m))
  {
    hide Window, OnGrid, ToFetch, Indexed, Sound, NextPicks;
    FetchedAreNextPicks(c, w.chain, m, w.state.head);
  }

  /** The recorded chain head never goes back, in any run: not by forced advances, not by restarts. */
  lemma {:induction false} RecordedHeadNeverGoesBack(c: HeadConfig, ws: seq<HeadWorld>, actions: seq<HeadAction>, i: nat)
    requires ConfigOk(c) && IsHeadRun(c, ws, actions) && i < |ws| && ws[i].state.latest.Some?
    ensures Last(ws).state.latest.Some?
    ensures ws[i].state.latest.value.slot <= Last(ws).state.latest.value.slot
  {
    if i < |actions| {
      HeadRunPrefix(c, ws, actions);
      RecordedHeadNeverGoesBack(c, ws[..|actions|], actions[..|actions| - 1], i);
      HeadRunsKeepInv(c, ws[..|actions|], actions[..|actions| - 1]);
      hide IsHeadRun;
      StepKeepsRecordedHead(c, ws[|actions| - 1], Last(actions), Last(ws));
    }
  }

  lemma StepKeepsRecordedHead(c: HeadConfig, w: HeadWorld, a: HeadAction, w': HeadWorld)
    requires ConfigOk(c) && HeadInv(c, w) && HeadStep(c, w, a, w') && w.state.latest.Some?
    ensures w'.state.latest.Some? && w.state.latest.value.slot <= w'.state.latest.value.slot
  {
    hide Window, ToFetch, StoreUpTo, OnGrid, Indexed, Increasing;
    match a
    case Refresh(m, k, persist, current) =>
      if w.state.seen == Fingerprint(w.state.head, |WindowAt(c, w, m)|) {
        ForceKeepsInv(c, w, m, k, persist, current, w');
      } else {
        FetchKeepsInv(c, w, m, k, persist, current, w');
      }
    case _ =>
  }

  /** A refresh that nothing failed in: all selected blocks fetched, the current slot answered. */
  ghost predicate Succeeds(c: HeadConfig, w: HeadWorld, a: HeadAction) {
    && a.Refresh? && a.m <= |w.chain| && a.current.Some?
    && c.threshold > 0 && a.k == |ToFetch(c, w.state.head, WindowAt(c, w, a.m))|
  }

  /** Two consecutive successful refreshes of an unchanged chain advance the head, unless the current slot
      is still closer than a forced jump. */
  lemma TwoRefreshesAdvance(c: HeadConfig, ws: seq<HeadWorld>, actions: seq<HeadAction>, i: nat)
    requires ConfigOk(c) && IsHeadRun(c, ws, actions) && i + 1 < |actions|
    requires Succeeds(c, ws[i], actions[i]) && Succeeds(c, ws[i + 1], actions[i + 1])
    requires actions[i + 1].m == actions[i].m && actions[i + 1].current == actions[i].current
    ensures || ws[i].state.head < ws[i + 2].state.head
            || actions[i].current.value < ws[i].state.head + c.target - 3
  {
    hide HeadStep, HeadInv, Window, IsHeadRun;
    RunLength(c, ws, actions);
    HeadInvAt(c, ws, actions, i);
    HeadInvAt(c, ws, actions, i + 1);
    HeadMovesForwardAndNotTooFar(c, ws, actions, i);
    HeadMovesForwardAndNotTooFar(c, ws, actions, i + 1);
    SuccessAdvancesOrRemembers(c, ws[i], actions[i], ws[i + 1]);
    SuccessAdvancesOrRemembers(c, ws[i + 1], actions[i + 1], ws[i + 2]);
  }

  lemma RunLength(c: HeadConfig, ws: seq<HeadWorld>, actions: seq<HeadAction>)
    requires ConfigOk(c) && IsHeadRun(c, ws, actions)
    ensures |ws| == |actions| + 1
  {
  }

  /** One successful refresh advances, or waits for the tip, or leaves the fingerprint that makes the next
      one force. */
  lemma SuccessAdvancesOrRemembers(c: HeadConfig, w: HeadWorld, a: HeadAction, w': HeadWorld)
    requires ConfigOk(c) && HeadInv(c, w) && HeadStep(c, w, a, w') && Succeeds(c, w, a)
    ensures || w.state.head < w'.state.head
            || a.current.value < w.state.head + c.target - 3
            || (w.state.seen != Fingerprint(w.state.head, |WindowAt(c, w, a.m)|)
                && w'.state.head == w.state.head && w'.chain == w.chain
                && w'.state.seen == Fingerprint(w.state.head, |WindowAt(c, w, a.m)|))
  {
    hide Window, OnGrid, Indexed, Increasing, Picked;
    var Refresh(m, k, persist, current) := a;
    if w.state.seen == Fingerprint(w.state.head, |WindowAt(c, w, m)|) {
      ForceKeepsInv(c, w, m, k, persist, current, w');
    } else {
      hide Sound;
      var window := WindowAt(c, w, m);
      FetchedAreNextPicks(c, w.chain, m, w.state.head);
      NextPicksAbove(c, w.chain, w.state.head, ToFetch(c, w.state.head, window));
    }
  }

  // ---- what the head has passed ----

  /** As long as the process is not restarted, what the head has passed is never stored any more. */
  lemma {:induction false} PassedSlotsStayMissing(c: HeadConfig, ws: seq<HeadWorld>, actions: seq<HeadAction>, i: nat, p: u64)
    requires ConfigOk(c) && IsHeadRun(c, ws, actions) && i < |ws|
    requires forall j :: i <= j < |actions| ==> actions[j] != Restart
    requires p <= ws[i].state.head && p !in ws[i].state.stored
    ensures p <= Last(ws).state.head && p !in Last(ws).state.stored
  {
    if i < |actions| {
      HeadRunPrefix(c, ws, actions);
      PassedSlotsStayMissing(c, ws[..|actions|], actions[..|actions| - 1], i, p);
      HeadRunsKeepInv(c, ws[..|actions|], actions[..|actions| - 1]);
      hide IsHeadRun;
      StepStoresAboveHead(c, ws[|actions| - 1], Last(actions), Last(ws), p);
    }
  }

  lemma StepStoresAboveHead(c: HeadConfig, w: HeadWorld, a: HeadAction, w': HeadWorld, p: u64)
    requires ConfigOk(c) && HeadInv(c, w) && HeadStep(c, w, a, w') && a != Restart
    requires p <= w.state.head && p !in w.state.stored
    ensures p <= w'.state.head && p !in w'.state.stored
  {
    hide Window, ToFetch, OnGrid, Indexed, Sound, StoreUpTo;
    match a
    case Refresh(m, k, persist, current) =>
      if w.state.seen == Fingerprint(w.state.head, |WindowAt(c, w, m)|) {
        ForceKeepsInv(c, w, m, k, persist, current, w');
      } else {
        FetchKeepsInv(c, w, m, k, persist, current, w');
        var window := WindowAt(c, w, m);
        FetchedAreNextPicks(c, w.chain, m, w.state.head);
        var seen := w.state.(seen := Fingerprint(w.state.head, |window|));
        StoringAboveHead(c, w.chain, seen, ToFetch(c, w.state.head, window), k, p);
      }
    case _ =>
  }

  lemma {:induction false} StoringAboveHead(c: HeadConfig, chain: seq<u64>, s: HeadState, slots: seq<u64>, k: nat, p: u64)
    requires c.threshold > 0 && k <= |slots| && NextPicks(c, chain, s.head, slots)
    requires p <= s.head && p !in s.stored
    ensures p !in StoreUpTo(c, s, slots, k).stored
  {
    hide OnGrid;
    if k > 0 {
      StoringAboveHead(c, chain, s, slots, k - 1, p);
      assert slots[k - 1] in slots;
    }
  }
}
