/** What forced advances do to the block index: exactly when one leaves a gap at once, and two runs in which one
    leaves a gap for good, the first after a failed fetch, the second without any failure. */
module ChainHeadForced {
  import opened Sequences
  import opened Bytes
  import opened ChainHead
  import opened ChainHeadIndex
  import opened ChainHeadTheorems

  /** All selected slots of the chain in (from, to] are stored. */
  ghost predicate StoredBetween(c: HeadConfig, w: HeadWorld, from: u64, to: u64)
    requires c.threshold > 0
  {
    forall g: u64 :: from < g <= to && OnGrid(w.chain, c.threshold, g) ==> g in w.state.stored
  }

  /** A refresh that finds the window it saw before. */
  ghost predicate Forces(c: HeadConfig, w: HeadWorld, a: HeadAction) {
    a.Refresh? && a.m <= |w.chain| && w.state.seen == Fingerprint(w.state.head, |WindowAt(c, w, a.m)|)
  }

  /** A run in which no forced advance moved the head jumped nothing. */
  lemma {:induction false} UnforcedRunsJumpNothing(c: HeadConfig, ws: seq<HeadWorld>, actions: seq<HeadAction>)
    requires ConfigOk(c) && IsHeadRun(c, ws, actions)
    requires forall i :: 0 <= i < |actions| && Forces(c, ws[i], actions[i]) ==> ws[i + 1].state.head == ws[i].state.head
    ensures Last(ws).jumped == {}
  {
    if actions != [] {
      HeadRunPrefix(c, ws, actions);
      UnforcedRunsJumpNothing(c, ws[..|actions|], actions[..|actions| - 1]);
      hide Refreshed, Window, ToFetch, IsHeadRun;
      assert Forces(c, ws[|actions| - 1], Last(actions)) ==> Last(ws).state.head == ws[|actions| - 1].state.head;
      StepJumpsNothing(c, ws[|actions| - 1], Last(actions), Last(ws));
    }
  }

  lemma StepJumpsNothing(c: HeadConfig, w: HeadWorld, a: HeadAction, w': HeadWorld)
    requires ConfigOk(c) && HeadStep(c, w, a, w') && w.jumped == {}
    requires Forces(c, w, a) ==> w'.state.head == w.state.head
    ensures w'.jumped == {}
  {
    hide Refreshed, Window, ToFetch;
  }

  /** An exact index stays exact over a forced advance if and only if nothing selected was jumped over without
      being stored. */
  lemma ExactAfterForce(c: HeadConfig, w: HeadWorld, a: HeadAction, w': HeadWorld)
    requires ConfigOk(c) && HeadInv(c, w) && Exact(c, w) && Forces(c, w, a) && HeadStep(c, w, a, w')
    ensures Exact(c, w') <==> StoredBetween(c, w, w.state.head, w'.state.head)
  {
    hide Window, ToFetch, OnGrid, Increasing, Exact, Indexed;
    ForceKeepsInv(c, w, a.m, a.k, a.persist, a.current, w');
    ExactWithoutGap(c, w);
    ExactWithoutGap(c, w');
    JumpedBelowHead(c, w);
    JumpedBelowHead(c, w');
    assert w'.chain == w.chain && w'.state.stored == w.state.stored;
    assert w'.jumped == w.jumped + Crossed(w.state, w'.state.head);
    if StoredBetween(c, w, w.state.head, w'.state.head) {
      assert forall s :: s in Crossed(w.state, w'.state.head) ==> !OnGrid(w.chain, c.threshold, s);
    }
    if NoGap(c, w', w'.state.head) {
      forall g: u64 | w.state.head < g <= w'.state.head && OnGrid(w.chain, c.threshold, g)
        ensures g in w.state.stored
      {
        assert g in w.state.stored || g in Crossed(w.state, w'.state.head);
      }
    }
  }

  /** A window fetches every selected slot of the chain between the head and the window's last slot. */
  lemma FetchedBeforeLast(c: HeadConfig, chain: seq<u64>, m: nat, head: u64, g: u64)
    requires c.threshold > 0 && Increasing(chain) && m <= |chain|
    requires var window := Window(chain[..m], head, head + c.offset);
             window != [] && head < g < Last(window) && OnGrid(chain, c.threshold, g)
    ensures g in ToFetch(c, head, Window(chain[..m], head, head + c.offset))
  {
    hide OnGrid, Picked, Window, Increasing, LowerBound;
    var window := Window(chain[..m], head, head + c.offset);
    var from, end := WindowBounds(chain, m, head, head + c.offset);
    FetchedAreNextPicks(c, chain, m, head);
    OnGridInChain(chain, c.threshold);
    StretchFacts(chain, from, end, head);
    assert Last(window) == chain[from + (|window| - 1)];
    NotMissed(chain, c.threshold, from, end, g, |window| - 1);
    WindowPicksFromChain(chain, c.threshold, from, end);
    DropHead(Picked(window, c.threshold), head);
  }

  /** A forced advance over a window of more than one slot leaves the index exact if and only if every slot
      the window would have fetched is stored already, and so is its last slot if the chain selects it. */
  lemma ForcedOverWindowExactWhen(c: HeadConfig, w: HeadWorld, a: HeadAction, w': HeadWorld)
    requires ConfigOk(c) && HeadInv(c, w) && Exact(c, w) && Forces(c, w, a) && HeadStep(c, w, a, w')
    requires |WindowAt(c, w, a.m)| > 1
    ensures var window := WindowAt(c, w, a.m);
            && w'.state.head == Last(window)
            && (Exact(c, w')
                <==> && (forall p :: p in ToFetch(c, w.state.head, window) ==> p in w.state.stored)
                     && (OnGrid(w.chain, c.threshold, Last(window)) ==> Last(window) in w.state.stored))
  {
    hide OnGrid, Window, ToFetch, Exact, Indexed, Sound;
    var window, head := WindowAt(c, w, a.m), w.state.head;
    ExactAfterForce(c, w, a, w');
    FetchedAreNextPicks(c, w.chain, a.m, head);
    WindowLast(c, w, a.m);
    assert window[0] in window && window[0] < Last(window);
    if forall p :: p in ToFetch(c, head, window) ==> p in w.state.stored {
      forall g: u64 | head < g < Last(window) && OnGrid(w.chain, c.threshold, g)
        ensures g in w.state.stored
      {
        FetchedBeforeLast(c, w.chain, a.m, head, g);
      }
    }
  }

  /** A selected slot that the head moves past. */
  ghost predicate JumpedOver(c: HeadConfig, w: HeadWorld, w': HeadWorld, s: u64)
    requires c.threshold > 0
  {
    w.state.head < s <= w'.state.head && OnGrid(w.chain, c.threshold, s)
  }

  /** With at most one slot in an up-to-date window, a forced advance leaves the index exact if and only if
      that slot is not jumped over, is not selected, or is stored already. */
  lemma ForcedPastTipExactWhen(c: HeadConfig, w: HeadWorld, a: HeadAction, w': HeadWorld)
    requires ConfigOk(c) && HeadInv(c, w) && Exact(c, w) && Forces(c, w, a) && HeadStep(c, w, a, w')
    requires |WindowAt(c, w, a.m)| <= 1 && a.m == |w.chain|
    ensures Exact(c, w')
            <==> forall s :: s in WindowAt(c, w, a.m) && JumpedOver(c, w, w', s) ==> s in w.state.stored
  {
    hide OnGrid, Exact, Indexed, Sound, ToFetch, Window;
    ExactAfterForce(c, w, a, w');
    OnGridInChain(w.chain, c.threshold);
    assert w'.state.head <= w.state.head + c.offset;
    forall g: u64 | g in w.chain && w.state.head < g <= w'.state.head
      ensures g in WindowAt(c, w, a.m)
    {
      assert w.chain[..a.m] == w.chain;
      WindowMember(w.chain, w.state.head, w.state.head + c.offset, g);
    }
  }

  lemma WindowMember(view: seq<u64>, from: nat, to: nat, s: u64)
    ensures s in Window(view, from, to) <==> s in view && from <= s <= to
  {
    FilterMember(view, InWindow(from, to), s);
  }

  /** The fingerprint is recorded before any block is fetched: when the first fetch fails, the next refresh
      that gets equally many slots forces the head to the window's end and stores nothing. The index stays
      exact if and only if there was nothing to store: every slot of the window to fetch is stored already,
      and so is its last slot if the chain selects it. */
  lemma FailedFetchExactWhen(c: HeadConfig, w: HeadWorld, a: HeadAction, w1: HeadWorld, b: HeadAction, w2: HeadWorld)
    requires ConfigOk(c) && HeadInv(c, w) && Exact(c, w)
    requires a.Refresh? && a.k == 0 && HeadStep(c, w, a, w1) && !Forces(c, w, a)
    requires b.Refresh? && HeadStep(c, w1, b, w2)
    requires |WindowAt(c, w1, b.m)| == |WindowAt(c, w, a.m)| > 1
    ensures w2.jumped == w.jumped + Crossed(w.state, w2.state.head) && w2.state.stored == w.state.stored
    ensures var window := WindowAt(c, w, a.m);
            && w2.state.head == Last(window) > w.state.head
            && (Exact(c, w2)
                <==> && (forall p :: p in ToFetch(c, w.state.head, window) ==> p in w.state.stored)
                     && (OnGrid(w.chain, c.threshold, Last(window)) ==> Last(window) in w.state.stored))
  {
    hide OnGrid, Exact, Picked, ToFetch, Increasing, HeadInv;
    NothingFetched(c, w, a, w1);
    HeadStepKeepsInv(c, w, a, w1);
    InvIncreasing(c, w);
    FingerprintIdentifiesWindow(w.chain, a.m, b.m, w.state.head, w.state.head + c.offset);
    hide Window;
    ForcedOverWindowExactWhen(c, w1, b, w2);
    ForceKeepsInv(c, w1, b.m, b.k, b.persist, b.current, w2);
  }

  lemma NothingFetched(c: HeadConfig, w: HeadWorld, a: HeadAction, w1: HeadWorld)
    requires ConfigOk(c) && a.Refresh? && a.k == 0 && HeadStep(c, w, a, w1) && !Forces(c, w, a)
    ensures w1.chain == w.chain && w1.jumped == w.jumped
    ensures w1.state == w.state.(seen := Fingerprint(w.state.head, |WindowAt(c, w, a.m)|))
    ensures Exact(c, w) ==> Exact(c, w1)
  {
    hide Window, ToFetch;
  }

  lemma InvIncreasing(c: HeadConfig, w: HeadWorld)
    requires ConfigOk(c) && HeadInv(c, w)
    ensures Increasing(w.chain)
  {
  }

  // ---- a run that loses a slot ----

  /** Two blocks after the start slot, the first on a multiple. */
  ghost predicate LosingSetting(c: HeadConfig, a: u64, b: u64) {
    ConfigOk(c) && c.start < a < b <= c.start + c.offset && a % c.threshold == 0
  }

  lemma LosingWindow(c: HeadConfig, a: u64, b: u64, chain: seq<u64>)
    requires LosingSetting(c, a, b) && [a, b] <= chain && Increasing(chain)
    ensures Window(chain[..2], c.start, c.start + c.offset) == [a, b]
    ensures OnGrid(chain, c.threshold, a)
  {
    assert chain[..2] == [a, b];
    FilterAll([a, b], InWindow(c.start, c.start + c.offset));
    assert chain[0] == a && IsPicked(chain, c.threshold, 0);
  }

  /** When the first fetch of the first refresh fails, the second refresh forces the head past the selected
      slot, which is not stored. */
  lemma TwoRefreshesLose(c: HeadConfig, a: u64, b: u64, w0: HeadWorld, r0: HeadAction, w1: HeadWorld,
                         r1: HeadAction, w2: HeadWorld)
    requires LosingSetting(c, a, b) && HeadInit(c, w0) && w0.chain == [a, b]
    requires r0.Refresh? && r0.m == 2 && r0.k == 0 && HeadStep(c, w0, r0, w1)
    requires r1.Refresh? && r1.m == 2 && HeadStep(c, w1, r1, w2)
    ensures w2.chain == [a, b] && w2.state.head == b && w2.state.stored == map[]
  {
    LosingWindow(c, a, b, [a, b]);
    hide Window, OnGrid, Picked;
    assert WindowAt(c, w0, 2) == [a, b];
    assert w1.state == HeadState(c.start, Fingerprint(c.start, 2), map[], None);
    assert WindowAt(c, w1, 2) == [a, b];
  }

  /** There is such a run ... */
  lemma LosingRun(c: HeadConfig, a: u64, b: u64) returns (ws: seq<HeadWorld>, actions: seq<HeadAction>)
    requires LosingSetting(c, a, b)
    ensures IsHeadRun(c, ws, actions) && ws[0].chain == [a, b] && |actions| == 2
    ensures forall i :: 0 <= i < 2 ==> actions[i].Refresh? && actions[i].m == 2 && actions[i].k == 0
  {
    var w0 := HeadWorld([a, b], Started(c.start, map[], None), {});
    var w1 := AfterRefresh(c, w0, 2, 0, false, None);
    var w2 := AfterRefresh(c, w1, 2, 0, false, None);
    var r := Refresh(2, 0, false, None);
    ws, actions := [w0, w1, w2], [r, r];
    hide AfterRefresh, ToFetch, WindowAt;
    assert HeadStep(c, w0, r, w1) && w1.chain == w0.chain by { SameChain(c, w0, 2, 0, false, None); }
    assert HeadStep(c, w1, r, w2);
  }

  lemma SameChain(c: HeadConfig, w: HeadWorld, m: nat, k: nat, persist: bool, current: Option<u64>)
    requires ConfigOk(c) && m <= |w.chain| && k <= |ToFetch(c, w.state.head, WindowAt(c, w, m))|
    ensures AfterRefresh(c, w, m, k, persist, current).chain == w.chain
  {
    hide Refreshed, ToFetch, Window;
  }

  /** ... and however it goes on, as long as the process is not restarted, the selected slot stays missing
      below the head. */
  lemma SlotLostForGood(c: HeadConfig, a: u64, b: u64, ws: seq<HeadWorld>, actions: seq<HeadAction>)
    requires LosingSetting(c, a, b) && IsHeadRun(c, ws, actions) && ws[0].chain == [a, b]
    requires |actions| >= 2 && forall i :: 0 <= i < |actions| ==> actions[i] != Restart
    requires actions[0].Refresh? && actions[0].m == 2 && actions[0].k == 0
    requires actions[1].Refresh? && actions[1].m == 2
    ensures c.start < a <= Last(ws).state.head
    ensures OnGrid(Last(ws).chain, c.threshold, a) && a !in Last(ws).state.stored
    ensures !Exact(c, Last(ws))
  {
    hide HeadStep, Window, Picked, OnGrid, Increasing;
    assert HeadStep(c, ws[0], actions[0], ws[1]) && HeadStep(c, ws[1], actions[1], ws[2]);
    TwoRefreshesLose(c, a, b, ws[0], actions[0], ws[1], actions[1], ws[2]);
    PassedSlotsStayMissing(c, ws, actions, 2, a);
    ChainOnlyGrows(c, ws, actions, 2);
    HeadRunsKeepInv(c, ws, actions);
    LosingWindow(c, a, b, Last(ws).chain);
  }

  // ---- a run that loses a slot without any failure ----

  /** An outage: two blocks in one group, neither on a multiple, and then one beyond the next multiple, not on
      one either. */
  ghost predicate OutageSetting(c: HeadConfig, a: u64, b: u64, d: u64) {
    && ConfigOk(c) && c.start < a < b < d && b <= c.start + c.offset
    && a % c.threshold != 0 && b % c.threshold != 0 && d % c.threshold != 0
    && a / c.threshold == b / c.threshold != d / c.threshold
  }

  lemma OutageWindow(c: HeadConfig, a: u64, b: u64, d: u64)
    requires OutageSetting(c, a, b, d)
    ensures Increasing([a, b]) && Increasing([a, b, d])
    ensures Window([a, b][..2], c.start, c.start + c.offset) == [a, b]
    ensures ToFetch(c, c.start, [a, b]) == []
    ensures !OnGrid([a, b], c.threshold, a) && !OnGrid([a, b], c.threshold, b)
    ensures OnGrid([a, b, d], c.threshold, b)
  {
    hide Filter;
    assert [a, b][..2] == [a, b];
    FilterAll([a, b], InWindow(c.start, c.start + c.offset));
    NothingPicked(a, b, c.threshold);
    assert [a, b, d][1] == b && IsPicked([a, b, d], c.threshold, 1);
  }

  lemma NothingPicked(a: u64, b: u64, t: u64)
    requires t > 0 && a % t != 0 && b % t != 0 && a / t == b / t
    ensures Picked([a, b], t) == [] && !OnGrid([a, b], t, a) && !OnGrid([a, b], t, b)
  {
    assert !IsPicked([a, b], t, 0) && !IsPicked([a, b], t, 1);
    hide IsPicked;
    assert PickedUpTo([a, b], t, 1) == PickedUpTo([a, b], t, 0) == [];
  }

  /** Two refreshes in which nothing fails force the head to the second block. The index is exact then; but
      when the third block is produced, the second becomes selected, and it was jumped. */
  lemma OutageRun(c: HeadConfig, a: u64, b: u64, d: u64) returns (ws: seq<HeadWorld>, actions: seq<HeadAction>)
    requires OutageSetting(c, a, b, d)
    ensures IsHeadRun(c, ws, actions) && |actions| == 3 && ws[0].chain == [a, b] && actions[2] == Extend([d])
    ensures forall i :: 0 <= i < 2 ==> Succeeds(c, ws[i], actions[i])
    ensures Exact(c, ws[2]) && ws[2].state.head == b
    ensures OnGrid(ws[3].chain, c.threshold, b) && b in ws[3].jumped && !Exact(c, ws[3])
  {
    OutageWindow(c, a, b, d);
    hide Window, OnGrid, Picked, ToFetch, Increasing;
    var r := Refresh(2, 0, false, Some(0));
    var w0 := HeadWorld([a, b], Started(c.start, map[], None), {});
    assert WindowAt(c, w0, 2) == [a, b];
    var w1 := AfterRefresh(c, w0, 2, 0, false, Some(0));
    assert w1 == HeadWorld([a, b], HeadState(c.start, Fingerprint(c.start, 2), map[], None), {});
    assert WindowAt(c, w1, 2) == [a, b];
    var w2 := AfterRefresh(c, w1, 2, 0, false, Some(0));
    assert w2.chain == [a, b] && w2.state.head == b && w2.state.stored == map[];
    assert b in w2.jumped;
    var w3 := w2.(chain := [a, b] + [d]);
    assert [a, b] + [d] == [a, b, d];
    ws, actions := [w0, w1, w2, w3], [r, r, Extend([d])];
    assert HeadStep(c, w0, r, w1) && HeadStep(c, w1, r, w2) && HeadStep(c, w2, Extend([d]), w3);
    OnGridInChain([a, b], c.threshold);
  }

  /** However that run goes on without a restart, the head's slot stays missing: the refresher skips its current
      head when it stores, and everything it stores later lies above. */
  lemma OutageLosesHead(c: HeadConfig, a: u64, b: u64, d: u64, ws: seq<HeadWorld>, actions: seq<HeadAction>)
    requires OutageSetting(c, a, b, d) && IsHeadRun(c, ws, actions) && |actions| >= 3
    requires ws[2].state.head == b && ws[2].state.stored == map[] && ws[3].chain == [a, b, d]
    requires forall i :: 0 <= i < |actions| ==> actions[i] != Restart
    ensures c.start < b <= Last(ws).state.head
    ensures OnGrid(Last(ws).chain, c.threshold, b) && b !in Last(ws).state.stored
    ensures !Exact(c, Last(ws))
  {
    hide HeadStep, Window, Picked, OnGrid, Increasing, IsHeadRun;
    RunShape(c, ws, actions);
    OutageWindow(c, a, b, d);
    PassedSlotsStayMissing(c, ws, actions, 2, b);
    ChainOnlyGrows(c, ws, actions, 3);
    HeadRunsKeepInv(c, ws, actions);
    InvIncreasing(c, Last(ws));
    var more := Last(ws).chain[3..];
    assert Last(ws).chain == [a, b, d] + more;
    GridGrows([a, b, d], more, c.threshold, b);
  }

  lemma RunShape(c: HeadConfig, ws: seq<HeadWorld>, actions: seq<HeadAction>)
    requires ConfigOk(c) && IsHeadRun(c, ws, actions)
    ensures |ws| == |actions| + 1
  {
  }

  lemma {:induction false} ChainOnlyGrows(c: HeadConfig, ws: seq<HeadWorld>, actions: seq<HeadAction>, i: nat)
    requires ConfigOk(c) && IsHeadRun(c, ws, actions) && i < |ws|
    ensures ws[i].chain <= Last(ws).chain
  {
    if i < |actions| {
      HeadRunPrefix(c, ws, actions);
      ChainOnlyGrows(c, ws[..|actions|], actions[..|actions| - 1], i);
      hide AfterRefresh, IsHeadRun;
      StepGrows(c, ws[|actions| - 1], Last(actions), Last(ws));
    }
  }

  lemma StepGrows(c: HeadConfig, w: HeadWorld, a: HeadAction, w': HeadWorld)
    requires ConfigOk(c) && HeadStep(c, w, a, w')
    ensures w.chain <= w'.chain
  {
    hide Refreshed, ToFetch, Window;
  }
}
