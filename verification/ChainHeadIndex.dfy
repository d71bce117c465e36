/** What every run of the chain-head refresher keeps, forced advances included: up to the head the stored
    blocks are the chain's selected ones but those that were jumped; and the head moves forward and not too
    far. */
module ChainHeadIndex {
  import opened Sequences
  import opened Bytes
  import opened Records
  import opened ChainHead

  // ---- the invariants ----

  /** Some block of the chain comes after `s`. */
  ghost predicate HasLater(chain: seq<u64>, s: u64) {
    exists t :: t in chain && s < t
  }

  /** Up to the head, a slot is stored, or was jumped, or is not selected and no longer can be, because a
      block after it is known. What was jumped is not stored. */
  ghost predicate Indexed(c: HeadConfig, chain: seq<u64>, s: HeadState, jumped: set<u64>)
    requires c.threshold > 0
  {
    && (forall t :: t in jumped ==> c.start < t <= s.head && t !in s.stored)
    && forall t: u64 :: c.start < t <= s.head ==>
         t in s.stored || t in jumped || (!OnGrid(chain, c.threshold, t) && HasLater(chain, t))
  }

  /** Only selected slots are stored, and the recorded chain head is one of them, at or below the head. */
  ghost predicate Sound(c: HeadConfig, chain: seq<u64>, s: HeadState)
    requires c.threshold > 0
  {
    && c.start <= s.head
    && (forall t :: t in s.stored ==>
          t > c.start && OnGrid(chain, c.threshold, t) && s.stored[t] == c.block(t))
    && (s.latest.Some? ==> LatestOk(c, s))
  }

  ghost predicate LatestOk(c: HeadConfig, s: HeadState)
    requires s.latest.Some?
  {
    && s.latest.value.slot <= s.head
    && s.latest.value.slot in s.stored
    && s.latest.value == c.block(s.latest.value.slot)
  }

  function Max(a: u64, b: u64): u64 {
    if a < b then b else a
  }

  ghost predicate HeadInv(c: HeadConfig, w: HeadWorld)
    requires c.threshold > 0
  {
    && Increasing(w.chain)
    && Sound(c, w.chain, w.state)
    && Indexed(c, w.chain, w.state, w.jumped)
  }

  // ---- storing what a window selects ----

  /** The next selected slots of the chain after `head`, none left out. */
  ghost predicate NextPicks(c: HeadConfig, chain: seq<u64>, head: u64, slots: seq<u64>)
    requires c.threshold > 0
  {
    && Increasing(slots)
    && (forall p :: p in slots ==> head < p && OnGrid(chain, c.threshold, p))
    && (forall g: u64, p :: p in slots && head < g <= p && OnGrid(chain, c.threshold, g) ==> g in slots)
  }

  lemma FetchedAreNextPicks(c: HeadConfig, chain: seq<u64>, m: nat, head: u64)
    requires c.threshold > 0 && Increasing(chain) && m <= |chain|
    ensures var window := Window(chain[..m], head, head + c.offset);
            && NextPicks(c, chain, head, ToFetch(c, head, window))
            && Increasing(window)
            && (forall p :: p in window ==> head <= p)
            && (forall p :: p in ToFetch(c, head, window) ==> p in window)
  {
    hide OnGrid, Picked, Window, Increasing, NextPicks;
    var window := Window(chain[..m], head, head + c.offset);
    var from, end := WindowBounds(chain, m, head, head + c.offset);
    WindowPicksFromChain(chain, c.threshold, from, end);
    OnGridInChain(chain, c.threshold);
    StretchFacts(chain, from, end, head);
    PicksAfterHead(c, chain, from, window, head);
  }

  /** Leaving out the current head leaves the next selected slots after it. */
  lemma PicksAfterHead(c: HeadConfig, chain: seq<u64>, from: nat, window: seq<u64>, head: u64)
    requires c.threshold > 0 && from <= |chain|
    requires var picks := Picked(window, c.threshold);
             && Increasing(picks)
             && (forall p :: p in picks ==> OnGrid(chain, c.threshold, p) && p in window && head <= p)
             && (forall g: u64, p :: p in picks && from < |chain| && chain[from] <= g <= p && OnGrid(chain, c.threshold, g)
                   ==> g in picks)
    requires from == |chain| ==> window == []
    requires forall g: u64 :: g > head && OnGrid(chain, c.threshold, g) ==> from < |chain| && chain[from] <= g
    ensures NextPicks(c, chain, head, ToFetch(c, head, window))
    ensures forall p :: p in ToFetch(c, head, window) ==> p in window
  {
    hide OnGrid, Picked, Increasing;
    var picks, slots := Picked(window, c.threshold), ToFetch(c, head, window);
    DropHead(picks, head);
    forall p | p in slots
      ensures head < p && OnGrid(chain, c.threshold, p) && p in window
    {
      assert p in picks && p != head;
    }
    forall g: u64, p | p in slots && head < g <= p && OnGrid(chain, c.threshold, g)
      ensures g in slots
    {
      assert p in picks && g in picks;
    }
  }

  lemma WindowBounds(chain: seq<u64>, m: nat, from: nat, to: nat) returns (i: nat, end: nat)
    requires Increasing(chain) && m <= |chain| && from <= to
    ensures i <= end <= |chain| && Window(chain[..m], from, to) == chain[i..end]
    ensures i == LowerBound(chain, from)
  {
    i := LowerBound(chain, from);
    var j := LowerBound(chain, to + 1);
    ShorterViewCuts(chain, m, from, to);
    WindowIsStretch(chain, from, to);
    end := if m <= i then i else if m <= j then m else j;
  }

  lemma StretchFacts(chain: seq<u64>, from: nat, end: nat, head: u64)
    requires Increasing(chain) && from <= end <= |chain| && from == LowerBound(chain, head)
    ensures Increasing(chain[from..end])
    ensures forall p :: p in chain[from..end] ==> head <= p
    ensures forall g :: g in chain && head < g ==> from < |chain| && chain[from] <= g
  {
    forall g | g in chain && head < g
      ensures from < |chain| && chain[from] <= g
    {
      var x :| 0 <= x < |chain| && chain[x] == g;
    }
    forall p | p in chain[from..end]
      ensures head <= p
    {
      var x :| 0 <= x < |chain[from..end]| && chain[from..end][x] == p;
      assert chain[from] <= chain[from + x];
    }
  }

  lemma OnGridInChain(chain: seq<u64>, threshold: u64)
    requires threshold > 0
    ensures forall g :: OnGrid(chain, threshold, g) ==> g in chain
  {
  }

  lemma DropHead(picks: seq<u64>, head: u64)
    requires Increasing(picks) && forall p :: p in picks ==> head <= p
    ensures var rest := if picks != [] && picks[0] == head then picks[1..] else picks;
            Increasing(rest) && forall p :: p in rest <==> p in picks && p != head
  {
    if picks != [] {
      assert picks == [picks[0]] + picks[1..];
      assert forall i :: 0 <= i < |picks[1..]| ==> picks[1..][i] == picks[i + 1] > picks[0];
      assert picks[0] in picks;
    }
  }

  /** Storing the next selected slots one by one leaves none out, wherever the loop stops. */
  lemma {:induction false} StoringIndexes(c: HeadConfig, chain: seq<u64>, s: HeadState, jumped: set<u64>,
                                          slots: seq<u64>, k: nat)
    requires c.threshold > 0 && k <= |slots| && c.start <= s.head
    requires Indexed(c, chain, s, jumped) && NextPicks(c, chain, s.head, slots)
    ensures var t := StoreUpTo(c, s, slots, k);
            && Indexed(c, chain, t, jumped)
            && t.head == (if k == 0 then s.head else slots[k - 1])
  {
    hide OnGrid;
    if k > 0 {
      StoringIndexes(c, chain, s, jumped, slots, k - 1);
      var t := StoreUpTo(c, s, slots, k - 1);
      assert slots[k - 1] in slots && (k > 1 ==> slots[k - 2] in slots);
      forall g: u64 | t.head < g < slots[k - 1]
        ensures !OnGrid(chain, c.threshold, g)
      {
        NothingBetween(c, chain, s.head, slots, k - 1, g);
      }
      OnGridInChain(chain, c.threshold);
      IndexOne(c, chain, t, jumped, slots[k - 1]);
    }
  }

  lemma IndexOne(c: HeadConfig, chain: seq<u64>, s: HeadState, jumped: set<u64>, p: u64)
    requires c.threshold > 0 && Indexed(c, chain, s, jumped) && c.start <= s.head
    requires s.head < p && p in chain
    requires forall g: u64 :: s.head < g < p ==> !OnGrid(chain, c.threshold, g)
    ensures Indexed(c, chain, s.(head := p, stored := s.stored[p := c.block(p)]), jumped)
  {
    hide OnGrid;
    forall t: u64 | s.head < t < p
      ensures HasLater(chain, t)
    {
      assert p in chain;
    }
  }

  lemma NothingBetween(c: HeadConfig, chain: seq<u64>, head: u64, slots: seq<u64>, k: nat, g: u64)
    requires c.threshold > 0 && k < |slots| && NextPicks(c, chain, head, slots)
    requires (if k == 0 then head else slots[k - 1]) < g < slots[k]
    ensures !OnGrid(chain, c.threshold, g)
  {
    hide OnGrid;
    assert slots[k] in slots && (k > 0 ==> slots[k - 1] in slots);
    forall i | 0 <= i < |slots|
      ensures slots[i] != g
    {
      assert i < k ==> slots[i] <= slots[k - 1];
      assert i > k ==> slots[k] < slots[i];
    }
  }

  /** Storing selected slots keeps the state sound, and moves only the head and the index. */
  lemma {:induction false} StoringIsSound(c: HeadConfig, chain: seq<u64>, s: HeadState, slots: seq<u64>, k: nat)
    requires ConfigOk(c) && k <= |slots|
    requires Sound(c, chain, s) && NextPicks(c, chain, s.head, slots)
    ensures var t := StoreUpTo(c, s, slots, k);
            && Sound(c, chain, t)
            && t.latest == s.latest && t.seen == s.seen
            && t.head == (if k == 0 then s.head else slots[k - 1])
            && s.head <= t.head
            && (k > 0 ==> slots[k - 1] in t.stored)
  {
    hide OnGrid, Sound;
    if k > 0 {
      StoringIsSound(c, chain, s, slots, k - 1);
      assert slots[k - 1] in slots;
      assert k > 1 ==> slots[k - 2] < slots[k - 1];
      SoundOne(c, chain, StoreUpTo(c, s, slots, k - 1), slots[k - 1]);
    }
  }

  lemma SoundOne(c: HeadConfig, chain: seq<u64>, s: HeadState, p: u64)
    requires c.threshold > 0 && Sound(c, chain, s) && s.head < p && OnGrid(chain, c.threshold, p)
    ensures Sound(c, chain, s.(head := p, stored := s.stored[p := c.block(p)]))
  {
    hide OnGrid;
  }

  // ---- steps ----

  /** A window that is not the one before. */
  lemma FetchKeepsInv(c: HeadConfig, w: HeadWorld, m: nat, k: nat, persist: bool, current: Option<u64>, w': HeadWorld)
    requires ConfigOk(c) && HeadInv(c, w) && HeadStep(c, w, Refresh(m, k, persist, current), w')
    requires w.state.seen != Fingerprint(w.state.head, |WindowAt(c, w, m)|)
    ensures HeadInv(c, w') && w.state.head <= w'.state.head
    ensures w'.state.head != w.state.head ==> w'.state.head in WindowAt(c, w, m)
    ensures w'.state.latest != w.state.latest ==>
              w'.state.latest.Some? && w.state.head < w'.state.latest.value.slot
  {
    hide OnGrid, Window, Picked, ToFetch, NextPicks, Increasing, Indexed;
    var s, window := w.state, WindowAt(c, w, m);
    var slots := ToFetch(c, s.head, window);
    FetchedAreNextPicks(c, w.chain, m, s.head);
    var seen := s.(seen := Fingerprint(s.head, |window|));
    StoringIsSound(c, w.chain, seen, slots, k);
    SameIndex(c, w.chain, s, seen, w.jumped);
    StoringIndexes(c, w.chain, seen, w.jumped, slots, k);
    SameIndex(c, w.chain, StoreUpTo(c, seen, slots, k), w'.state, w.jumped);
    NextPicksAbove(c, w.chain, s.head, slots);
  }

  lemma SameIndex(c: HeadConfig, chain: seq<u64>, s: HeadState, s': HeadState, jumped: set<u64>)
    requires c.threshold > 0 && Indexed(c, chain, s, jumped)
    requires s'.head == s.head && s'.stored == s.stored
    ensures Indexed(c, chain, s', jumped)
  {
    hide OnGrid;
  }

  lemma NextPicksAbove(c: HeadConfig, chain: seq<u64>, head: u64, slots: seq<u64>)
    requires c.threshold > 0 && NextPicks(c, chain, head, slots)
    ensures forall i :: 0 <= i < |slots| ==> slots[i] in slots && head < slots[i]
  {
    assert forall i :: 0 <= i < |slots| ==> slots[i] in slots;
  }

  /** The same window as before: nothing is stored, and what the head moves past was jumped. */
  lemma ForceKeepsInv(c: HeadConfig, w: HeadWorld, m: nat, k: nat, persist: bool, current: Option<u64>, w': HeadWorld)
    requires ConfigOk(c) && HeadInv(c, w) && HeadStep(c, w, Refresh(m, k, persist, current), w')
    requires w.state.seen == Fingerprint(w.state.head, |WindowAt(c, w, m)|)
    ensures HeadInv(c, w') && w.state.head <= w'.state.head && w'.state.latest == w.state.latest
    ensures w'.state.head != w.state.head ==>
              w'.state.head in WindowAt(c, w, m) || (current.Some? && w'.state.head <= current.value)
    ensures |WindowAt(c, w, m)| > 1 ==> w.state.head < w'.state.head
    ensures |WindowAt(c, w, m)| <= 1 && current.Some? && w.state.head + c.target - BACKOFF <= current.value
            ==> w.state.head < w'.state.head
  {
    hide OnGrid, Window, ToFetch, NextPicks, HasLater;
    var window := WindowAt(c, w, m);
    FetchedAreNextPicks(c, w.chain, m, w.state.head);
    assert |window| > 1 ==> window[0] in window && window[0] < window[|window| - 1] == Last(window) && Last(window) in window;
  }

  lemma ExtendKeepsInv(c: HeadConfig, w: HeadWorld, slots: seq<u64>)
    requires ConfigOk(c) && HeadInv(c, w) && Increasing(w.chain + slots)
    ensures HeadInv(c, w.(chain := w.chain + slots))
  {
    hide OnGrid, Increasing;
    var t := c.threshold;
    forall s: u64
      ensures OnGrid(w.chain, t, s) ==> OnGrid(w.chain + slots, t, s)
      ensures HasLater(w.chain, s) ==> HasLater(w.chain + slots, s)
      ensures HasLater(w.chain, s) && OnGrid(w.chain + slots, t, s) ==> OnGrid(w.chain, t, s)
    {
      GridGrows(w.chain, slots, t, s);
      if HasLater(w.chain, s) {
        var later :| later in w.chain && s < later;
        assert later in w.chain + slots;
      }
    }
    hide HasLater;
  }

  lemma HeadStepKeepsInv(c: HeadConfig, w: HeadWorld, a: HeadAction, w': HeadWorld)
    requires ConfigOk(c) && HeadInv(c, w) && HeadStep(c, w, a, w')
    ensures HeadInv(c, w')
  {
    hide HeadInv, Window, ToFetch, StoreUpTo, Indexed, Sound;
    match a
    case Extend(slots) => ExtendKeepsInv(c, w, slots);
    case Refresh(m, k, persist, current) =>
      if w.state.seen == Fingerprint(w.state.head, |WindowAt(c, w, m)|) {
        ForceKeepsInv(c, w, m, k, persist, current, w');
      } else {
        FetchKeepsInv(c, w, m, k, persist, current, w');
      }
    case Restart => RestartKeepsInv(c, w, w');
  }

  lemma RestartKeepsInv(c: HeadConfig, w: HeadWorld, w': HeadWorld)
    requires ConfigOk(c) && HeadInv(c, w) && HeadStep(c, w, Restart, w')
    ensures HeadInv(c, w')
    ensures w'.state.latest == w.state.latest && w'.state.stored == w.state.stored
  {
    hide OnGrid, Increasing;
  }

  lemma {:induction false} HeadRunsKeepInv(c: HeadConfig, ws: seq<HeadWorld>, actions: seq<HeadAction>)
    requires ConfigOk(c) && IsHeadRun(c, ws, actions)
    ensures HeadInv(c, Last(ws))
  {
    if actions != [] {
      HeadRunPrefix(c, ws, actions);
      HeadRunsKeepInv(c, ws[..|actions|], actions[..|actions| - 1]);
      hide HeadStep, HeadInv;
      HeadStepKeepsInv(c, ws[|actions| - 1], Last(actions), Last(ws));
    }
  }
}
