/** The chain-head refresher: which blocks a window selects, and how refreshes, failed fetches, forced
    advances and restarts move the chain head and fill the sparse block index. */
module ChainHead {
  import opened Sequences
  import opened Bytes
  import opened Records

  // ---- slot selection ----

  predicate Increasing(slots: seq<u64>) {
    forall i, j :: 0 <= i < j < |slots| ==> slots[i] < slots[j]
  }

  /** A slot is selected when it lies on a multiple of the threshold, or when the next slot with a block
      lies beyond the next multiple without being on one. */
  predicate IsPicked(slots: seq<u64>, threshold: u64, i: nat)
    requires threshold > 0 && i < |slots|
  {
    || slots[i] % threshold == 0
    || (i + 1 < |slots| && slots[i + 1] / threshold != slots[i] / threshold && slots[i + 1] % threshold != 0)
  }

  /** The selected ones of the first n slots, in order. */
  function PickedUpTo(slots: seq<u64>, threshold: u64, n: nat): seq<u64>
    requires threshold > 0 && n <= |slots|
  {
    if n == 0 then []
    else PickedUpTo(slots, threshold, n - 1) + (if IsPicked(slots, threshold, n - 1) then [slots[n - 1]] else [])
  }

  function Picked(slots: seq<u64>, threshold: u64): seq<u64>
    requires threshold > 0
  {
    PickedUpTo(slots, threshold, |slots|)
  }

  method GetSlotsToQueryBlocks(slotsWithBlocks: seq<u64>, threshold: u64) returns (result: seq<u64>)
    requires threshold > 0
    ensures result == Picked(slotsWithBlocks, threshold)
  {
    result := [];
    for i := 0 to |slotsWithBlocks|
      invariant result == PickedUpTo(slotsWithBlocks, threshold, i)
    {
      if slotsWithBlocks[i] % threshold == 0 {
        result := result + [slotsWithBlocks[i]];
      } else if i + 1 < |slotsWithBlocks|
        && slotsWithBlocks[i + 1] / threshold != slotsWithBlocks[i] / threshold
        && slotsWithBlocks[i + 1] % threshold != 0 {
        result := result + [slotsWithBlocks[i]];
      }
    }
  }

  /** `s` is a selected slot of the whole list. */
  ghost predicate OnGrid(slots: seq<u64>, threshold: u64, s: u64)
    requires threshold > 0
  {
    exists i :: 0 <= i < |slots| && slots[i] == s && IsPicked(slots, threshold, i)
  }

  lemma {:induction false} PickedUpToFacts(slots: seq<u64>, threshold: u64, n: nat)
    requires threshold > 0 && n <= |slots| && Increasing(slots)
    ensures var r := PickedUpTo(slots, threshold, n);
            && Increasing(r)
            && (forall s :: s in r <==> exists i :: 0 <= i < n && slots[i] == s && IsPicked(slots, threshold, i))
  {
    if n > 0 {
      PickedUpToFacts(slots, threshold, n - 1);
      var front := PickedUpTo(slots, threshold, n - 1);
      forall j | 0 <= j < |front|
        ensures front[j] < slots[n - 1]
      {
        assert front[j] in front;
      }
    }
  }

  /** What a window selects is selected in the whole chain too, and between the window's first slot and
      any slot it selects, it misses no selected slot of the chain: only its last slot can be undecided. */
  lemma WindowPicksFromChain(chain: seq<u64>, threshold: u64, from: nat, to: nat)
    requires threshold > 0 && Increasing(chain) && from <= to <= |chain|
    ensures var picks := Picked(chain[from..to], threshold);
            && Increasing(picks)
            && (forall p :: p in picks ==> OnGrid(chain, threshold, p) && p in chain[from..to])
            && (forall s: u64, p :: p in picks && chain[from] <= s <= p && OnGrid(chain, threshold, s) ==> s in picks)
  {
    var window := chain[from..to];
    var picks := Picked(window, threshold);
    PickedUpToFacts(window, threshold, |window|);
    hide Increasing;
    forall p | p in picks
      ensures OnGrid(chain, threshold, p) && p in window
    {
      var i :| 0 <= i < |window| && window[i] == p && IsPicked(window, threshold, i);
      assert chain[from + i] == p && IsPicked(chain, threshold, from + i);
    }
    hide IsPicked;
    forall s: u64, p | p in picks && chain[from] <= s <= p && OnGrid(chain, threshold, s)
      ensures s in picks
    {
      var i :| 0 <= i < |window| && window[i] == p;
      NotMissed(chain, threshold, from, to, s, i);
    }
  }

  lemma PositionOrder(slots: seq<u64>, i: nat, j: nat)
    requires Increasing(slots) && i < |slots| && j < |slots| && slots[i] <= slots[j]
    ensures i <= j
  {
  }

  /** A selected slot of the chain that lies before some slot of the window is selected by the window. */
  lemma NotMissed(chain: seq<u64>, threshold: u64, from: nat, to: nat, s: u64, i: nat)
    requires threshold > 0 && Increasing(chain) && from <= to <= |chain| && i < to - from
    requires chain[from] <= s <= chain[from + i] && OnGrid(chain, threshold, s)
    requires s == chain[from + i] ==> s in Picked(chain[from..to], threshold)
    ensures s in Picked(chain[from..to], threshold)
  {
    hide Increasing, IsPicked;
    var window := chain[from..to];
    SliceIncreasing(chain, from, to);
    PickedUpToFacts(window, threshold, |window|);
    var x :| 0 <= x < |chain| && chain[x] == s && IsPicked(chain, threshold, x);
    PositionOrder(chain, from, x);
    PositionOrder(chain, x, from + i);
    if x < from + i {
      PickedInSlice(chain, threshold, from, to, x);
      assert window[x - from] == s && IsPicked(window, threshold, x - from);
    }
  }

  lemma SliceIncreasing(slots: seq<u64>, from: nat, to: nat)
    requires Increasing(slots) && from <= to <= |slots|
    ensures Increasing(slots[from..to])
  {
  }

  /** Only the last slot of a slice can be selected in the whole list and not in the slice. */
  lemma PickedInSlice(slots: seq<u64>, threshold: u64, from: nat, to: nat, x: nat)
    requires threshold > 0 && from <= x && x + 1 < to <= |slots|
    ensures IsPicked(slots[from..to], threshold, x - from) <==> IsPicked(slots, threshold, x)
  {
  }

  /** Growth keeps selected slots selected, and decides nothing new below a slot that has a successor. */
  lemma GridGrows(chain: seq<u64>, more: seq<u64>, threshold: u64, s: u64)
    requires threshold > 0 && Increasing(chain + more)
    ensures OnGrid(chain, threshold, s) ==> OnGrid(chain + more, threshold, s)
    ensures forall t :: t in chain && s < t && OnGrid(chain + more, threshold, s) ==> OnGrid(chain, threshold, s)
  {
    var all := chain + more;
    if OnGrid(chain, threshold, s) {
      var i :| 0 <= i < |chain| && chain[i] == s && IsPicked(chain, threshold, i);
      assert all[i] == s && IsPicked(all, threshold, i);
    }
    forall t | t in chain && s < t && OnGrid(all, threshold, s)
      ensures OnGrid(chain, threshold, s)
    {
      var x :| 0 <= x < |all| && all[x] == s && IsPicked(all, threshold, x);
      var y :| 0 <= y < |chain| && chain[y] == t;
      assert all[y] == t && x < y;
      assert chain[x] == s && IsPicked(chain, threshold, x);
    }
  }

  // ---- windows ----

  function InWindow(from: nat, to: nat): u64 -> bool {
    (s: u64) => from <= s <= to
  }

  /** The slots with blocks the node returns for a range. */
  function Window(view: seq<u64>, from: nat, to: nat): seq<u64> {
    Filter(view, InWindow(from, to))
  }

  /** The first position whose slot is at least `from`. */
  function LowerBound(slots: seq<u64>, from: nat): (r: nat)
    ensures r <= |slots|
    ensures forall i :: 0 <= i < r ==> slots[i] < from
    ensures r < |slots| ==> from <= slots[r]
  {
    if slots == [] || from <= slots[0] then 0 else 1 + LowerBound(slots[1..], from)
  }

  lemma LowerBoundSplits(slots: seq<u64>, from: nat)
    requires Increasing(slots)
    ensures forall k :: 0 <= k < |slots| ==> (k < LowerBound(slots, from) <==> slots[k] < from)
  {
  }

  /** A window is one contiguous stretch. */
  lemma WindowIsStretch(view: seq<u64>, from: nat, to: nat)
    requires Increasing(view) && from <= to
    ensures LowerBound(view, from) <= LowerBound(view, to + 1)
    ensures Window(view, from, to) == view[LowerBound(view, from)..LowerBound(view, to + 1)]
  {
    hide Increasing, LowerBound;
    var i, j := LowerBound(view, from), LowerBound(view, to + 1);
    LowerBoundSplits(view, from);
    LowerBoundSplits(view, to + 1);
    FilterStretch(view, InWindow(from, to), i, j);
  }

  /** What a shorter view returns is the longer view's answer, cut at the shorter view's end. */
  lemma ShorterViewCuts(chain: seq<u64>, m: nat, from: nat, to: nat)
    requires Increasing(chain) && m <= |chain| && from <= to
    ensures var i := LowerBound(chain, from);
            var j := LowerBound(chain, to + 1);
            Window(chain[..m], from, to) == if m <= i then [] else if m <= j then chain[i..m] else chain[i..j]
  {
    hide Increasing, LowerBound;
    var i, j := LowerBound(chain, from), LowerBound(chain, to + 1);
    LowerBoundSplits(chain, from);
    LowerBoundSplits(chain, to + 1);
    WindowIsStretch(chain, from, to);
    FilterStretch(chain[..m], InWindow(from, to), if m <= i then m else i, if m <= j then m else j);
  }

  /** Two views of one append-only chain that return equally many slots from the same start return the
      same slots: the (start, count) fingerprint identifies the window. */
  lemma FingerprintIdentifiesWindow(chain: seq<u64>, m: nat, n: nat, from: nat, to: nat)
    requires Increasing(chain) && m <= |chain| && n <= |chain| && from <= to
    requires |Window(chain[..m], from, to)| == |Window(chain[..n], from, to)|
    ensures Window(chain[..m], from, to) == Window(chain[..n], from, to)
  {
    hide Window, LowerBound;
    WindowIsStretch(chain, from, to);
    ShorterViewCuts(chain, m, from, to);
    ShorterViewCuts(chain, n, from, to);
  }

  // ---- the refresher's state ----

  /** Parameters of one tracker; `block` answers what the node serves for a slot with a block. */
  datatype HeadConfig = HeadConfig(start: u64, offset: u64, target: u64, threshold: u64, block: u64 -> BlockPoint)

  /** How far short of the target a forced advance stops. */
  const BACKOFF: u64 := 3

  ghost predicate ConfigOk(c: HeadConfig) {
    && c.threshold > 0
    && BACKOFF < c.target <= c.offset
    && forall s :: c.block(s).slot == s
  }

  datatype Fingerprint = Fingerprint(slot: u64, count: nat)

  /** `head` and `seen` live in memory; `stored` and `latest` survive a restart. */
  datatype HeadState = HeadState(
    head: u64,
    seen: Fingerprint,
    stored: map<u64, BlockPoint>,
    latest: Option<BlockPoint>)

  function Started(start: u64, stored: map<u64, BlockPoint>, latest: Option<BlockPoint>): HeadState {
    var head := if latest.Some? && latest.value.slot > start then latest.value.slot else start;
    HeadState(head, Fingerprint(start, 0), stored, latest)
  }

  /** The slots to fetch: the window's selected ones but the current head. */
  function ToFetch(c: HeadConfig, head: u64, window: seq<u64>): seq<u64>
    requires c.threshold > 0
  {
    var picks := Picked(window, c.threshold);
    if picks != [] && picks[0] == head then picks[1..] else picks
  }

  /** The state after fetching and storing the first k of them, one after another. */
  function StoreUpTo(c: HeadConfig, s: HeadState, slots: seq<u64>, k: nat): HeadState
    requires k <= |slots|
  {
    if k == 0 then s
    else
      var t := StoreUpTo(c, s, slots, k - 1);
      t.(head := slots[k - 1], stored := t.stored[slots[k - 1] := c.block(slots[k - 1])])
  }

  /** Where a forced advance goes: the window's last slot if it has more than one, else a jump just short
      of the target unless that would pass the node's current slot. */
  function ForcedHead(c: HeadConfig, head: u64, window: seq<u64>, current: u64): u64
    requires c.target > BACKOFF
  {
    if |window| > 1 then Last(window)
    else if head + c.target - BACKOFF > current then head
    else head + c.target - BACKOFF
  }

  /** A refresh that got this window. It stores the first k of the slots to fetch and, when all were
      stored and `persist` holds, records the last one as the chain head. When the window looks like
      the one before, it forces an advance instead; without the node's current slot it gives up. */
  function Refreshed(c: HeadConfig, s: HeadState, window: seq<u64>, k: nat, persist: bool, current: Option<u64>)
    : HeadState
    requires c.threshold > 0 && c.target > BACKOFF
    requires k <= |ToFetch(c, s.head, window)|
  {
    if s.seen == Fingerprint(s.head, |window|) then
      if |window| <= 1 && current.None? then s
      else
        var head := ForcedHead(c, s.head, window, if current.Some? then current.value else 0);
        s.(head := head, seen := Fingerprint(head, 0))
    else
      var slots := ToFetch(c, s.head, window);
      var t := StoreUpTo(c, s.(seen := Fingerprint(s.head, |window|)), slots, k);
      if 0 < k == |slots| && persist then t.(latest := Some(c.block(slots[k - 1]))) else t
  }

  // ---- the machine ----

  /** The chain of slots with blocks, the refresher, and the slots that forced advances moved the head past
      without their being stored. */
  datatype HeadWorld = HeadWorld(chain: seq<u64>, state: HeadState, jumped: set<u64>)

  /** A refresh sees an arbitrary prefix of the chain: nodes may lag, by different amounts each time. */
  datatype HeadAction =
    | Extend(slots: seq<u64>)
    | Refresh(m: nat, k: nat, persist: bool, current: Option<u64>)
    | Restart

  ghost function WindowAt(c: HeadConfig, w: HeadWorld, m: nat): seq<u64>
    requires m <= |w.chain|
  {
    Window(w.chain[..m], w.state.head, w.state.head + c.offset)
  }

  ghost function AfterRefresh(c: HeadConfig, w: HeadWorld, m: nat, k: nat, persist: bool, current: Option<u64>)
    : HeadWorld
    requires ConfigOk(c) && m <= |w.chain| && k <= |ToFetch(c, w.state.head, WindowAt(c, w, m))|
  {
    var window := WindowAt(c, w, m);
    var forces := w.state.seen == Fingerprint(w.state.head, |window|);
    var state := Refreshed(c, w.state, window, k, persist, current);
    w.(state := state, jumped := if forces then w.jumped + Crossed(w.state, state.head) else w.jumped)
  }

  /** The slots a head moved straight to `head` leaves behind unstored. */
  ghost function Crossed(s: HeadState, head: u64): set<u64> {
    set t: u64 | s.head < t <= head && t !in s.stored
  }

  ghost predicate HeadInit(c: HeadConfig, w: HeadWorld) {
    Increasing(w.chain) && w == HeadWorld(w.chain, Started(c.start, map[], None), {})
  }

  ghost predicate HeadStep(c: HeadConfig, w: HeadWorld, a: HeadAction, w': HeadWorld)
    requires ConfigOk(c)
  {
    match a
    case Extend(slots) =>
      Increasing(w.chain + slots) && w' == w.(chain := w.chain + slots)
    case Refresh(m, k, persist, current) =>
      && m <= |w.chain|
      && k <= |ToFetch(c, w.state.head, WindowAt(c, w, m))|
      && w' == AfterRefresh(c, w, m, k, persist, current)
    case Restart =>
      && var state := Started(c.start, w.state.stored, w.state.latest);
      && w' == w.(state := state, jumped := set t | t in w.jumped && t <= state.head)
  }

  ghost predicate IsHeadRun(c: HeadConfig, ws: seq<HeadWorld>, actions: seq<HeadAction>)
    requires ConfigOk(c)
  {
    && |ws| == |actions| + 1
    && HeadInit(c, ws[0])
    && forall i :: 0 <= i < |actions| ==> HeadStep(c, ws[i], actions[i], ws[i + 1])
  }

  lemma HeadRunPrefix(c: HeadConfig, ws: seq<HeadWorld>, actions: seq<HeadAction>)
    requires ConfigOk(c) && IsHeadRun(c, ws, actions) && actions != []
    ensures IsHeadRun(c, ws[..|actions|], actions[..|actions| - 1])
    ensures HeadStep(c, ws[|actions| - 1], Last(actions), Last(ws))
  {
    var front := actions[..|actions| - 1];
    forall i | 0 <= i < |front|
      ensures HeadStep(c, ws[..|actions|][i], front[i], ws[..|actions|][i + 1])
    {
      assert HeadStep(c, ws[i], actions[i], ws[i + 1]);
    }
  }

  ghost predicate HeadReached(c: HeadConfig, w: HeadWorld)
    requires ConfigOk(c)
  {
    exists ws: seq<HeadWorld>, actions: seq<HeadAction> :: IsHeadRun(c, ws, actions) && Last(ws) == w
  }

  lemma HeadReachStep(c: HeadConfig, w: HeadWorld, a: HeadAction, w': HeadWorld)
    requires ConfigOk(c) && HeadReached(c, w) && HeadStep(c, w, a, w')
    ensures HeadReached(c, w')
  {
    var ws: seq<HeadWorld>, actions: seq<HeadAction> :| IsHeadRun(c, ws, actions) && Last(ws) == w;
    hide HeadStep;
    var ws', actions' := ws + [w'], actions + [a];
    forall i | 0 <= i < |actions'|
      ensures HeadStep(c, ws'[i], actions'[i], ws'[i + 1])
    {
      if i < |actions| {
        assert HeadStep(c, ws[i], actions[i], ws[i + 1]);
      }
    }
    assert IsHeadRun(c, ws', actions') && Last(ws') == w';
  }

  lemma HeadReachFirst(c: HeadConfig, chain: seq<u64>) returns (w: HeadWorld)
    requires ConfigOk(c) && Increasing(chain)
    ensures HeadReached(c, w) && w == HeadWorld(chain, Started(c.start, map[], None), {})
  {
    w := HeadWorld(chain, Started(c.start, map[], None), {});
    assert IsHeadRun(c, [w], []) && Last([w]) == w;
  }
}
