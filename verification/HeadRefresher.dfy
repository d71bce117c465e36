/** The chain-head refresher as it runs, over the node's block list and the storage handler. Every method
    keeps it in a state the chain-head machine reaches. */
module HeadRefresher {
  import opened Sequences
  import opened Bytes
  import opened Records
  import opened Store
  import opened Node
  import opened ChainHead
  import opened ChainHeadIndex
  import opened ChainHeadSteps

  /** The slots with blocks as the cluster produces them, served by nodes that may lag behind. */
  class BlockNode {
    var slots: seq<u64>
    const block: u64 -> BlockPoint

    // how often it did not answer
    ghost var faults: nat

    constructor (block: u64 -> BlockPoint)
      ensures Increasing(slots) && this.block == block
    {
      this.slots, this.block := [], block;
    }

    method Advance()
      requires Increasing(slots)
      modifies this`slots
      ensures Increasing(slots) && old(slots) <= slots
    {
      var more: seq<u64> := *;
      if Increasing(slots + more) {
        slots := slots + more;
      }
    }

    /** The slots with blocks in a range, as far as the answering node has come. */
    method GetBlocks(start: nat, end: nat) returns (r: Result<seq<u64>, NodeError>, ghost m: nat)
      modifies this`faults
      ensures faults == old(faults) + if r.Err? then 1 else 0
      ensures m <= |slots|
      ensures r.Ok? ==> r.value == Window(slots[..m], start, end)
    {
      var known :| 0 <= known <= |slots|;
      m := known;
      r := Err(Unavailable);
      if * {
        r := Ok(Window(slots[..known], start, end));
      }
      faults := faults + if r.Err? then 1 else 0;
    }

    method GetBlock(slot: u64) returns (r: Result<BlockPoint, NodeError>)
      modifies this`faults
      ensures faults == old(faults) + if r.Err? then 1 else 0
      ensures r.Ok? ==> r.value == block(slot)
    {
      r := Err(Unavailable);
      if * {
        r := Ok(block(slot));
      }
      faults := faults + if r.Err? then 1 else 0;
    }

    method GetSlot() returns (r: Result<u64, NodeError>)
      modifies this`faults
      ensures faults == old(faults) + if r.Err? then 1 else 0
    {
      var slot: u64 := *;
      r := Err(Unavailable);
      if * {
        r := Ok(slot);
      }
      faults := faults + if r.Err? then 1 else 0;
    }
  }

  class ChainHeadRefresher {
    const storage: BoltStorageHandler
    const node: BlockNode
    const config: HeadConfig
    var chainHeadSlot: u64
    var latestGetBlocksState: Fingerprint
    ghost var world: HeadWorld

    ghost function State(): HeadState
      reads this, storage
    {
      HeadState(chainHeadSlot, latestGetBlocksState, storage.blockView, storage.latestBlock)
    }

    /** Everything that has failed so far: writes and calls to the node. */
    ghost function Faults(): nat
      reads storage, node
    {
      storage.failures + node.faults
    }

    ghost predicate Valid()
      reads this, storage, node
    {
      && storage.Valid() && ConfigOk(config) && node.block == config.block
      && world.chain == node.slots && world.state == State()
      && HeadReached(config, world)
    }

    constructor (storage: BoltStorageHandler, node: BlockNode, config: HeadConfig)
      requires storage.Valid() && storage.blockView == map[] && storage.latestBlock == None
      requires ConfigOk(config) && node.block == config.block && Increasing(node.slots)
      ensures Valid() && State() == Started(config.start, map[], None)
      ensures this.storage == storage && this.node == node && this.config == config
    {
      this.storage, this.node, this.config := storage, node, config;
      chainHeadSlot := config.start;
      latestGetBlocksState := Fingerprint(config.start, 0);
      ghost var first := HeadReachFirst(config, node.slots);
      world := first;
    }

    /** What a new process starts from: the start slot, or the recorded chain head if that is higher. */
    method Restart()
      requires Valid()
      modifies this
      ensures Valid() && State() == Started(config.start, storage.blockView, storage.latestBlock)
    {
      hide BoltStorageHandler.Valid, HeadReached;
      chainHeadSlot := config.start;
      latestGetBlocksState := Fingerprint(config.start, 0);
      if storage.latestBlock.Some? && storage.latestBlock.value.slot > chainHeadSlot {
        chainHeadSlot := storage.latestBlock.value.slot;
      }
      ghost var next := world.(state := State(), jumped := set t | t in world.jumped && t <= chainHeadSlot);
      HeadReachStep(config, world, ChainHead.Restart, next);
      world := next;
    }

    /** Gives up only after every try failed. */
    method GetBlockWithRetry(slot: u64) returns (r: Result<BlockPoint, NodeError>)
      modifies node`faults
      ensures node.faults >= old(node.faults) + if r.Err? then 10 else 0
      ensures r.Ok? ==> r.value == node.block(slot)
    {
      for count := 0 to RETRY_COUNT
        invariant node.faults == old(node.faults) + count
      {
        r := node.GetBlock(slot);
        if r.Ok? {
          return;
        }
      }
      r := Err(Unavailable);
    }

    /** Fetches and stores the selected blocks one after another, moving the head along. */
    method StoreSelected(slots: seq<u64>, ghost window: seq<u64>)
      returns (ok: bool, last: Option<BlockPoint>, ghost k: nat)
      requires storage.Valid() && ConfigOk(config) && node.block == config.block
      requires slots == Picked(window, config.threshold) && Increasing(slots)
      modifies this`chainHeadSlot, storage`blocks, storage`hashToNumber, storage`blockView
      modifies storage`failures, node`faults
      ensures storage.Valid() && Faults() >= old(Faults()) + if ok then 0 else 1
      ensures var fetch := ToFetch(config, old(chainHeadSlot), window);
              && k <= |fetch|
              && State() == StoreUpTo(config, old(State()), fetch, k)
              && (ok ==> k == |fetch| && last == if k == 0 then None else Some(config.block(fetch[k - 1])))
    {
      hide BoltStorageHandler.Valid, Picked, StoreUpTo, Increasing, ToFetch;
      ghost var s, fetch := State(), ToFetch(config, chainHeadSlot, window);
      ghost var skipped := SkippedHead(config, chainHeadSlot, window);
      StoreNext(config, s, fetch, 0);
      ok, last, k := false, None, 0;
      for i := 0 to |slots|
        invariant storage.Valid() && Faults() >= old(Faults())
        invariant k == (if i == 0 then 0 else i - skipped) && k <= |fetch|
        invariant State() == StoreUpTo(config, s, fetch, k)
        invariant last == if k == 0 then None else Some(config.block(fetch[k - 1]))
        invariant chainHeadSlot == if i == 0 then s.head else if k == 0 then s.head else slots[i - 1]
      {
        Ascending(slots, i);
        if slots[i] == chainHeadSlot {
          continue;
        }
        StoreNext(config, s, fetch, k);
        var block := GetBlockWithRetry(slots[i]);
        if block.Err? {
          return;
        }
        var fails := storage.WriteFails(0);
        if fails {
          return;
        }
        storage.StoreBlock(block.value);
        chainHeadSlot := slots[i];
        last := Some(block.value);
        k := k + 1;
      }
      ok := true;
    }

    /** All selected slots are fetched, or all but the first. */
    static lemma SkippedHead(c: HeadConfig, head: u64, window: seq<u64>) returns (skipped: nat)
      requires c.threshold > 0
      ensures var picks, fetch := Picked(window, c.threshold), ToFetch(c, head, window);
              && skipped == (if picks != [] && picks[0] == head then 1 else 0)
              && |picks| == |fetch| + skipped
              && forall k :: 0 <= k < |fetch| ==> fetch[k] == picks[k + skipped]
    {
      skipped := if Picked(window, c.threshold) != [] && Picked(window, c.threshold)[0] == head then 1 else 0;
    }

    static lemma Ascending(slots: seq<u64>, i: nat)
      requires Increasing(slots) && i < |slots|
      ensures i > 0 ==> slots[0] < slots[i] && slots[i - 1] < slots[i]
    {
    }

    static lemma StoreNext(c: HeadConfig, s: HeadState, slots: seq<u64>, k: nat)
      requires k <= |slots|
      ensures StoreUpTo(c, s, slots, 0) == s
      ensures k < |slots| ==>
                StoreUpTo(c, s, slots, k + 1)
                == var t := StoreUpTo(c, s, slots, k);
                   t.(head := slots[k], stored := t.stored[slots[k] := c.block(slots[k])])
    {
    }

    /** A window unlike the one before: its fingerprint is recorded first, then its selected blocks are
        fetched, and the last one becomes the recorded chain head if none failed. */
    method FetchSelected(slotsWithBlocks: seq<u64>) returns (ok: bool, ghost k: nat, ghost persist: bool)
      requires storage.Valid() && ConfigOk(config) && node.block == config.block
      requires WindowOk(config, chainHeadSlot, slotsWithBlocks)
      requires latestGetBlocksState != Fingerprint(chainHeadSlot, |slotsWithBlocks|)
      modifies this`chainHeadSlot, this`latestGetBlocksState
      modifies storage`blocks, storage`hashToNumber, storage`blockView, storage`latestBlock
      modifies storage`failures, node`faults
      ensures storage.Valid() && Faults() >= old(Faults()) + if ok then 0 else 1
      ensures k <= |ToFetch(config, old(chainHeadSlot), slotsWithBlocks)|
      ensures State() == Refreshed(config, old(State()), slotsWithBlocks, k, persist, None)
      ensures ok ==> k == |ToFetch(config, old(chainHeadSlot), slotsWithBlocks)| && (k > 0 ==> persist)
      ensures ok && chainHeadSlot != old(chainHeadSlot) ==> storage.latestBlock == Some(config.block(chainHeadSlot))
    {
      hide BoltStorageHandler.Valid, ToFetch, Picked, Increasing, StoreUpTo;
      ghost var s0 := State();
      ok, k, persist := true, 0, false;
      ghost var fetch := ToFetch(config, chainHeadSlot, slotsWithBlocks);
      latestGetBlocksState := Fingerprint(chainHeadSlot, |slotsWithBlocks|);
      ghost var s := State();
      StoreNone(config, s, fetch);
      if |slotsWithBlocks| == 0 {
        NothingToFetch(config, chainHeadSlot);
        return;
      }
      var slotsToQueryBlocks := GetSlotsToQueryBlocks(slotsWithBlocks, config.threshold);
      var last;
      ok, last, k := StoreSelected(slotsToQueryBlocks, slotsWithBlocks);
      if ok && last.Some? && last.value.slot > 0 {
        var fails := storage.WriteFails(0);
        if fails {
          return false, k, false;
        }
        storage.StoreLatestBlockPoint(last.value);
        persist := true;
      }
      WholeFetchRecords(config, s0, slotsWithBlocks, k, persist, None);
    }

    /** The same window as before: jumps to its last slot, or just short of the target unless that would
        pass the current slot. */
    method UnstickChainHead(slotsWithBlocks: seq<u64>) returns (ok: bool, ghost current: Option<u64>)
      requires ConfigOk(config) && latestGetBlocksState == Fingerprint(chainHeadSlot, |slotsWithBlocks|)
      modifies this`chainHeadSlot, this`latestGetBlocksState, node`faults
      ensures node.faults >= old(node.faults) + if ok then 0 else 1
      ensures State() == Refreshed(config, old(State()), slotsWithBlocks, 0, false, current)
      ensures ok ==> current.Some? || |slotsWithBlocks| > 1
    {
      current := None;
      var newChainHeadSlot: nat := chainHeadSlot + config.target - BACKOFF;
      if |slotsWithBlocks| > 1 {
        newChainHeadSlot := slotsWithBlocks[|slotsWithBlocks| - 1];
      } else {
        var currentSlot := node.GetSlot();
        if currentSlot.Err? {
          return false, current;
        }
        current := Some(currentSlot.value);
        if newChainHeadSlot > currentSlot.value {
          newChainHeadSlot := chainHeadSlot;
        }
      }
      chainHeadSlot := newChainHeadSlot;
      latestGetBlocksState := Fingerprint(newChainHeadSlot, 0);
      return true, current;
    }

    /** One refresh is one step of the machine, complete unless something failed meanwhile; it is none when
        the node does not answer at all. */
    method RefreshChainHead()
      returns (ok: bool, ghost m: nat, ghost k: nat, ghost persist: bool, ghost current: Option<u64>)
      requires Valid()
      modifies this, node, storage`blocks, storage`hashToNumber, storage`blockView, storage`latestBlock
      modifies storage`failures
      ensures Valid() && m <= |node.slots|
      ensures Faults() >= old(Faults()) + if ok then 0 else 1
      ensures var window := Window(node.slots[..m], old(chainHeadSlot), old(chainHeadSlot) + config.offset);
              || (!ok && State() == old(State()))
              || (k <= |ToFetch(config, old(chainHeadSlot), window)|
                  && State() == Refreshed(config, old(State()), window, k, persist, current)
                  && (ok ==> Complete(config, old(State()), window, k, persist, current)))
      ensures var window := Window(node.slots[..m], old(chainHeadSlot), old(chainHeadSlot) + config.offset);
              ok && chainHeadSlot != old(chainHeadSlot)
              && old(latestGetBlocksState) != Fingerprint(old(chainHeadSlot), |window|) ==>
                storage.latestBlock == Some(config.block(chainHeadSlot))
    {
      hide BoltStorageHandler.Valid, HeadReached, Window, ToFetch, Refreshed, Increasing, ConfigOk, WindowOk;
      ok, m, k, persist, current := false, 0, 0, false, None;
      ReachedIsIncreasing(config, world);
      node.Advance();
      Extended(config, world, node.slots);
      world := world.(chain := node.slots);
      var slotsWithBlocks;
      slotsWithBlocks, m := node.GetBlocks(chainHeadSlot, chainHeadSlot + config.offset);
      if slotsWithBlocks.Err? {
        return;
      }
      WindowIsOk(config, node.slots, m, chainHeadSlot);
      if Fingerprint(chainHeadSlot, |slotsWithBlocks.value|) == latestGetBlocksState {
        ok, current := UnstickChainHead(slotsWithBlocks.value);
      } else {
        ok, k, persist := FetchSelected(slotsWithBlocks.value);
      }
      Refreshes(config, world, m, k, persist, current);
      world := AfterRefresh(config, world, m, k, persist, current);
    }
  }

  /** Nothing was left undone: a known window was forced past, or every selected block of a new one was
      stored and the last one recorded as chain head. */
  ghost predicate Complete(c: HeadConfig, s: HeadState, window: seq<u64>, k: nat, persist: bool, current: Option<u64>)
    requires c.threshold > 0
  {
    if s.seen == Fingerprint(s.head, |window|) then |window| > 1 || current.Some?
    else k == |ToFetch(c, s.head, window)| && (k > 0 ==> persist)
  }

  /** When every slot to fetch was stored and the last write went through, the head, if it moved, is the
      recorded chain head. */
  lemma WholeFetchRecords(c: HeadConfig, s: HeadState, window: seq<u64>, k: nat, persist: bool, current: Option<u64>)
    requires c.threshold > 0 && c.target > BACKOFF && s.seen != Fingerprint(s.head, |window|)
    requires k <= |ToFetch(c, s.head, window)|
    ensures var t := Refreshed(c, s, window, k, persist, current);
            k == |ToFetch(c, s.head, window)| && (k > 0 ==> persist) && t.head != s.head ==>
              t.latest == Some(c.block(t.head))
  {
    hide ToFetch, StoreUpTo;
    StoredUpTo(c, s.(seen := Fingerprint(s.head, |window|)), ToFetch(c, s.head, window), k);
  }

  /** What a window is known to be like. */
  ghost predicate WindowOk(c: HeadConfig, head: u64, window: seq<u64>)
    requires c.threshold > 0
  {
    && Increasing(Picked(window, c.threshold))
    && forall i :: 0 <= i < |ToFetch(c, head, window)| ==> head < ToFetch(c, head, window)[i]
  }

  lemma WindowIsOk(c: HeadConfig, slots: seq<u64>, m: nat, head: u64)
    requires ConfigOk(c) && Increasing(slots) && m <= |slots|
    ensures WindowOk(c, head, Window(slots[..m], head, head + c.offset))
  {
    hide Window, ToFetch, OnGrid;
    var window := Window(slots[..m], head, head + c.offset);
    FetchedAreNextPicks(c, slots, m, head);
    NextPicksAbove(c, slots, head, ToFetch(c, head, window));
    PickedUpToFacts(window, c.threshold, |window|);
  }

  lemma NothingToFetch(c: HeadConfig, head: u64)
    requires c.threshold > 0
    ensures ToFetch(c, head, []) == []
  {
  }

  lemma StoreNone(c: HeadConfig, s: HeadState, slots: seq<u64>)
    ensures StoreUpTo(c, s, slots, 0) == s
  {
  }

  lemma ReachedIsIncreasing(c: HeadConfig, w: HeadWorld)
    requires ConfigOk(c) && HeadReached(c, w)
    ensures Increasing(w.chain)
  {
    var ws: seq<HeadWorld>, actions: seq<HeadAction> :| IsHeadRun(c, ws, actions) && Last(ws) == w;
    HeadRunsKeepInv(c, ws, actions);
  }

  lemma Extended(c: HeadConfig, w: HeadWorld, chain: seq<u64>)
    requires ConfigOk(c) && HeadReached(c, w) && w.chain <= chain && Increasing(chain)
    ensures HeadReached(c, w.(chain := chain))
  {
    assert chain == w.chain + chain[|w.chain|..];
    HeadReachStep(c, w, Extend(chain[|w.chain|..]), w.(chain := chain));
  }

  lemma Refreshes(c: HeadConfig, w: HeadWorld, m: nat, k: nat, persist: bool, current: Option<u64>)
    requires ConfigOk(c) && HeadReached(c, w)
    requires m <= |w.chain| && k <= |ToFetch(c, w.state.head, WindowAt(c, w, m))|
    ensures var w' := AfterRefresh(c, w, m, k, persist, current);
            && HeadReached(c, w') && w'.chain == w.chain
            && w'.state == Refreshed(c, w.state, WindowAt(c, w, m), k, persist, current)
  {
    hide Refreshed, ToFetch, Window;
    HeadReachStep(c, w, Refresh(m, k, persist, current), AfterRefresh(c, w, m, k, persist, current));
  }
}
