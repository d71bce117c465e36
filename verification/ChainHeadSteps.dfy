/** What one refresh and one restart do, step by step: which slots are stored, where the head goes, and when a
    block becomes the recorded chain head. */
module ChainHeadSteps {
  import opened Sequences
  import opened Bytes
  import opened Records
  import opened StoreEncoding
  import opened ChainHead
  import opened ChainHeadIndex
  import opened ChainHeadTheorems
  import opened ChainHeadForced

  /** A window is what the answering node knows of the range of `offset` slots from the head on. */
  lemma WindowIsRange(c: HeadConfig, w: HeadWorld, m: nat, s: u64)
    requires m <= |w.chain|
    ensures s in WindowAt(c, w, m) <==> s in w.chain[..m] && w.state.head <= s <= w.state.head + c.offset
  {
    WindowMember(w.chain[..m], w.state.head, w.state.head + c.offset, s);
  }

  /** The window selects this slot, and it is not the current head. */
  ghost predicate Due(c: HeadConfig, w: HeadWorld, m: nat, p: u64)
    requires c.threshold > 0 && m <= |w.chain|
  {
    p in Picked(WindowAt(c, w, m), c.threshold) && p != w.state.head
  }

  // ---- a forced refresh ----

  /** A forced refresh stores and records nothing. Over a window of several slots the head goes to the last of
      them; otherwise it jumps target - 3 slots, unless that is beyond the current slot or that is unknown. */
  lemma ForcedStep(c: HeadConfig, w: HeadWorld, a: HeadAction, w': HeadWorld)
    requires ConfigOk(c) && HeadInv(c, w) && Forces(c, w, a) && HeadStep(c, w, a, w')
    ensures w'.chain == w.chain && w'.state.stored == w.state.stored && w'.state.latest == w.state.latest
    ensures var window, head' := WindowAt(c, w, a.m), w'.state.head;
            && (|window| > 1 ==> head' in window && forall p :: p in window ==> p <= head')
            && (|window| <= 1 ==>
                  head' == if a.current.Some? && w.state.head + c.target - 3 <= a.current.value
                           then w.state.head + c.target - 3 else w.state.head)
            && (|window| > 1 || a.current.Some? ==> w'.state.seen == Fingerprint(head', 0))
  {
    hide ToFetch, Window, OnGrid, Indexed, Sound;
    FetchedAreNextPicks(c, w.chain, a.m, w.state.head);
  }

  // ---- a refresh that fetches ----

  /** After the first k of the slots. */
  lemma {:induction false} StoredUpTo(c: HeadConfig, s: HeadState, slots: seq<u64>, k: nat)
    requires k <= |slots|
    ensures var t := StoreUpTo(c, s, slots, k);
            && t.head == (if k == 0 then s.head else slots[k - 1]) && t.seen == s.seen && t.latest == s.latest
            && (forall p :: p in t.stored <==> p in s.stored || p in slots[..k])
            && (forall p :: p in t.stored ==>
                  t.stored[p] == if p in slots[..k] then c.block(p) else s.stored[p])
  {
    if k > 0 {
      StoredUpTo(c, s, slots, k - 1);
      assert slots[..k] == slots[..k - 1] + [slots[k - 1]];
    }
  }

  /** Of increasing slots, the first k are those up to the k-th. */
  lemma FirstSlots(slots: seq<u64>, k: nat, p: u64)
    requires Increasing(slots) && k <= |slots|
    ensures p in slots[..k] <==> p in slots && k > 0 && p <= slots[k - 1]
  {
    if p in slots {
      var j :| 0 <= j < |slots| && slots[j] == p;
      assert k > 0 && p <= slots[k - 1] ==> j < k;
      assert j < k ==> slots[..k][j] == p;
    }
  }

  /** A refresh that is not forced: it stores, of the due slots, the a.k lowest with their blocks and nothing
      else, moves the head to the last of them, and remembers the window. The head becomes the recorded chain
      head exactly when it moved, no due slot is left beyond it, and the write went through. */
  lemma FetchStep(c: HeadConfig, w: HeadWorld, a: HeadAction, w': HeadWorld)
    requires ConfigOk(c) && HeadInv(c, w) && a.Refresh? && !Forces(c, w, a) && HeadStep(c, w, a, w')
    ensures w'.chain == w.chain && w'.state.seen == Fingerprint(w.state.head, |WindowAt(c, w, a.m)|)
    ensures a.k == 0 <==> w'.state.head == w.state.head
    ensures a.k > 0 ==> Due(c, w, a.m, w'.state.head)
    ensures forall p: u64 :: p in w'.state.stored
                             <==> p in w.state.stored || (Due(c, w, a.m, p) && p <= w'.state.head)
    ensures forall p: u64 :: p in w'.state.stored ==>
                     w'.state.stored[p] == if Due(c, w, a.m, p) && p <= w'.state.head then c.block(p)
                                           else w.state.stored[p]
    ensures w'.state.latest
            == if w'.state.head != w.state.head && a.persist
                  && forall p: u64 :: Due(c, w, a.m, p) ==> p <= w'.state.head
               then Some(c.block(w'.state.head)) else w.state.latest
  {
    hide *;
    FetchesFirst(c, w, a, w');
    DueIsFetched(c, w, a.m);
    var slots := ToFetch(c, w.state.head, WindowAt(c, w, a.m));
    forall p: u64
      ensures p in slots[..a.k] <==> Due(c, w, a.m, p) && p <= w'.state.head
    {
      FirstSlots(slots, a.k, p);
      NotBelow(slots, w.state.head, p);
    }
    if a.k > 0 {
      NothingLeft(slots, a.k);
      assert slots[a.k - 1] in slots;
    }
  }

  lemma NotBelow(slots: seq<u64>, head: u64, p: u64)
    requires forall q :: q in slots ==> head < q
    ensures p in slots ==> !(p <= head)
  {
  }

  /** The same in terms of the slots to fetch. */
  lemma FetchesFirst(c: HeadConfig, w: HeadWorld, a: HeadAction, w': HeadWorld)
    requires ConfigOk(c) && a.Refresh? && !Forces(c, w, a) && HeadStep(c, w, a, w')
    ensures c.threshold > 0 && a.m <= |w.chain|
    ensures var slots := ToFetch(c, w.state.head, WindowAt(c, w, a.m));
            && a.k <= |slots|
            && w'.chain == w.chain && w'.state.seen == Fingerprint(w.state.head, |WindowAt(c, w, a.m)|)
            && w'.state.head == (if a.k == 0 then w.state.head else slots[a.k - 1])
            && (forall p :: p in w'.state.stored <==> p in w.state.stored || p in slots[..a.k])
            && (forall p :: p in w'.state.stored ==>
                  w'.state.stored[p] == if p in slots[..a.k] then c.block(p) else w.state.stored[p])
            && w'.state.latest == if 0 < a.k == |slots| && a.persist then Some(c.block(slots[a.k - 1]))
                                  else w.state.latest
  {
    hide Window, ToFetch, StoreUpTo;
    var slots := ToFetch(c, w.state.head, WindowAt(c, w, a.m));
    StoredUpTo(c, w.state.(seen := Fingerprint(w.state.head, |WindowAt(c, w, a.m)|)), slots, a.k);
  }

  lemma DueIsFetched(c: HeadConfig, w: HeadWorld, m: nat)
    requires ConfigOk(c) && HeadInv(c, w) && m <= |w.chain|
    ensures var slots := ToFetch(c, w.state.head, WindowAt(c, w, m));
            && Increasing(slots)
            && (forall p: u64 :: Due(c, w, m, p) <==> p in slots)
            && (forall p :: p in slots ==> w.state.head < p)
  {
    hide OnGrid, Indexed, Sound, Picked, Window;
    FetchedAreNextPicks(c, w.chain, m, w.state.head);
    hide NextPicks;
  }

  /** All of some increasing slots have been taken when none lies beyond the last one taken. */
  lemma NothingLeft(slots: seq<u64>, k: nat)
    requires Increasing(slots) && 0 < k <= |slots|
    ensures k == |slots| <==> forall p :: p in slots ==> p <= slots[k - 1]
  {
    if k < |slots| {
      assert slots[k] in slots && slots[k - 1] < slots[k];
    }
  }

  // ---- the recorded chain head over runs ----

  /** The step is a refresh that was not forced, moved the head, left no due slot beyond it, and whose last
      write went through. */
  ghost predicate RecordsHead(c: HeadConfig, w: HeadWorld, a: HeadAction, w': HeadWorld)
    requires c.threshold > 0
  {
    && a.Refresh? && a.m <= |w.chain| && !Forces(c, w, a) && a.persist
    && w'.state.head != w.state.head
    && forall p: u64 :: Due(c, w, a.m, p) ==> p <= w'.state.head
  }

  /** Exactly such a step makes its head's block the recorded chain head; every other step leaves the recorded
      chain head alone. */
  lemma HeadRecordedExactly(c: HeadConfig, ws: seq<HeadWorld>, actions: seq<HeadAction>, i: nat)
    requires ConfigOk(c) && IsHeadRun(c, ws, actions) && i < |actions|
    ensures ws[i + 1].state.latest
            == if RecordsHead(c, ws[i], actions[i], ws[i + 1]) then Some(c.block(ws[i + 1].state.head))
               else ws[i].state.latest
  {
    HeadInvAt(c, ws, actions, i);
    hide IsHeadRun, HeadInv, Due;
    StepRecords(c, ws[i], actions[i], ws[i + 1]);
  }

  lemma StepRecords(c: HeadConfig, w: HeadWorld, a: HeadAction, w': HeadWorld)
    requires ConfigOk(c) && HeadInv(c, w) && HeadStep(c, w, a, w')
    ensures w'.state.latest
            == if RecordsHead(c, w, a, w') then Some(c.block(w'.state.head)) else w.state.latest
  {
    hide HeadInv, AfterRefresh, Due, Window;
    if a.Refresh? {
      if Forces(c, w, a) {
        ForcedStep(c, w, a, w');
      } else {
        FetchStep(c, w, a, w');
      }
    }
  }

  ghost predicate RecordsAt(c: HeadConfig, ws: seq<HeadWorld>, actions: seq<HeadAction>, i: nat)
    requires c.threshold > 0 && |ws| == |actions| + 1 && i < |actions|
  {
    RecordsHead(c, ws[i], actions[i], ws[i + 1])
  }

  /** Step i recorded a chain head, and none after it did. */
  ghost predicate LastRecording(c: HeadConfig, ws: seq<HeadWorld>, actions: seq<HeadAction>, i: nat)
    requires c.threshold > 0 && |ws| == |actions| + 1 && i < |actions|
  {
    RecordsAt(c, ws, actions, i) && forall j: nat :: i < j < |actions| ==> !RecordsAt(c, ws, actions, j)
  }

  /** So over a run the recorded chain head is the block at which the last such refresh ended, and there is none
      if and only if there was no such refresh: restarts and forced advances change nothing about it. */
  lemma {:induction false} LatestIsLastRecorded(c: HeadConfig, ws: seq<HeadWorld>, actions: seq<HeadAction>)
    requires ConfigOk(c) && IsHeadRun(c, ws, actions)
    ensures |ws| == |actions| + 1
    ensures match Last(ws).state.latest
            case None => forall i: nat :: i < |actions| ==> !RecordsAt(c, ws, actions, i)
            case Some(bp) => exists i: nat ::
              i < |actions| && LastRecording(c, ws, actions, i) && bp == c.block(ws[i + 1].state.head)
  {
    hide HeadStep, RecordsHead;
    if actions != [] {
      var n, before, front := |actions| - 1, ws[..|actions|], actions[..|actions| - 1];
      HeadRunPrefix(c, ws, actions);
      LatestIsLastRecorded(c, before, front);
      HeadRecordedExactly(c, ws, actions, n);
      hide IsHeadRun;
      forall i: nat | i < n
        ensures RecordsAt(c, ws, actions, i) == RecordsAt(c, before, front, i)
      {
      }
      assert Last(ws) == ws[n + 1] && Last(before) == ws[n];
      if RecordsAt(c, ws, actions, n) {
        assert LastRecording(c, ws, actions, n);
      } else if Last(before).state.latest.Some? {
        var i: nat :| i < n && LastRecording(c, before, front, i)
                      && Last(before).state.latest.value == c.block(before[i + 1].state.head);
        StillLast(c, ws, actions, i);
      }
    }
  }

  lemma StillLast(c: HeadConfig, ws: seq<HeadWorld>, actions: seq<HeadAction>, i: nat)
    requires c.threshold > 0 && |ws| == |actions| + 1 && i + 1 < |actions|
    requires LastRecording(c, ws[..|actions|], actions[..|actions| - 1], i)
    requires !RecordsAt(c, ws, actions, |actions| - 1)
    ensures LastRecording(c, ws, actions, i)
  {
    hide RecordsHead;
    forall j: nat | i <= j < |actions| - 1
      ensures RecordsAt(c, ws, actions, j) == RecordsAt(c, ws[..|actions|], actions[..|actions| - 1], j)
    {
    }
  }

  /** After a refresh that recorded its head, a lookup of that slot answers the block's hash. */
  lemma RecordedHeadAnswers(c: HeadConfig, ws: seq<HeadWorld>, actions: seq<HeadAction>, i: nat)
    requires ConfigOk(c) && IsHeadRun(c, ws, actions) && i < |actions|
    requires RecordsHead(c, ws[i], actions[i], ws[i + 1])
    ensures var state := ws[i + 1].state; HashAt(state, state.head) == Ok(c.block(state.head).hash)
  {
    HeadRecordedExactly(c, ws, actions, i);
    HeadInvAt(c, ws, actions, i + 1);
    hide IsHeadRun, RecordsHead, Indexed, Increasing;
    var state := ws[i + 1].state;
    LookupFinds(state.stored, state.head, state.head);
  }

  /** A restart goes on from the later of the start slot and the recorded chain head, with everything stored. */
  lemma RestartResumes(c: HeadConfig, w: HeadWorld, w': HeadWorld)
    requires ConfigOk(c) && HeadStep(c, w, Restart, w')
    ensures w'.chain == w.chain && w'.state.stored == w.state.stored && w'.state.latest == w.state.latest
    ensures c.start <= w'.state.head && (w.state.latest.Some? ==> w.state.latest.value.slot <= w'.state.head)
    ensures w'.state.head == c.start || (w.state.latest.Some? && w'.state.head == w.state.latest.value.slot)
    ensures w'.state.seen == Fingerprint(c.start, 0)
  {
  }
}
