/** The tracker's transaction polling as a state machine: the chain grows, the poller reads a block
    height, queries or processes, the node hides history or refuses the cursor, and the process may
    crash after any single effect. */
module PollMachine {
  import opened Sequences
  import opened Bytes
  import opened Records
  import opened Events
  import opened Chain
  import opened Polling

  datatype Config = Config(decoding: Decoding, start: u64)

  /** The finalized block height a poll has read, and how long the chain was then. */
  datatype HeightReport = HeightReport(height: u64, length: nat)

  /** The environment, the durable state, and what happened so far:
      - skip: position of the newest transaction the start-slot filter skipped, once it did;
      - unlisted: positions the cursor was moved past although the answer left them out;
      - overlooked: the same, and positions below the recorded number that the answer of a poll that
        found nothing new left out;
      - torn: some query was cut between its two writes;
      - skipTorn: some query that skipped everything it found was;
      - partial: some answer was not the full history after the cursor;
      - faulted: some processing attempt was cut after it had begun. */
  datatype World = World(
    chain: seq<Tx>,
    height: u64,
    now: Snapshot,
    report: Option<HeightReport>,
    skip: Option<nat>,
    unlisted: set<nat>,
    overlooked: set<nat>,
    torn: bool,
    skipTorn: bool,
    partial: bool,
    faulted: bool)

  datatype Action =
    | Grow(txs: seq<Tx>, newHeight: u64)
    | ReadHeight
    | Query(m: nat, hidden: set<Signature>, refused: bool, c: nat)
    | Process(effects: nat)
    | Crash

  ghost predicate Init(w: World) {
    w == World(w.chain, w.height, EMPTY, None, None, {}, {}, false, false, false, false)
    && HistoryOk(w.chain, w.height)
  }

  // ---- the actions ----

  ghost predicate CanGrow(w: World, txs: seq<Tx>, newHeight: u64) {
    Extends(w.chain, w.height, txs, newHeight)
  }

  ghost function ListedAt(w: World, m: nat, hidden: set<Signature>, refused: bool): seq<TxPoint>
    requires m <= |w.chain|
  {
    Listed(Visible(Points(w.chain)[..m], hidden), w.now.queried, refused)
  }

  ghost function CursorOf(w: World): int {
    Cursor(Points(w.chain), w.now.queried)
  }

  /** Everything after the cursor, in a history of length m. */
  ghost function FullHistory(w: World, m: nat): seq<TxPoint>
    requires m <= |w.chain|
  {
    if CursorOf(w) + 1 <= m then Points(w.chain)[CursorOf(w) + 1..m] else []
  }

  /** The poll's listing dates from after its height reading, so it covers at least the chain of that
      moment. A cursor can only be refused when there is one, and is known when it is not refused. */
  ghost predicate CanQuery(w: World, m: nat, hidden: set<Signature>, refused: bool, c: nat) {
    && w.report.Some?
    && !MustProcess(w.now)
    && w.report.value.length <= m <= |w.chain|
    && (refused ==> w.now.queried.sig != ZERO_SIGNATURE)
    && (!refused && w.now.queried.sig != ZERO_SIGNATURE ==> w.now.queried.sig !in hidden)
    && c <= QueryLength(w.now, ListedAt(w, m, hidden, refused))
  }

  ghost function AfterQuery(cfg: Config, w: World, m: nat, hidden: set<Signature>, refused: bool, c: nat): World
    requires CanQuery(w, m, hidden, refused, c)
  {
    if c == 0 then w.(report := None)
    else
      var listed := ListedAt(w, m, hidden, refused);
      var news := NewsOf(w.now, listed);
      var skips := news != [] && BatchOf(w.now, cfg.start, listed) == [];
      var now := QueryAt(w.now, cfg.start, listed, w.report.value.height, c);
      w.(now := now,
         report := None,
         skip := if skips && c == 2 then Some(IndexOf(Points(w.chain), Last(news).sig)) else w.skip,
         unlisted := w.unlisted + MovedPast(w, Cursor(Points(w.chain), now.queried), listed),
         overlooked := w.overlooked
           + (if news == [] then PassedBelow(w, m, listed, w.report.value.height)
              else MovedPast(w, Cursor(Points(w.chain), now.queried), listed)),
         torn := w.torn || c < QueryLength(w.now, listed),
         skipTorn := w.skipTorn || (skips && c == 1),
         partial := w.partial || listed != FullHistory(w, m))
  }

  /** Positions after the cursor that the answer leaves out. */
  ghost function PassedOver(w: World, m: nat, listed: seq<TxPoint>): set<nat>
    requires m <= |w.chain|
  {
    set i: nat | i < m && CursorOf(w) < i && Points(w.chain)[i] !in listed
  }

  /** Those of them in blocks below a height. */
  ghost function PassedBelow(w: World, m: nat, listed: seq<TxPoint>, height: u64): set<nat>
    requires m <= |w.chain|
  {
    set i | i in PassedOver(w, m, listed) && w.chain[i].block < height
  }

  /** Positions that a cursor moved to position `to` leaves behind and the answer leaves out. */
  ghost function MovedPast(w: World, to: int, listed: seq<TxPoint>): set<nat> {
    set i: nat | i < |w.chain| && CursorOf(w) < i < to && Points(w.chain)[i] !in listed
  }

  ghost function HeadPosition(w: World): nat
    requires w.now.queue != []
  {
    IndexOf(Points(w.chain), w.now.queue[0].sig)
  }

  ghost predicate CanProcess(cfg: Config, w: World, c: nat) {
    && w.report == None
    && MustProcess(w.now)
    && w.now.queue != []
    && HeadPosition(w) < |w.chain|
    && c <= ProcessLength(w.now, HeadTx(w).block, OutcomeOf(cfg.decoding, HeadTx(w).content))
  }

  ghost function HeadTx(w: World): Tx
    requires w.now.queue != [] && HeadPosition(w) < |w.chain|
  {
    w.chain[HeadPosition(w)]
  }

  ghost function AfterProcess(cfg: Config, w: World, c: nat): World
    requires CanProcess(cfg, w, c)
  {
    var block := HeadTx(w).block;
    var outcome := OutcomeOf(cfg.decoding, HeadTx(w).content);
    w.(now := ProcessAt(w.now, block, outcome, c),
       faulted := w.faulted || 0 < c < ProcessLength(w.now, block, outcome))
  }

  ghost predicate Step(cfg: Config, w: World, a: Action, w': World) {
    match a
    case Grow(txs, newHeight) =>
      CanGrow(w, txs, newHeight) && w' == w.(chain := w.chain + txs, height := newHeight)
    case ReadHeight =>
      w.report == None && !MustProcess(w.now)
      && w' == w.(report := Some(HeightReport(w.height, |w.chain|)))
    case Query(m, hidden, refused, c) =>
      CanQuery(w, m, hidden, refused, c) && w' == AfterQuery(cfg, w, m, hidden, refused, c)
    case Process(c) =>
      CanProcess(cfg, w, c) && w' == AfterProcess(cfg, w, c)
    case Crash =>
      w' == w.(report := None)
  }

  // ---- runs ----

  ghost predicate IsRun(cfg: Config, ws: seq<World>, actions: seq<Action>) {
    && |ws| == |actions| + 1
    && Init(ws[0])
    && forall i :: 0 <= i < |actions| ==> Step(cfg, ws[i], actions[i], ws[i + 1])
  }

  lemma RunPrefix(cfg: Config, ws: seq<World>, actions: seq<Action>)
    requires IsRun(cfg, ws, actions) && actions != []
    ensures IsRun(cfg, ws[..|actions|], actions[..|actions| - 1])
    ensures Step(cfg, ws[|actions| - 1], Last(actions), Last(ws))
  {
    var front := actions[..|actions| - 1];
    forall i | 0 <= i < |front|
      ensures Step(cfg, ws[..|actions|][i], front[i], ws[..|actions|][i + 1])
    {
      assert Step(cfg, ws[i], actions[i], ws[i + 1]);
    }
  }

  lemma RunNotEmpty(cfg: Config, ws: seq<World>, actions: seq<Action>)
    requires IsRun(cfg, ws, actions)
    ensures ws != []
  {
  }

  ghost predicate Reached(cfg: Config, w: World) {
    exists ws: seq<World>, actions: seq<Action> :: IsRun(cfg, ws, actions) && Last(ws) == w
  }

  lemma ReachStep(cfg: Config, w: World, a: Action, w': World)
    requires Reached(cfg, w) && Step(cfg, w, a, w')
    ensures Reached(cfg, w')
  {
    hide Step, Init;
    var ws: seq<World>, actions: seq<Action> :| IsRun(cfg, ws, actions) && Last(ws) == w;
    var ws', actions' := ws + [w'], actions + [a];
    forall i | 0 <= i < |actions'|
      ensures Step(cfg, ws'[i], actions'[i], ws'[i + 1])
    {
      if i < |actions| {
        assert Step(cfg, ws[i], actions[i], ws[i + 1]);
      }
    }
    assert IsRun(cfg, ws', actions') && Last(ws') == w';
  }

  /** A fresh tracker, with a first piece of chain. */
  lemma ReachFirst(cfg: Config, chain: seq<Tx>, height: u64) returns (w: World)
    requires ChainOk(chain) && forall i :: 0 <= i < |chain| ==> chain[i].block <= height
    ensures Reached(cfg, w)
    ensures w == World(chain, height, EMPTY, None, None, {}, {}, false, false, false, false)
  {
    w := World(chain, height, EMPTY, None, None, {}, {}, false, false, false, false);
    assert IsRun(cfg, [w], []) && Last([w]) == w;
  }

  // ---- vocabulary of the invariants ----

  /** The finalized transactions followed by the queue. */
  function Done(w: World): seq<TxPoint> {
    w.now.finalized + w.now.queue
  }

  /** Where the handled run of the chain begins. */
  function Base(cfg: Config, w: World): nat {
    match w.skip
    case None => FirstFrom(Points(w.chain), cfg.start)
    case Some(k) => k + 1
  }

  ghost function OutcomeAt(cfg: Config, w: World, i: nat): Outcome
    requires i < |w.chain|
  {
    OutcomeOf(cfg.decoding, w.chain[i].content)
  }

  /** The accepted events of the transaction at position i. */
  ghost function EventsAt(cfg: Config, w: World, i: nat): seq<Event>
    requires i < |w.chain|
  {
    match OutcomeAt(cfg, w, i)
    case Emits(bodies) => TxEvents(w.chain[i].point, w.chain[i].block, bodies)
    case _ => []
  }

  /** The accepted events of positions from..to, in chain order. */
  ghost function EventsBetween(cfg: Config, w: World, from: nat, to: nat): seq<Event>
    requires from <= to <= |w.chain|
  {
    if from == to then [] else EventsBetween(cfg, w, from, to - 1) + EventsAt(cfg, w, to - 1)
  }
}
