/** The limiter's two-lock protocol as a state machine: concurrent callers queue per method behind cooldowns
    and quotas, and one request at a time is in flight per client. */
module LimiterProtocol {
  import opened Sequences

  // ---- which errors mean "slow down" ----

  datatype CallError =
    | RateLimitError(retryAfter: nat)
    | RpcError(code: int)
    | HttpError(code: int)
    | OtherError

  /** 429, "Too Many Requests": section 4 of RFC 6585. */
  const TOO_MANY_REQUESTS := 429

  /** Ten seconds, in nanoseconds. */
  const DEFAULT_RETRY_AFTER: nat := 10_000_000_000

  datatype Reply = Success(value: int) | Failure(error: CallError)

  function RateLimitRetryAfter(r: Reply): Option<nat> {
    match r
    case Success(_) => None
    case Failure(RateLimitError(after)) => Some(after)
    case Failure(RpcError(code)) => if code == TOO_MANY_REQUESTS then Some(DEFAULT_RETRY_AFTER) else None
    case Failure(HttpError(code)) => if code == TOO_MANY_REQUESTS then Some(DEFAULT_RETRY_AFTER) else None
    case Failure(OtherError) => None
  }

  /** The reply asks for a pause of this length: its own, or ten seconds for a bare 429. */
  ghost predicate AsksToWait(r: Reply, t: nat) {
    || r == Failure(RateLimitError(t))
    || (t == 10_000_000_000 && (r == Failure(RpcError(429)) || r == Failure(HttpError(429))))
  }

  ghost predicate Retried(r: Reply) {
    exists t :: AsksToWait(r, t)
  }

  /** A reply is retried if and only if it is one of the three failures, after the pause it asks for. */
  lemma RetriedExactly(r: Reply)
    ensures RateLimitRetryAfter(r).Some? <==> Retried(r)
    ensures forall t: nat :: RateLimitRetryAfter(r) == Some(t) <==> AsksToWait(r, t)
    ensures Retried(r) <==> r.Failure? && (r.error.RateLimitError? || r.error in {RpcError(429), HttpError(429)})
  {
    var after := RateLimitRetryAfter(r);
    assert after.Some? ==> AsksToWait(r, after.value);
    if r.Failure? && r.error.RateLimitError? {
      assert AsksToWait(r, r.error.retryAfter);
    } else if r.Failure? && r.error in {RpcError(429), HttpError(429)} {
      assert AsksToWait(r, 10_000_000_000);
    }
  }

  // ---- all callers ----

  /** Where a caller is. It holds its method's lock from Cooling to Replied, and the client's lock while
      its request is in flight. */
  datatype Phase = Idle | Queued | Cooling | Throttled | Ready | InFlight | Replied(retryAfter: Option<nat>)

  /** What happened: a request of a method was sent, or its cooldown was recorded. */
  datatype Entry = Sent(caller: nat, rpcMethod: nat, at: nat) | Cooled(rpcMethod: nat, until: nat)

  /** Caller i always calls method `wants[i]`. */
  datatype System = System(
    wants: seq<nat>,
    phases: seq<Phase>,
    methodLock: seq<Option<nat>>,
    clientLock: Option<nat>,
    cooldown: seq<nat>,
    now: nat,
    log: seq<Entry>)

  predicate Shaped(s: System) {
    && |s.phases| == |s.wants| && |s.methodLock| == |s.cooldown|
    && forall i :: 0 <= i < |s.wants| ==> s.wants[i] < |s.methodLock|
  }

  datatype Move = Call | LockMethod | CooledDown | GiveUp | Granted | LockClient | Answer(retryAfter: Option<nat>) | Finish

  predicate CanMove(s: System, i: nat, a: Move)
    requires Shaped(s) && i < |s.wants|
  {
    match a
    case Call => s.phases[i] == Idle
    case LockMethod => s.phases[i] == Queued && s.methodLock[s.wants[i]] == None
    case CooledDown => s.phases[i] == Cooling && s.cooldown[s.wants[i]] <= s.now
    case GiveUp => s.phases[i] == Cooling || s.phases[i] == Throttled
    case Granted => s.phases[i] == Throttled
    case LockClient => s.phases[i] == Ready && s.clientLock == None
    case Answer(_) => s.phases[i] == InFlight
    case Finish => s.phases[i].Replied?
  }

  function AfterMove(s: System, i: nat, a: Move): System
    requires Shaped(s) && i < |s.wants| && CanMove(s, i, a)
  {
    var m := s.wants[i];
    match a
    case Call => s.(phases := s.phases[i := Queued])
    case LockMethod => s.(phases := s.phases[i := Cooling], methodLock := s.methodLock[m := Some(i)])
    case CooledDown => s.(phases := s.phases[i := Throttled])
    case GiveUp => s.(phases := s.phases[i := Idle], methodLock := s.methodLock[m := None])
    case Granted => s.(phases := s.phases[i := Ready])
    case LockClient =>
      s.(phases := s.phases[i := InFlight], clientLock := Some(i), log := s.log + [Sent(i, m, s.now)])
    case Answer(retryAfter) => s.(phases := s.phases[i := Replied(retryAfter)], clientLock := None)
    case Finish =>
      match s.phases[i].retryAfter
      case None => s.(phases := s.phases[i := Idle], methodLock := s.methodLock[m := None])
      case Some(after) =>
        s.(phases := s.phases[i := Cooling], cooldown := s.cooldown[m := s.now + after],
           log := s.log + [Cooled(m, s.now + after)])
  }

  /** The caller's next move, with everything it changes. */
  ghost predicate Moves(s: System, i: nat, a: Move, s': System)
    requires Shaped(s) && i < |s.wants|
  {
    CanMove(s, i, a) && s' == AfterMove(s, i, a)
  }

  datatype Event = Move(caller: nat, move: Move) | Tick(now: nat)

  ghost predicate Next(s: System, e: Event, s': System) {
    && Shaped(s)
    && match e
       case Move(i, a) => i < |s.wants| && Moves(s, i, a, s')
       case Tick(now) => s.now <= now && s' == s.(now := now)
  }

  ghost predicate Start(s: System) {
    && Shaped(s) && s.clientLock == None && s.log == []
    && (forall i :: 0 <= i < |s.phases| ==> s.phases[i] == Idle)
    && (forall m :: 0 <= m < |s.methodLock| ==> s.methodLock[m] == None)
    && (forall m :: 0 <= m < |s.cooldown| ==> s.cooldown[m] <= s.now)
  }

  ghost predicate Run(states: seq<System>, events: seq<Event>) {
    && |states| == |events| + 1
    && Start(states[0])
    && forall i :: 0 <= i < |events| ==> Next(states[i], events[i], states[i + 1])
  }

  // ---- the invariant ----

  predicate HoldsMethod(p: Phase) {
    p != Idle && p != Queued
  }

  /** Locks name exactly the callers whose phase says they hold them. */
  ghost predicate LocksOk(s: System)
    requires Shaped(s)
  {
    MethodLocksOk(s) && ClientLockOk(s)
  }

  /** From being throttled until the request is answered, the method's cooldown is over. */
  predicate PastCooldown(p: Phase) {
    p == Throttled || p == Ready || p == InFlight || p.Replied?
  }

  /** A recorded cooldown and a request of the same method. */
  predicate Concern(c: Entry, r: Entry) {
    c.Cooled? && r.Sent? && c.rpcMethod == r.rpcMethod
  }

  ghost predicate CooldownsOk(s: System)
    requires Shaped(s)
  {
    forall i :: 0 <= i < |s.phases| && PastCooldown(s.phases[i]) ==> s.cooldown[s.wants[i]] <= s.now
  }

  ghost predicate LogOk(s: System) {
    && (forall k :: 0 <= k < |s.log| && s.log[k].Cooled? ==>
          s.log[k].rpcMethod < |s.cooldown| && s.log[k].until <= s.cooldown[s.log[k].rpcMethod])
    && (forall j, k :: 0 <= j < k < |s.log| && Concern(s.log[j], s.log[k]) ==> s.log[j].until <= s.log[k].at)
  }

  ghost predicate Inv(s: System) {
    Shaped(s) && LocksOk(s) && CooldownsOk(s) && LogOk(s)
  }

  lemma MoveKeepsLocks(s: System, i: nat, a: Move, s': System)
    requires Inv(s) && i < |s.wants| && Moves(s, i, a, s')
    ensures Shaped(s') && LocksOk(s')
  {
    hide CooldownsOk, LogOk;
    MoveKeepsMethodLocks(s, i, a, s');
    MoveKeepsClientLock(s, i, a, s');
  }

  ghost predicate MethodLocksOk(s: System)
    requires Shaped(s)
  {
    && (forall i :: 0 <= i < |s.phases| ==> (HoldsMethod(s.phases[i]) <==> s.methodLock[s.wants[i]] == Some(i)))
    && (forall m :: 0 <= m < |s.methodLock| && s.methodLock[m].Some? ==>
          s.methodLock[m].value < |s.wants| && s.wants[s.methodLock[m].value] == m)
  }

  ghost predicate ClientLockOk(s: System)
    requires Shaped(s)
  {
    && (forall i :: 0 <= i < |s.phases| ==> (s.phases[i] == InFlight <==> s.clientLock == Some(i)))
    && (s.clientLock.Some? ==> s.clientLock.value < |s.phases|)
  }

  lemma MoveKeepsMethodLocks(s: System, i: nat, a: Move, s': System)
    requires Shaped(s) && MethodLocksOk(s) && i < |s.wants| && Moves(s, i, a, s')
    ensures Shaped(s') && MethodLocksOk(s')
  {
  }

  lemma MoveKeepsClientLock(s: System, i: nat, a: Move, s': System)
    requires Shaped(s) && ClientLockOk(s) && i < |s.wants| && Moves(s, i, a, s') && Shaped(s')
    ensures ClientLockOk(s')
  {
  }

  lemma MoveKeepsCooldowns(s: System, i: nat, a: Move, s': System)
    requires Inv(s) && i < |s.wants| && Moves(s, i, a, s') && Shaped(s')
    ensures CooldownsOk(s')
  {
    hide LogOk;
  }

  lemma MoveKeepsLog(s: System, i: nat, a: Move, s': System)
    requires Inv(s) && i < |s.wants| && Moves(s, i, a, s')
    ensures LogOk(s')
  {
    hide LocksOk;
  }

  lemma {:induction false} RunsKeepInv(states: seq<System>, events: seq<Event>)
    requires Run(states, events)
    ensures Inv(Last(states))
  {
    if events != [] {
      ShorterRun(states, events);
      RunsKeepInv(states[..|events|], events[..|events| - 1]);
      hide Next, Inv, Run;
      NextKeepsInv(states[|events| - 1], Last(events), Last(states));
    }
  }

  lemma ShorterRun(states: seq<System>, events: seq<Event>)
    requires Run(states, events) && events != []
    ensures Run(states[..|events|], events[..|events| - 1])
    ensures Next(states[|events| - 1], Last(events), Last(states))
  {
    hide Next, Start;
    var front := events[..|events| - 1];
    assert states[..|events|][0] == states[0];
    forall i | 0 <= i < |front|
      ensures Next(states[..|events|][i], front[i], states[..|events|][i + 1])
    {
      assert Next(states[i], events[i], states[i + 1]);
    }
  }

  lemma NextKeepsInv(s: System, e: Event, s': System)
    requires Inv(s) && Next(s, e, s')
    ensures Inv(s')
  {
    match e
    case Move(i, a) =>
      MoveKeepsLocks(s, i, a, s');
      MoveKeepsCooldowns(s, i, a, s');
      MoveKeepsLog(s, i, a, s');
    case Tick(now) =>
  }

  // ---- what it says about every run ----

  /** At most one request is in flight, and the client's lock is held only while one is: never while its
      holder waits for a cooldown, a quota or another lock. */
  lemma OneRequestInFlight(states: seq<System>, events: seq<Event>, i: nat, j: nat)
    requires Run(states, events) && i < |Last(states).phases| && j < |Last(states).phases|
    ensures Shaped(Last(states))
    ensures var s := Last(states);
            && (s.phases[i] == InFlight && s.phases[j] == InFlight ==> i == j)
            && (s.clientLock == Some(i) <==> s.phases[i] == InFlight)
            && (s.phases[i] == InFlight ==> s.methodLock[s.wants[i]] == Some(i))
  {
    RunsKeepInv(states, events);
  }

  /** After a cooldown was recorded for a method, no request of that method is sent before it ends. */
  lemma NoRequestDuringCooldown(states: seq<System>, events: seq<Event>, j: nat, k: nat)
    requires Run(states, events)
    requires j < k < |Last(states).log|
    requires Concern(Last(states).log[j], Last(states).log[k])
    ensures Last(states).log[j].until <= Last(states).log[k].at
  {
    RunsKeepInv(states, events);
  }

  /** Caller i has been told to pause for t and has not recorded it yet, or its method's cooldown lasts until
      then. */
  ghost predicate PauseHolds(s: System, wants: seq<nat>, i: nat, t: nat, until: nat) {
    && Shaped(s) && s.wants == wants && i < |wants|
    && ((s.phases[i] == Replied(Some(t)) && until <= s.now + t) || until <= s.cooldown[wants[i]])
  }

  lemma NextKeepsPause(s: System, e: Event, s': System, wants: seq<nat>, i: nat, t: nat, until: nat)
    requires Inv(s) && Next(s, e, s') && PauseHolds(s, wants, i, t, until)
    ensures PauseHolds(s', wants, i, t, until)
  {
    hide LocksOk, LogOk;
  }

  lemma {:induction false} PauseLasts(states: seq<System>, events: seq<Event>, j: nat, i: nat, t: nat)
    requires Run(states, events) && j < |events| && events[j] == Event.Move(i, Answer(Some(t)))
    ensures PauseHolds(Last(states), states[0].wants, i, t, states[j].now + t)
  {
    hide Next, Start, Inv, PauseHolds;
    ShorterRun(states, events);
    var front := events[..|events| - 1];
    RunsKeepInv(states[..|events|], front);
    SameWants(states[..|events|], front);
    if j < |front| {
      PauseLasts(states[..|events|], front, j, i, t);
      NextKeepsPause(states[|events| - 1], Last(events), Last(states), states[0].wants, i, t, states[j].now + t);
    } else {
      AnswerPauses(states[j], Last(states), i, t);
    }
  }

  lemma AnswerPauses(s: System, s': System, i: nat, t: nat)
    requires Next(s, Event.Move(i, Answer(Some(t))), s')
    ensures PauseHolds(s', s.wants, i, t, s.now + t)
  {
  }

  lemma NextKeepsWants(s: System, e: Event, s': System)
    requires Next(s, e, s')
    ensures s'.wants == s.wants && Shaped(s')
  {
  }

  lemma {:induction false} SameWants(states: seq<System>, events: seq<Event>)
    requires Run(states, events)
    ensures Last(states).wants == states[0].wants
  {
    if events != [] {
      ShorterRun(states, events);
      SameWants(states[..|events|], events[..|events| - 1]);
      hide Run, Next;
      NextKeepsWants(states[|events| - 1], Last(events), Last(states));
    }
  }

  lemma RunUpTo(states: seq<System>, events: seq<Event>, k: nat)
    requires Run(states, events) && k < |events|
    ensures Run(states[..k + 1], events[..k]) && Next(states[k], events[k], states[k + 1])
  {
    hide Next, Start;
    assert states[..k + 1][0] == states[0];
    forall i | 0 <= i < k
      ensures Next(states[..k + 1][i], events[..k][i], states[..k + 1][i + 1])
    {
      assert Next(states[i], events[i], states[i + 1]);
    }
  }

  /** When a request is answered with a pause of t, no caller sends a request of that method before t has passed
      since the answer, whoever asks. */
  lemma NoRequestBeforePauseEnds(states: seq<System>, events: seq<Event>, j: nat, k: nat, i: nat, i': nat, t: nat)
    requires Run(states, events) && j < k < |events|
    requires events[j] == Event.Move(i, Answer(Some(t))) && events[k] == Event.Move(i', LockClient)
    requires i < |states[0].wants| && i' < |states[0].wants| && states[0].wants[i] == states[0].wants[i']
    ensures states[j].now + t <= states[k].now
  {
    RunUpTo(states, events, k);
    PauseLasts(states[..k + 1], events[..k], j, i, t);
    RunsKeepInv(states[..k + 1], events[..k]);
    hide Run, LogOk;
  }

  /** A move by which a call gets further. */
  predicate Proceeds(a: Move) {
    a != Call && a != GiveUp
  }

  /** Some caller can proceed, right now or once enough time has passed. */
  ghost predicate CanProceed(s: System) {
    Shaped(s) && exists i: nat, a: Move, t: nat, s': System ::
      i < |s.wants| && Proceeds(a) && s.now <= t && Moves(s.(now := t), i, a, s')
  }

  /** Who is where in the protocol decides who can proceed. */
  lemma HolderProceeds(s: System, i: nat)
    requires Inv(s) && i < |s.wants| && HoldsMethod(s.phases[i])
    requires s.phases[i] == Ready ==> s.clientLock == None
    ensures CanProceed(s)
  {
    var t := if s.now < s.cooldown[s.wants[i]] then s.cooldown[s.wants[i]] else s.now;
    var w := s.(now := t);
    match s.phases[i]
    case Cooling => assert Moves(w, i, CooledDown, AfterMove(w, i, CooledDown));
    case Throttled => assert Moves(w, i, Granted, AfterMove(w, i, Granted));
    case Ready => assert Moves(w, i, LockClient, AfterMove(w, i, LockClient));
    case InFlight => assert Moves(w, i, Answer(None), AfterMove(w, i, Answer(None)));
    case Replied(_) => assert Moves(w, i, Finish, AfterMove(w, i, Finish));
  }

  /** No reachable state is deadlocked: as long as some call is unfinished, some caller can proceed. */
  lemma NoDeadlock(states: seq<System>, events: seq<Event>, i: nat)
    requires Run(states, events)
    requires i < |Last(states).phases| && Last(states).phases[i] != Idle
    ensures CanProceed(Last(states))
  {
    RunsKeepInv(states, events);
    var s := Last(states);
    hide Run, CanProceed;
    if s.clientLock.Some? {
      HolderProceeds(s, s.clientLock.value);
    } else if HoldsMethod(s.phases[i]) {
      HolderProceeds(s, i);
    } else {
      WaiterProceeds(s, i);
    }
  }

  /** A queued caller can take a free method lock; a taken one is held by a caller that can proceed. */
  lemma WaiterProceeds(s: System, i: nat)
    requires Inv(s) && i < |s.wants| && s.phases[i] == Queued && s.clientLock == None
    ensures CanProceed(s)
  {
    var m := s.wants[i];
    if s.methodLock[m].Some? {
      HolderProceeds(s, s.methodLock[m].value);
    } else {
      var w := s.(now := s.now);
      assert Moves(w, i, LockMethod, AfterMove(w, i, LockMethod));
    }
  }

  // ---- reached states ----

  ghost predicate SystemReached(s: System) {
    exists states: seq<System>, events: seq<Event> :: Run(states, events) && Last(states) == s
  }

  lemma SystemReachStep(s: System, e: Event, s': System)
    requires SystemReached(s) && Next(s, e, s')
    ensures SystemReached(s')
  {
    var states: seq<System>, events: seq<Event> :| Run(states, events) && Last(states) == s;
    hide Next, Start;
    var states', events' := states + [s'], events + [e];
    forall i | 0 <= i < |events'|
      ensures Next(states'[i], events'[i], states'[i + 1])
    {
      if i < |events| {
        assert Next(states[i], events[i], states[i + 1]);
      }
    }
    assert Run(states', events') && Last(states') == s';
  }

  lemma SystemReachStart(s: System)
    requires Start(s)
    ensures SystemReached(s)
  {
    assert Run([s], []) && Last([s]) == s;
  }

  lemma SystemReachedInv(s: System)
    requires SystemReached(s)
    ensures Inv(s)
  {
    var states: seq<System>, events: seq<Event> :| Run(states, events) && Last(states) == s;
    RunsKeepInv(states, events);
  }
}
