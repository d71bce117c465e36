/** One caller's retry loop as it runs, with the other callers moving at any time in between. Each of its
    steps is a move of the limiter's state machine, so what is proved of the machine's runs holds of it. */
module LimiterClient {
  import opened Sequences
  import opened LimiterProtocol

  /** Waiting ended with the caller's context, or was still going on when the observation ended. */
  datatype LimitError = Cancelled | StillWaiting

  // ---- what one caller sent ----

  /** When a caller's requests were sent. */
  function SentBy(log: seq<Entry>, i: nat): seq<nat> {
    if log == [] then []
    else
      SentBy(log[..|log| - 1], i)
      + (if Last(log).Sent? && Last(log).caller == i then [Last(log).at] else [])
  }

  lemma SentBySnoc(log: seq<Entry>, e: Entry, i: nat)
    ensures SentBy(log + [e], i) == SentBy(log, i) + if e.Sent? && e.caller == i then [e.at] else []
  {
    assert (log + [e])[..|log|] == log;
  }

  /** Every request but the last was answered with a 429, and the next one waited out its pause. */
  ghost predicate Spaced(answers: seq<Reply>, sent: seq<nat>)
    requires |sent| <= |answers|
  {
    forall k: nat :: 1 <= k < |sent| ==> WaitedOut(answers, sent, k)
  }

  ghost predicate WaitedOut(answers: seq<Reply>, sent: seq<nat>, k: nat)
    requires 1 <= k < |sent| <= |answers|
  {
    WaitsUntil(answers[k - 1], sent[k - 1], sent[k])
  }

  /** The pause the reply asks for, counted from when its request was sent, is over by then. */
  ghost predicate WaitsUntil(r: Reply, at: nat, until: nat) {
    exists t :: AsksToWait(r, t) && at + t <= until
  }

  lemma SpacedStart(answers: seq<Reply>)
    ensures Spaced(answers, [])
  {
  }

  lemma SpacedNext(answers: seq<Reply>, sent: seq<nat>, at: nat)
    requires |sent| < |answers| && Spaced(answers, sent)
    requires sent != [] ==> WaitsUntil(answers[|sent| - 1], Last(sent), at)
    ensures Spaced(answers, sent + [at])
  {
    hide WaitsUntil;
    forall k: nat | 1 <= k < |sent + [at]|
      ensures WaitedOut(answers, sent + [at], k)
    {
      if k < |sent| {
        assert WaitedOut(answers, sent, k);
      }
    }
  }

  // ---- what the others cannot disturb ----

  /** From s to t other callers moved and time passed: caller i is where it was, has sent nothing, and if it
      holds its method's lock, the method's cooldown is the same. */
  ghost predicate Undisturbed(s: System, t: System, i: nat) {
    && Shaped(s) && Shaped(t) && t.wants == s.wants && i < |s.wants|
    && t.phases[i] == s.phases[i] && s.now <= t.now
    && SentBy(t.log, i) == SentBy(s.log, i)
    && (HoldsMethod(s.phases[i]) ==> t.cooldown[s.wants[i]] == s.cooldown[s.wants[i]])
  }

  lemma OtherMove(s: System, j: nat, a: Move, i: nat)
    requires Inv(s) && j < |s.wants| && i < |s.wants| && i != j && CanMove(s, j, a)
    ensures Undisturbed(s, AfterMove(s, j, a), i)
  {
    hide Inv, SentBy;
    InvShaped(s);
    CooldownKept(s, j, a, i);
    if a == LockClient {
      SentBySnoc(s.log, Sent(j, s.wants[j], s.now), i);
    } else if a == Finish && s.phases[j].retryAfter.Some? {
      SentBySnoc(s.log, Cooled(s.wants[j], s.now + s.phases[j].retryAfter.value), i);
    }
  }

  /** Only the holder of a method's lock records its cooldown. */
  lemma CooldownKept(s: System, j: nat, a: Move, i: nat)
    requires Inv(s) && j < |s.wants| && i < |s.wants| && i != j && CanMove(s, j, a)
    ensures HoldsMethod(s.phases[i]) ==> AfterMove(s, j, a).cooldown[s.wants[i]] == s.cooldown[s.wants[i]]
  {
    hide LogOk, CooldownsOk;
    assert HoldsMethod(s.phases[i]) && HoldsMethod(s.phases[j]) ==> s.wants[i] != s.wants[j];
  }

  lemma UndisturbedTwice(s: System, t: System, u: System, i: nat)
    requires Undisturbed(s, t, i) && Undisturbed(t, u, i)
    ensures Undisturbed(s, u, i)
  {
  }

  class MutexRPCClient {
    var system: System
    ghost var cancellations: nat

    ghost predicate Valid()
      reads this
    {
      SystemReached(system) && Shaped(system)
    }

    /** A client whose callers want these methods, out of so many. */
    constructor (wants: seq<nat>, methods: nat, now: nat)
      requires forall i :: 0 <= i < |wants| ==> wants[i] < methods
      ensures Valid() && system.wants == wants
      ensures forall i :: 0 <= i < |wants| ==> system.phases[i] == Idle
    {
      system := System(wants, seq(|wants|, _ => Idle), seq(methods, _ => None), None, seq(methods, _ => 0), now, []);
      new;
      SystemReachStart(system);
    }

    /** The caller's own move. */
    method Take(i: nat, a: Move)
      requires Valid() && i < |system.wants| && CanMove(system, i, a)
      modifies this`system
      ensures Valid() && system == AfterMove(old(system), i, a)
    {
      hide SystemReached, AfterMove, CanMove, Inv;
      ghost var before := system;
      system := AfterMove(system, i, a);
      SystemReachStep(before, Event.Move(i, a), system);
      SystemReachedInv(system);
      InvShaped(system);
    }

    /** Other callers take any number of moves, and time passes, at least until `t`. */
    method Others(i: nat, t: nat)
      requires Valid() && i < |system.wants|
      modifies this`system
      ensures Valid() && Undisturbed(old(system), system, i) && system.now >= t
    {
      hide SystemReached, AfterMove, CanMove, Inv, Undisturbed;
      Same(system, i);
      var rounds :| 0 <= rounds;
      for k := 0 to rounds
        invariant Valid() && Undisturbed(old(system), system, i) && i < |system.wants|
      {
        ghost var before := system;
        SystemReachedInv(system);
        var j :| 0 <= j;
        var a: Move := *;
        if j < |system.wants| && j != i && CanMove(system, j, a) {
          Take(j, a);
          OtherMove(before, j, a, i);
        } else {
          Elapse(i, system.now);
        }
        UndisturbedTwice(old(system), before, system, i);
        StillThere(old(system), system, i);
      }
      ghost var before := system;
      Elapse(i, t);
      UndisturbedTwice(old(system), before, system, i);
    }

    method Elapse(i: nat, t: nat)
      requires Valid() && i < |system.wants|
      modifies this`system
      ensures Valid() && Undisturbed(old(system), system, i) && system.now >= t
    {
      hide SystemReached, Inv;
      assert system.now + t >= t && system.now + t >= system.now;
      var later: nat :| later >= system.now && later >= t;
      ghost var before := system;
      system := system.(now := later);
      SystemReachStep(before, Tick(later), system);
    }

    /** Takes the locks in order, sends the request until an answer is not a 429, and waits out every cooldown.
        The node's answers are given in order; when they run out, the call is still waiting. */
    method WithRPCLimits(i: nat, answers: seq<Reply>) returns (r: Result<Reply, LimitError>, ghost sent: seq<nat>)
      requires Valid() && i < |system.wants| && system.phases[i] == Idle
      modifies this
      ensures Valid() && system.wants == old(system.wants)
      ensures SentBy(system.log, i) == SentBy(old(system.log), i) + sent
      ensures |sent| <= |answers| && Spaced(answers, sent)
      ensures cancellations >= old(cancellations)
      ensures r.Ok? ==>
                && system.phases[i] == Idle
                && sent != [] && r.value == answers[|sent| - 1] && !Retried(r.value)
                && r.value != Failure(RpcError(429)) && r.value != Failure(HttpError(429))
                && forall t :: r.value != Failure(RateLimitError(t))
      ensures r.Err? ==> forall k :: 0 <= k < |sent| ==> Retried(answers[k])
      ensures r == Err(Cancelled) ==> system.phases[i] == Idle && cancellations > old(cancellations)
      ensures r == Err(StillWaiting) ==>
                || (system.phases[i] == Queued && system.methodLock[system.wants[i]].Some?)
                || (system.phases[i] == Ready && system.clientLock.Some?)
                || |sent| == |answers|
    {
      hide SystemReached, Spaced, WaitsUntil, AsksToWait, Retried, RateLimitRetryAfter, SentBy, Inv, HoldsMethod;
      sent := [];
      SpacedStart(answers);
      var locked := LockMethodMutex(i);
      if !locked {
        return Err(StillWaiting), sent;
      }
      for n := 0 to |answers|
        invariant Valid() && system.wants == old(system.wants) && system.phases[i] == Cooling
        invariant SentBy(system.log, i) == SentBy(old(system.log), i) + sent && |sent| == n
        invariant Spaced(answers, sent) && cancellations >= old(cancellations)
        invariant forall k :: 0 <= k < n ==> Retried(answers[k])
        invariant n > 0 ==> WaitsUntil(answers[n - 1], Last(sent), system.cooldown[system.wants[i]])
      {
        ghost var cooldown := system.cooldown[system.wants[i]];
        var ready := WaitUntilReady(i);
        if !ready {
          return Err(Cancelled), sent;
        }
        if system.clientLock.Some? {
          return Err(StillWaiting), sent;
        }
        ghost var at := system.now;
        if n > 0 {
          StillWaits(answers[n - 1], Last(sent), cooldown, at);
        }
        SpacedNext(answers, sent, at);
        RetriedExactly(answers[n]);
        Send(i, answers[n]);
        sent := sent + [at];
        if RateLimitRetryAfter(answers[n]).None? {
          return Ok(answers[n]), sent;
        }
      }
      return Err(StillWaiting), sent;
    }

    /** Waits for the method's lock; false when it was still taken when the observation ended. */
    method LockMethodMutex(i: nat) returns (locked: bool)
      requires Valid() && i < |system.wants| && system.phases[i] == Idle
      modifies this`system
      ensures Valid() && system.wants == old(system.wants) && SentBy(system.log, i) == SentBy(old(system.log), i)
      ensures locked ==> system.phases[i] == Cooling
      ensures !locked ==> system.phases[i] == Queued && system.methodLock[system.wants[i]].Some?
    {
      hide SystemReached, SentBy, Inv, HoldsMethod;
      Take(i, Call);
      Others(i, system.now);
      locked := system.methodLock[system.wants[i]].None?;
      if locked {
        Take(i, LockMethod);
      }
    }

    /** Waits out the method's cooldown, then for the quota, then lets others move once more; false when the
        caller's context ended first. */
    method WaitUntilReady(i: nat) returns (ready: bool)
      requires Valid() && i < |system.wants| && system.phases[i] == Cooling
      modifies this
      ensures Valid() && system.wants == old(system.wants) && SentBy(system.log, i) == SentBy(old(system.log), i)
      ensures cancellations >= old(cancellations) + if ready then 0 else 1
      ensures ready ==> system.phases[i] == Ready && system.now >= old(system.cooldown[system.wants[i]])
      ensures !ready ==> system.phases[i] == Idle
    {
      hide SystemReached, SentBy, Inv;
      Others(i, system.now);
      if system.cooldown[system.wants[i]] > system.now {
        var ends := ContextEnds();
        if ends {
          Take(i, GiveUp);
          return false;
        }
        Others(i, system.cooldown[system.wants[i]]);
      }
      Take(i, CooledDown);
      Others(i, system.now);
      var ends := ContextEnds();
      if ends {
        Take(i, GiveUp);
        return false;
      }
      Take(i, Granted);
      Others(i, system.now);
      return true;
    }

    /** Sends the request under the client's lock, and records the cooldown a 429 asks for. */
    method Send(i: nat, answer: Reply)
      requires Valid() && i < |system.wants| && system.phases[i] == Ready && system.clientLock == None
      modifies this`system
      ensures Valid() && system.wants == old(system.wants)
      ensures SentBy(system.log, i) == SentBy(old(system.log), i) + [old(system.now)]
      ensures Retried(answer) ==>
                && system.phases[i] == Cooling
                && WaitsUntil(answer, old(system.now), system.cooldown[system.wants[i]])
      ensures !Retried(answer) ==> system.phases[i] == Idle
    {
      hide SystemReached, SentBy, Inv, HoldsMethod, RateLimitRetryAfter, Retried, AsksToWait;
      RetriedExactly(answer);
      SentBySnoc(system.log, Sent(i, system.wants[i], system.now), i);
      Take(i, LockClient);
      Others(i, system.now);
      var retryAfter := RateLimitRetryAfter(answer);
      Take(i, Answer(retryAfter));
      Others(i, system.now);
      if retryAfter.Some? {
        SentBySnoc(system.log, Cooled(system.wants[i], system.now + retryAfter.value), i);
      }
      Take(i, Finish);
    }

    /** Whether the caller's context ends while it waits. */
    method ContextEnds() returns (ends: bool)
      modifies this`cancellations
      ensures cancellations == old(cancellations) + if ends then 1 else 0
    {
      ends := *;
      if ends {
        cancellations := cancellations + 1;
      }
    }
  }

  lemma StillWaits(r: Reply, at: nat, until: nat, later: nat)
    requires WaitsUntil(r, at, until) && until <= later
    ensures WaitsUntil(r, at, later)
  {
  }

  lemma InvShaped(s: System)
    requires Inv(s)
    ensures Shaped(s)
  {
  }

  lemma Same(s: System, i: nat)
    requires Shaped(s) && i < |s.wants|
    ensures Undisturbed(s, s, i)
  {
  }

  lemma StillThere(s: System, t: System, i: nat)
    requires Undisturbed(s, t, i)
    ensures i < |t.wants|
  {
  }

}
