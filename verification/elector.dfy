/** The lock service's life cycle: acquire a distributed lock, renew it on a
    fixed-rate refresh task, and on renewal failure cancel the task, release
    the lock, report the loss and try again. Each runnable the service hands
    to its executor (an acquisition-loop pass, a refresh tick) and each
    life-cycle call (start, stop) is one atomic step from a state to a new
    state plus the trace of external calls it made, in order. */
module Elector {
  import opened Wrappers
  import Properties
  import Callbacks
  import Labels

  /** The handle `obtain` returns for a lock name. */
  datatype LockHandle = LockHandle(name: string)

  /** The refresh task's `ScheduledFuture`: initial delay and period in
      whole seconds, and whether it has been cancelled. */
  datatype RefreshFuture = RefreshFuture(delay: int, period: int, cancelled: bool)

  /** The service's three mutable fields. */
  datatype State = State(running: bool, lock: Option<LockHandle>, refresh: Option<RefreshFuture>)

  /** The external calls the service makes. */
  datatype Event =
    | Obtain(name: string)                      // lockRegistry.obtain
    | TryLock(wait: Properties.Duration, lease: Properties.Duration)
    | OnLockAcquired                            // callbacks.onLockAcquired
    | ScheduleRefresh(delay: int, period: int)  // scheduler.scheduleAtFixedRate(refreshLock, ...)
    | Renew(name: string, ttl: Properties.Duration)  // lockRegistry.renewLock
    | Cancel                                    // refreshFuture.cancel(true)
    | Unlock                                    // lock.unlock
    | OnLockLost                                // callbacks.onLockLost
    | SubmitLoop                                // scheduler.submit(lockLoop)

  type Trace = seq<Event>

  datatype Step = Step(state: State, trace: Trace)

  /** How the body of one acquisition-loop pass ends. */
  datatype Attempt =
    | ObtainThrows                 // `obtain` threw
    | TryLockThrows                // `tryLock` threw, but not InterruptedException
    | Interrupted                  // `tryLock` threw InterruptedException
    | NotAcquired                  // `tryLock` returned false
    | Acquired(callbackThrows: bool)  // `tryLock` returned true; did `onLockAcquired` throw?

  /** Whether the `while (running)` loop goes round again or has returned. */
  datatype Control = Again | Exit

  datatype Pass = Pass(state: State, trace: Trace, control: Control)

  /** The fields as constructed: not running, no lock, no refresh task. */
  const Initial: State := State(false, None, None)

  /** The number of occurrences of `e` in `t`. */
  function Count(t: Trace, e: Event): nat
    decreases |t|
  {
    if |t| == 0 then 0 else (if t[0] == e then 1 else 0) + Count(t[1..], e)
  }

  lemma {:induction false} CountConcat(a: Trace, b: Trace, e: Event)
    ensures Count(a + b, e) == Count(a, e) + Count(b, e)
    decreases |a|
  {
    if |a| == 0 {
      assert a + b == b;
    } else {
      assert (a + b)[1..] == a[1..] + b;
      CountConcat(a[1..], b, e);
    }
  }

  lemma CountSingle(x: Event, e: Event)
    ensures Count([x], e) == if x == e then 1 else 0
  {
  }

  /** Every `a` in `t` comes before every `b` in `t`. */
  predicate Precedes(t: Trace, a: Event, b: Event) {
    forall i, j :: 0 <= i < |t| && 0 <= j < |t| && t[i] == a && t[j] == b ==> i < j
  }

  /** Whether the refresh field holds a task that has not been cancelled. */
  predicate LiveRefresh(s: State) {
    s.refresh.Some? && !s.refresh.value.cancelled
  }

  /** `cancelRefreshTask`: cancel only a present, not yet cancelled task, then
      clear the field. */
  function CancelRefreshTask(s: State): (r: Step)
    ensures r.state == s.(refresh := None)
    ensures Count(r.trace, Cancel) == (if LiveRefresh(s) then 1 else 0) && |r.trace| == Count(r.trace, Cancel)
  {
    Step(s.(refresh := None), if LiveRefresh(s) then [Cancel] else [])
  }

  /** Cancelling twice is cancelling once: the second call makes no call and
      changes nothing. */
  lemma CancelIdempotent(s: State)
    ensures CancelRefreshTask(CancelRefreshTask(s).state) == Step(CancelRefreshTask(s).state, [])
  {
  }

  /** `releaseLockIfHeld`: unlock whenever a handle was ever obtained. Unlock
      errors are swallowed and the field is never cleared. */
  function ReleaseLockIfHeld(s: State): (r: Step)
    ensures r.state == s
    ensures Count(r.trace, Unlock) == (if s.lock.Some? then 1 else 0) && |r.trace| == Count(r.trace, Unlock)
  {
    Step(s, if s.lock.Some? then [Unlock] else [])
  }

  /** `isRunning`: the flag, as the last life-cycle call left it (see
      `RunningFollowsLifecycle`). */
  function IsRunning(s: State): (r: bool)
    ensures r <==> s.running
  {
    s.running
  }

  /** `start`: set the flag and submit one acquisition loop. Nothing guards a
      second call, which submits a second loop. */
  function Start(s: State): (r: Step)
    ensures IsRunning(r.state) && r.state.lock == s.lock && r.state.refresh == s.refresh
    ensures r.trace == [SubmitLoop]
  {
    Step(s.(running := true), [SubmitLoop])
  }

  /** `stop` (executor shutdown aside): clear the flag, cancel the refresh
      task, release the lock if one was ever obtained; never report a loss. */
  function Stop(s: State): (r: Step)
    ensures !IsRunning(r.state) && r.state.refresh.None? && r.state.lock == s.lock
    ensures Count(r.trace, Cancel) == (if LiveRefresh(s) then 1 else 0)
    ensures Count(r.trace, Unlock) == (if s.lock.Some? then 1 else 0)
    ensures |r.trace| == Count(r.trace, Cancel) + Count(r.trace, Unlock)
    ensures Count(r.trace, OnLockLost) == 0
    ensures Precedes(r.trace, Cancel, Unlock)
  {
    var cancel := CancelRefreshTask(s.(running := false));
    var release := ReleaseLockIfHeld(cancel.state);
    CountConcat(cancel.trace, release.trace, Cancel);
    CountConcat(cancel.trace, release.trace, Unlock);
    CountConcat(cancel.trace, release.trace, OnLockLost);
    Step(release.state, cancel.trace + release.trace)
  }

  /** `@PreDestroy onDestroy`: the same as `stop`. */
  function OnDestroy(s: State): (r: Step)
    ensures !IsRunning(r.state) && r.state.refresh.None? && r.state.lock == s.lock
    ensures Count(r.trace, Cancel) == (if LiveRefresh(s) then 1 else 0)
    ensures Count(r.trace, Unlock) == (if s.lock.Some? then 1 else 0)
    ensures |r.trace| == Count(r.trace, Cancel) + Count(r.trace, Unlock)
    ensures Count(r.trace, OnLockLost) == 0
    ensures Precedes(r.trace, Cancel, Unlock)
  {
    Stop(s)
  }

  /** The delay and period the refresh task is scheduled with: the renew
      deadline's `getSeconds()`, its fractional part dropped. */
  function Period(c: Properties.Config): int {
    c.renewDeadline.seconds
  }

  /** `scheduleAtFixedRate` rejects a period that is not positive with an
      `IllegalArgumentException`; any initial delay is accepted. */
  predicate PeriodAccepted(c: Properties.Config) {
    Period(c) > 0
  }

  /** `scheduleRefreshTask`: cancel any old task first, then schedule one whose
      initial delay and period are both the renew deadline's whole seconds.
      When the scheduler rejects the period the call throws after the cancel,
      and the field stays cleared. */
  function ScheduleRefreshTask(s: State, c: Properties.Config): (r: Step)
    ensures r.trace == CancelRefreshTask(s).trace + [ScheduleRefresh(c.renewDeadline.seconds, c.renewDeadline.seconds)]
    ensures c.renewDeadline.seconds > 0 ==>
              r.state == s.(refresh := Some(RefreshFuture(c.renewDeadline.seconds, c.renewDeadline.seconds, false)))
    ensures c.renewDeadline.seconds <= 0 ==> r.state == s.(refresh := None)
  {
    var cancel := CancelRefreshTask(s);
    var p := Period(c);
    Step(cancel.state.(refresh := if PeriodAccepted(c) then Some(RefreshFuture(p, p, false)) else None),
         cancel.trace + [ScheduleRefresh(p, p)])
  }

  /** `handleLockLost`: cancel the refresh task, release the lock, report the
      loss, and submit a new acquisition loop if still running. */
  function HandleLockLost(s: State): (r: Step)
    ensures r.state == s.(refresh := None)
    ensures Count(r.trace, Cancel) == (if LiveRefresh(s) then 1 else 0)
    ensures Count(r.trace, Unlock) == (if s.lock.Some? then 1 else 0)
    ensures Count(r.trace, OnLockLost) == 1
    ensures Count(r.trace, SubmitLoop) == (if s.running then 1 else 0)
    ensures |r.trace| == Count(r.trace, Cancel) + Count(r.trace, Unlock) + 1 + Count(r.trace, SubmitLoop)
    ensures Precedes(r.trace, Cancel, Unlock) && Precedes(r.trace, Unlock, OnLockLost)
    ensures Precedes(r.trace, Cancel, OnLockLost) && Precedes(r.trace, OnLockLost, SubmitLoop)
  {
    var cancel := CancelRefreshTask(s);
    var release := ReleaseLockIfHeld(cancel.state);
    var resubmit := if s.running then [SubmitLoop] else [];
    var t := cancel.trace + release.trace + [OnLockLost] + resubmit;
    LossTraceShape(cancel.trace, release.trace, resubmit);
    Step(release.state, t)
  }

  /** Counting and ordering facts for a trace made of at most one cancel, at
      most one unlock, the loss report and at most one resubmission. */
  lemma LossTraceShape(cancel: Trace, release: Trace, resubmit: Trace)
    requires cancel == [] || cancel == [Cancel]
    requires release == [] || release == [Unlock]
    requires resubmit == [] || resubmit == [SubmitLoop]
    ensures var t := cancel + release + [OnLockLost] + resubmit;
            && Count(t, Cancel) == |cancel| && Count(t, Unlock) == |release|
            && Count(t, OnLockLost) == 1 && Count(t, SubmitLoop) == |resubmit|
            && |t| == |cancel| + |release| + 1 + |resubmit|
            && Precedes(t, Cancel, Unlock) && Precedes(t, Unlock, OnLockLost)
            && Precedes(t, Cancel, OnLockLost) && Precedes(t, OnLockLost, SubmitLoop)
  {
    var t := cancel + release + [OnLockLost] + resubmit;
    forall e: Event
      ensures Count(t, e) == Count(cancel, e) + Count(release, e) + Count([OnLockLost], e) + Count(resubmit, e)
    {
      CountConcat(cancel + release + [OnLockLost], resubmit, e);
      CountConcat(cancel + release, [OnLockLost], e);
      CountConcat(cancel, release, e);
    }
    forall e: Event
      ensures Count(t, e) == (if e == Cancel then |cancel| else 0) + (if e == Unlock then |release| else 0)
                             + (if e == OnLockLost then 1 else 0) + (if e == SubmitLoop then |resubmit| else 0)
    {
      CountSingle(OnLockLost, e);
      CountSingle(Cancel, e);
      CountSingle(Unlock, e);
      CountSingle(SubmitLoop, e);
    }
  }

  /** `refreshLock`, one tick of the refresh task. A tick while not running is
      a loss without a renewal; otherwise renew for the lease duration and
      treat a failed renewal as a loss. */
  function RefreshLock(s: State, c: Properties.Config, renewSucceeds: bool): (r: Step)
    ensures s.running && renewSucceeds ==> r == Step(s, [Renew(c.lockName, c.leaseDuration)])
    ensures !s.running ==> r == HandleLockLost(s)
    ensures s.running && !renewSucceeds ==>
              r.state == HandleLockLost(s).state && r.trace == [Renew(c.lockName, c.leaseDuration)] + HandleLockLost(s).trace
  {
    if !s.running then HandleLockLost(s)
    else if renewSucceeds then Step(s, [Renew(c.lockName, c.leaseDuration)])
    else
      var lost := HandleLockLost(s);
      Step(lost.state, [Renew(c.lockName, c.leaseDuration)] + lost.trace)
  }

  /** One pass of `lockLoop`: check `running`, obtain the handle (assigning
      the field before `tryLock` is called), try it for the retry period with
      the lease as its expiry, and on success run the callback and schedule
      the refresh task. Anything thrown after `obtain` returned, other than an
      interruption, is caught and the loop goes round with the handle kept:
      a throwing callback, and a renew deadline the scheduler rejects, so the
      callback runs again on the next pass. */
  function LockLoopPass(s: State, c: Properties.Config, a: Attempt): (r: Pass)
    ensures !s.running ==> r == Pass(s, [], Exit)
    ensures r.state.running == s.running
    ensures s.running && a != ObtainThrows ==> r.state.lock == Some(LockHandle(c.lockName))
    ensures a == ObtainThrows || !s.running ==> r.state.lock == s.lock
    // the callback runs once exactly when the loop runs and tryLock succeeds
    ensures Count(r.trace, OnLockAcquired) == (if s.running && a.Acquired? then 1 else 0)
    // failures before the callback: obtain alone, or obtain and tryLock, then round again
    ensures s.running && a == ObtainThrows ==> r == Pass(s, [Obtain(c.lockName)], Again)
    ensures s.running && (a == TryLockThrows || a == NotAcquired) ==>
              && r.control == Again && r.state.refresh == s.refresh
              && r.trace == [Obtain(c.lockName), TryLock(c.retryPeriod, c.leaseDuration)]
    // interruption: no callback, no further pass
    ensures s.running && a == Interrupted ==>
              && r.control == Exit && r.state.refresh == s.refresh
              && r.trace == [Obtain(c.lockName), TryLock(c.retryPeriod, c.leaseDuration)]
    // a throwing callback: no refresh task, round again
    ensures s.running && a == Acquired(true) ==>
              && r.control == Again && r.state.refresh == s.refresh
              && r.trace == [Obtain(c.lockName), TryLock(c.retryPeriod, c.leaseDuration), OnLockAcquired]
    // success: the callback, then one refresh task, then the loop ends --
    // unless the scheduler rejects the period, which sends the loop round
    ensures s.running && a == Acquired(false) ==>
              && r.trace == [Obtain(c.lockName), TryLock(c.retryPeriod, c.leaseDuration), OnLockAcquired]
                            + CancelRefreshTask(s).trace
                            + [ScheduleRefresh(c.renewDeadline.seconds, c.renewDeadline.seconds)]
              && (r.control == Exit <==> c.renewDeadline.seconds > 0)
              && r.state.refresh == (if c.renewDeadline.seconds > 0
                                     then Some(RefreshFuture(c.renewDeadline.seconds, c.renewDeadline.seconds, false))
                                     else None)
    ensures forall i :: 0 <= i < |r.trace| ==> r.trace[i] != OnLockLost && r.trace[i] != SubmitLoop && r.trace[i] != Unlock
  {
    if !s.running then Pass(s, [], Exit)
    else
      var held := s.(lock := Some(LockHandle(c.lockName)));
      var tried := [Obtain(c.lockName), TryLock(c.retryPeriod, c.leaseDuration)];
      var called := tried + [OnLockAcquired];
      assert Count(tried, OnLockAcquired) == 0 by {
        CountConcat([Obtain(c.lockName)], [TryLock(c.retryPeriod, c.leaseDuration)], OnLockAcquired);
      }
      assert Count(called, OnLockAcquired) == 1 by {
        CountConcat(tried, [OnLockAcquired], OnLockAcquired);
      }
      match a
      case ObtainThrows => Pass(s, [Obtain(c.lockName)], Again)
      case TryLockThrows => Pass(held, tried, Again)
      case Interrupted => Pass(held, tried, Exit)
      case NotAcquired => Pass(held, tried, Again)
      case Acquired(true) => Pass(held, called, Again)
      case Acquired(false) =>
        var scheduled := ScheduleRefreshTask(held, c);
        CountConcat(called, scheduled.trace, OnLockAcquired);
        CountConcat(CancelRefreshTask(held).trace, [ScheduleRefresh(Period(c), Period(c))], OnLockAcquired);
        Pass(scheduled.state, called + scheduled.trace, if PeriodAccepted(c) then Exit else Again)
  }

  /** Whether an attempt makes its pass return. */
  predicate Ends(a: Attempt, accepted: bool) {
    a == Interrupted || (a == Acquired(false) && accepted)
  }

  /** The first attempt that makes a pass return, if any, given whether the
      scheduler accepts the refresh period. */
  function Terminal(attempts: seq<Attempt>, accepted: bool): Option<Attempt>
    decreases |attempts|
  {
    if |attempts| == 0 then None
    else if Ends(attempts[0], accepted) then Some(attempts[0])
    else Terminal(attempts[1..], accepted)
  }

  /** How many attempts the loop uses up: those up to and including the
      terminal one, or all of them. */
  function Consumed(attempts: seq<Attempt>, accepted: bool): (n: nat)
    ensures n <= |attempts|
    ensures Terminal(attempts, accepted).None? <==> n == |attempts| && (forall i :: 0 <= i < n ==> !Ends(attempts[i], accepted))
    ensures Terminal(attempts, accepted).Some? ==> 0 < n && Terminal(attempts, accepted) == Some(attempts[n - 1])
    decreases |attempts|
  {
    if |attempts| == 0 then 0
    else if Ends(attempts[0], accepted) then 1
    else 1 + Consumed(attempts[1..], accepted)
  }

  /** The number of attempts in which `tryLock` succeeded. */
  function Acquisitions(attempts: seq<Attempt>): nat
    decreases |attempts|
  {
    if |attempts| == 0 then 0 else (if attempts[0].Acquired? then 1 else 0) + Acquisitions(attempts[1..])
  }

  /** The whole `lockLoop` with nothing interleaved, driven by the outcomes of
      successive passes. It goes round exactly until an attempt is
      interrupted or succeeds with a period the scheduler accepts; it runs the
      callback once per successful `tryLock` among the attempts it uses up,
      never releases the lock and never reports a loss, and the one refresh
      task it may schedule is its last call. `Again` at the end means the
      outcomes ran out mid-loop. */
  function LockLoop(s: State, c: Properties.Config, attempts: seq<Attempt>): (r: Pass)
    ensures r.state.running == s.running
    ensures !s.running ==> r == Pass(s, [], Exit)
    ensures forall i :: 0 <= i < |r.trace| ==> r.trace[i] != OnLockLost && r.trace[i] != SubmitLoop && r.trace[i] != Unlock
    ensures forall i :: 0 <= i < |r.trace| && r.trace[i].ScheduleRefresh? ==>
              r.trace[i] == ScheduleRefresh(c.renewDeadline.seconds, c.renewDeadline.seconds)
    ensures PeriodAccepted(c) ==> forall i :: 0 <= i < |r.trace| && r.trace[i].ScheduleRefresh? ==> i == |r.trace| - 1
    ensures s.running ==> (r.control == Exit <==> Terminal(attempts, PeriodAccepted(c)).Some?)
    ensures s.running && PeriodAccepted(c) ==>
              ((|r.trace| > 0 && r.trace[|r.trace| - 1].ScheduleRefresh?) <==> Terminal(attempts, true) == Some(Acquired(false)))
    ensures PeriodAccepted(c) ==>
              r.state.refresh == (if s.running && Terminal(attempts, true) == Some(Acquired(false))
                                  then Some(RefreshFuture(c.renewDeadline.seconds, c.renewDeadline.seconds, false))
                                  else s.refresh)
    decreases |attempts|
  {
    if |attempts| == 0 then Pass(s, [], if s.running then Again else Exit)
    else
      var p := LockLoopPass(s, c, attempts[0]);
      if p.control == Exit then p
      else
        var rest := LockLoop(p.state, c, attempts[1..]);
        Pass(rest.state, p.trace + rest.trace, rest.control)
  }

  /** While running, the loop runs the callback once for every successful
      `tryLock` among the attempts it uses up; a rejected refresh period
      leaves the refresh field cleared as soon as one clean acquisition has
      happened. */
  lemma {:induction false} LockLoopCallbacks(s: State, c: Properties.Config, attempts: seq<Attempt>)
    requires s.running
    ensures var r := LockLoop(s, c, attempts);
            Count(r.trace, OnLockAcquired) == Acquisitions(attempts[..Consumed(attempts, PeriodAccepted(c))])
    ensures !PeriodAccepted(c) ==>
              LockLoop(s, c, attempts).state.refresh
              == (if Acquired(false) in attempts[..Consumed(attempts, false)] then None else s.refresh)
    decreases |attempts|
  {
    var n := Consumed(attempts, PeriodAccepted(c));
    if |attempts| > 0 {
      var p := LockLoopPass(s, c, attempts[0]);
      if p.control == Exit {
        assert attempts[..n] == [attempts[0]];
      } else {
        var rest := LockLoop(p.state, c, attempts[1..]);
        var k := Consumed(attempts[1..], PeriodAccepted(c));
        assert attempts[..n] == [attempts[0]] + attempts[1..][..k];
        assert attempts[..n][1..] == attempts[1..][..k];
        LockLoopCallbacks(p.state, c, attempts[1..]);
        CountConcat(p.trace, rest.trace, OnLockAcquired);
      }
    }
  }

  /** The steps the environment can take: a life-cycle call, one pass of an
      acquisition loop, or one tick of the refresh task. */
  datatype Action =
    | DoStart
    | DoStop
    | DoDestroy
    | DoPass(attempt: Attempt)
    | DoTick(renewSucceeds: bool)

  function Apply(s: State, c: Properties.Config, a: Action): Step {
    match a
    case DoStart => Start(s)
    case DoStop => Stop(s)
    case DoDestroy => OnDestroy(s)
    case DoPass(attempt) =>
      var p := LockLoopPass(s, c, attempt);
      Step(p.state, p.trace)
    case DoTick(ok) => RefreshLock(s, c, ok)
  }

  /** Any interleaving of steps, from a given state. */
  function Run(s: State, c: Properties.Config, actions: seq<Action>): Step
    decreases |actions|
  {
    if |actions| == 0 then Step(s, [])
    else
      var first := Apply(s, c, actions[0]);
      var rest := Run(first.state, c, actions[1..]);
      Step(rest.state, first.trace + rest.trace)
  }

  // ---- At most one refresh task ----

  /** How many uncancelled refresh tasks a call adds or removes. */
  function Effect(live: int, e: Event): int {
    match e
    case ScheduleRefresh(_, period) => if period > 0 then live + 1 else live
    case Cancel => live - 1
    case _ => live
  }

  /** The number of uncancelled refresh tasks after a trace. */
  function Replay(live: int, t: Trace): int
    decreases |t|
  {
    if |t| == 0 then live else Replay(Effect(live, t[0]), t[1..])
  }

  /** Before and after every call of the trace there is at most one
      uncancelled refresh task, and never a cancel of none. */
  predicate AtMostOne(live: int, t: Trace)
    decreases |t|
  {
    0 <= live <= 1 && (|t| == 0 || AtMostOne(Effect(live, t[0]), t[1..]))
  }

  /** The number of uncancelled refresh tasks a state refers to. */
  function Live(s: State): nat {
    if LiveRefresh(s) then 1 else 0
  }

  lemma {:induction false} ReplayConcat(n: int, a: Trace, b: Trace)
    ensures Replay(n, a + b) == Replay(Replay(n, a), b)
    ensures AtMostOne(n, a + b) <==> AtMostOne(n, a) && AtMostOne(Replay(n, a), b)
    decreases |a|
  {
    if |a| == 0 {
      assert a + b == b;
    } else {
      assert (a + b)[1..] == a[1..] + b;
      ReplayConcat(Effect(n, a[0]), a[1..], b);
    }
  }

  /** A trace that neither schedules nor cancels a refresh task. */
  predicate Neutral(t: Trace) {
    forall i :: 0 <= i < |t| ==> !t[i].ScheduleRefresh? && !t[i].Cancel?
  }

  lemma {:induction false} NeutralReplay(n: int, t: Trace)
    requires Neutral(t)
    ensures Replay(n, t) == n
    ensures AtMostOne(n, t) <==> 0 <= n <= 1
    decreases |t|
  {
    if |t| > 0 {
      assert Neutral(t[1..]) by {
        forall i | 0 <= i < |t[1..]| ensures !t[1..][i].ScheduleRefresh? && !t[1..][i].Cancel? {
          assert t[1..][i] == t[i + 1];
        }
      }
      NeutralReplay(n, t[1..]);
    }
  }

  lemma CancelAccounts(s: State)
    ensures Replay(Live(s), CancelRefreshTask(s).trace) == 0
    ensures AtMostOne(Live(s), CancelRefreshTask(s).trace)
  {
  }

  /** Cancel-then-lose accounting shared by every loss path. */
  lemma LossAccounts(s: State)
    ensures Replay(Live(s), HandleLockLost(s).trace) == 0
    ensures AtMostOne(Live(s), HandleLockLost(s).trace)
  {
    var cancel := CancelRefreshTask(s).trace;
    var rest := ReleaseLockIfHeld(s.(refresh := None)).trace + [OnLockLost] + (if s.running then [SubmitLoop] else []);
    assert HandleLockLost(s).trace == cancel + rest;
    CancelAccounts(s);
    NeutralReplay(0, rest);
    ReplayConcat(Live(s), cancel, rest);
  }

  lemma StopAccounts(s: State)
    ensures AtMostOne(Live(s), Stop(s).trace) && Replay(Live(s), Stop(s).trace) == Live(Stop(s).state)
  {
    var cancel := CancelRefreshTask(s.(running := false));
    var release := ReleaseLockIfHeld(cancel.state);
    assert Stop(s).trace == cancel.trace + release.trace;
    CancelAccounts(s.(running := false));
    NeutralReplay(0, release.trace);
    ReplayConcat(Live(s), cancel.trace, release.trace);
  }

  lemma PassAccounts(s: State, c: Properties.Config, attempt: Attempt)
    ensures var p := LockLoopPass(s, c, attempt);
            AtMostOne(Live(s), p.trace) && Replay(Live(s), p.trace) == Live(p.state)
  {
    var p := LockLoopPass(s, c, attempt);
    if s.running && attempt == Acquired(false) {
      var held := s.(lock := Some(LockHandle(c.lockName)));
      var tried := [Obtain(c.lockName), TryLock(c.retryPeriod, c.leaseDuration), OnLockAcquired];
      var cancel := CancelRefreshTask(held).trace;
      var sched := [ScheduleRefresh(Period(c), Period(c))];
      assert p.trace == tried + cancel + sched;
      NeutralReplay(Live(s), tried);
      CancelAccounts(held);
      ReplayConcat(Live(s), tried, cancel);
      assert sched[1..] == [];
      ReplayConcat(Live(s), tried + cancel, sched);
    } else {
      NeutralReplay(Live(s), p.trace);
    }
  }

  lemma TickAccounts(s: State, c: Properties.Config, ok: bool)
    ensures var r := RefreshLock(s, c, ok);
            AtMostOne(Live(s), r.trace) && Replay(Live(s), r.trace) == Live(r.state)
  {
    var r := RefreshLock(s, c, ok);
    if !s.running {
      LossAccounts(s);
    } else if ok {
      NeutralReplay(Live(s), r.trace);
    } else {
      var renew := [Renew(c.lockName, c.leaseDuration)];
      NeutralReplay(Live(s), renew);
      LossAccounts(s);
      ReplayConcat(Live(s), renew, HandleLockLost(s).trace);
    }
  }

  /** Every step keeps the count of live refresh tasks in step with the state,
      and never lets it exceed one: scheduling always cancels first. */
  lemma {:induction false} ApplyAccounts(s: State, c: Properties.Config, a: Action)
    ensures AtMostOne(Live(s), Apply(s, c, a).trace)
    ensures Replay(Live(s), Apply(s, c, a).trace) == Live(Apply(s, c, a).state)
  {
    match a
    case DoStart => NeutralReplay(Live(s), Start(s).trace);
    case DoStop => StopAccounts(s);
    case DoDestroy => StopAccounts(s);
    case DoPass(attempt) => PassAccounts(s, c, attempt);
    case DoTick(ok) => TickAccounts(s, c, ok);
  }

  /** Whatever the interleaving, at most one refresh task is live at any
      point of the combined trace, and the state's refresh field accounts
      for it at the end. */
  lemma {:induction false} AtMostOneRefreshTask(s: State, c: Properties.Config, actions: seq<Action>)
    ensures AtMostOne(Live(s), Run(s, c, actions).trace)
    ensures Replay(Live(s), Run(s, c, actions).trace) == Live(Run(s, c, actions).state)
    decreases |actions|
  {
    if |actions| > 0 {
      var first := Apply(s, c, actions[0]);
      ApplyAccounts(s, c, actions[0]);
      AtMostOneRefreshTask(first.state, c, actions[1..]);
      ReplayConcat(Live(s), first.trace, Run(first.state, c, actions[1..]).trace);
    }
  }

  // ---- Handle and task invariants ----

  /** A refresh task exists only once a lock handle has been obtained. */
  predicate RefreshNeedsHandle(s: State) {
    s.refresh.Some? ==> s.lock.Some?
  }

  /** Once obtained, a handle is never dropped, and the refresh invariant is
      kept by every step. */
  lemma {:induction false} RunKeepsHandle(s: State, c: Properties.Config, actions: seq<Action>)
    requires RefreshNeedsHandle(s)
    ensures RefreshNeedsHandle(Run(s, c, actions).state)
    ensures s.lock.Some? ==> Run(s, c, actions).state.lock.Some?
    decreases |actions|
  {
    if |actions| > 0 {
      var first := Apply(s, c, actions[0]);
      assert RefreshNeedsHandle(first.state) && (s.lock.Some? ==> first.state.lock.Some?);
      RunKeepsHandle(first.state, c, actions[1..]);
    }
  }

  /** A second `stop` cancels nothing and reports no loss, but calls `unlock`
      again whenever a handle was ever obtained. */
  lemma StopTwice(s: State)
    ensures Stop(Stop(s).state).state == Stop(s).state
    ensures Stop(Stop(s).state).trace == if s.lock.Some? then [Unlock] else []
  {
  }

  /** Start, a clean acquisition, then a failed renewal while running: the
      loss is handled in order and a new acquisition loop is submitted. */
  lemma RenewalFailureScenario(c: Properties.Config)
    requires c.renewDeadline.seconds > 0
    ensures Run(Initial, c, [DoStart, DoPass(Acquired(false)), DoTick(false)]).trace
            == [SubmitLoop, Obtain(c.lockName), TryLock(c.retryPeriod, c.leaseDuration), OnLockAcquired,
                ScheduleRefresh(c.renewDeadline.seconds, c.renewDeadline.seconds), Renew(c.lockName, c.leaseDuration),
                Cancel, Unlock, OnLockLost, SubmitLoop]
  {
  }

  /** A renew deadline whose whole seconds are not positive -- any deadline
      under one second included -- makes every clean acquisition throw after
      its callback: each such pass cancels the old task, schedules none and
      goes round. Short of an interruption the loop never returns, and it runs
      the callback once per successful `tryLock`. */
  lemma {:induction false} RejectedPeriodSpins(s: State, c: Properties.Config, attempts: seq<Attempt>)
    requires s.running && c.renewDeadline.seconds <= 0
    requires forall i :: 0 <= i < |attempts| ==> attempts[i] != Interrupted
    ensures Terminal(attempts, false).None?
    ensures LockLoop(s, c, attempts).control == Again
    ensures Count(LockLoop(s, c, attempts).trace, OnLockAcquired) == Acquisitions(attempts)
    ensures Acquired(false) in attempts ==> LockLoop(s, c, attempts).state.refresh.None?
    decreases |attempts|
  {
    if |attempts| > 0 {
      RejectedPeriodSpins(LockLoopPass(s, c, attempts[0]).state, c, attempts[1..]);
    }
    assert attempts[..Consumed(attempts, false)] == attempts;
    LockLoopCallbacks(s, c, attempts);
  }

  /** The last life-cycle call among the actions, if any. */
  function LastLifecycle(actions: seq<Action>): Option<Action>
    decreases |actions|
  {
    if |actions| == 0 then None
    else
      var later := LastLifecycle(actions[1..]);
      if later.Some? then later
      else if actions[0].DoStart? || actions[0].DoStop? || actions[0].DoDestroy? then Some(actions[0])
      else None
  }

  /** Only `start`, `stop` and `onDestroy` write the flag: after any
      interleaving the service is running exactly when the last of those
      calls was a `start`, or when none was made and it was running before. */
  lemma {:induction false} RunningFollowsLifecycle(s: State, c: Properties.Config, actions: seq<Action>)
    ensures IsRunning(Run(s, c, actions).state)
            == (match LastLifecycle(actions) case None => s.running case Some(a) => a.DoStart?)
    decreases |actions|
  {
    if |actions| > 0 {
      RunningFollowsLifecycle(Apply(s, c, actions[0]).state, c, actions[1..]);
    }
  }

  /** `start` has no guard: a second call changes no field but submits a
      second acquisition loop. */
  lemma StartIsNotIdempotent(s: State)
    ensures Start(Start(s).state).state == Start(s).state
    ensures Start(s).trace + Start(Start(s).state).trace == [SubmitLoop, SubmitLoop]
  {
  }

  /** How a pass whose lock was acquired ends, given what the reflector's
      `onLockAcquired` did: it throws exactly when its listing failed. */
  function AcquiredWith(o: Callbacks.Outcome): Attempt {
    Acquired(o.error.Some?)
  }

  /** A reflector whose pod listing fails makes the acquiring pass go round
      again with the lock still held, no refresh task scheduled, nothing
      released and no loss reported. */
  lemma ListingFailureKeepsLock(s: State, c: Properties.Config, cluster: Labels.Cluster,
                                e: Callbacks.Env, failing: set<string>)
    requires s.running
    ensures var p := LockLoopPass(s, c, AcquiredWith(Callbacks.OnLockAcquired(cluster, e, Callbacks.ListFailed, failing)));
            && p.control == Again
            && p.state.lock == Some(LockHandle(c.lockName))
            && p.state.refresh == s.refresh
            && p.trace == [Obtain(c.lockName), TryLock(c.retryPeriod, c.leaseDuration), OnLockAcquired]
  {
  }
}
