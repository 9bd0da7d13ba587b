/** The abort fence of `Executor::enter` (src/exec.rs:196-236): a watcher thread that terminates the
    isolate when the request is cancelled, against the thread that runs the application. Every step
    below is atomic; any interleaving is possible. */
module AbortFence {
  /** The watcher: waiting for the cancellation, in its grace period, about to lock, holding the
      lock, then past the check, past the termination, past the report. */
  datatype Watcher = Awaiting | Grace | Locking | Checking | Firing | Reporting | Unlocking | Stopped

  /** `enter`: running the application, past it, past the abort of the watcher, holding the lock,
      past setting the fence, past the unlock, and returned. */
  datatype Caller = Running | Returned | Aborted | Setting | Fenced | Reading | Done(reset: bool, some: bool)

  datatype Owner = Free | HeldByWatcher | HeldByCaller

  /** `terminated` says that the isolate was told to terminate, `threw` that the application's call
      ended with an exception. */
  datatype State = State(caller: Caller, watcher: Watcher, lock: Owner, aborting: bool,
                         fence: bool, report: bool, terminated: bool, threw: bool)

  datatype Event =
    | CancelSeen | GraceOver | WatcherAborted | WatcherLocks | WatcherChecks | Terminate | Report | WatcherUnlocks
    | Return(threw: bool) | AbortWatcher | CallerLocks | SetFence | CallerUnlocks | Leave

  const INIT := State(Running, Awaiting, Free, false, false, false, false, false)

  /** An abort takes effect where the watcher awaits, and at no other place. */
  predicate Enabled(s: State, e: Event) {
    match e
    case CancelSeen => s.watcher == Awaiting
    case GraceOver => s.watcher == Grace
    case WatcherAborted => s.aborting && s.watcher in {Awaiting, Grace}
    case WatcherLocks => s.watcher == Locking && s.lock == Free
    case WatcherChecks => s.watcher == Checking
    case Terminate => s.watcher == Firing
    case Report => s.watcher == Reporting
    case WatcherUnlocks => s.watcher == Unlocking
    case Return(_) => s.caller == Running
    case AbortWatcher => s.caller == Returned
    case CallerLocks => s.caller == Aborted && s.lock == Free
    case SetFence => s.caller == Setting
    case CallerUnlocks => s.caller == Fenced
    case Leave => s.caller == Reading
  }

  function Do(s: State, e: Event): State {
    match e
    case CancelSeen => s.(watcher := Grace)
    case GraceOver => s.(watcher := Locking)
    case WatcherAborted => s.(watcher := Stopped)
    case WatcherLocks => s.(watcher := Checking, lock := HeldByWatcher)
    case WatcherChecks => s.(watcher := if s.fence then Unlocking else Firing)
    case Terminate => s.(watcher := Reporting, terminated := true)
    case Report => s.(watcher := Unlocking, report := true)
    case WatcherUnlocks => s.(watcher := Stopped, lock := Free)
    case Return(t) => s.(caller := Returned, threw := t)
    case AbortWatcher => s.(caller := Aborted, aborting := true)
    case CallerLocks => s.(caller := Setting, lock := HeldByCaller)
    case SetFence => s.(caller := Fenced, fence := true)
    case CallerUnlocks => s.(caller := Reading, lock := Free)
    case Leave => s.(caller := Done(s.report, !s.report && !s.threw))
  }

  predicate IsRun(s: State, es: seq<Event>)
    decreases |es|
  {
    es == [] || (Enabled(s, es[0]) && IsRun(Do(s, es[0]), es[1..]))
  }

  function Run(s: State, es: seq<Event>): State
    decreases |es|
  {
    if es == [] then s else Run(Do(s, es[0]), es[1..])
  }

  predicate Mutex(s: State) {
    && (s.lock == HeldByWatcher <==> s.watcher in {Checking, Firing, Reporting, Unlocking})
    && (s.lock == HeldByCaller <==> s.caller in {Setting, Fenced})
  }

  predicate PastFence(s: State) {
    s.caller in {Fenced, Reading} || s.caller.Done?
  }

  predicate Inv(s: State) {
    && Mutex(s)
    && (s.fence <==> PastFence(s))
    && (s.fence ==> s.watcher !in {Firing, Reporting})
    && (s.terminated <==> s.report || s.watcher == Reporting)
    && (s.caller.Done? ==> s.caller == Done(s.terminated, !s.terminated && !s.threw))
    && (s.aborting <==> s.caller !in {Running, Returned})
    && (s.watcher == Unlocking ==> s.fence || s.terminated)
    && (s.watcher == Stopped ==> s.fence || s.terminated || s.aborting)
  }

  predicate ByWatcher(e: Event) {
    e in {CancelSeen, GraceOver, WatcherAborted, WatcherLocks, WatcherChecks, Terminate, Report, WatcherUnlocks}
  }

  lemma WatcherKeeps(s: State, e: Event)
    requires Inv(s) && Enabled(s, e) && ByWatcher(e)
    ensures Inv(Do(s, e)) && (s.fence ==> Do(s, e).fence && Do(s, e).terminated == s.terminated)
    ensures s.caller.Done? ==> Do(s, e).caller == s.caller
  {
    assert PastFence(Do(s, e)) <==> PastFence(s);
  }

  lemma CallerKeeps(s: State, e: Event)
    requires Inv(s) && Enabled(s, e) && !ByWatcher(e)
    ensures Inv(Do(s, e)) && !s.caller.Done? && (s.fence ==> Do(s, e).fence) && Do(s, e).terminated == s.terminated
  {
    assert s.caller == Setting ==> s.watcher !in {Firing, Reporting};
  }

  lemma StepKeeps(s: State, e: Event)
    requires Inv(s) && Enabled(s, e)
    ensures Inv(Do(s, e)) && (s.fence ==> Do(s, e).fence && Do(s, e).terminated == s.terminated)
    ensures s.caller.Done? ==> Do(s, e).caller == s.caller
  {
    if ByWatcher(e) {
      WatcherKeeps(s, e);
    } else {
      CallerKeeps(s, e);
    }
  }

  lemma {:induction false} RunKeeps(s: State, es: seq<Event>)
    requires Inv(s) && IsRun(s, es)
    ensures Inv(Run(s, es)) && (s.fence ==> Run(s, es).fence && Run(s, es).terminated == s.terminated)
    ensures s.caller.Done? ==> Run(s, es).caller == s.caller
    decreases |es|
  {
    if es != [] {
      StepKeeps(s, es[0]);
      RunKeeps(Do(s, es[0]), es[1..]);
    }
  }

  lemma {:induction false} RunConcat(s: State, a: seq<Event>, b: seq<Event>)
    ensures IsRun(s, a + b) <==> IsRun(s, a) && IsRun(Run(s, a), b)
    ensures Run(s, a + b) == Run(Run(s, a), b)
    decreases |a|
  {
    if a == [] {
      assert a + b == b;
    } else {
      assert (a + b)[1..] == a[1..] + b;
      RunConcat(Do(s, a[0]), a[1..], b);
    }
  }

  /** In no run is the isolate terminated once the fence is set, so not after `enter` returned
      either. */
  lemma NoTerminationAfterFence(es: seq<Event>, i: nat, j: nat)
    requires IsRun(INIT, es) && i < j < |es| && es[i] == SetFence
    ensures es[j] != Terminate
  {
    var s := Run(INIT, es[..j]);
    assert es == es[..j] + es[j..];
    RunConcat(INIT, es[..j], es[j..]);
    assert es[..j] == es[..i] + es[i..j];
    RunConcat(INIT, es[..i], es[i..j]);
    var s1 := Run(INIT, es[..i]);
    RunKeeps(INIT, es[..i]);
    StepKeeps(s1, SetFence);
    RunKeeps(Do(s1, SetFence), es[i..j][1..]);
    assert s.fence && Inv(s) && Enabled(s, es[j]);
  }

  /** When `enter` has returned, it reset the context exactly if the isolate was terminated, gave a
      result exactly if it was not and nothing was thrown, and nothing later changes that. */
  lemma EnterSeesTermination(es: seq<Event>, more: seq<Event>)
    requires IsRun(INIT, es) && IsRun(Run(INIT, es), more) && Run(INIT, es).caller.Done?
    ensures var s := Run(INIT, es);
            s.caller == Done(s.terminated, !s.terminated && !s.threw)
            && Run(s, more).caller == s.caller && Run(s, more).terminated == s.terminated
  {
    RunKeeps(INIT, es);
    RunKeeps(Run(INIT, es), more);
  }

  lemma {:induction false} TerminatedMeans(s: State, es: seq<Event>)
    requires IsRun(s, es)
    ensures Run(s, es).terminated <==> s.terminated || Terminate in es
    decreases |es|
  {
    if es != [] {
      TerminatedMeans(Do(s, es[0]), es[1..]);
      assert es == [es[0]] + es[1..];
    }
  }

  /** The caller can always get on: it waits for the lock alone, and whoever holds it lets go. */
  lemma NeverStuck(es: seq<Event>)
    requires IsRun(INIT, es) && !Run(INIT, es).caller.Done?
    ensures exists e :: Enabled(Run(INIT, es), e) &&
              (e in {AbortWatcher, CallerLocks, SetFence, CallerUnlocks, Leave} || e.Return?
               || (Run(INIT, es).lock == HeldByWatcher && e in {WatcherChecks, Terminate, Report, WatcherUnlocks}))
  {
    var s := Run(INIT, es);
    RunKeeps(INIT, es);
    match s.caller {
      case Running => assert Enabled(s, Return(false));
      case Returned => assert Enabled(s, AbortWatcher);
      case Aborted =>
        match s.watcher {
          case Checking => assert Enabled(s, WatcherChecks);
          case Firing => assert Enabled(s, Terminate);
          case Reporting => assert Enabled(s, Report);
          case Unlocking => assert Enabled(s, WatcherUnlocks);
          case _ => assert Enabled(s, CallerLocks);
        }
      case Setting => assert Enabled(s, SetFence);
      case Fenced => assert Enabled(s, CallerUnlocks);
      case Reading => assert Enabled(s, Leave);
    }
  }

  /** A watcher that got the lock before the fence was set will terminate, or has. */
  predicate Firm(s: State) {
    s.terminated || (!s.fence && s.watcher in {Checking, Firing})
  }

  lemma StepFirm(s: State, e: Event)
    requires Inv(s) && Enabled(s, e) && Firm(s)
    ensures Firm(Do(s, e))
  {
  }

  lemma {:induction false} RunFirm(s: State, es: seq<Event>)
    requires Inv(s) && IsRun(s, es) && Firm(s)
    ensures Firm(Run(s, es)) && Inv(Run(s, es))
    decreases |es|
  {
    if es != [] {
      StepKeeps(s, es[0]);
      StepFirm(s, es[0]);
      RunFirm(Do(s, es[0]), es[1..]);
    }
  }

  /** A watcher that locks before the fence is set does terminate: it has by the time it unlocks. One
      that locks after, by `NoTerminationAfterFence`, does not. */
  lemma LockBeforeFenceTerminates(es: seq<Event>, i: nat, j: nat)
    requires IsRun(INIT, es) && i < j < |es| && es[i] == WatcherLocks && es[j] == WatcherUnlocks
    requires SetFence !in es[..i]
    ensures Terminate in es[..j]
  {
    assert es == es[..j] + es[j..] && es[..j] == es[..i] + es[i..j];
    RunConcat(INIT, es[..j], es[j..]);
    RunConcat(INIT, es[..i], es[i..j]);
    var s := Run(INIT, es[..i]);
    FenceMeans(INIT, es[..i]);
    RunKeeps(INIT, es[..i]);
    StepKeeps(s, WatcherLocks);
    RunFirm(Do(s, WatcherLocks), es[i..j][1..]);
    TerminatedMeans(INIT, es[..j]);
    assert Enabled(Run(INIT, es[..j]), es[j..][0]);
  }

  lemma {:induction false} FenceMeans(s: State, es: seq<Event>)
    requires IsRun(s, es)
    ensures Run(s, es).fence <==> s.fence || SetFence in es
    decreases |es|
  {
    if es != [] {
      FenceMeans(Do(s, es[0]), es[1..]);
      assert es == [es[0]] + es[1..];
    }
  }

  /** Once the caller is past the abort, a watcher that still waits may stop without locking. */
  lemma WaitingWatcherStops(es: seq<Event>)
    requires IsRun(INIT, es) && Run(INIT, es).caller !in {Running, Returned}
    requires Run(INIT, es).watcher in {Awaiting, Grace}
    ensures Enabled(Run(INIT, es), WatcherAborted) && Do(Run(INIT, es), WatcherAborted).watcher == Stopped
  {
    RunKeeps(INIT, es);
  }

  /** While the application runs, the watcher alone gets to terminating it, if it has not: it waits
      for nothing that only the application could give. */
  lemma {:induction false} RunawayIsTerminated(es: seq<Event>) returns (more: seq<Event>)
    requires IsRun(INIT, es) && Run(INIT, es).caller == Running
    ensures IsRun(Run(INIT, es), more) && (forall e <- more :: ByWatcher(e) && e != WatcherAborted)
    ensures Run(Run(INIT, es), more).terminated
    decreases WatcherWay(Run(INIT, es).watcher)
  {
    var s := Run(INIT, es);
    RunKeeps(INIT, es);
    if s.terminated {
      more := [];
    } else {
      var e := match s.watcher
        case Awaiting => CancelSeen
        case Grace => GraceOver
        case Locking => WatcherLocks
        case Checking => WatcherChecks
        case _ => Terminate;
      RunConcat(INIT, es, [e]);
      assert [e][1..] == [] && Run(s, [e]) == Do(s, e) && IsRun(s, [e]);
      var rest := RunawayIsTerminated(es + [e]);
      more := [e] + rest;
      assert more[1..] == rest;
    }
  }

  function WatcherWay(w: Watcher): nat {
    match w
    case Awaiting => 5
    case Grace => 4
    case Locking => 3
    case Checking => 2
    case Firing => 1
    case _ => 0
  }
}
