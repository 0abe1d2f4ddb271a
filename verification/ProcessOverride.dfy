/** The `waitpid` override on top of the supervisor
    (src/preload/host/spawn_strategy/process_override.cc). */
module ProcessOverride {
  import opened Basics
  import opened SupervisorState
  import opened SupervisorProtocol
  import opened SupervisorRegister
  import opened SupervisorWakeup

  /** What the override does: pass the call on to libc, answer 0 or the pid, or trip its
      assertion that only a WNOHANG call is told to try later. */
  datatype Waited = PassedOn | ReturnsZero | ReturnsPid(status: int32) | Aborts

  /** Groups (pid <= 0) go straight to libc. */
  function WaitpidCall(pid: int32, nohang: bool): Option<Call> {
    if pid <= 0 then None
    else Some(if nohang then GetExitStatus(pid) else WaitForExitStatus(pid))
  }

  function WaitpidResult(nohang: bool, outcome: Outcome): Waited {
    match outcome
    case NotFound => PassedOn
    case TryLater => if nohang then ReturnsZero else Aborts
    case Ok(status) => ReturnsPid(status)
  }

  predicate Delivered(w: World, d: nat, t: nat, stub: int32, status: int32) {
    && d < |w.deliveries|
    && w.deliveries[d].thread == t
    && w.deliveries[d].stub == stub
    && w.deliveries[d].status == status
  }

  predicate StartedAs(w: World, k: nat, stub: int32, internal: int32) {
    && k < |w.procs|
    && w.procs[k].stub == stub
    && w.procs[k].started.Some?
    && ToInt32(w.procs[k].started.value) == internal
  }

  /** The answer is one the call may give, and a successful one is backed by history. */
  ghost predicate AnswerSound(w: World, t: nat, call: Call, outcome: Outcome) {
    && (outcome.TryLater? ==> call.GetExitStatus?)
    && (outcome.Ok? && !call.FindInternalPid? ==> exists d: nat :: Delivered(w, d, t, call.stub, outcome.value))
    && (outcome.Ok? && call.FindInternalPid? ==> exists k: nat :: StartedAs(w, k, call.stub, outcome.value))
  }

  ghost predicate ThreadSound(w: World, t: nat, thread: Thread) {
    match thread
    case Returned(call, outcome) => AnswerSound(w, t, call, outcome)
    case Notifying(call, Return(outcome)) => AnswerSound(w, t, call, outcome)
    case _ => HeldBy(thread).Some? ==> !thread.call.FindInternalPid?
  }

  ghost predicate AnswersSound(w: World) {
    forall t | t in w.threads :: ThreadSound(w, t, w.threads[t])
  }

  /** History only grows, so an answer backed by it stays backed. */
  lemma AnswerKept(w: World, e: Event, w': World, t: nat, call: Call, outcome: Outcome)
    requires Inv(w) && Step(w, e, w') && AnswerSound(w, t, call, outcome)
    ensures AnswerSound(w', t, call, outcome)
  {
    StepGrowsHistory(w, e, w');
    if outcome.Ok? && call.FindInternalPid? {
      var k: nat :| StartedAs(w, k, call.stub, outcome.value);
      assert StartedAs(w', k, call.stub, outcome.value);
    } else if outcome.Ok? {
      var d: nat :| Delivered(w, d, t, call.stub, outcome.value);
      assert Delivered(w', d, t, call.stub, outcome.value);
    }
  }

  lemma EnterAnswers(w: World, t: nat, k: nat, w': World)
    requires Inv(w) && Step(w, Enter(t, k), w')
    ensures ThreadSound(w', t, w'.threads[t])
  {
    var call := ThreadOf(w, t).call;
    if call.FindInternalPid? && call.stub in w.tables.stubs {
      var j: nat :| LiveAs(w.procs, j, call.stub);
      assert w.tables.stubs[call.stub].internal != NO_PID ==>
               StartedAs(w', j, call.stub, w.tables.stubs[call.stub].internal);
    }
  }

  lemma AnswersSoundStep(w: World, e: Event, w': World)
    requires Inv(w) && AnswersSound(w) && Step(w, e, w')
    ensures AnswersSound(w')
  {
    forall t | t in w'.threads ensures ThreadSound(w', t, w'.threads[t]) {
      if e.Enter? && e.thread == t {
        EnterAnswers(w, t, e.spawn, w');
      } else if e.FinishReap? && e.thread == t {
        var thread := w.threads[t];
        assert Delivered(w', |w.deliveries|, t, thread.call.stub, ToInt32(thread.data.exitStatus.value));
        assert HeldBy(thread).Some?;
      } else {
        match w'.threads[t]
        case Returned(call, outcome) => AnswerKept(w, e, w', t, call, outcome);
        case Notifying(call, Return(outcome)) => AnswerKept(w, e, w', t, call, outcome);
        case _ =>
      }
    }
  }

  lemma {:induction false} AnswersKeptSound(ws: seq<World>, es: seq<Event>, n: nat)
    requires IsRun(ws, es) && n < |ws|
    ensures AnswersSound(ws[n])
  {
    if n > 0 {
      AnswersKeptSound(ws, es, n - 1);
      InvAlways(ws, es, n - 1);
      AnswersSoundStep(ws[n - 1], es[n - 1], ws[n]);
    }
  }

  /** In every run each answer given, or about to be given, is backed by history, and was the answer
      read off the spawns when the thread looked. */
  lemma AnswersAlwaysSound(ws: seq<World>, es: seq<Event>, n: nat)
    requires IsRun(ws, es) && n < |ws|
    ensures AnswersSound(ws[n])
    ensures forall t | t in ws[n].threads && OutcomeOf(ws[n].threads[t]).Some? ::
              exists i: nat :: i < n && AnsweredAt(ws, es, i, t, ws[n].threads[t].call, OutcomeOf(ws[n].threads[t]).value)
  {
    AnswersKeptSound(ws, es, n);
    forall t | t in ws[n].threads && OutcomeOf(ws[n].threads[t]).Some?
      ensures exists i: nat ::
                i < n && AnsweredAt(ws, es, i, t, ws[n].threads[t].call, OutcomeOf(ws[n].threads[t]).value)
    {
      var i := OutcomeWasTrue(ws, es, n, t);
    }
  }

  /** What the override's answer says about the spawns of this stub pid. */
  ghost predicate WaitpidTrue(procs: seq<Spawn>, pid: int32, waited: Waited) {
    match waited
    case PassedOn => forall k: nat :: !LiveAs(procs, k, pid)
    case ReturnsZero => exists k: nat :: LiveAs(procs, k, pid) && !procs[k].reported
    case ReturnsPid(status) => exists k: nat :: LiveAs(procs, k, pid) && procs[k].reported && HasStatus(procs[k], status)
    case Aborts => false
  }

  lemma OnlyOneIsTrue(t: Tables, procs: seq<Spawn>, pid: int32, a: Waited, b: Waited)
    requires Refines(t, procs) && WaitpidTrue(procs, pid, a) && WaitpidTrue(procs, pid, b)
    ensures a == b
  {
  }

  /** In every run, when a thread's overridden waitpid comes back the assertion has not fired, the pid
      is returned only with an exit status handed to this thread, and the answer is the only one that
      was true of the spawns at some moment of the call: it is passed on to libc exactly when there
      was no live child of that stub pid, and it returns zero exactly when there was one not yet
      reported dead. */
  lemma WaitpidAnswers(ws: seq<World>, es: seq<Event>, n: nat, t: nat, pid: int32, nohang: bool)
    returns (s: nat, i: nat)
    requires IsRun(ws, es) && n < |ws| && pid > 0
    requires ThreadOf(ws[n], t).Returned? && ThreadOf(ws[n], t).call == WaitpidCall(pid, nohang).value
    ensures
      var waited := WaitpidResult(nohang, ThreadOf(ws[n], t).outcome);
      && !waited.Aborts?
      && (waited.ReturnsPid? ==> exists d: nat :: Delivered(ws[n], d, t, pid, waited.status))
    ensures s < i < n && StartsAt(es, s, t, WaitpidCall(pid, nohang).value) && SameCall(es, s, n, t)
    ensures forall waited ::
              waited == WaitpidResult(nohang, ThreadOf(ws[n], t).outcome) <==> WaitpidTrue(ws[i].procs, pid, waited)
    ensures !nohang ==> !WaitpidResult(nohang, ThreadOf(ws[n], t).outcome).ReturnsZero?
  {
    AnswersAlwaysSound(ws, es, n);
    s, i := CallsAreLinearizable(ws, es, n, t);
    InvAlways(ws, es, i);
    var waited := WaitpidResult(nohang, ThreadOf(ws[n], t).outcome);
    WaitpidWasTrue(ws[i].procs, pid, nohang, ThreadOf(ws[n], t).outcome);
    forall other | WaitpidTrue(ws[i].procs, pid, other) ensures other == waited {
      OnlyOneIsTrue(ws[i].tables, ws[i].procs, pid, other, waited);
    }
  }

  lemma WaitpidWasTrue(procs: seq<Spawn>, pid: int32, nohang: bool, outcome: Outcome)
    requires pid > 0 && OutcomeTrue(procs, WaitpidCall(pid, nohang).value, outcome)
    ensures WaitpidTrue(procs, pid, WaitpidResult(nohang, outcome))
  {
  }

  // ---------------------------------------------------------------- what WNOHANG does

  /** At ws[n] thread t is inside the waitpid(pid, WNOHANG) that it called at s. */
  ghost predicate PollsSince(ws: seq<World>, es: seq<Event>, s: nat, n: nat, t: nat, pid: int32)
    requires IsRun(ws, es) && pid > 0
  {
    && s < n < |ws|
    && StartsAt(es, s, t, WaitpidCall(pid, true).value)
    && SameCall(es, s, n, t)
  }

  lemma {:induction false} StaysInCall(ws: seq<World>, es: seq<Event>, s: nat, n: nat, t: nat, call: Call)
    requires IsRun(ws, es) && s < n < |ws| && StartsAt(es, s, t, call) && SameCall(es, s, n, t)
    ensures Calls(ThreadOf(ws[n], t), call)
    decreases n
  {
    assert Step(ws[n - 1], es[n - 1], ws[n]);
    if n > s + 1 {
      StaysInCall(ws, es, s, n - 1, t, call);
      CallGoesOn(ws[n - 1], es[n - 1], ws[n], t, call);
    }
  }

  lemma CallGoesOn(w: World, e: Event, w': World, t: nat, call: Call)
    requires Step(w, e, w') && Calls(ThreadOf(w, t), call) && !(e.StartCall? && e.thread == t)
    ensures Calls(ThreadOf(w', t), call)
  {
  }

  lemma {:induction false} OnlyWaitersSleep(ws: seq<World>, es: seq<Event>, n: nat)
    requires IsRun(ws, es) && n < |ws|
    ensures SleepersWait(ws[n])
  {
    if n > 0 {
      OnlyWaitersSleep(ws, es, n - 1);
      SleepersWaitStep(ws[n - 1], es[n - 1], ws[n]);
    }
  }

  /** A thread inside waitpid with WNOHANG never sleeps: until it has returned it has a step of its
      own that it can take, whatever the portal and the other threads do. */
  lemma PollNeverSleeps(ws: seq<World>, es: seq<Event>, s: nat, n: nat, t: nat, pid: int32) returns (e: Event)
    requires IsRun(ws, es) && pid > 0 && PollsSince(ws, es, s, n, t, pid)
    ensures !ThreadOf(ws[n], t).Asleep?
    ensures !ThreadOf(ws[n], t).Returned? ==> Enabled(ws[n], e) && PortalAllows(ws[n], e) && MovesThread(e, t)
  {
    var call := WaitpidCall(pid, true).value;
    StaysInCall(ws, es, s, n, t, call);
    OnlyWaitersSleep(ws, es, n);
    assert ThreadOf(ws[n], t).Asleep? ==> SleepsOn(ws[n], t, call);
    InvAlways(ws, es, n);
    e := NextOwnStep(ws[n], t);
  }

  /** The steps in which a thread goes on with its call. */
  predicate MovesThread(e: Event, t: nat) {
    (e.Enter? || e.ClientNotify? || e.FinishReap?) && e.thread == t
  }

  /** Only sleep stops a call: everywhere else its thread can go on. */
  lemma NextOwnStep(w: World, t: nat) returns (e: Event)
    requires Inv(w)
    ensures var thread := ThreadOf(w, t);
      !thread.Idle? && !thread.Returned? && !thread.Asleep? ==>
        Enabled(w, e) && PortalAllows(w, e) && MovesThread(e, t)
  {
    var thread := ThreadOf(w, t);
    e := BusNotify;
    match thread {
      case Entering(call) =>
        var k: nat := 0;
        if Takes(w.tables, call) {
          k :| LiveAs(w.procs, k, call.stub);
        }
        e := Enter(t, k);
      case Notifying(_, _) =>
        e := ClientNotify(t);
      case Reaping(_, _, _) =>
        assert HeldSound(w.procs, t, HeldBy(w.threads[t]).value);
        assert w.procs[thread.spawn].Ordered();
        e := FinishReap(t);
      case _ =>
    }
  }

  /** When it looks and finds a live child not reported dead, it will return zero, and nothing else. */
  lemma PollReturnsZero(ws: seq<World>, es: seq<Event>, s: nat, i: nat, n: nat, t: nat, pid: int32, k: nat)
    requires IsRun(ws, es) && pid > 0 && PollsSince(ws, es, s, n, t, pid) && s < i < n
    requires es[i].Enter? && es[i].thread == t
    requires LiveAs(ws[i].procs, k, pid) && !ws[i].procs[k].reported
    ensures OutcomeOf(ThreadOf(ws[n], t)).Some?
    ensures WaitpidResult(true, OutcomeOf(ThreadOf(ws[n], t)).value) == ReturnsZero
  {
    var call := WaitpidCall(pid, true).value;
    StaysInCall(ws, es, s, i, t, call);
    InvAlways(ws, es, i);
    assert Step(ws[i], es[i], ws[i + 1]);
    assert Answers(ws[i].procs, call, NotYet);
    MapsAnswerAlike(ws[i].tables, ws[i].procs, call, es[i].spawn, NotYet);
    assert ThreadOf(ws[i + 1], t) == Continue(ws[i].procs, call, NotYet);
    SettledStays(ws, es, i + 1, n, t);
  }

  /** A settled outcome is the one that is returned. */
  lemma {:induction false} SettledStays(ws: seq<World>, es: seq<Event>, i: nat, n: nat, t: nat)
    requires IsRun(ws, es) && 0 < i <= n < |ws| && SameCall(es, i - 1, n, t)
    requires OutcomeOf(ThreadOf(ws[i], t)).Some?
    ensures OutcomeOf(ThreadOf(ws[n], t)) == OutcomeOf(ThreadOf(ws[i], t))
    decreases n
  {
    if i < n {
      SettledStays(ws, es, i, n - 1, t);
      assert Step(ws[n - 1], es[n - 1], ws[n]);
      SettledStep(ws[n - 1], es[n - 1], ws[n], t);
    }
  }

  lemma SettledStep(w: World, e: Event, w': World, t: nat)
    requires Step(w, e, w') && OutcomeOf(ThreadOf(w, t)).Some? && !(e.StartCall? && e.thread == t)
    ensures OutcomeOf(ThreadOf(w', t)) == OutcomeOf(ThreadOf(w, t))
  {
  }

  /** Without WNOHANG a thread that finds such a child sleeps instead. */
  lemma WaitSleeps(ws: seq<World>, es: seq<Event>, s: nat, i: nat, t: nat, pid: int32, k: nat)
    requires IsRun(ws, es) && pid > 0 && s < i < |es|
    requires StartsAt(es, s, t, WaitpidCall(pid, false).value) && SameCall(es, s, i, t)
    requires es[i].Enter? && es[i].thread == t
    requires LiveAs(ws[i].procs, k, pid) && !ws[i].procs[k].reported
    ensures ThreadOf(ws[i + 1], t).Asleep?
  {
    var call := WaitpidCall(pid, false).value;
    StaysInCall(ws, es, s, i, t, call);
    InvAlways(ws, es, i);
    assert Step(ws[i], es[i], ws[i + 1]);
    assert Answers(ws[i].procs, call, NotYet);
    MapsAnswerAlike(ws[i].tables, ws[i].procs, call, es[i].spawn, NotYet);
  }

  /** The supervisor is asked about exactly the pids that name one process, and about that one. */
  lemma GroupsArePassedOn(pid: int32, nohang: bool)
    ensures WaitpidCall(pid, nohang).Some? <==> pid > 0
    ensures WaitpidCall(pid, nohang).Some? ==> WaitpidCall(pid, nohang).value.stub == pid
  {
  }

  /** FindInternalPidBlocking answers with a pid only if SpawnStarted named it for that very stub. */
  lemma InternalPidIsOwn(ws: seq<World>, es: seq<Event>, n: nat, t: nat)
    requires IsRun(ws, es) && n < |ws|
    requires ThreadOf(ws[n], t).Returned? && ThreadOf(ws[n], t).call.FindInternalPid?
    ensures
      var answer := ThreadOf(ws[n], t).outcome;
      && !answer.TryLater?
      && (answer.Ok? ==> exists k: nat :: StartedAs(ws[n], k, ThreadOf(ws[n], t).call.stub, answer.value))
  {
    AnswersAlwaysSound(ws, es, n);
  }
}
