/** Wakeups of the threads that sleep in `NotifyingGuardedValue::AcquireWhen`
    (src/base/guarded_value.h). A guard releases the mutex first and notifies afterwards. */
module SupervisorWakeup {
  import opened Basics
  import opened SupervisorState
  import opened SupervisorProtocol

  /** Some thread has released the mutex and is about to notify all sleepers. */
  ghost predicate NotifyPending(w: World) {
    w.busNotifying || exists t :: t in w.threads && w.threads[t].Notifying?
  }

  predicate SleepsOn(w: World, t: nat, call: Call) {
    t in w.threads && w.threads[t] == Asleep(call)
  }

  /** No thread sleeps while its predicate holds, unless a notify-all is still to come. */
  ghost predicate NoLostWakeup(w: World) {
    forall t, call | SleepsOn(w, t, call) && WakePredicate(w.tables, call) :: NotifyPending(w)
  }

  /** The two steps that change the map without notifying while someone sleeps on that entry:
      the erase after a failed Spawn, and WaitForExitStatus taking the record of a child whose
      internal pid never became known. */
  ghost predicate Hazard(w: World, e: Event)
    requires Enabled(w, e) && PortalAllows(w, e)
  {
    && !NotifyPending(w)
    && match e
       case Reply(k, InvocationError) =>
         w.procs[k].stub in w.tables.stubs
         && exists t, call :: SleepsOn(w, t, call) && call.stub == w.procs[k].stub
       case Enter(t, k) =>
         var call := ThreadOf(w, t).call;
         call.WaitForExitStatus? && Takes(w.tables, call)
         && w.tables.stubs[call.stub].internal == NO_PID
         && exists u :: SleepsOn(w, u, FindInternalPid(call.stub))
       case _ => false
  }

  /** GetExitStatus never waits. */
  ghost predicate SleepersWait(w: World) {
    forall t, call | SleepsOn(w, t, call) :: !call.GetExitStatus?
  }

  lemma SleepersWaitStep(w: World, e: Event, w': World)
    requires SleepersWait(w) && Step(w, e, w')
    ensures SleepersWait(w')
  {
    forall t, call | SleepsOn(w', t, call) ensures !call.GetExitStatus? {
      assert SleepsOn(w, t, call) || !call.GetExitStatus?;
    }
  }

  lemma NoSleepersAfterNotify(w: World, e: Event, w': World)
    requires Step(w, e, w') && (e.BusNotify? || e.ClientNotify?)
    ensures forall t, call :: !SleepsOn(w', t, call)
  {
  }

  /** A step that notifies nobody keeps every pending notification pending. */
  lemma PendingKept(w: World, e: Event, w': World)
    requires Step(w, e, w') && !e.BusNotify? && !e.ClientNotify? && NotifyPending(w)
    ensures NotifyPending(w')
  {
    if !w.busNotifying {
      var t :| t in w.threads && w.threads[t].Notifying?;
      assert t in w'.threads && w'.threads[t].Notifying?;
    }
  }

  /** Whoever sleeps after a step with its predicate true already did so before, was overtaken by
      a hazard, or has a notification coming. */
  lemma SleeperExplained(w: World, e: Event, w': World, t: nat, call: Call)
    requires Inv(w) && SleepersWait(w) && NoLostWakeup(w) && Step(w, e, w') && !Hazard(w, e)
    requires SleepsOn(w', t, call) && WakePredicate(w'.tables, call)
    ensures NotifyPending(w')
  {
    if e.BusNotify? || e.ClientNotify? {
      NoSleepersAfterNotify(w, e, w');
    } else if NotifyPending(w) {
      PendingKept(w, e, w');
    } else if e.Enter? {
      var entered := ThreadOf(w, e.thread).call;
      if entered.GetExitStatus? {
        assert w'.threads[e.thread].Notifying?;
      } else {
        assert SleepsOn(w, t, call);
      }
    } else {
      assert SleepsOn(w, t, call);
    }
  }

  /** A hazard leaves a sleeper whose predicate holds and nobody to wake it. */
  lemma HazardLosesWakeup(w: World, e: Event, w': World)
    requires SleepersWait(w) && Step(w, e, w') && Hazard(w, e)
    ensures !NoLostWakeup(w')
  {
    assert !NotifyPending(w');
    if e.Reply? {
      var t, call :| SleepsOn(w, t, call) && call.stub == w.procs[e.spawn].stub;
      assert SleepsOn(w', t, call) && WakePredicate(w'.tables, call);
    } else {
      var call := ThreadOf(w, e.thread).call;
      var u :| SleepsOn(w, u, FindInternalPid(call.stub));
      assert SleepsOn(w', u, FindInternalPid(call.stub));
      assert WakePredicate(w'.tables, FindInternalPid(call.stub));
    }
  }

  /** One step keeps the property exactly when it is not one of the two hazards. */
  lemma WakeupKeptIff(w: World, e: Event, w': World)
    requires Inv(w) && SleepersWait(w) && NoLostWakeup(w) && Step(w, e, w')
    ensures NoLostWakeup(w') <==> !Hazard(w, e)
  {
    if Hazard(w, e) {
      HazardLosesWakeup(w, e, w');
    } else {
      forall t, call | SleepsOn(w', t, call) && WakePredicate(w'.tables, call) ensures NotifyPending(w') {
        SleeperExplained(w, e, w', t, call);
      }
    }
  }

  // ---------------------------------------------------------------- whole runs

  /** The portal names a real internal pid when a child starts. */
  predicate NamesInternal(e: Event) {
    e.Started? ==> ToInt32(e.internal) != NO_PID
  }

  ghost predicate InternalsNamed(procs: seq<Spawn>) {
    forall k | 0 <= k < |procs| :: procs[k].started.Some? ==> ToInt32(procs[k].started.value) != NO_PID
  }

  /** Because started precedes exited, a dead child's internal pid is known. */
  lemma DeadChildHasInternal(w: World, k: nat, stub: int32)
    requires Inv(w) && InternalsNamed(w.procs)
    requires LiveAs(w.procs, k, stub) && ProbeExit(w.tables, stub).Dead?
    ensures w.tables.stubs[stub].internal != NO_PID
  {
    assert w.procs[k].Ordered();
  }

  /** In every run whose Spawn calls all succeed, no wakeup is ever lost: not those of exit
      waiters, not those of internal-pid waiters. */
  lemma {:induction false} NoWakeupEverLost(ws: seq<World>, es: seq<Event>, n: nat)
    requires IsRun(ws, es) && n < |ws|
    requires forall i | 0 <= i < |es| :: NamesInternal(es[i])
    requires forall i | 0 <= i < n :: es[i].Reply? ==> es[i].reply.Spawned?
    ensures InternalsNamed(ws[n].procs) && SleepersWait(ws[n]) && NoLostWakeup(ws[n])
  {
    if n > 0 {
      NoWakeupEverLost(ws, es, n - 1);
      InvAlways(ws, es, n - 1);
      assert Step(ws[n - 1], es[n - 1], ws[n]);
      assert NamesInternal(es[n - 1]);
      SleepersWaitStep(ws[n - 1], es[n - 1], ws[n]);
      WakeupKeptIff(ws[n - 1], es[n - 1], ws[n]);
      if es[n - 1].Enter? && Takes(ws[n - 1].tables, ThreadOf(ws[n - 1], es[n - 1].thread).call) {
        DeadChildHasInternal(ws[n - 1], es[n - 1].spawn, ThreadOf(ws[n - 1], es[n - 1].thread).call.stub);
      }
    }
  }

  ghost predicate HazardAt(ws: seq<World>, es: seq<Event>, i: nat)
    requires i < |es| < |ws|
  {
    Enabled(ws[i], es[i]) && PortalAllows(ws[i], es[i]) && Hazard(ws[i], es[i])
  }

  lemma {:induction false} WakeupsUntil(ws: seq<World>, es: seq<Event>, n: nat)
    requires IsRun(ws, es) && n < |ws|
    ensures SleepersWait(ws[n])
    ensures (forall i | 0 <= i <= n :: NoLostWakeup(ws[i])) <==> (forall i | 0 <= i < n :: !HazardAt(ws, es, i))
  {
    if n > 0 {
      WakeupsUntil(ws, es, n - 1);
      InvAlways(ws, es, n - 1);
      assert Step(ws[n - 1], es[n - 1], ws[n]);
      SleepersWaitStep(ws[n - 1], es[n - 1], ws[n]);
      if NoLostWakeup(ws[n - 1]) {
        WakeupKeptIff(ws[n - 1], es[n - 1], ws[n]);
        assert HazardAt(ws, es, n - 1) <==> !NoLostWakeup(ws[n]);
      }
    }
  }

  /** For every run, failed Spawn calls included: no wakeup is lost anywhere in it if and only if no
      step of it is a hazard. */
  lemma NoWakeupLostIff(ws: seq<World>, es: seq<Event>)
    requires IsRun(ws, es)
    ensures (forall n | 0 <= n < |ws| :: NoLostWakeup(ws[n])) <==> (forall i | 0 <= i < |es| :: !HazardAt(ws, es, i))
  {
    WakeupsUntil(ws, es, |es|);
  }

  // ---------------------------------------------------------------- both hazards are reachable

  /** A failed Spawn can strand a waiter: the run below ends with thread 0 asleep on an entry that
      no longer exists, and no notification on the way. */
  lemma FailedSpawnStrandsWaiter() returns (ws: seq<World>, es: seq<Event>)
    ensures IsRun(ws, es)
    ensures es == [Request(7, true), StartCall(0, WaitForExitStatus(7)), Enter(0, 0), Reply(0, InvocationError)]
    ensures !NoLostWakeup(ws[|es|])
  {
    ws, es := [INITIAL], [];
    ws, es := Extend(ws, es, Request(7, true));
    ws, es := Extend(ws, es, StartCall(0, WaitForExitStatus(7)));
    assert ProbeExit(ws[|es|].tables, 7).StillRunning?;
    ws, es := Extend(ws, es, Enter(0, 0));
    ws, es := Extend(ws, es, Reply(0, InvocationError));
    assert SleepsOn(ws[|es|], 0, WaitForExitStatus(7));
    assert WakePredicate(ws[|es|].tables, WaitForExitStatus(7));
  }

  ghost predicate SpawnsSucceed(es: seq<Event>) {
    forall i | 0 <= i < |es| :: es[i].Reply? ==> es[i].reply.Spawned?
  }

  const NAMELESS: uint32 := 0xFFFF_FFFF

  /** The second hazard takes a portal that names internal pid 0xFFFFFFFF, which reads as unknown. */
  lemma NamelessChild() returns (ws: seq<World>, es: seq<Event>)
    ensures IsRun(ws, es) && SpawnsSucceed(es)
    ensures ws[|es|] == World(Tables(map[7 := StubPidData(40, NO_PID, None, INVALID_FD)], map[40 := 7]), map[], false,
                              [Spawn(7, Some(40), Some(NAMELESS), None, false, Live)], [])
  {
    ws, es := [INITIAL], [];
    ws, es := Extend(ws, es, Request(7, true));
    ws, es := Extend(ws, es, Reply(0, Spawned(40)));
    ws, es := Extend(ws, es, Started(Some(0), 40, NAMELESS));
    ws, es := Extend(ws, es, BusNotify);
  }

  /** Thread 0 waits for that pid while the child dies. */
  lemma NamelessChildDies() returns (ws: seq<World>, es: seq<Event>)
    ensures IsRun(ws, es) && SpawnsSucceed(es)
    ensures ws[|es|] == World(Tables(map[7 := StubPidData(40, NO_PID, Some(0), INVALID_FD)], map[40 := 7]),
                              map[0 := Entering(FindInternalPid(7))], false,
                              [Spawn(7, Some(40), Some(NAMELESS), Some(0), true, Live)], [])
  {
    ws, es := NamelessChild();
    ws, es := Extend(ws, es, StartCall(0, FindInternalPid(7)));
    ws, es := Extend(ws, es, Exited(Some(0), 40, 0, true));
    ws, es := Extend(ws, es, BusNotify);
  }

  /** Thread 1 then takes the record from under thread 0. */
  lemma NamelessChildStrandsWaiter() returns (ws: seq<World>, es: seq<Event>)
    ensures IsRun(ws, es) && SpawnsSucceed(es)
    ensures !NoLostWakeup(ws[|es|])
  {
    ws, es := NamelessChildDies();
    ws, es := Extend(ws, es, Enter(0, 0));
    ws, es := Extend(ws, es, StartCall(1, WaitForExitStatus(7)));
    assert ProbeExit(ws[|es|].tables, 7).Dead?;
    ws, es := Extend(ws, es, Enter(1, 0));
    assert SleepsOn(ws[|es|], 0, FindInternalPid(7));
    assert WakePredicate(ws[|es|].tables, FindInternalPid(7));
  }
}
