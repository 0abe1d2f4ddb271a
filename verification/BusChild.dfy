/** The child's side of a fork (src/preload/host/spawn_strategy/bus_safe_fork.cc). sd-event refuses to
    touch a loop that another process created, so in the child nothing can be added, triggered or
    disabled (src/base/evloop.cc, src/dbus/internal/bus_thread.cc). */
module BusChild {
  import opened EvLoopState
  import opened BusThread
  import opened BusShutdown

  /** The forked process: a copy with only the thread that forked, which has left the override and
      with it released the override's lock. */
  function ChildOf(w: World): World {
    w.(forkLock := Nobody, clients := map[])
  }

  /** `Aborted` names the step whose assertion failed. */
  datatype Process = Alive(world: World) | Aborted(failed: Event)

  predicate CanStep(p: Process, e: Event) {
    p.Alive? && Enabled(p.world, e)
  }

  /** The child's steps. A refused add makes SendCall's assertion fail and AddMatch return with nothing
      done; a refused trigger or disable always fails an assertion. */
  function ChildDo(p: Process, e: Event): Process
    requires CanStep(p, e)
  {
    match e
    case OfClient(t, AddTask(_)) =>
      if ClientOf(p.world, t) == TaskHolds(AddMatch) then Alive(At(p.world, t, Outside).(evLock := Nobody))
      else Aborted(e)
    case OfClient(_, WakeRequest) => Aborted(e)
    case OfClient(_, ArmShutdown) => Aborted(e)
    case OfClient(_, DisableIo(_)) => Aborted(e)
    case _ => Alive(Do(p.world, e))
  }

  predicate ChildStep(p: Process, e: Event, p': Process) {
    CanStep(p, e) && p' == ChildDo(p, e)
  }

  /** Any continuation of p: processes ps[0] == p, ps[1], ... linked by the events es. */
  ghost predicate Goes(p: Process, ps: seq<Process>, es: seq<Event>) {
    && |ps| == |es| + 1
    && ps[0] == p
    && (forall i | 0 <= i < |es| :: ChildStep(ps[i], es[i], ps[i + 1]))
  }

  ghost predicate ChildRun(w: World, ps: seq<Process>, es: seq<Event>) {
    Goes(Alive(ChildOf(w)), ps, es)
  }

  // ---------------------------------------------------------------- what the child keeps

  /** Where a thread of the child can be: submitting, or forking without a bus thread to stop. */
  predicate InChild(c: Client) {
    c.Outside? || c.TaskWants? || c.TaskHolds? || c.ForkWants? || c.ForkHolds? || c.Bare?
  }

  /** The loop's lock: as at the fork if another thread held it then, otherwise with its holder. */
  predicate LockKept(w: World, x: World, t: nat) {
    if w.evLock != Nobody then x.evLock == w.evLock && !ClientOf(x, t).TaskHolds?
    else ClientOf(x, t).TaskHolds? <==> x.evLock == Thread(t)
  }

  ghost predicate ChildSound(w: World, x: World) {
    && x.pc == Absent
    && x.loop == w.loop && x.submitted == w.submitted && x.executed == w.executed
    && (w.evLock == Nobody ==> x.evLock != Bus)
    && (forall t: nat :: InChild(ClientOf(x, t)) && LockKept(w, x, t))
  }

  lemma OthersStayInFork(x: World, t: nat, f: ForkStep, u: nat)
    requires u != t
    ensures ClientOf(DoFork(x, t, f), u) == ClientOf(x, u)
  {
  }

  lemma OthersStayInClient(x: World, t: nat, c: ClientStep, u: nat)
    requires u != t
    ensures ClientOf(DoClient(x, t, c), u) == ClientOf(x, u)
  {
  }

  /** A step moves only the thread that takes it. */
  lemma OthersStay(x: World, e: Event, x': World, u: nat)
    requires ChildStep(Alive(x), e, Alive(x')) && (e.OfBus? || u != e.t)
    ensures ClientOf(x', u) == ClientOf(x, u)
  {
    match e
    case OfBus(b) => assert DoBus(x, b).clients == x.clients;
    case OfClient(t, c) => OthersStayInClient(x, t, c, u);
    case OfFork(t, f) => OthersStayInFork(x, t, f, u);
  }

  lemma ChildSoundThreads(w: World, x: World, e: Event, x': World, u: nat)
    requires ChildSound(w, x) && ChildStep(Alive(x), e, Alive(x'))
    ensures InChild(ClientOf(x', u)) && LockKept(w, x', u)
  {
    assert InChild(ClientOf(x, u)) && LockKept(w, x, u);
    if e.OfBus? || u != e.t {
      OthersStay(x, e, x', u);
    }
    if !e.OfBus? {
      assert InChild(ClientOf(x, e.t)) && LockKept(w, x, e.t);
    }
  }

  lemma ChildSoundStep(w: World, x: World, e: Event, x': World)
    requires ChildSound(w, x) && ChildStep(Alive(x), e, Alive(x'))
    ensures ChildSound(w, x')
    ensures e.OfFork? ==> !e.fork.RealFork? && !e.fork.Join? && !e.fork.Start?
  {
    if !e.OfBus? {
      assert InChild(ClientOf(x, e.t)) && LockKept(w, x, e.t);
    }
    forall u: nat ensures InChild(ClientOf(x', u)) && LockKept(w, x', u) {
      ChildSoundThreads(w, x, e, x', u);
    }
  }

  lemma {:induction false} ChildSoundAlways(w: World, ps: seq<Process>, es: seq<Event>, n: nat)
    requires w.pc == Absent && ChildRun(w, ps, es) && n < |ps| && ps[n].Alive?
    ensures ChildSound(w, ps[n].world)
  {
    if n > 0 {
      assert ChildStep(ps[n - 1], es[n - 1], ps[n]);
      ChildSoundAlways(w, ps, es, n - 1);
      ChildSoundStep(w, ps[n - 1].world, es[n - 1], ps[n].world);
    }
  }

  /** The child never has a bus thread: nothing is executed there, and when it forks again it has
      nothing to pause. */
  lemma ChildHasNoBus(w: World, ps: seq<Process>, es: seq<Event>, n: nat)
    requires w.pc == Absent && ChildRun(w, ps, es) && n < |ps| && ps[n].Alive?
    ensures ps[n].world.pc == Absent && ps[n].world.executed == w.executed
    ensures n < |es| && es[n].OfFork? ==> !es[n].fork.RealFork? && !es[n].fork.Join? && !es[n].fork.Start?
  {
    ChildSoundAlways(w, ps, es, n);
    if n < |es| && es[n].OfFork? {
      assert ChildStep(ps[n], es[n], ps[n + 1]);
      ChildSoundStep(w, ps[n].world, es[n], ps[n + 1].world);
    }
  }

  /** The child never submits anything: its loop stays what it was at the fork. */
  lemma ChildNeverSubmits(w: World, ps: seq<Process>, es: seq<Event>, n: nat)
    requires w.pc == Absent && ChildRun(w, ps, es) && n < |ps| && ps[n].Alive?
    ensures ps[n].world.submitted == w.submitted && ps[n].world.loop == w.loop
  {
    ChildSoundAlways(w, ps, es, n);
  }

  /** A trigger or a disable in the child always fails an assertion, and no other step but an add does. */
  lemma TouchingTheLoopAborts(x: World, e: Event, p': Process)
    requires ChildStep(Alive(x), e, p')
    ensures e.OfClient? && (e.client.WakeRequest? || e.client.ArmShutdown? || e.client.DisableIo?) ==> p' == Aborted(e)
    ensures p'.Aborted? ==>
              p'.failed == e && e.OfClient? &&
              (e.client.WakeRequest? || e.client.ArmShutdown? || e.client.DisableIo? || e.client.AddTask?)
  {
  }

  /** Nobody in the child ever releases a loop lock that another thread held at the fork. */
  lemma ChildLockStaysHeld(w: World, ps: seq<Process>, es: seq<Event>, n: nat)
    requires w.pc == Absent && w.evLock != Nobody && ChildRun(w, ps, es) && n < |ps| && ps[n].Alive?
    ensures ps[n].world.evLock == w.evLock && forall t: nat :: !HoldsEvLock(ClientOf(ps[n].world, t))
  {
    ChildSoundAlways(w, ps, es, n);
    assert LockKept(w, ps[n].world, 0);
    forall t: nat ensures !HoldsEvLock(ClientOf(ps[n].world, t)) {
      assert InChild(ClientOf(ps[n].world, t)) && LockKept(w, ps[n].world, t);
    }
  }

  /** The child can fork again: the override's lock is free, and it has nothing to pause. */
  lemma ChildForksAgain(w: World, t: nat) returns (ps: seq<Process>, es: seq<Event>)
    requires w.pc == Absent
    ensures ChildRun(w, ps, es)
    ensures es == [OfFork(t, CallFork), OfFork(t, TakeForkLock), OfFork(t, TestRunning), OfFork(t, BareFork)]
    ensures ps[4] == Alive(At(ChildOf(w), t, Outside))
  {
    es := [OfFork(t, CallFork), OfFork(t, TakeForkLock), OfFork(t, TestRunning), OfFork(t, BareFork)];
    var p0 := Alive(ChildOf(w));
    var p1 := ChildDo(p0, es[0]);
    var p2 := ChildDo(p1, es[1]);
    var p3 := ChildDo(p2, es[2]);
    var p4 := ChildDo(p3, es[3]);
    ps := [p0, p1, p2, p3, p4];
    assert p4.world.clients == At(ChildOf(w), t, Outside).clients;
  }

  // ---------------------------------------------------------------- a call of SendCall in the child

  predicate IsAdd(e: Event) {
    e.OfClient? && e.client.AddTask?
  }

  /** Thread t still waits for the lock, or the process ended for another reason than a refused add. */
  predicate StillWaits(p: Process, t: nat) {
    if p.Alive? then ClientOf(p.world, t) == TaskWants(SendCall) else !IsAdd(p.failed)
  }

  ghost predicate BlocksForever(p: Process, t: nat) {
    forall ps, es | Goes(p, ps, es) :: StillWaits(ps[|es|], t)
  }

  predicate AddAborted(p: Process) {
    p.Aborted? && IsAdd(p.failed)
  }

  ghost predicate AddCanAbort(p: Process) {
    exists ps, es :: Goes(p, ps, es) && AddAborted(ps[|es|])
  }

  ghost predicate NeverReturns(p: Process, t: nat) {
    forall ps: seq<Process>, es: seq<Event> | Goes(p, ps, es) && ps[|es|].Alive? :: InSendCall(ClientOf(ps[|es|].world, t))
  }

  predicate InSendCall(c: Client) {
    c == TaskWants(SendCall) || c == TaskHolds(SendCall)
  }

  lemma InSendCallStep(x: World, e: Event, x': World, t: nat)
    requires ChildStep(Alive(x), e, Alive(x')) && InSendCall(ClientOf(x, t))
    ensures InSendCall(ClientOf(x', t))
    ensures x.evLock != Nobody && ClientOf(x, t).TaskWants? ==> ClientOf(x', t).TaskWants?
  {
    if e.OfBus? || t != e.t {
      OthersStay(x, e, x', t);
    } else {
      assert e == OfClient(t, TakeEvLock);
    }
  }

  lemma {:induction false} SendCallNeverReturns(p: Process, ps: seq<Process>, es: seq<Event>, n: nat, t: nat)
    requires p.Alive? && InSendCall(ClientOf(p.world, t))
    requires Goes(p, ps, es) && n < |ps| && ps[n].Alive?
    ensures InSendCall(ClientOf(ps[n].world, t))
  {
    if n > 0 {
      assert ChildStep(ps[n - 1], es[n - 1], ps[n]);
      SendCallNeverReturns(p, ps, es, n - 1, t);
      InSendCallStep(ps[n - 1].world, es[n - 1], ps[n].world, t);
    }
  }

  lemma NoAddWhileHeld(w: World, x: World, e: Event)
    requires w.evLock != Nobody && ChildSound(w, x) && Enabled(x, e)
    ensures x.evLock != Nobody && !IsAdd(e)
  {
    assert LockKept(w, x, if e.OfBus? then 0 else e.t);
  }

  /** With the lock held from before the fork, a waiting SendCall waits for good. */
  lemma {:induction false} WaitsWhileHeld(w: World, x: World, ps: seq<Process>, es: seq<Event>, n: nat, t: nat)
    requires w.evLock != Nobody && ChildSound(w, x) && ClientOf(x, t) == TaskWants(SendCall)
    requires Goes(Alive(x), ps, es) && n < |ps|
    ensures StillWaits(ps[n], t)
    ensures ps[n].Alive? ==> ChildSound(w, ps[n].world)
  {
    if n > 0 {
      assert ChildStep(ps[n - 1], es[n - 1], ps[n]);
      WaitsWhileHeld(w, x, ps, es, n - 1, t);
      var y, e := ps[n - 1].world, es[n - 1];
      NoAddWhileHeld(w, y, e);
      if ps[n].Alive? {
        ChildSoundStep(w, y, e, ps[n].world);
        InSendCallStep(y, e, ps[n].world, t);
      }
    }
  }

  /** One more step at the front of a continuation. */
  lemma GoesFirst(p: Process, e: Event, ps: seq<Process>, es: seq<Event>)
    requires CanStep(p, e) && Goes(ChildDo(p, e), ps, es)
    ensures Goes(p, [p] + ps, [e] + es)
  {
    var ps', es' := [p] + ps, [e] + es;
    forall i | 0 <= i < |es'| ensures ChildStep(ps'[i], es'[i], ps'[i + 1]) {
      if i > 0 {
        assert ChildStep(ps[i - 1], es[i - 1], ps[i]);
      }
    }
  }

  lemma AddAborts(x: World, t: nat) returns (ps: seq<Process>, es: seq<Event>)
    requires ClientOf(x, t) == TaskHolds(SendCall)
    ensures Goes(Alive(x), ps, es) && AddAborted(ps[|es|])
  {
    var id := FreshTask(x.submitted);
    var e := OfClient(t, AddTask(id));
    ps, es := [Alive(x), ChildDo(Alive(x), e)], [e];
  }

  lemma TakeThenAddAborts(x: World, t: nat) returns (ps: seq<Process>, es: seq<Event>)
    requires ClientOf(x, t) == TaskWants(SendCall) && x.evLock == Nobody
    ensures Goes(Alive(x), ps, es) && AddAborted(ps[|es|])
  {
    var e := OfClient(t, TakeEvLock);
    ps, es := AddAborts(Do(x, e), t);
    GoesFirst(Alive(x), e, ps, es);
    ps, es := [Alive(x)] + ps, [e] + es;
  }

  /** A waiting SendCall gets the lock and aborts the child, unless another one does so before it. */
  lemma WaitingSendCallAborts(w: World, x: World, t: nat) returns (ps: seq<Process>, es: seq<Event>)
    requires w.evLock == Nobody && ChildSound(w, x) && ClientOf(x, t) == TaskWants(SendCall)
    ensures Goes(Alive(x), ps, es) && AddAborted(ps[|es|])
  {
    if x.evLock == Nobody {
      ps, es := TakeThenAddAborts(x, t);
    } else {
      var u := x.evLock.t;
      assert LockKept(w, x, u) && LockKept(w, x, t);
      var call := ClientOf(x, u).call;
      if call == SendCall {
        ps, es := AddAborts(x, u);
      } else {
        assert call == AddMatch;
        var id := FreshTask(x.submitted);
        var e := OfClient(u, AddTask(id));
        ps, es := TakeThenAddAborts(ChildDo(Alive(x), e).world, t);
        GoesFirst(Alive(x), e, ps, es);
        ps, es := [Alive(x)] + ps, [e] + es;
      }
    }
  }

  /** A SendCall in the child never returns. It waits for the lock forever if and only if another
      thread of the parent held it at the fork; a refused add aborts the child if and only if not. */
  lemma SendCallInChild(w: World, ps: seq<Process>, es: seq<Event>, n: nat, t: nat)
    requires w.pc == Absent && ChildRun(w, ps, es) && n < |ps| && ps[n].Alive?
    requires ClientOf(ps[n].world, t) == TaskWants(SendCall)
    ensures NeverReturns(ps[n], t)
    ensures BlocksForever(ps[n], t) <==> w.evLock != Nobody
    ensures AddCanAbort(ps[n]) <==> w.evLock == Nobody
  {
    ChildSoundAlways(w, ps, es, n);
    var p := ps[n];
    forall qs: seq<Process>, fs: seq<Event> | Goes(p, qs, fs) && qs[|fs|].Alive? ensures InSendCall(ClientOf(qs[|fs|].world, t)) {
      SendCallNeverReturns(p, qs, fs, |fs|, t);
    }
    if w.evLock == Nobody {
      var qs, fs := WaitingSendCallAborts(w, p.world, t);
      assert !StillWaits(qs[|fs|], t);
    } else {
      forall qs, fs | Goes(p, qs, fs) ensures StillWaits(qs[|fs|], t) {
        WaitsWhileHeld(w, p.world, qs, fs, |fs|, t);
      }
    }
  }

  /** AddMatch does return when it gets the lock, but the task is gone. */
  lemma AddMatchLosesTask(w: World) returns (ps: seq<Process>, es: seq<Event>, id: nat)
    requires w.pc == Absent && w.evLock == Nobody
    ensures ChildRun(w, ps, es)
    ensures es == [OfClient(0, Submit(AddMatch)), OfClient(0, TakeEvLock), OfClient(0, AddTask(id))]
    ensures ps[3].Alive? && ClientOf(ps[3].world, 0) == Outside
    ensures ps[3].world.submitted == w.submitted && ps[3].world.loop == w.loop
  {
    id := FreshTask(w.submitted);
    es := [OfClient(0, Submit(AddMatch)), OfClient(0, TakeEvLock), OfClient(0, AddTask(id))];
    var p0 := Alive(ChildOf(w));
    var p1 := ChildDo(p0, es[0]);
    var p2 := ChildDo(p1, es[1]);
    var p3 := ChildDo(p2, es[2]);
    ps := [p0, p1, p2, p3];
  }

  // ---------------------------------------------------------------- both kinds of fork happen

  const RUNNING := World(Loop([], 0, Initial), Top, false, Nobody, Nobody, map[], [], [])

  /** Thread 0 calls fork with the bus running. */
  lemma PausingRun() returns (ws: seq<World>, es: seq<Event>)
    ensures IsRun(ws, es)
    ensures ws[|es|] == RUNNING.(evLock := Thread(0), forkLock := Thread(0), clients := map[0 := PauseHolds])
  {
    ws, es := [RUNNING], [];
    ws, es := Extend(ws, es, OfFork(0, CallFork));
    ws, es := Extend(ws, es, OfFork(0, TakeForkLock));
    ws, es := Extend(ws, es, OfFork(0, TestRunning));
    ws, es := Extend(ws, es, OfClient(0, TakeEvLock));
  }

  /** It arms the shutdown trigger. */
  lemma ArmedRun() returns (ws: seq<World>, es: seq<Event>)
    ensures IsRun(ws, es)
    ensures ws[|es|] == RUNNING.(loop := Loop([Shutdown], 1, Initial), forkLock := Thread(0), clients := map[0 := Joining])
  {
    ws, es := PausingRun();
    ws, es := Extend(ws, es, OfClient(0, ArmShutdown));
    ws, es := Extend(ws, es, OfClient(0, WriteFd));
    ws, es := Extend(ws, es, OfClient(0, DropEvLock));
  }

  /** The bus thread dispatches it and returns. */
  lemma ExitedRun() returns (ws: seq<World>, es: seq<Event>)
    ensures IsRun(ws, es)
    ensures ws[|es|] == RUNNING.(pc := Exited, shutdownFlag := true, forkLock := Thread(0), clients := map[0 := Joining])
  {
    ws, es := ArmedRun();
    ws, es := Extend(ws, es, OfBus(TestFlag));
    ws, es := Extend(ws, es, OfBus(PrepareWait([])));
    ws, es := Extend(ws, es, OfBus(ClearFd));
    ws, es := Extend(ws, es, OfBus(TakeLock));
    ws, es := Extend(ws, es, OfBus(DispatchOne([])));
    ws, es := Extend(ws, es, OfBus(Done));
    ws, es := Extend(ws, es, OfBus(TestFlag));
  }

  /** A fork with the loop's lock free, and one in the middle of another thread's SendCall. */
  lemma ForkRun(submitting: bool) returns (ws: seq<World>, es: seq<Event>)
    ensures IsRun(ws, es) && es != [] && es[|es| - 1] == OfFork(0, RealFork)
    ensures ws[|es|].pc == Absent
    ensures ws[|es|].evLock == if submitting then Thread(1) else Nobody
  {
    ws, es := ExitedRun();
    if submitting {
      ws, es := Extend(ws, es, OfClient(1, Submit(SendCall)));
      ws, es := Extend(ws, es, OfClient(1, TakeEvLock));
    }
    ws, es := Extend(ws, es, OfFork(0, Join));
    ws, es := Extend(ws, es, OfFork(0, RealFork));
  }

  /** So a child's SendCall can block forever, and it can abort the child. */
  lemma SendCallBlocksOrAborts(submitting: bool) returns (ws: seq<World>, es: seq<Event>, ps: seq<Process>, fs: seq<Event>)
    ensures IsRun(ws, es) && es != [] && es[|es| - 1] == OfFork(0, RealFork)
    ensures ChildRun(ws[|es|], ps, fs) && fs == [OfClient(0, Submit(SendCall))]
    ensures if submitting then BlocksForever(ps[1], 0) else AddCanAbort(ps[1])
  {
    ws, es := ForkRun(submitting);
    var e := OfClient(0, Submit(SendCall));
    var p := Alive(ChildOf(ws[|es|]));
    ps, fs := [p, ChildDo(p, e)], [e];
    SendCallInChild(ws[|es|], ps, fs, 1, 0);
  }
}
