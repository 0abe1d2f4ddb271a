/** Stopping and restarting the bus thread around a fork: what whole runs guarantee. */
module BusShutdown {
  import opened EvLoopState
  import opened BusThread

  // ---------------------------------------------------------------- fork bracketing

  /** A process is only ever forked with no bus thread alive, a bus thread is only started when
      there is none, and a caller leaves the override with the bus thread it stopped running. */
  lemma ForkIsBracketed(ws: seq<World>, es: seq<Event>, n: nat)
    requires IsRun(ws, es) && n < |es|
    ensures es[n].OfFork? && (es[n].fork.RealFork? || es[n].fork.BareFork? || es[n].fork.Start?) ==> ws[n].pc == Absent
    ensures es[n].OfFork? && es[n].fork.LeaveFork? ==> ws[n].pc != Absent && ws[n].pc != Exited && !ws[n].shutdownFlag
    ensures forall t: nat | ClientOf(ws[n], t).Joining? :: ws[n].pc != Absent
  {
    InvAlways(ws, es, n);
    var w := ws[n];
    assert Step(w, es[n], ws[n + 1]);
    forall t: nat ensures HoldsForkLock(ClientOf(w, t)) ==> Forker(w) == ClientOf(w, t) {
      assert HoldsForkLock(ClientOf(w, t)) <==> w.forkLock == Thread(t);
    }
  }

  /** The thread function returns only while a caller is waiting for it to; it then leaves the
      event loop ready for a restart, with the shutdown trigger disarmed. */
  lemma ExitsOnlyWhenAsked(ws: seq<World>, es: seq<Event>, n: nat)
    requires IsRun(ws, es) && n < |ws| && ws[n].pc == Exited
    ensures Forker(ws[n]).PauseArmed? || Forker(ws[n]).PauseNotified? || Forker(ws[n]).Joining?
    ensures ws[n].loop.sd == Initial && Shutdown !in ws[n].loop.queue
  {
    InvAlways(ws, es, n);
  }

  /** The eventfd counter never exceeds the number of events so far, so in a run shorter than its
      range no trigger fails to write. */
  lemma {:induction false} CounterBounded(ws: seq<World>, es: seq<Event>, n: nat)
    requires IsRun(ws, es) && n < |ws|
    ensures ws[n].loop.counter <= n
    ensures n < EVENTFD_MAX ==> ws[n].loop.counter < EVENTFD_MAX
  {
    if n > 0 {
      CounterBounded(ws, es, n - 1);
      assert Step(ws[n - 1], es[n - 1], ws[n]);
    }
  }

  // ---------------------------------------------------------------- exactly once

  lemma RepeatCounts(ids: seq<nat>, i: nat, j: nat)
    requires i < j < |ids| && ids[i] == ids[j]
    ensures multiset(ids)[ids[i]] >= 2
  {
    assert ids == ids[..j] + ids[j..];
    assert ids[..j][i] == ids[i] && ids[j..][0] == ids[i];
    assert ids[i] in multiset(ids[..j]) && ids[i] in multiset(ids[j..]);
  }

  lemma MultisetNoRepeats(ids: seq<nat>)
    requires forall x :: multiset(ids)[x] <= 1
    ensures NoRepeats(ids)
  {
    forall i, j | 0 <= i < j < |ids| ensures ids[i] != ids[j] {
      if ids[i] == ids[j] {
        RepeatCounts(ids, i, j);
      }
    }
  }

  lemma {:induction false} NoRepeatsMultiset(ids: seq<nat>, x: nat)
    requires NoRepeats(ids)
    ensures multiset(ids)[x] <= 1
  {
    if ids != [] {
      var rest := ids[..|ids| - 1];
      assert ids == rest + [ids[|ids| - 1]];
      NoRepeatsMultiset(rest, x);
      if ids[|ids| - 1] == x {
        assert x !in rest;
        assert x !in multiset(rest);
      }
    }
  }

  /** Across any number of pauses and restarts every submitted task is executed at most once, and
      one that was not executed is still enabled; nothing executes while the thread is joined. */
  lemma TasksRunExactlyOnce(ws: seq<World>, es: seq<Event>, n: nat)
    requires IsRun(ws, es) && n < |ws|
    ensures NoRepeats(ws[n].executed)
    ensures forall id | id in ws[n].submitted :: id in ws[n].executed <==> Task(id) !in ws[n].loop.queue
    ensures n < |es| && ws[n].pc == Absent ==> ws[n + 1].executed == ws[n].executed
  {
    InvAlways(ws, es, n);
    var w := ws[n];
    forall id ensures multiset(w.executed)[id] + TaskBag(w.loop.queue)[id] <= 1 {
      NoRepeatsMultiset(w.submitted, id);
      assert multiset(w.submitted)[id] == multiset(w.executed)[id] + TaskBag(w.loop.queue)[id];
    }
    MultisetNoRepeats(w.executed);
    forall id | id in w.submitted ensures id in w.executed <==> Task(id) !in w.loop.queue {
      TaskBagMember(w.loop.queue, id);
      assert id in multiset(w.submitted);
    }
    if n < |es| {
      assert Step(ws[n], es[n], ws[n + 1]);
    }
  }

  // ---------------------------------------------------------------- shutdown terminates

  /** How many sources are ahead of the shutdown trigger. */
  function Position(q: seq<Source>): nat
    requires Shutdown in q
  {
    if q[0] == Shutdown then 0 else 1 + Position(q[1..])
  }

  lemma {:induction false} PositionOfPrefix(q: seq<Source>, r: seq<Source>)
    requires Shutdown in q && q <= r
    ensures Position(r) == Position(q)
  {
    if q[0] != Shutdown {
      PositionOfPrefix(q[1..], r[1..]);
    }
  }

  lemma {:induction false} PositionWithout(q: seq<Source>, fd: int)
    requires Shutdown in q
    ensures Shutdown in Without(q, Io(fd)) && Position(Without(q, Io(fd))) <= Position(q)
  {
    if q[0] != Shutdown {
      PositionWithout(q[1..], fd);
    }
  }

  function Rank(pc: BusPc): nat {
    match pc
    case Handling => 8
    case Top => 7
    case Preparing => 6
    case Polling => 5
    case Clearing => 4
    case WantLock => 3
    case Dispatching => 2
    case _ => 0
  }

  /** Sources ahead of the shutdown trigger first, then the thread's control point. */
  function Measure(w: World): nat {
    if w.pc.Absent? || w.pc.Exited? then 0
    else if w.shutdownFlag then (if w.pc.Handling? then 2 else 1)
    else if Shutdown in w.loop.queue then 9 * Position(w.loop.queue) + Rank(w.pc) + 2
    else 0
  }

  /** The shutdown trigger is armed or has run, and the thread was not joined yet. */
  predicate Stopping(w: World) {
    w.pc != Absent && (w.shutdownFlag || Shutdown in w.loop.queue)
  }

  /** The bus thread moving on to its next control point. */
  predicate ControlStep(e: Event) {
    e.OfBus? && !e.bus.HandlerAddTask? && !e.bus.HandlerWake?
  }

  predicate Joins(e: Event) {
    e.OfFork? && e.fork.Join?
  }

  /** Every step of the thread brings the exit nearer. */
  lemma ControlStepDescends(w: World, e: Event)
    requires Inv(w) && Stopping(w) && Enabled(w, e) && ControlStep(e)
    ensures Stopping(Do(w, e)) && Measure(Do(w, e)) < Measure(w)
  {
    if e.bus.PrepareWait? || e.bus.DispatchOne? {
      CollectGrows(w.loop.queue, e.bus.ready);
      if Shutdown in w.loop.queue {
        PositionOfPrefix(w.loop.queue, Collect(w.loop.queue, e.bus.ready));
      }
      if e.bus.DispatchOne? {
        DispatchDescends(w, Recheck(w.loop, e.bus.ready));
      }
    }
  }

  /** Dispatching takes the source at the head of the queue. */
  lemma DispatchDescends(w: World, l: Loop)
    requires PauseSound(w) && Distinct(l.queue)
    requires w.pc == Dispatching && Shutdown in w.loop.queue && Shutdown in l.queue
    requires Position(l.queue) == Position(w.loop.queue)
    ensures Stopping(DispatchFrom(w, l)) && Measure(DispatchFrom(w, l)) < Measure(w)
  {
  }

  /** No handler can push the exit further away. */
  lemma HandlerStepKeeps(w: World, e: Event)
    requires Inv(w) && Stopping(w) && Enabled(w, e) && e.OfBus? && !ControlStep(e)
    ensures Stopping(Do(w, e)) && Measure(Do(w, e)) <= Measure(w)
  {
    if Shutdown in w.loop.queue {
      PositionOfPrefix(w.loop.queue, Do(w, e).loop.queue);
    }
  }

  /** No other thread can push it away either. */
  lemma ClientStepKeeps(w: World, t: nat, c: ClientStep)
    requires Inv(w) && Stopping(w) && ClientEnabled(w, ClientOf(w, t), c)
    ensures Stopping(DoClient(w, t, c)) && Measure(DoClient(w, t, c)) <= Measure(w)
  {
    assert HoldsForkLock(ClientOf(w, t)) <==> w.forkLock == Thread(t);
    if Shutdown in w.loop.queue {
      if c.DisableIo? {
        PositionWithout(w.loop.queue, c.fd);
      } else {
        PositionOfPrefix(w.loop.queue, DoClient(w, t, c).loop.queue);
      }
    }
  }

  lemma ForkStepKeeps(w: World, t: nat, f: ForkStep)
    requires Inv(w) && Stopping(w) && ForkEnabled(w, ClientOf(w, t), f) && !f.Join?
    ensures Stopping(DoFork(w, t, f)) && Measure(DoFork(w, t, f)) <= Measure(w)
  {
    assert HoldsForkLock(ClientOf(w, t)) <==> w.forkLock == Thread(t);
  }

  lemma MeasureStep(w: World, e: Event, w': World)
    requires Inv(w) && Stopping(w) && Step(w, e, w') && !Joins(e)
    ensures Stopping(w') && Measure(w') + (if ControlStep(e) then 1 else 0) <= Measure(w)
  {
    match e
    case OfBus(b) =>
      if ControlStep(e) {
        ControlStepDescends(w, e);
      } else {
        HandlerStepKeeps(w, e);
      }
    case OfClient(t, c) => ClientStepKeeps(w, t, c);
    case OfFork(t, f) => ForkStepKeeps(w, t, f);
  }

  /** The measure of a thread that is being stopped runs out exactly when it has exited. */
  lemma MeasureZeroIsExit(w: World)
    requires Inv(w) && Stopping(w)
    ensures Measure(w) == 0 <==> w.pc == Exited
  {
  }

  /** How many of the events i..j are steps of the bus thread. */
  function ControlSteps(es: seq<Event>, i: nat, j: nat): nat
    requires i <= j <= |es|
  {
    if i == j then 0 else ControlSteps(es, i, j - 1) + if ControlStep(es[j - 1]) then 1 else 0
  }

  /** From the moment the trigger is armed until the join, however the other threads interleave,
      the bus thread takes at most Measure steps. */
  lemma {:induction false} ShutdownIsBounded(ws: seq<World>, es: seq<Event>, i: nat, j: nat)
    requires IsRun(ws, es) && i <= j < |ws| && Stopping(ws[i])
    requires forall k | i <= k < j :: !Joins(es[k])
    ensures Stopping(ws[j])
    ensures ControlSteps(es, i, j) + Measure(ws[j]) <= Measure(ws[i])
    decreases j
  {
    if i < j {
      ShutdownIsBounded(ws, es, i, j - 1);
      InvAlways(ws, es, j - 1);
      MeasureStep(ws[j - 1], es[j - 1], ws[j]);
    }
  }

  /** A step with which a thread that holds the loop's lock, or still has to write to the eventfd,
      gets out of the bus thread's way. */
  predicate GivesWay(w: World, e: Event) {
    && e.OfClient?
    && (e.client.AddTask? || e.client.ArmShutdown? || e.client.WriteFd? || e.client.DropEvLock?)
    && (HoldsEvLock(ClientOf(w, e.t)) || Unwritten(ClientOf(w, e.t)))
  }

  lemma {:induction false} FreshTask(ids: seq<nat>) returns (id: nat)
    ensures forall x | x in ids :: x < id
  {
    if ids == [] {
      id := 0;
    } else {
      var above := FreshTask(ids[1..]);
      id := if ids[0] < above then above else ids[0] + 1;
      assert forall x | x in ids :: x == ids[0] || x in ids[1..];
    }
  }

  /** How many steps of another thread the bus thread has to wait for before its own next one. */
  function Blocked(w: World): nat {
    match w.pc
    case Polling => if w.loop.counter == 0 then 1 else 0
    case WantLock =>
      if !w.evLock.Thread? then 0
      else
        (match ClientOf(w, w.evLock.t)
         case TaskHolds(_) => 3
         case PauseHolds => 3
         case TaskAdded => 2
         case PauseArmed => 2
         case _ => 1)
    case _ => 0
  }

  /** While it is being stopped, the bus thread is never stuck: it can move itself, or it waits for
      a thread that can, and that brings its own next step nearer. */
  lemma StoppingNeverStuck(ws: seq<World>, es: seq<Event>, n: nat) returns (e: Event)
    requires IsRun(ws, es) && n < |ws| && Stopping(ws[n]) && ws[n].pc != Exited
    ensures Enabled(ws[n], e) && (ControlStep(e) || GivesWay(ws[n], e))
    ensures ControlStep(e) || Blocked(Do(ws[n], e)) < Blocked(ws[n])
  {
    InvAlways(ws, es, n);
    var w := ws[n];
    match w.pc {
      case Top => e := OfBus(TestFlag);
      case Preparing => e := OfBus(PrepareWait([]));
      case Polling =>
        if w.loop.counter > 0 {
          e := OfBus(PollReturns(false));
        } else {
          var t: nat :| Unwritten(ClientOf(w, t));
          e := OfClient(t, WriteFd);
        }
      case Clearing => e := OfBus(ClearFd);
      case WantLock =>
        if w.evLock == Nobody {
          e := OfBus(TakeLock);
        } else {
          var t := w.evLock.t;
          assert HoldsEvLock(ClientOf(w, t));
          var id := FreshTask(w.submitted);
          e := OfClient(t, match ClientOf(w, t)
                           case TaskHolds(_) => AddTask(id)
                           case PauseHolds => ArmShutdown
                           case TaskAdded => WriteFd
                           case PauseArmed => WriteFd
                           case _ => DropEvLock);
        }
      case Dispatching => e := OfBus(DispatchOne([]));
      case Handling => e := OfBus(Done);
    }
  }

  /** Whatever has happened since the trigger was armed, there is a way on to the exit. */
  lemma {:induction false} ExitIsReachable(ws: seq<World>, es: seq<Event>) returns (ws': seq<World>, es': seq<Event>)
    requires IsRun(ws, es) && Stopping(ws[|es|])
    ensures IsRun(ws', es') && ws <= ws' && es <= es'
    ensures ws'[|es'|].pc == Exited
    decreases Measure(ws[|es|]), Blocked(ws[|es|])
  {
    if ws[|es|].pc == Exited {
      ws', es' := ws, es;
    } else {
      InvAlways(ws, es, |es|);
      var e := StoppingNeverStuck(ws, es, |es|);
      MeasureStep(ws[|es|], e, Do(ws[|es|], e));
      ws', es' := Extend(ws, es, e);
      ws', es' := ExitIsReachable(ws', es');
    }
  }
}
