/** The supervisor's specification: one register of spawns, without the two maps. Every step of the
    supervisor is a step of the register, with the same answers to the same callers. */
module SupervisorRegister {
  import opened Basics
  import opened SupervisorState
  import opened SupervisorProtocol

  datatype Register = Register(
    procs: seq<Spawn>,
    threads: map<nat, Thread>,
    busNotifying: bool,
    deliveries: seq<Delivery>
  )

  /** What is left of a world without its two maps. */
  function Seen(w: World): Register {
    Register(w.procs, w.threads, w.busNotifying, w.deliveries)
  }

  // ---------------------------------------------------------------- what a call is told

  datatype Answer = NoSuchChild | NotYet | Collect(spawn: nat) | Internal(pid: int32)

  predicate Pending(spawn: Spawn, call: Call) {
    if call.FindInternalPid? then spawn.Image().internal == NO_PID else !spawn.reported
  }

  /** The answer to a call, read off the spawns alone. */
  ghost predicate Answers(procs: seq<Spawn>, call: Call, a: Answer) {
    match a
    case NoSuchChild => forall k: nat :: !LiveAs(procs, k, call.stub)
    case NotYet => exists k: nat :: LiveAs(procs, k, call.stub) && Pending(procs[k], call)
    case Collect(k) => !call.FindInternalPid? && LiveAs(procs, k, call.stub) && !Pending(procs[k], call)
    case Internal(pid) =>
      && call.FindInternalPid?
      && exists k: nat :: LiveAs(procs, k, call.stub) && !Pending(procs[k], call) && procs[k].Image().internal == pid
  }

  /** Where the caller goes with it. */
  function Continue(procs: seq<Spawn>, call: Call, a: Answer): Thread
    requires a.Collect? ==> a.spawn < |procs|
  {
    match a
    case NoSuchChild => if call.GetExitStatus? then Notifying(call, Return(NotFound)) else Returned(call, NotFound)
    case NotYet => if call.GetExitStatus? then Notifying(call, Return(TryLater)) else Asleep(call)
    case Collect(k) =>
      if call.GetExitStatus? then Notifying(call, Reap(k, procs[k].Image())) else Reaping(call, k, procs[k].Image())
    case Internal(pid) => Returned(call, Ok(pid))
  }

  lemma AnswerExists(procs: seq<Spawn>, call: Call) returns (a: Answer)
    ensures Answers(procs, call, a)
  {
    if k: nat :| LiveAs(procs, k, call.stub) {
      a := if Pending(procs[k], call) then NotYet
           else if call.FindInternalPid? then Internal(procs[k].Image().internal)
           else Collect(k);
    } else {
      a := NoSuchChild;
    }
  }

  lemma AnswerIsUnique(t: Tables, procs: seq<Spawn>, call: Call, a: Answer, b: Answer)
    requires Refines(t, procs) && Answers(procs, call, a) && Answers(procs, call, b)
    ensures a == b
  {
  }

  /** The answer that the maps give is the one the register gives, in all of its cases. */
  lemma MapsAnswerAlike(t: Tables, procs: seq<Spawn>, call: Call, k: nat, a: Answer)
    requires Refines(t, procs) && Answers(procs, call, a)
    requires Takes(t, call) ==> LiveAs(procs, k, call.stub)
    ensures Takes(t, call) <==> a.Collect?
    ensures a.Collect? ==> a.spawn == k
    ensures After(t, call, k) == Continue(procs, call, a)
  {
    if call.stub in t.stubs {
      var j: nat :| LiveAs(procs, j, call.stub);
      assert procs[j].Ordered();
      assert t.stubs[call.stub] == procs[j].Image();
    }
  }

  // ---------------------------------------------------------------- steps

  ghost predicate EnterStep(r: Register, t: nat, r': Register) {
    && t in r.threads
    && r.threads[t].Entering?
    && exists a ::
      && Answers(r.procs, r.threads[t].call, a)
      && r' == r.(threads := r.threads[t := Continue(r.procs, r.threads[t].call, a)],
                  procs := if a.Collect? then r.procs[a.spawn := r.procs[a.spawn].(fate := Collected(t))] else r.procs)
  }

  predicate PortalStep(r: Register, e: Event, r': Register) {
    && !r.busNotifying
    && PortalMay(r.procs, e)
    && match e
       case Reply(k, Spawned(pid)) =>
         r' == r.(procs := r.procs[k := r.procs[k].(external := Some(ToInt32(pid)))])
       case Reply(k, InvocationError) => r' == r.(procs := r.procs[k := r.procs[k].(fate := Failed)])
       case Started(Some(k), _, internal) =>
         r' == r.(busNotifying := true, procs := r.procs[k := r.procs[k].(started := Some(internal))])
       case Exited(Some(k), _, status, writeOk) =>
         r' == r.(busNotifying := true, procs := r.procs[k := r.procs[k].(exited := Some(status), reported := writeOk)])
       case _ => r' == r.(busNotifying := true)
  }

  /** Steps of a caller that leave the spawns alone. */
  predicate CallerStep(r: Register, t: nat, e: Event, r': Register) {
    var thread := if t in r.threads then r.threads[t] else Idle;
    match e
    case StartCall(_, call) => (thread.Idle? || thread.Returned?) && r' == r.(threads := r.threads[t := Entering(call)])
    case SpuriousWake(_) => thread.Asleep? && r' == r.(threads := r.threads[t := Entering(thread.call)])
    case ClientNotify(_) =>
      && thread.Notifying?
      && r' == r.(threads := WakeAll(r.threads)[t := if thread.next.Return? then Returned(thread.call, thread.next.outcome)
                                                     else Reaping(thread.call, thread.next.spawn, thread.next.data)])
    case FinishReap(_) =>
      && thread.Reaping?
      && thread.data.exitStatus.Some?
      && var status := ToInt32(thread.data.exitStatus.value);
      r' == r.(threads := r.threads[t := Returned(thread.call, Ok(status))],
               deliveries := r.deliveries + [Delivery(t, thread.call.stub, thread.spawn, status)])
    case _ => false
  }

  /** The register's own transitions: no map, no index, no record. */
  ghost predicate RegisterStep(r: Register, e: Event, r': Register) {
    match e
    case Request(stub, fulfilled) =>
      && !r.busNotifying
      && (fulfilled ==> forall k: nat :: !LiveAs(r.procs, k, stub))
      && r' == if fulfilled then r.(procs := r.procs + [Spawn(stub, None, None, None, false, Live)]) else r
    case BusNotify => r.busNotifying && r' == r.(busNotifying := false, threads := WakeAll(r.threads))
    case Enter(t, _) => EnterStep(r, t, r')
    case StartCall(t, _) => CallerStep(r, t, e, r')
    case SpuriousWake(t) => CallerStep(r, t, e, r')
    case ClientNotify(t) => CallerStep(r, t, e, r')
    case FinishReap(t) => CallerStep(r, t, e, r')
    case _ => PortalStep(r, e, r')
  }

  lemma EnterSimulated(w: World, t: nat, k: nat, w': World)
    requires Refines(w.tables, w.procs) && Step(w, Enter(t, k), w')
    ensures EnterStep(Seen(w), t, Seen(w'))
  {
    var call := ThreadOf(w, t).call;
    var a := AnswerExists(w.procs, call);
    MapsAnswerAlike(w.tables, w.procs, call, k, a);
  }

  /** Every step of the supervisor is a step of the register. */
  lemma StepSimulated(w: World, e: Event, w': World)
    requires Refines(w.tables, w.procs) && Step(w, e, w')
    ensures RegisterStep(Seen(w), e, Seen(w'))
  {
    if e.Enter? {
      EnterSimulated(w, e.thread, e.spawn, w');
    } else if e.Request? && e.fulfilled {
      forall k: nat ensures !LiveAs(w.procs, k, e.stub) {
      }
    }
  }

  /** Every run of the supervisor is a run of the register, from no spawns at all. */
  lemma RunSimulated(ws: seq<World>, es: seq<Event>, n: nat)
    requires IsRun(ws, es) && n < |ws|
    ensures Seen(ws[0]) == Register([], map[], false, [])
    ensures n < |es| ==> RegisterStep(Seen(ws[n]), es[n], Seen(ws[n + 1]))
  {
    InvAlways(ws, es, n);
    if n < |es| {
      assert Step(ws[n], es[n], ws[n + 1]);
      StepSimulated(ws[n], es[n], ws[n + 1]);
    }
  }

  // ---------------------------------------------------------------- when an answer was true

  /** What a call returns is the register's answer to it. */
  ghost predicate OutcomeTrue(procs: seq<Spawn>, call: Call, outcome: Outcome) {
    match outcome
    case NotFound => Answers(procs, call, NoSuchChild)
    case TryLater => call.GetExitStatus? && Answers(procs, call, NotYet)
    case Ok(value) =>
      if call.FindInternalPid? then Answers(procs, call, Internal(value))
      else exists k: nat :: Answers(procs, call, Collect(k)) && HasStatus(procs[k], value)
  }

  predicate HasStatus(spawn: Spawn, status: int32) {
    spawn.exited.Some? && ToInt32(spawn.exited.value) == status
  }

  /** The outcome that a thread will return, once it is settled. */
  function OutcomeOf(thread: Thread): Option<Outcome> {
    match thread
    case Returned(_, outcome) => Some(outcome)
    case Notifying(_, Return(outcome)) => Some(outcome)
    case Notifying(_, Reap(_, data)) => StatusOutcome(data)
    case Reaping(_, _, data) => StatusOutcome(data)
    case _ => None
  }

  function StatusOutcome(data: StubPidData): Option<Outcome> {
    if data.exitStatus.Some? then Some(Ok(ToInt32(data.exitStatus.value))) else None
  }

  lemma OutcomeOnEntry(w: World, t: nat, k: nat, w': World)
    requires Refines(w.tables, w.procs) && Step(w, Enter(t, k), w') && OutcomeOf(w'.threads[t]).Some?
    ensures OutcomeTrue(w.procs, w.threads[t].call, OutcomeOf(w'.threads[t]).value)
  {
    var call := w.threads[t].call;
    var a := AnswerExists(w.procs, call);
    MapsAnswerAlike(w.tables, w.procs, call, k, a);
    if a.Collect? {
      assert w.procs[k].Ordered();
      assert HasStatus(w.procs[k], OutcomeOf(w'.threads[t]).value.value);
    }
  }

  predicate Calls(thread: Thread, call: Call) {
    !thread.Idle? && thread.call == call
  }

  /** Once settled, an outcome does not change before the thread's next call. */
  lemma OutcomeKept(w: World, e: Event, w': World, t: nat)
    requires Step(w, e, w') && OutcomeOf(ThreadOf(w', t)).Some? && !(e.Enter? && e.thread == t)
    ensures OutcomeOf(ThreadOf(w, t)) == OutcomeOf(ThreadOf(w', t))
    ensures Calls(ThreadOf(w, t), ThreadOf(w', t).call)
    ensures !(e.StartCall? && e.thread == t)
  {
  }

  /** Event i is thread t's look at the maps within `call`, when `outcome` was the true answer. */
  ghost predicate AnsweredAt(ws: seq<World>, es: seq<Event>, i: nat, t: nat, call: Call, outcome: Outcome) {
    && i < |es| < |ws|
    && es[i].Enter? && es[i].thread == t
    && ThreadOf(ws[i], t) == Entering(call)
    && OutcomeTrue(ws[i].procs, call, outcome)
  }

  predicate StartsAt(es: seq<Event>, s: nat, t: nat, call: Call) {
    s < |es| && es[s] == StartCall(t, call)
  }

  /** Thread t starts no other call between s and n. */
  predicate SameCall(es: seq<Event>, s: nat, n: nat, t: nat)
    requires n <= |es|
  {
    forall m | s < m < n :: !(es[m].StartCall? && es[m].thread == t)
  }

  lemma {:induction false} CallBegan(ws: seq<World>, es: seq<Event>, n: nat, t: nat) returns (s: nat)
    requires IsRun(ws, es) && n < |ws| && !ThreadOf(ws[n], t).Idle?
    ensures s < n && StartsAt(es, s, t, ThreadOf(ws[n], t).call) && SameCall(es, s, n, t)
  {
    assert n > 0 && Step(ws[n - 1], es[n - 1], ws[n]);
    if es[n - 1].StartCall? && es[n - 1].thread == t {
      s := n - 1;
    } else {
      CallKept(ws[n - 1], es[n - 1], ws[n], t);
      s := CallBegan(ws, es, n - 1, t);
    }
  }

  lemma CallKept(w: World, e: Event, w': World, t: nat)
    requires Step(w, e, w') && !ThreadOf(w', t).Idle? && !(e.StartCall? && e.thread == t)
    ensures Calls(ThreadOf(w, t), ThreadOf(w', t).call)
  {
  }

  lemma EntrySettles(ws: seq<World>, es: seq<Event>, i: nat, t: nat)
    requires IsRun(ws, es) && i < |es| && es[i].Enter? && es[i].thread == t
    requires OutcomeOf(ThreadOf(ws[i + 1], t)).Some?
    ensures AnsweredAt(ws, es, i, t, ThreadOf(ws[i + 1], t).call, OutcomeOf(ThreadOf(ws[i + 1], t)).value)
  {
    assert Step(ws[i], es[i], ws[i + 1]);
    InvAlways(ws, es, i);
    OutcomeOnEntry(ws[i], t, es[i].spawn, ws[i + 1]);
  }

  lemma SameCallGrows(es: seq<Event>, s: nat, n: nat, t: nat)
    requires n < |es| && SameCall(es, s, n, t) && !(es[n].StartCall? && es[n].thread == t)
    ensures SameCall(es, s, n + 1, t)
  {
  }

  lemma {:induction false} OutcomeWasTrue(ws: seq<World>, es: seq<Event>, n: nat, t: nat) returns (i: nat)
    requires IsRun(ws, es) && n < |ws| && OutcomeOf(ThreadOf(ws[n], t)).Some?
    ensures i < n && SameCall(es, i, n, t)
    ensures AnsweredAt(ws, es, i, t, ThreadOf(ws[n], t).call, OutcomeOf(ThreadOf(ws[n], t)).value)
  {
    assert n > 0 && Step(ws[n - 1], es[n - 1], ws[n]);
    if es[n - 1].Enter? && es[n - 1].thread == t {
      i := n - 1;
      EntrySettles(ws, es, i, t);
    } else {
      OutcomeKept(ws[n - 1], es[n - 1], ws[n], t);
      i := OutcomeWasTrue(ws, es, n - 1, t);
      SameCallGrows(es, i, n - 1, t);
    }
  }

  /** Every call is linearizable: what it returns, not-found and try-later included, was the
      register's answer at one moment between its start and its return. */
  lemma CallsAreLinearizable(ws: seq<World>, es: seq<Event>, n: nat, t: nat) returns (s: nat, i: nat)
    requires IsRun(ws, es) && n < |ws| && ThreadOf(ws[n], t).Returned?
    ensures s < i < n && SameCall(es, s, n, t)
    ensures StartsAt(es, s, t, ThreadOf(ws[n], t).call)
    ensures AnsweredAt(ws, es, i, t, ThreadOf(ws[n], t).call, ThreadOf(ws[n], t).outcome)
  {
    i := OutcomeWasTrue(ws, es, n, t);
    s := CallBegan(ws, es, i, t);
  }

  // ---------------------------------------------------------------- sleeping

  /** The predicate that a sleeper waits for is true exactly when its call would not sleep again. */
  lemma WakesWhenAnswered(t: Tables, call: Call, k: nat)
    ensures WakePredicate(t, call) <==> !After(t, call, k).Asleep?
  {
  }

  /** A thread that is asleep before a notification is about to look again after it, in the same call. */
  lemma NotifiedLooksAgain(w: World, e: Event, w': World, t: nat)
    requires Step(w, e, w') && (e.BusNotify? || (e.ClientNotify? && e.thread != t))
    ensures ThreadOf(w, t).Asleep? ==> ThreadOf(w', t) == Entering(ThreadOf(w, t).call)
    ensures !ThreadOf(w, t).Asleep? ==> ThreadOf(w', t) == ThreadOf(w, t)
  {
  }

  /** A dead child's status does reach the thread that asks for it, with or without waiting. */
  lemma StatusIsDelivered(wait: bool) returns (ws: seq<World>, es: seq<Event>)
    ensures IsRun(ws, es)
    ensures |ws[|es|].procs| == 1 && ws[|es|].procs[0].exited == Some(0xFFFF_FF00)
    ensures ws[|es|].deliveries == [Delivery(0, 7, 0, -256)]
    ensures ThreadOf(ws[|es|], 0).Returned? && ThreadOf(ws[|es|], 0).outcome == Ok(-256)
  {
    ws, es := DeadChild();
    if wait {
      ws, es := Extend(ws, es, StartCall(0, WaitForExitStatus(7)));
      assert ProbeExit(ws[|es|].tables, 7).Dead?;
      ws, es := Extend(ws, es, Enter(0, 0));
    } else {
      ws, es := Extend(ws, es, StartCall(0, GetExitStatus(7)));
      assert ProbeExit(ws[|es|].tables, 7).Dead?;
      ws, es := Extend(ws, es, Enter(0, 0));
      ws, es := Extend(ws, es, ClientNotify(0));
    }
    ws, es := Extend(ws, es, FinishReap(0));
  }

  lemma DeadChild() returns (ws: seq<World>, es: seq<Event>)
    ensures IsRun(ws, es)
    ensures ws[|es|] == World(Tables(map[7 := StubPidData(40, 2, Some(0xFFFF_FF00), INVALID_FD)], map[40 := 7]),
                              map[], false, [Spawn(7, Some(40), Some(2), Some(0xFFFF_FF00), true, Live)], [])
  {
    ws, es := [INITIAL], [];
    ws, es := Extend(ws, es, Request(7, true));
    ws, es := Extend(ws, es, Reply(0, Spawned(40)));
    ws, es := Extend(ws, es, Started(Some(0), 40, 2));
    ws, es := Extend(ws, es, BusNotify);
    ws, es := Extend(ws, es, Exited(Some(0), 40, 0xFFFF_FF00, true));
    ws, es := Extend(ws, es, BusNotify);
  }
}
