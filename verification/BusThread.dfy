/** The bus thread, its clients and the `fork` override, under every interleaving
    (src/dbus/internal/bus_thread.cc, src/preload/host/spawn_strategy/bus_safe_fork.cc). */
module BusThread {
  import opened Basics
  import opened EvLoopState

  /** Control points of ThreadMain. `Absent` means that no thread is joinable, `Exited` that the
      thread function has returned but was not joined yet. */
  datatype BusPc =
    | Absent
    | Top
    | Preparing
    | Polling
    | Clearing
    | WantLock
    | Dispatching
    | Handling
    | Exited

  /** The two calls that submit a task; SendCall asserts that it was added, AddMatch does not. */
  datatype Submission = SendCall | AddMatch

  /** Control points of another thread: SendCall or AddMatch, libdbus asking for a wakeup, or a
      call of the fork override. `Bare` forks without a bus thread to stop. */
  datatype Client =
    | Outside
    | TaskWants(call: Submission)
    | TaskHolds(call: Submission)
    | TaskAdded
    | TaskNotified
    | WakeArmed
    | ForkWants
    | ForkHolds
    | Bare
    | PauseWants
    | PauseHolds
    | PauseArmed
    | PauseNotified
    | Joining
    | Paused
    | Forked
    | Resumed

  datatype Owner = Nobody | Bus | Thread(t: nat)

  datatype World = World(
    loop: Loop,
    pc: BusPc,
    shutdownFlag: bool,
    evLock: Owner,
    forkLock: Owner,
    clients: map<nat, Client>,
    submitted: seq<nat>,
    executed: seq<nat>
  )

  /** Steps of the bus thread; the last two are taken by the handler it runs. */
  datatype BusStep =
    | TestFlag
    | PrepareWait(ready: seq<int>)
    | PollReturns(io: bool)
    | ClearFd
    | TakeLock
    | DispatchOne(ready: seq<int>)
    | Done
    | HandlerAddTask(id: nat)
    | HandlerWake

  /** Steps that use the event loop from another thread. */
  datatype ClientStep =
    | Submit(call: Submission)
    | WakeRequest
    | TakeEvLock
    | AddTask(id: nat)
    | ArmShutdown
    | WriteFd
    | DropEvLock
    | DisableIo(fd: int)

  /** Steps of the fork override that leave the event loop alone. */
  datatype ForkStep = CallFork | TakeForkLock | TestRunning | BareFork | Join | RealFork | Start | LeaveFork

  datatype Event = OfBus(bus: BusStep) | OfClient(t: nat, client: ClientStep) | OfFork(t: nat, fork: ForkStep)

  predicate Init(w: World) {
    && w.loop == Loop([], 0, Initial)
    && (w.pc == Top || w.pc == Absent)
    && !w.shutdownFlag
    && w.evLock == Nobody && w.forkLock == Nobody
    && w.clients == map[]
    && w.submitted == [] && w.executed == []
  }

  function ClientOf(w: World, t: nat): Client {
    if t in w.clients then w.clients[t] else Outside
  }

  function At(w: World, t: nat, c: Client): World {
    w.(clients := w.clients[t := c])
  }

  // ---------------------------------------------------------------- steps

  /** The source was enabled, the eventfd not written yet. */
  predicate Unwritten(c: Client) {
    c.TaskAdded? || c.PauseArmed? || c.WakeArmed?
  }

  function Written(c: Client): Client {
    match c
    case TaskAdded => TaskNotified
    case PauseArmed => PauseNotified
    case _ => Outside
  }

  predicate BusEnabled(w: World, b: BusStep) {
    match b
    case TestFlag => w.pc == Top
    case PrepareWait(_) => w.pc == Preparing
    case PollReturns(io) => w.pc == Polling && (io || w.loop.counter > 0)
    case ClearFd => w.pc == Clearing
    case TakeLock => w.pc == WantLock && w.evLock == Nobody
    case DispatchOne(_) => w.pc == Dispatching
    case Done => w.pc == Handling
    case HandlerAddTask(id) => w.pc == Handling && id !in w.submitted
    case HandlerWake => w.pc == Handling
  }

  predicate ClientEnabled(w: World, at: Client, c: ClientStep) {
    match c
    case Submit(_) => at.Outside?
    case WakeRequest => at.Outside?
    case TakeEvLock => (at.TaskWants? || at.PauseWants?) && w.evLock == Nobody
    case AddTask(id) => at.TaskHolds? && id !in w.submitted
    case ArmShutdown => at.PauseHolds?
    case WriteFd => Unwritten(at)
    case DropEvLock => at.TaskNotified? || at.PauseNotified?
    case DisableIo(_) => at.Outside? && w.evLock == Nobody
  }

  predicate ForkEnabled(w: World, at: Client, f: ForkStep) {
    match f
    case CallFork => at.Outside?
    case TakeForkLock => at.ForkWants? && w.forkLock == Nobody
    case TestRunning => at.ForkHolds?
    case BareFork => at.Bare?
    case Join => at.Joining? && w.pc == Exited
    case RealFork => at.Paused?
    case Start => at.Forked?
    case LeaveFork => at.Resumed?
  }

  predicate Enabled(w: World, e: Event) {
    match e
    case OfBus(b) => BusEnabled(w, b)
    case OfClient(t, c) => ClientEnabled(w, ClientOf(w, t), c)
    case OfFork(t, f) => ForkEnabled(w, ClientOf(w, t), f)
  }

  /** Running the picked source's handler: the shutdown trigger sets the flag, a task executes. */
  function RunHandler(w: World, s: Source): World {
    match s
    case Shutdown => w.(shutdownFlag := true)
    case Task(id) => w.(executed := w.executed + [id])
    case _ => w
  }

  /** Dispatch on the rechecked loop: one handler runs, or none when nothing is enabled. */
  function DispatchFrom(w: World, l: Loop): World {
    if l.queue == [] then
      w.(loop := Pop(l), pc := Top, evLock := Nobody)
    else
      RunHandler(w.(loop := Pop(l), pc := Handling), l.queue[0])
  }

  function DoBus(w: World, b: BusStep): World {
    match b
    case TestFlag => w.(pc := if w.shutdownFlag then Exited else Preparing)
    case PrepareWait(ready) =>
      var l := Prepare(w.loop, ready);
      w.(loop := l, pc := if l.sd == Pending then Clearing else Polling)
    case PollReturns(io) => w.(pc := if w.loop.counter > 0 then Clearing else WantLock)
    case ClearFd => w.(loop := Clear(w.loop), pc := WantLock)
    case TakeLock => w.(evLock := Bus, pc := Dispatching)
    case DispatchOne(ready) => DispatchFrom(w, Recheck(w.loop, ready))
    case Done => w.(loop := w.loop.(sd := Initial), pc := Top, evLock := Nobody)
    case HandlerAddTask(id) => w.(loop := Write(Enable(w.loop, Task(id))), submitted := w.submitted + [id])
    case HandlerWake => w.(loop := Write(Enable(w.loop, Dispatch)))
  }

  function DoClient(w: World, t: nat, c: ClientStep): World {
    var at := ClientOf(w, t);
    match c
    case Submit(call) => At(w, t, TaskWants(call))
    case WakeRequest => At(w, t, WakeArmed).(loop := Enable(w.loop, Dispatch))
    case TakeEvLock => At(w, t, if at.TaskWants? then TaskHolds(at.call) else PauseHolds).(evLock := Thread(t))
    case AddTask(id) =>
      At(w, t, TaskAdded).(loop := Enable(w.loop, Task(id)), submitted := w.submitted + [id])
    case ArmShutdown => At(w, t, PauseArmed).(loop := Enable(w.loop, Shutdown))
    case WriteFd => At(w, t, Written(at)).(loop := Write(w.loop))
    case DropEvLock => At(w, t, if at.PauseNotified? then Joining else Outside).(evLock := Nobody)
    case DisableIo(fd) => w.(loop := w.loop.(queue := Without(w.loop.queue, Io(fd))))
  }

  function DoFork(w: World, t: nat, f: ForkStep): World {
    match f
    case CallFork => At(w, t, ForkWants)
    case TakeForkLock => At(w, t, ForkHolds).(forkLock := Thread(t))
    case TestRunning => At(w, t, if w.pc == Absent then Bare else PauseWants)
    case BareFork => At(w, t, Outside).(forkLock := Nobody)
    case Join => At(w, t, Paused).(pc := Absent)
    case RealFork => At(w, t, Forked)
    case Start => At(w, t, Resumed).(pc := Top, shutdownFlag := false)
    case LeaveFork => At(w, t, Outside).(forkLock := Nobody)
  }

  function Do(w: World, e: Event): World {
    match e
    case OfBus(b) => DoBus(w, b)
    case OfClient(t, c) => DoClient(w, t, c)
    case OfFork(t, f) => DoFork(w, t, f)
  }

  predicate Step(w: World, e: Event, w': World) {
    Enabled(w, e) && w' == Do(w, e)
  }

  ghost predicate IsRun(ws: seq<World>, es: seq<Event>) {
    && |ws| == |es| + 1
    && Init(ws[0])
    && (forall i | 0 <= i < |es| :: Step(ws[i], es[i], ws[i + 1]))
  }

  /** A run goes on with any event that is possible at its end. */
  lemma Extend(ws: seq<World>, es: seq<Event>, e: Event) returns (ws': seq<World>, es': seq<Event>)
    requires IsRun(ws, es) && Enabled(ws[|es|], e)
    ensures IsRun(ws', es') && ws <= ws' && es' == es + [e] && ws'[|es'|] == Do(ws[|es|], e)
  {
    ws', es' := ws + [Do(ws[|es|], e)], es + [e];
    forall i | 0 <= i < |es'| ensures Step(ws'[i], es'[i], ws'[i + 1]) {
      if i < |es| {
        assert Step(ws[i], es[i], ws[i + 1]);
      }
    }
  }

  // ---------------------------------------------------------------- locks

  predicate HoldsEvLock(c: Client) {
    c.TaskHolds? || c.TaskAdded? || c.TaskNotified? || c.PauseHolds? || c.PauseArmed? || c.PauseNotified?
  }

  predicate HoldsForkLock(c: Client) {
    || c.ForkHolds? || c.Bare? || c.PauseWants? || c.PauseHolds? || c.PauseArmed? || c.PauseNotified?
    || c.Joining? || c.Paused? || c.Forked? || c.Resumed?
  }

  ghost predicate EvLockSound(w: World) {
    && (forall t: nat :: HoldsEvLock(ClientOf(w, t)) <==> w.evLock == Thread(t))
    && (w.evLock == Bus <==> w.pc.Dispatching? || w.pc.Handling?)
  }

  ghost predicate ForkLockSound(w: World) {
    && (forall t: nat :: HoldsForkLock(ClientOf(w, t)) <==> w.forkLock == Thread(t))
    && w.forkLock != Bus
  }

  ghost predicate LocksSound(w: World) {
    EvLockSound(w) && ForkLockSound(w)
  }

  lemma LocksStepBus(w: World, b: BusStep)
    requires LocksSound(w) && BusEnabled(w, b)
    ensures LocksSound(DoBus(w, b))
  {
    assert DoBus(w, b).clients == w.clients && DoBus(w, b).forkLock == w.forkLock;
    forall u: nat
      ensures HoldsEvLock(ClientOf(DoBus(w, b), u)) <==> DoBus(w, b).evLock == Thread(u)
      ensures HoldsForkLock(ClientOf(DoBus(w, b), u)) <==> w.forkLock == Thread(u)
    {
      assert HoldsEvLock(ClientOf(w, u)) <==> w.evLock == Thread(u);
      assert HoldsForkLock(ClientOf(w, u)) <==> w.forkLock == Thread(u);
    }
  }

  lemma LocksStepClient(w: World, t: nat, c: ClientStep)
    requires LocksSound(w) && ClientEnabled(w, ClientOf(w, t), c)
    ensures LocksSound(DoClient(w, t, c))
  {
    var w' := DoClient(w, t, c);
    assert HoldsEvLock(ClientOf(w, t)) <==> w.evLock == Thread(t);
    assert HoldsForkLock(ClientOf(w, t)) <==> w.forkLock == Thread(t);
    forall u: nat
      ensures HoldsEvLock(ClientOf(w', u)) <==> w'.evLock == Thread(u)
      ensures HoldsForkLock(ClientOf(w', u)) <==> w'.forkLock == Thread(u)
    {
      assert HoldsEvLock(ClientOf(w, u)) <==> w.evLock == Thread(u);
      assert HoldsForkLock(ClientOf(w, u)) <==> w.forkLock == Thread(u);
    }
  }

  lemma LocksStepFork(w: World, t: nat, f: ForkStep)
    requires LocksSound(w) && PauseSound(w) && ForkEnabled(w, ClientOf(w, t), f)
    ensures LocksSound(DoFork(w, t, f))
  {
    var w' := DoFork(w, t, f);
    assert HoldsEvLock(ClientOf(w, t)) <==> w.evLock == Thread(t);
    assert HoldsForkLock(ClientOf(w, t)) <==> w.forkLock == Thread(t);
    forall u: nat
      ensures HoldsEvLock(ClientOf(w', u)) <==> w'.evLock == Thread(u)
      ensures HoldsForkLock(ClientOf(w', u)) <==> w'.forkLock == Thread(u)
    {
      assert HoldsEvLock(ClientOf(w, u)) <==> w.evLock == Thread(u);
      assert HoldsForkLock(ClientOf(w, u)) <==> w.forkLock == Thread(u);
    }
  }

  // ---------------------------------------------------------------- the event loop's state

  /** sd-event is in the state each control point of ThreadMain needs. */
  predicate LoopSound(w: World) {
    && Distinct(w.loop.queue)
    && match w.pc
       case Polling => w.loop.sd == Armed
       case Clearing => w.loop.sd == Armed || w.loop.sd == Pending
       case WantLock => w.loop.sd == Armed || w.loop.sd == Pending
       case Dispatching => w.loop.sd == Armed || w.loop.sd == Pending
       case Handling => w.loop.sd == Running
       case _ => w.loop.sd == Initial
  }

  /** Looking at the descriptors neither reorders the queue nor touches the shutdown trigger. */
  lemma CollectFacts(q: seq<Source>, ready: seq<int>)
    ensures Distinct(q) ==> Distinct(Collect(q, ready))
    ensures Shutdown in Collect(q, ready) <==> Shutdown in q
  {
    CollectGrows(q, ready);
  }

  lemma LoopStepDispatch(w: World, l: Loop)
    requires Distinct(l.queue) && (l.queue == [] ==> l.sd != Running)
    ensures LoopSound(DispatchFrom(w, l))
  {
  }

  lemma LoopStepBus(w: World, b: BusStep)
    requires LoopSound(w) && BusEnabled(w, b)
    ensures LoopSound(DoBus(w, b))
  {
    if b.DispatchOne? {
      CollectFacts(w.loop.queue, b.ready);
      LoopStepDispatch(w, Recheck(w.loop, b.ready));
    } else if b.PrepareWait? {
      CollectFacts(w.loop.queue, b.ready);
    }
  }

  lemma LoopStepClient(w: World, t: nat, c: ClientStep)
    requires LoopSound(w) && ClientEnabled(w, ClientOf(w, t), c)
    ensures LoopSound(DoClient(w, t, c))
  {
    if c.DisableIo? {
      WithoutRemoves(w.loop.queue, Io(c.fd));
    }
  }

  lemma LoopStepFork(w: World, t: nat, f: ForkStep)
    requires LoopSound(w) && PauseSound(w) && LocksSound(w) && ForkEnabled(w, ClientOf(w, t), f)
    ensures LoopSound(DoFork(w, t, f))
  {
    assert HoldsForkLock(ClientOf(w, t)) <==> w.forkLock == Thread(t);
  }

  // ---------------------------------------------------------------- pausing

  /** The thread inside the fork override, if any. */
  function Forker(w: World): Client {
    if w.forkLock.Thread? then ClientOf(w, w.forkLock.t) else Outside
  }

  /** The shutdown trigger and flag agree with how far the forking thread has got. */
  predicate PauseSound(w: World) {
    && (w.shutdownFlag && w.pc != Absent ==> w.pc.Handling? || w.pc.Top? || w.pc.Exited?)
    && (w.pc.Exited? ==> w.shutdownFlag)
    && match Forker(w)
       case PauseArmed => w.pc != Absent && (w.shutdownFlag <==> Shutdown !in w.loop.queue)
       case PauseNotified => w.pc != Absent && (w.shutdownFlag <==> Shutdown !in w.loop.queue)
       case Joining => w.pc != Absent && (w.shutdownFlag <==> Shutdown !in w.loop.queue)
       case PauseWants => w.pc != Absent && !w.shutdownFlag && Shutdown !in w.loop.queue
       case PauseHolds => w.pc != Absent && !w.shutdownFlag && Shutdown !in w.loop.queue
       case Resumed => w.pc != Absent && !w.shutdownFlag && Shutdown !in w.loop.queue
       case Paused => w.pc == Absent && Shutdown !in w.loop.queue
       case Forked => w.pc == Absent && Shutdown !in w.loop.queue
       case Bare => w.pc == Absent && !w.shutdownFlag && Shutdown !in w.loop.queue
       case _ => !w.shutdownFlag && Shutdown !in w.loop.queue
  }

  lemma PauseStepDispatch(w: World, l: Loop)
    requires PauseSound(w) && w.pc == Dispatching
    requires Distinct(l.queue) && (Shutdown in l.queue <==> Shutdown in w.loop.queue)
    ensures PauseSound(DispatchFrom(w, l))
  {
    assert Forker(DispatchFrom(w, l)) == Forker(w);
    if l.queue != [] {
      assert Shutdown in l.queue <==> l.queue[0] == Shutdown || Shutdown in l.queue[1..];
    }
  }

  lemma PauseStepBus(w: World, b: BusStep)
    requires LoopSound(w) && PauseSound(w) && BusEnabled(w, b)
    ensures PauseSound(DoBus(w, b))
  {
    if b.DispatchOne? {
      CollectFacts(w.loop.queue, b.ready);
      PauseStepDispatch(w, Recheck(w.loop, b.ready));
    } else {
      if b.PrepareWait? {
        CollectFacts(w.loop.queue, b.ready);
      }
      assert Forker(DoBus(w, b)) == Forker(w);
    }
  }

  /** Steps of a thread that is not forking. */
  lemma PauseStepUser(w: World, t: nat, c: ClientStep)
    requires LocksSound(w) && PauseSound(w) && ClientEnabled(w, ClientOf(w, t), c)
    requires !HoldsForkLock(ClientOf(w, t))
    ensures PauseSound(DoClient(w, t, c))
  {
    assert HoldsForkLock(ClientOf(w, t)) <==> w.forkLock == Thread(t);
    ShutdownAfterClient(w, t, c);
    assert Forker(DoClient(w, t, c)) == Forker(w);
  }

  /** Steps with which the forking thread pauses the bus. */
  lemma PauseStepPauser(w: World, t: nat, c: ClientStep)
    requires LocksSound(w) && PauseSound(w) && ClientEnabled(w, ClientOf(w, t), c)
    requires HoldsForkLock(ClientOf(w, t))
    ensures PauseSound(DoClient(w, t, c))
  {
    assert HoldsForkLock(ClientOf(w, t)) <==> w.forkLock == Thread(t);
    ShutdownAfterClient(w, t, c);
  }

  lemma PauseStepClient(w: World, t: nat, c: ClientStep)
    requires LocksSound(w) && PauseSound(w) && ClientEnabled(w, ClientOf(w, t), c)
    ensures PauseSound(DoClient(w, t, c))
  {
    if HoldsForkLock(ClientOf(w, t)) {
      PauseStepPauser(w, t, c);
    } else {
      PauseStepUser(w, t, c);
    }
  }

  lemma ShutdownAfterClient(w: World, t: nat, c: ClientStep)
    ensures Shutdown in DoClient(w, t, c).loop.queue <==> Shutdown in w.loop.queue || c.ArmShutdown?
  {
    if c.DisableIo? {
      WithoutRemoves(w.loop.queue, Io(c.fd));
    }
  }

  lemma PauseStepFork(w: World, t: nat, f: ForkStep)
    requires LocksSound(w) && PauseSound(w) && ForkEnabled(w, ClientOf(w, t), f)
    ensures PauseSound(DoFork(w, t, f))
  {
    assert HoldsForkLock(ClientOf(w, t)) <==> w.forkLock == Thread(t);
  }

  // ---------------------------------------------------------------- wakeups

  /** Whenever the bus thread sits in poll with something enabled, the eventfd is readable or some
      thread is between enabling a source and writing to it. */
  ghost predicate NoLostWakeup(w: World) {
    w.pc == Polling && w.loop.queue != [] ==>
      w.loop.counter > 0 || exists t: nat :: Unwritten(ClientOf(w, t))
  }

  lemma WakeupStepBus(w: World, b: BusStep)
    requires LoopSound(w) && NoLostWakeup(w) && BusEnabled(w, b)
    ensures NoLostWakeup(DoBus(w, b))
  {
  }

  lemma WakeupStepClient(w: World, t: nat, c: ClientStep)
    requires NoLostWakeup(w) && ClientEnabled(w, ClientOf(w, t), c)
    ensures NoLostWakeup(DoClient(w, t, c))
  {
    var w' := DoClient(w, t, c);
    if c.AddTask? || c.ArmShutdown? || c.WakeRequest? {
      assert Unwritten(ClientOf(w', t));
    } else if w.pc == Polling && w.loop.queue != [] && w.loop.counter == 0 && !c.WriteFd? {
      var u: nat :| Unwritten(ClientOf(w, u));
      assert Unwritten(ClientOf(w', u));
    }
  }

  lemma WakeupStepFork(w: World, t: nat, f: ForkStep)
    requires NoLostWakeup(w) && ForkEnabled(w, ClientOf(w, t), f)
    ensures NoLostWakeup(DoFork(w, t, f))
  {
    var w' := DoFork(w, t, f);
    if w.pc == Polling && w.loop.queue != [] && w.loop.counter == 0 {
      var u: nat :| Unwritten(ClientOf(w, u));
      assert Unwritten(ClientOf(w', u));
    }
  }

  /** A bus thread that finds a descriptor ready does not go to poll, and dispatches something: what
      was enabled first, or else the first descriptor it found. */
  lemma ReadyIsServed(w: World, b: BusStep)
    requires LoopSound(w) && BusEnabled(w, b)
    ensures b.PrepareWait? ==> (DoBus(w, b).pc == Polling <==> w.loop.queue == [] && b.ready == [])
    ensures b.PrepareWait? ==> forall fd | fd in b.ready :: Io(fd) in DoBus(w, b).loop.queue
    ensures b.DispatchOne? ==>
              (DoBus(w, b).pc == Handling <==> w.loop.queue != [] || (w.loop.sd == Armed && b.ready != []))
  {
    if b.PrepareWait? || b.DispatchOne? {
      CollectEmptyIff(w.loop.queue, b.ready);
      CollectMembers(w.loop.queue, b.ready);
    }
  }

  /** Every way to dispatch starts with a drained eventfd, so old writes do not keep the thread from
      sleeping. */
  lemma DrainedBeforeDispatch(w: World, e: Event, w': World)
    requires Step(w, e, w') && w.pc != WantLock && w'.pc == WantLock
    ensures w'.loop.counter == 0
  {
  }

  /** What an event enables is there afterwards. */
  lemma EnabledByEvent(w: World, e: Event, w': World)
    requires Step(w, e, w')
    ensures e.OfClient? && e.client.AddTask? ==> Task(e.client.id) in w'.loop.queue
    ensures e.OfClient? && e.client.ArmShutdown? ==> Shutdown in w'.loop.queue
    ensures e.OfClient? && e.client.WakeRequest? ==> Dispatch in w'.loop.queue
    ensures e.OfClient? && e.client.DisableIo? ==> Io(e.client.fd) !in w'.loop.queue
    ensures e.OfClient? && e.client.WriteFd? ==> w'.loop.counter > 0
    ensures e.OfBus? && e.bus.HandlerAddTask? ==> Task(e.bus.id) in w'.loop.queue && w'.loop.counter > 0
    ensures e.OfBus? && e.bus.HandlerWake? ==> Dispatch in w'.loop.queue && w'.loop.counter > 0
  {
    if e.OfClient? && e.client.DisableIo? {
      WithoutRemoves(w.loop.queue, Io(e.client.fd));
    }
  }

  /** The source that a dispatch picks, if any. */
  function Picked(w: World, e: Event): Option<Source> {
    if e.OfBus? && e.bus.DispatchOne? && Recheck(w.loop, e.bus.ready).queue != [] then
      Some(Recheck(w.loop, e.bus.ready).queue[0])
    else
      None
  }

  /** An enabled source stays enabled until it is picked, or its descriptor is disabled. */
  lemma EnabledUntilPicked(w: World, e: Event, w': World, s: Source)
    requires LoopSound(w) && Step(w, e, w') && s in w.loop.queue
    ensures s in w'.loop.queue || Picked(w, e) == Some(s) || (e.OfClient? && e.client.DisableIo? && s == Io(e.client.fd))
  {
    match e
    case OfBus(b) =>
      if b.PrepareWait? || b.DispatchOne? {
        CollectGrows(w.loop.queue, b.ready);
      }
    case OfClient(_, c) =>
      if c.DisableIo? {
        WithoutRemoves(w.loop.queue, Io(c.fd));
      }
    case OfFork(_, _) =>
  }

  /** Only a picked source's handler runs: a task executes, the shutdown trigger sets the flag. */
  lemma HandlersRunWhenPicked(w: World, e: Event, w': World)
    requires Step(w, e, w')
    ensures w'.executed == match Picked(w, e)
                           case Some(Task(id)) => w.executed + [id]
                           case _ => w.executed
    ensures w'.shutdownFlag != w.shutdownFlag ==>
              Picked(w, e) == Some(Shutdown) || (e.OfFork? && e.fork.Start?)
    ensures Picked(w, e) == Some(Shutdown) ==> w'.shutdownFlag
    ensures e.OfFork? && e.fork.Start? ==> !w'.shutdownFlag
  {
  }

  // ---------------------------------------------------------------- tasks

  ghost predicate NoRepeats(ids: seq<nat>) {
    forall i, j | 0 <= i < j < |ids| :: ids[i] != ids[j]
  }

  /** Submitted tasks are the executed ones plus the ones still enabled. */
  ghost predicate Conserved(submitted: seq<nat>, executed: seq<nat>, q: seq<Source>) {
    NoRepeats(submitted) && multiset(submitted) == multiset(executed) + TaskBag(q)
  }

  ghost predicate TasksConserved(w: World) {
    Conserved(w.submitted, w.executed, w.loop.queue)
  }

  lemma SubmitConserves(submitted: seq<nat>, executed: seq<nat>, q: seq<Source>, id: nat)
    requires Conserved(submitted, executed, q) && id !in submitted
    ensures Conserved(submitted + [id], executed, Enqueue(q, Task(id)))
  {
    TaskBagMember(q, id);
    assert id !in multiset(submitted);
    TaskBagEnqueue(q, Task(id));
  }

  /** What running the handler of s adds to the executed tasks. */
  function Executed(s: Source): seq<nat> {
    if s.Task? then [s.id] else []
  }

  /** Dispatching moves at most one task from the queue to the executed ones. */
  lemma PopConserves(submitted: seq<nat>, executed: seq<nat>, q: seq<Source>)
    requires q != [] && Conserved(submitted, executed, q)
    ensures Conserved(submitted, executed + Executed(q[0]), q[1..])
  {
    assert TaskBag(q) == multiset(Executed(q[0])) + TaskBag(q[1..]);
  }

  lemma DispatchConserves(w: World, l: Loop)
    requires TasksConserved(w) && TaskBag(l.queue) == TaskBag(w.loop.queue)
    ensures TasksConserved(DispatchFrom(w, l))
  {
    if l.queue != [] {
      PopConserves(w.submitted, w.executed, l.queue);
      assert w.executed + [] == w.executed;
    }
  }

  lemma TasksStepBus(w: World, b: BusStep)
    requires TasksConserved(w) && BusEnabled(w, b)
    ensures TasksConserved(DoBus(w, b))
  {
    match b
    case HandlerAddTask(id) => SubmitConserves(w.submitted, w.executed, w.loop.queue, id);
    case HandlerWake => TaskBagEnqueue(w.loop.queue, Dispatch);
    case PrepareWait(ready) => TaskBagCollect(w.loop.queue, ready);
    case DispatchOne(ready) =>
      TaskBagCollect(w.loop.queue, ready);
      DispatchConserves(w, Recheck(w.loop, ready));
    case _ =>
  }

  lemma TasksStepClient(w: World, t: nat, c: ClientStep)
    requires TasksConserved(w) && ClientEnabled(w, ClientOf(w, t), c)
    ensures TasksConserved(DoClient(w, t, c))
  {
    match c
    case AddTask(id) => SubmitConserves(w.submitted, w.executed, w.loop.queue, id);
    case DisableIo(fd) => TaskBagWithout(w.loop.queue, fd);
    case ArmShutdown => TaskBagEnqueue(w.loop.queue, Shutdown);
    case WakeRequest => TaskBagEnqueue(w.loop.queue, Dispatch);
    case _ =>
  }

  // ---------------------------------------------------------------- whole runs

  ghost predicate Inv(w: World) {
    LocksSound(w) && LoopSound(w) && PauseSound(w) && NoLostWakeup(w) && TasksConserved(w)
  }

  lemma InvStepBus(w: World, b: BusStep)
    requires Inv(w) && BusEnabled(w, b)
    ensures Inv(DoBus(w, b))
  {
    LocksStepBus(w, b);
    LoopStepBus(w, b);
    PauseStepBus(w, b);
    WakeupStepBus(w, b);
    TasksStepBus(w, b);
  }

  lemma InvStepClient(w: World, t: nat, c: ClientStep)
    requires Inv(w) && ClientEnabled(w, ClientOf(w, t), c)
    ensures Inv(DoClient(w, t, c))
  {
    LocksStepClient(w, t, c);
    LoopStepClient(w, t, c);
    PauseStepClient(w, t, c);
    WakeupStepClient(w, t, c);
    TasksStepClient(w, t, c);
  }

  lemma InvStepFork(w: World, t: nat, f: ForkStep)
    requires Inv(w) && ForkEnabled(w, ClientOf(w, t), f)
    ensures Inv(DoFork(w, t, f))
  {
    LocksStepFork(w, t, f);
    LoopStepFork(w, t, f);
    PauseStepFork(w, t, f);
    WakeupStepFork(w, t, f);
  }

  lemma InvStep(w: World, e: Event, w': World)
    requires Inv(w) && Step(w, e, w')
    ensures Inv(w')
  {
    match e
    case OfBus(b) => InvStepBus(w, b);
    case OfClient(t, c) => InvStepClient(w, t, c);
    case OfFork(t, f) => InvStepFork(w, t, f);
  }

  /** No wakeup is lost, no task is lost or run twice, and the loop, the locks and the shutdown
      trigger stay in step, for any number of threads and any interleaving. */
  lemma {:induction false} InvAlways(ws: seq<World>, es: seq<Event>, n: nat)
    requires IsRun(ws, es) && n < |ws|
    ensures Inv(ws[n])
  {
    if n > 0 {
      InvAlways(ws, es, n - 1);
      InvStep(ws[n - 1], es[n - 1], ws[n]);
    }
  }
}
