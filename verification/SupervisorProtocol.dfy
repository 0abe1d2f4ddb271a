/** The supervisor under every interleaving of bus events and calling threads.

    Each event below is one atomic step: a bus handler, or the part of a thread's call done under
    the mutex. `procs` is history: the process table keyed by spawn that the two maps implement. */
module SupervisorProtocol {
  import opened Basics
  import opened SupervisorState

  // ---------------------------------------------------------------- the table keyed by spawn

  datatype Fate = Live | Failed | Collected(thread: nat)

  /** One accepted spawn: what the portal said about it, and what became of it. `reported` says
      that the exit status reached the supervisor's record. */
  datatype Spawn = Spawn(
    stub: int32,
    external: Option<int32>,
    started: Option<uint32>,
    exited: Option<uint32>,
    reported: bool,
    fate: Fate
  ) {
    /** The record this spawn has in `stub_pids_data_` while it is live. */
    function Image(): StubPidData {
      StubPidData(
        if external.Some? then external.value else NO_PID,
        if started.Some? then ToInt32(started.value) else NO_PID,
        if reported then exited else None,
        INVALID_FD)
    }

    /** Reply, started and exited come in this order, and only a reported spawn is collected. */
    predicate Ordered() {
      && (started.Some? ==> external.Some?)
      && (exited.Some? ==> started.Some?)
      && (reported ==> exited.Some?)
      && (fate.Collected? ==> reported)
      && (fate.Failed? ==> external.None?)
    }

    /** What a later history says about the same spawn: nothing is taken back. */
    predicate Evolves(later: Spawn) {
      && later.stub == stub
      && (external.Some? ==> later.external == external)
      && (started.Some? ==> later.started == started)
      && (exited.Some? ==> later.exited == exited && later.reported == reported)
      && (!fate.Live? ==> later == this)
    }
  }

  // ---------------------------------------------------------------- the threads

  datatype Call = GetExitStatus(stub: int32) | WaitForExitStatus(stub: int32) | FindInternalPid(stub: int32)

  datatype Outcome = Ok(value: int32) | NotFound | TryLater

  datatype Next = Return(outcome: Outcome) | Reap(spawn: nat, data: StubPidData)

  /** `Entering` is about to take the mutex, `Notifying` has released it and is about to notify
      all sleepers, `Reaping` holds a record taken out of the map. The spawn index is history. */
  datatype Thread =
    | Idle
    | Entering(call: Call)
    | Asleep(call: Call)
    | Notifying(call: Call, next: Next)
    | Reaping(call: Call, spawn: nat, data: StubPidData)
    | Returned(call: Call, outcome: Outcome)

  /** One exit status handed to an application thread (history). */
  datatype Delivery = Delivery(thread: nat, stub: int32, spawn: nat, status: int32)

  datatype World = World(
    tables: Tables,
    threads: map<nat, Thread>,
    busNotifying: bool,
    procs: seq<Spawn>,
    deliveries: seq<Delivery>
  )

  datatype Event =
    | Request(stub: int32, fulfilled: bool)
    | Reply(spawn: nat, reply: SpawnReply)
    | Started(owner: Option<nat>, external: uint32, internal: uint32)
    | Exited(owner: Option<nat>, external: uint32, status: uint32, writeOk: bool)
    | BusNotify
    | StartCall(thread: nat, call: Call)
    | Enter(thread: nat, spawn: nat)
    | SpuriousWake(thread: nat)
    | ClientNotify(thread: nat)
    | FinishReap(thread: nat)

  predicate Init(w: World) {
    w == INITIAL
  }

  // ---------------------------------------------------------------- what the portal may send

  predicate LiveAs(procs: seq<Spawn>, k: nat, stub: int32) {
    k < |procs| && procs[k].fate.Live? && procs[k].stub == stub
  }

  predicate HasExternal(procs: seq<Spawn>, k: nat, external: int32) {
    k < |procs| && procs[k].external == Some(external)
  }

  /** A signal carries the pid of a known spawn, or of none at all. */
  predicate Owns(procs: seq<Spawn>, owner: Option<nat>, external: int32) {
    match owner
    case Some(k) => HasExternal(procs, k, external)
    case None => forall k: nat | k < |procs| :: !HasExternal(procs, k, external)
  }

  /** Environment assumptions about replies and signals: a spawn is answered once, with a pid that is
      fresh over the run; then started, then exited, each at most once. */
  predicate PortalMay(procs: seq<Spawn>, e: Event) {
    match e
    case Reply(k, reply) =>
      && k < |procs|
      && procs[k].fate.Live?
      && procs[k].external.None?
      && (reply.Spawned? ==> Owns(procs, None, ToInt32(reply.pid)))
    case Started(owner, external, internal) =>
      && Owns(procs, owner, ToInt32(external))
      && (owner.Some? ==> procs[owner.value].started.None?)
    case Exited(owner, external, status, writeOk) =>
      && Owns(procs, owner, ToInt32(external))
      && (owner.Some? ==> procs[owner.value].started.Some? && procs[owner.value].exited.None?)
    case _ => true
  }

  /** In addition, a stub pid is not reused while it has a record. */
  predicate PortalAllows(w: World, e: Event) {
    PortalMay(w.procs, e) && (e.Request? && e.fulfilled ==> e.stub !in w.tables.stubs)
  }

  // ---------------------------------------------------------------- steps

  function ThreadOf(w: World, t: nat): Thread {
    if t in w.threads then w.threads[t] else Idle
  }

  /** The predicate a sleeping call waits for. */
  predicate WakePredicate(t: Tables, call: Call) {
    match call
    case WaitForExitStatus(stub) => stub in t.stubs ==> t.stubs[stub].exitStatus.Some?
    case FindInternalPid(stub) => stub in t.stubs ==> t.stubs[stub].internal != NO_PID
    case GetExitStatus(stub) => true
  }

  /** Whether this call, now under the mutex, takes a dead child's record out of the map. */
  predicate Takes(t: Tables, call: Call) {
    !call.FindInternalPid? && ProbeExit(t, call.stub).Dead?
  }

  /** What the call does next once it has left the mutex. */
  function After(t: Tables, call: Call, spawn: nat): Thread {
    match call
    case GetExitStatus(stub) =>
      (match ProbeExit(t, stub)
       case Unknown => Notifying(call, Return(NotFound))
       case StillRunning => Notifying(call, Return(TryLater))
       case Dead(data) => Notifying(call, Reap(spawn, data)))
    case WaitForExitStatus(stub) =>
      (match ProbeExit(t, stub)
       case Unknown => Returned(call, NotFound)
       case StillRunning => Asleep(call)
       case Dead(data) => Reaping(call, spawn, data))
    case FindInternalPid(stub) =>
      if stub !in t.stubs then Returned(call, NotFound)
      else if t.stubs[stub].internal == NO_PID then Asleep(call)
      else Returned(call, Ok(t.stubs[stub].internal))
  }

  function Wake(thread: Thread): Thread {
    if thread.Asleep? then Entering(thread.call) else thread
  }

  function WakeAll(threads: map<nat, Thread>): map<nat, Thread> {
    map t | t in threads :: Wake(threads[t])
  }

  predicate Enabled(w: World, e: Event) {
    match e
    case Request(_, _) => !w.busNotifying
    case Reply(_, _) => !w.busNotifying
    case Started(_, _, _) => !w.busNotifying
    case Exited(_, _, _, _) => !w.busNotifying
    case BusNotify => w.busNotifying
    case StartCall(t, call) => ThreadOf(w, t).Idle? || ThreadOf(w, t).Returned?
    case Enter(t, k) =>
      && ThreadOf(w, t).Entering?
      && (Takes(w.tables, ThreadOf(w, t).call) ==> LiveAs(w.procs, k, ThreadOf(w, t).call.stub))
    case SpuriousWake(t) => ThreadOf(w, t).Asleep?
    case ClientNotify(t) => ThreadOf(w, t).Notifying?
    case FinishReap(t) => ThreadOf(w, t).Reaping? && ThreadOf(w, t).data.exitStatus.Some?
  }

  function WithThread(w: World, t: nat, thread: Thread): World {
    w.(threads := w.threads[t := thread])
  }

  function Do(w: World, e: Event): World
    requires Enabled(w, e) && PortalAllows(w, e)
  {
    match e
    case Request(stub, fulfilled) =>
      w.(tables := OnRequest(w.tables, stub, fulfilled),
         procs := if fulfilled then w.procs + [Spawn(stub, None, None, None, false, Live)] else w.procs)
    case Reply(k, reply) =>
      w.(tables := OnReply(w.tables, w.procs[k].stub, reply),
         procs := w.procs[k := if reply.Spawned? then w.procs[k].(external := Some(ToInt32(reply.pid)))
                               else w.procs[k].(fate := Failed)])
    case Started(owner, external, internal) =>
      w.(tables := OnStarted(w.tables, external, internal),
         busNotifying := true,
         procs := if owner.None? then w.procs
                  else w.procs[owner.value := w.procs[owner.value].(started := Some(internal))])
    case Exited(owner, external, status, writeOk) =>
      w.(tables := OnExited(w.tables, external, status, writeOk),
         busNotifying := true,
         procs := if owner.None? then w.procs
                  else w.procs[owner.value := w.procs[owner.value].(exited := Some(status), reported := writeOk)])
    case BusNotify => w.(busNotifying := false, threads := WakeAll(w.threads))
    case StartCall(t, call) => WithThread(w, t, Entering(call))
    case Enter(t, k) =>
      var call := ThreadOf(w, t).call;
      var w' := WithThread(w, t, After(w.tables, call, k));
      if Takes(w.tables, call) then
        w'.(tables := Erase(w.tables, call.stub), procs := w.procs[k := w.procs[k].(fate := Collected(t))])
      else
        w'
    case SpuriousWake(t) => WithThread(w, t, Wake(ThreadOf(w, t)))
    case ClientNotify(t) =>
      var thread := ThreadOf(w, t);
      var w' := w.(threads := WakeAll(w.threads));
      (match thread.next
       case Return(outcome) => WithThread(w', t, Returned(thread.call, outcome))
       case Reap(k, data) => WithThread(w', t, Reaping(thread.call, k, data)))
    case FinishReap(t) =>
      var thread := ThreadOf(w, t);
      var status := ToInt32(thread.data.exitStatus.value);
      WithThread(w, t, Returned(thread.call, Ok(status)))
        .(deliveries := w.deliveries + [Delivery(t, thread.call.stub, thread.spawn, status)])
  }

  predicate Step(w: World, e: Event, w': World) {
    Enabled(w, e) && PortalAllows(w, e) && w' == Do(w, e)
  }

  /** A run: worlds ws[0], ws[1], ... linked by the events es[0], es[1], ... */
  ghost predicate IsRun(ws: seq<World>, es: seq<Event>) {
    && |ws| == |es| + 1
    && Init(ws[0])
    && (forall i | 0 <= i < |es| :: Step(ws[i], es[i], ws[i + 1]))
  }

  /** The run that has not begun. */
  const INITIAL := World(Tables(map[], map[]), map[], false, [], [])

  /** A run goes on with any event that is possible at its end. */
  lemma Extend(ws: seq<World>, es: seq<Event>, e: Event) returns (ws': seq<World>, es': seq<Event>)
    requires IsRun(ws, es) && Enabled(ws[|es|], e) && PortalAllows(ws[|es|], e)
    ensures IsRun(ws', es') && es' == es + [e] && ws'[|es'|] == Do(ws[|es|], e)
  {
    ws', es' := ws + [Do(ws[|es|], e)], es + [e];
    forall i | 0 <= i < |es'| ensures Step(ws'[i], es'[i], ws'[i + 1]) {
      if i < |es| {
        assert Step(ws[i], es[i], ws[i + 1]);
      }
    }
  }

  // ---------------------------------------------------------------- the refinement relation

  ghost predicate LiveSpawnsRecorded(t: Tables, procs: seq<Spawn>) {
    forall k: nat, stub | LiveAs(procs, k, stub) :: stub in t.stubs && t.stubs[stub] == procs[k].Image()
  }

  ghost predicate RecordsOwned(t: Tables, procs: seq<Spawn>) {
    forall stub | stub in t.stubs :: exists k: nat :: LiveAs(procs, k, stub)
  }

  ghost predicate LiveStubsDistinct(procs: seq<Spawn>) {
    forall j: nat, k: nat, stub | LiveAs(procs, j, stub) && LiveAs(procs, k, stub) :: j == k
  }

  ghost predicate ExternalsIndexed(t: Tables, procs: seq<Spawn>) {
    forall k: nat, e | HasExternal(procs, k, e) :: e in t.externals && t.externals[e] == procs[k].stub
  }

  ghost predicate ExternalsOwned(t: Tables, procs: seq<Spawn>) {
    forall e | e in t.externals :: exists k: nat :: HasExternal(procs, k, e)
  }

  ghost predicate ExternalsDistinct(procs: seq<Spawn>) {
    forall j: nat, k: nat, e | HasExternal(procs, j, e) && HasExternal(procs, k, e) :: j == k
  }

  ghost predicate AllOrdered(procs: seq<Spawn>) {
    forall k | 0 <= k < |procs| :: procs[k].Ordered()
  }

  /** The two maps are exactly the live part of the table keyed by spawn, plus an index that
      remembers every external pid ever assigned. */
  ghost predicate Refines(t: Tables, procs: seq<Spawn>) {
    && LiveSpawnsRecorded(t, procs)
    && RecordsOwned(t, procs)
    && LiveStubsDistinct(procs)
    && ExternalsIndexed(t, procs)
    && ExternalsOwned(t, procs)
    && ExternalsDistinct(procs)
    && AllOrdered(procs)
  }

  // ---------------------------------------------------------------- the index never misleads

  /** The assertion in FindStubPidData never fires for a pid the portal may still signal, and the
      lookup finds exactly the record of the spawn the signal is about. */
  lemma LookupFindsOwner(t: Tables, procs: seq<Spawn>, owner: Option<nat>, external: int32)
    requires Refines(t, procs) && Owns(procs, owner, external)
    requires owner.Some? ==> procs[owner.value].exited.None?
    ensures owner.Some? ==> procs[owner.value].fate.Live?
    ensures FindByExternal(t, external) == if owner.Some? then Found(procs[owner.value].stub) else Missing
  {
    if owner.Some? {
      var k := owner.value;
      assert procs[k].Ordered();
      assert LiveAs(procs, k, procs[k].stub);
    }
  }

  /** Replacing a live spawn's data keeps the relation when its record is replaced alike. */
  lemma UpdateRefines(t: Tables, procs: seq<Spawn>, k: nat, spawn: Spawn)
    requires Refines(t, procs) && LiveAs(procs, k, spawn.stub)
    requires spawn.fate.Live? && spawn.Ordered() && spawn.external == procs[k].external
    ensures Refines(Update(t, spawn.stub, spawn.Image()), procs[k := spawn])
  {
    var procs' := procs[k := spawn];
    assert forall j: nat, stub :: LiveAs(procs', j, stub) <==> LiveAs(procs, j, stub);
    assert forall j: nat, e :: HasExternal(procs', j, e) <==> HasExternal(procs, j, e);
  }

  /** Ending a live spawn keeps the relation when its record is erased. */
  lemma EraseRefines(t: Tables, procs: seq<Spawn>, k: nat, fate: Fate)
    requires Refines(t, procs) && k < |procs| && procs[k].fate.Live?
    requires !fate.Live? && procs[k].(fate := fate).Ordered()
    ensures Refines(Erase(t, procs[k].stub), procs[k := procs[k].(fate := fate)])
  {
    var procs' := procs[k := procs[k].(fate := fate)];
    assert LiveAs(procs, k, procs[k].stub);
    assert forall j: nat, stub :: LiveAs(procs', j, stub) <==> LiveAs(procs, j, stub) && j != k;
    assert forall j: nat, e :: HasExternal(procs', j, e) <==> HasExternal(procs, j, e);
  }

  lemma RequestRefines(t: Tables, procs: seq<Spawn>, stub: int32)
    requires Refines(t, procs) && stub !in t.stubs
    ensures Refines(OnRequest(t, stub, true), procs + [Spawn(stub, None, None, None, false, Live)])
  {
    var procs' := procs + [Spawn(stub, None, None, None, false, Live)];
    assert forall j: nat, s :: LiveAs(procs', j, s) <==> LiveAs(procs, j, s) || (j == |procs| && s == stub);
    assert forall j: nat, e :: HasExternal(procs', j, e) <==> HasExternal(procs, j, e);
    assert LiveAs(procs', |procs|, stub);
  }

  lemma SpawnedRefines(t: Tables, procs: seq<Spawn>, k: nat, pid: uint32)
    requires Refines(t, procs) && k < |procs| && procs[k].fate.Live? && procs[k].external.None?
    requires Owns(procs, None, ToInt32(pid))
    ensures Refines(OnReply(t, procs[k].stub, Spawned(pid)), procs[k := procs[k].(external := Some(ToInt32(pid)))])
  {
    var external := ToInt32(pid);
    var procs' := procs[k := procs[k].(external := Some(external))];
    assert procs[k].Ordered();
    assert LiveAs(procs, k, procs[k].stub);
    assert external !in t.externals;
    assert forall j: nat, s :: LiveAs(procs', j, s) <==> LiveAs(procs, j, s);
    assert forall j: nat, e :: HasExternal(procs', j, e) <==> HasExternal(procs, j, e) || (j == k && e == external);
    assert HasExternal(procs', k, external);
  }

  lemma SignalRefines(t: Tables, procs: seq<Spawn>, k: nat, external: int32, spawn: Spawn)
    requires Refines(t, procs) && HasExternal(procs, k, external) && procs[k].exited.None?
    requires spawn.fate == procs[k].fate && spawn.Ordered()
    requires spawn.stub == procs[k].stub && spawn.external == procs[k].external
    ensures FindByExternal(t, external) == Found(spawn.stub)
    ensures t.stubs[spawn.stub] == procs[k].Image()
    ensures Refines(Update(t, spawn.stub, spawn.Image()), procs[k := spawn])
  {
    LookupFindsOwner(t, procs, Some(k), external);
    assert LiveAs(procs, k, spawn.stub);
    UpdateRefines(t, procs, k, spawn);
  }

  /** Every step of the real supervisor is a step of the table keyed by spawn. */
  lemma StepRefines(w: World, e: Event, w': World)
    requires Refines(w.tables, w.procs) && Step(w, e, w')
    ensures Refines(w'.tables, w'.procs)
  {
    match e
    case Request(stub, fulfilled) =>
      if fulfilled {
        RequestRefines(w.tables, w.procs, stub);
      }
    case Reply(k, reply) =>
      assert w.procs[k].Ordered();
      if reply.Spawned? {
        SpawnedRefines(w.tables, w.procs, k, reply.pid);
      } else {
        EraseRefines(w.tables, w.procs, k, Failed);
      }
    case Started(owner, external, internal) =>
      if owner.None? {
        LookupFindsOwner(w.tables, w.procs, None, ToInt32(external));
      } else {
        assert w.procs[owner.value].Ordered();
        SignalRefines(w.tables, w.procs, owner.value, ToInt32(external), w.procs[owner.value].(started := Some(internal)));
      }
    case Exited(owner, external, status, writeOk) =>
      if owner.None? {
        LookupFindsOwner(w.tables, w.procs, None, ToInt32(external));
      } else {
        assert w.procs[owner.value].Ordered();
        SignalRefines(w.tables, w.procs, owner.value, ToInt32(external),
                      w.procs[owner.value].(exited := Some(status), reported := writeOk));
        assert !writeOk ==> w'.tables.stubs == w.tables.stubs[w.procs[owner.value].stub := w.procs[owner.value].Image()];
      }
    case Enter(t, k) =>
      if Takes(w.tables, ThreadOf(w, t).call) {
        assert w.procs[k].Ordered();
        EraseRefines(w.tables, w.procs, k, Collected(t));
      }
    case _ =>
  }

  // ---------------------------------------------------------------- deliveries

  datatype Held = Held(stub: int32, spawn: nat, data: StubPidData)

  /** The record this thread has taken out of the map and not yet handed out. */
  function HeldBy(thread: Thread): Option<Held> {
    match thread
    case Notifying(call, Reap(k, data)) => Some(Held(call.stub, k, data))
    case Reaping(call, k, data) => Some(Held(call.stub, k, data))
    case _ => None
  }

  /** The held record is the one spawn k had when thread t collected it. */
  predicate HeldSound(procs: seq<Spawn>, t: nat, held: Held) {
    && held.spawn < |procs|
    && procs[held.spawn].fate == Collected(t)
    && procs[held.spawn].stub == held.stub
    && procs[held.spawn].Image() == held.data
  }

  ghost predicate HoldersSound(w: World) {
    forall t | t in w.threads && HeldBy(w.threads[t]).Some? :: HeldSound(w.procs, t, HeldBy(w.threads[t]).value)
  }

  /** A delivery hands out the status that SpawnExited carried for the delivered spawn. */
  predicate DeliverySound(procs: seq<Spawn>, d: Delivery) {
    && d.spawn < |procs|
    && procs[d.spawn].stub == d.stub
    && procs[d.spawn].fate == Collected(d.thread)
    && procs[d.spawn].external.Some?
    && procs[d.spawn].exited.Some?
    && d.status == ToInt32(procs[d.spawn].exited.value)
  }

  ghost predicate DeliveriesSound(w: World) {
    forall i | 0 <= i < |w.deliveries| :: DeliverySound(w.procs, w.deliveries[i])
  }

  ghost predicate DeliveredOnce(w: World) {
    && (forall i, j | 0 <= i < j < |w.deliveries| :: w.deliveries[i].spawn != w.deliveries[j].spawn)
    && (forall i, t | 0 <= i < |w.deliveries| && t in w.threads && HeldBy(w.threads[t]).Some? ::
          HeldBy(w.threads[t]).value.spawn != w.deliveries[i].spawn)
  }

  ghost predicate HandsSound(w: World) {
    HoldersSound(w) && DeliveriesSound(w) && DeliveredOnce(w)
  }

  ghost predicate Inv(w: World) {
    Refines(w.tables, w.procs) && HandsSound(w)
  }

  /** History only grows: a spawn keeps its stub, its external pid, its exit status and its end. */
  ghost predicate HistoryGrows(procs: seq<Spawn>, later: seq<Spawn>) {
    && |procs| <= |later|
    && (forall k | 0 <= k < |procs| :: procs[k].Evolves(later[k]))
  }

  lemma StepGrowsHistory(w: World, e: Event, w': World)
    requires Refines(w.tables, w.procs) && Step(w, e, w')
    ensures HistoryGrows(w.procs, w'.procs)
  {
    if e.Enter? && Takes(w.tables, ThreadOf(w, e.thread).call) {
      assert LiveAs(w.procs, e.spawn, ThreadOf(w, e.thread).call.stub);
    }
    if e.Exited? && e.owner.Some? {
      assert w.procs[e.owner.value].Ordered();
    }
  }

  lemma FrameKeepsHands(w: World, w': World)
    requires HandsSound(w) && HistoryGrows(w.procs, w'.procs)
    requires w'.deliveries == w.deliveries
    requires forall t | t in w'.threads && HeldBy(w'.threads[t]).Some? ::
               t in w.threads && HeldBy(w.threads[t]) == HeldBy(w'.threads[t])
    ensures HandsSound(w')
  {
    forall i | 0 <= i < |w.deliveries| ensures DeliverySound(w'.procs, w'.deliveries[i]) {
      assert DeliverySound(w.procs, w.deliveries[i]);
    }
  }

  lemma TakeKeepsHands(w: World, t: nat, k: nat, w': World)
    requires Inv(w) && Step(w, Enter(t, k), w') && Takes(w.tables, ThreadOf(w, t).call)
    ensures HandsSound(w')
  {
    var call := ThreadOf(w, t).call;
    assert LiveAs(w.procs, k, call.stub);
    assert HeldBy(w'.threads[t]) == Some(Held(call.stub, k, w.procs[k].Image()));
    forall i | 0 <= i < |w.deliveries|
      ensures DeliverySound(w'.procs, w'.deliveries[i]) && w.deliveries[i].spawn != k
    {
      assert DeliverySound(w.procs, w.deliveries[i]);
    }
    forall u | u in w'.threads && u != t && HeldBy(w'.threads[u]).Some?
      ensures HeldSound(w'.procs, u, HeldBy(w'.threads[u]).value)
    {
      assert HeldSound(w.procs, u, HeldBy(w.threads[u]).value);
    }
  }

  lemma ReapKeepsHands(w: World, t: nat, w': World)
    requires Inv(w) && Step(w, FinishReap(t), w')
    ensures HandsSound(w')
  {
    var held := HeldBy(w.threads[t]).value;
    assert HeldSound(w.procs, t, held);
    assert w.procs[held.spawn].Ordered();
    forall u | u in w.threads && u != t && HeldBy(w.threads[u]).Some?
      ensures HeldBy(w.threads[u]).value.spawn != held.spawn
    {
      assert HeldSound(w.procs, u, HeldBy(w.threads[u]).value);
    }
  }

  lemma InvStep(w: World, e: Event, w': World)
    requires Inv(w) && Step(w, e, w')
    ensures Inv(w')
  {
    StepRefines(w, e, w');
    StepGrowsHistory(w, e, w');
    if e.Enter? && Takes(w.tables, ThreadOf(w, e.thread).call) {
      TakeKeepsHands(w, e.thread, e.spawn, w');
    } else if e.FinishReap? {
      ReapKeepsHands(w, e.thread, w');
    } else {
      FrameKeepsHands(w, w');
    }
  }

  /** In every reachable state the two maps implement the table keyed by spawn, and every status in
      a thread's hands, or handed out, is the one its spawn had. */
  lemma {:induction false} InvAlways(ws: seq<World>, es: seq<Event>, n: nat)
    requires IsRun(ws, es) && n < |ws|
    ensures Refines(ws[n].tables, ws[n].procs) && HandsSound(ws[n])
  {
    if n > 0 {
      InvAlways(ws, es, n - 1);
      InvStep(ws[n - 1], es[n - 1], ws[n]);
    }
  }
}
