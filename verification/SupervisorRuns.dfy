/** What holds over whole runs of the supervisor, and what does not. */
module SupervisorRuns {
  import opened Basics
  import opened SupervisorState
  import opened SupervisorProtocol
  import opened SupervisorRegister

  // ---------------------------------------------------------------- correlation

  predicate RepliedAt(es: seq<Event>, i: nat, k: nat, external: int32) {
    && i < |es|
    && es[i].Reply?
    && es[i].spawn == k
    && es[i].reply.Spawned?
    && ToInt32(es[i].reply.pid) == external
  }

  predicate ExitedAt(es: seq<Event>, i: nat, k: nat, external: int32, status: uint32) {
    && i < |es|
    && es[i].Exited?
    && es[i].owner == Some(k)
    && ToInt32(es[i].external) == external
    && es[i].status == status
  }

  lemma {:induction false} ExternalWasReplied(ws: seq<World>, es: seq<Event>, n: nat, k: nat)
    requires IsRun(ws, es) && n < |ws| && k < |ws[n].procs| && ws[n].procs[k].external.Some?
    ensures exists i: nat :: i < n && RepliedAt(es, i, k, ws[n].procs[k].external.value)
  {
    InvAlways(ws, es, n - 1);
    StepGrowsHistory(ws[n - 1], es[n - 1], ws[n]);
    if k < |ws[n - 1].procs| && ws[n - 1].procs[k].external.Some? {
      ExternalWasReplied(ws, es, n - 1, k);
    } else {
      assert RepliedAt(es, n - 1, k, ws[n].procs[k].external.value);
    }
  }

  /** Only an exit signal for the spawn's own pid gives it a status. */
  lemma StatusIsNew(w: World, e: Event, w': World, k: nat)
    requires Inv(w) && Step(w, e, w') && k < |w'.procs| && w'.procs[k].exited.Some?
    requires k < |w.procs| ==> w.procs[k].exited.None?
    ensures k < |w.procs| && w.procs[k].external.Some? && w'.procs[k].external == w.procs[k].external
    ensures e.Exited? && e.owner == Some(k) && Some(e.status) == w'.procs[k].exited
    ensures Some(ToInt32(e.external)) == w.procs[k].external
  {
  }

  lemma {:induction false} StatusWasSignalled(ws: seq<World>, es: seq<Event>, n: nat, k: nat) returns (j: nat)
    requires IsRun(ws, es) && n < |ws| && k < |ws[n].procs| && ws[n].procs[k].exited.Some?
    ensures j < n && k < |ws[j].procs| && ws[j].procs[k].external.Some?
    ensures ws[n].procs[k].external == ws[j].procs[k].external
    ensures ExitedAt(es, j, k, ws[j].procs[k].external.value, ws[n].procs[k].exited.value)
  {
    InvAlways(ws, es, n - 1);
    StepGrowsHistory(ws[n - 1], es[n - 1], ws[n]);
    if k < |ws[n - 1].procs| && ws[n - 1].procs[k].exited.Some? {
      assert ws[n - 1].procs[k].Ordered();
      j := StatusWasSignalled(ws, es, n - 1, k);
    } else {
      assert Step(ws[n - 1], es[n - 1], ws[n]);
      StatusIsNew(ws[n - 1], es[n - 1], ws[n], k);
      j := n - 1;
    }
  }

  /** Every exit status handed to a thread for stub S was carried by a SpawnExited signal for the
      external pid that the portal had given in S's own Spawn reply. */
  lemma DeliveredStatusIsOwn(ws: seq<World>, es: seq<Event>, n: nat, d: nat)
    requires IsRun(ws, es) && n < |ws| && d < |ws[n].deliveries|
    ensures
      var delivery := ws[n].deliveries[d];
      exists i: nat, j: nat, external, status ::
        && i < j < n
        && RepliedAt(es, i, delivery.spawn, external)
        && ExitedAt(es, j, delivery.spawn, external, status)
        && delivery.status == ToInt32(status)
        && delivery.spawn < |ws[n].procs|
        && ws[n].procs[delivery.spawn].stub == delivery.stub
  {
    InvAlways(ws, es, n);
    var delivery := ws[n].deliveries[d];
    assert DeliverySound(ws[n].procs, delivery);
    var j := StatusWasSignalled(ws, es, n, delivery.spawn);
    ExternalWasReplied(ws, es, j, delivery.spawn);
    var i: nat :| i < j && RepliedAt(es, i, delivery.spawn, ws[j].procs[delivery.spawn].external.value);
  }

  /** Across all threads and all calls, an accepted spawn yields a status at most once. */
  lemma DeliveredAtMostOnce(ws: seq<World>, es: seq<Event>, n: nat)
    requires IsRun(ws, es) && n < |ws|
    ensures forall c, d | 0 <= c < d < |ws[n].deliveries| ::
              ws[n].deliveries[c].spawn != ws[n].deliveries[d].spawn
  {
    InvAlways(ws, es, n);
  }

  /** Although the index is never pruned, it leads from each live record's external pid back to that
      record, so no two live records share one. */
  lemma IndexAgrees(ws: seq<World>, es: seq<Event>, n: nat)
    requires IsRun(ws, es) && n < |ws|
    ensures
      var t := ws[n].tables;
      forall stub | stub in t.stubs && t.stubs[stub].external != NO_PID ::
        t.stubs[stub].external in t.externals && t.externals[t.stubs[stub].external] == stub
  {
    InvAlways(ws, es, n);
    var t, procs := ws[n].tables, ws[n].procs;
    forall stub | stub in t.stubs && t.stubs[stub].external != NO_PID
      ensures t.stubs[stub].external in t.externals && t.externals[t.stubs[stub].external] == stub
    {
      var k: nat :| LiveAs(procs, k, stub);
      assert HasExternal(procs, k, t.stubs[stub].external);
    }
  }

  /** No signal of an orderly portal ever trips the assertion in FindStubPidData. */
  lemma LookupNeverAborts(ws: seq<World>, es: seq<Event>, n: nat)
    requires IsRun(ws, es) && n < |es| && (es[n].Started? || es[n].Exited?)
    ensures !FindByExternal(ws[n].tables, ToInt32(es[n].external)).AssertionFails?
  {
    InvAlways(ws, es, n);
    assert Step(ws[n], es[n], ws[n + 1]);
    LookupFindsOwner(ws[n].tables, ws[n].procs, es[n].owner, ToInt32(es[n].external));
  }

  /** For a pid that the portal has given to spawn k, whenever a signal for it may come, the assertion
      fires if and only if the spawn has ended and its stub pid has a record again. */
  lemma LookupAbortsIff(ws: seq<World>, es: seq<Event>, n: nat, k: nat, external: int32)
    requires IsRun(ws, es) && n < |ws| && HasExternal(ws[n].procs, k, external) && external != NO_PID
    ensures FindByExternal(ws[n].tables, external).AssertionFails? <==>
            !ws[n].procs[k].fate.Live? && ws[n].procs[k].stub in ws[n].tables.stubs
  {
    InvAlways(ws, es, n);
    var t, procs := ws[n].tables, ws[n].procs;
    var stub := procs[k].stub;
    if stub in t.stubs {
      var j: nat :| LiveAs(procs, j, stub);
      if j != k {
        assert !HasExternal(procs, j, external);
      }
    }
  }

  /** A child that has run, exited and been collected, and whose stub pid has just been reused. */
  lemma ReuseStub() returns (ws: seq<World>, es: seq<Event>)
    ensures IsRun(ws, es)
    ensures HasExternal(ws[|es|].procs, 0, 40)
    ensures !ws[|es|].procs[0].fate.Live? && ws[|es|].procs[0].stub in ws[|es|].tables.stubs
  {
    ws, es := CollectedChild();
    ws, es := Extend(ws, es, Request(7, true));
  }

  lemma ExitedChild() returns (ws: seq<World>, es: seq<Event>)
    ensures IsRun(ws, es)
    ensures ws[|es|] == World(Tables(map[7 := StubPidData(40, 2, Some(0), INVALID_FD)], map[40 := 7]), map[], false,
                              [Spawn(7, Some(40), Some(2), Some(0), true, Live)], [])
  {
    ws, es := [INITIAL], [];
    ws, es := Extend(ws, es, Request(7, true));
    ws, es := Extend(ws, es, Reply(0, Spawned(40)));
    ws, es := Extend(ws, es, Started(Some(0), 40, 2));
    ws, es := Extend(ws, es, BusNotify);
    ws, es := Extend(ws, es, Exited(Some(0), 40, 0, true));
    ws, es := Extend(ws, es, BusNotify);
  }

  lemma CollectedChild() returns (ws: seq<World>, es: seq<Event>)
    ensures IsRun(ws, es)
    ensures ws[|es|].tables.stubs == map[] && !ws[|es|].busNotifying
    ensures ws[|es|].procs == [Spawn(7, Some(40), Some(2), Some(0), true, Collected(0))]
  {
    ws, es := ExitedChild();
    ws, es := Extend(ws, es, StartCall(0, WaitForExitStatus(7)));
    assert ProbeExit(ws[|es|].tables, 7).Dead?;
    ws, es := Extend(ws, es, Enter(0, 0));
  }

  /** So the order assumption is needed: the index is never pruned, and a run leads to a world in which
      a late signal for pid 40 trips the assertion. */
  lemma LateSignalAborts() returns (ws: seq<World>, es: seq<Event>)
    ensures IsRun(ws, es)
    ensures FindByExternal(ws[|es|].tables, 40).AssertionFails?
  {
    ws, es := ReuseStub();
    LookupAbortsIff(ws, es, |es|, 0, 40);
  }

  // ---------------------------------------------------------------- the descriptor that was moved away

  /** A write to an invalid descriptor fails. */
  predicate WritesHonest(w: World, e: Event) {
    e.Exited? && e.writeOk ==>
      match FindByExternal(w.tables, ToInt32(e.external))
      case Found(stub) => w.tables.stubs[stub].notifyExit != INVALID_FD
      case _ => true
  }

  /** An exit signal for a live spawn makes its status available exactly when the write to the
      stub process succeeds. */
  lemma ExitRecordedIffWritten(ws: seq<World>, es: seq<Event>, n: nat)
    requires IsRun(ws, es) && n < |es| && es[n].Exited? && es[n].owner.Some?
    ensures ProbeExit(ws[n + 1].tables, ws[n].procs[es[n].owner.value].stub).Dead? <==> es[n].writeOk
  {
    InvAlways(ws, es, n);
    assert Step(ws[n], es[n], ws[n + 1]);
    var k := es[n].owner.value;
    LookupFindsOwner(ws[n].tables, ws[n].procs, Some(k), ToInt32(es[n].external));
    assert ws[n].procs[k].Ordered();
    assert LiveAs(ws[n].procs, k, ws[n].procs[k].stub);
  }

  ghost predicate NoneReported(procs: seq<Spawn>) {
    forall k | 0 <= k < |procs| :: !procs[k].reported
  }

  lemma NoneReportedStep(w: World, e: Event, w': World)
    requires Inv(w) && NoneReported(w.procs) && WritesHonest(w, e) && Step(w, e, w')
    ensures NoneReported(w'.procs)
  {
    if e.Exited? && e.owner.Some? {
      LookupFindsOwner(w.tables, w.procs, e.owner, ToInt32(e.external));
      assert LiveAs(w.procs, e.owner.value, w.procs[e.owner.value].stub);
    }
  }

  lemma DeliveredIsReported(procs: seq<Spawn>, d: Delivery)
    requires AllOrdered(procs) && DeliverySound(procs, d)
    ensures procs[d.spawn].reported
  {
    assert procs[d.spawn].Ordered();
  }

  lemma NoneReportedNoneDelivered(w: World)
    requires Inv(w) && NoneReported(w.procs)
    ensures w.deliveries == []
  {
    if w.deliveries != [] {
      DeliveredIsReported(w.procs, w.deliveries[0]);
    }
  }

  /** Because HandleSpawnRequest stores a moved-from descriptor, no exit is ever recorded and no
      thread ever obtains an exit status. */
  lemma {:induction false} MovedFromDescriptorLosesExits(ws: seq<World>, es: seq<Event>, n: nat)
    requires IsRun(ws, es) && n < |ws|
    requires forall i | 0 <= i < |es| :: WritesHonest(ws[i], es[i])
    ensures NoneReported(ws[n].procs)
    ensures ws[n].deliveries == []
  {
    InvAlways(ws, es, n);
    if n > 0 {
      MovedFromDescriptorLosesExits(ws, es, n - 1);
      InvAlways(ws, es, n - 1);
      NoneReportedStep(ws[n - 1], es[n - 1], ws[n]);
    }
    NoneReportedNoneDelivered(ws[n]);
  }

  // ---------------------------------------------------------------- so no wait for a child returns

  /** No write to a stub process has succeeded. */
  predicate NoneWritten(es: seq<Event>) {
    forall i | 0 <= i < |es| :: !(es[i].Exited? && es[i].writeOk)
  }

  lemma WaitingForChild() returns (ws: seq<World>, es: seq<Event>)
    ensures IsRun(ws, es) && NoneWritten(es)
    ensures ws[|es|] == World(Tables(map[7 := StubPidData(40, 2, None, INVALID_FD)], map[40 := 7]),
                              map[0 := Entering(WaitForExitStatus(7))], false,
                              [Spawn(7, Some(40), Some(2), None, false, Live)], [])
  {
    ws, es := [INITIAL], [];
    ws, es := Extend(ws, es, Request(7, true));
    ws, es := Extend(ws, es, Reply(0, Spawned(40)));
    ws, es := Extend(ws, es, Started(Some(0), 40, 2));
    ws, es := Extend(ws, es, BusNotify);
    ws, es := Extend(ws, es, StartCall(0, WaitForExitStatus(7)));
  }

  /** An exit whose write fails, as it must: the child is dead and its waiter sleeps on. */
  lemma ExitIsLost() returns (ws: seq<World>, es: seq<Event>)
    ensures IsRun(ws, es) && forall i | 0 <= i < |es| :: WritesHonest(ws[i], es[i])
    ensures |ws[|es|].procs| == 1 && ws[|es|].procs[0].exited == Some(0)
    ensures ThreadOf(ws[|es|], 0) == Asleep(WaitForExitStatus(7)) && !ws[|es|].busNotifying
  {
    ws, es := WaitingForChild();
    assert ProbeExit(ws[|es|].tables, 7).StillRunning?;
    ws, es := Extend(ws, es, Enter(0, 0));
    ws, es := Extend(ws, es, Exited(Some(0), 40, 0, false));
    ws, es := Extend(ws, es, BusNotify);
    assert ProbeExit(ws[|es|].tables, 7).StillRunning?;
    ws, es := Extend(ws, es, Enter(0, 0));
    assert NoneWritten(es);
  }

  /** What history says of a spawn holds on. */
  lemma {:induction false} HistoryAlong(ws: seq<World>, es: seq<Event>, m: nat, n: nat, k: nat)
    requires IsRun(ws, es) && m <= n < |ws| && k < |ws[m].procs|
    ensures k < |ws[n].procs| && ws[n].procs[k].stub == ws[m].procs[k].stub
    ensures ws[m].procs[k].external.Some? ==> ws[n].procs[k].external == ws[m].procs[k].external
    decreases n
  {
    if m < n {
      HistoryAlong(ws, es, m, n - 1, k);
      InvAlways(ws, es, n - 1);
      StepGrowsHistory(ws[n - 1], es[n - 1], ws[n]);
    }
  }

  /** A child that the portal has given a pid never leaves the table. */
  lemma AcceptedStaysLive(ws: seq<World>, es: seq<Event>, m: nat, n: nat, k: nat, stub: int32)
    requires IsRun(ws, es) && m <= n < |ws| && LiveAs(ws[m].procs, k, stub) && ws[m].procs[k].external.Some?
    requires forall i | 0 <= i < |es| :: WritesHonest(ws[i], es[i])
    ensures LiveAs(ws[n].procs, k, stub)
  {
    HistoryAlong(ws, es, m, n, k);
    InvAlways(ws, es, n);
    MovedFromDescriptorLosesExits(ws, es, n);
    assert ws[n].procs[k].Ordered();
  }

  /** A WaitForExitStatus that returns at all returns kNotFound, and at some moment of the call there
      was no live child of that stub. */
  lemma WaitFindsNobody(ws: seq<World>, es: seq<Event>, n: nat, t: nat, stub: int32) returns (s: nat, i: nat)
    requires IsRun(ws, es) && n < |ws|
    requires forall i | 0 <= i < |es| :: WritesHonest(ws[i], es[i])
    requires ThreadOf(ws[n], t).Returned? && ThreadOf(ws[n], t).call == WaitForExitStatus(stub)
    ensures ThreadOf(ws[n], t).outcome == NotFound
    ensures s < i < n && StartsAt(es, s, t, WaitForExitStatus(stub)) && SameCall(es, s, n, t)
    ensures forall k: nat :: !LiveAs(ws[i].procs, k, stub)
  {
    s, i := CallsAreLinearizable(ws, es, n, t);
    MovedFromDescriptorLosesExits(ws, es, i);
  }

  /** So once the portal has accepted a spawn, no wait for it ever returns. */
  lemma WaitNeverReturns(ws: seq<World>, es: seq<Event>, s: nat, n: nat, t: nat, k: nat, stub: int32)
    requires IsRun(ws, es) && s < n < |ws|
    requires forall i | 0 <= i < |es| :: WritesHonest(ws[i], es[i])
    requires StartsAt(es, s, t, WaitForExitStatus(stub)) && SameCall(es, s, n, t)
    requires LiveAs(ws[s].procs, k, stub) && ws[s].procs[k].external.Some?
    ensures !ThreadOf(ws[n], t).Returned?
  {
    if ThreadOf(ws[n], t).Returned? {
      assert ThreadOf(ws[n], t).call == WaitForExitStatus(stub) by {
        var s' := CallBegan(ws, es, n, t);
        assert s' == s;
      }
      var s', i := WaitFindsNobody(ws, es, n, t, stub);
      assert s' == s;
      AcceptedStaysLive(ws, es, s, i, k, stub);
    }
  }
}
