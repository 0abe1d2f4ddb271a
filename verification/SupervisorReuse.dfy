/** What the handlers do outside the orderly runs: where the portal or the kernel reuses a pid. */
module SupervisorReuse {
  import opened Basics
  import opened SupervisorState

  /** A request for a stub pid that has a record already keeps that record, so the new stub takes over
      its predecessor's pids and exit status: it counts as dead if the predecessor was. */
  lemma ReusedStubInherits(t: Tables, stub: int32)
    requires stub in t.stubs
    ensures
      var t' := OnRequest(t, stub, true);
      && t'.externals == t.externals && t'.stubs.Keys == t.stubs.Keys
      && t'.stubs[stub].external == t.stubs[stub].external
      && t'.stubs[stub].internal == t.stubs[stub].internal
      && (ProbeExit(t', stub).Dead? <==> ProbeExit(t, stub).Dead?)
      && t'.stubs[stub].exitStatus == t.stubs[stub].exitStatus
      && (forall other | other in t.stubs && other != stub :: t'.stubs[other] == t.stubs[other])
  {
  }

  /** A reply for a stub without a record is ignored, whatever it says. */
  lemma LateReplyIgnored(t: Tables, stub: int32, reply: SpawnReply)
    requires stub !in t.stubs
    ensures OnReply(t, stub, reply) == t
  {
  }

  /** No handler ever takes an entry out of the index, or changes one. */
  lemma IndexOnlyGrows(t: Tables, stub: int32, reply: SpawnReply, external: int32)
    requires external in t.externals
    ensures
      var t' := OnReply(t, stub, reply);
      external in t'.externals && t'.externals[external] == t.externals[external]
  {
  }

  /** So when the portal gives an external pid out again, signals for it find the new child's record if
      and only if the old child had the same stub pid; otherwise they find nothing, or trip the assertion
      if the old stub's record has another pid by now. */
  lemma ReusedPidFinds(t: Tables, stub: int32, pid: uint32)
    requires stub in t.stubs && ToInt32(pid) in t.externals
    ensures
      var t', former := OnReply(t, stub, Spawned(pid)), t.externals[ToInt32(pid)];
      && (former == stub ==> FindByExternal(t', ToInt32(pid)) == Found(stub))
      && (former != stub && former !in t.stubs ==> FindByExternal(t', ToInt32(pid)) == Missing)
      && (former != stub && former in t.stubs ==>
            FindByExternal(t', ToInt32(pid)) ==
            if t.stubs[former].external == ToInt32(pid) then Found(former) else AssertionFails)
  {
  }
}
