/** The two tables of the spawn-strategy supervisor and what each bus handler does to them
    (src/preload/host/spawn_strategy/supervisor.cc). */
module SupervisorState {
  import opened Basics

  const NO_PID: int32 := -1

  datatype StubPidData = StubPidData(
    external: int32,
    internal: int32,
    exitStatus: Option<uint32>,
    notifyExit: int
  )

  const NEW_DATA := StubPidData(NO_PID, NO_PID, None, INVALID_FD)

  /** `stub_pids_data_` and `external_to_stub_pids_`. */
  datatype Tables = Tables(stubs: map<int32, StubPidData>, externals: map<int32, int32>)

  /** The portal's answer to Spawn: a pid, or an invocation error. */
  datatype SpawnReply = Spawned(pid: uint32) | InvocationError

  /** Looking an external pid up ends in one of three ways; the last one aborts the process. */
  datatype Lookup = Missing | Found(stub: int32) | AssertionFails

  function FindByExternal(t: Tables, external: int32): Lookup {
    if external !in t.externals || t.externals[external] !in t.stubs then
      Missing
    else if t.stubs[t.externals[external]].external == external then
      Found(t.externals[external])
    else
      AssertionFails
  }

  function Update(t: Tables, stub: int32, data: StubPidData): Tables {
    t.(stubs := t.stubs[stub := data])
  }

  function Erase(t: Tables, stub: int32): Tables {
    t.(stubs := t.stubs - {stub})
  }

  /** `emplace` keeps an existing record; only its descriptor is replaced, by a moved-from one. */
  function OnRequest(t: Tables, stub: int32, fulfilled: bool): Tables {
    if !fulfilled then
      t
    else
      var data := if stub in t.stubs then t.stubs[stub] else NEW_DATA;
      Update(t, stub, data.(notifyExit := INVALID_FD))
  }

  function OnReply(t: Tables, stub: int32, reply: SpawnReply): Tables {
    if stub !in t.stubs then
      t
    else if reply.InvocationError? then
      Erase(t, stub)
    else
      var external := ToInt32(reply.pid);
      var t' := Update(t, stub, t.stubs[stub].(external := external));
      if external in t.externals then t' else t'.(externals := t.externals[external := stub])
  }

  function OnStarted(t: Tables, external: uint32, internal: uint32): Tables {
    match FindByExternal(t, ToInt32(external))
    case Found(stub) => Update(t, stub, t.stubs[stub].(internal := ToInt32(internal)))
    case _ => t
  }

  /** `writeOk` is the outcome of telling the stub process about the exit. */
  function OnExited(t: Tables, external: uint32, status: uint32, writeOk: bool): Tables {
    match FindByExternal(t, ToInt32(external))
    case Found(stub) =>
      if writeOk then Update(t, stub, t.stubs[stub].(exitStatus := Some(status))) else t
    case _ => t
  }

  /** What a caller of GetExitStatus or WaitForExitStatus finds under the mutex. */
  datatype Probe = Unknown | StillRunning | Dead(data: StubPidData)

  function ProbeExit(t: Tables, stub: int32): Probe {
    if stub !in t.stubs then Unknown
    else if t.stubs[stub].exitStatus.None? then StillRunning
    else Dead(t.stubs[stub])
  }
}

/** The supervisor object: the handlers update its two maps in place. */
module SupervisorObject {
  import opened Basics
  import opened SupervisorState

  /** An owned descriptor number; moving out of it leaves it invalid (src/base/unique_fd.h). */
  class UniqueFd {
    var fd: int

    constructor (fd: int)
      ensures this.fd == fd
    {
      this.fd := fd;
    }

    method Release() returns (released: int)
      modifies this
      ensures released == old(fd) && fd == INVALID_FD
    {
      released := fd;
      fd := INVALID_FD;
    }
  }

  class Supervisor {
    var stubPidsData: map<int32, StubPidData>
    var externalToStubPids: map<int32, int32>

    function Contents(): Tables
      reads this
    {
      Tables(stubPidsData, externalToStubPids)
    }

    constructor ()
      ensures Contents() == Tables(map[], map[])
    {
      stubPidsData, externalToStubPids := map[], map[];
    }

    method FindStubPidData(external: int32) returns (r: Lookup)
      ensures r == FindByExternal(Contents(), external)
      ensures r.Found? ==> r.stub in stubPidsData && stubPidsData[r.stub].external == external
    {
      if external !in externalToStubPids {
        return Missing;
      }
      var stub := externalToStubPids[external];
      if stub !in stubPidsData {
        return Missing;
      }
      r := if stubPidsData[stub].external == external then Found(stub) else AssertionFails;
    }

    /** The descriptor is moved into the request reader first, so what is stored afterwards is
        the moved-from value. */
    method HandleSpawnRequest(communicationFd: UniqueFd, stubPid: int32, fulfilled: bool)
      modifies this, communicationFd
      ensures Contents() == OnRequest(old(Contents()), stubPid, fulfilled)
      ensures communicationFd.fd == INVALID_FD
    {
      var consumed := communicationFd.Release();
      if !fulfilled {
        return;
      }
      if stubPid !in stubPidsData {
        stubPidsData := stubPidsData[stubPid := NEW_DATA];
      }
      var stored := communicationFd.Release();
      stubPidsData := stubPidsData[stubPid := stubPidsData[stubPid].(notifyExit := stored)];
    }

    method HandleSpawnReply(stubPid: int32, reply: SpawnReply)
      modifies this
      ensures Contents() == OnReply(old(Contents()), stubPid, reply)
    {
      if stubPid !in stubPidsData {
        return;
      }
      match reply {
        case InvocationError =>
          stubPidsData := stubPidsData - {stubPid};
        case Spawned(pid) =>
          var external := ToInt32(pid);
          stubPidsData := stubPidsData[stubPid := stubPidsData[stubPid].(external := external)];
          if external !in externalToStubPids {
            externalToStubPids := externalToStubPids[external := stubPid];
          }
      }
    }

    method HandleSpawnStarted(external: uint32, internal: uint32) returns (aborted: bool)
      modifies this`stubPidsData
      ensures Contents() == OnStarted(old(Contents()), external, internal)
      ensures aborted == old(FindByExternal(Contents(), ToInt32(external))).AssertionFails?
    {
      var found := FindStubPidData(ToInt32(external));
      if found.Found? {
        stubPidsData := stubPidsData[found.stub := stubPidsData[found.stub].(internal := ToInt32(internal))];
      }
      aborted := found.AssertionFails?;
    }

    method HandleSpawnExited(external: uint32, status: uint32, writeOk: bool) returns (aborted: bool)
      modifies this`stubPidsData
      ensures Contents() == OnExited(old(Contents()), external, status, writeOk)
      ensures aborted == old(FindByExternal(Contents(), ToInt32(external))).AssertionFails?
    {
      var found := FindStubPidData(ToInt32(external));
      if found.Found? && writeOk {
        stubPidsData := stubPidsData[found.stub := stubPidsData[found.stub].(exitStatus := Some(status))];
      }
      aborted := found.AssertionFails?;
    }

    /** The part of GetExitStatus and WaitForExitStatus done under the mutex: the record of a
        dead child leaves the map and belongs to the caller. */
    method TakeIfDead(stubPid: int32) returns (probe: Probe)
      modifies this`stubPidsData
      ensures probe == old(ProbeExit(Contents(), stubPid))
      ensures Contents() == if probe.Dead? then Erase(old(Contents()), stubPid) else old(Contents())
    {
      if stubPid !in stubPidsData {
        return Unknown;
      }
      var data := stubPidsData[stubPid];
      if data.exitStatus.None? {
        return StillRunning;
      }
      stubPidsData := stubPidsData - {stubPid};
      probe := Dead(data);
    }
  }
}
