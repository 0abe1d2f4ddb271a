/** The portal's view of the Spawn message: walking its values in order recovers the call
    (src/dbus/flatpak_portal_proxy.cc, src/dbus/bus_readable_message.h). */
module PortalReading {
  import opened Basics
  import opened DBusTyping
  import opened PortalMessage
  import opened FdAssignments

  datatype Got<T> = Got(value: T, rest: seq<Token>) | Bad

  /** A byte array that is a C string: it ends with a null character and contains no other. */
  function GetByteString(ts: seq<Token>): Got<string> {
    if |ts| >= 3 && ts[0] == OpenArray("y") && ts[1].Bytes? && IsCString(ts[1].data) && ts[2] == Close then
      Got(ts[1].data[..|ts[1].data| - 1], ts[3..])
    else
      Bad
  }

  predicate IsCString(data: string) {
    data != "" && data[|data| - 1] == '\0' && '\0' !in data[..|data| - 1]
  }

  predicate NoNulls(argv: seq<string>) {
    forall i | 0 <= i < |argv| :: NoNull(argv[i])
  }

  /** The elements up to the end of the array, which is consumed too. */
  function GetArgs(ts: seq<Token>): Got<seq<string>>
    decreases |ts|
  {
    if ts != [] && ts[0] == Close then Got([], ts[1..])
    else
      match GetByteString(ts)
      case Bad => Bad
      case Got(arg, rest) =>
        match GetArgs(rest)
        case Bad => Bad
        case Got(args, rest') => Got([arg] + args, rest')
  }

  function GetFds(ts: seq<Token>): Got<seq<(uint32, int)>>
    decreases |ts|
  {
    if ts != [] && ts[0] == Close then Got([], ts[1..])
    else if |ts| >= 4 && ts[0] == OpenDictEntry && ts[1].UInt? && ts[2].Handle? && ts[3] == Close then
      match GetFds(ts[4..])
      case Bad => Bad
      case Got(fds, rest) => Got([(ts[1].n, ts[2].fd)] + fds, rest)
    else
      Bad
  }

  function GetEnv(ts: seq<Token>): Got<seq<(string, string)>>
    decreases |ts|
  {
    if ts != [] && ts[0] == Close then Got([], ts[1..])
    else if |ts| >= 4 && ts[0] == OpenDictEntry && ts[1].Str? && ts[2].Str? && ts[3] == Close then
      match GetEnv(ts[4..])
      case Bad => Bad
      case Got(env, rest) => Got([(ts[1].s, ts[2].s)] + env, rest)
    else
      Bad
  }

  /** The arguments come back, in order, exactly when none of them contains a null character. */
  lemma {:induction false} GetArgsBack(argv: seq<string>, rest: seq<Token>)
    ensures GetArgs(Args(argv) + ([Close] + rest)) == if NoNulls(argv) then Got(argv, rest) else Bad
  {
    var end := [Close] + rest;
    if argv == [] {
      assert Args(argv) + end == end && end[1..] == rest;
    } else {
      GetArgsBack(argv[1..], rest);
      GetArgsCons(argv[0], Args(argv[1..]) + end);
      Regroup(ByteString(argv[0]), Args(argv[1..]), end);
      assert [argv[0]] + argv[1..] == argv;
      NoNullsCons(argv);
    }
  }

  lemma NoNullsCons(argv: seq<string>)
    requires argv != []
    ensures NoNulls(argv) <==> NoNull(argv[0]) && NoNulls(argv[1..])
  {
    assert argv == [argv[0]] + argv[1..];
  }

  lemma GetArgsCons(arg: string, tail: seq<Token>)
    ensures GetArgs(ByteString(arg) + tail) ==
            if NoNull(arg) && GetArgs(tail).Got? then Got([arg] + GetArgs(tail).value, GetArgs(tail).rest) else Bad
  {
    GetByteStringBack(arg, tail);
    assert (ByteString(arg) + tail)[0] == OpenArray("y");
  }

  lemma GetFdsCons(target: uint32, fd: int, tail: seq<Token>)
    requires GetFds(tail).Got?
    ensures GetFds(FdEntry(target, fd) + tail) == Got([(target, fd)] + GetFds(tail).value, GetFds(tail).rest)
  {
    assert (FdEntry(target, fd) + tail)[4..] == tail;
  }

  lemma {:induction false} GetFdsBack(a: seq<Assignment>, rest: seq<Token>)
    requires TargetsFit(a)
    ensures GetFds(Fds(a) + ([Close] + rest)) == Got(FdPairs(a), rest)
  {
    var end := [Close] + rest;
    if a == [] {
      assert Fds(a) + end == end && end[1..] == rest;
    } else {
      GetFdsBack(a[1..], rest);
      GetFdsCons(ToUint32(a[0].target), a[0].fd, Fds(a[1..]) + end);
      Regroup(FdEntry(ToUint32(a[0].target), a[0].fd), Fds(a[1..]), end);
    }
  }

  /** The descriptors as the portal sees them: unsigned target, handle. */
  function FdPairs(a: seq<Assignment>): seq<(uint32, int)>
    requires TargetsFit(a)
  {
    if a == [] then [] else [(ToUint32(a[0].target), a[0].fd)] + FdPairs(a[1..])
  }

  function EnvPairs(env: seq<(string, string)>): seq<(string, string)> {
    if env == [] then [] else [(CStr(env[0].0), CStr(env[0].1))] + EnvPairs(env[1..])
  }

  lemma GetEnvCons(name: string, value: string, tail: seq<Token>)
    requires GetEnv(tail).Got?
    ensures GetEnv(EnvEntry(name, value) + tail) == Got([(name, value)] + GetEnv(tail).value, GetEnv(tail).rest)
  {
    assert (EnvEntry(name, value) + tail)[4..] == tail;
  }

  lemma {:induction false} GetEnvBack(env: seq<(string, string)>, rest: seq<Token>)
    ensures GetEnv(Env(env) + ([Close] + rest)) == Got(EnvPairs(env), rest)
  {
    var end := [Close] + rest;
    if env == [] {
      assert Env(env) + end == end && end[1..] == rest;
    } else {
      GetEnvBack(env[1..], rest);
      GetEnvCons(CStr(env[0].0), CStr(env[0].1), Env(env[1..]) + end);
      Regroup(EnvEntry(CStr(env[0].0), CStr(env[0].1)), Env(env[1..]), end);
    }
  }

  /** Environment strings survive exactly when they contain no null character. */
  lemma {:induction false} EnvPairsIff(env: seq<(string, string)>)
    ensures EnvPairs(env) == env <==>
            forall i | 0 <= i < |env| :: NoNull(env[i].0) && NoNull(env[i].1)
  {
    if env != [] {
      EnvPairsIff(env[1..]);
      CStrKeepsIff(env[0].0);
      CStrKeepsIff(env[0].1);
      assert env == [env[0]] + env[1..];
      var pairs := EnvPairs(env);
      assert pairs[1..] == EnvPairs(env[1..]) && pairs[0] == (CStr(env[0].0), CStr(env[0].1));
      if forall i | 0 <= i < |env[1..]| :: NoNull(env[1..][i].0) && NoNull(env[1..][i].1) {
        forall i | 0 < i < |env| ensures NoNull(env[i].0) && NoNull(env[i].1) {
          assert env[1..][i - 1] == env[i];
        }
      }
    }
  }

  function GetHandles(ts: seq<Token>): Got<seq<int>>
    decreases |ts|
  {
    if ts != [] && ts[0] == Close then Got([], ts[1..])
    else if ts != [] && ts[0].Handle? then
      match GetHandles(ts[1..])
      case Bad => Bad
      case Got(fds, rest) => Got([ts[0].fd] + fds, rest)
    else
      Bad
  }

  lemma GetHandlesCons(fd: int, tail: seq<Token>)
    requires GetHandles(tail).Got?
    ensures GetHandles([Handle(fd)] + tail) == Got([fd] + GetHandles(tail).value, GetHandles(tail).rest)
  {
    Behind([Handle(fd)], tail);
  }

  lemma {:induction false} GetHandlesBack(fds: seq<int>, rest: seq<Token>)
    ensures GetHandles(Handles(fds) + ([Close] + rest)) == Got(fds, rest)
  {
    var end := [Close] + rest;
    if fds == [] {
      assert Handles(fds) + end == end && end[1..] == rest;
    } else {
      GetHandlesBack(fds[1..], rest);
      GetHandlesCons(fds[0], Handles(fds[1..]) + end);
      Regroup([Handle(fds[0])], Handles(fds[1..]), end);
      assert [fds[0]] + fds[1..] == fds;
    }
  }

  // ---------------------------------------------------------------- options

  /** The sandbox flags, zero when the entry is missing. */
  function GetSandboxFlags(ts: seq<Token>): Got<uint32> {
    if |ts| >= 6 && ts[0] == OpenDictEntry && ts[1] == Str("sandbox-flags") then
      if ts[2] == OpenVariant("u") && ts[3].UInt? && ts[4] == Close && ts[5] == Close then Got(ts[3].n, ts[6..])
      else Bad
    else
      Got(0, ts)
  }

  function GetExposeRo(ts: seq<Token>): Got<seq<int>> {
    if |ts| >= 4 && ts[..4] == [OpenDictEntry, Str("sandbox-expose-fd-ro"), OpenVariant("ah"), OpenArray("h")] then
      match GetHandles(ts[4..])
      case Bad => Bad
      case Got(fds, rest) =>
        if |rest| >= 2 && rest[0] == Close && rest[1] == Close then Got(fds, rest[2..]) else Bad
    else
      Got([], ts)
  }

  lemma GetSandboxFlagsBack(flags: uint32, rest: seq<Token>)
    requires rest != [] && (rest[0] == OpenDictEntry ==> |rest| > 1 && rest[1] != Str("sandbox-flags"))
    ensures GetSandboxFlags(SandboxFlags(flags) + rest) == Got(flags, rest)
  {
    if flags == 0 {
      assert SandboxFlags(flags) + rest == rest;
    } else {
      assert (SandboxFlags(flags) + rest)[6..] == rest;
    }
  }

  lemma ExposeRoIs(fds: seq<int>, rest: seq<Token>)
    requires fds != []
    ensures ExposeRo(fds) + rest == EXPOSE_OPENING + (Handles(fds) + ([Close] + ([Close, Close] + rest)))
  {
    Regroup(EXPOSE_OPENING, Handles(fds), [Close, Close, Close]);
    Regroup(EXPOSE_OPENING, Handles(fds) + [Close, Close, Close], rest);
    Regroup(Handles(fds), [Close, Close, Close], rest);
    assert [Close, Close, Close] + rest == [Close] + ([Close, Close] + rest);
  }

  lemma GetExposeRoBack(fds: seq<int>, rest: seq<Token>)
    requires rest != [] && rest[0] == Close
    ensures GetExposeRo(ExposeRo(fds) + rest) == Got(fds, rest)
  {
    if fds == [] {
      assert ExposeRo(fds) + rest == rest;
      assert |rest| >= 4 ==> rest[..4][0] == Close;
    } else {
      var tail := Handles(fds) + ([Close] + ([Close, Close] + rest));
      ExposeRoIs(fds, rest);
      Behind(EXPOSE_OPENING, tail);
      GetHandlesBack(fds, [Close, Close] + rest);
      Behind([Close, Close], rest);
    }
  }

  // ---------------------------------------------------------------- the whole message

  datatype Received = Received(
    cwd: string,
    argv: seq<string>,
    fds: seq<(uint32, int)>,
    env: seq<(string, string)>,
    flags: uint32,
    sandboxFlags: uint32,
    exposeRo: seq<int>
  )

  /** What the portal is meant to see of a call. */
  function Meaning(c: SpawnCall): Received
    requires TargetsFit(c.fds)
  {
    Received(c.cwd, c.argv, FdPairs(c.fds), EnvPairs(c.env), c.flags, c.sandboxFlags, c.exposeRo)
  }

  function GetOptions(ts: seq<Token>): Got<(uint32, seq<int>)> {
    if ts == [] || ts[0] != OpenArray("{sv}") then Bad
    else
      match GetSandboxFlags(ts[1..])
      case Bad => Bad
      case Got(flags, afterFlags) =>
        match GetExposeRo(afterFlags)
        case Bad => Bad
        case Got(fds, rest) =>
          if rest != [] && rest[0] == Close then Got((flags, fds), rest[1..]) else Bad
  }

  lemma GetOptionsBack(flags: uint32, fds: seq<int>)
    ensures GetOptions(OptionArray(flags, fds)) == Got((flags, fds), [])
  {
    var open, flagPart, exposePart := [OpenArray("{sv}")], SandboxFlags(flags), ExposeRo(fds);
    Regroup(flagPart, exposePart, [Close]);
    Regroup(open, flagPart + exposePart, [Close]);
    TailOf(OpenArray("{sv}"), flagPart + (exposePart + [Close]));
    GetSandboxFlagsBack(flags, exposePart + [Close]);
    GetExposeRoBack(fds, [Close]);
    GetOptionsFrom(OptionArray(flags, fds), flags, exposePart + [Close], fds);
  }

  lemma GetOptionsFrom(ts: seq<Token>, flags: uint32, afterFlags: seq<Token>, fds: seq<int>)
    requires ts != [] && ts[0] == OpenArray("{sv}")
    requires GetSandboxFlags(ts[1..]) == Got(flags, afterFlags)
    requires GetExposeRo(afterFlags) == Got(fds, [Close])
    ensures GetOptions(ts) == Got((flags, fds), [])
  {
  }

  lemma TailOf<T>(x: T, rest: seq<T>)
    ensures ([x] + rest)[0] == x && ([x] + rest)[1..] == rest
  {
  }

  // Each stage reads one value and what follows it; the fields before it are still blank.

  function DecodeEnd(ts: seq<Token>): Option<Received> {
    if ts == [] || !ts[0].UInt? then None
    else
      match GetOptions(ts[1..])
      case Bad => None
      case Got(options, rest) =>
        if rest == [] then Some(Received("", [], [], [], ts[0].n, options.0, options.1)) else None
  }

  function DecodeEnv(ts: seq<Token>): Option<Received> {
    if ts == [] || ts[0] != OpenArray("{ss}") then None
    else
      match GetEnv(ts[1..])
      case Bad => None
      case Got(env, rest) =>
        match DecodeEnd(rest)
        case None => None
        case Some(end) => Some(end.(env := env))
  }

  function DecodeFds(ts: seq<Token>): Option<Received> {
    if ts == [] || ts[0] != OpenArray("{uh}") then None
    else
      match GetFds(ts[1..])
      case Bad => None
      case Got(fds, rest) =>
        match DecodeEnv(rest)
        case None => None
        case Some(end) => Some(end.(fds := fds))
  }

  function DecodeArgs(ts: seq<Token>): Option<Received> {
    if ts == [] || ts[0] != OpenArray("ay") then None
    else
      match GetArgs(ts[1..])
      case Bad => None
      case Got(argv, rest) =>
        match DecodeFds(rest)
        case None => None
        case Some(end) => Some(end.(argv := argv))
  }

  /** Walking the message in the order of its signature. */
  function Decode(ts: seq<Token>): Option<Received> {
    match GetByteString(ts)
    case Bad => None
    case Got(cwd, rest) =>
      match DecodeArgs(rest)
      case None => None
      case Some(end) => Some(end.(cwd := cwd))
  }

  lemma GetByteStringBack(s: string, rest: seq<Token>)
    ensures GetByteString(ByteString(s) + rest) == if NoNull(s) then Got(s, rest) else Bad
  {
    var data := s + ['\0'];
    assert (ByteString(s) + rest)[3..] == rest;
    assert data[..|s|] == s && data[|data| - 1] == '\0';
    assert (ByteString(s) + rest)[1] == Bytes(data);
  }

  lemma DecodeEndBack(flags: uint32, sandboxFlags: uint32, exposeRo: seq<int>)
    ensures DecodeEnd([UInt(flags)] + OptionArray(sandboxFlags, exposeRo)) ==
            Some(Received("", [], [], [], flags, sandboxFlags, exposeRo))
  {
    GetOptionsBack(sandboxFlags, exposeRo);
    assert ([UInt(flags)] + OptionArray(sandboxFlags, exposeRo))[1..] == OptionArray(sandboxFlags, exposeRo);
  }

  lemma Enclosed<T>(x: T, a: seq<T>, y: T, rest: seq<T>)
    ensures ([x] + a + [y] + rest)[0] == x
    ensures ([x] + a + [y] + rest)[1..] == a + ([y] + rest)
  {
  }

  lemma DecodeEnvBack(env: seq<(string, string)>, rest: seq<Token>)
    requires DecodeEnd(rest).Some?
    ensures DecodeEnv(EnvArray(env) + rest) == Some(DecodeEnd(rest).value.(env := EnvPairs(env)))
  {
    Enclosed(OpenArray("{ss}"), Env(env), Close, rest);
    GetEnvBack(env, rest);
  }

  lemma DecodeFdsBack(a: seq<Assignment>, rest: seq<Token>)
    requires TargetsFit(a) && DecodeEnv(rest).Some?
    ensures DecodeFds(FdArray(a) + rest) == Some(DecodeEnv(rest).value.(fds := FdPairs(a)))
  {
    Enclosed(OpenArray("{uh}"), Fds(a), Close, rest);
    GetFdsBack(a, rest);
  }

  lemma DecodeArgsBack(argv: seq<string>, rest: seq<Token>)
    requires DecodeFds(rest).Some?
    ensures DecodeArgs(ArgvArray(argv) + rest) ==
            if NoNulls(argv) then Some(DecodeFds(rest).value.(argv := argv)) else None
  {
    Enclosed(OpenArray("ay"), Args(argv), Close, rest);
    GetArgsBack(argv, rest);
  }

  lemma EncodeGroups(c: SpawnCall)
    requires TargetsFit(c.fds)
    ensures Encode(c) ==
            ByteString(c.cwd) + (ArgvArray(c.argv) + (FdArray(c.fds) + (EnvArray(c.env) +
              ([UInt(c.flags)] + OptionArray(c.sandboxFlags, c.exposeRo)))))
  {
    RegroupSix(ByteString(c.cwd), ArgvArray(c.argv), FdArray(c.fds), EnvArray(c.env), [UInt(c.flags)],
               OptionArray(c.sandboxFlags, c.exposeRo));
  }

  lemma RegroupSix<T>(a: seq<T>, b: seq<T>, c: seq<T>, d: seq<T>, e: seq<T>, f: seq<T>)
    ensures a + b + c + d + e + f == a + (b + (c + (d + (e + f))))
  {
  }

  /** Reading the message back gives the call: directory, command, descriptors, environment, flags and
      options. It does so if and only if neither the directory nor an argument contains a null character;
      otherwise the portal finds no C string and reads nothing. */
  lemma DecodeEncoded(c: SpawnCall)
    requires TargetsFit(c.fds)
    ensures Decode(Encode(c)) == Some(Meaning(c)) <==> NoNull(c.cwd) && NoNulls(c.argv)
    ensures !(NoNull(c.cwd) && NoNulls(c.argv)) ==> Decode(Encode(c)) == None
  {
    var endPart := [UInt(c.flags)] + OptionArray(c.sandboxFlags, c.exposeRo);
    var envPart := EnvArray(c.env) + endPart;
    var fdPart := FdArray(c.fds) + envPart;
    EncodeGroups(c);
    DecodeEndBack(c.flags, c.sandboxFlags, c.exposeRo);
    DecodeEnvBack(c.env, endPart);
    DecodeFdsBack(c.fds, envPart);
    DecodeArgsBack(c.argv, fdPart);
    GetByteStringBack(c.cwd, ArgvArray(c.argv) + fdPart);
  }
}
