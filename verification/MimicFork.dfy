/** A fork request of the mimic zygote, from the host's message to the child's descriptor table
    (src/sandbox/mimic_strategy/fork.cc). */
module MimicFork {
  import opened Basics
  import opened Pickle
  import opened FdAssignments
  import opened HelperArgs

  const SANDBOX_SERVICE_FD := 4
  const BASE_DESCRIPTOR := 3

  /** `Crashes`: the code throws, or reads past the vector, when the argument count is below one or
      more than there is memory for. */
  datatype ForkRequest = Request(args: seq<string>, fdMap: seq<Assignment>) | Rejected | Crashes

  /** Descriptor i goes to key i plus the base. */
  function KeyAssignments(fds: seq<int>, keys: seq<Token>): seq<Assignment>
    requires |fds| == |keys| && AllInt(keys)
  {
    seq(|fds|, i requires 0 <= i < |fds| => Assignment(keys[i].i + BASE_DESCRIPTOR, fds[i]))
  }

  function RewriteSelf(args: seq<string>, caller: string): seq<string> {
    if args != [] && args[0] == "/proc/self/exe" then args[0 := caller] else args
  }

  /** The part after the arguments: timezone, descriptor count, keys. The first descriptor is the pid
      oracle and not mapped; `service` is the duplicate of the sandbox service descriptor, if dup
      succeeded. */
  function ReadFdMap(tokens: seq<Token>, fds: seq<int>, service: Option<int>): Option<seq<Assignment>> {
    if tokens == [] || !tokens[0].Text16? || service.None? then None
    else if |tokens| < 2 || !tokens[1].Int? || tokens[1].i < 1 || tokens[1].i != |fds| then None
    else
      var n := |fds| - 1;
      if n > |tokens| - 2 || !AllInt(tokens[2..][..n]) then None
      else Some([Assignment(SANDBOX_SERVICE_FD, service.value)] + KeyAssignments(fds[1..], tokens[2..][..n]))
  }

  function ReadRequest(tokens: seq<Token>, fds: seq<int>, service: Option<int>, caller: string, room: nat): ForkRequest {
    if |tokens| < 2 || !tokens[0].Text? || !tokens[1].Int? then Rejected
    else if tokens[1].i < 0 || tokens[1].i > room then Crashes
    else
      var argc, rest := tokens[1].i, tokens[2..];
      if argc > |rest| || !AllText(rest[..argc]) then Rejected
      else if argc == 0 then Crashes
      else
        match ReadFdMap(rest[argc..], fds, service)
        case None => Rejected
        case Some(fdMap) => Request(RewriteSelf(TextsOf(rest[..argc]), caller), fdMap)
  }

  method HandleFork(reader: Reader, fds: seq<int>, service: Option<int>, caller: string, room: nat)
    returns (request: ForkRequest)
    modifies reader
    ensures request == ReadRequest(old(reader.rest), fds, service, caller, room)
  {
    var processType := reader.ReadText();
    if processType.None? {
      return Rejected;
    }
    var argc := reader.ReadInt();
    if argc.None? {
      return Rejected;
    }
    if argc.value < 0 || argc.value > room {
      return Crashes;
    }
    ghost var tokens := old(reader.rest);
    assert reader.rest == tokens[2..];
    var ok, args := reader.ReadTexts(argc.value);
    if !ok {
      return Rejected;
    }
    if args == [] {
      return Crashes;
    }
    args := RewriteSelf(args, caller);
    var fdMap := ReadForkFds(reader, fds, service);
    request := if fdMap.None? then Rejected else Request(args, fdMap.value);
  }

  lemma KeyAssignmentsSnoc(fds: seq<int>, keys: seq<Token>, i: nat)
    requires 1 <= i < |fds| && i <= |keys| && AllInt(keys[..i - 1]) && keys[i - 1].Int?
    ensures AllInt(keys[..i])
    ensures KeyAssignments(fds[1..i + 1], keys[..i]) ==
            KeyAssignments(fds[1..i], keys[..i - 1]) + [Assignment(keys[i - 1].i + BASE_DESCRIPTOR, fds[i])]
  {
  }

  method ReadForkFds(reader: Reader, fds: seq<int>, service: Option<int>) returns (r: Option<seq<Assignment>>)
    modifies reader
    ensures r == ReadFdMap(old(reader.rest), fds, service)
  {
    ghost var tokens := reader.rest;
    if reader.rest == [] || !reader.rest[0].Text16? || service.None? {
      return None;
    }
    reader.rest := reader.rest[1..];
    var fdMap := [Assignment(SANDBOX_SERVICE_FD, service.value)];
    var count := reader.ReadInt();
    if count.None? || count.value < 1 || count.value != |fds| {
      return None;
    }
    ghost var keys := tokens[2..];
    var i := 1;
    while i < count.value
      invariant 1 <= i <= count.value && i - 1 <= |keys|
      invariant reader.rest == keys[i - 1..]
      invariant AllInt(keys[..i - 1])
      invariant fdMap == [Assignment(SANDBOX_SERVICE_FD, service.value)] + KeyAssignments(fds[1..i], keys[..i - 1])
    {
      var key := reader.ReadInt();
      if key.None? {
        assert i - 1 < |keys| && |fds| - 1 <= |keys| ==> !keys[..|fds| - 1][i - 1].Int?;
        return None;
      }
      KeyAssignmentsSnoc(fds, keys, i);
      fdMap := fdMap + [Assignment(key.value + BASE_DESCRIPTOR, fds[i])];
      i := i + 1;
    }
    assert fds[1..i] == fds[1..];
    r := Some(fdMap);
  }

  /** What the host sends for a process type, arguments, timezone and keys. */
  function HostMessage(processType: string, args: seq<string>, timezone: string, keys: seq<int32>): seq<Token>
    requires |args| < TWO_31 && |keys| < TWO_31 - 1
  {
    [Text(processType), Int(|args|)] + Texts(args) + [Text16(timezone), Int(|keys| + 1)] + Ints(keys)
  }

  /** A well-formed host message with one descriptor more than keys is read in full, whatever follows. */
  lemma HostMessageIsRead(
    processType: string, args: seq<string>, timezone: string, keys: seq<int32>, rest: seq<Token>, fds: seq<int>,
    service: int, caller: string, room: nat)
    requires 0 < |args| < TWO_31 && |args| <= room && |keys| < TWO_31 - 1 && |fds| == |keys| + 1
    ensures ReadRequest(HostMessage(processType, args, timezone, keys) + rest, fds, Some(service), caller, room) ==
            Request(RewriteSelf(args, caller), [Assignment(4, service)] + KeyAssignments(fds[1..], Ints(keys)))
  {
    var tokens := HostMessage(processType, args, timezone, keys) + rest;
    var tail := [Text16(timezone), Int(|keys| + 1)] + (Ints(keys) + rest);
    assert tokens[2..] == Texts(args) + tail;
    Behind(Texts(args), tail);
    TextsRoundTrip(args);
    Behind([Text16(timezone), Int(|keys| + 1)], Ints(keys) + rest);
    Behind(Ints(keys), rest);
  }

  /** The message's parts, as they were read. */
  function ReadKeys(tokens: seq<Token>, count: nat): seq<int32>
    requires count <= |tokens| && AllInt(tokens[..count])
  {
    seq(count, i requires 0 <= i < count => tokens[i].i)
  }

  /** Nothing else is accepted: a request begins with a well-formed host message that has one descriptor
      more than keys and an argument at least, and the sandbox service could be duplicated. */
  lemma AcceptedIsHostMessage(tokens: seq<Token>, fds: seq<int>, service: Option<int>, caller: string, room: nat)
    returns (processType: string, args: seq<string>, timezone: string, keys: seq<int32>, rest: seq<Token>)
    ensures ReadRequest(tokens, fds, service, caller, room).Request? ==>
              && service.Some? && 0 < |args| < TWO_31 && |args| <= room && |keys| < TWO_31 - 1 && |fds| == |keys| + 1
              && tokens == HostMessage(processType, args, timezone, keys) + rest
  {
    processType, args, timezone, keys, rest := "", [], "", [], [];
    if ReadRequest(tokens, fds, service, caller, room).Request? {
      var argc := tokens[1].i;
      var behind := tokens[2..][argc..];
      processType, timezone := tokens[0].s, behind[0].s;
      args := TextsOf(tokens[2..][..argc]);
      keys := ReadKeys(behind[2..], |fds| - 1);
      rest := behind[2..][|keys|..];
      assert Texts(args) == tokens[2..][..argc];
      assert Ints(keys) == behind[2..][..|keys|];
      MessageParts(tokens, processType, args, timezone, keys, rest);
    }
  }

  lemma MessageParts(
    tokens: seq<Token>, processType: string, args: seq<string>, timezone: string, keys: seq<int32>, rest: seq<Token>)
    requires |args| < TWO_31 && |keys| < TWO_31 - 1
    requires |tokens| >= 4 + |args| + |keys|
    requires tokens[0] == Text(processType) && tokens[1] == Int(|args|) && tokens[2..][..|args|] == Texts(args)
    requires tokens[2..][|args|..][0] == Text16(timezone) && tokens[2..][|args|..][1] == Int(|keys| + 1)
    requires tokens[2..][|args|..][2..][..|keys|] == Ints(keys) && tokens[2..][|args|..][2..][|keys|..] == rest
    ensures tokens == HostMessage(processType, args, timezone, keys) + rest
  {
    var behind := tokens[2..][|args|..];
    assert behind == [Text16(timezone), Int(|keys| + 1)] + (Ints(keys) + rest) by {
      assert behind == behind[..2] + behind[2..];
      assert behind[2..] == behind[2..][..|keys|] + behind[2..][|keys|..];
    }
    assert tokens == [Text(processType), Int(|args|)] + (Texts(args) + behind) by {
      assert tokens == tokens[..2] + tokens[2..];
      assert tokens[2..] == tokens[2..][..|args|] + tokens[2..][|args|..];
    }
    RegroupMessage([Text(processType), Int(|args|)], Texts(args), [Text16(timezone), Int(|keys| + 1)], Ints(keys), rest);
  }

  lemma RegroupMessage<T>(a: seq<T>, b: seq<T>, c: seq<T>, d: seq<T>, e: seq<T>)
    ensures a + b + c + d + e == a + (b + (c + (d + e)))
  {
  }

  /** The code crashes exactly for a message whose argument count is below one or beyond the memory there
      is. */
  lemma CrashesIff(tokens: seq<Token>, fds: seq<int>, service: Option<int>, caller: string, room: nat)
    ensures ReadRequest(tokens, fds, service, caller, room).Crashes? <==>
            |tokens| >= 2 && tokens[0].Text? && tokens[1].Int? && (tokens[1].i < 1 || tokens[1].i > room)
  {
    if |tokens| >= 2 && tokens[1].Int? && tokens[1].i == 0 {
      assert tokens[2..][..0] == [];
    }
  }

  /** Only a command that is /proc/self/exe itself is replaced, by the caller's own executable, and no
      argument is. */
  lemma SelfIsRewritten(args: seq<string>, caller: string)
    ensures |RewriteSelf(args, caller)| == |args|
    ensures forall i | 0 <= i < |args| ::
              RewriteSelf(args, caller)[i] == if i == 0 && args[0] == "/proc/self/exe" then caller else args[i]
  {
  }

  /** The child of flatpak-spawn has each forwarded descriptor under its own number. */
  ghost predicate Forwarded(zygote: Table, fdMap: seq<Assignment>, child: Table) {
    forall i | 0 <= i < |fdMap| ::
      fdMap[i].fd in zygote && fdMap[i].fd in child && child[fdMap[i].fd] == zygote[fdMap[i].fd]
  }

  /** Every map entry arrives: its target refers to what its source referred to in the zygote. */
  ghost predicate Arrived(zygote: Table, fdMap: seq<Assignment>, child: Table) {
    forall i | 0 <= i < |fdMap| ::
      fdMap[i].fd in zygote && fdMap[i].target in child && child[fdMap[i].target] == zygote[fdMap[i].fd]
  }

  /** Zygote to child: the helper reads exactly the zygote's map and command, its assignments succeed
      exactly when dup2 is accepted and no target clobbers a later one, and then all of them arrive. */
  lemma ForkEndToEnd(
    fdMap: seq<Assignment>, args: seq<string>, trace: seq<string>, helper: string,
    zygote: Table, child: Table, faults: set<int>)
    requires SourcesOpen(zygote, fdMap) && Forwarded(zygote, fdMap, child)
    ensures
      var argv := (Wrapper(trace, helper, fdMap) + args)[|trace|..];
      && |argv| > 2
      && ParseFdMap(argv[2..]) == Parsed(fdMap, args)
    ensures
      var outcome := Run(child, fdMap, {}, faults);
      && (outcome.Applied? <==> DupsAccepted(fdMap, faults) && NoClobber(fdMap))
      && (outcome.Applied? ==> Arrived(zygote, fdMap, outcome.table))
  {
    HelperSeesLauncherMap(trace, helper, fdMap, args);
    SucceedsIff(child, fdMap, {}, faults);
    if Run(child, fdMap, {}, faults).Applied? {
      SequentialIsSimultaneous(child, fdMap, {}, faults);
    }
  }

  /** What has arrived, in the host's terms: the sandbox service is descriptor 4, and received
      descriptor i is the one numbered by the i-th key of the message plus 3. */
  lemma ArrivedByKey(
    tokens: seq<Token>, fds: seq<int>, service: int, caller: string, room: nat, zygote: Table, child: Table, i: nat)
    requires ReadRequest(tokens, fds, Some(service), caller, room).Request?
    requires Arrived(zygote, ReadRequest(tokens, fds, Some(service), caller, room).fdMap, child)
    requires 1 <= i < |fds|
    ensures 4 in child && service in zygote && child[4] == zygote[service]
    ensures 0 <= 3 + tokens[1].i + i < |tokens| && tokens[3 + tokens[1].i + i].Int?
    ensures
      var desired := tokens[3 + tokens[1].i + i].i + 3;
      fds[i] in zygote && desired in child && child[desired] == zygote[fds[i]]
  {
    var fdMap := ReadRequest(tokens, fds, Some(service), caller, room).fdMap;
    KeyAt(tokens, fds, service, caller, room, i);
    assert fdMap[0] == Assignment(SANDBOX_SERVICE_FD, service);
  }

  /** Where the i-th key stands in the message and in the map. */
  lemma KeyAt(tokens: seq<Token>, fds: seq<int>, service: int, caller: string, room: nat, i: nat)
    requires ReadRequest(tokens, fds, Some(service), caller, room).Request? && 1 <= i < |fds|
    ensures 0 <= 3 + tokens[1].i + i < |tokens| && tokens[3 + tokens[1].i + i].Int?
    ensures |ReadRequest(tokens, fds, Some(service), caller, room).fdMap| == |fds|
    ensures ReadRequest(tokens, fds, Some(service), caller, room).fdMap[i] ==
            Assignment(tokens[3 + tokens[1].i + i].i + 3, fds[i])
  {
    var argc := tokens[1].i;
    var tail := tokens[2..][argc..];
    assert ReadFdMap(tail, fds, Some(service)).Some?;
    var keys := tail[2..][..|fds| - 1];
    assert keys[i - 1] == tokens[3 + argc + i];
    assert keys[i - 1].Int?;
  }

  /** Received descriptor i is, in the child, the one numbered by the i-th key plus 3. */
  predicate KeyArrived(tokens: seq<Token>, fds: seq<int>, zygote: Table, child: Table, i: nat)
    requires |tokens| > 1 && tokens[1].Int? && i < |fds|
  {
    var at := 3 + tokens[1].i + i;
    && 0 <= at < |tokens|
    && tokens[at].Int?
    && fds[i] in zygote
    && tokens[at].i + 3 in child
    && child[tokens[at].i + 3] == zygote[fds[i]]
  }

  /** The whole way: for every message the zygote accepts, the helper it spawns parses the same map and
      command, and when its assignments succeed the child has the sandbox service at 4 and every
      received descriptor but the first at its key plus 3. */
  lemma HostToChild(
    tokens: seq<Token>, fds: seq<int>, service: int, caller: string, room: nat, trace: seq<string>, helper: string,
    zygote: Table, child: Table, faults: set<int>)
    requires ReadRequest(tokens, fds, Some(service), caller, room).Request?
    requires SourcesOpen(zygote, ReadRequest(tokens, fds, Some(service), caller, room).fdMap)
    requires Forwarded(zygote, ReadRequest(tokens, fds, Some(service), caller, room).fdMap, child)
    ensures
      var request := ReadRequest(tokens, fds, Some(service), caller, room);
      var argv := (Wrapper(trace, helper, request.fdMap) + request.args)[|trace|..];
      && |argv| > 2
      && var parse := ParseFdMap(argv[2..]);
      && parse.Parsed?
      && parse.command == request.args
      && var outcome := Run(child, parse.fdMap, {}, faults);
      && (outcome.Applied? <==> DupsAccepted(request.fdMap, faults) && NoClobber(request.fdMap))
      && (outcome.Applied? ==>
            && service in zygote
            && 4 in outcome.table
            && outcome.table[4] == zygote[service]
            && forall i | 1 <= i < |fds| :: KeyArrived(tokens, fds, zygote, outcome.table, i))
  {
    var request := ReadRequest(tokens, fds, Some(service), caller, room);
    ForkEndToEnd(request.fdMap, request.args, trace, helper, zygote, child, faults);
    var outcome := Run(child, request.fdMap, {}, faults);
    if outcome.Applied? {
      assert request.fdMap[0] == Assignment(SANDBOX_SERVICE_FD, service);
      forall i | 1 <= i < |fds| ensures KeyArrived(tokens, fds, zygote, outcome.table, i) {
        ArrivedByKey(tokens, fds, service, caller, room, zygote, outcome.table, i);
      }
    }
  }
}
