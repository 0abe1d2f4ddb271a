/** The spawn request that a stub process sends to the supervisor, and the ancillary data that
    carries its descriptors (src/sandbox/spawn_strategy/run.cc, src/base/socket.cc,
    src/preload/host/spawn_strategy/supervisor.cc). */
module ControlBuffer {

  // Sizes on a 64-bit Linux: struct cmsghdr, struct ucred, int, and the alignment of size_t.
  const CMSGHDR_SIZE := 16
  const UCRED_SIZE := 12
  const INT_SIZE := 4
  const ALIGNMENT := 8
  const MAX_FILE_DESCRIPTORS := 16

  function Align(n: nat): nat {
    (n + ALIGNMENT - 1) / ALIGNMENT * ALIGNMENT
  }

  function CmsgSpace(n: nat): nat {
    Align(CMSGHDR_SIZE) + Align(n)
  }

  function CmsgLen(n: nat): nat {
    Align(CMSGHDR_SIZE) + n
  }

  function CtlBufferSize(nfds: nat, withUcred: bool): nat {
    CmsgSpace(nfds * INT_SIZE) + if withUcred then CmsgSpace(UCRED_SIZE) else 0
  }

  /** recvmsg puts the credentials first, then as many descriptors as fit into what is left. */
  function RightsRoom(controlLen: nat, withUcred: bool): nat {
    var used := if withUcred then CmsgSpace(UCRED_SIZE) else 0;
    if controlLen < used + CmsgLen(0) then 0 else (controlLen - used - CmsgLen(0)) / INT_SIZE
  }

  datatype Received<T> = Received(fds: seq<T>, truncated: bool)

  function Receive<T>(controlLen: nat, withUcred: bool, fds: seq<T>): Received<T> {
    var room := RightsRoom(controlLen, withUcred);
    if |fds| <= room then Received(fds, false) else Received(fds[..room], true)
  }

  /** The reader's buffer holds sixteen descriptors, with or without credentials, and not one more:
      any number up to that arrives whole, anything beyond is cut and flagged. */
  lemma SixteenFit<T>(withUcred: bool, fds: seq<T>)
    ensures
      var r := Receive(CtlBufferSize(MAX_FILE_DESCRIPTORS, withUcred), withUcred, fds);
      && (r.truncated <==> |fds| > 16)
      && r.fds == if |fds| <= 16 then fds else fds[..16]
  {
    assert Align(CMSGHDR_SIZE) == 16 && Align(UCRED_SIZE) == 16 && Align(64) == 64;
  }

  /** In bytes: the buffers of a reader with and without credentials, and of a writer with one descriptor. */
  lemma BufferSizes()
    ensures CtlBufferSize(16, false) == 80 && CtlBufferSize(16, true) == 112 && CtlBufferSize(0, true) == 48
    ensures CtlBufferSize(1, false) == 24 && CmsgLen(4) == 20 && CmsgLen(0) == 16
  {
    assert Align(16) == 16 && Align(12) == 16 && Align(64) == 64 && Align(0) == 0 && Align(4) == 8;
  }

  /** What the writer puts into cmsg_len describes exactly its descriptors: the reader's division
      recovers their number. */
  lemma SenderLengthCountsFds(nfds: nat)
    ensures CmsgLen(nfds * INT_SIZE) <= CtlBufferSize(nfds, false)
    ensures (CmsgLen(nfds * INT_SIZE) - CmsgLen(0)) / INT_SIZE == nfds
  {
    AlignGrows(nfds * INT_SIZE);
  }

  lemma AlignGrows(n: nat)
    ensures n <= Align(n) < n + ALIGNMENT
  {
    var m := n + ALIGNMENT - 1;
    assert m == ALIGNMENT * (m / ALIGNMENT) + m % ALIGNMENT;
  }
}

module SpawnRequest {
  import opened Basics
  import opened Pickle
  import opened ControlBuffer
  import opened FdAssignments

  /** One message: its items and the descriptors attached to it. */
  datatype Message = Message(tokens: seq<Token>, fds: seq<int>)

  function TargetTokens(a: seq<Assignment>): seq<Token>
    requires TargetsFit(a)
  {
    seq(|a|, i requires 0 <= i < |a| => UInt32(ToUint32(a[i].target)))
  }

  function FdsOf(a: seq<Assignment>): seq<int> {
    seq(|a|, i requires 0 <= i < |a| => a[i].fd)
  }

  function Send(args: seq<string>, a: seq<Assignment>): Message
    requires TargetsFit(a)
  {
    Message([UInt64(|args|)] + Texts(args) + TargetTokens(a), FdsOf(a))
  }

  datatype Fulfilled = Spawn(argv: seq<string>, fdMap: seq<Assignment>) | Failed

  function Pair(fds: seq<int>, targets: seq<Token>): seq<Assignment>
    requires |fds| == |targets| && AllUInt32(targets)
  {
    seq(|fds|, i requires 0 <= i < |fds| => Assignment(ToInt32(targets[i].u), fds[i]))
  }

  /** A truncated control message only logs an error: the items are read all the same, for as many
      descriptors as arrived. */
  function Fulfill(m: Message): Fulfilled {
    var fds := Receive(CtlBufferSize(MAX_FILE_DESCRIPTORS, false), false, m.fds).fds;
    if m.tokens == [] || !m.tokens[0].UInt64? then Failed
    else
      var argc, rest := m.tokens[0].n, m.tokens[1..];
      if argc > |rest| || !AllText(rest[..argc]) then Failed
      else
        var targets := rest[argc..];
        if |fds| > |targets| || !AllUInt32(targets[..|fds|]) then Failed
        else Spawn(TextsOf(rest[..argc]), Pair(fds, targets[..|fds|]))
  }

  /** The supervisor recovers the stub's argv, and the first sixteen of its assignments in order:
      all of them exactly when there are at most sixteen. */
  lemma FulfillAfterSend(args: seq<string>, a: seq<Assignment>)
    requires TargetsFit(a)
    ensures
      var n := if |a| <= 16 then |a| else 16;
      Fulfill(Send(args, a)) == Spawn(args, a[..n])
    ensures Fulfill(Send(args, a)) == Spawn(args, a) <==> |a| <= 16
  {
    var m := Send(args, a);
    var n := if |a| <= MAX_FILE_DESCRIPTORS then |a| else MAX_FILE_DESCRIPTORS;
    SixteenFit(false, m.fds);
    var rest := m.tokens[1..];
    assert rest == Texts(args) + TargetTokens(a);
    assert rest[..|args|] == Texts(args) && rest[|args|..] == TargetTokens(a);
    TextsRoundTrip(args);
    TargetsRoundTrip(a, n);
    assert m.fds[..n] == FdsOf(a[..n]) && a[..|a|] == a && m.fds[..|a|] == m.fds;
  }

  /** A read takes at most the buffer's length: of a longer request only the first `whole` items arrive
      complete. The supervisor then spawns exactly what it would have spawned if all that it looks for
      is among them, and nothing otherwise. */
  lemma CutRequest(args: seq<string>, a: seq<Assignment>, whole: nat)
    requires TargetsFit(a) && whole <= 1 + |args| + |a|
    ensures
      var n := if |a| <= 16 then |a| else 16;
      var m := Send(args, a);
      Fulfill(m.(tokens := m.tokens[..whole])) == if 1 + |args| + n <= whole then Spawn(args, a[..n]) else Failed
  {
    var n := if |a| <= MAX_FILE_DESCRIPTORS then |a| else MAX_FILE_DESCRIPTORS;
    var m := Send(args, a);
    SixteenFit(false, m.fds);
    if whole > 0 {
      CutTokens(args, a, whole);
      if |args| <= whole - 1 {
        CutAfterArguments(args, a, whole - 1);
        TextsRoundTrip(args);
        if n <= whole - 1 - |args| {
          TargetsRoundTrip(a, n);
          CutTargets(a, whole - 1 - |args|, n);
        }
      }
    }
  }

  lemma CutTokens(args: seq<string>, a: seq<Assignment>, whole: nat)
    requires TargetsFit(a) && 0 < whole <= 1 + |args| + |a|
    ensures Send(args, a).tokens[..whole][0] == UInt64(|args|)
    ensures Send(args, a).tokens[..whole][1..] == (Texts(args) + TargetTokens(a))[..whole - 1]
  {
    Regroup([UInt64(|args|)], Texts(args), TargetTokens(a));
  }

  lemma CutTargets(a: seq<Assignment>, k: nat, n: nat)
    requires TargetsFit(a) && n <= k <= |a|
    ensures TargetTokens(a)[..k][..n] == TargetTokens(a)[..n]
    ensures FdsOf(a)[..n] == FdsOf(a[..n]) && FdsOf(a)[..|a|] == FdsOf(a)
  {
  }

  lemma CutAfterArguments(args: seq<string>, a: seq<Assignment>, k: nat)
    requires TargetsFit(a) && |args| <= k <= |args| + |a|
    ensures (Texts(args) + TargetTokens(a))[..k][..|args|] == Texts(args)
    ensures (Texts(args) + TargetTokens(a))[..k][|args|..] == TargetTokens(a)[..k - |args|]
  {
  }

  /** Nothing else is fulfilled: the items are those that a stub sends for these arguments and this map,
      with or without more behind them, and the map's descriptors are the ones that arrived. */
  lemma FulfilledWasSent(m: Message) returns (rest: seq<Token>)
    ensures
      var r := Fulfill(m);
      r.Spawn? ==>
        && TargetsFit(r.fdMap)
        && m.tokens == Send(r.argv, r.fdMap).tokens + rest
        && FdsOf(r.fdMap) == Receive(CtlBufferSize(16, false), false, m.fds).fds
  {
    var r := Fulfill(m);
    rest := [];
    if r.Spawn? {
      var argc, behind := m.tokens[0].n, m.tokens[1..];
      var targets := behind[argc..];
      var n := |r.fdMap|;
      rest := targets[n..];
      assert Texts(r.argv) == behind[..argc];
      assert TargetTokens(r.fdMap) == targets[..n];
      assert behind == behind[..argc] + (targets[..n] + rest) by {
        assert targets == targets[..n] + targets[n..] && behind == behind[..argc] + behind[argc..];
      }
      assert m.tokens == [UInt64(|r.argv|)] + behind;
      RegroupFour([UInt64(|r.argv|)], Texts(r.argv), TargetTokens(r.fdMap), rest);
    }
  }

  lemma RegroupFour<T>(a: seq<T>, b: seq<T>, c: seq<T>, d: seq<T>)
    ensures a + b + c + d == a + (b + (c + d))
  {
  }

  /** The most descriptors that Linux takes in one message. */
  const SCM_MAX_FD := 253

  /** Socket::Write fails for more than that, and SendSpawnRequest with it. */
  function Sent(args: seq<string>, a: seq<Assignment>): Option<Message>
    requires TargetsFit(a)
  {
    if |a| <= SCM_MAX_FD then Some(Send(args, a)) else None
  }

  /** From the stub to the supervisor: argv and map arrive unchanged if and only if there are at most
      sixteen descriptors and the whole request fits into the buffer. */
  lemma RequestArrivesIff(args: seq<string>, a: seq<Assignment>, whole: nat)
    requires TargetsFit(a) && whole <= 1 + |args| + |a|
    ensures
      (Sent(args, a).Some?
       && Fulfill(Sent(args, a).value.(tokens := Sent(args, a).value.tokens[..whole])) == Spawn(args, a)) <==>
      |a| <= 16 && whole == 1 + |args| + |a|
  {
    if Sent(args, a).Some? {
      CutRequest(args, a, whole);
      assert |a| <= MAX_FILE_DESCRIPTORS ==> a[..|a|] == a;
    }
  }

  lemma TargetsRoundTrip(a: seq<Assignment>, n: nat)
    requires TargetsFit(a) && n <= |a|
    ensures AllUInt32(TargetTokens(a)[..n])
    ensures Pair(FdsOf(a[..n]), TargetTokens(a)[..n]) == a[..n]
  {
    forall i | 0 <= i < n ensures Pair(FdsOf(a[..n]), TargetTokens(a)[..n])[i] == a[i] {
      ToUint32Inverts(a[i].target);
    }
  }

  /** The writing loops of SendSpawnRequest. */
  method SendSpawnRequest(args: seq<string>, fdMap: seq<Assignment>) returns (m: Option<Message>)
    requires TargetsFit(fdMap)
    ensures m.Some? <==> |fdMap| <= 253
    ensures m.Some? ==> m.value == Send(args, fdMap)
  {
    var tokens := [UInt64(|args|)];
    for i := 0 to |args|
      invariant tokens == [UInt64(|args|)] + Texts(args[..i])
    {
      tokens := tokens + [Text(args[i])];
    }
    assert args[..|args|] == args;
    var fds: seq<int> := [];
    for i := 0 to |fdMap|
      invariant fds == FdsOf(fdMap[..i])
      invariant tokens == [UInt64(|args|)] + Texts(args) + TargetTokens(fdMap[..i])
    {
      fds := fds + [fdMap[i].fd];
      tokens := tokens + [UInt32(ToUint32(fdMap[i].target))];
    }
    assert fdMap[..|fdMap|] == fdMap;
    m := if |fds| <= SCM_MAX_FD then Some(Message(tokens, fds)) else None;
  }

  /** The reading loops of FulfillSpawnRequest, on the descriptors that arrived. */
  method FulfillSpawnRequest(m: Message) returns (r: Fulfilled)
    ensures r == Fulfill(m)
  {
    var fds := Receive(CtlBufferSize(MAX_FILE_DESCRIPTORS, false), false, m.fds).fds;
    if m.tokens == [] || !m.tokens[0].UInt64? {
      return Failed;
    }
    var argc := m.tokens[0].n;
    var reader := new Reader(m.tokens[1..]);
    var ok, argv := reader.ReadTexts(argc);
    if !ok {
      return Failed;
    }
    var fdMap := ReadTargets(reader, fds);
    r := if fdMap.None? then Failed else Spawn(argv, fdMap.value);
  }

  method ReadTargets(reader: Reader, fds: seq<int>) returns (r: Option<seq<Assignment>>)
    modifies reader
    ensures r.Some? <==> |fds| <= |old(reader.rest)| && AllUInt32(old(reader.rest)[..|fds|])
    ensures r.Some? ==> r.value == Pair(fds, old(reader.rest)[..|fds|])
  {
    ghost var targets := reader.rest;
    var fdMap: seq<Assignment> := [];
    var i := 0;
    while i < |fds|
      invariant 0 <= i <= |fds| && i <= |targets|
      invariant reader.rest == targets[i..] && AllUInt32(targets[..i])
      invariant fdMap == Pair(fds[..i], targets[..i])
    {
      var target := reader.ReadUInt32();
      if target.None? {
        assert i < |targets| && |fds| <= |targets| ==> !targets[..|fds|][i].UInt32?;
        return None;
      }
      fdMap := fdMap + [Assignment(ToInt32(target.value), fds[i])];
      i := i + 1;
    }
    assert fds[..i] == fds;
    r := Some(fdMap);
  }
}
