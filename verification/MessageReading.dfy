/** The repository's own message reader (src/dbus/bus_readable_message.h), and how far it gets. */
module MessageReading {
  import opened Basics
  import opened DBusTyping
  import opened PortalMessage
  import opened FdAssignments

  datatype Basic = UInt32Code | StringCode | HandleCode

  datatype Container = ArrayCode | VariantCode | DictEntryCode

  /** The type code of a value that is read as a whole. */
  function BasicCode(t: Token): Option<Basic> {
    match t
    case UInt(_) => Some(UInt32Code)
    case Str(_) => Some(StringCode)
    case Handle(_) => Some(HandleCode)
    case _ => None
  }

  function ContainerCode(t: Token): Option<Container> {
    match t
    case OpenArray(_) => Some(ArrayCode)
    case OpenVariant(_) => Some(VariantCode)
    case OpenDictEntry => Some(DictEntryCode)
    case _ => None
  }

  predicate Next<T(==)>(ts: seq<Token>, code: Token -> Option<T>, wanted: T) {
    ts != [] && code(ts[0]) == Some(wanted)
  }

  /** The reader's position, as what is still to be read; a Close ends what can be read. */
  class MessageReader {
    var rest: seq<Token>

    constructor (rest: seq<Token>)
      ensures this.rest == rest
    {
      this.rest := rest;
    }

    /** Takes the next value if it is of the wanted type. */
    method Read(code: Basic) returns (value: Option<Token>)
      modifies this
      ensures value.Some? <==> Next(old(rest), BasicCode, code)
      ensures value.Some? ==> value.value == old(rest)[0] && rest == old(rest)[1..]
      ensures value.None? ==> rest == old(rest)
    {
      if rest == [] || BasicCode(rest[0]) != Some(code) {
        return None;
      }
      value := Some(rest[0]);
      rest := rest[1..];
    }

    /** A second reader inside the container; this one stays in front of it. */
    method EnterContainer(code: Container) returns (inner: Option<MessageReader>)
      ensures inner.Some? <==> Next(rest, ContainerCode, code)
      ensures inner.Some? ==> fresh(inner.value) && inner.value.rest == rest[1..]
    {
      if rest == [] || ContainerCode(rest[0]) != Some(code) {
        return None;
      }
      var reader := new MessageReader(rest[1..]);
      inner := Some(reader);
    }
  }

  // ---------------------------------------------------------------- how far it gets

  datatype Op = Reads(basic: Basic) | Enters(container: Container)

  /** The reader's position after one call, whether that succeeds or not. */
  function After(ts: seq<Token>, op: Op): seq<Token> {
    if op.Reads? && Next(ts, BasicCode, op.basic) then ts[1..] else ts
  }

  function AfterAll(ts: seq<Token>, ops: seq<Op>): seq<Token> {
    if ops == [] then ts else AfterAll(After(ts, ops[0]), ops[1..])
  }

  predicate AllBasic(ts: seq<Token>) {
    forall i | 0 <= i < |ts| :: BasicCode(ts[i]).Some?
  }

  /** Calls that read the given values. */
  function ReadingOps(ts: seq<Token>): seq<Op>
    requires AllBasic(ts)
  {
    if ts == [] then [] else [Reads(BasicCode(ts[0]).value)] + ReadingOps(ts[1..])
  }

  lemma {:induction false} ReadingOpsRead(ts: seq<Token>, rest: seq<Token>)
    requires AllBasic(ts)
    ensures AfterAll(ts + rest, ReadingOps(ts)) == rest
  {
    if ts == [] {
      assert ts + rest == rest;
    } else {
      assert (ts + rest)[1..] == ts[1..] + rest;
      assert After(ts + rest, ReadingOps(ts)[0]) == ts[1..] + rest;
      ReadingOpsRead(ts[1..], rest);
    }
  }

  /** What has been passed over consists of basic values. */
  lemma {:induction false} OnlyBasicPassed(ts: seq<Token>, ops: seq<Op>) returns (k: nat)
    ensures k <= |ts| && AfterAll(ts, ops) == ts[k..] && AllBasic(ts[..k])
    decreases |ops|
  {
    if ops == [] {
      k := 0;
    } else if After(ts, ops[0]) == ts {
      k := OnlyBasicPassed(ts, ops[1..]);
    } else {
      var j := OnlyBasicPassed(ts[1..], ops[1..]);
      k := j + 1;
      assert ts[..k] == [ts[0]] + ts[1..][..j];
    }
  }

  lemma ReachedIsBehindBasic(ts: seq<Token>, ops: seq<Op>, k: nat)
    requires k <= |ts| && AfterAll(ts, ops) == ts[k..]
    ensures AllBasic(ts[..k])
  {
    var j := OnlyBasicPassed(ts, ops);
    assert |ts[j..]| == |ts| - j && |ts[k..]| == |ts| - k;
  }

  /** The k-th value of a message can be reached, by whatever calls, if and only if no container stands
      before it. */
  lemma ReachesIff(ts: seq<Token>, k: nat)
    requires k <= |ts|
    ensures (exists ops :: AfterAll(ts, ops) == ts[k..]) <==> AllBasic(ts[..k])
  {
    if AllBasic(ts[..k]) {
      BasicIsPassed(ts, k);
    } else {
      forall ops ensures AfterAll(ts, ops) != ts[k..] {
        if AfterAll(ts, ops) == ts[k..] {
          ReachedIsBehindBasic(ts, ops, k);
        }
      }
    }
  }

  lemma BasicIsPassed(ts: seq<Token>, k: nat)
    requires k <= |ts| && AllBasic(ts[..k])
    ensures AfterAll(ts, ReadingOps(ts[..k])) == ts[k..]
  {
    ReadingOpsRead(ts[..k], ts[k..]);
    assert ts == ts[..k] + ts[k..];
  }

  lemma {:induction false} StuckAtContainer(ts: seq<Token>, ops: seq<Op>)
    requires ts != [] && BasicCode(ts[0]).None?
    ensures AfterAll(ts, ops) == ts
    decreases |ops|
  {
    if ops != [] {
      StuckAtContainer(ts, ops[1..]);
    }
  }

  /** So this reader could never get past the first value of a Spawn message, the directory. */
  lemma SpawnCallNotRead(c: SpawnCall, ops: seq<Op>)
    requires TargetsFit(c.fds)
    ensures AfterAll(Encode(c), ops) == Encode(c)
  {
    assert Encode(c)[0] == OpenArray("y");
    StuckAtContainer(Encode(c), ops);
  }

  // ---------------------------------------------------------------- the messages it is used for

  /** The two values of SpawnStarted and SpawnExited. */
  method ReadTwo(message: seq<Token>) returns (values: Option<(uint32, uint32)>)
    ensures values.Some? <==> |message| >= 2 && message[0].UInt? && message[1].UInt?
    ensures values.Some? ==> message[..2] == [UInt(values.value.0), UInt(values.value.1)]
  {
    var reader := new MessageReader(message);
    var first := reader.Read(UInt32Code);
    if first.None? {
      return None;
    }
    var second := reader.Read(UInt32Code);
    if second.None? {
      return None;
    }
    values := Some((first.value.n, second.value.n));
  }

  /** The pid in a Spawn reply. */
  method ReadPid(reply: seq<Token>) returns (pid: Option<uint32>)
    ensures pid.Some? <==> reply != [] && reply[0].UInt?
    ensures pid.Some? ==> reply[0] == UInt(pid.value)
  {
    var reader := new MessageReader(reply);
    var value := reader.Read(UInt32Code);
    pid := if value.Some? then Some(value.value.n) else None;
  }
}
