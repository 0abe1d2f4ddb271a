/** The Spawn call as a D-Bus message: what the writer appends, why it is well-typed, and that the
    portal can read everything back (src/dbus/flatpak_portal_proxy.cc,
    src/dbus/bus_writable_message.h). */
module DBusTyping {
  import opened Basics
  import opened Utf8Text

  /** What is appended to a message. `Bytes` is a fixed array of bytes; `Close` is the destructor of
      the innermost writer. */
  datatype Token =
    | Bytes(data: string)
    | UInt(n: uint32)
    | Str(s: string)
    | Handle(fd: int)
    | OpenArray(elem: string)
    | OpenVariant(signature: string)
    | OpenDictEntry
    | Close

  /** An open container: the message body with its signature so far, an array with its element
      type, or a variant or dict entry with the types still to come. */
  datatype Frame = Body(signature: string) | Array(elem: string) | Sequence(rest: string)

  /** The frame after one complete value of type `ty`, if the container accepts it. */
  function Accept(f: Frame, ty: string): Option<Frame> {
    match f
    case Body(signature) => Some(Body(signature + ty))
    case Array(elem) => if ty == elem then Some(f) else None
    case Sequence(rest) => if ty <= rest then Some(Sequence(rest[|ty|..])) else None
  }

  /** The container being written to, inside the ones that are still open. */
  datatype Nest = Root(top: Frame) | Inside(top: Frame, outer: Nest)

  function Add(n: Nest, ty: string): Option<Nest> {
    match Accept(n.top, ty)
    case None => None
    case Some(f) => Some(n.(top := f))
  }

  /** The D-Bus type system's rule for each append: values must be of the container's type, dict
      entries stand only in arrays of them, a container closes only when it is complete. */
  function Append(n: Nest, t: Token): Option<Nest> {
    match t
    case Bytes(_) => if n.top == Array("y") then Some(n) else None
    case UInt(_) => Add(n, "u")
    case Str(_) => Add(n, "s")
    case Handle(_) => Add(n, "h")
    case OpenArray(elem) =>
      (match Add(n, "a" + elem)
       case None => None
       case Some(outer) => Some(Inside(Array(elem), outer)))
    case OpenVariant(signature) =>
      (match Add(n, "v")
       case None => None
       case Some(outer) => Some(Inside(Sequence(signature), outer)))
    case OpenDictEntry =>
      if n.top.Array? && |n.top.elem| > 2 && n.top.elem[0] == '{' && n.top.elem[|n.top.elem| - 1] == '}' then
        Some(Inside(Sequence(n.top.elem[1..|n.top.elem| - 1]), n))
      else
        None
    case Close =>
      if n.Inside? && (n.top.Array? || n.top == Sequence("")) then Some(n.outer) else None
  }

  /** libdbus refuses a string that is not valid UTF-8, and a descriptor that is not open. */
  predicate Accepted(t: Token, open: set<int>) {
    match t
    case Str(s) => Utf8(s)
    case Handle(fd) => fd in open
    case _ => true
  }

  predicate AllAccepted(ts: seq<Token>, open: set<int>) {
    ts == [] || (Accepted(ts[0], open) && AllAccepted(ts[1..], open))
  }

  lemma {:induction false} AllAcceptedAppend(a: seq<Token>, b: seq<Token>, open: set<int>)
    ensures AllAccepted(a + b, open) <==> AllAccepted(a, open) && AllAccepted(b, open)
  {
    if a == [] {
      assert a + b == b;
    } else {
      assert (a + b)[1..] == a[1..] + b;
      AllAcceptedAppend(a[1..], b, open);
    }
  }

  lemma {:induction false} AllAcceptedEach(ts: seq<Token>, open: set<int>)
    ensures AllAccepted(ts, open) <==> forall i | 0 <= i < |ts| :: Accepted(ts[i], open)
  {
    if ts != [] {
      AllAcceptedEach(ts[1..], open);
      if AllAccepted(ts, open) {
        forall i | 0 <= i < |ts| ensures Accepted(ts[i], open) {
          assert i > 0 ==> ts[i] == ts[1..][i - 1];
        }
      }
    }
  }

  /** The open containers after a whole sequence of appends, if each of them is allowed. */
  function AppendAll(n: Nest, ts: seq<Token>): Option<Nest>
    decreases |ts|
  {
    if ts == [] then Some(n)
    else
      match Append(n, ts[0])
      case None => None
      case Some(n') => AppendAll(n', ts[1..])
  }

  /** A message body of the given signature, with all containers closed. */
  predicate WellTyped(ts: seq<Token>, signature: string) {
    AppendAll(Root(Body("")), ts) == Some(Root(Body(signature)))
  }

  lemma {:induction false} AppendAllSnoc(n: Nest, ts: seq<Token>, t: Token)
    requires AppendAll(n, ts).Some?
    ensures AppendAll(n, ts + [t]) == Append(AppendAll(n, ts).value, t)
    decreases |ts|
  {
    if ts == [] {
      assert ts + [t] == [t];
      assert AppendAll(n, [t]) == Append(n, t);
    } else {
      assert (ts + [t])[1..] == ts[1..] + [t];
      AppendAllSnoc(Append(n, ts[0]).value, ts[1..], t);
    }
  }
}

module PortalMessage {
  import opened Basics
  import opened Utf8Text
  import opened DBusTyping
  import opened FdAssignments

  /** The arguments of the Spawn call. `env` lists the environment map in its iteration order. */
  datatype SpawnCall = SpawnCall(
    cwd: string,
    argv: seq<string>,
    fds: seq<Assignment>,
    env: seq<(string, string)>,
    flags: uint32,
    sandboxFlags: uint32,
    exposeRo: seq<int>
  )

  const SIGNATURE := "ayaaya{uh}a{ss}ua{sv}"

  /** A C string passed by pointer ends at its first null character. */
  function CStr(s: string): string {
    if s == "" || s[0] == '\0' then "" else [s[0]] + CStr(s[1..])
  }

  predicate NoNull(s: string) {
    '\0' !in s
  }

  lemma {:induction false} CStrKeepsIff(s: string)
    ensures CStr(s) == s <==> NoNull(s)
  {
    if s != "" {
      CStrKeepsIff(s[1..]);
    }
  }

  // ---------------------------------------------------------------- the message, piece by piece

  function ByteString(s: string): seq<Token> {
    [OpenArray("y"), Bytes(s + ['\0']), Close]
  }

  function Args(argv: seq<string>): seq<Token> {
    if argv == [] then [] else ByteString(argv[0]) + Args(argv[1..])
  }

  function FdEntry(target: uint32, fd: int): seq<Token> {
    [OpenDictEntry, UInt(target), Handle(fd), Close]
  }

  function Fds(a: seq<Assignment>): seq<Token>
    requires TargetsFit(a)
  {
    if a == [] then [] else FdEntry(ToUint32(a[0].target), a[0].fd) + Fds(a[1..])
  }

  function EnvEntry(name: string, value: string): seq<Token> {
    [OpenDictEntry, Str(name), Str(value), Close]
  }

  function Env(env: seq<(string, string)>): seq<Token> {
    if env == [] then [] else EnvEntry(CStr(env[0].0), CStr(env[0].1)) + Env(env[1..])
  }

  function Handles(fds: seq<int>): seq<Token> {
    if fds == [] then [] else [Handle(fds[0])] + Handles(fds[1..])
  }

  function SandboxFlags(flags: uint32): seq<Token> {
    if flags == 0 then []
    else [OpenDictEntry, Str("sandbox-flags"), OpenVariant("u"), UInt(flags), Close, Close]
  }

  const EXPOSE_OPENING: seq<Token> :=
    [OpenDictEntry, Str("sandbox-expose-fd-ro"), OpenVariant("ah"), OpenArray("h")]

  function ExposeRo(fds: seq<int>): seq<Token> {
    if fds == [] then [] else EXPOSE_OPENING + Handles(fds) + [Close, Close, Close]
  }

  function ArgvArray(argv: seq<string>): seq<Token> {
    [OpenArray("ay")] + Args(argv) + [Close]
  }

  function FdArray(a: seq<Assignment>): seq<Token>
    requires TargetsFit(a)
  {
    [OpenArray("{uh}")] + Fds(a) + [Close]
  }

  function EnvArray(env: seq<(string, string)>): seq<Token> {
    [OpenArray("{ss}")] + Env(env) + [Close]
  }

  function OptionArray(sandboxFlags: uint32, exposeRo: seq<int>): seq<Token> {
    [OpenArray("{sv}")] + (SandboxFlags(sandboxFlags) + ExposeRo(exposeRo)) + [Close]
  }

  function Encode(c: SpawnCall): seq<Token>
    requires TargetsFit(c.fds)
  {
    ByteString(c.cwd) + ArgvArray(c.argv) + FdArray(c.fds) + EnvArray(c.env) + [UInt(c.flags)]
    + OptionArray(c.sandboxFlags, c.exposeRo)
  }

  // ---------------------------------------------------------------- writing

  lemma ConcatAssoc<T>(a: seq<T>, b: seq<T>, c: seq<T>, d: seq<T>)
    ensures a + b + c + d == a + (b + c + d)
  {
  }

  lemma FdEntryTyped(n: Nest, target: uint32, fd: int)
    requires n.top == Array("{uh}")
    ensures Append(n, OpenDictEntry) == Some(Inside(Sequence("uh"), n))
    ensures Append(Inside(Sequence("uh"), n), UInt(target)) == Some(Inside(Sequence("h"), n))
    ensures Append(Inside(Sequence("h"), n), Handle(fd)) == Some(Inside(Sequence(""), n))
  {
    assert "{uh}"[1..3] == "uh" && "uh"[1..] == "h" && "h"[1..] == "";
  }

  lemma EnvEntryTyped(n: Nest, name: string, value: string)
    requires n.top == Array("{ss}")
    ensures Append(n, OpenDictEntry) == Some(Inside(Sequence("ss"), n))
    ensures Append(Inside(Sequence("ss"), n), Str(name)) == Some(Inside(Sequence("s"), n))
    ensures Append(Inside(Sequence("s"), n), Str(value)) == Some(Inside(Sequence(""), n))
  {
    assert "{ss}"[1..3] == "ss" && "ss"[1..] == "s" && "s"[1..] == "";
  }

  lemma OptionTyped(n: Nest, name: string, signature: string)
    requires n.top == Array("{sv}")
    ensures Append(n, OpenDictEntry) == Some(Inside(Sequence("sv"), n))
    ensures Append(Inside(Sequence("sv"), n), Str(name)) == Some(Inside(Sequence("v"), n))
    ensures Append(Inside(Sequence("v"), n), OpenVariant(signature)) ==
            Some(Inside(Sequence(signature), Inside(Sequence(""), n)))
  {
    assert "{sv}"[1..3] == "sv" && "sv"[1..] == "v" && "v"[1..] == "";
  }

  lemma HandleArrayTyped(entry: Nest)
    ensures Append(Inside(Sequence("ah"), entry), OpenArray("h")) ==
            Some(Inside(Array("h"), Inside(Sequence(""), entry)))
  {
    assert "a" + "h" == "ah" && "ah"[2..] == "";
  }

  /** Opening and closing an array in the body adds its type to the signature. */
  lemma BodyArrayTyped(signature: string, elem: string, after: string)
    requires after == signature + ("a" + elem)
    ensures Append(Root(Body(signature)), OpenArray(elem)) == Some(Inside(Array(elem), Root(Body(after))))
  {
  }

  /** The message under construction and its open containers. Its contracts demand of every append
      that the D-Bus type system allows it. A refused append fails the writer's assertion: `aborted` says
      that the process has ended, and `tokens` is then what it would have appended. */
  class MessageWriter {
    const open: set<int>
    var tokens: seq<Token>
    var aborted: bool
    ghost var nest: Nest

    ghost predicate Valid()
      reads this
    {
      AppendAll(Root(Body("")), tokens) == Some(nest) && (aborted <==> !AllAccepted(tokens, open))
    }

    constructor (open: set<int>)
      ensures Valid() && tokens == [] && nest == Root(Body("")) && this.open == open
    {
      this.open := open;
      tokens, aborted, nest := [], false, Root(Body(""));
    }

    method Write(t: Token)
      requires Valid() && Append(nest, t).Some?
      modifies this
      ensures Valid() && tokens == old(tokens) + [t] && nest == Append(old(nest), t).value
    {
      AppendAllSnoc(Root(Body("")), tokens, t);
      AllAcceptedAppend(tokens, [t], open);
      AllAcceptedEach([t], open);
      tokens := tokens + [t];
      aborted := aborted || !Accepted(t, open);
      nest := Append(nest, t).value;
    }

    /** WriteFixedArray on a C string, its terminator included. */
    method WriteByteString(s: string)
      requires Valid() && Add(nest, "ay").Some?
      modifies this
      ensures Valid() && tokens == old(tokens) + ByteString(s) && nest == Add(old(nest), "ay").value
    {
      assert "a" + "y" == "ay";
      Write(OpenArray("y"));
      Write(Bytes(s + ['\0']));
      Write(Close);
    }

    method WriteArgs(argv: seq<string>)
      requires Valid() && nest.top == Array("ay")
      modifies this
      ensures Valid() && tokens == old(tokens) + Args(argv) && nest == old(nest)
    {
      var i := 0;
      while i < |argv|
        invariant 0 <= i <= |argv| && Valid() && nest == old(nest)
        invariant tokens + Args(argv[i..]) == old(tokens) + Args(argv)
      {
        assert argv[i..][1..] == argv[i + 1..];
        WriteByteString(argv[i]);
        i := i + 1;
      }
    }

    method WriteFds(a: seq<Assignment>)
      requires Valid() && nest.top == Array("{uh}") && TargetsFit(a)
      modifies this
      ensures Valid() && tokens == old(tokens) + Fds(a) && nest == old(nest)
    {
      var i := 0;
      while i < |a|
        invariant 0 <= i <= |a| && Valid() && nest == old(nest)
        invariant tokens + Fds(a[i..]) == old(tokens) + Fds(a)
      {
        assert a[i..][1..] == a[i + 1..];
        WriteFdEntry(ToUint32(a[i].target), a[i].fd);
        i := i + 1;
      }
    }

    method WriteFdEntry(target: uint32, fd: int)
      requires Valid() && nest.top == Array("{uh}")
      modifies this
      ensures Valid() && tokens == old(tokens) + FdEntry(target, fd) && nest == old(nest)
    {
      FdEntryTyped(nest, target, fd);
      Write(OpenDictEntry);
      Write(UInt(target));
      Write(Handle(fd));
      Write(Close);
    }

    method WriteEnv(env: seq<(string, string)>)
      requires Valid() && nest.top == Array("{ss}")
      modifies this
      ensures Valid() && tokens == old(tokens) + Env(env) && nest == old(nest)
    {
      var i := 0;
      while i < |env|
        invariant 0 <= i <= |env| && Valid() && nest == old(nest)
        invariant tokens + Env(env[i..]) == old(tokens) + Env(env)
      {
        assert env[i..][1..] == env[i + 1..];
        WriteEnvEntry(CStr(env[i].0), CStr(env[i].1));
        i := i + 1;
      }
    }

    method WriteEnvEntry(name: string, value: string)
      requires Valid() && nest.top == Array("{ss}")
      modifies this
      ensures Valid() && tokens == old(tokens) + EnvEntry(name, value) && nest == old(nest)
    {
      EnvEntryTyped(nest, name, value);
      Write(OpenDictEntry);
      Write(Str(name));
      Write(Str(value));
      Write(Close);
    }

    method WriteSandboxFlags(flags: uint32)
      requires Valid() && nest.top == Array("{sv}")
      modifies this
      ensures Valid() && tokens == old(tokens) + SandboxFlags(flags) && nest == old(nest)
    {
      if flags != 0 {
        OptionTyped(nest, "sandbox-flags", "u");
        assert "u"[1..] == "";
        Write(OpenDictEntry);
        Write(Str("sandbox-flags"));
        Write(OpenVariant("u"));
        Write(UInt(flags));
        Write(Close);
        Write(Close);
      }
    }

    method WriteExposeRo(fds: seq<int>)
      requires Valid() && nest.top == Array("{sv}")
      modifies this
      ensures Valid() && tokens == old(tokens) + ExposeRo(fds) && nest == old(nest)
    {
      if fds != [] {
        WriteExposeOption(fds);
      }
    }

    method WriteExposeOption(fds: seq<int>)
      requires Valid() && nest.top == Array("{sv}")
      modifies this
      ensures Valid() && nest == old(nest)
      ensures tokens == old(tokens) + (EXPOSE_OPENING + Handles(fds) + [Close, Close, Close])
    {
      ghost var before := tokens;
      OpenExposeRo();
      WriteHandles(fds);
      WriteThreeCloses();
      ConcatAssoc(before, EXPOSE_OPENING, Handles(fds), [Close, Close, Close]);
    }

    method OpenExposeRo()
      requires Valid() && nest.top == Array("{sv}")
      modifies this
      ensures Valid() && tokens == old(tokens) + EXPOSE_OPENING
      ensures nest == Inside(Array("h"), Inside(Sequence(""), Inside(Sequence(""), old(nest))))
    {
      OptionTyped(nest, "sandbox-expose-fd-ro", "ah");
      HandleArrayTyped(Inside(Sequence(""), nest));
      Write(OpenDictEntry);
      Write(Str("sandbox-expose-fd-ro"));
      Write(OpenVariant("ah"));
      Write(OpenArray("h"));
    }

    method WriteThreeCloses()
      requires Valid() && nest.Inside? && nest.top.Array?
      requires nest.outer.Inside? && nest.outer.top == Sequence("")
      requires nest.outer.outer.Inside? && nest.outer.outer.top == Sequence("")
      modifies this
      ensures Valid() && tokens == old(tokens) + [Close, Close, Close] && nest == old(nest.outer.outer.outer)
    {
      Write(Close);
      Write(Close);
      Write(Close);
    }

    method WriteHandles(fds: seq<int>)
      requires Valid() && nest.top == Array("h")
      modifies this
      ensures Valid() && tokens == old(tokens) + Handles(fds) && nest == old(nest)
    {
      var i := 0;
      while i < |fds|
        invariant 0 <= i <= |fds| && Valid() && nest == old(nest)
        invariant tokens + Handles(fds[i..]) == old(tokens) + Handles(fds)
      {
        assert fds[i..][1..] == fds[i + 1..];
        Write(Handle(fds[i]));
        i := i + 1;
      }
    }

    method WriteArgvArray(argv: seq<string>)
      requires Valid() && nest == Root(Body("ay"))
      modifies this
      ensures Valid() && tokens == old(tokens) + ArgvArray(argv) && nest == Root(Body("ayaay"))
    {
      BodyArrayTyped("ay", "ay", "ayaay");
      Write(OpenArray("ay"));
      WriteArgs(argv);
      Write(Close);
    }

    method WriteFdArray(a: seq<Assignment>)
      requires Valid() && nest == Root(Body("ayaay")) && TargetsFit(a)
      modifies this
      ensures Valid() && tokens == old(tokens) + FdArray(a) && nest == Root(Body("ayaaya{uh}"))
    {
      BodyArrayTyped("ayaay", "{uh}", "ayaaya{uh}");
      Write(OpenArray("{uh}"));
      WriteFds(a);
      Write(Close);
    }

    method WriteEnvArray(env: seq<(string, string)>)
      requires Valid() && nest == Root(Body("ayaaya{uh}"))
      modifies this
      ensures Valid() && tokens == old(tokens) + EnvArray(env) && nest == Root(Body("ayaaya{uh}a{ss}"))
    {
      BodyArrayTyped("ayaaya{uh}", "{ss}", "ayaaya{uh}a{ss}");
      Write(OpenArray("{ss}"));
      WriteEnv(env);
      Write(Close);
    }

    method WriteOptionArray(sandboxFlags: uint32, exposeRo: seq<int>)
      requires Valid() && nest == Root(Body("ayaaya{uh}a{ss}u"))
      modifies this
      ensures Valid() && tokens == old(tokens) + OptionArray(sandboxFlags, exposeRo) && nest == Root(Body(SIGNATURE))
    {
      ghost var before := tokens;
      BodyArrayTyped("ayaaya{uh}a{ss}u", "{sv}", SIGNATURE);
      Write(OpenArray("{sv}"));
      WriteOptions(sandboxFlags, exposeRo);
      CloseArray(before, OpenArray("{sv}"), SandboxFlags(sandboxFlags) + ExposeRo(exposeRo));
    }

    method CloseArray(ghost before: seq<Token>, ghost open: Token, ghost elems: seq<Token>)
      requires Valid() && nest.Inside? && nest.top.Array? && tokens == before + [open] + elems
      modifies this
      ensures Valid() && tokens == before + ([open] + elems + [Close]) && nest == old(nest.outer)
    {
      Write(Close);
    }

    method WriteOptions(sandboxFlags: uint32, exposeRo: seq<int>)
      requires Valid() && nest.top == Array("{sv}")
      modifies this
      ensures Valid() && nest == old(nest)
      ensures tokens == old(tokens) + (SandboxFlags(sandboxFlags) + ExposeRo(exposeRo))
    {
      ghost var before := tokens;
      WriteSandboxFlags(sandboxFlags);
      WriteExposeRo(exposeRo);
      Regroup(before, SandboxFlags(sandboxFlags), ExposeRo(exposeRo));
    }
  }

  // ---------------------------------------------------------------- what libdbus refuses

  predicate FdsOpen(a: seq<Assignment>, open: set<int>) {
    forall i | 0 <= i < |a| :: a[i].fd in open
  }

  predicate HandlesOpen(fds: seq<int>, open: set<int>) {
    forall i | 0 <= i < |fds| :: fds[i] in open
  }

  /** What is passed of the environment is valid UTF-8. */
  predicate EnvIsText(env: seq<(string, string)>) {
    forall i | 0 <= i < |env| :: Utf8(CStr(env[i].0)) && Utf8(CStr(env[i].1))
  }

  lemma {:induction false} ArgsAccepted(argv: seq<string>, open: set<int>)
    ensures AllAccepted(Args(argv), open)
  {
    if argv != [] {
      BytesAccepted(argv[0], open);
      ArgsAccepted(argv[1..], open);
      AllAcceptedAppend(ByteString(argv[0]), Args(argv[1..]), open);
    }
  }

  lemma BytesAccepted(s: string, open: set<int>)
    ensures AllAccepted(ByteString(s), open)
  {
    AllAcceptedEach(ByteString(s), open);
  }

  lemma EntryAccepted(x: Token, y: Token, open: set<int>)
    ensures AllAccepted([OpenDictEntry, x, y, Close], open) <==> Accepted(x, open) && Accepted(y, open)
  {
    var ts := [OpenDictEntry, x, y, Close];
    AllAcceptedEach(ts, open);
    assert ts[1] == x && ts[2] == y;
  }

  lemma {:induction false} FdsAcceptedIff(a: seq<Assignment>, open: set<int>)
    requires TargetsFit(a)
    ensures AllAccepted(Fds(a), open) <==> FdsOpen(a, open)
  {
    if a != [] {
      var head := FdEntry(ToUint32(a[0].target), a[0].fd);
      FdsAcceptedIff(a[1..], open);
      AllAcceptedAppend(head, Fds(a[1..]), open);
      EntryAccepted(UInt(ToUint32(a[0].target)), Handle(a[0].fd), open);
      assert FdsOpen(a, open) <==> a[0].fd in open && FdsOpen(a[1..], open) by {
        assert a == [a[0]] + a[1..];
      }
    }
  }

  lemma {:induction false} EnvAcceptedIff(env: seq<(string, string)>, open: set<int>)
    ensures AllAccepted(Env(env), open) <==> EnvIsText(env)
  {
    if env != [] {
      var head := EnvEntry(CStr(env[0].0), CStr(env[0].1));
      EnvAcceptedIff(env[1..], open);
      AllAcceptedAppend(head, Env(env[1..]), open);
      EntryAccepted(Str(CStr(env[0].0)), Str(CStr(env[0].1)), open);
      assert EnvIsText(env) <==> Utf8(CStr(env[0].0)) && Utf8(CStr(env[0].1)) && EnvIsText(env[1..]) by {
        assert env == [env[0]] + env[1..];
      }
    }
  }

  lemma {:induction false} HandlesAcceptedIff(fds: seq<int>, open: set<int>)
    ensures AllAccepted(Handles(fds), open) <==> HandlesOpen(fds, open)
  {
    if fds != [] {
      HandlesAcceptedIff(fds[1..], open);
      AllAcceptedAppend([Handle(fds[0])], Handles(fds[1..]), open);
      AllAcceptedEach([Handle(fds[0])], open);
      assert HandlesOpen(fds, open) <==> fds[0] in open && HandlesOpen(fds[1..], open) by {
        assert fds == [fds[0]] + fds[1..];
      }
    }
  }

  /** Bytes that are no text make the call abort. */
  lemma ForeignByteRefused()
    ensures !EnvIsText([("LANG", [0xFF as char])])
  {
    var env := [("LANG", [0xFF as char])];
    var value := env[0].1;
    assert CStr(value) == value by {
      CStrKeepsIff(value);
    }
    assert !Placed(value, 0);
    assert !Utf8(CStr(env[0].1));
  }

  /** An array is refused exactly when one of its elements is. */
  lemma EnclosedAccepted(elem: string, ts: seq<Token>, open: set<int>)
    ensures AllAccepted([OpenArray(elem)] + ts + [Close], open) <==> AllAccepted(ts, open)
  {
    AllAcceptedAppend([OpenArray(elem)] + ts, [Close], open);
    AllAcceptedAppend([OpenArray(elem)], ts, open);
    AllAcceptedEach([OpenArray(elem)], open);
    AllAcceptedEach([Close], open);
  }

  lemma OptionNamesAreText()
    ensures Utf8("sandbox-flags") && Utf8("sandbox-expose-fd-ro")
  {
    AsciiIsUtf8("sandbox-flags");
    AsciiIsUtf8("sandbox-expose-fd-ro");
  }

  lemma SandboxFlagsAccepted(flags: uint32, open: set<int>)
    ensures AllAccepted(SandboxFlags(flags), open)
  {
    OptionNamesAreText();
    AllAcceptedEach(SandboxFlags(flags), open);
  }

  lemma ExposeRoAcceptedIff(fds: seq<int>, open: set<int>)
    ensures AllAccepted(ExposeRo(fds), open) <==> HandlesOpen(fds, open)
  {
    if fds != [] {
      HandlesAcceptedIff(fds, open);
      ExposeFrameAccepted(open);
      AllAcceptedAppend(EXPOSE_OPENING + Handles(fds), [Close, Close, Close], open);
      AllAcceptedAppend(EXPOSE_OPENING, Handles(fds), open);
    }
  }

  lemma ExposeFrameAccepted(open: set<int>)
    ensures AllAccepted(EXPOSE_OPENING, open) && AllAccepted([Close, Close, Close], open)
  {
    OptionNamesAreText();
    AllAcceptedEach(EXPOSE_OPENING, open);
    AllAcceptedEach([Close, Close, Close], open);
  }

  lemma OptionsAcceptedIff(flags: uint32, fds: seq<int>, open: set<int>)
    ensures AllAccepted(OptionArray(flags, fds), open) <==> HandlesOpen(fds, open)
  {
    SandboxFlagsAccepted(flags, open);
    ExposeRoAcceptedIff(fds, open);
    AllAcceptedAppend(SandboxFlags(flags), ExposeRo(fds), open);
    EnclosedAccepted("{sv}", SandboxFlags(flags) + ExposeRo(fds), open);
  }

  /** libdbus takes the whole message if and only if every descriptor in it is open and the environment,
      as far as it is passed, is valid UTF-8. */
  lemma EncodeAcceptedIff(c: SpawnCall, open: set<int>)
    requires TargetsFit(c.fds)
    ensures AllAccepted(Encode(c), open) <==>
            FdsOpen(c.fds, open) && EnvIsText(c.env) && HandlesOpen(c.exposeRo, open)
  {
    var cwd, argv, fds, env := ByteString(c.cwd), ArgvArray(c.argv), FdArray(c.fds), EnvArray(c.env);
    BytesAccepted(c.cwd, open);
    ArgsAccepted(c.argv, open);
    EnclosedAccepted("ay", Args(c.argv), open);
    FdsAcceptedIff(c.fds, open);
    EnclosedAccepted("{uh}", Fds(c.fds), open);
    EnvAcceptedIff(c.env, open);
    EnclosedAccepted("{ss}", Env(c.env), open);
    OptionsAcceptedIff(c.sandboxFlags, c.exposeRo, open);
    AllAcceptedEach([UInt(c.flags)], open);
    AllAcceptedAppend(cwd, argv, open);
    AllAcceptedAppend(cwd + argv, fds, open);
    AllAcceptedAppend(cwd + argv + fds, env, open);
    AllAcceptedAppend(cwd + argv + fds + env, [UInt(c.flags)], open);
    AllAcceptedAppend(cwd + argv + fds + env + [UInt(c.flags)], OptionArray(c.sandboxFlags, c.exposeRo), open);
  }

  /** The assertions in BuildSpawnMethodCall and in the writer fail exactly for an empty directory or
      command, a descriptor that is not open, or an environment that is not text; otherwise the message
      has the portal's signature, with every container closed in the reverse order of its opening. */
  method BuildSpawnMethodCall(c: SpawnCall, open: set<int>) returns (message: Option<seq<Token>>)
    requires TargetsFit(c.fds)
    ensures message.Some? <==>
            && c.cwd != "" && c.argv != []
            && FdsOpen(c.fds, open) && EnvIsText(c.env) && HandlesOpen(c.exposeRo, open)
    ensures message.Some? ==> message.value == Encode(c) && WellTyped(message.value, SIGNATURE)
  {
    if c.cwd == "" || c.argv == [] {
      return None;
    }
    var w := new MessageWriter(open);
    w.WriteByteString(c.cwd);
    assert w.tokens == ByteString(c.cwd) && "" + "ay" == "ay";
    w.WriteArgvArray(c.argv);
    w.WriteFdArray(c.fds);
    w.WriteEnvArray(c.env);
    assert "ayaaya{uh}a{ss}" + "u" == "ayaaya{uh}a{ss}u";
    w.Write(UInt(c.flags));
    w.WriteOptionArray(c.sandboxFlags, c.exposeRo);
    EncodeAcceptedIff(c, open);
    message := if w.aborted then None else Some(w.tokens);
  }
}
