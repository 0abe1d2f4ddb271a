/** How fd assignments travel as command-line arguments: printed by the launcher, parsed by
    zypak-helper (src/base/fd_map.cc, src/base/launcher.cc, src/helper/main.cc). */
module HelperArgs {
  import opened Basics
  import opened FdAssignments

  // ---------------------------------------------------------------- decimal numbers

  predicate IsDigit(c: char) {
    '0' <= c <= '9'
  }

  function DigitChar(d: nat): char
    requires d < 10
  {
    '0' + d as char
  }

  function DigitValue(c: char): nat
    requires IsDigit(c)
  {
    (c - '0') as nat
  }

  function Digits(n: nat): (s: string) {
    if n < 10 then [DigitChar(n)] else Digits(n / 10) + [DigitChar(n % 10)]
  }

  /** std::to_string. */
  function Print(n: int): string {
    if n < 0 then "-" + Digits(-n) else Digits(n)
  }

  datatype Scan = Scan(value: int, rest: string)

  function ScanDigits(s: string, acc: nat): Scan {
    if s != [] && IsDigit(s[0]) then ScanDigits(s[1..], 10 * acc + DigitValue(s[0])) else Scan(acc, s)
  }

  predicate IsSpace(c: char) {
    c == ' ' || '\t' <= c <= '\r'
  }

  function SkipSpace(s: string): string {
    if s != [] && IsSpace(s[0]) then SkipSpace(s[1..]) else s
  }

  /** The %d conversion: white space, an optional sign, at least one digit. */
  function ScanInt(s: string): Option<Scan> {
    ScanSigned(SkipSpace(s))
  }

  function ScanSigned(s: string): Option<Scan> {
    var negative := s != [] && s[0] == '-';
    var s := if s != [] && (s[0] == '-' || s[0] == '+') then s[1..] else s;
    if s == [] || !IsDigit(s[0]) then None
    else
      var r := ScanDigits(s, 0);
      Some(if negative then Scan(-r.value, r.rest) else r)
  }

  lemma {:induction false} ScanDigitsPrinted(n: nat, rest: string)
    ensures ScanDigits(Digits(n) + rest, 0) == ScanDigits(rest, n)
    ensures Digits(n) != [] && IsDigit(Digits(n)[0])
    decreases n
  {
    if n < 10 {
      assert ([DigitChar(n)] + rest)[1..] == rest;
    } else {
      var last := [DigitChar(n % 10)];
      assert Digits(n) + rest == Digits(n / 10) + (last + rest);
      ScanDigitsPrinted(n / 10, last + rest);
      assert (last + rest)[1..] == rest;
    }
  }

  /** Scanning a printed number gives it back and stops right behind it. */
  lemma ScanPrinted(n: int, rest: string)
    requires rest == [] || !IsDigit(rest[0])
    ensures ScanInt(Print(n) + rest) == Some(Scan(n, rest))
  {
    var m := if n < 0 then -n else n;
    ScanDigitsPrinted(m, rest);
    assert ScanDigits(rest, m) == Scan(m, rest);
    if n < 0 {
      assert (Print(n) + rest)[1..] == Digits(m) + rest;
    }
  }

  /** No number is printed with a leading zero. */
  lemma {:induction false} DigitsAreCanonical(n: nat)
    ensures |Digits(n)| > 1 ==> Digits(n)[0] != '0'
    ensures Digits(n) == "0" <==> n == 0
  {
    if n >= 10 {
      DigitsAreCanonical(n / 10);
      assert Digits(n) == Digits(n / 10) + [DigitChar(n % 10)];
      ScanDigitsPrinted(n / 10, "");
    }
  }

  predicate AllDigits(s: string) {
    forall i | 0 <= i < |s| :: '0' <= s[i] <= '9'
  }

  /** The number that a string of decimal digits stands for. */
  function DecimalValue(s: string): nat
    requires AllDigits(s)
  {
    if s == "" then 0 else 10 * DecimalValue(s[..|s| - 1]) + (s[|s| - 1] - '0') as nat
  }

  predicate AllSpace(s: string) {
    forall i | 0 <= i < |s| :: s[i] in {' ', '\t', '\n', '\U{B}', '\U{C}', '\r'}
  }

  /** What %d reads, in general: white space, a sign or none, digits, and whatever comes behind them. */
  predicate IsScanOf(s: string, spaces: string, sign: string, digits: string, rest: string) {
    && s == spaces + sign + digits + rest
    && AllSpace(spaces) && sign in {"", "+", "-"}
    && digits != "" && AllDigits(digits)
    && (rest != "" ==> !IsDigit(rest[0]))
  }

  lemma DecimalSnoc(prefix: string, c: char)
    requires AllDigits(prefix) && IsDigit(c)
    ensures AllDigits(prefix + [c]) && DecimalValue(prefix + [c]) == 10 * DecimalValue(prefix) + DigitValue(c)
  {
    assert (prefix + [c])[..|prefix|] == prefix;
  }

  lemma ScanOneDigit(c: char, rest: string, n: nat)
    requires IsDigit(c)
    ensures ScanDigits([c] + rest, n) == ScanDigits(rest, 10 * n + DigitValue(c))
  {
    Behind([c], rest);
  }

  lemma ScanFirstDigit(digits: string, rest: string, prefix: string)
    requires digits != "" && AllDigits(digits) && AllDigits(prefix)
    ensures AllDigits(prefix + [digits[0]])
    ensures ScanDigits(digits + rest, DecimalValue(prefix)) ==
            ScanDigits(digits[1..] + rest, DecimalValue(prefix + [digits[0]]))
  {
    DecimalSnoc(prefix, digits[0]);
    ConsTail(digits, rest);
    ScanOneDigit(digits[0], digits[1..] + rest, DecimalValue(prefix));
  }

  lemma ScanStops(rest: string, n: nat)
    requires rest != "" ==> !IsDigit(rest[0])
    ensures ScanDigits(rest, n) == Scan(n, rest)
  {
  }

  lemma MoveFirst(prefix: string, digits: string)
    requires digits != ""
    ensures (prefix + [digits[0]]) + digits[1..] == prefix + digits
  {
  }

  lemma {:induction false} ScanDigitsTakesAll(digits: string, rest: string, prefix: string)
    requires AllDigits(digits) && AllDigits(prefix) && (rest != "" ==> !IsDigit(rest[0]))
    ensures AllDigits(prefix + digits)
    ensures ScanDigits(digits + rest, DecimalValue(prefix)) == Scan(DecimalValue(prefix + digits), rest)
    decreases |digits|
  {
    if digits == "" {
      assert digits + rest == rest && prefix + digits == prefix;
      ScanStops(rest, DecimalValue(prefix));
    } else {
      ScanFirstDigit(digits, rest, prefix);
      ScanDigitsTakesAll(digits[1..], rest, prefix + [digits[0]]);
      MoveFirst(prefix, digits);
    }
  }

  lemma {:induction false} SkipSpaceSkips(spaces: string, rest: string)
    requires AllSpace(spaces) && (rest != "" ==> !IsSpace(rest[0]))
    ensures SkipSpace(spaces + rest) == rest
  {
    if spaces == "" {
      assert spaces + rest == rest;
    } else {
      assert (spaces + rest)[1..] == spaces[1..] + rest;
      SkipSpaceSkips(spaces[1..], rest);
    }
  }

  function Signed(sign: string, n: int): int {
    if sign == "-" then -n else n
  }

  lemma ScanSignedReads(sign: string, digits: string, rest: string)
    requires sign in {"", "+", "-"} && digits != "" && AllDigits(digits) && (rest != "" ==> !IsDigit(rest[0]))
    ensures ScanSigned(sign + (digits + rest)) == Some(Scan(Signed(sign, DecimalValue(digits)), rest))
    ensures !IsSpace((sign + (digits + rest))[0])
  {
    assert (digits + rest)[0] == digits[0];
    ScanDigitsTakesAll(digits, rest, "");
    assert "" + digits == digits;
    SignTaken(sign, digits + rest);
  }

  lemma SignTaken(sign: string, tail: string)
    requires sign in {"", "+", "-"} && tail != "" && IsDigit(tail[0])
    ensures ScanSigned(sign + tail) == Some(Scan(Signed(sign, ScanDigits(tail, 0).value), ScanDigits(tail, 0).rest))
    ensures !IsSpace((sign + tail)[0])
  {
    if sign == "" {
      assert sign + tail == tail;
    } else {
      Behind(sign, tail);
    }
  }

  /** Whatever has that form is read as its number. */
  lemma ScanReads(s: string, spaces: string, sign: string, digits: string, rest: string)
    requires IsScanOf(s, spaces, sign, digits, rest)
    ensures ScanInt(s) == Some(Scan(Signed(sign, DecimalValue(digits)), rest))
  {
    Regroup(spaces + sign, digits, rest);
    Regroup(spaces, sign, digits + rest);
    ScanSignedReads(sign, digits, rest);
    SkipSpaceSkips(spaces, sign + (digits + rest));
  }

  /** The longest run of digits at the front. */
  lemma {:induction false} SplitDigits(s: string) returns (digits: string, rest: string)
    ensures s == digits + rest && AllDigits(digits) && (rest != "" ==> !IsDigit(rest[0]))
    ensures s != "" && IsDigit(s[0]) ==> digits != ""
  {
    if s == "" || !IsDigit(s[0]) {
      digits, rest := "", s;
    } else {
      digits, rest := SplitDigits(s[1..]);
      digits := [s[0]] + digits;
    }
  }

  lemma {:induction false} SplitSpaces(s: string) returns (spaces: string)
    ensures s == spaces + SkipSpace(s) && AllSpace(spaces)
  {
    if s == "" || !IsSpace(s[0]) {
      spaces := "";
    } else {
      spaces := SplitSpaces(s[1..]);
      spaces := [s[0]] + spaces;
    }
  }

  /** And nothing else is read at all. */
  lemma ScanShape(s: string) returns (spaces: string, sign: string, digits: string, rest: string)
    ensures ScanInt(s).Some? ==> IsScanOf(s, spaces, sign, digits, rest)
  {
    spaces := SplitSpaces(s);
    var s1 := SkipSpace(s);
    sign := if s1 != "" && (s1[0] == '-' || s1[0] == '+') then [s1[0]] else "";
    var s2 := if sign == "" then s1 else s1[1..];
    digits, rest := SplitDigits(s2);
    assert s1 == sign + s2;
    Regroup(spaces, sign, s2);
    Regroup(spaces + sign, digits, rest);
  }

  // ---------------------------------------------------------------- one assignment

  function Serialize(a: Assignment): string {
    Print(a.target) + "=" + Print(a.fd)
  }

  /** sscanf with "%d=%d"; what follows the second number is ignored. */
  function Deserialize(data: string): Option<Assignment> {
    if '=' !in data then None
    else
      match ScanInt(data)
      case None => None
      case Some(target) =>
        if target.rest == [] || target.rest[0] != '=' then None
        else
          match ScanInt(target.rest[1..])
          case None => None
          case Some(fd) => Some(Assignment(target.value, fd.value))
  }

  lemma DeserializeSerialized(a: Assignment)
    ensures Deserialize(Serialize(a)) == Some(a)
    ensures Serialize(a) != "-"
  {
    var tail := "=" + Print(a.fd);
    Regroup(Print(a.target), "=", Print(a.fd));
    ScanPrinted(a.target, tail);
    ScanPrinted(a.fd, "");
    assert Print(a.fd) + "" == Print(a.fd);
    Behind("=", Print(a.fd));
    assert Serialize(a)[|Print(a.target)|] == '=';
  }

  /** An argument is an assignment exactly when a number, "=" and another number stand at its front; what
      follows them does not matter. */
  lemma DeserializeIff(data: string)
    ensures Deserialize(data).Some? <==>
            ScanInt(data).Some? && ScanInt(data).value.rest != "" && ScanInt(data).value.rest[0] == '=' &&
            ScanInt(ScanInt(data).value.rest[1..]).Some?
    ensures Deserialize(data).Some? ==>
              && Deserialize(data).value.target == ScanInt(data).value.value
              && Deserialize(data).value.fd == ScanInt(ScanInt(data).value.rest[1..]).value.value
  {
    if ScanInt(data).Some? && ScanInt(data).value.rest != "" && ScanInt(data).value.rest[0] == '=' {
      var spaces, sign, digits, rest := ScanShape(data);
      ScanReads(data, spaces, sign, digits, rest);
      assert data[|spaces + sign + digits|] == '=';
    }
  }

  // ---------------------------------------------------------------- the whole command line

  function SerializeAll(a: seq<Assignment>): seq<string> {
    if a == [] then [] else [Serialize(a[0])] + SerializeAll(a[1..])
  }

  /** BuildCommandWrapper: a tracing prefix if any, then the helper in child mode with the map. */
  function Wrapper(trace: seq<string>, helper: string, a: seq<Assignment>): seq<string> {
    trace + [helper, "child"] + SerializeAll(a) + ["-"]
  }

  /** `Parsed` leaves the command behind the "-". */
  datatype Parse = Parsed(fdMap: seq<Assignment>, command: seq<string>) | Invalid | EndedTooSoon

  /** The first half of ApplyFdMapFromArgs. */
  function ParseFdMap(args: seq<string>): Parse {
    if args == [] then EndedTooSoon
    else if args[0] == "-" then Parsed([], args[1..])
    else
      match Deserialize(args[0])
      case None => Invalid
      case Some(a) =>
        match ParseFdMap(args[1..])
        case Parsed(rest, command) => Parsed([a] + rest, command)
        case failed => failed
  }

  lemma {:induction false} ParseBefore(a: seq<Assignment>, tail: seq<string>)
    requires ParseFdMap(tail).Parsed?
    ensures ParseFdMap(SerializeAll(a) + tail) ==
            Parsed(a + ParseFdMap(tail).fdMap, ParseFdMap(tail).command)
  {
    if a == [] {
      assert SerializeAll(a) + tail == tail;
    } else {
      ParseBefore(a[1..], tail);
      ParseBeforeCons(a, tail, a[1..] + ParseFdMap(tail).fdMap);
      ConsTail(a, ParseFdMap(tail).fdMap);
    }
  }

  lemma ParseBeforeCons(a: seq<Assignment>, tail: seq<string>, parsed: seq<Assignment>)
    requires a != [] && ParseFdMap(SerializeAll(a[1..]) + tail).Parsed?
    requires ParseFdMap(SerializeAll(a[1..]) + tail).fdMap == parsed
    ensures ParseFdMap(SerializeAll(a) + tail) ==
            Parsed([a[0]] + parsed, ParseFdMap(SerializeAll(a[1..]) + tail).command)
  {
    ParseCons(a[0], SerializeAll(a[1..]) + tail);
    Regroup([Serialize(a[0])], SerializeAll(a[1..]), tail);
  }

  /** Parsing what was printed gives the same assignments and leaves the iterator at the command,
      whatever the command is. */
  lemma ParsePrinted(a: seq<Assignment>, command: seq<string>)
    ensures ParseFdMap(SerializeAll(a) + (["-"] + command)) == Parsed(a, command)
  {
    ParseDash(command);
    ParseBefore(a, ["-"] + command);
    assert a + [] == a;
  }

  lemma ParseDash(command: seq<string>)
    ensures ParseFdMap(["-"] + command) == Parsed([], command)
  {
    assert (["-"] + command)[1..] == command;
  }

  lemma ParseCons(a: Assignment, args: seq<string>)
    requires ParseFdMap(args).Parsed?
    ensures ParseFdMap([Serialize(a)] + args) == Parsed([a] + ParseFdMap(args).fdMap, ParseFdMap(args).command)
  {
    DeserializeSerialized(a);
    assert ([Serialize(a)] + args)[1..] == args;
  }

  /** The helper that the wrapper starts sees mode "child", exactly the launcher's assignments, and
      the launcher's command. */
  lemma HelperSeesLauncherMap(trace: seq<string>, helper: string, a: seq<Assignment>, command: seq<string>)
    ensures
      var argv := (Wrapper(trace, helper, a) + command)[|trace|..];
      |argv| > 2 && argv[0] == helper && argv[1] == "child" && ParseFdMap(argv[2..]) == Parsed(a, command)
  {
    var argv := (Wrapper(trace, helper, a) + command)[|trace|..];
    var tail := SerializeAll(a) + (["-"] + command);
    Regroup(trace + [helper, "child"] + SerializeAll(a), ["-"], command);
    Regroup(trace + [helper, "child"], SerializeAll(a), ["-"] + command);
    Regroup(trace, [helper, "child"], tail);
    Behind(trace, [helper, "child"] + tail);
    Behind([helper, "child"], tail);
    ParsePrinted(a, command);
  }

  lemma {:induction false} SerializeAllSnoc(a: seq<Assignment>, x: Assignment)
    ensures SerializeAll(a + [x]) == SerializeAll(a) + [Serialize(x)]
  {
    if a != [] {
      assert (a + [x])[1..] == a[1..] + [x];
      SerializeAllSnoc(a[1..], x);
    }
  }

  /** The terminator is the first "-"; everything before it is an assignment. */
  predicate TerminatorAt(args: seq<string>, k: nat) {
    && k < |args| && args[k] == "-"
    && forall i | 0 <= i < k :: args[i] != "-" && Deserialize(args[i]).Some?
  }

  /** The parser accepts exactly the argument lists with such a terminator, and then yields the
      assignments before it, in order, and the command behind it. */
  lemma {:induction false} ParsedIff(args: seq<string>, k: nat)
    ensures TerminatorAt(args, k) ==>
              && ParseFdMap(args).Parsed?
              && |ParseFdMap(args).fdMap| == k
              && ParseFdMap(args).command == args[k + 1..]
              && forall i | 0 <= i < k :: Some(ParseFdMap(args).fdMap[i]) == Deserialize(args[i])
    decreases |args|
  {
    if TerminatorAt(args, k) && k > 0 {
      assert TerminatorAt(args[1..], k - 1);
      ParsedIff(args[1..], k - 1);
      assert args[1..][k..] == args[k + 1..];
      forall i | 0 <= i < k ensures Some(ParseFdMap(args).fdMap[i]) == Deserialize(args[i]) {
        if i > 0 {
          assert args[1..][i - 1] == args[i];
        }
      }
    }
  }

  lemma TerminatorBehind(args: seq<string>, k: nat)
    requires args != []
    ensures TerminatorAt(args, k + 1) <==>
            args[0] != "-" && Deserialize(args[0]).Some? && TerminatorAt(args[1..], k)
  {
    if TerminatorAt(args[1..], k) && args[0] != "-" && Deserialize(args[0]).Some? {
      forall i | 0 <= i < k + 1 ensures args[i] != "-" && Deserialize(args[i]).Some? {
        assert i > 0 ==> args[i] == args[1..][i - 1];
      }
    }
  }

  /** Otherwise it says why: an argument before any terminator that is no assignment, or no terminator. */
  lemma {:induction false} ParseDecides(args: seq<string>)
    ensures ParseFdMap(args).Parsed? <==> exists k: nat :: TerminatorAt(args, k)
    ensures ParseFdMap(args).EndedTooSoon? <==> NoTerminator(args)
    decreases |args|
  {
    if args != [] {
      if args[0] == "-" {
        assert TerminatorAt(args, 0);
      } else if Deserialize(args[0]).Some? {
        ParseDecides(args[1..]);
        forall k: nat ensures TerminatorAt(args, k + 1) <==> TerminatorAt(args[1..], k) {
          TerminatorBehind(args, k);
        }
        if k: nat :| TerminatorAt(args[1..], k) {
          assert TerminatorAt(args, k + 1);
        }
        if k: nat :| TerminatorAt(args, k) {
          assert TerminatorAt(args[1..], k - 1);
        }
        EndsAlike(args);
      }
    }
  }

  predicate NoTerminator(args: seq<string>) {
    forall i | 0 <= i < |args| :: args[i] != "-" && Deserialize(args[i]).Some?
  }

  lemma EndsAlike(args: seq<string>)
    requires args != [] && args[0] != "-" && Deserialize(args[0]).Some?
    ensures NoTerminator(args) <==> NoTerminator(args[1..])
  {
    assert args == [args[0]] + args[1..];
  }

  method BuildCommandWrapper(trace: seq<string>, helper: string, a: seq<Assignment>) returns (wrapper: seq<string>)
    ensures wrapper == Wrapper(trace, helper, a)
  {
    ghost var prefix := trace + [helper, "child"];
    Regroup(trace, [helper], ["child"]);
    wrapper := trace + [helper];
    wrapper := wrapper + ["child"];
    var i := 0;
    while i < |a|
      invariant 0 <= i <= |a|
      invariant wrapper == prefix + SerializeAll(a[..i])
    {
      assert a[..i + 1] == a[..i] + [a[i]];
      SerializeAllSnoc(a[..i], a[i]);
      Regroup(prefix, SerializeAll(a[..i]), [Serialize(a[i])]);
      wrapper := wrapper + [Serialize(a[i])];
      i := i + 1;
    }
    assert a[..i] == a;
    wrapper := wrapper + ["-"];
  }

  /** One round of the parsing loop. */
  lemma ParseNext(args: seq<string>, at: nat)
    requires at < |args| && args[at] != "-"
    ensures ParseFdMap(args[at..]) ==
            match Deserialize(args[at])
            case None => Invalid
            case Some(a) =>
              match ParseFdMap(args[at + 1..])
              case Parsed(rest, command) => Parsed([a] + rest, command)
              case failed => failed
  {
    DropThen(args, at, 1);
  }

  /** The parsing loop; `at` is the iterator that the caller goes on with. */
  method ParseFdMapFromArgs(args: seq<string>) returns (ok: bool, fdMap: seq<Assignment>, at: nat)
    ensures at <= |args|
    ensures ok <==> ParseFdMap(args).Parsed?
    ensures ok ==> ParseFdMap(args) == Parsed(fdMap, args[at..])
  {
    at, fdMap := 0, [];
    while at < |args| && args[at] != "-"
      invariant at <= |args|
      invariant ParseFdMap(args) == match ParseFdMap(args[at..])
                                    case Parsed(rest, command) => Parsed(fdMap + rest, command)
                                    case failed => failed
    {
      var a := Deserialize(args[at]);
      if a.None? {
        ParseNext(args, at);
        return false, [], at;
      }
      ParseNext(args, at);
      ghost var remaining := ParseFdMap(args[at + 1..]);
      if remaining.Parsed? {
        Regroup(fdMap, [a.value], remaining.fdMap);
      }
      fdMap := fdMap + [a.value];
      at := at + 1;
    }
    if at == |args| {
      return false, [], at;
    }
    at := at + 1;
    ok := true;
  }
}
