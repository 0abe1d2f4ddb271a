/** Valid UTF-8 as the D-Bus Specification requires it of every string, judged byte by byte, and that it
    is exactly what encoding some text gives. */
module Utf8Text {

  predicate IsTail(c: char) {
    0x80 <= c as int < 0xC0
  }

  /** How many bytes the character has that starts with this byte, if one can. */
  function LeadLength(c: char): nat {
    if c as int < 0x80 then 1
    else if 0xC2 <= c as int < 0xE0 then 2
    else if 0xE0 <= c as int < 0xF0 then 3
    else if 0xF0 <= c as int < 0xF5 then 4
    else 0
  }

  /** Neither overlong, nor a surrogate, nor beyond the last code point. */
  predicate SecondFits(lead: int, second: int) {
    && (lead == 0xE0 ==> 0xA0 <= second)
    && (lead == 0xED ==> second < 0xA0)
    && (lead == 0xF0 ==> 0x90 <= second)
    && (lead == 0xF4 ==> second < 0x90)
  }

  predicate StartsChar(s: string, i: nat)
    requires i < |s|
  {
    var n := LeadLength(s[i]);
    && n > 0 && i + n <= |s|
    && (forall j | i < j < i + n :: IsTail(s[j]))
    && (n > 1 ==> SecondFits(s[i] as int, s[i + 1] as int))
  }

  predicate ContinuesChar(s: string, i: nat)
    requires i < |s|
  {
    IsTail(s[i]) && exists j | 0 <= j < i :: i < j + LeadLength(s[j])
  }

  /** Valid UTF-8, for a string of bytes. */
  predicate Utf8(s: string) {
    forall i | 0 <= i < |s| :: Placed(s, i)
  }

  predicate Placed(s: string, i: nat)
    requires i < |s|
  {
    StartsChar(s, i) || ContinuesChar(s, i)
  }

  lemma AsciiIsUtf8(s: string)
    requires forall i | 0 <= i < |s| :: s[i] as int < 0x80
    ensures Utf8(s)
  {
  }

  // ---------------------------------------------------------------- the encoding

  /** The bytes of one character, a Unicode scalar value. */
  function EncodeChar(c: char): string {
    var n := c as int;
    if n < 0x80 then [c]
    else if n < 0x800 then [(0xC0 + n / 64) as char, (0x80 + n % 64) as char]
    else if n < 0x1_0000 then
      [(0xE0 + n / 4096) as char, (0x80 + n / 64 % 64) as char, (0x80 + n % 64) as char]
    else
      [(0xF0 + n / 262144) as char, (0x80 + n / 4096 % 64) as char, (0x80 + n / 64 % 64) as char, (0x80 + n % 64) as char]
  }

  function EncodeText(text: string): string {
    if text == "" then "" else EncodeChar(text[0]) + EncodeText(text[1..])
  }

  /** A sequence of bytes that is one character. */
  predicate IsChar(head: string) {
    head != "" && LeadLength(head[0]) == |head| && StartsChar(head, 0)
  }

  lemma IsCharFrom(head: string)
    requires head != "" && LeadLength(head[0]) == |head|
    requires forall j | 0 < j < |head| :: IsTail(head[j])
    requires |head| > 1 ==> SecondFits(head[0] as int, head[1] as int)
    ensures IsChar(head)
  {
  }

  lemma EncodeCharIsChar(c: char)
    ensures IsChar(EncodeChar(c))
  {
    var n, head := c as int, EncodeChar(c);
    if 0x800 <= n < 0x1_0000 {
      SecondOfThree(n);
    } else if n >= 0x1_0000 {
      SecondOfFour(n);
    }
    IsCharFrom(head);
  }

  lemma SecondOfThree(n: nat)
    requires 0x800 <= n < 0x1_0000 && !(0xD800 <= n < 0xE000)
    ensures 0xE0 + n / 4096 < 0xF0 && SecondFits(0xE0 + n / 4096, 0x80 + n / 64 % 64)
  {
  }

  lemma SecondOfFour(n: nat)
    requires 0x1_0000 <= n < 0x11_0000
    ensures 0xF0 + n / 262144 < 0xF5 && SecondFits(0xF0 + n / 262144, 0x80 + n / 4096 % 64)
  {
  }

  /** Text behind a character is judged as before. */
  lemma Utf8Behind(head: string, rest: string)
    requires IsChar(head)
    ensures Utf8(head + rest) <==> Utf8(rest)
  {
    var s, n := head + rest, |head|;
    if Utf8(rest) {
      forall i | 0 <= i < |s| ensures Placed(s, i) {
        if i < n {
          PlacedInHead(head, rest, i);
        } else {
          PlacedBehind(head, rest, i - n);
        }
      }
    }
    if Utf8(s) {
      forall i | 0 <= i < |rest| ensures Placed(rest, i) {
        PlacedBehind(head, rest, i);
      }
    }
  }

  lemma PlacedInHead(head: string, rest: string, i: nat)
    requires IsChar(head) && i < |head|
    ensures Placed(head + rest, i)
  {
    var s := head + rest;
    assert forall j | 0 <= j < |head| :: s[j] == head[j];
    if i > 0 {
      assert IsTail(head[i]) && i < 0 + LeadLength(s[0]);
    }
  }

  lemma PlacedBehind(head: string, rest: string, i: nat)
    requires IsChar(head) && i < |rest|
    ensures Placed(head + rest, |head| + i) <==> Placed(rest, i)
  {
    StartsBehind(head, rest, i);
    ContinuesBehind(head, rest, i);
  }

  /** No byte of a character reaches beyond it. */
  lemma HeadEnds(head: string, rest: string, j: nat)
    requires IsChar(head) && j < |head|
    ensures j + LeadLength((head + rest)[j]) <= |head|
  {
    assert (head + rest)[j] == head[j] && (j > 0 ==> IsTail(head[j]));
  }

  lemma StartsBehind(head: string, rest: string, i: nat)
    requires i < |rest|
    ensures StartsChar(head + rest, |head| + i) <==> StartsChar(rest, i)
  {
    var s, n := head + rest, |head|;
    assert forall j | 0 <= j < |rest| :: s[n + j] == rest[j];
    assert forall j | n <= j < |s| :: s[j] == rest[j - n];
  }

  lemma ContinuesBehind(head: string, rest: string, i: nat)
    requires IsChar(head) && i < |rest|
    ensures ContinuesChar(head + rest, |head| + i) <==> ContinuesChar(rest, i)
  {
    var s, n := head + rest, |head|;
    assert s[n + i] == rest[i];
    if ContinuesChar(s, n + i) {
      var j :| 0 <= j < n + i && n + i < j + LeadLength(s[j]);
      if j < n {
        HeadEnds(head, rest, j);
      }
      assert s[j] == rest[j - n];
    }
    if ContinuesChar(rest, i) {
      var j :| 0 <= j < i && i < j + LeadLength(rest[j]);
      assert s[n + j] == rest[j];
    }
  }

  lemma {:induction false} EncodedIsUtf8(text: string)
    ensures Utf8(EncodeText(text))
  {
    if text != "" {
      EncodedIsUtf8(text[1..]);
      EncodeCharIsChar(text[0]);
      Utf8Behind(EncodeChar(text[0]), EncodeText(text[1..]));
    }
  }

  lemma DecodeTwo(a: int, b: int) returns (c: char)
    requires 0xC2 <= a < 0xE0 && 0x80 <= b < 0xC0
    ensures EncodeChar(c) == [a as char, b as char]
  {
    c := ((a - 0xC0) * 64 + (b - 0x80)) as char;
  }

  lemma DecodeThree(a: int, b: int, d: int) returns (c: char)
    requires 0xE0 <= a < 0xF0 && 0x80 <= b < 0xC0 && 0x80 <= d < 0xC0 && SecondFits(a, b)
    ensures EncodeChar(c) == [a as char, b as char, d as char]
  {
    var n := (a - 0xE0) * 4096 + (b - 0x80) * 64 + (d - 0x80);
    c := n as char;
    assert n / 64 == (a - 0xE0) * 64 + (b - 0x80);
  }

  lemma DecodeFour(a: int, b: int, d: int, e: int) returns (c: char)
    requires 0xF0 <= a < 0xF5 && 0x80 <= b < 0xC0 && 0x80 <= d < 0xC0 && 0x80 <= e < 0xC0 && SecondFits(a, b)
    ensures EncodeChar(c) == [a as char, b as char, d as char, e as char]
  {
    var n := (a - 0xF0) * 262144 + (b - 0x80) * 4096 + (d - 0x80) * 64 + (e - 0x80);
    c := n as char;
    assert n / 64 == (a - 0xF0) * 4096 + (b - 0x80) * 64 + (d - 0x80);
    assert n / 4096 == (a - 0xF0) * 64 + (b - 0x80);
  }

  /** Every sequence of bytes that is one character is the encoding of one. */
  lemma DecodeChar(head: string) returns (c: char)
    requires IsChar(head)
    ensures EncodeChar(c) == head
  {
    if |head| == 1 {
      c := head[0];
    } else if |head| == 2 {
      c := DecodeTwo(head[0] as int, head[1] as int);
    } else if |head| == 3 {
      c := DecodeThree(head[0] as int, head[1] as int, head[2] as int);
    } else {
      c := DecodeFour(head[0] as int, head[1] as int, head[2] as int, head[3] as int);
    }
  }

  lemma FirstIsChar(s: string)
    requires s != "" && StartsChar(s, 0)
    ensures IsChar(s[..LeadLength(s[0])])
  {
    var head := s[..LeadLength(s[0])];
    assert forall j | 0 <= j < |head| :: head[j] == s[j];
  }

  lemma {:induction false} Utf8IsEncoded(s: string) returns (text: string)
    requires Utf8(s)
    ensures EncodeText(text) == s
    decreases |s|
  {
    if s == "" {
      text := "";
    } else {
      assert Placed(s, 0) && !ContinuesChar(s, 0);
      var n := LeadLength(s[0]);
      var head, rest := s[..n], s[n..];
      FirstIsChar(s);
      assert s == head + rest;
      Utf8Behind(head, rest);
      var c := DecodeChar(head);
      text := Utf8IsEncoded(rest);
      text := [c] + text;
    }
  }

  /** A string of bytes is valid exactly when it is the encoding of some text. */
  lemma Utf8Iff(s: string)
    ensures Utf8(s) <==> exists text :: EncodeText(text) == s
  {
    if Utf8(s) {
      var text := Utf8IsEncoded(s);
    }
    forall text | EncodeText(text) == s ensures Utf8(s) {
      EncodedIsUtf8(text);
    }
  }
}
