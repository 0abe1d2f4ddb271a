/** Pickled messages as item sequences. Reading an item back gives what was written; the byte
    format belongs to the nickle library, which is not part of this model. */
module Pickle {
  import opened Basics

  datatype Token = UInt64(n: nat) | UInt32(u: uint32) | Int(i: int32) | Text(s: string) | Text16(s: string)

  function Texts(xs: seq<string>): seq<Token> {
    seq(|xs|, i requires 0 <= i < |xs| => Text(xs[i]))
  }

  function Ints(xs: seq<int32>): seq<Token> {
    seq(|xs|, i requires 0 <= i < |xs| => Int(xs[i]))
  }

  predicate AllText(tokens: seq<Token>) {
    forall i | 0 <= i < |tokens| :: tokens[i].Text?
  }

  predicate AllInt(tokens: seq<Token>) {
    forall i | 0 <= i < |tokens| :: tokens[i].Int?
  }

  predicate AllUInt32(tokens: seq<Token>) {
    forall i | 0 <= i < |tokens| :: tokens[i].UInt32?
  }

  function TextsOf(tokens: seq<Token>): seq<string>
    requires AllText(tokens)
  {
    seq(|tokens|, i requires 0 <= i < |tokens| => tokens[i].s)
  }

  lemma TextsRoundTrip(xs: seq<string>)
    ensures AllText(Texts(xs)) && TextsOf(Texts(xs)) == xs
  {
  }

  /** A reader's position in a message. */
  class Reader {
    var rest: seq<Token>

    constructor (tokens: seq<Token>)
      ensures rest == tokens
    {
      rest := tokens;
    }

    /** Takes the next item if there is one of the wanted kind; otherwise nothing moves. */
    method ReadText() returns (value: Option<string>)
      modifies this
      ensures value.Some? <==> old(rest) != [] && old(rest)[0].Text?
      ensures value.Some? ==> value.value == old(rest)[0].s && rest == old(rest)[1..]
      ensures value.None? ==> rest == old(rest)
    {
      if rest == [] || !rest[0].Text? {
        return None;
      }
      value := Some(rest[0].s);
      rest := rest[1..];
    }

    method ReadInt() returns (value: Option<int32>)
      modifies this
      ensures value.Some? <==> old(rest) != [] && old(rest)[0].Int?
      ensures value.Some? ==> value.value == old(rest)[0].i && rest == old(rest)[1..]
      ensures value.None? ==> rest == old(rest)
    {
      if rest == [] || !rest[0].Int? {
        return None;
      }
      value := Some(rest[0].i);
      rest := rest[1..];
    }

    method ReadUInt32() returns (value: Option<uint32>)
      modifies this
      ensures value.Some? <==> old(rest) != [] && old(rest)[0].UInt32?
      ensures value.Some? ==> value.value == old(rest)[0].u && rest == old(rest)[1..]
      ensures value.None? ==> rest == old(rest)
    {
      if rest == [] || !rest[0].UInt32? {
        return None;
      }
      value := Some(rest[0].u);
      rest := rest[1..];
    }

    /** Reads `count` strings one by one, as far as they go. */
    method ReadTexts(count: nat) returns (ok: bool, texts: seq<string>)
      modifies this
      ensures ok <==> count <= |old(rest)| && AllText(old(rest)[..count])
      ensures ok ==> texts == TextsOf(old(rest)[..count]) && rest == old(rest)[count..]
    {
      texts := [];
      var i := 0;
      while i < count
        invariant 0 <= i <= count && i <= |old(rest)|
        invariant AllText(old(rest)[..i]) && texts == TextsOf(old(rest)[..i])
        invariant rest == old(rest)[i..]
      {
        var text := ReadText();
        if text.None? {
          assert i < |old(rest)| ==> count > |old(rest)| || !old(rest)[..count][i].Text?;
          return false, [];
        }
        texts := texts + [text.value];
        i := i + 1;
      }
      ok := true;
    }
  }
}
