/** What a well-typed message is, by the grammar of the D-Bus type system, and that checking a message
    append by append accepts exactly the messages of that grammar. */
module DBusGrammar {
  import opened Basics
  import opened DBusTyping

  /** Values as trees. A chunk is a run of bytes, which stands in an array of bytes only. */
  datatype Value =
    | Basic(token: Token)
    | Chunk(data: string)
    | ArrayOf(elem: string, items: Values)
    | Variant(signature: string, parts: Values)
    | Entry(parts: Values)

  datatype Values = Nil | Cons(head: Value, tail: Values)

  function TypeOf(v: Value): string {
    match v
    case Basic(UInt(_)) => "u"
    case Basic(Str(_)) => "s"
    case Basic(_) => "h"
    case Chunk(_) => "y"
    case ArrayOf(elem, _) => "a" + elem
    case Variant(_, _) => "v"
    case Entry(parts) => "{" + Types(parts) + "}"
  }

  function Types(vs: Values): string {
    match vs
    case Nil => ""
    case Cons(v, rest) => TypeOf(v) + Types(rest)
  }

  /** An array's items are all of its element type, a variant holds what its signature says, an entry
      stands in an array, and basic values are the ones that are written as a whole. */
  predicate Formed(v: Value) {
    match v
    case Basic(t) => t.UInt? || t.Str? || t.Handle?
    case Chunk(_) => true
    case ArrayOf(elem, items) => AllFormed(items) && AllOfType(items, elem)
    case Variant(signature, parts) => AllFormed(parts) && Complete(parts) && Types(parts) == signature
    case Entry(parts) => AllFormed(parts) && Complete(parts) && parts.Cons?
  }

  predicate AllFormed(vs: Values) {
    vs.Cons? ==> Formed(vs.head) && AllFormed(vs.tail)
  }

  predicate AllOfType(vs: Values, ty: string) {
    vs.Cons? ==> TypeOf(vs.head) == ty && AllOfType(vs.tail, ty)
  }

  /** Values that may stand outside an array. */
  predicate Complete(vs: Values) {
    vs.Cons? ==> !vs.head.Chunk? && !vs.head.Entry? && Complete(vs.tail)
  }

  function Tokens(v: Value): seq<Token> {
    match v
    case Basic(t) => [t]
    case Chunk(data) => [Bytes(data)]
    case ArrayOf(elem, items) => [OpenArray(elem)] + AllTokens(items) + [Close]
    case Variant(signature, parts) => [OpenVariant(signature)] + AllTokens(parts) + [Close]
    case Entry(parts) => [OpenDictEntry] + AllTokens(parts) + [Close]
  }

  function AllTokens(vs: Values): seq<Token> {
    match vs
    case Nil => []
    case Cons(v, rest) => Tokens(v) + AllTokens(rest)
  }

  function Depth(n: Nest): nat {
    match n
    case Root(_) => 0
    case Inside(_, outer) => 1 + Depth(outer)
  }

  /** Container f becomes f' by taking the values vs, one after the other. */
  predicate Took(f: Frame, vs: Values, f': Frame) {
    match f
    case Body(signature) => Complete(vs) && f' == Body(signature + Types(vs))
    case Array(elem) => AllOfType(vs, elem) && f' == f
    case Sequence(rest) => Complete(vs) && f'.Sequence? && rest == Types(vs) + f'.rest
  }

  // ---------------------------------------------------------------- accepted messages are of the grammar

  lemma TookNone(f: Frame)
    ensures Took(f, Nil, f)
  {
    match f
    case Body(signature) => assert signature + "" == signature;
    case Array(_) =>
    case Sequence(rest) => assert "" + rest == rest;
  }

  lemma TookCons(f: Frame, v: Value, f1: Frame, vs: Values, f2: Frame)
    requires Accept(f, TypeOf(v)) == Some(f1) && Took(f1, vs, f2)
    requires (v.Chunk? || v.Entry?) ==> f.Array?
    ensures Took(f, Cons(v, vs), f2)
  {
    match f
    case Body(signature) => Regroup(signature, TypeOf(v), Types(vs));
    case Array(_) =>
    case Sequence(rest) =>
      assert rest == TypeOf(v) + f1.rest;
      Regroup(TypeOf(v), Types(vs), f2.rest);
  }

  /** The values at the front of ts, in a container that ts does not leave open deeper than it was. */
  lemma {:induction false} ReadValues(n: Nest, ts: seq<Token>, m: Nest) returns (vs: Values, k: nat, f: Frame)
    requires AppendAll(n, ts) == Some(m) && Depth(m) <= Depth(n)
    ensures k <= |ts| && ts[..k] == AllTokens(vs) && AllFormed(vs) && Took(n.top, vs, f)
    ensures AppendAll(n.(top := f), ts[k..]) == Some(m)
    ensures k < |ts| ==> ts[k] == Close
    decreases |ts|, 3
  {
    if ts == [] || ts[0] == Close {
      vs, k, f := Nil, 0, n.top;
      NoValues(n, ts);
    } else {
      vs, k, f := ReadMore(n, ts, m);
    }
  }

  lemma {:induction false} ReadMore(n: Nest, ts: seq<Token>, m: Nest) returns (vs: Values, k: nat, f: Frame)
    requires ts != [] && ts[0] != Close && AppendAll(n, ts) == Some(m) && Depth(m) <= Depth(n)
    ensures k <= |ts| && ts[..k] == AllTokens(vs) && AllFormed(vs) && Took(n.top, vs, f)
    ensures AppendAll(n.(top := f), ts[k..]) == Some(m)
    ensures k < |ts| ==> ts[k] == Close
    decreases |ts|, 2
  {
    var v, outer, j := ReadValue(n, ts, m);
    SameDepth(n, outer);
    var behind := ts[j..];
    var rest;
    rest, k, f := ReadValues(outer, behind, m);
    ValuesJoin(n, ts, m, v, outer, j, rest, k, f);
    vs, k := Cons(v, rest), j + k;
  }

  lemma SameDepth(n: Nest, outer: Nest)
    requires outer == n.(top := outer.top)
    ensures Depth(outer) == Depth(n)
  {
  }

  lemma ValuesJoin(
    n: Nest, ts: seq<Token>, m: Nest, v: Value, outer: Nest, j: nat, vs: Values, k: nat, f: Frame)
    requires j + k <= |ts| && ts[..j] == Tokens(v) && ts[j..][..k] == AllTokens(vs)
    requires Accept(n.top, TypeOf(v)) == Some(outer.top) && outer == n.(top := outer.top)
    requires ((v.Chunk? || v.Entry?) ==> n.top.Array?) && Took(outer.top, vs, f)
    requires AppendAll(outer.(top := f), ts[j..][k..]) == Some(m)
    ensures ts[..j + k] == AllTokens(Cons(v, vs)) && Took(n.top, Cons(v, vs), f)
    ensures AppendAll(n.(top := f), ts[j + k..]) == Some(m)
    ensures j + k < |ts| ==> ts[j..][k] == ts[j + k]
  {
    TookCons(n.top, v, outer.top, vs, f);
    TokensJoin(ts, j, k, v, vs);
    assert outer.(top := f) == n.(top := f);
  }

  lemma NoValues(n: Nest, ts: seq<Token>)
    ensures ts[..0] == AllTokens(Nil) && ts[0..] == ts && Took(n.top, Nil, n.top) && n.(top := n.top) == n
  {
    TookNone(n.top);
  }

  lemma TokensJoin(ts: seq<Token>, j: nat, k: nat, v: Value, vs: Values)
    requires j + k <= |ts| && ts[..j] == Tokens(v) && ts[j..][..k] == AllTokens(vs)
    ensures ts[..j + k] == AllTokens(Cons(v, vs)) && ts[j..][k..] == ts[j + k..]
    ensures j + k < |ts| ==> ts[j..][k] == ts[j + k]
  {
    assert ts[..j] + ts[j..][..k] == ts[..j + k];
  }

  /** One value: a basic one, or a container up to its Close. */
  lemma {:induction false} ReadValue(n: Nest, ts: seq<Token>, m: Nest) returns (v: Value, outer: Nest, j: nat)
    requires ts != [] && ts[0] != Close && AppendAll(n, ts) == Some(m) && Depth(m) <= Depth(n)
    ensures 0 < j <= |ts| && ts[..j] == Tokens(v) && Formed(v)
    ensures Accept(n.top, TypeOf(v)) == Some(outer.top) && outer == n.(top := outer.top)
    ensures (v.Chunk? || v.Entry?) ==> n.top.Array?
    ensures AppendAll(outer, ts[j..]) == Some(m)
    decreases |ts|, 1
  {
    if ts[0].OpenArray? {
      v, outer, j := ReadArray(n, ts, m);
    } else if ts[0].OpenVariant? {
      v, outer, j := ReadVariant(n, ts, m);
    } else if ts[0].OpenDictEntry? {
      v, outer, j := ReadEntry(n, ts, m);
    } else {
      v, outer, j := if ts[0].Bytes? then Chunk(ts[0].data) else Basic(ts[0]), Append(n, ts[0]).value, 1;
    }
  }

  lemma {:induction false} ReadArray(n: Nest, ts: seq<Token>, m: Nest) returns (v: Value, outer: Nest, j: nat)
    requires ts != [] && ts[0].OpenArray? && AppendAll(n, ts) == Some(m) && Depth(m) <= Depth(n)
    ensures 0 < j <= |ts| && ts[..j] == Tokens(v) && Formed(v) && v.ArrayOf?
    ensures Accept(n.top, TypeOf(v)) == Some(outer.top) && outer == n.(top := outer.top)
    ensures AppendAll(outer, ts[j..]) == Some(m)
    decreases |ts|, 0, 1
  {
    var n1 := Append(n, ts[0]).value;
    var items, k, f := ReadInside(n1, ts, m);
    v, outer, j := ArrayOf(ts[0].elem, items), n1.outer, k + 2;
  }

  lemma {:induction false} ReadVariant(n: Nest, ts: seq<Token>, m: Nest) returns (v: Value, outer: Nest, j: nat)
    requires ts != [] && ts[0].OpenVariant? && AppendAll(n, ts) == Some(m) && Depth(m) <= Depth(n)
    ensures 0 < j <= |ts| && ts[..j] == Tokens(v) && Formed(v) && v.Variant?
    ensures Accept(n.top, TypeOf(v)) == Some(outer.top) && outer == n.(top := outer.top)
    ensures AppendAll(outer, ts[j..]) == Some(m)
    decreases |ts|, 0, 1
  {
    var n1 := Append(n, ts[0]).value;
    var parts, k, f := ReadInside(n1, ts, m);
    v, outer, j := Variant(ts[0].signature, parts), n1.outer, k + 2;
    assert ts[0].signature == Types(parts) + "" == Types(parts);
  }

  lemma {:induction false} ReadEntry(n: Nest, ts: seq<Token>, m: Nest) returns (v: Value, outer: Nest, j: nat)
    requires ts != [] && ts[0].OpenDictEntry? && AppendAll(n, ts) == Some(m) && Depth(m) <= Depth(n)
    ensures 0 < j <= |ts| && ts[..j] == Tokens(v) && Formed(v) && v.Entry? && n.top.Array?
    ensures Accept(n.top, TypeOf(v)) == Some(outer.top) && outer == n.(top := outer.top)
    ensures AppendAll(outer, ts[j..]) == Some(m)
    decreases |ts|, 0, 1
  {
    var n1 := Append(n, ts[0]).value;
    var parts, k, f := ReadInside(n1, ts, m);
    v, outer, j := Entry(parts), n1.outer, k + 2;
    EntryType(n.top.elem, Types(parts));
  }

  lemma EntryType(elem: string, inner: string)
    requires |elem| > 2 && elem[0] == '{' && elem[|elem| - 1] == '}' && elem[1..|elem| - 1] == inner + ""
    ensures elem == "{" + inner + "}" && inner != ""
  {
  }

  /** A container that is closed in the end has its Close still to come. */
  lemma SomethingLeft(n: Nest, ts: seq<Token>, k: nat, m: Nest)
    requires k <= |ts| && AppendAll(n, ts[k..]) == Some(m) && Depth(m) < Depth(n)
    ensures k < |ts|
  {
  }

  /** The values in a container that has just been opened, and the Close behind them. */
  lemma {:induction false} ReadInside(n1: Nest, ts: seq<Token>, m: Nest) returns (vs: Values, k: nat, f: Frame)
    requires ts != [] && n1.Inside? && AppendAll(n1, ts[1..]) == Some(m) && Depth(m) < Depth(n1)
    ensures k + 2 <= |ts| && AllFormed(vs) && Took(n1.top, vs, f)
    ensures ts[..k + 2] == [ts[0]] + AllTokens(vs) + [Close]
    ensures f.Array? || f == Sequence("")
    ensures AppendAll(n1.outer, ts[k + 2..]) == Some(m)
    decreases |ts|, 0, 0
  {
    var inside := ts[1..];
    vs, k, f := ReadValues(n1, inside, m);
    SomethingLeft(n1.(top := f), inside, k, m);
    assert inside[k..][0] == Close && inside[k..][1..] == ts[k + 2..];
    assert ts[..k + 2] == [ts[0]] + inside[..k] + [inside[k]];
  }

  lemma WellTypedIsFormed(ts: seq<Token>, signature: string) returns (vs: Values)
    requires WellTyped(ts, signature)
    ensures AllFormed(vs) && Complete(vs) && AllTokens(vs) == ts && Types(vs) == signature
  {
    var n, m := Root(Body("")), Root(Body(signature));
    var k, f;
    vs, k, f := ReadValues(n, ts, m);
    assert k == |ts| ==> ts[k..] == [] && ts[..k] == ts;
    assert f == Body("" + Types(vs)) && "" + Types(vs) == Types(vs);
  }

  // ---------------------------------------------------------------- messages of the grammar are accepted

  lemma {:induction false} AppendAllJoins(n: Nest, a: seq<Token>, b: seq<Token>)
    requires AppendAll(n, a).Some?
    ensures AppendAll(n, a + b) == AppendAll(AppendAll(n, a).value, b)
    decreases |a|
  {
    if a == [] {
      assert a + b == b;
    } else {
      assert (a + b)[1..] == a[1..] + b;
      AppendAllJoins(Append(n, a[0]).value, a[1..], b);
    }
  }

  lemma AppendOne(n: Nest, t: Token)
    ensures AppendAll(n, [t]) == Append(n, t)
  {
    assert [t][1..] == [];
  }

  lemma TookSplit(f: Frame, v: Value, vs: Values, f2: Frame) returns (f1: Frame)
    requires Took(f, Cons(v, vs), f2)
    ensures Accept(f, TypeOf(v)) == Some(f1) && Took(f1, vs, f2)
    ensures (v.Chunk? || v.Entry?) ==> f.Array?
  {
    match f {
      case Body(signature) =>
        f1 := Body(signature + TypeOf(v));
        Regroup(signature, TypeOf(v), Types(vs));
      case Array(_) =>
        f1 := f;
      case Sequence(rest) =>
        f1 := Sequence(Types(vs) + f2.rest);
        Regroup(TypeOf(v), Types(vs), f2.rest);
        Behind(TypeOf(v), Types(vs) + f2.rest);
    }
  }

  lemma TookNil(f: Frame, f': Frame)
    requires Took(f, Nil, f')
    ensures f' == f
  {
    match f
    case Body(signature) => assert signature + "" == signature;
    case Array(_) =>
    case Sequence(rest) => assert "" + f'.rest == f'.rest;
  }

  lemma {:induction false} WriteValues(n: Nest, vs: Values, f: Frame)
    requires AllFormed(vs) && Took(n.top, vs, f)
    ensures AppendAll(n, AllTokens(vs)) == Some(n.(top := f))
    decreases vs
  {
    match vs
    case Nil => TookNil(n.top, f);
    case Cons(v, rest) =>
      var f1 := TookSplit(n.top, v, rest, f);
      WriteValue(n, v, f1);
      WriteValues(n.(top := f1), rest, f);
      AppendAllJoins(n, Tokens(v), AllTokens(rest));
  }

  lemma {:induction false} WriteValue(n: Nest, v: Value, f1: Frame)
    requires Formed(v) && Accept(n.top, TypeOf(v)) == Some(f1) && ((v.Chunk? || v.Entry?) ==> n.top.Array?)
    ensures AppendAll(n, Tokens(v)) == Some(n.(top := f1))
    decreases v
  {
    match v
    case Basic(t) => AppendOne(n, t);
    case Chunk(data) => AppendOne(n, Bytes(data));
    case ArrayOf(elem, items) =>
      WriteValues(Inside(Array(elem), n.(top := f1)), items, Array(elem));
      WriteInside(n, OpenArray(elem), AllTokens(items), Array(elem));
    case Variant(signature, parts) =>
      TookAll(parts);
      WriteValues(Inside(Sequence(signature), n.(top := f1)), parts, Sequence(""));
      WriteInside(n, OpenVariant(signature), AllTokens(parts), Sequence(""));
    case Entry(parts) =>
      TookAll(parts);
      EntryOpens(n, parts);
      WriteValues(Inside(Sequence(Types(parts)), n), parts, Sequence(""));
      WriteInside(n, OpenDictEntry, AllTokens(parts), Sequence(""));
  }

  lemma TookAll(vs: Values)
    requires Complete(vs)
    ensures Took(Sequence(Types(vs)), vs, Sequence(""))
  {
    assert Types(vs) + "" == Types(vs);
  }

  lemma EntryOpens(n: Nest, parts: Values)
    requires parts.Cons? && n.top == Array("{" + Types(parts) + "}")
    ensures Append(n, OpenDictEntry) == Some(Inside(Sequence(Types(parts)), n))
  {
    TypesNotEmpty(parts);
    assert ("{" + Types(parts) + "}")[1..|Types(parts)| + 1] == Types(parts);
  }

  lemma TypesNotEmpty(vs: Values)
    requires vs.Cons?
    ensures Types(vs) != ""
  {
  }

  lemma WriteInside(n: Nest, open: Token, items: seq<Token>, f: Frame)
    requires Append(n, open).Some? && Append(n, open).value.Inside? && (f.Array? || f == Sequence(""))
    requires AppendAll(Append(n, open).value, items) == Some(Append(n, open).value.(top := f))
    ensures AppendAll(n, [open] + items + [Close]) == Some(Append(n, open).value.outer)
  {
    AppendOne(n, open);
    AppendAllJoins(n, [open], items);
    AppendAllJoins(n, [open] + items, [Close]);
    AppendOne(Append(n, open).value.(top := f), Close);
  }

  /** A message is well-typed for a signature if and only if it is written from well-formed values of
      those types, every container closed where its values end. */
  lemma WellTypedIff(ts: seq<Token>, signature: string)
    ensures WellTyped(ts, signature) <==>
            exists vs :: AllFormed(vs) && Complete(vs) && AllTokens(vs) == ts && Types(vs) == signature
  {
    if WellTyped(ts, signature) {
      var vs := WellTypedIsFormed(ts, signature);
    }
    if vs :| AllFormed(vs) && Complete(vs) && AllTokens(vs) == ts && Types(vs) == signature {
      assert "" + signature == signature;
      WriteValues(Root(Body("")), vs, Body(signature));
    }
  }
}
