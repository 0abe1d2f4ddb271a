/** Splitting and joining strings (src/base/str_util.h). */
module StrUtil {
  import opened Basics

  predicate FreeOf(s: string, delims: set<char>) {
    forall i | 0 <= i < |s| :: s[i] !in delims
  }

  /** Where the first delimiter stands, or the length when there is none. */
  function FirstOf(s: string, delims: set<char>): (p: nat)
    ensures p <= |s| && FreeOf(s[..p], delims)
    ensures p < |s| ==> s[p] in delims
  {
    if s == "" || s[0] in delims then 0
    else
      var p := FirstOf(s[1..], delims);
      assert s[..1 + p] == [s[0]] + s[1..][..p];
      1 + p
  }

  /** The pieces between delimiters; an empty piece at the very end is dropped. */
  function Split(s: string, delims: set<char>): seq<string>
    decreases |s|
  {
    var p := FirstOf(s, delims);
    if p < |s| then [s[..p]] + Split(s[p + 1..], delims)
    else if s == "" then []
    else [s]
  }

  function Join(xs: seq<string>, sep: string): string {
    if xs == [] then ""
    else if |xs| == 1 then xs[0]
    else xs[0] + sep + Join(xs[1..], sep)
  }

  lemma {:induction false} FirstOfIs(s: string, delims: set<char>, p: nat)
    requires p <= |s| && FreeOf(s[..p], delims) && (p < |s| ==> s[p] in delims)
    ensures FirstOf(s, delims) == p
    decreases |s|
  {
    if p > 0 {
      assert s[..p][0] == s[0] && s[1..][..p - 1] == s[..p][1..];
      FirstOfIs(s[1..], delims, p - 1);
    }
  }

  /** One round of the splitting loop: from `start` to the delimiter found at `pos`. */
  lemma SplitFrom(s: string, delims: set<char>, start: nat, pos: nat)
    requires start <= pos < |s| && pos == start + FirstOf(s[start..], delims)
    ensures Split(s[start..], delims) == [s[start..pos]] + Split(s[pos + 1..], delims)
  {
    DropThen(s, start, pos - start);
    DropThen(s, start, pos - start + 1);
    SplitFirst(s[start..], delims, s[start..pos], s[pos + 1..]);
  }

  lemma SplitFirst(s: string, delims: set<char>, piece: string, rest: string)
    requires FirstOf(s, delims) == |piece| < |s|
    requires s[..|piece|] == piece && s[|piece| + 1..] == rest
    ensures Split(s, delims) == [piece] + Split(rest, delims)
  {
  }

  /** A round keeps what is collected plus what is still to come. */
  lemma SplitRound(s: string, delims: set<char>, start: nat, pos: nat, out: seq<string>)
    requires start <= pos < |s| && pos == start + FirstOf(s[start..], delims)
    ensures out + Split(s[start..], delims) == out + [s[start..pos]] + Split(s[pos + 1..], delims)
  {
    SplitFrom(s, delims, start, pos);
    Regroup(out, [s[start..pos]], Split(s[pos + 1..], delims));
  }

  /** The last round: no delimiter is left. */
  lemma SplitRest(s: string, delims: set<char>, out: seq<string>)
    requires FirstOf(s, delims) == |s|
    ensures out + Split(s, delims) == if s == "" then out else out + [s]
  {
  }

  /** No piece contains a delimiter. */
  lemma {:induction false} PiecesAreFree(s: string, delims: set<char>)
    ensures forall i | 0 <= i < |Split(s, delims)| :: FreeOf(Split(s, delims)[i], delims)
    decreases |s|
  {
    var p := FirstOf(s, delims);
    if p < |s| {
      PiecesAreFree(s[p + 1..], delims);
    } else {
      assert s[..p] == s;
    }
  }

  predicate EndsWith(s: string, d: char) {
    s != "" && s[|s| - 1] == d
  }

  /** Joining the pieces gives the string back, without its last character if that is a delimiter. */
  lemma {:induction false} JoinOfSplit(s: string, d: char)
    ensures Join(Split(s, {d}), [d]) == if EndsWith(s, d) then s[..|s| - 1] else s
    decreases |s|
  {
    var p := FirstOf(s, {d});
    if p < |s| {
      var rest := s[p + 1..];
      JoinOfSplit(rest, d);
      JoinOfSplitCons(s[..p], rest, d);
      SplitAt(s, p);
    } else {
      assert s[..p] == s;
    }
  }

  lemma JoinOfSplitCons(x: string, rest: string, d: char)
    requires Join(Split(rest, {d}), [d]) == if EndsWith(rest, d) then rest[..|rest| - 1] else rest
    ensures
      var s := x + [d] + rest;
      Join([x] + Split(rest, {d}), [d]) == if EndsWith(s, d) then s[..|s| - 1] else s
  {
    JoinCons(x, Split(rest, {d}), d);
    if rest == "" {
      assert (x + [d] + rest)[..|x|] == x;
    } else {
      DropLast(x + [d], rest, d);
    }
  }

  lemma JoinCons(x: string, xs: seq<string>, d: char)
    ensures Join([x] + xs, [d]) == if xs == [] then x else x + [d] + Join(xs, [d])
  {
    assert ([x] + xs)[1..] == xs;
  }

  lemma DropLast(a: string, b: string, d: char)
    requires b != ""
    ensures EndsWith(a + b, d) <==> EndsWith(b, d)
    ensures (a + b)[..|a + b| - 1] == a + b[..|b| - 1]
  {
  }

  lemma {:induction false} SplitOfJoinFree(xs: seq<string>, d: char)
    requires forall i | 0 <= i < |xs| :: FreeOf(xs[i], {d})
    requires xs != [] ==> xs[|xs| - 1] != ""
    ensures Split(Join(xs, [d]), {d}) == xs
    decreases |xs|
  {
    if |xs| == 1 {
      assert xs[0][..|xs[0]|] == xs[0];
      FirstOfIs(xs[0], {d}, |xs[0]|);
    } else if |xs| > 1 {
      var s, rest, p := Join(xs, [d]), Join(xs[1..], [d]), |xs[0]|;
      assert s == xs[0] + [d] + rest;
      assert s[..p] == xs[0] && s[p] == d && s[p + 1..] == rest;
      FirstOfIs(s, {d}, p);
      SplitOfJoinFree(xs[1..], d);
    }
  }

  lemma {:induction false} JoinEndsInSeparator(xs: seq<string>, d: char)
    requires |xs| > 1 && xs[|xs| - 1] == ""
    ensures EndsWith(Join(xs, [d]), d)
    decreases |xs|
  {
    if |xs| > 2 {
      JoinEndsInSeparator(xs[1..], d);
    }
  }

  /** Splitting a joined list gives it back exactly when no item contains the delimiter and the last
      one is not empty. */
  lemma SplitOfJoinIff(xs: seq<string>, d: char)
    ensures Split(Join(xs, [d]), {d}) == xs <==>
            (forall i | 0 <= i < |xs| :: FreeOf(xs[i], {d})) && (xs != [] ==> xs[|xs| - 1] != "")
  {
    var s := Join(xs, [d]);
    if Split(s, {d}) == xs {
      PiecesAreFree(s, {d});
      JoinOfSplit(s, d);
      if |xs| > 1 && xs[|xs| - 1] == "" {
        JoinEndsInSeparator(xs, d);
      }
    } else if (forall i | 0 <= i < |xs| :: FreeOf(xs[i], {d})) && (xs != [] ==> xs[|xs| - 1] != "") {
      SplitOfJoinFree(xs, d);
    }
  }

  method FindFirstOf(s: string, delims: set<char>, start: nat) returns (pos: nat)
    requires start <= |s|
    ensures pos == start + FirstOf(s[start..], delims)
  {
    pos := start;
    while pos < |s| && s[pos] !in delims
      invariant start <= pos <= |s|
      invariant FreeOf(s[start..pos], delims)
    {
      assert s[start..pos + 1] == s[start..pos] + [s[pos]];
      pos := pos + 1;
    }
    assert s[start..][..pos - start] == s[start..pos];
    FirstOfIs(s[start..], delims, pos - start);
  }

  method SplitInto(s: string, delims: set<char>) returns (out: seq<string>)
    ensures out == Split(s, delims)
  {
    out := [];
    var start := 0;
    assert s[0..] == s;
    while true
      invariant start <= |s|
      invariant out + Split(s[start..], delims) == Split(s, delims)
      decreases |s| - start
    {
      var pos := FindFirstOf(s, delims, start);
      if pos == |s| {
        break;
      }
      SplitRound(s, delims, start, pos, out);
      out := out + [s[start..pos]];
      start := pos + 1;
    }
    var leftover := s[start..];
    SplitRest(leftover, delims, out);
    if leftover != "" {
      out := out + [leftover];
    }
  }

  lemma {:induction false} JoinSnoc(xs: seq<string>, x: string, sep: string)
    requires xs != []
    ensures Join(xs + [x], sep) == Join(xs, sep) + sep + x
  {
    if |xs| == 1 {
      assert (xs + [x])[1..] == [x];
    } else {
      assert (xs + [x])[1..] == xs[1..] + [x];
      JoinSnoc(xs[1..], x, sep);
    }
  }

  method JoinAll(xs: seq<string>, sep: string) returns (result: string)
    ensures result == Join(xs, sep)
  {
    if xs == [] {
      return "";
    }
    result := xs[0];
    var i := 1;
    while i < |xs|
      invariant 1 <= i <= |xs|
      invariant result == Join(xs[..i], sep)
    {
      assert xs[..i + 1] == xs[..i] + [xs[i]];
      JoinSnoc(xs[..i], xs[i], sep);
      result := result + sep;
      result := result + xs[i];
      i := i + 1;
    }
    assert xs[..i] == xs;
  }
}
