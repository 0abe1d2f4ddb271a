/** A process's descriptor table and the assignments zypak-helper applies to it one by one
    (src/base/fd_map.cc, src/helper/main.cc). */
module FdAssignments {
  import opened Basics

  /** Open descriptors, each with the description it refers to. */
  type Table = map<int, int>

  /** "Make `target` refer to what `fd` refers to, and give `fd` up." */
  datatype Assignment = Assignment(target: int, fd: int)

  /** Targets are C++ ints. */
  predicate TargetsFit(a: seq<Assignment>) {
    forall i | 0 <= i < |a| :: -TWO_31 <= a[i].target < TWO_31
  }

  /** `Aborted` is the assertion in Assign. */
  datatype Outcome = Applied(table: Table) | Refused(table: Table) | Aborted

  function Sources(a: seq<Assignment>): set<int> {
    set i | 0 <= i < |a| :: a[i].fd
  }

  function Targets(a: seq<Assignment>): set<int> {
    set i | 0 <= i < |a| :: a[i].target
  }

  /** dup2 needs an open source and a target the kernel accepts. */
  predicate CanDup(t: Table, a: Assignment, faults: set<int>) {
    a.fd in t && a.target >= 0 && a.target !in faults
  }

  function DupAndClose(t: Table, a: Assignment): Table
    requires a.fd in t
  {
    t[a.target := t[a.fd]] - {a.fd}
  }

  /** The loop of ApplyFdMapFromArgs: `taken` holds the targets so far, `faults` the targets for
      which dup2 fails. On failure the unassigned sources are closed with their owners. */
  function Run(t: Table, a: seq<Assignment>, taken: set<int>, faults: set<int>): Outcome
    decreases |a|
  {
    if a == [] then
      Applied(t)
    else if a[0].fd in taken || a[0].target in taken then
      Refused(t - Sources(a))
    else if a[0].fd == INVALID_FD then
      Aborted
    else if a[0].fd == a[0].target then
      Run(t, a[1..], taken + {a[0].target}, faults)
    else if !CanDup(t, a[0], faults) then
      Refused(t - Sources(a))
    else
      Run(DupAndClose(t, a[0]), a[1..], taken + {a[0].target}, faults)
  }

  /** All assignments at once: every target gets what its source referred to before, sources that
      are not targets are closed, everything else is as it was. */
  ghost predicate Simultaneous(t: Table, a: seq<Assignment>, t': Table) {
    && (forall i | 0 <= i < |a| && a[i].fd in t :: a[i].target in t' && t'[a[i].target] == t[a[i].fd])
    && (forall fd | fd !in Targets(a) :: fd in t' <==> fd in t && fd !in Sources(a))
    && (forall fd | fd !in Targets(a) && fd in t' :: t'[fd] == t[fd])
  }

  /** The sources are open descriptors that differ from each other. */
  ghost predicate SourcesOpen(t: Table, a: seq<Assignment>) {
    && (forall i | 0 <= i < |a| :: a[i].fd in t && a[i].fd != INVALID_FD)
    && (forall i, j | 0 <= i < j < |a| :: a[i].fd != a[j].fd)
  }

  /** No earlier target is a later source or a later target. */
  ghost predicate NoClobber(a: seq<Assignment>) {
    forall i, j | 0 <= i < j < |a| :: a[i].target != a[j].fd && a[i].target != a[j].target
  }

  ghost predicate Avoids(a: seq<Assignment>, taken: set<int>) {
    forall i | 0 <= i < |a| :: a[i].fd !in taken && a[i].target !in taken
  }

  /** Every dup2 that is needed would be accepted. */
  ghost predicate DupsAccepted(a: seq<Assignment>, faults: set<int>) {
    forall i | 0 <= i < |a| && a[i].fd != a[i].target :: a[i].target >= 0 && a[i].target !in faults
  }

  lemma StepKeepsSourcesOpen(t: Table, a: seq<Assignment>)
    requires a != [] && SourcesOpen(t, a) && a[0].fd != a[0].target
    ensures SourcesOpen(DupAndClose(t, a[0]), a[1..])
  {
  }

  lemma {:induction false} AppliedAvoids(t: Table, a: seq<Assignment>, taken: set<int>, faults: set<int>)
    requires Run(t, a, taken, faults).Applied?
    ensures Avoids(a, taken) && NoClobber(a)
    decreases |a|
  {
    if a != [] {
      var t1 := if a[0].fd == a[0].target then t else DupAndClose(t, a[0]);
      AppliedAvoids(t1, a[1..], taken + {a[0].target}, faults);
    }
  }

  lemma ConsIsSimultaneous(t: Table, a: seq<Assignment>, t': Table)
    requires a != [] && SourcesOpen(t, a) && NoClobber(a)
    requires Simultaneous(if a[0].fd == a[0].target then t else DupAndClose(t, a[0]), a[1..], t')
    ensures Simultaneous(t, a, t')
  {
    var rest := a[1..];
    assert Targets(a) == {a[0].target} + Targets(rest);
    assert Sources(a) == {a[0].fd} + Sources(rest);
    assert a[0].target !in Targets(rest) && a[0].target !in Sources(rest);
    forall i | 0 <= i < |a| ensures a[i].target in t' && t'[a[i].target] == t[a[i].fd] {
      if i > 0 {
        assert rest[i - 1] == a[i];
      }
    }
  }

  /** Whenever the one-by-one assignment succeeds, its result is the simultaneous one. */
  lemma {:induction false} SequentialIsSimultaneous(
    t: Table, a: seq<Assignment>, taken: set<int>, faults: set<int>)
    requires SourcesOpen(t, a) && Run(t, a, taken, faults).Applied?
    ensures Simultaneous(t, a, Run(t, a, taken, faults).table)
    decreases |a|
  {
    if a != [] {
      AppliedAvoids(t, a, taken, faults);
      var t1 := if a[0].fd == a[0].target then t else DupAndClose(t, a[0]);
      if a[0].fd != a[0].target {
        StepKeepsSourcesOpen(t, a);
      }
      SequentialIsSimultaneous(t1, a[1..], taken + {a[0].target}, faults);
      ConsIsSimultaneous(t, a, Run(t, a, taken, faults).table);
    }
  }

  /** It succeeds exactly when every needed dup2 is accepted and no earlier target is a later source
      or target. */
  lemma {:induction false} SucceedsIff(t: Table, a: seq<Assignment>, taken: set<int>, faults: set<int>)
    requires SourcesOpen(t, a)
    ensures Run(t, a, taken, faults).Applied? <==>
            DupsAccepted(a, faults) && NoClobber(a) && Avoids(a, taken)
    decreases |a|
  {
    if a != [] {
      var rest := a[1..];
      assert NoClobber(a) && Avoids(a, taken) <==>
             NoClobber(rest) && Avoids(rest, taken + {a[0].target})
             && a[0].fd !in taken && a[0].target !in taken by {
        NoClobberCons(a, taken);
      }
      assert DupsAccepted(a, faults) <==>
             DupsAccepted(rest, faults)
             && (a[0].fd != a[0].target ==> a[0].target >= 0 && a[0].target !in faults);
      var t1 := if a[0].fd == a[0].target then t else DupAndClose(t, a[0]);
      if a[0].fd != a[0].target {
        StepKeepsSourcesOpen(t, a);
      }
      SucceedsIff(t1, rest, taken + {a[0].target}, faults);
    }
  }

  lemma NoClobberCons(a: seq<Assignment>, taken: set<int>)
    requires a != []
    ensures NoClobber(a) && Avoids(a, taken) <==>
            NoClobber(a[1..]) && Avoids(a[1..], taken + {a[0].target})
            && a[0].fd !in taken && a[0].target !in taken
  {
    var rest := a[1..];
    if NoClobber(rest) && Avoids(rest, taken + {a[0].target})
       && a[0].fd !in taken && a[0].target !in taken {
      forall i, j | 0 <= i < j < |a| ensures a[i].target != a[j].fd && a[i].target != a[j].target {
        assert rest[j - 1] == a[j];
        if i > 0 {
          assert rest[i - 1] == a[i];
        }
      }
      forall i | 0 <= i < |a| ensures a[i].fd !in taken && a[i].target !in taken {
        if i > 0 {
          assert rest[i - 1] == a[i];
        }
      }
    }
  }

  /** Assignment k is the first that cannot be made, the ones before it having led from t to t1. */
  predicate StopsAt(t: Table, a: seq<Assignment>, taken: set<int>, faults: set<int>, k: nat) {
    && k < |a|
    && Run(t, a[..k], taken, faults).Applied?
    && var t1, taken1 := Run(t, a[..k], taken, faults).table, taken + Targets(a[..k]);
    || a[k].fd in taken1 || a[k].target in taken1 || a[k].fd == -1
    || (a[k].fd != a[k].target && (a[k].fd !in t1 || a[k].target < 0 || a[k].target in faults))
  }

  lemma StopsAtHead(t: Table, a: seq<Assignment>, taken: set<int>, faults: set<int>)
    requires a != []
    requires || a[0].fd in taken || a[0].target in taken || a[0].fd == -1
             || (a[0].fd != a[0].target && (a[0].fd !in t || a[0].target < 0 || a[0].target in faults))
    ensures StopsAt(t, a, taken, faults, 0)
  {
    assert Targets(a[..0]) == {};
    assert taken + Targets(a[..0]) == taken;
  }

  lemma StopsAtTail(t: Table, a: seq<Assignment>, taken: set<int>, faults: set<int>, k: nat)
    requires a != [] && a[0].fd !in taken && a[0].target !in taken && a[0].fd != -1
    requires a[0].fd == a[0].target || CanDup(t, a[0], faults)
    requires StopsAt(if a[0].fd == a[0].target then t else DupAndClose(t, a[0]), a[1..], taken + {a[0].target}, faults, k)
    ensures StopsAt(t, a, taken, faults, k + 1)
    ensures Run(t, a[..k + 1], taken, faults) ==
            Run(if a[0].fd == a[0].target then t else DupAndClose(t, a[0]), a[1..][..k], taken + {a[0].target}, faults)
    ensures taken + Targets(a[..k + 1]) == taken + {a[0].target} + Targets(a[1..][..k])
  {
    assert a[..k + 1][1..] == a[1..][..k] && a[..k + 1][0] == a[0];
    assert a[..k + 1] == [a[0]] + a[1..][..k];
    assert Targets(a[..k + 1]) == {a[0].target} + Targets(a[1..][..k]);
  }

  /** What is left behind for any list at all, sources open or not: nothing stops it, and every assignment
      is made; or the first one that cannot be made stops it. Then the ones before it are made, and its
      source and all later ones are closed, unless it is the assertion on an invalid descriptor that
      stopped it. */
  lemma {:induction false} FirstFailureDecides(t: Table, a: seq<Assignment>, taken: set<int>, faults: set<int>)
    returns (k: nat)
    ensures !Run(t, a, taken, faults).Applied? ==>
              && StopsAt(t, a, taken, faults, k)
              && var t1, taken1 := Run(t, a[..k], taken, faults).table, taken + Targets(a[..k]);
              Run(t, a, taken, faults) ==
              if a[k].fd in taken1 || a[k].target in taken1 || a[k].fd != -1 then Refused(t1 - Sources(a[k..])) else Aborted
    ensures Run(t, a, taken, faults).Applied? ==> forall j :: !StopsAt(t, a, taken, faults, j)
    decreases |a|
  {
    k := 0;
    if a != [] {
      if || a[0].fd in taken || a[0].target in taken || a[0].fd == -1
         || (a[0].fd != a[0].target && !CanDup(t, a[0], faults)) {
        StopsAtHead(t, a, taken, faults);
        assert a[0..] == a && a[..0] == [] && taken + Targets(a[..0]) == taken;
      } else {
        var t1 := if a[0].fd == a[0].target then t else DupAndClose(t, a[0]);
        k := FirstFailureDecides(t1, a[1..], taken + {a[0].target}, faults);
        if !Run(t, a, taken, faults).Applied? {
          StopsAtTail(t, a, taken, faults, k);
          assert a[1..][k] == a[k + 1] && a[1..][k..] == a[k + 1..];
          k := k + 1;
        } else {
          AppliedNeverStops(t, a, taken, faults);
        }
      }
    }
  }

  /** A prefix of assignments that are all made is made. */
  lemma {:induction false} PrefixApplied(t: Table, a: seq<Assignment>, taken: set<int>, faults: set<int>, j: nat)
    requires j < |a| && Run(t, a, taken, faults).Applied?
    ensures !StopsAt(t, a, taken, faults, j)
    decreases |a|
  {
    var t1 := if a[0].fd == a[0].target then t else DupAndClose(t, a[0]);
    if j == 0 {
      assert taken + Targets(a[..0]) == taken;
    } else {
      PrefixApplied(t1, a[1..], taken + {a[0].target}, faults, j - 1);
      assert a[..j][1..] == a[1..][..j - 1] && a[..j][0] == a[0] && a[1..][j - 1] == a[j];
      assert a[..j] == [a[0]] + a[1..][..j - 1];
      assert taken + Targets(a[..j]) == taken + {a[0].target} + Targets(a[1..][..j - 1]);
    }
  }

  lemma AppliedNeverStops(t: Table, a: seq<Assignment>, taken: set<int>, faults: set<int>)
    requires Run(t, a, taken, faults).Applied?
    ensures forall j :: !StopsAt(t, a, taken, faults, j)
  {
    forall j: nat ensures !StopsAt(t, a, taken, faults, j) {
      if j < |a| {
        PrefixApplied(t, a, taken, faults, j);
      }
    }
  }

  /** At most one table is the simultaneous result. */
  lemma SimultaneousIsUnique(t: Table, a: seq<Assignment>, t1: Table, t2: Table)
    requires SourcesOpen(t, a) && Simultaneous(t, a, t1) && Simultaneous(t, a, t2)
    ensures t1 == t2
  {
    forall fd ensures fd in t1 <==> fd in t2
      ensures fd in t1 && fd in t2 ==> t1[fd] == t2[fd]
    {
      if fd in Targets(a) {
        var i :| 0 <= i < |a| && a[i].target == fd;
        assert a[i].fd in t;
      }
    }
  }
}

/** The descriptor table as the process sees it: one table, changed in place. */
module FdProcess {
  import opened Basics
  import opened FdAssignments

  class Process {
    var open: Table

    constructor (open: Table)
      ensures this.open == open
    {
      this.open := open;
    }

    method Dup2(fd: int, target: int, faults: set<int>) returns (ok: bool)
      modifies this
      ensures ok <==> CanDup(old(open), Assignment(target, fd), faults)
      ensures open == if ok then old(open)[target := old(open)[fd]] else old(open)
    {
      ok := CanDup(open, Assignment(target, fd), faults);
      if ok {
        open := open[target := open[fd]];
      }
    }

    method Close(fd: int)
      modifies this
      ensures open == old(open) - {fd}
    {
      open := open - {fd};
    }

    /** FdAssignment::Assign. */
    method Assign(a: Assignment, faults: set<int>) returns (ok: bool)
      requires a.fd != INVALID_FD
      modifies this
      ensures ok <==> a.fd == a.target || CanDup(old(open), a, faults)
      ensures open == if ok && a.fd != a.target then DupAndClose(old(open), a) else old(open)
    {
      if a.fd == a.target {
        return true;
      }
      ok := Dup2(a.fd, a.target, faults);
      if ok {
        Close(a.fd);
      }
    }

    method CloseAll(a: seq<Assignment>)
      modifies this
      ensures open == old(open) - Sources(a)
    {
      for i := 0 to |a|
        invariant open == old(open) - Sources(a[..i])
      {
        assert Sources(a[..i + 1]) == Sources(a[..i]) + {a[i].fd};
        Close(a[i].fd);
      }
      assert a[..|a|] == a;
    }

    /** The second half of ApplyFdMapFromArgs. */
    method ApplyFdMap(a: seq<Assignment>, faults: set<int>) returns (outcome: Outcome)
      modifies this
      ensures outcome == Run(old(open), a, {}, faults)
      ensures !outcome.Aborted? ==> open == outcome.table
    {
      var targetFds: set<int> := {};
      var i := 0;
      while i < |a|
        invariant 0 <= i <= |a|
        invariant Run(old(open), a, {}, faults) == Run(open, a[i..], targetFds, faults)
      {
        if a[i].fd in targetFds || a[i].target in targetFds {
          CloseAll(a[i..]);
          return Refused(open);
        }
        if a[i].fd == INVALID_FD {
          return Aborted;
        }
        var ok := Assign(a[i], faults);
        if !ok {
          CloseAll(a[i..]);
          return Refused(open);
        }
        targetFds := targetFds + {a[i].target};
        i := i + 1;
      }
      return Applied(open);
    }
  }
}
