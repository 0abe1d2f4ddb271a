/** What whole lives of a source guarantee, in terms of the operations alone. */
module EventSourceLife {
  import opened EventSourceState

  /** One step of a life. */
  lemma LifeStep(ss: seq<Source>, ops: seq<Op>, i: nat)
    requires IsLife(ss, ops) && i < |ops|
    ensures Sound(ss[i]) && Possible(ss[i], ops[i]) && ss[i + 1] == Apply(ss[i], ops[i])
  {
    CountIsReferences(ss, ops, i);
    assert Possible(ss[i], ops[i]);
  }

  // ---------------------------------------------------------------- references

  predicate Adds(op: Op) {
    op.Copy? || op.BeginDispatch?
  }

  /** SourceRefs alive after the first n operations: the first one, copies, and one for each handler,
      less the destroyed ones. */
  function LiveRefs(ops: seq<Op>, n: nat): int
    requires n <= |ops|
  {
    if n == 0 then 1 else LiveRefs(ops, n - 1) + if Adds(ops[n - 1]) then 1 else if ops[n - 1].Drop? then -1 else 0
  }

  lemma {:induction false} RefsAreLive(ss: seq<Source>, ops: seq<Op>, n: nat)
    requires IsLife(ss, ops) && n < |ss|
    ensures ss[n].refs == LiveRefs(ops, n)
  {
    if n > 0 {
      RefsAreLive(ss, ops, n - 1);
      LifeStep(ss, ops, n - 1);
    } else {
      FirstSource(ss, ops);
    }
  }

  lemma FirstSource(ss: seq<Source>, ops: seq<Op>)
    requires IsLife(ss, ops)
    ensures ss[0].count == 2 && ss[0].refs == 1 && ss[0].floating && !ss[0].dispatching && !ss[0].freed
  {
    var enabled :| ss[0] == Setup(enabled);
  }

  predicate BegunAt(ops: seq<Op>, i: nat, n: nat)
    requires n <= |ops|
  {
    i < n && ops[i].BeginDispatch? && forall j | i < j < n :: !ops[j].EndDispatch?
  }

  /** A source is being dispatched between a BeginDispatch and the next EndDispatch, and only then. */
  lemma {:induction false} DispatchingIs(ss: seq<Source>, ops: seq<Op>, n: nat)
    requires IsLife(ss, ops) && n < |ss|
    ensures ss[n].dispatching <==> exists i: nat :: BegunAt(ops, i, n)
  {
    if n == 0 {
      FirstSource(ss, ops);
    } else {
      DispatchingIs(ss, ops, n - 1);
      LifeStep(ss, ops, n - 1);
      if ops[n - 1].BeginDispatch? {
        assert BegunAt(ops, n - 1, n);
      } else if ss[n].dispatching {
        var i: nat :| BegunAt(ops, i, n - 1);
        assert BegunAt(ops, i, n);
      } else if i: nat :| BegunAt(ops, i, n) {
        assert BegunAt(ops, i, n - 1);
      }
    }
  }

  // ---------------------------------------------------------------- permanent sources

  /** What takes away a permanent source's standing in the loop. */
  predicate Demotes(op: Op) {
    op.Disable? || op.IoError? || op.Lift? || op.Trigger?
  }

  /** A source set up to stay on stays on through any number of dispatches, and the loop keeps it alive
      even when no SourceRef is left. */
  lemma {:induction false} PermanentStays(ss: seq<Source>, ops: seq<Op>, n: nat)
    requires IsLife(ss, ops) && n < |ss| && ss[0] == Setup(On)
    requires forall i | 0 <= i < n :: !Demotes(ops[i])
    ensures ss[n].enabled == On && ss[n].floating && !ss[n].freed && ss[n].destroyed == 0
  {
    if n > 0 {
      PermanentStays(ss, ops, n - 1);
      LifeStep(ss, ops, n - 1);
    }
    CountIsReferences(ss, ops, n);
  }

  /** A hang-up ends it, and runs its destroy handlers at once exactly when no SourceRef is left. */
  lemma HangupEnds(s: Source)
    requires Sound(s) && Possible(s, IoError)
    ensures
      var gone := Apply(s, IoError);
      && gone.enabled == Off && !gone.floating
      && (gone.freed <==> s.refs == 0)
      && gone.destroyed == if s.refs == 0 then 1 else 0
  {
  }

  // ---------------------------------------------------------------- one-shot sources

  predicate IsDispatch(op: Op) {
    op.BeginDispatch? || op.IoError?
  }

  predicate SwitchesOff(op: Op) {
    op.Lift? || op.Disable? || op.IoError?
  }

  /** After a trigger the source can be dispatched, now or as soon as its handler has returned, and is
      alive until then even without SourceRefs. */
  lemma {:induction false} TriggeredIsPending(ss: seq<Source>, ops: seq<Op>, i: nat, n: nat)
    requires IsLife(ss, ops) && i < n < |ss| && ops[i].Trigger?
    requires forall j | i < j < n :: !SwitchesOff(ops[j]) && !IsDispatch(ops[j]) && !ops[j].EndDispatch?
    ensures ss[n].enabled == OneShot && ss[n].floating && !ss[n].freed
    ensures !ss[n].dispatching ==> Possible(ss[n], BeginDispatch)
    decreases n
  {
    LifeStep(ss, ops, n - 1);
    if i < n - 1 {
      TriggeredIsPending(ss, ops, i, n - 1);
    }
    CountIsReferences(ss, ops, n);
  }

  /** A trigger inside the handler outlives the handler's return, as long as a SourceRef is left. */
  lemma RetriggerSurvivesReturn(s: Source)
    requires Sound(s) && s.dispatching && s.refs > 0
    ensures
      var triggered := Apply(s, Trigger);
      && Sound(triggered) && triggered.dispatching
      && var returned := Apply(triggered, EndDispatch);
      && returned.enabled == OneShot && !returned.freed && Possible(returned, BeginDispatch)
  {
  }

  /** Once switched off, or dispatched after a single trigger, a source is not dispatched again before
      the next trigger. */
  lemma {:induction false} OffUntilTrigger(ss: seq<Source>, ops: seq<Op>, i: nat, n: nat)
    requires IsLife(ss, ops) && i < n < |ss|
    requires SwitchesOff(ops[i]) || (ops[i].BeginDispatch? && ss[i].enabled == OneShot)
    requires forall j | i < j < n :: !ops[j].Trigger?
    ensures ss[n].enabled == Off
    ensures n < |ops| ==> !IsDispatch(ops[n])
    decreases n
  {
    LifeStep(ss, ops, n - 1);
    if i < n - 1 {
      OffUntilTrigger(ss, ops, i, n - 1);
    }
    if n < |ops| {
      LifeStep(ss, ops, n);
    }
  }

  /** Once disabled, or hung up, a source has no standing in the loop before the next trigger: only
      SourceRefs and its running handler keep it alive. */
  lemma {:induction false} DisabledIsReleased(ss: seq<Source>, ops: seq<Op>, i: nat, n: nat)
    requires IsLife(ss, ops) && i < n < |ss| && (ops[i].Disable? || ops[i].IoError?)
    requires forall j | i < j < n :: !ops[j].Trigger?
    ensures !ss[n].floating
    ensures ss[n].freed <==> ss[n].refs == 0 && !ss[n].dispatching
    decreases n
  {
    LifeStep(ss, ops, n - 1);
    if i < n - 1 {
      DisabledIsReleased(ss, ops, i, n - 1);
    }
    CountIsReferences(ss, ops, n);
  }

  /** What ends the loop's own reference: the return of a dispatch, unless the source stays on, or being
      disabled. */
  predicate EndsFloat(s: Source, op: Op) {
    op.Disable? || op.IoError? || (op.EndDispatch? && s.enabled != On)
  }

  predicate TriggeredSince(ops: seq<Op>, j: nat, n: nat)
    requires n <= |ops|
  {
    exists k :: j < k < n && ops[k].Trigger?
  }

  /** The loop holds a reference exactly from set-up, or from a trigger, until one of these. */
  lemma {:induction false} FloatsIff(ss: seq<Source>, ops: seq<Op>, n: nat)
    requires IsLife(ss, ops) && n < |ss|
    ensures ss[n].floating <==> forall j | 0 <= j < n && EndsFloat(ss[j], ops[j]) :: TriggeredSince(ops, j, n)
  {
    if n == 0 {
      FirstSource(ss, ops);
    } else {
      FloatsIff(ss, ops, n - 1);
      LifeStep(ss, ops, n - 1);
      forall j: nat | j < n - 1
        ensures TriggeredSince(ops, j, n) <==> TriggeredSince(ops, j, n - 1) || ops[n - 1].Trigger?
      {
        TriggeredLater(ops, j, n);
      }
      assert !TriggeredSince(ops, n - 1, n);
    }
  }

  lemma TriggeredLater(ops: seq<Op>, j: nat, n: nat)
    requires j < n - 1 && n <= |ops|
    ensures TriggeredSince(ops, j, n) <==> TriggeredSince(ops, j, n - 1) || ops[n - 1].Trigger?
  {
    if ops[n - 1].Trigger? {
      assert j < n - 1 < n && ops[n - 1].Trigger?;
    } else if TriggeredSince(ops, j, n) {
      var k :| j < k < n && ops[k].Trigger?;
      assert j < k < n - 1;
    }
  }

  function Dispatches(ops: seq<Op>, n: nat): nat
    requires n <= |ops|
  {
    if n == 0 then 0 else Dispatches(ops, n - 1) + if IsDispatch(ops[n - 1]) then 1 else 0
  }

  function Triggers(ops: seq<Op>, n: nat): nat
    requires n <= |ops|
  {
    if n == 0 then 0 else Triggers(ops, n - 1) + if ops[n - 1].Trigger? then 1 else 0
  }

  /** A source set up for one shot is dispatched at most once, plus once for each trigger. */
  lemma {:induction false} OneDispatchPerTrigger(ss: seq<Source>, ops: seq<Op>, n: nat)
    requires IsLife(ss, ops) && n < |ss| && ss[0] == Setup(OneShot)
    ensures ss[n].enabled != On
    ensures Dispatches(ops, n) + (if ss[n].enabled == OneShot then 1 else 0) <= 1 + Triggers(ops, n)
  {
    if n > 0 {
      OneDispatchPerTrigger(ss, ops, n - 1);
      LifeStep(ss, ops, n - 1);
    }
  }

  /** A task's source is alive and pending until its dispatch, even if its SourceRef is dropped at once. */
  lemma {:induction false} TaskIsPending(ss: seq<Source>, ops: seq<Op>, n: nat)
    requires IsLife(ss, ops) && n < |ss| && ss[0] == Setup(OneShot)
    requires forall j | 0 <= j < n :: !SwitchesOff(ops[j]) && !IsDispatch(ops[j])
    ensures ss[n].enabled == OneShot && ss[n].floating && !ss[n].freed && Possible(ss[n], BeginDispatch)
  {
    if n > 0 {
      TaskIsPending(ss, ops, n - 1);
      LifeStep(ss, ops, n - 1);
    }
    CountIsReferences(ss, ops, n);
  }
}
