/** The lifetime of one event source: sd-event's reference count, the SourceRefs of the program and
    the "floating" reference of the loop itself (src/base/evloop.h, src/base/evloop.cc). */
module EventSourceState {

  datatype Enablement = Off | OneShot | On

  /** `refs` counts the live SourceRefs, `destroyed` how often the destroy callback has run. */
  datatype Source = Source(
    count: nat,
    refs: nat,
    floating: bool,
    enabled: Enablement,
    dispatching: bool,
    freed: bool,
    destroyed: nat
  )

  /** sd-event frees at count zero, but not while it is dispatching the source. */
  function FreeIfUnused(s: Source): Source {
    if s.count == 0 && !s.dispatching && !s.freed then s.(freed := true, destroyed := s.destroyed + 1) else s
  }

  function Ref(s: Source): Source {
    s.(count := s.count + 1)
  }

  function Unref(s: Source): Source
    requires s.count > 0
  {
    FreeIfUnused(s.(count := s.count - 1))
  }

  function SetFloating(s: Source, floating: bool): Source
    requires s.floating ==> s.count > 0
  {
    if s.floating == floating then s
    else if floating then Ref(s.(floating := true))
    else Unref(s.(floating := false))
  }

  /** SourceSetup on a source that sd-event has just handed out with one reference. */
  function Setup(enabled: Enablement): Source {
    SetFloating(Source(1, 1, false, enabled, false, false, 0), true)
  }

  /** What happens to a source: the SourceRef operations, and the two ends of its dispatch. A move
      leaves all counts alone. `IoError` is a dispatch that HandleIoEvent turns down. */
  datatype Op = Copy | Move | Drop | Lift | Trigger | Disable | BeginDispatch | EndDispatch | IoError

  /** A SourceRef operation needs a SourceRef; sd-event dispatches what is enabled. */
  predicate Possible(s: Source, op: Op) {
    match op
    case BeginDispatch => s.enabled != Off && !s.dispatching && !s.freed
    case IoError => s.enabled != Off && !s.dispatching && !s.freed
    case EndDispatch => s.dispatching
    case _ => s.refs > 0
  }

  predicate Sound(s: Source) {
    && s.count == s.refs + (if s.floating then 1 else 0)
    && (s.freed <==> s.count == 0 && !s.dispatching)
    && s.destroyed == (if s.freed then 1 else 0)
  }

  function Apply(s: Source, op: Op): Source
    requires Sound(s) && Possible(s, op)
  {
    match op
    case Copy => Ref(s.(refs := s.refs + 1))
    case Move => s
    case Drop => Unref(s.(refs := s.refs - 1))
    case Lift => s.(enabled := Off)
    case Trigger => SetFloating(s.(enabled := OneShot), true)
    case Disable => SetFloating(s.(enabled := Off), false)
    case BeginDispatch =>
      Ref(s.(refs := s.refs + 1, dispatching := true, enabled := if s.enabled.OneShot? then Off else s.enabled))
    case EndDispatch =>
      var returned := if s.enabled != On then SetFloating(s, false) else s;
      FreeIfUnused(returned.(dispatching := false))
    case IoError =>
      var disabled := SetFloating(s.(dispatching := true, enabled := Off), false);
      FreeIfUnused(disabled.(dispatching := false))
  }

  /** Counts agree with the live references after every operation, and none of them ever touches a
      source that is already freed. */
  lemma ApplyKeepsSound(s: Source, op: Op)
    requires Sound(s) && Possible(s, op)
    ensures !s.freed
    ensures Sound(Apply(s, op))
  {
  }

  ghost predicate IsLife(ss: seq<Source>, ops: seq<Op>) {
    && |ss| == |ops| + 1
    && (exists enabled :: ss[0] == Setup(enabled))
    && (forall i | 0 <= i < |ops| :: Sound(ss[i]) && Possible(ss[i], ops[i]) ==> ss[i + 1] == Apply(ss[i], ops[i]))
    && (forall i | 0 <= i < |ops| :: Possible(ss[i], ops[i]))
  }

  /** Over its whole life a source's count is its SourceRefs plus the floating one; it is freed, and
      its destroy handlers run, exactly once: when neither is left and no dispatch is under way. */
  lemma {:induction false} CountIsReferences(ss: seq<Source>, ops: seq<Op>, n: nat)
    requires IsLife(ss, ops) && n < |ss|
    ensures Sound(ss[n])
    ensures ss[n].freed <==> ss[n].refs == 0 && !ss[n].floating && !ss[n].dispatching
    ensures ss[n].freed ==> n == |ops|
  {
    if n > 0 {
      CountIsReferences(ss, ops, n - 1);
      assert Possible(ss[n - 1], ops[n - 1]);
      ApplyKeepsSound(ss[n - 1], ops[n - 1]);
    }
    if n < |ops| {
      assert Possible(ss[n], ops[n]);
    }
  }

  /** A finished one-shot source belongs to the program alone: it is freed on return exactly when no
      SourceRef is left, even if its own handler triggered it again. */
  lemma OneShotFreedOnReturn(s: Source)
    requires Sound(s) && s.dispatching && s.enabled != On
    ensures
      var done := Apply(s, EndDispatch);
      && !done.floating
      && done.enabled == s.enabled
      && (done.freed <==> s.refs == 0)
  {
  }
}

/** The same source as an object that the operations update in place. */
module EventSourceObject {
  import opened EventSourceState

  class EventSource {
    var count: nat
    var floating: bool
    var enabled: Enablement
    var dispatching: bool
    var freed: bool
    var destroyed: nat
    ghost var refs: nat

    ghost function Contents(): Source
      reads this
    {
      Source(count, refs, floating, enabled, dispatching, freed, destroyed)
    }

    constructor (enabled: Enablement)
      ensures Contents() == Setup(enabled)
      ensures Sound(Contents())
    {
      count, floating, this.enabled, dispatching, freed, destroyed, refs := 2, true, enabled, false, false, 0, 1;
    }

    method FreeIfUnused()
      modifies this`freed, this`destroyed
      ensures Contents() == EventSourceState.FreeIfUnused(old(Contents()))
    {
      if count == 0 && !dispatching && !freed {
        freed, destroyed := true, destroyed + 1;
      }
    }

    method SetFloating(float: bool)
      requires floating ==> count > 0
      modifies this`floating, this`count, this`freed, this`destroyed
      ensures Contents() == EventSourceState.SetFloating(old(Contents()), float)
    {
      if floating == float {
        return;
      }
      floating := float;
      if float {
        count := count + 1;
      } else {
        count := count - 1;
        FreeIfUnused();
      }
    }

    method CopyRef()
      requires Sound(Contents()) && refs > 0
      modifies this`count, this`refs
      ensures Contents() == Apply(old(Contents()), Copy)
    {
      count, refs := count + 1, refs + 1;
    }

    method DropRef()
      requires Sound(Contents()) && refs > 0
      modifies this`count, this`refs, this`freed, this`destroyed
      ensures Contents() == Apply(old(Contents()), Drop)
    {
      count, refs := count - 1, refs - 1;
      FreeIfUnused();
    }

    method Trigger()
      requires Sound(Contents()) && refs > 0
      modifies this
      ensures Contents() == Apply(old(Contents()), Op.Trigger)
    {
      enabled := OneShot;
      SetFloating(true);
    }

    method Disable()
      requires Sound(Contents()) && refs > 0
      modifies this
      ensures Contents() == Apply(old(Contents()), Op.Disable)
    {
      enabled := Off;
      SetFloating(false);
    }

    /** sd-event switches a one-shot source off, then GenericHandler makes its own SourceRef. */
    method BeginDispatch()
      requires Sound(Contents()) && enabled != Off && !dispatching && !freed
      modifies this
      ensures Contents() == Apply(old(Contents()), Op.BeginDispatch)
    {
      if enabled == OneShot {
        enabled := Off;
      }
      dispatching, count, refs := true, count + 1, refs + 1;
    }

    /** HandleIoEvent on a hang-up: the source is disabled before its dispatch returns. */
    method DropOnHangup()
      requires Sound(Contents()) && enabled != Off && !dispatching && !freed
      modifies this
      ensures Contents() == Apply(old(Contents()), IoError)
    {
      dispatching := true;
      enabled := Off;
      SetFloating(false);
      dispatching := false;
      FreeIfUnused();
    }

    method EndDispatch()
      requires Sound(Contents()) && dispatching
      modifies this
      ensures Contents() == Apply(old(Contents()), Op.EndDispatch)
    {
      if enabled != On {
        SetFloating(false);
      }
      dispatching := false;
      FreeIfUnused();
    }
  }
}
