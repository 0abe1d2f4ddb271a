/** The event loop's state: the queue of enabled sources, the eventfd that interrupts poll, and the
    state of the underlying sd-event loop (src/base/evloop.cc). */
module EvLoopState {

  /** A deferred source: a one-shot task, the two triggers of the bus thread, or a ready fd. */
  datatype Source = Task(id: nat) | Shutdown | Dispatch | Io(fd: int)

  datatype SdState = Initial | Armed | Pending | Running

  datatype Loop = Loop(queue: seq<Source>, counter: nat, sd: SdState)

  /** An eventfd holds at most 2^64 - 2; a write that would exceed that leaves it as it is. */
  const EVENTFD_MAX: nat := 0xffff_ffff_ffff_fffe

  predicate Distinct(q: seq<Source>) {
    forall i, j | 0 <= i < j < |q| :: q[i] != q[j]
  }

  /** Enabling a source puts it behind the ones already pending; enabling it twice changes nothing. */
  function Enqueue(q: seq<Source>, s: Source): seq<Source> {
    if s in q then q else q + [s]
  }

  /** What sd-event finds ready when it looks at its descriptors. */
  function Collect(q: seq<Source>, ready: seq<int>): seq<Source>
    decreases |ready|
  {
    if ready == [] then q else Collect(Enqueue(q, Io(ready[0])), ready[1..])
  }

  /** Looking at the descriptors only adds descriptors, behind everything already enabled. */
  lemma {:induction false} CollectGrows(q: seq<Source>, ready: seq<int>)
    ensures q <= Collect(q, ready)
    ensures forall x | x in Collect(q, ready) :: x in q || x.Io?
    ensures Distinct(q) ==> Distinct(Collect(q, ready))
    decreases |ready|
  {
    if ready != [] {
      CollectGrows(Enqueue(q, Io(ready[0])), ready[1..]);
    }
  }

  /** Exactly the ready descriptors get enabled, and nothing is lost. */
  lemma {:induction false} CollectMembers(q: seq<Source>, ready: seq<int>)
    ensures forall x :: x in Collect(q, ready) <==> x in q || (x.Io? && x.fd in ready)
    decreases |ready|
  {
    if ready != [] {
      CollectMembers(Enqueue(q, Io(ready[0])), ready[1..]);
      assert forall x: int :: x in ready <==> x == ready[0] || x in ready[1..];
    }
  }

  function FirstIndex(ready: seq<int>, fd: int): nat
    requires fd in ready
  {
    if ready[0] == fd then 0 else 1 + FirstIndex(ready[1..], fd)
  }

  /** They stand behind everything enabled before, once each, in the order in which they were found. */
  lemma {:induction false} CollectOrder(q: seq<Source>, ready: seq<int>)
    ensures q <= Collect(q, ready)
    ensures forall a | |q| <= a < |Collect(q, ready)| ::
              Collect(q, ready)[a].Io? && Collect(q, ready)[a].fd in ready && Collect(q, ready)[a] !in q
    ensures forall a, b | |q| <= a < b < |Collect(q, ready)| ::
              FirstIndex(ready, Collect(q, ready)[a].fd) < FirstIndex(ready, Collect(q, ready)[b].fd)
    decreases |ready|
  {
    if ready != [] {
      var q' := Enqueue(q, Io(ready[0]));
      var c := Collect(q', ready[1..]);
      CollectOrder(q', ready[1..]);
      assert c == Collect(q, ready);
      forall a | |q| <= a < |c| ensures c[a].Io? && c[a].fd in ready && c[a] !in q {
        if a < |q'| {
          assert c[a] == Io(ready[0]);
        }
      }
      forall a, b | |q| <= a < b < |c| ensures FirstIndex(ready, c[a].fd) < FirstIndex(ready, c[b].fd) {
        assert c[b].fd != ready[0];
        if a < |q'| {
          assert c[a] == Io(ready[0]);
        } else {
          assert c[a].fd != ready[0];
        }
      }
    }
  }

  /** There is something to dispatch exactly when something was enabled or is ready now. */
  lemma CollectEmptyIff(q: seq<Source>, ready: seq<int>)
    ensures Collect(q, ready) == [] <==> q == [] && ready == []
  {
    CollectMembers(q, ready);
    if q != [] {
      assert q[0] in Collect(q, ready);
    } else if ready != [] {
      assert Io(ready[0]) in Collect(q, ready);
    }
  }

  lemma CollectHead(q: seq<Source>, ready: seq<int>)
    ensures q != [] ==> Collect(q, ready) != [] && Collect(q, ready)[0] == q[0]
    ensures q == [] && ready != [] ==> Collect(q, ready) != [] && Collect(q, ready)[0] == Io(ready[0])
  {
    CollectGrows(q, ready);
    if q == [] && ready != [] {
      CollectGrows(Enqueue(q, Io(ready[0])), ready[1..]);
    }
  }

  function Without(q: seq<Source>, s: Source): seq<Source> {
    if q == [] then []
    else if q[0] == s then Without(q[1..], s)
    else [q[0]] + Without(q[1..], s)
  }

  /** Disabling a source removes exactly that source. */
  lemma {:induction false} WithoutRemoves(q: seq<Source>, s: Source)
    ensures forall x :: x in Without(q, s) <==> x in q && x != s
    ensures Distinct(q) ==> Distinct(Without(q, s))
  {
    if q != [] {
      WithoutRemoves(q[1..], s);
      assert Distinct(q) ==> q[0] !in q[1..];
    }
  }

  /** The tasks waiting in the queue. */
  function TaskBag(q: seq<Source>): multiset<nat> {
    if q == [] then multiset{}
    else (if q[0].Task? then multiset{q[0].id} else multiset{}) + TaskBag(q[1..])
  }

  lemma {:induction false} TaskBagAppend(q: seq<Source>, r: seq<Source>)
    ensures TaskBag(q + r) == TaskBag(q) + TaskBag(r)
  {
    if q == [] {
      assert q + r == r;
    } else {
      assert (q + r)[1..] == q[1..] + r;
      TaskBagAppend(q[1..], r);
    }
  }

  lemma {:induction false} TaskBagMember(q: seq<Source>, id: nat)
    ensures id in TaskBag(q) <==> Task(id) in q
  {
    if q != [] {
      TaskBagMember(q[1..], id);
    }
  }

  lemma TaskBagEnqueue(q: seq<Source>, s: Source)
    ensures TaskBag(Enqueue(q, s)) ==
            TaskBag(q) + if s.Task? && s !in q then multiset{s.id} else multiset{}
  {
    TaskBagAppend(q, [s]);
  }

  lemma {:induction false} TaskBagCollect(q: seq<Source>, ready: seq<int>)
    ensures TaskBag(Collect(q, ready)) == TaskBag(q)
    decreases |ready|
  {
    if ready != [] {
      TaskBagCollect(Enqueue(q, Io(ready[0])), ready[1..]);
      TaskBagEnqueue(q, Io(ready[0]));
    }
  }

  lemma {:induction false} TaskBagWithout(q: seq<Source>, fd: int)
    ensures TaskBag(Without(q, Io(fd))) == TaskBag(q)
  {
    if q != [] {
      TaskBagWithout(q[1..], fd);
    }
  }

  // ---------------------------------------------------------------- operations

  function Write(l: Loop): (r: Loop)
    ensures r.counter > 0 && r.queue == l.queue && r.sd == l.sd
  {
    if l.counter < EVENTFD_MAX then l.(counter := l.counter + 1) else l
  }

  function Clear(l: Loop): Loop {
    l.(counter := 0)
  }

  function Writes(l: Loop, n: nat): Loop {
    if n == 0 then l else Write(Writes(l, n - 1))
  }

  /** Writes add up until the eventfd is full, and one read takes them all. */
  lemma {:induction false} WritesAddUp(l: Loop, n: nat)
    requires l.counter <= 0xffff_ffff_ffff_fffe
    ensures Writes(l, n).counter == if l.counter + n <= 0xffff_ffff_ffff_fffe then l.counter + n else 0xffff_ffff_ffff_fffe
    ensures Clear(Writes(l, n)) == l.(counter := 0)
  {
    if n > 0 {
      WritesAddUp(l, n - 1);
    }
  }

  function Enable(l: Loop, s: Source): Loop {
    l.(queue := Enqueue(l.queue, s))
  }

  /** sd_event_prepare: pending when something is enabled, armed otherwise. */
  function Prepare(l: Loop, ready: seq<int>): Loop {
    var q := Collect(l.queue, ready);
    l.(queue := q, sd := if q == [] then Armed else Pending)
  }

  /** The look at the descriptors that Dispatch takes unless the loop is already pending. */
  function Recheck(l: Loop, ready: seq<int>): Loop {
    if l.sd == Pending then
      l
    else
      var q := Collect(l.queue, ready);
      l.(queue := q, sd := if q == [] then Initial else Pending)
  }

  /** sd_event_dispatch takes the oldest enabled source; with none left it only resets the loop. */
  function Pop(l: Loop): Loop {
    if l.queue == [] then l.(sd := Initial) else l.(queue := l.queue[1..], sd := Running)
  }
}

/** The event loop object. Its methods are not thread-safe by themselves. */
module EvLoopObject {
  import opened EvLoopState

  class EvLoop {
    var queue: seq<Source>
    var notifyDefer: nat
    var sd: SdState

    function Contents(): Loop
      reads this
    {
      Loop(queue, notifyDefer, sd)
    }

    constructor ()
      ensures Contents() == Loop([], 0, Initial)
    {
      queue, notifyDefer, sd := [], 0, Initial;
    }

    method WriteNotifyDefer()
      modifies this`notifyDefer
      ensures Contents() == Write(old(Contents()))
    {
      if notifyDefer < EVENTFD_MAX {
        notifyDefer := notifyDefer + 1;
      }
    }

    method ClearNotifyDeferFd()
      modifies this`notifyDefer
      ensures Contents() == Clear(old(Contents()))
    {
      notifyDefer := 0;
    }

    /** AddTask: a write that fails is only logged. */
    method EnableAndNotify(s: Source)
      modifies this`queue, this`notifyDefer
      ensures Contents() == Write(Enable(old(Contents()), s))
      ensures s in queue && notifyDefer > 0
    {
      if s !in queue {
        queue := queue + [s];
      }
      WriteNotifyDefer();
    }

    /** Trigger does the same, but asserts that the write succeeds. */
    method Trigger(s: Source) returns (aborted: bool)
      modifies this`queue, this`notifyDefer
      ensures Contents() == Write(Enable(old(Contents()), s))
      ensures aborted <==> old(notifyDefer) == EVENTFD_MAX
    {
      aborted := notifyDefer == EVENTFD_MAX;
      EnableAndNotify(s);
    }

    method CollectReady(ready: seq<int>)
      modifies this`queue
      ensures queue == Collect(old(queue), ready)
    {
      var i := 0;
      while i < |ready|
        invariant 0 <= i <= |ready|
        invariant Collect(queue, ready[i..]) == Collect(old(queue), ready)
      {
        queue := Enqueue(queue, Io(ready[i]));
        i := i + 1;
      }
    }

    /** The first half of Wait: true when the caller may dispatch without polling. */
    method PrepareWait(ready: seq<int>) returns (pending: bool)
      requires sd == Initial
      modifies this`queue, this`sd
      ensures Contents() == Prepare(old(Contents()), ready)
      ensures pending <==> sd == Pending
      ensures pending <==> old(queue) != [] || ready != []
    {
      CollectEmptyIff(queue, ready);
      CollectReady(ready);
      pending := queue != [];
      sd := if pending then Pending else Armed;
    }

    /** Dispatch picks at most one source, the oldest one enabled; its handler runs next. */
    method DispatchOne(ready: seq<int>) returns (picked: seq<Source>)
      requires sd == Armed || sd == Pending
      modifies this`queue, this`sd
      ensures
        var checked := Recheck(old(Contents()), ready);
        && Contents() == (if checked.sd == Pending then Pop(checked) else checked)
        && picked == (if checked.sd == Pending && checked.queue != [] then [checked.queue[0]] else [])
      ensures picked != [] <==> old(queue) != [] || (old(sd) != Pending && ready != [])
      ensures old(queue) != [] ==> picked == [old(queue)[0]]
      ensures old(queue) != [] && old(sd) == Pending ==> queue == old(queue)[1..]
      ensures old(queue) == [] && old(sd) != Pending && ready != [] ==> picked == [Io(ready[0])]
    {
      CollectEmptyIff(queue, ready);
      CollectOrder(queue, ready);
      CollectHead(queue, ready);
      if sd != Pending {
        CollectReady(ready);
        if queue == [] {
          sd := Initial;
          return [];
        }
      }
      if queue == [] {
        sd := Initial;
        return [];
      }
      picked := [queue[0]];
      queue := queue[1..];
      sd := Running;
    }
  }
}
