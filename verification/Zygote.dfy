/** The mimic zygote's child set against the kernel's process table, over arbitrary commands
    (src/sandbox/mimic_strategy/status.cc, reap.cc, fork.cc, zygote.cc). */
module ZygoteState {
  import opened Basics

  // ---------------------------------------------------------------- wait status words

  const SIGINT := 2
  const SIGKILL := 9
  const SIGTERM := 15

  datatype TerminationStatus = Normal | Abnormal | Killed | Crashed | Running

  datatype Report = Report(status: TerminationStatus, wstatus: nat)

  function TermSig(w: nat): nat { w % 128 }
  function ExitCode(w: nat): nat { w / 256 % 256 }
  predicate IfExited(w: nat) { TermSig(w) == 0 }
  predicate IfSignaled(w: nat) { 0 < TermSig(w) < 127 }
  function StopCode(signal: nat): nat { signal * 256 + 127 }

  /** The words waitpid reports for a finished process. */
  function ExitedWord(code: nat): nat { code * 256 }
  function SignaledWord(signal: nat, core: bool): nat { signal + if core then 128 else 0 }

  function StatusForSignal(signal: nat): TerminationStatus {
    if signal == SIGINT || signal == SIGKILL || signal == SIGTERM then Killed else Crashed
  }

  /** What HandleTerminationStatusRequest makes of a finished child's status word. */
  function Classify(w: nat): Report {
    if IfSignaled(w) then Report(StatusForSignal(TermSig(w)), w)
    else if IfExited(w) && ExitCode(w) > 128 then
      Report(StatusForSignal(ExitCode(w) - 128), StopCode(ExitCode(w) - 128))
    else if IfExited(w) && ExitCode(w) != 0 then Report(Abnormal, w)
    else Report(Normal, w)
  }

  /** A shell-style exit code 128 + n is classified like death by signal n; lower non-zero codes are
      abnormal, zero is normal; and a finished child is never called running. */
  lemma ClassifyMeaning(code: nat, signal: nat, core: bool)
    requires code < 256 && 0 < signal < 127
    ensures Classify(SignaledWord(signal, core)) == Report(StatusForSignal(signal), SignaledWord(signal, core))
    ensures Classify(ExitedWord(128 + signal)).status == Classify(SignaledWord(signal, core)).status
    ensures code == 0 <==> Classify(ExitedWord(code)).status == Normal
    ensures 0 < code <= 128 <==> Classify(ExitedWord(code)).status == Abnormal
  {
    assert TermSig(SignaledWord(signal, core)) == signal;
    WordOfCode(code);
    WordOfCode(128 + signal);
  }

  lemma WordOfCode(code: nat)
    requires code < 256
    ensures IfExited(ExitedWord(code)) && ExitCode(ExitedWord(code)) == code
  {
    assert code * 256 == 128 * (2 * code);
  }

  /** The status words of finished processes: an exit code, or a signal with or without a core dump. */
  predicate FinishedWord(w: nat) {
    (w % 256 == 0 && w / 256 < 256) || (w < 256 && 0 < w % 128 < 127)
  }

  /** In numbers: killed are SIGINT, SIGKILL and SIGTERM, with or without a core dump, and the exit codes
      130, 137 and 143; crashed are the other signals and the other exit codes above 128. */
  lemma ClassifyInNumbers(w: nat)
    requires FinishedWord(w)
    ensures Classify(w).status == Killed <==>
            w in {2, 9, 15, 2 + 128, 9 + 128, 15 + 128, 130 * 256, 137 * 256, 143 * 256}
    ensures Classify(w).status == Crashed <==>
            (w % 256 != 0 || w / 256 > 128) &&
            w !in {2, 9, 15, 2 + 128, 9 + 128, 15 + 128, 130 * 256, 137 * 256, 143 * 256}
    ensures Classify(w).status == Normal <==> w == 0
    ensures Classify(w).status == Abnormal <==> w % 256 == 0 && 1 <= w / 256 <= 128
    ensures Classify(w).status != Running
  {
    WordDivides(w);
  }

  /** The word sent to the host is the child's own, except that an exit code 128 + n becomes the word of
      a stop by signal n. */
  lemma ClassifiedWord(w: nat)
    requires FinishedWord(w)
    ensures Classify(w).wstatus == if w % 256 == 0 && w / 256 > 128 then (w / 256 - 128) * 256 + 127 else w
  {
    WordDivides(w);
  }

  /** The low bits that WIFEXITED looks at are those of the low byte. */
  lemma WordDivides(w: nat)
    ensures w % 256 == 0 ==> w % 128 == 0
    ensures w < 256 && w % 128 != 0 ==> w % 256 != 0 && w / 256 == 0
    ensures w < 256 ==> w / 256 == 0
  {
    assert w == 256 * (w / 256) + w % 256;
    if w % 256 == 0 {
      assert w == 128 * (2 * (w / 256));
    }
  }

  // ---------------------------------------------------------------- state and commands

  datatype Proc = Alive | Zombie(wstatus: nat)

  /** One reap request's chain of timers; the handler is copied into each new timer with its flag.
      `kills` counts the SIGKILLs it has sent (history). */
  datatype Chain = Chain(pid: int, sentSigkill: bool, active: bool, kills: nat)

  datatype Zygote = Zygote(children: set<int>, procs: map<int, Proc>, chains: seq<Chain>)

  /** waitpid with WNOHANG: ECHILD, nothing yet, or the status of a child that is then gone. */
  datatype Waited = NoChild | NotYet | Status(wstatus: nat)

  function TryWait(procs: map<int, Proc>, pid: int): Waited {
    if pid !in procs then NoChild else if procs[pid].Alive? then NotYet else Status(procs[pid].wstatus)
  }

  /** `word` is the status a child still alive ends with once it has been killed and waited for. */
  function WaitKilled(procs: map<int, Proc>, pid: int, word: nat): Waited {
    if TryWait(procs, pid).NotYet? then Status(word) else TryWait(procs, pid)
  }

  function StatusReport(z: Zygote, pid: int, knownDead: bool, word: nat): Report {
    if pid !in z.children then Report(Normal, 0)
    else
      match if knownDead then WaitKilled(z.procs, pid, word) else TryWait(z.procs, pid)
      case NoChild => Report(Normal, 0)
      case NotYet => Report(Running, 0)
      case Status(w) => Classify(w)
  }

  function AfterStatus(z: Zygote, pid: int, knownDead: bool, word: nat): Zygote {
    if pid !in z.children || StatusReport(z, pid, knownDead, word).status.Running? then z
    else z.(children := z.children - {pid}, procs := z.procs - {pid})
  }

  /** The fork command. When the host does not answer with the child's real pid, the child is killed
      and waited for on the spot, but still recorded. */
  function AfterFork(z: Zygote, pid: int, hostKnows: bool): Zygote {
    z.(children := z.children + {pid}, procs := if hostKnows then z.procs[pid := Alive] else z.procs - {pid})
  }

  function AfterReap(z: Zygote, pid: int): Zygote {
    if pid in z.children then z.(chains := z.chains + [Chain(pid, false, true, 0)]) else z
  }

  function Fired(c: Chain, waited: Waited): Chain {
    if waited.Status? then c.(active := false)
    else c.(sentSigkill := true, kills := if c.sentSigkill then c.kills else c.kills + 1)
  }

  function AfterTimer(z: Zygote, i: nat): Zygote
    requires i < |z.chains|
  {
    var c := z.chains[i];
    var waited := TryWait(z.procs, c.pid);
    z.(chains := z.chains[i := Fired(c, waited)],
       procs := if waited.Status? then z.procs - {c.pid} else z.procs)
  }

  datatype Event =
    | Fork(pid: int, hostKnows: bool)
    | StatusRequest(pid: int, knownDead: bool, word: nat)
    | ReapRequest(pid: int)
    | Timer(chain: nat)
    | Death(pid: int, wstatus: nat)

  /** The kernel gives a fork an unused pid; only a live child dies; timers fire while armed; a
      finished child has exited or was signaled. */
  predicate Enabled(z: Zygote, e: Event) {
    match e
    case Fork(pid, _) => pid !in z.procs
    case Timer(i) => i < |z.chains| && z.chains[i].active
    case Death(pid, w) => pid in z.procs && z.procs[pid].Alive?
    case _ => true
  }

  function Do(z: Zygote, e: Event): Zygote
    requires Enabled(z, e)
  {
    match e
    case Fork(pid, hostKnows) => AfterFork(z, pid, hostKnows)
    case StatusRequest(pid, knownDead, word) => AfterStatus(z, pid, knownDead, word)
    case ReapRequest(pid) => AfterReap(z, pid)
    case Timer(i) => AfterTimer(z, i)
    case Death(pid, w) => z.(procs := z.procs[pid := Zombie(w)])
  }

  predicate Step(z: Zygote, e: Event, z': Zygote) {
    Enabled(z, e) && z' == Do(z, e)
  }

  const NO_CHILDREN := Zygote({}, map[], [])

  ghost predicate IsRun(zs: seq<Zygote>, es: seq<Event>) {
    && |zs| == |es| + 1
    && zs[0] == NO_CHILDREN
    && (forall i | 0 <= i < |es| :: Step(zs[i], es[i], zs[i + 1]))
  }

  // ---------------------------------------------------------------- what every run keeps

  ghost predicate Inv(z: Zygote) {
    && z.procs.Keys <= z.children
    && (forall i | 0 <= i < |z.chains| :: z.chains[i].kills == if z.chains[i].sentSigkill then 1 else 0)
  }

  /** Every child that was forked and not waited for yet is in the child set, and each reap request
      sends SIGKILL at most once however often its timer fires. */
  lemma {:induction false} InvAlways(zs: seq<Zygote>, es: seq<Event>, n: nat)
    requires IsRun(zs, es) && n < |zs|
    ensures Inv(zs[n])
  {
    if n > 0 {
      InvAlways(zs, es, n - 1);
      assert Step(zs[n - 1], es[n - 1], zs[n]);
    }
  }

  /** A pid in the child set whose child has been waited for already. */
  predicate Stale(z: Zygote, pid: int) {
    pid in z.children && pid !in z.procs
  }

  /** Step e has pid waited for: its process is gone afterwards. */
  predicate Collects(z: Zygote, e: Event, pid: int) {
    Enabled(z, e) && pid in z.procs && pid !in Do(z, e).procs
  }

  /** The two steps that leave a stale pid behind: a fork that the host does not confirm, and a reap
      timer that collects the child. */
  predicate MakesStale(z: Zygote, e: Event, pid: int) {
    || e == Fork(pid, false)
    || (e.Timer? && e.chain < |z.chains| && z.chains[e.chain].pid == pid && TryWait(z.procs, pid).Status?)
  }

  /** What takes a stale pid out of the child set again, or makes it a live child's. */
  predicate Refreshes(e: Event, pid: int) {
    e == Fork(pid, true) || (e.StatusRequest? && e.pid == pid)
  }

  lemma StaleStepIff(z: Zygote, e: Event, z': Zygote, pid: int)
    requires Inv(z) && Step(z, e, z')
    ensures Stale(z', pid) <==> MakesStale(z, e, pid) || (Stale(z, pid) && !Refreshes(e, pid))
  {
    if e.Timer? && z.chains[e.chain].pid == pid && TryWait(z.procs, pid).Status? {
      assert pid in z.children;
    }
  }

  predicate StaleMadeAt(zs: seq<Zygote>, es: seq<Event>, i: nat, n: nat, pid: int)
    requires |zs| == |es| + 1
  {
    i < n <= |es| && MakesStale(zs[i], es[i], pid) && forall k | i < k < n :: !Refreshes(es[k], pid)
  }

  /** The child set beside the process table, for every run: a pid is in the set although its child
      has been waited for if and only if some step made it stale and none refreshed it since. */
  lemma {:induction false} StaleIff(zs: seq<Zygote>, es: seq<Event>, n: nat, pid: int)
    requires IsRun(zs, es) && n < |zs|
    ensures Stale(zs[n], pid) <==> exists i: nat :: StaleMadeAt(zs, es, i, n, pid)
  {
    if n > 0 {
      StaleIff(zs, es, n - 1, pid);
      InvAlways(zs, es, n - 1);
      StaleStepIff(zs[n - 1], es[n - 1], zs[n], pid);
      if Stale(zs[n], pid) {
        if MakesStale(zs[n - 1], es[n - 1], pid) {
          assert StaleMadeAt(zs, es, n - 1, n, pid);
        } else {
          var i: nat :| StaleMadeAt(zs, es, i, n - 1, pid);
          assert StaleMadeAt(zs, es, i, n, pid);
        }
      }
      if i: nat :| StaleMadeAt(zs, es, i, n, pid) {
        assert i == n - 1 || StaleMadeAt(zs, es, i, n - 1, pid);
      }
    }
  }

  /** The child set is exactly the set of children not waited for yet. */
  predicate ChildrenAgree(z: Zygote) {
    z.children == z.procs.Keys
  }

  /** One step keeps the agreement exactly when it is neither of the two. */
  lemma AgreementKeptIff(z: Zygote, e: Event, z': Zygote)
    requires Inv(z) && ChildrenAgree(z) && Step(z, e, z')
    ensures ChildrenAgree(z') <==> forall pid :: !MakesStale(z, e, pid)
  {
    forall pid ensures Stale(z', pid) <==> MakesStale(z, e, pid) {
      StaleStepIff(z, e, z', pid);
    }
    if ChildrenAgree(z') {
      forall pid ensures !MakesStale(z, e, pid) {
        assert !Stale(z', pid);
      }
    } else {
      ChildrenCover(z, e, z');
      var pid :| pid in z'.children && pid !in z'.procs;
      assert Stale(z', pid) && MakesStale(z, e, pid);
    }
  }

  lemma ChildrenCover(z: Zygote, e: Event, z': Zygote)
    requires z.procs.Keys <= z.children && Step(z, e, z')
    ensures z'.procs.Keys <= z'.children
  {
  }

  /** Over a whole run the child set is exactly the children not waited for if and only if every fork
      was confirmed by the host and no reap timer ever collected a child. */
  lemma {:induction false} AgreementAlwaysIff(zs: seq<Zygote>, es: seq<Event>, n: nat)
    requires IsRun(zs, es) && n < |zs|
    ensures (forall k | 0 <= k <= n :: ChildrenAgree(zs[k])) <==>
            forall i, pid | 0 <= i < n :: !MakesStale(zs[i], es[i], pid)
  {
    if n > 0 {
      AgreementAlwaysIff(zs, es, n - 1);
      InvAlways(zs, es, n - 1);
      assert Step(zs[n - 1], es[n - 1], zs[n]);
      if ChildrenAgree(zs[n - 1]) {
        AgreementKeptIff(zs[n - 1], es[n - 1], zs[n]);
      }
    }
  }

  /** A child that its own reap timer collected stays in the child set, although its fork was
      confirmed. */
  lemma ReapedChildStays() returns (zs: seq<Zygote>, es: seq<Event>)
    ensures IsRun(zs, es) && es == [Fork(7, true), ReapRequest(7), Death(7, 0), Timer(0)]
    ensures Stale(zs[|es|], 7)
  {
    es := [Fork(7, true), ReapRequest(7), Death(7, 0), Timer(0)];
    var z1 := Do(NO_CHILDREN, es[0]);
    var z2 := Do(z1, es[1]);
    var z3 := Do(z2, es[2]);
    var z4 := Do(z3, es[3]);
    zs := [NO_CHILDREN, z1, z2, z3, z4];
  }

  /** So does a child whose real pid the host never confirmed. */
  lemma UnconfirmedChildStays() returns (zs: seq<Zygote>, es: seq<Event>)
    ensures IsRun(zs, es) && es == [Fork(7, false)]
    ensures Stale(zs[|es|], 7)
  {
    es := [Fork(7, false)];
    zs := [NO_CHILDREN, Do(NO_CHILDREN, es[0])];
  }

  /** The answer to a status request is "running" exactly when the child really is alive and the host
      does not already know it to be dead. */
  lemma RunningIsTrue(zs: seq<Zygote>, es: seq<Event>, n: nat, pid: int, knownDead: bool, word: nat)
    requires IsRun(zs, es) && n < |zs|
    ensures StatusReport(zs[n], pid, knownDead, word).status.Running? <==>
            !knownDead && pid in zs[n].procs && zs[n].procs[pid].Alive?
  {
    InvAlways(zs, es, n);
  }

  /** What the host is told in each case: of a child it never forked, or that is gone already, that it
      ended normally; of a dead one how it died; of a live one that it runs, or, if the host knows it to
      be dead, how it ends once killed. */
  lemma StatusAnswers(zs: seq<Zygote>, es: seq<Event>, n: nat, pid: int, knownDead: bool, word: nat)
    requires IsRun(zs, es) && n < |zs|
    ensures
      var report := StatusReport(zs[n], pid, knownDead, word);
      if pid !in zs[n].procs then report == Report(Normal, 0)
      else
        match zs[n].procs[pid]
        case Zombie(w) => report == Classify(w)
        case Alive => report == if knownDead then Classify(word) else Report(Running, 0)
  {
    InvAlways(zs, es, n);
  }

  /** Every reap chain was started by a request for a pid that was in the child set. */
  lemma {:induction false} ChainsAreRequested(zs: seq<Zygote>, es: seq<Event>, n: nat, c: nat) returns (i: nat)
    requires IsRun(zs, es) && n < |zs| && c < |zs[n].chains|
    ensures i < n && es[i] == ReapRequest(zs[n].chains[c].pid)
    ensures zs[n].chains[c].pid in zs[i].children && |zs[i].chains| == c
  {
    assert n > 0 && Step(zs[n - 1], es[n - 1], zs[n]);
    if c < |zs[n - 1].chains| {
      i := ChainsAreRequested(zs, es, n - 1, c);
    } else {
      i := n - 1;
    }
  }

  /** And every such request starts one, which has not sent a signal yet. */
  lemma RequestStartsChainIff(z: Zygote, pid: int, z': Zygote)
    requires Step(z, ReapRequest(pid), z')
    ensures |z'.chains| == |z.chains| + 1 <==> pid in z.children
    ensures pid !in z.children ==> z' == z
    ensures pid in z.children ==>
              var c := z'.chains[|z.chains|];
              c.pid == pid && c.active && !c.sentSigkill && c.kills == 0
  {
  }

  lemma {:induction false} GoneStaysGone(zs: seq<Zygote>, es: seq<Event>, i: nat, j: nat, pid: int)
    requires IsRun(zs, es) && i <= j < |zs| && pid !in zs[i].children
    requires forall k | i <= k < j :: es[k].Fork? ==> es[k].pid != pid
    ensures pid !in zs[j].children
    decreases j
  {
    if i < j {
      GoneStaysGone(zs, es, i, j - 1, pid);
      assert Step(zs[j - 1], es[j - 1], zs[j]);
    }
  }

  /** Once a child was answered as not running, it is never answered as running again until its pid
      is forked anew. */
  lemma NotRunningIsFinal(zs: seq<Zygote>, es: seq<Event>, i: nat, j: nat, pid: int)
    requires IsRun(zs, es) && i < j < |es|
    requires es[i].StatusRequest? && es[i].pid == pid && es[j].StatusRequest? && es[j].pid == pid
    requires !StatusReport(zs[i], pid, es[i].knownDead, es[i].word).status.Running?
    requires forall k | i < k < j :: es[k].Fork? ==> es[k].pid != pid
    ensures !StatusReport(zs[j], pid, es[j].knownDead, es[j].word).status.Running?
  {
    assert Step(zs[i], es[i], zs[i + 1]);
    GoneStaysGone(zs, es, i + 1, j, pid);
  }

  // ---------------------------------------------------------------- reap chains

  lemma {:induction false} ChainPersists(zs: seq<Zygote>, es: seq<Event>, i: nat, j: nat, c: nat)
    requires IsRun(zs, es) && i <= j < |zs| && c < |zs[i].chains|
    ensures c < |zs[j].chains| && zs[j].chains[c].pid == zs[i].chains[c].pid
    ensures zs[j].chains[c].active ==> zs[i].chains[c].active
    ensures zs[i].chains[c].sentSigkill ==> zs[j].chains[c].sentSigkill
    decreases j
  {
    if i < j {
      ChainPersists(zs, es, i, j - 1, c);
      assert Step(zs[j - 1], es[j - 1], zs[j]);
    }
  }

  /** Firings still needed by a chain whose child nobody else waits for. */
  function ChainMeasure(c: Chain): nat {
    if !c.active then 0 else if c.sentSigkill then 1 else 2
  }

  /** Whenever chain c fires on a child it has killed before, that child is dead by now. */
  ghost predicate DiesOnceKilled(zs: seq<Zygote>, es: seq<Event>, c: nat)
    requires |zs| == |es| + 1
  {
    forall k | 0 <= k < |es| && es[k] == Timer(c) && c < |zs[k].chains| && zs[k].chains[c].sentSigkill ::
      zs[k].chains[c].pid in zs[k].procs ==> zs[k].procs[zs[k].chains[c].pid].Zombie?
  }

  /** A step other than chain c's own firings collects pid. */
  predicate Competes(z: Zygote, e: Event, c: nat, pid: int) {
    e != Timer(c) && Collects(z, e, pid)
  }

  function Firings(es: seq<Event>, c: nat, i: nat, j: nat): nat
    requires i <= j <= |es|
  {
    if i == j then 0 else Firings(es, c, i, j - 1) + if es[j - 1] == Timer(c) then 1 else 0
  }

  /** At each firing of chain c in [i, j) there is a child to be waited for. */
  ghost predicate ChildPresent(zs: seq<Zygote>, es: seq<Event>, c: nat, i: nat, j: nat)
    requires |zs| == |es| + 1 && j <= |es|
  {
    forall k | i <= k < j && es[k] == Timer(c) && c < |zs[k].chains| :: zs[k].chains[c].pid in zs[k].procs
  }

  /** Such a chain fires at most twice. */
  lemma {:induction false} ChainStops(zs: seq<Zygote>, es: seq<Event>, c: nat, i: nat, j: nat)
    requires IsRun(zs, es) && i <= j < |zs| && c < |zs[i].chains|
    requires DiesOnceKilled(zs, es, c) && ChildPresent(zs, es, c, i, j)
    ensures c < |zs[j].chains|
    ensures Firings(es, c, i, j) + ChainMeasure(zs[j].chains[c]) <= ChainMeasure(zs[i].chains[c])
    decreases j
  {
    if i < j {
      ChainStops(zs, es, c, i, j - 1);
      assert Step(zs[j - 1], es[j - 1], zs[j]);
    }
  }

  /** The child is present for as long as nobody else waits for it. */
  lemma {:induction false} PresentUnlessCollected(zs: seq<Zygote>, es: seq<Event>, c: nat, i: nat, j: nat)
    requires IsRun(zs, es) && i <= j < |zs| && c < |zs[i].chains|
    requires zs[i].chains[c].active ==> zs[i].chains[c].pid in zs[i].procs
    requires forall k | i <= k < j :: !Competes(zs[k], es[k], c, zs[i].chains[c].pid)
    ensures c < |zs[j].chains| && zs[j].chains[c].pid == zs[i].chains[c].pid
    ensures zs[j].chains[c].active ==> zs[j].chains[c].pid in zs[j].procs
    ensures ChildPresent(zs, es, c, i, j)
    decreases j
  {
    if i < j {
      PresentUnlessCollected(zs, es, c, i, j - 1);
      assert Step(zs[j - 1], es[j - 1], zs[j]);
      assert !Competes(zs[j - 1], es[j - 1], c, zs[i].chains[c].pid);
    }
  }

  /** A chain whose child was waited for by someone else never ends while the pid stays unused. */
  lemma {:induction false} OrphanedChainNeverStops(zs: seq<Zygote>, es: seq<Event>, c: nat, i: nat, j: nat)
    requires IsRun(zs, es) && i <= j < |zs| && c < |zs[i].chains|
    requires zs[i].chains[c].active && zs[i].chains[c].pid !in zs[i].procs
    requires forall k | i <= k < j :: es[k].Fork? ==> es[k].pid != zs[i].chains[c].pid
    ensures c < |zs[j].chains| && zs[j].chains[c].active
    ensures zs[j].chains[c].pid == zs[i].chains[c].pid && zs[j].chains[c].pid !in zs[j].procs
    decreases j
  {
    if i < j {
      OrphanedChainNeverStops(zs, es, c, i, j - 1);
      assert Step(zs[j - 1], es[j - 1], zs[j]);
    }
  }

  /** After two firings a chain has ended if and only if nobody else waited for its child. */
  lemma ChainEndsIff(zs: seq<Zygote>, es: seq<Event>, c: nat, i: nat, j: nat)
    requires IsRun(zs, es) && i <= j < |zs| && c < |zs[i].chains| && DiesOnceKilled(zs, es, c)
    requires zs[i].chains[c].active && !zs[i].chains[c].sentSigkill && zs[i].chains[c].pid in zs[i].procs
    requires forall k | i <= k < j :: es[k].Fork? ==> es[k].pid != zs[i].chains[c].pid
    requires Firings(es, c, i, j) >= 2
    ensures c < |zs[j].chains|
    ensures !zs[j].chains[c].active <==>
            forall k | i <= k < j :: !Competes(zs[k], es[k], c, zs[i].chains[c].pid)
  {
    var pid := zs[i].chains[c].pid;
    if k :| i <= k < j && Competes(zs[k], es[k], c, pid) {
      CollectedByOther(zs, es, c, i, k);
      ChainPersists(zs, es, i, k + 1, c);
      OrphanedChainNeverStops(zs, es, c, k + 1, j);
    } else {
      PresentUnlessCollected(zs, es, c, i, j);
      ChainStops(zs, es, c, i, j);
    }
  }

  /** When someone else collects the child of an active chain, the chain is still active. */
  lemma CollectedByOther(zs: seq<Zygote>, es: seq<Event>, c: nat, i: nat, k: nat)
    requires IsRun(zs, es) && i <= k < |es| && c < |zs[i].chains| && zs[i].chains[c].active
    requires forall m | i <= m < k :: es[m].Fork? ==> es[m].pid != zs[i].chains[c].pid
    requires Competes(zs[k], es[k], c, zs[i].chains[c].pid)
    ensures c < |zs[k + 1].chains| && zs[k + 1].chains[c].active
    ensures zs[i].chains[c].pid !in zs[k + 1].procs
  {
    ChainActiveOrCollected(zs, es, c, i, k);
    assert Step(zs[k], es[k], zs[k + 1]);
  }

  /** While its pid is not forked again, a chain that ended has collected its child. */
  lemma {:induction false} ChainActiveOrCollected(zs: seq<Zygote>, es: seq<Event>, c: nat, i: nat, k: nat)
    requires IsRun(zs, es) && i <= k < |zs| && c < |zs[i].chains| && zs[i].chains[c].active
    requires forall m | i <= m < k :: es[m].Fork? ==> es[m].pid != zs[i].chains[c].pid
    ensures c < |zs[k].chains| && zs[k].chains[c].pid == zs[i].chains[c].pid
    ensures zs[k].chains[c].active || zs[i].chains[c].pid !in zs[k].procs
    decreases k
  {
    if i < k {
      ChainActiveOrCollected(zs, es, c, i, k - 1);
      assert Step(zs[k - 1], es[k - 1], zs[k]);
    }
  }

  /** A run that orphans a chain: the host asks for the status of a dead child it wants reaped. */
  lemma StatusRequestOrphansChain() returns (zs: seq<Zygote>, es: seq<Event>)
    ensures IsRun(zs, es)
    ensures es == [Fork(7, true), ReapRequest(7), Death(7, 0), StatusRequest(7, false, 0)]
    ensures Competes(zs[3], es[3], 0, 7)
    ensures zs[4].chains == [Chain(7, false, true, 0)] && 7 !in zs[4].procs
  {
    es := [Fork(7, true), ReapRequest(7), Death(7, 0), StatusRequest(7, false, 0)];
    var z1 := Do(NO_CHILDREN, es[0]);
    var z2 := Do(z1, es[1]);
    var z3 := Do(z2, es[2]);
    var z4 := Do(z3, es[3]);
    zs := [NO_CHILDREN, z1, z2, z3, z4];
  }

  // ---------------------------------------------------------------- whom a chain kills

  /** When the child that now has, or last had, this pid was forked. */
  function Born(es: seq<Event>, pid: int, n: nat): Option<nat>
    requires n <= |es|
  {
    if n == 0 then None
    else if es[n - 1].Fork? && es[n - 1].pid == pid then Some(n - 1)
    else Born(es, pid, n - 1)
  }

  /** Firing chain c now sends SIGKILL to a live child. */
  predicate KillsChild(z: Zygote, c: nat) {
    && c < |z.chains|
    && z.chains[c].active && !z.chains[c].sentSigkill
    && TryWait(z.procs, z.chains[c].pid).NotYet?
  }

  /** A pid still in use is another child's than before exactly when it had been, or was, collected. */
  lemma {:induction false} RebornIff(zs: seq<Zygote>, es: seq<Event>, pid: int, i: nat, k: nat)
    requires IsRun(zs, es) && i <= k <= |es|
    ensures pid in zs[k].procs ==>
              (Born(es, pid, k) != Born(es, pid, i) <==>
               pid !in zs[i].procs || exists m :: i <= m < k && Collects(zs[m], es[m], pid))
    ensures pid in zs[i].procs && (forall m | i <= m < k :: !Collects(zs[m], es[m], pid)) ==>
              pid in zs[k].procs
    ensures Born(es, pid, k).Some? && Born(es, pid, k) != Born(es, pid, i) ==> Born(es, pid, k).value >= i
    decreases k
  {
    if i < k {
      RebornIff(zs, es, pid, i, k - 1);
      assert Step(zs[k - 1], es[k - 1], zs[k]);
      BornBefore(es, pid, i);
    }
  }

  lemma {:induction false} BornBefore(es: seq<Event>, pid: int, n: nat)
    requires n <= |es|
    ensures Born(es, pid, n).Some? ==> Born(es, pid, n).value < n
  {
    if n > 0 {
      BornBefore(es, pid, n - 1);
    }
  }

  /** The SIGKILL of a reap chain strikes another child than the one its request named if and only if
      that one was collected before the firing (its pid has then been forked again). */
  lemma KillsOtherChildIff(zs: seq<Zygote>, es: seq<Event>, i: nat, k: nat, pid: int)
    requires IsRun(zs, es) && i < k < |es|
    requires es[i] == ReapRequest(pid) && pid in zs[i].children
    requires es[k] == Timer(|zs[i].chains|) && KillsChild(zs[k], |zs[i].chains|)
    ensures zs[k].chains[|zs[i].chains|].pid == pid
    ensures Born(es, pid, k) != Born(es, pid, i) <==>
            pid !in zs[i].procs || exists m :: i <= m < k && Collects(zs[m], es[m], pid)
  {
    assert Step(zs[i], es[i], zs[i + 1]);
    ChainPersists(zs, es, i + 1, k, |zs[i].chains|);
    RebornIff(zs, es, pid, i, k);
  }

  /** It does happen: the chain requested for the first child 7 kills the second one. */
  lemma ChainKillsSuccessor() returns (zs: seq<Zygote>, es: seq<Event>)
    ensures IsRun(zs, es)
    ensures es == [Fork(7, true), ReapRequest(7), Death(7, 0), StatusRequest(7, false, 0), Fork(7, true), Timer(0)]
    ensures KillsChild(zs[5], 0) && Born(es, 7, 5) == Some(4) && Born(es, 7, 1) == Some(0)
    ensures zs[6].chains[0].kills == 1
  {
    var before, events := StatusRequestOrphansChain();
    es := events + [Fork(7, true), Timer(0)];
    var z5 := Do(before[4], es[4]);
    var z6 := Do(z5, es[5]);
    zs := before + [z5, z6];
    assert Born(es, 7, 1) == Some(0);
  }
}

/** The zygote as the object its command handlers update; `procs` is the kernel's side. */
module ZygoteObject {
  import opened ZygoteState

  class MimicZygoteRunner {
    var children: set<int>
    var procs: map<int, Proc>
    var chains: seq<Chain>

    function Contents(): Zygote
      reads this
    {
      Zygote(children, procs, chains)
    }

    constructor ()
      ensures Contents() == Zygote({}, map[], [])
    {
      children, procs, chains := {}, map[], [];
    }

    method WaitPid(pid: int) returns (waited: Waited)
      modifies this`procs
      ensures waited == old(TryWait(procs, pid))
      ensures procs == if waited.Status? then old(procs) - {pid} else old(procs)
    {
      if pid !in procs {
        return NoChild;
      }
      match procs[pid] {
        case Alive => waited := NotYet;
        case Zombie(w) =>
          waited := Status(w);
          procs := procs - {pid};
      }
    }

    method HandleTerminationStatusRequest(pid: int, knownDead: bool, word: nat) returns (report: Report)
      modifies this`children, this`procs
      ensures report == old(StatusReport(Contents(), pid, knownDead, word))
      ensures Contents() == AfterStatus(old(Contents()), pid, knownDead, word)
      ensures knownDead ==> !report.status.Running?
    {
      report := Report(Normal, 0);
      if pid !in children {
        return;
      }
      if knownDead && pid in procs && procs[pid].Alive? {
        procs := procs[pid := Zombie(word)];
      }
      var waited := WaitPid(pid);
      match waited {
        case NoChild =>
        case NotYet => report := Report(Running, 0);
        case Status(w) =>
          report := if IfSignaled(w) then Report(StatusForSignal(TermSig(w)), w) else Report(Normal, w);
          if IfExited(w) && ExitCode(w) != 0 {
            if ExitCode(w) > 128 {
              var signal := ExitCode(w) - 128;
              report := Report(StatusForSignal(signal), StopCode(signal));
            } else {
              report := Report(Abnormal, w);
            }
          }
      }
      if !report.status.Running? {
        children := children - {pid};
        assert waited.NoChild? ==> old(procs) - {pid} == old(procs);
        assert knownDead && waited.Status? ==> procs == old(procs) - {pid};
      }
    }

    method HandleReap(pid: int)
      modifies this`chains
      ensures Contents() == AfterReap(old(Contents()), pid)
    {
      if pid in children {
        chains := chains + [Chain(pid, false, true, 0)];
      }
    }

    /** One firing of a reap timer. */
    method TimerFires(i: nat)
      requires i < |chains|
      modifies this`chains, this`procs
      ensures Contents() == AfterTimer(old(Contents()), i)
    {
      var c := chains[i];
      var waited := WaitPid(c.pid);
      if waited.Status? {
        chains := chains[i := c.(active := false)];
        return;
      }
      if !c.sentSigkill {
        c := c.(kills := c.kills + 1);
      }
      chains := chains[i := c.(sentSigkill := true)];
    }

    method TrackFork(pid: int, hostKnows: bool)
      requires pid !in procs
      modifies this`children, this`procs
      ensures Contents() == AfterFork(old(Contents()), pid, hostKnows)
    {
      procs := procs[pid := Alive];
      if !hostKnows {
        procs := procs[pid := Zombie(SIGKILL)];
        var waited := WaitPid(pid);
      }
      children := children + {pid};
    }
  }
}
