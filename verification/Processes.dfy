/** The process table of a keepalive host, seen through `/proc` and pidfds, and the worker
    provider that starts, checks and stops workers against it one system call at a time.  Between
    any two calls every other process may run, exit, be reaped and have its PID reused, and the
    helper itself may be killed. */
module Processes {
  import opened Text
  import opened Execution

  const WORKER_MARKER := "serverpilot-keepalive-worker-v3"

  /** A zombie has exited but still owns its PID. */
  datatype Phase = Live | Zombie | Gone

  datatype Instance = Instance(boot: string, pid: int, ticks: int, marked: bool, phase: Phase)

  /** The current boot and every process instance that ever ran, oldest first. */
  datatype Table = Table(boot: string, procs: seq<Instance>)

  /** `KeepaliveProcessIdentity`. */
  datatype Identity = Identity(pid: int, boot: string, ticks: int, marker: string)

  datatype Signal = SigTerm | SigKill

  datatype Delivery = Delivery(target: nat, signal: Signal)

  datatype PidfdResult = Pidfd(target: nat) | NoSuchProcess

  datatype SendOutcome = Found | NotFound | SendFailed

  /** One pidfd call of the helper and what came of it. */
  datatype PidfdCall =
    | Opened(result: PidfdResult)
    | OpenFailed
    | Sent(fd: nat, signal: Signal, outcome: SendOutcome)
    | Waited(fd: nat, exited: bool)

  predicate Named(p: Instance, id: Identity) {
    p.boot == id.boot && p.pid == id.pid && p.ticks == id.ticks
  }

  predicate SameName(p: Instance, q: Instance) {
    p.boot == q.boot && p.pid == q.pid && p.ticks == q.ticks
  }

  /** (boot, pid, start ticks) names one instance; a PID belongs to one existing process; what
      exists belongs to the current boot.  Boot and start identities are well formed. */
  predicate ValidTable(t: Table) {
    && 0 < |t.boot| <= 128 && (forall i :: 0 <= i < |t.procs| ==> t.procs[i].ticks > 0)
    && (forall i, j :: 0 <= i < j < |t.procs| ==> !SameName(t.procs[i], t.procs[j]))
    && (forall i, j :: 0 <= i < j < |t.procs| && !t.procs[i].phase.Gone? && !t.procs[j].phase.Gone? ==>
          t.procs[i].pid != t.procs[j].pid)
    && (forall i :: 0 <= i < |t.procs| && !t.procs[i].phase.Gone? ==> t.procs[i].boot == t.boot)
  }

  predicate Later(p: Instance, q: Instance) {
    && SameName(p, q) && q.marked == p.marked
    && (p.phase.Zombie? ==> !q.phase.Live?)
    && (p.phase.Gone? ==> q.phase.Gone?)
  }

  /** What other processes, and a reboot, can do to the table. */
  predicate Evolves(a: Table, b: Table) {
    |a.procs| <= |b.procs| && forall i :: 0 <= i < |a.procs| ==> Later(a.procs[i], b.procs[i])
  }

  predicate LiveAt(t: Table, id: Identity, i: int) {
    0 <= i < |t.procs| && Named(t.procs[i], id) && t.procs[i].marked && t.procs[i].phase.Live?
  }

  /** The worker this identity names is running. */
  predicate Alive(t: Table, id: Identity) {
    exists i :: 0 <= i < |t.procs| && LiveAt(t, id, i)
  }

  predicate KnownAt(t: Table, id: Identity, i: int) {
    0 <= i < |t.procs| && Named(t.procs[i], id)
  }

  /** This process is named by the identity and was started as a worker. */
  predicate WorkerAt(t: Table, id: Identity, i: int) {
    KnownAt(t, id, i) && t.procs[i].marked
  }

  /** The identity was taken from a process that has existed. */
  predicate Known(t: Table, id: Identity) {
    exists i :: 0 <= i < |t.procs| && KnownAt(t, id, i)
  }

  lemma EvolvesReflexive(t: Table)
    ensures Evolves(t, t)
  {
  }

  lemma EvolvesTransitive(a: Table, b: Table, c: Table)
    requires Evolves(a, b) && Evolves(b, c)
    ensures Evolves(a, c)
  {
    forall i | 0 <= i < |a.procs| ensures Later(a.procs[i], c.procs[i]) {
      assert Later(a.procs[i], b.procs[i]) && Later(b.procs[i], c.procs[i]);
    }
  }

  /** The name of a process that has existed is never given to another: once that worker is dead
      the identity stays dead, through PID reuse and reboots. */
  lemma DeadStaysDead(a: Table, b: Table, id: Identity)
    requires ValidTable(b) && Evolves(a, b) && Known(a, id)
    ensures Known(b, id)
    ensures Alive(b, id) ==> Alive(a, id)
  {
    var i :| 0 <= i < |a.procs| && KnownAt(a, id, i);
    assert Later(a.procs[i], b.procs[i]);
    assert KnownAt(b, id, i);
    if Alive(b, id) {
      var k :| 0 <= k < |b.procs| && LiveAt(b, id, k);
      assert SameName(b.procs[i], b.procs[k]);
      assert i == k;
      assert LiveAt(a, id, i);
    }
  }

  /** The existing process with this PID, if any. */
  function HolderFrom(t: Table, pid: int, i: nat): (h: Option<nat>)
    requires i <= |t.procs|
    ensures h.Some? ==> i <= h.value < |t.procs| && t.procs[h.value].pid == pid && !t.procs[h.value].phase.Gone?
    ensures h.None? ==> forall k :: i <= k < |t.procs| && t.procs[k].pid == pid ==> t.procs[k].phase.Gone?
    decreases |t.procs| - i
  {
    if i == |t.procs| then None
    else if t.procs[i].pid == pid && !t.procs[i].phase.Gone? then Some(i)
    else HolderFrom(t, pid, i + 1)
  }

  function Holder(t: Table, pid: int): (h: Option<nat>)
    ensures h.Some? ==> h.value < |t.procs| && t.procs[h.value].pid == pid && !t.procs[h.value].phase.Gone?
    ensures h.None? ==> forall k :: 0 <= k < |t.procs| && t.procs[k].pid == pid ==> t.procs[k].phase.Gone?
  {
    HolderFrom(t, pid, 0)
  }

  class Kernel {
    var table: Table
    var delivered: seq<Delivery>      // signals that found their process
    ghost var calls: seq<PidfdCall>   // every pidfd call, in order
    ghost var kills: nat              // how often the helper itself has been killed
    ghost var startFaults: nat        // failed ordinal lookups, spawns and waits for readiness
    ghost var spawned: seq<nat>       // the children, in order
    ghost var devices: seq<string>    // the CUDA ordinal each child was started with
    ghost var ready: seq<nat>         // the children whose READY was read
    const ordinals: map<string, string>  // the CUDA ordinal of each GPU

    ghost predicate Valid()
      reads this
    {
      ValidTable(table)
    }

    /** Anything the rest of the host may do before the helper's next call, and perhaps the
        helper's own death; the helper never outlives a reboot. */
    method Interfere() returns (killed: bool)
      requires Valid()
      modifies this`table, this`kills
      ensures Valid() && Evolves(old(table), table)
      ensures !killed ==> table.boot == old(table.boot)
      ensures kills == old(kills) + if killed then 1 else 0
    {
      killed := *;
      var next: Table := *;
      if ValidTable(next) && Evolves(table, next) && (killed || next.boot == table.boot) {
        table := next;
      }
      kills := kills + if killed then 1 else 0;
    }

    method ReadBoot() returns (r: Exec<string>)
      requires Valid()
      modifies this`table, this`kills
      ensures Valid() && Evolves(old(table), table)
      ensures kills == old(kills) + if r.Killed? then 1 else 0
      ensures !r.Killed? ==> table.boot == old(table.boot)
      ensures !r.Raised? && (r.Returned? ==> r.value == table.boot)
    {
      var killed := Interfere();
      r := if killed then Killed else Returned(table.boot);
    }

    /** `/proc/PID/stat` exists for running processes and for zombies. */
    method ReadTicks(pid: int) returns (r: Exec<int>)
      requires Valid()
      modifies this`table, this`kills
      ensures Valid() && Evolves(old(table), table)
      ensures kills == old(kills) + if r.Killed? then 1 else 0
      ensures !r.Killed? ==> table.boot == old(table.boot)
      ensures r.Raised? ==> Holder(table, pid).None?
      ensures r.Returned? ==> Holder(table, pid).Some? && r.value == table.procs[Holder(table, pid).value].ticks
    {
      var killed := Interfere();
      var h := Holder(table, pid);
      r := if killed then Killed else if h.None? then Raised(WorkerFailure) else Returned(table.procs[h.value].ticks);
    }

    /** `/proc/PID/cmdline` is empty for a zombie; the answer is whether it carries the marker. */
    method ReadMarked(pid: int) returns (r: Exec<bool>)
      requires Valid()
      modifies this`table, this`kills
      ensures Valid() && Evolves(old(table), table)
      ensures kills == old(kills) + if r.Killed? then 1 else 0
      ensures !r.Killed? ==> table.boot == old(table.boot)
      ensures r.Raised? ==> Holder(table, pid).None? || table.procs[Holder(table, pid).value].phase.Zombie?
      ensures r.Returned? ==> Holder(table, pid).Some? && r.value == table.procs[Holder(table, pid).value].marked
      ensures r.Returned? ==> table.procs[Holder(table, pid).value].phase.Live?
    {
      var killed := Interfere();
      var h := Holder(table, pid);
      r := if killed then Killed
           else if h.None? || !table.procs[h.value].phase.Live? then Raised(WorkerFailure)
           else Returned(table.procs[h.value].marked);
    }

    /** `ESRCH` is a result of its own; any other failure raises. */
    method PidfdOpen(pid: int) returns (r: Exec<PidfdResult>)
      requires Valid()
      modifies this`table, this`kills, this`calls
      ensures Valid() && Evolves(old(table), table)
      ensures kills == old(kills) + if r.Killed? then 1 else 0
      ensures calls == old(calls) + match r {
        case Killed => []
        case Raised(_) => [OpenFailed]
        case Returned(result) => [Opened(result)]
      }
      ensures r.Raised? ==> r.cause == WorkerFailure
      ensures !r.Killed? ==> table.boot == old(table.boot)
      ensures r == Returned(NoSuchProcess) ==> Holder(table, pid).None?
      ensures r.Returned? && r.value.Pidfd? ==> Holder(table, pid) == Some(r.value.target)
    {
      var killed := Interfere();
      var failed: bool := *;
      var h := Holder(table, pid);
      r := if killed then Killed else if failed then Raised(WorkerFailure)
           else Returned(if h.Some? then Pidfd(h.value) else NoSuchProcess);
      calls := calls + if killed then [] else if failed then [OpenFailed] else [Opened(r.value)];
    }

    /** Signals the pinned process, or reports `ESRCH` (false) once it is reaped. */
    method PidfdSend(fd: nat, signal: Signal) returns (r: Exec<bool>)
      requires Valid() && fd < |table.procs|
      modifies this`table, this`kills, this`calls, this`delivered
      ensures Valid() && Evolves(old(table), table)
      ensures kills == old(kills) + if r.Killed? then 1 else 0
      ensures calls == old(calls) + match r {
        case Killed => []
        case Raised(_) => [Sent(fd, signal, SendFailed)]
        case Returned(found) => [Sent(fd, signal, if found then Found else NotFound)]
      }
      ensures r.Raised? ==> r.cause == WorkerFailure
      ensures !r.Killed? ==> table.boot == old(table.boot)
      ensures r == Returned(false) ==> table.procs[fd].phase.Gone?
      ensures delivered == old(delivered) + if r == Returned(true) then [Delivery(fd, signal)] else []
    {
      var killed := Interfere();
      var failed: bool := *;
      if killed {
        return Killed;
      } else if failed {
        calls := calls + [Sent(fd, signal, SendFailed)];
        return Raised(WorkerFailure);
      }
      r := Returned(!table.procs[fd].phase.Gone?);
      calls := calls + [Sent(fd, signal, if r.value then Found else NotFound)];
      if r.value {
        delivered := delivered + [Delivery(fd, signal)];
      }
    }

    /** `select` on a pidfd: readable once the process has exited. */
    method PidfdWait(fd: nat) returns (r: Exec<bool>)
      requires Valid() && fd < |table.procs|
      modifies this`table, this`kills, this`calls
      ensures Valid() && Evolves(old(table), table)
      ensures kills == old(kills) + if r.Killed? then 1 else 0
      ensures !r.Raised?
      ensures calls == old(calls) + if r.Returned? then [Waited(fd, r.value)] else []
      ensures !r.Killed? ==> table.boot == old(table.boot)
      ensures r.Returned? ==> r.value == !table.procs[fd].phase.Live?
    {
      var killed := Interfere();
      r := if killed then Killed else Returned(!table.procs[fd].phase.Live?);
      calls := calls + if killed then [] else [Waited(fd, r.value)];
    }

    /** Finding the CUDA ordinal of a GPU: it may fail. */
    method ResolveOrdinal(gpuUuid: string) returns (r: Exec<string>)
      requires Valid()
      modifies this`table, this`kills, this`startFaults
      ensures Valid() && Evolves(old(table), table)
      ensures kills == old(kills) + if r.Killed? then 1 else 0
      ensures startFaults == old(startFaults) + if r.Raised? then 1 else 0
      ensures !r.Killed? ==> table.boot == old(table.boot)
      ensures r.Returned? ==> gpuUuid in ordinals && r.value == ordinals[gpuUuid]
    {
      var killed := Interfere();
      var failed: bool := *;
      r := if killed then Killed else if failed || gpuUuid !in ordinals then Raised(WorkerFailure)
           else Returned(ordinals[gpuUuid]);
      startFaults := startFaults + if r.Raised? then 1 else 0;
    }

    /** `Popen`: a new instance under a free PID with a fresh name; it may fail. */
    method Spawn(device: string) returns (r: Exec<nat>)
      requires Valid()
      modifies this`table, this`kills, this`startFaults, this`spawned, this`devices
      ensures Valid() && Evolves(old(table), table)
      ensures kills == old(kills) + if r.Killed? then 1 else 0
      ensures startFaults == old(startFaults) + if r.Raised? then 1 else 0
      ensures spawned == old(spawned) + if r.Returned? then [r.value] else []
      ensures devices == old(devices) + if r.Returned? then [device] else []
      ensures !r.Killed? ==> table.boot == old(table.boot)
      ensures r.Returned? ==> |old(table).procs| <= r.value < |table.procs|
      ensures r.Returned? ==> var child := table.procs[r.value]; child.phase.Live? && child.marked && child.pid > 0
    {
      var killed := Interfere();
      if killed {
        return Killed;
      }
      var pid: int, ticks: int := *, *;
      var child := Instance(table.boot, pid, ticks, true, Live);
      if pid > 0 && ticks > 0 && Holder(table, pid).None?
        && forall i :: 0 <= i < |table.procs| ==> !SameName(table.procs[i], child)
      {
        r := Returned(|table.procs|);
        table := table.(procs := table.procs + [child]);
        spawned, devices := spawned + [r.value], devices + [device];
      } else {
        startFaults := startFaults + 1;
        r := Raised(WorkerFailure);
      }
    }

    /** The wait for the child's READY: it may time out or read an error. */
    method AwaitReady(child: nat) returns (r: Exec<()>)
      requires Valid()
      modifies this`table, this`kills, this`startFaults, this`ready
      ensures Valid() && Evolves(old(table), table)
      ensures kills == old(kills) + if r.Killed? then 1 else 0
      ensures startFaults == old(startFaults) + if r.Raised? then 1 else 0
      ensures ready == old(ready) + if r.Returned? then [child] else []
      ensures !r.Killed? ==> table.boot == old(table.boot)
    {
      var killed := Interfere();
      var failed: bool := *;
      r := if killed then Killed else if failed then Raised(WorkerFailure) else Returned(());
      startFaults := startFaults + if r.Raised? then 1 else 0;
      ready := ready + if r.Returned? then [child] else [];
    }
  }

  // ----- what `stop` does through a pidfd -----

  /** How far the stopping of one pinned process has got. */
  datatype Stage = Unsent | Termed | Outlived | Killing | Exited | Stuck | Unsafe

  /** SIGTERM first; a wait after a signal that found its process; SIGKILL after a wait the process outlived. Any
    * other order of calls has no next stage. */
  function NextStage(stage: Stage, call: PidfdCall, fd: nat): Option<Stage> {
    match (stage, call)
    case (Unsent, Sent(f, SigTerm, outcome)) => if f == fd then Some(AfterSend(outcome, Termed)) else None
    case (Termed, Waited(f, exited)) => if f == fd then Some(if exited then Exited else Outlived) else None
    case (Outlived, Sent(f, SigKill, outcome)) => if f == fd then Some(AfterSend(outcome, Killing)) else None
    case (Killing, Waited(f, exited)) => if f == fd then Some(if exited then Exited else Stuck) else None
    case _ => None
  }

  function AfterSend(outcome: SendOutcome, found: Stage): Stage {
    match outcome
    case Found => found
    case NotFound => Exited
    case SendFailed => Unsafe
  }

  function StageAfter(calls: seq<PidfdCall>, fd: nat): Option<Stage> {
    if calls == [] then Some(Unsent)
    else
      match StageAfter(calls[..|calls| - 1], fd)
      case None => None
      case Some(stage) => NextStage(stage, calls[|calls| - 1], fd)
  }

  /** The calls follow the protocol, and the call of `stop` ended where the protocol ends: normally once the
    * process had exited, with an exception only for a failed signal or a process that outlived SIGKILL. */
  ghost predicate StoppedBy(calls: seq<PidfdCall>, fd: nat, r: Exec<()>) {
    StageAfter(calls, fd).Some? && match r {
      case Returned(_) => StageAfter(calls, fd) == Some(Exited)
      case Raised(_) => StageAfter(calls, fd) in {Some(Unsafe), Some(Stuck)}
      case Killed => StageAfter(calls, fd).value in {Unsent, Termed, Outlived, Killing}
    }
  }

  /** The calls of one `stop`: none for a worker that does not run, the opening, and the protocol on what was opened. */
  ghost predicate StopCalls(calls: seq<PidfdCall>, r: Exec<()>) {
    if calls == [] then !r.Raised?
    else
      match calls[0]
      case OpenFailed => |calls| == 1 && r.Raised?
      case Opened(NoSuchProcess) => |calls| == 1 && r.Returned?
      case Opened(Pidfd(fd)) => (|calls| == 1 && !r.Raised?) || StoppedBy(calls[1..], fd, r)
      case _ => false
  }

  /** The last call is a failed one. */
  predicate LastCallFailed(calls: seq<PidfdCall>) {
    calls != []
    && (calls[|calls| - 1].OpenFailed? || (calls[|calls| - 1].Sent? && calls[|calls| - 1].outcome.SendFailed?))
  }

  /** The last call is a failed one, or the second wait for a process that outlived SIGKILL. */
  predicate LastFails(calls: seq<PidfdCall>) {
    calls != []
    && (LastCallFailed(calls)
        || (|calls| > 1 && calls[|calls| - 1].Waited? && !calls[|calls| - 1].exited
            && calls[|calls| - 2] == Sent(calls[|calls| - 1].fd, SigKill, Found)))
  }

  lemma OneMoreCall(calls: seq<PidfdCall>, call: PidfdCall, fd: nat)
    ensures StageAfter(calls + [call], fd)
      == match StageAfter(calls, fd) { case None => None case Some(stage) => NextStage(stage, call, fd) }
  {
    assert (calls + [call])[..|calls|] == calls;
  }

  /** The signals that found their process. */
  function DeliveredIn(calls: seq<PidfdCall>): seq<Delivery> {
    if calls == [] then []
    else
      var c := calls[|calls| - 1];
      DeliveredIn(calls[..|calls| - 1]) + if c.Sent? && c.outcome.Found? then [Delivery(c.fd, c.signal)] else []
  }

  /** Which signals each stage has delivered: a process that is stuck got both, and none is waited for unsignalled. */
  lemma {:induction false} StageDelivers(calls: seq<PidfdCall>, fd: nat)
    requires StageAfter(calls, fd).Some?
    ensures var sent, stage := DeliveredIn(calls), StageAfter(calls, fd).value;
      && sent <= [Delivery(fd, SigTerm), Delivery(fd, SigKill)]
      && (stage.Unsent? ==> calls == [] && sent == [])
      && (stage.Termed? || stage.Outlived? ==> sent == [Delivery(fd, SigTerm)])
      && (stage.Killing? || stage.Stuck? ==> sent == [Delivery(fd, SigTerm), Delivery(fd, SigKill)])
      && (calls != [] ==> calls[0].Sent? && calls[0].fd == fd && calls[0].signal == SigTerm)
  {
    if calls != [] {
      var front := calls[..|calls| - 1];
      StageDelivers(front, fd);
      assert DeliveredIn(front) + [] == DeliveredIn(front);
      if |calls| > 1 {
        assert front[0] == calls[0];
      }
    }
  }

  /** What one call of `stop` may have delivered: SIGTERM, then SIGKILL, to the named worker. */
  ghost predicate SignalsWorkerOnly(t: Table, id: Identity, sent: seq<Delivery>) {
    sent == [] || exists w: nat :: WorkerAt(t, id, w) && sent <= [Delivery(w, SigTerm), Delivery(w, SigKill)]
  }

  predicate WellFormed(id: Identity) {
    id.pid > 0 && id.marker == WORKER_MARKER
  }

  /** No marked process runs under this PID. */
  predicate Unmarked(t: Table, pid: int) {
    var h := Holder(t, pid);
    h.None? || !t.procs[h.value].phase.Live? || !t.procs[h.value].marked
  }

  /** At some moment between the two the PID belonged to the named process. */
  ghost predicate HeldDuring(before: Table, seen: Table, after: Table, id: Identity) {
    ValidTable(seen) && Evolves(before, seen) && Evolves(seen, after)
    && Holder(seen, id.pid).Some? && Named(seen.procs[Holder(seen, id.pid).value], id)
  }

  function Last(children: seq<nat>): nat
    requires children != []
  {
    children[|children| - 1]
  }

  /** One of these children has exited. */
  ghost predicate SomeChildExited(t: Table, children: seq<nat>) {
    exists c :: c in children && c < |t.procs| && !t.procs[c].phase.Live?
  }

  lemma ExitedEvolves(a: Table, b: Table, children: seq<nat>, more: seq<nat>)
    requires SomeChildExited(a, children) && Evolves(a, b) && forall c :: c in children ==> c in more
    ensures SomeChildExited(b, more)
  {
    var c :| c in children && c < |a.procs| && !a.procs[c].phase.Live?;
    assert Later(a.procs[c], b.procs[c]) && c in more;
  }

  /** What makes a start raise: a failed lookup, spawn or wait for readiness, or a child that exited. */
  ghost predicate StartsFaulted(t: Table, faults: int, children: seq<nat>) {
    faults > 0 || SomeChildExited(t, children)
  }

  lemma FaultedEvolves(a: Table, b: Table, faults: int, moreFaults: int, children: seq<nat>, more: seq<nat>)
    requires StartsFaulted(a, faults, children) && Evolves(a, b) && faults <= moreFaults
    requires forall c :: c in children ==> c in more
    ensures StartsFaulted(b, moreFaults, more)
  {
    if SomeChildExited(a, children) {
      ExitedEvolves(a, b, children, more);
    }
  }

  /** A check said the worker runs: some time during the check it still owned its PID. */
  ghost predicate SeenRunning(before: Table, after: Table, id: Identity, w: int) {
    KnownAt(after, id, w) && (w < |before.procs| ==> !before.procs[w].phase.Gone?)
  }

  /** Some time between the two the recorded process still owned its PID. */
  ghost predicate Seen(before: Table, after: Table, id: Identity) {
    exists w: nat :: SeenRunning(before, after, id, w)
  }

  class TorchSubprocessProvider {
    const kernel: Kernel
    var launched: seq<string>  // GPUs a worker process was spawned for
    var started: seq<(string, Identity)>  // starts that succeeded

    constructor (kernel: Kernel)
      ensures this.kernel == kernel && launched == [] && started == []
    {
      this.kernel := kernel;
      launched := [];
      started := [];
    }

    /** `_worker_process_matches`: three separate reads, any failure meaning no. */
    method IsRunning(id: Identity) returns (r: Exec<bool>)
      requires kernel.Valid()
      modifies kernel`table, kernel`kills
      ensures kernel.Valid() && Evolves(old(kernel.table), kernel.table)
      ensures kernel.kills == old(kernel.kills) + if r.Killed? then 1 else 0
      ensures !r.Killed? ==> kernel.table.boot == old(kernel.table.boot)
      ensures !r.Raised?
      ensures r == Returned(false) && WellFormed(id) ==> !Alive(kernel.table, id)
      ensures r == Returned(true) ==> WellFormed(id) && !Unmarked(kernel.table, id.pid)
      ensures r == Returned(true) ==> Seen(old(kernel.table), kernel.table, id)
    {
      if !WellFormed(id) {
        return Returned(false);
      }
      var boot :- kernel.ReadBoot();
      if boot != id.boot {
        return Returned(false);
      }
      ghost var t1 := kernel.table;
      var ticks := kernel.ReadTicks(id.pid);
      ghost var t2 := kernel.table;
      EvolvesTransitive(old(kernel.table), t1, t2);
      if ticks.Killed? {
        return Killed;
      }
      if ticks.Raised? || ticks.value != id.ticks {
        if Alive(t2, id) {
          NamedHolder(t2, id);
        }
        return Returned(false);
      }
      ghost var w := Holder(t2, id.pid).value;
      var marked := kernel.ReadMarked(id.pid);
      EvolvesTransitive(old(kernel.table), t2, kernel.table);
      if marked.Killed? {
        return Killed;
      }
      r := Returned(marked.Returned? && marked.value);
      if !r.value && Alive(kernel.table, id) {
        NamedHolder(kernel.table, id);
      }
      if r.value {
        SeenByTicks(old(kernel.table), t1, t2, kernel.table, id, w);
      }
    }

    /** A live named worker is what `/proc` shows under its PID. */
    static lemma NamedHolder(t: Table, id: Identity)
      requires ValidTable(t) && Alive(t, id)
      ensures Holder(t, id.pid).Some? && LiveAt(t, id, Holder(t, id.pid).value)
      ensures t.boot == id.boot
    {
      var i :| 0 <= i < |t.procs| && LiveAt(t, id, i);
      var h := Holder(t, id.pid);
      assert h.value == i;
    }

    /** Matching start ticks under a PID of the recorded boot are the recorded worker's own. */
    static lemma SeenByTicks(t0: Table, t1: Table, t2: Table, t3: Table, id: Identity, w: nat)
      requires ValidTable(t1) && ValidTable(t2) && ValidTable(t3)
      requires Evolves(t0, t1) && Evolves(t1, t2) && Evolves(t2, t3)
      requires t2.boot == id.boot
      requires w < |t2.procs| && !t2.procs[w].phase.Gone? && t2.procs[w].pid == id.pid && t2.procs[w].ticks == id.ticks
      ensures SeenRunning(t0, t3, id, w) && Seen(t0, t3, id)
    {
      EvolvesTransitive(t0, t1, t2);
      assert Later(t2.procs[w], t3.procs[w]);
      assert w < |t0.procs| ==> Later(t0.procs[w], t2.procs[w]);
      assert SeenRunning(t0, t3, id, w);
    }

    /** `stop`: every signal reaches the recorded worker or nothing, a normal return means that worker is dead, and
        it raises only when a pidfd call failed or the worker outlived both signals. */
    method Stop(id: Identity) returns (r: Exec<()>)
      requires kernel.Valid()
      modifies kernel`table, kernel`kills, kernel`calls, kernel`delivered
      ensures kernel.Valid() && Evolves(old(kernel.table), kernel.table)
      ensures kernel.kills == old(kernel.kills) + if r.Killed? then 1 else 0
      ensures r.Raised? ==> r.cause == WorkerFailure
      ensures !r.Killed? ==> kernel.table.boot == old(kernel.table.boot)
      ensures r.Returned? && WellFormed(id) ==> !Alive(kernel.table, id)
      ensures old(kernel.calls) <= kernel.calls && StopCalls(kernel.calls[|old(kernel.calls)|..], r)
      ensures r.Raised? ==> LastFails(kernel.calls) && |kernel.calls| > |old(kernel.calls)|
      ensures r.Raised? && !LastCallFailed(kernel.calls) ==>
                exists w: nat :: WorkerAt(kernel.table, id, w)
                                 && kernel.delivered == old(kernel.delivered) + [Delivery(w, SigTerm), Delivery(w, SigKill)]
      ensures old(kernel.delivered) <= kernel.delivered
      ensures SignalsWorkerOnly(kernel.table, id, kernel.delivered[|old(kernel.delivered)|..])
    {
      hide ValidTable, Evolves, Alive, StoppedBy, LastFails, KnownAt, SignalsWorkerOnly, Unmarked;
      ghost var t0, c0, d0 := kernel.table, kernel.calls, kernel.delivered;
      NothingSent(t0, id);
      EvolvesReflexive(t0);
      assert kernel.calls[|c0|..] == [] && kernel.delivered[|kernel.delivered|..] == [];
      var running :- IsRunning(id);
      if !running {
        return Returned(());
      }
      ghost var t1 := kernel.table;
      ghost var w: nat :| SeenRunning(t0, t1, id, w);
      var opening := kernel.PidfdOpen(id.pid);
      ghost var t2, c2 := kernel.table, kernel.calls;
      assert opening.Killed? ==> c2 == c0;
      assert opening.Raised? ==> c2[|c0|..] == [OpenFailed];
      assert opening.Returned? ==> c2[|c0|..] == [Opened(opening.value)];
      EvolvesTransitive(t0, t1, t2);
      if opening.IsFailure() {
        OpeningFails(c2, c0);
        return opening.PropagateFailure();
      }
      var pidfd := opening.value;
      if pidfd.NoSuchProcess? {
        if Alive(t2, id) {
          NamedHolder(t2, id);
        }
        return Returned(());
      }
      // The PID may already have been reused: the pidfd then pins a foreign process.
      var again := IsRunning(id);
      ghost var t3 := kernel.table;
      EvolvesTransitive(t0, t2, t3);
      if again.IsFailure() {
        return again.PropagateFailure();
      }
      if !again.value {
        assert again == Returned(false);
        return Returned(());
      }
      assert again == Returned(true);
      var fd := pidfd.target;
      PinnedAfterRecheck(t1, t2, t3, id, w, fd);
      r := Terminate(id, fd);
      EvolvesTransitive(t0, t3, kernel.table);
      WorkerSignalled(kernel.table, id, fd, DeliveredIn(kernel.calls[|c2|..]));
      assert kernel.delivered[|d0|..] == DeliveredIn(kernel.calls[|c2|..]);
      StopThrough(c0, c2, kernel.calls, fd, r);
    }

    static lemma OpeningFails(c: seq<PidfdCall>, c0: seq<PidfdCall>)
      ensures c == c0 + [OpenFailed] ==> LastFails(c)
    {
    }

    static lemma NothingSent(t: Table, id: Identity)
      ensures forall now: Table :: SignalsWorkerOnly(now, id, [])
    {
    }

    static lemma WorkerSignalled(t: Table, id: Identity, fd: nat, sent: seq<Delivery>)
      requires WorkerAt(t, id, fd) && sent <= [Delivery(fd, SigTerm), Delivery(fd, SigKill)]
      ensures SignalsWorkerOnly(t, id, sent)
    {
    }

    static lemma StopThrough(c0: seq<PidfdCall>, c2: seq<PidfdCall>, c: seq<PidfdCall>, fd: nat, r: Exec<()>)
      requires c0 <= c2 <= c && c2[|c0|..] == [Opened(Pidfd(fd))] && StoppedBy(c[|c2|..], fd, r)
      ensures StopCalls(c[|c0|..], r) && (r.Raised? ==> LastFails(c))
    {
      var calls, more := c[|c0|..], c[|c2|..];
      assert calls == [Opened(Pidfd(fd))] + more;
      assert calls[1..] == more;
      hide StageAfter;
      if r.Raised? {
        RaisedLast(more, fd);
        assert c[|c| - 1] == more[|more| - 1];
        assert |more| > 1 ==> c[|c| - 2] == more[|more| - 2];
      }
    }

    static lemma RaisedLast(calls: seq<PidfdCall>, fd: nat)
      requires StageAfter(calls, fd) in {Some(Unsafe), Some(Stuck)}
      ensures LastFails(calls)
    {
      var front := calls[..|calls| - 1];
      if StageAfter(calls, fd) == Some(Stuck) {
        assert StageAfter(front, fd) == Some(Killing);
        assert front != [] && front[|front| - 1] == Sent(fd, SigKill, Found);
      }
    }

    /** A pidfd opened on the holder of a PID between two checks that found the worker running pins the worker: had
        the PID been reused before the opening, the second check would have found another process. */
    static lemma PinnedAfterRecheck(t1: Table, t2: Table, t3: Table, id: Identity, w: nat, fd: nat)
      requires ValidTable(t1) && ValidTable(t2) && ValidTable(t3) && Evolves(t1, t2) && Evolves(t2, t3)
      requires KnownAt(t1, id, w) && !Unmarked(t1, id.pid) && Holder(t2, id.pid) == Some(fd)
      requires Seen(t2, t3, id)
      ensures fd == w && WorkerAt(t3, id, fd)
    {
      var v: nat :| SeenRunning(t2, t3, id, v);
      assert Later(t1.procs[w], t2.procs[w]) && Later(t2.procs[w], t3.procs[w]);
      assert SameName(t3.procs[v], t3.procs[w]);
      assert v == w;
    }

    /** The part of `stop` after the second check, with the worker pinned. */
    method Terminate(id: Identity, fd: nat) returns (r: Exec<()>)
      requires kernel.Valid() && WorkerAt(kernel.table, id, fd)
      modifies kernel`table, kernel`kills, kernel`calls, kernel`delivered
      ensures kernel.Valid() && Evolves(old(kernel.table), kernel.table)
      ensures kernel.kills == old(kernel.kills) + if r.Killed? then 1 else 0
      ensures r.Raised? ==> r.cause == WorkerFailure
      ensures !r.Killed? ==> kernel.table.boot == old(kernel.table.boot)
      ensures WorkerAt(kernel.table, id, fd)
      ensures r.Returned? ==> !Alive(kernel.table, id)
      ensures old(kernel.calls) <= kernel.calls && StoppedBy(kernel.calls[|old(kernel.calls)|..], fd, r)
      ensures kernel.delivered == old(kernel.delivered) + DeliveredIn(kernel.calls[|old(kernel.calls)|..])
      ensures DeliveredIn(kernel.calls[|old(kernel.calls)|..]) <= [Delivery(fd, SigTerm), Delivery(fd, SigKill)]
      ensures r.Raised? && !LastCallFailed(kernel.calls) ==>
                kernel.delivered == old(kernel.delivered) + [Delivery(fd, SigTerm), Delivery(fd, SigKill)]
    {
      hide StageAfter, DeliveredIn, ValidTable;
      ghost var t0, c0, d0 := kernel.table, kernel.calls, kernel.delivered;
      NothingCalled(c0, d0, fd);
      var termed := kernel.PidfdSend(fd, SigTerm);
      ghost var t1 := kernel.table;
      assert Later(t0.procs[fd], t1.procs[fd]);
      if !termed.Killed? {
        CalledNext(c0, c0, d0, Sent(fd, SigTerm, OutcomeOf(termed)), fd);
      }
      assert termed.Killed? ==> kernel.calls == c0 && kernel.delivered == d0;
      if termed.IsFailure() {
        return termed.PropagateFailure();
      }
      if !termed.value {
        NotLive(t1, id, fd);
        return Returned(());
      }
      ghost var c1 := kernel.calls;
      var ready := kernel.PidfdWait(fd);
      ghost var t2, c2 := kernel.table, kernel.calls;
      EvolvesTransitive(t0, t1, t2);
      assert Later(t0.procs[fd], t2.procs[fd]);
      assert ready.Killed? ==> c2 == c1;
      if ready.IsFailure() {
        return ready.PropagateFailure();
      }
      CalledNext(c0, c1, d0, Waited(fd, ready.value), fd);
      if ready.value {
        NotLive(t2, id, fd);
        return Returned(());
      }
      var killed := kernel.PidfdSend(fd, SigKill);
      ghost var t3, c3 := kernel.table, kernel.calls;
      EvolvesTransitive(t0, t2, t3);
      assert Later(t0.procs[fd], t3.procs[fd]);
      if !killed.Killed? {
        CalledNext(c0, c2, d0, Sent(fd, SigKill, OutcomeOf(killed)), fd);
      }
      assert killed.Killed? ==> kernel.calls == c2;
      if killed.IsFailure() {
        return killed.PropagateFailure();
      }
      if !killed.value {
        NotLive(t3, id, fd);
        return Returned(());
      }
      ready := kernel.PidfdWait(fd);
      EvolvesTransitive(t0, t3, kernel.table);
      assert Later(t0.procs[fd], kernel.table.procs[fd]);
      assert ready.Killed? ==> kernel.calls == c3;
      if ready.IsFailure() {
        return ready.PropagateFailure();
      }
      CalledNext(c0, c3, d0, Waited(fd, ready.value), fd);
      if !ready.value {
        StageDelivers(kernel.calls[|c0|..], fd);
        return Raised(WorkerFailure);
      }
      NotLive(kernel.table, id, fd);
      return Returned(());
    }

    static lemma NotLive(t: Table, id: Identity, fd: nat)
      requires ValidTable(t) && KnownAt(t, id, fd) && !t.procs[fd].phase.Live?
      ensures !Alive(t, id)
    {
    }

    static function OutcomeOf(r: Exec<bool>): SendOutcome {
      match r
      case Returned(found) => if found then Found else NotFound
      case _ => SendFailed
    }

    static lemma NothingCalled(c0: seq<PidfdCall>, d0: seq<Delivery>, fd: nat)
      ensures StageAfter(c0[|c0|..], fd) == Some(Unsent) && DeliveredIn(c0[|c0|..]) == [] && d0 + [] == d0
    {
    }

    /** One more call: the stage moves on, and its signal, if it found the process, is delivered. */
    static lemma CalledNext(c0: seq<PidfdCall>, c: seq<PidfdCall>, d0: seq<Delivery>, call: PidfdCall, fd: nat)
      requires c0 <= c && StageAfter(c[|c0|..], fd).Some?
      requires NextStage(StageAfter(c[|c0|..], fd).value, call, fd).Some?
      ensures var more, sent := (c + [call])[|c0|..], DeliveredIn(c[|c0|..]);
        && StageAfter(more, fd) == NextStage(StageAfter(c[|c0|..], fd).value, call, fd)
        && d0 + DeliveredIn(more)
          == d0 + sent + (if call.Sent? && call.outcome.Found? then [Delivery(call.fd, call.signal)] else [])
        && DeliveredIn(more) <= [Delivery(fd, SigTerm), Delivery(fd, SigKill)]
    {
      var before, more := c[|c0|..], (c + [call])[|c0|..];
      assert more == before + [call];
      assert more[..|more| - 1] == before;
      OneMoreCall(before, call, fd);
      StageDelivers(more, fd);
    }

    /** `_capture_worker_process_identity`. */
    method Capture(pid: int) returns (r: Exec<Identity>, ghost seen: Table)
      requires kernel.Valid() && pid > 0
      modifies kernel`table, kernel`kills
      ensures kernel.Valid() && Evolves(old(kernel.table), kernel.table)
      ensures kernel.kills == old(kernel.kills) + if r.Killed? then 1 else 0
      ensures !r.Killed? ==> kernel.table.boot == old(kernel.table.boot)
      ensures r.Returned? ==> WellFormed(r.value) && r.value.pid == pid && 0 < |r.value.boot| <= 128 && r.value.ticks > 0
      ensures r.Returned? ==> Seen(old(kernel.table), kernel.table, r.value)
      ensures r.Returned? ==> HeldDuring(old(kernel.table), seen, kernel.table, r.value)
      ensures r.Returned? ==> !Unmarked(kernel.table, pid)
      ensures r.Raised? ==> Unmarked(kernel.table, pid)
    {
      ghost var t0 := kernel.table;
      seen := t0;
      var boot :- kernel.ReadBoot();
      ghost var t1 := kernel.table;
      var ticks :- kernel.ReadTicks(pid);
      ghost var t2 := kernel.table;
      EvolvesTransitive(t0, t1, t2);
      seen := t2;
      ghost var w := Holder(t2, pid).value;
      var id := Identity(pid, boot, ticks, WORKER_MARKER);
      var marked :- kernel.ReadMarked(pid);
      EvolvesTransitive(t0, t2, kernel.table);
      if !marked {
        return Raised(WorkerFailure), seen;
      }
      SeenByTicks(t0, t1, t2, kernel.table, id, w);
      return Returned(id), seen;
    }

    /** `start`: on success the identity names a process that did not exist before the call; it raises only when
        the lookup, the spawn or the wait for readiness failed, or the child no longer runs. */
    method Start(gpuUuid: string) returns (r: Exec<Identity>)
      requires kernel.Valid()
      modifies kernel`table, kernel`kills, kernel`startFaults, kernel`spawned, kernel`devices, kernel`ready, this
      ensures kernel.Valid() && Evolves(old(kernel.table), kernel.table)
      ensures kernel.kills == old(kernel.kills) + if r.Killed? then 1 else 0
      ensures !r.Killed? ==> kernel.table.boot == old(kernel.table.boot)
      ensures old(kernel.startFaults) <= kernel.startFaults && old(kernel.spawned) <= kernel.spawned
      ensures r.Raised? ==> StartsFaulted(kernel.table, kernel.startFaults - old(kernel.startFaults),
                                          kernel.spawned[|old(kernel.spawned)|..])
      ensures old(launched) <= launched <= old(launched) + [gpuUuid]
      ensures r.Returned? ==> launched == old(launched) + [gpuUuid]
      ensures started == old(started) + if r.Returned? then [(gpuUuid, r.value)] else []
      ensures |kernel.spawned| - |old(kernel.spawned)| == |launched| - |old(launched)|
      ensures launched != old(launched) ==>
                gpuUuid in kernel.ordinals && kernel.devices == old(kernel.devices) + [kernel.ordinals[gpuUuid]]
      ensures r.Returned? ==> kernel.spawned != [] && kernel.ready == old(kernel.ready) + [Last(kernel.spawned)]
      ensures r.Returned? ==> WellFormed(r.value) && 0 < |r.value.boot| <= 128 && r.value.ticks > 0
      ensures r.Returned? ==> Known(kernel.table, r.value) && !Known(old(kernel.table), r.value)
      ensures r.Returned? ==> exists w: nat :: WorkerAt(kernel.table, r.value, w)
    {
      hide Evolves, ValidTable, Alive, Known, HeldDuring, SeenRunning, Seen, Unmarked, WorkerAt;
      ghost var t0 := kernel.table;
      var device :- kernel.ResolveOrdinal(gpuUuid);
      ghost var t := kernel.table;
      var spawn := kernel.Spawn(device);
      ghost var t1 := kernel.table;
      EvolvesTransitive(t0, t, t1);
      if spawn.IsFailure() {
        return spawn.PropagateFailure();
      }
      var child := spawn.value;
      launched := launched + [gpuUuid];
      var pid := kernel.table.procs[child].pid;
      var ready := kernel.AwaitReady(child);
      ghost var t2 := kernel.table;
      EvolvesTransitive(t0, t1, t2);
      if ready.IsFailure() {
        return ready.PropagateFailure();
      }
      var captured, seen := Capture(pid);
      ghost var t3 := kernel.table;
      EvolvesTransitive(t0, t2, t3);
      EvolvesTransitive(t1, t2, t3);
      if captured.IsFailure() {
        if captured.Raised? {
          UnmarkedChild(t1, t3, child);
        }
        return captured.PropagateFailure();
      }
      var id := captured.value;
      var running := IsRunning(id);
      EvolvesTransitive(t0, t3, kernel.table);
      EvolvesTransitive(t1, t3, kernel.table);
      if running.IsFailure() {
        return running.PropagateFailure();
      }
      if !running.value {
        assert running == Returned(false);
        DeadChild(t1, t2, seen, t3, kernel.table, id, child);
        return Raised(WorkerFailure);
      }
      FreshCapture(t0, t1, t2, t3, kernel.table, id, child);
      assert running == Returned(true);
      MarkedCapture(t2, seen, t3, kernel.table, id);
      started := started + [(gpuUuid, id)];
      return Returned(id);
    }

    /** Nothing marked under the child's PID: the child is gone or a zombie. */
    static lemma UnmarkedChild(t1: Table, t: Table, child: nat)
      requires ValidTable(t1) && ValidTable(t) && Evolves(t1, t) && child < |t1.procs| && t1.procs[child].marked
      requires Unmarked(t, t1.procs[child].pid)
      ensures !t.procs[child].phase.Live?
    {
      assert Later(t1.procs[child], t.procs[child]);
    }

    /** A captured identity that is not running names the child, or a process that took over its PID. */
    static lemma DeadChild(t1: Table, t2: Table, seen: Table, t3: Table, t: Table, id: Identity, child: nat)
      requires ValidTable(t1) && ValidTable(t) && Evolves(t1, t2) && HeldDuring(t2, seen, t3, id) && Evolves(t3, t)
      requires child < |t1.procs| && t1.procs[child].pid == id.pid && t1.procs[child].marked
      requires !Alive(t, id)
      ensures child < |t.procs| && !t.procs[child].phase.Live?
    {
      var w := Holder(seen, id.pid).value;
      EvolvesTransitive(t1, t2, seen);
      EvolvesTransitive(seen, t3, t);
      assert Later(t1.procs[child], seen.procs[child]) && Later(seen.procs[child], t.procs[child]);
      assert Later(seen.procs[w], t.procs[w]);
      assert !LiveAt(t, id, child);
    }

    /** Still running after the marker was read, the captured identity names the marked process. */
    static lemma MarkedCapture(t2: Table, seen: Table, t3: Table, t: Table, id: Identity)
      requires ValidTable(t3) && ValidTable(t) && HeldDuring(t2, seen, t3, id) && Evolves(t3, t)
      requires !Unmarked(t3, id.pid) && Seen(t3, t, id)
      ensures exists w: nat :: WorkerAt(t, id, w)
    {
      var w := Holder(seen, id.pid).value;
      var v: nat :| SeenRunning(t3, t, id, v);
      assert Later(seen.procs[w], t3.procs[w]) && Later(t3.procs[w], t.procs[w]);
      assert SameName(t.procs[v], t.procs[w]);
      assert v == w && Holder(t3, id.pid) == Some(w);
      assert WorkerAt(t, id, w);
    }

    /** Whatever held the child's PID after the spawn is the child or younger. */
    static lemma FreshCapture(t0: Table, t1: Table, t: Table, t2: Table, t3: Table, id: Identity, child: nat)
      requires ValidTable(t1) && ValidTable(t) && ValidTable(t2) && ValidTable(t3)
      requires Evolves(t0, t1) && Evolves(t1, t) && Evolves(t, t2) && Evolves(t2, t3)
      requires |t0.procs| <= child < |t1.procs| && !t1.procs[child].phase.Gone? && t1.procs[child].pid == id.pid
      requires Seen(t, t2, id)
      ensures Known(t3, id) && !Known(t0, id)
    {
      var w: nat :| SeenRunning(t, t2, id, w);
      EvolvesTransitive(t1, t, t2);
      assert w < |t1.procs| ==> Later(t1.procs[w], t.procs[w]) && Later(t.procs[w], t2.procs[w]);
      assert w >= |t0.procs|;
      EvolvesTransitive(t0, t1, t2);
      forall k | 0 <= k < |t0.procs| ensures !KnownAt(t0, id, k) {
        assert Later(t0.procs[k], t2.procs[k]);
        assert !SameName(t2.procs[k], t2.procs[w]);
      }
      assert KnownAt(t2, id, w);
      DeadStaysDead(t2, t3, id);
    }
  }
}
