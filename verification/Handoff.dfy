/** Claim, profile claim, reassignment and reconciliation tasks on one event loop.  Each takes its
    endpoint locks in sorted order, talks to helpers and the service with a suspension point at
    every step, and releases the locks.  Adapter, observation and service results are arbitrary. */
module Handoff {
  import opened Text

  type Endpoint = string

  /** One keeper to stop for a claim. */
  datatype Target = Target(endpoint: Endpoint, gpu: string, gpuUuid: string, lease: string)

  /** `Claim` is any task of the reclaim path with the plan the service will give it; a
      reconciliation has starts, recoveries and a number of stops. */
  datatype Kind = Claim(targets: seq<Target>) | Reconcile(starts: bool, recovers: bool, stops: nat)

  datatype Task = Task(endpoints: set<Endpoint>, kind: Kind)

  /** The remote and service calls of a claim's hand-off. */
  datatype Action =
    | Resolve(endpoint: Endpoint)
    | Prepare(target: Target)
    | Stop(target: Target)
    | Observe(target: Target)
    | Finalize(target: Target)

  datatype Event =
    | Acquired(task: nat, endpoint: Endpoint)
    | Released(task: nat, endpoint: Endpoint)
    | KeeperStart(task: nat, endpoint: Endpoint)
    | KeeperStop(task: nat, endpoint: Endpoint)
    | Did(task: nat, action: Action)     // succeeded; for a stop, with a verified reply
    | Failed(task: nat, action: Action)
    | Tried(task: nat, result: Choice)   // the ordinary claim before any hand-off; `Retry` is a lack of capacity
    | Planned(task: nat, result: Choice) // the service's plan of a hand-off
    | Claimed(task: nat)                 // the claim callback after the hand-off

  /** Where a reconciliation is. */
  datatype Phase =
    | Planning
    | Starting | Attesting | Observing | Confirming | CleaningUp | CleanupObserving
    | RecoverAttesting | RecoverObserving | RecoverConfirming
    | Preparing(i: nat) | Stopping(i: nat) | StopObserving(i: nat) | Finalizing(i: nat)

  datatype Pc =
    | Fresh
    | Acquiring(k: nat)                  // holds the first k locks of its order
    | Waiting(k: nat)                    // queued for lock k
    | Trying | Replanning | Running(i: nat) | Doomed(i: nat)
    | Reconciling(phase: Phase)
    | Releasing(k: nat)                  // still holds the first k locks
    | Done

  /** What the step's external call does: succeed, fail, or (first claim only) lack capacity; for
      a reconciliation's start, `Retry` is a failure known to have started nothing. */
  datatype Choice = Good | Bad | Retry

  /** `entered` and `at` are history: the log length when a task had all its locks, and where the
      log has its completed hand-off calls. */
  datatype State = State(pcs: seq<Pc>, holder: map<Endpoint, nat>, queue: map<Endpoint, seq<nat>>,
                         log: seq<Event>, entered: seq<nat>, at: seq<seq<nat>>)

  // ----- the hand-off script of a claim -----

  /** The endpoints of the plan in order of first appearance. */
  function Groups(targets: seq<Target>): (es: seq<Endpoint>)
    ensures forall t :: t in targets ==> t.endpoint in es
    ensures forall e :: e in es ==> exists t :: t in targets && t.endpoint == e
  {
    if targets == [] then []
    else
      var front, last := Groups(targets[..|targets| - 1]), targets[|targets| - 1];
      assert targets == targets[..|targets| - 1] + [last];
      if last.endpoint in front then front else front + [last.endpoint]
  }

  function Of(targets: seq<Target>, e: Endpoint): (ts: seq<Target>)
    ensures forall t :: t in ts <==> t in targets && t.endpoint == e
  {
    if targets == [] then []
    else
      var last := targets[|targets| - 1];
      assert targets == targets[..|targets| - 1] + [last];
      Of(targets[..|targets| - 1], e) + if last.endpoint == e then [last] else []
  }

  function Prepares(ts: seq<Target>): (s: seq<Action>)
    ensures |s| == |ts| && forall i :: 0 <= i < |ts| ==> s[i] == Prepare(ts[i])
  {
    seq(|ts|, i requires 0 <= i < |ts| => Prepare(ts[i]))
  }

  function Stops(ts: seq<Target>): (s: seq<Action>)
    ensures forall a :: a in s ==> !a.Resolve? && a.target in ts
  {
    if ts == [] then []
    else
      var last := ts[|ts| - 1];
      assert ts == ts[..|ts| - 1] + [last];
      Stops(ts[..|ts| - 1]) + [Stop(last), Observe(last), Finalize(last)]
  }

  function ScriptOf(targets: seq<Target>, es: seq<Endpoint>): seq<Action> {
    if es == [] then []
    else
      var ts := Of(targets, es[0]);
      [Resolve(es[0])] + Prepares(ts) + Stops(ts) + ScriptOf(targets, es[1..])
  }

  /** All calls between the plan and the claim, in program order. */
  function Script(targets: seq<Target>): seq<Action> {
    ScriptOf(targets, Groups(targets))
  }

  ghost predicate HandsOff(script: seq<Action>, t: Target, p: nat, q: nat) {
    && p < q && q + 2 < |script| && script[p] == Prepare(t)
    && script[q] == Stop(t) && script[q + 1] == Observe(t) && script[q + 2] == Finalize(t)
  }

  lemma HandsOffInside(a: seq<Action>, b: seq<Action>, c: seq<Action>, t: Target, p: nat, q: nat)
    requires HandsOff(b, t, p, q)
    ensures HandsOff(a + b + c, t, |a| + p, |a| + q)
  {
  }

  lemma {:induction false} StopsAt(ts: seq<Target>, i: nat) returns (q: nat)
    requires i < |ts|
    ensures q + 2 < |Stops(ts)|
    ensures Stops(ts)[q] == Stop(ts[i]) && Stops(ts)[q + 1] == Observe(ts[i]) && Stops(ts)[q + 2] == Finalize(ts[i])
  {
    if i < |ts| - 1 {
      q := StopsAt(ts[..|ts| - 1], i);
    } else {
      q := |Stops(ts[..|ts| - 1])|;
    }
  }

  lemma GroupCovers(e: Endpoint, ts: seq<Target>, i: nat) returns (p: nat, q: nat)
    requires i < |ts|
    ensures HandsOff([Resolve(e)] + Prepares(ts) + Stops(ts), ts[i], p, q)
  {
    hide Stops;
    var head := [Resolve(e)] + Prepares(ts);
    var script := head + Stops(ts);
    var j := StopsAt(ts, i);
    p, q := 1 + i, |head| + j;
    assert script[p] == head[p] == Prepares(ts)[i];
    assert script[q] == Stops(ts)[j] && script[q + 1] == Stops(ts)[j + 1] && script[q + 2] == Stops(ts)[j + 2];
  }

  lemma {:induction false} ScriptOfCovers(targets: seq<Target>, es: seq<Endpoint>, t: Target) returns (p: nat, q: nat)
    requires t in targets && t.endpoint in es
    ensures HandsOff(ScriptOf(targets, es), t, p, q)
  {
    hide HandsOff, Prepares, Stops, Of;
    var ts := Of(targets, es[0]);
    var head := [Resolve(es[0])] + Prepares(ts) + Stops(ts);
    var tail := ScriptOf(targets, es[1..]);
    assert ScriptOf(targets, es) == head + tail;
    if t.endpoint == es[0] {
      var i :| 0 <= i < |ts| && ts[i] == t;
      p, q := GroupCovers(es[0], ts, i);
      HandsOffInside([], head, tail, t, p, q);
      assert [] + head + tail == head + tail;
    } else {
      p, q := ScriptOfCovers(targets, es[1..], t);
      HandsOffInside(head, tail, [], t, p, q);
      assert head + tail + [] == head + tail;
      p, q := |head| + p, |head| + q;
    }
  }

  lemma {:induction false} ScriptOfStays(targets: seq<Target>, es: seq<Endpoint>, a: Action)
    requires a in ScriptOf(targets, es) && !a.Resolve?
    ensures a.target in targets
  {
    var ts := Of(targets, es[0]);
    if a in Prepares(ts) {
      var i :| 0 <= i < |ts| && Prepares(ts)[i] == a;
    } else if a !in Stops(ts) {
      ScriptOfStays(targets, es[1..], a);
    }
  }

  /** The script hands off every planned keeper, preparing it before stopping, observing and
      finalising it, and touches no other. */
  lemma ScriptIsThePlan(targets: seq<Target>)
    ensures forall t :: t in targets ==> exists p: nat, q: nat :: HandsOff(Script(targets), t, p, q)
    ensures forall a :: a in Script(targets) && !a.Resolve? ==> a.target in targets
  {
    forall t | t in targets ensures exists p: nat, q: nat :: HandsOff(Script(targets), t, p, q) {
      var p, q := ScriptOfCovers(targets, Groups(targets), t);
      assert HandsOff(Script(targets), t, p, q);
    }
    forall a | a in Script(targets) && !a.Resolve? ensures a.target in targets {
      ScriptOfStays(targets, Groups(targets), a);
    }
  }

  // ----- one step of one task -----

  function Order(task: Task): (order: seq<Endpoint>)
    ensures StrictlySorted(order) && forall e :: e in order <==> e in task.endpoints
  {
    Sorted(task.endpoints)
  }

  function Queue(s: State, e: Endpoint): seq<nat> {
    if e in s.queue then s.queue[e] else []
  }

  /** The plan's GPUs are distinct; otherwise the hand-off is not attempted. */
  predicate Attemptable(targets: seq<Target>) {
    targets != [] && forall i, j :: 0 <= i < j < |targets| ==> targets[i].gpu != targets[j].gpu
  }

  /** After the start phase, after the recoveries. */
  function AfterStarts(kind: Kind, n: nat): Pc
    requires kind.Reconcile?
  {
    if kind.recovers then Reconciling(RecoverAttesting) else AfterRecovers(kind, n)
  }

  function AfterRecovers(kind: Kind, n: nat): Pc
    requires kind.Reconcile?
  {
    if kind.stops > 0 then Reconciling(Preparing(0)) else Releasing(n)
  }

  /** One suspension-to-suspension step of a reconciliation holding `n` locks. */
  function NextPhase(kind: Kind, phase: Phase, c: Choice, n: nat): Pc
    requires kind.Reconcile?
  {
    match phase
    case Planning => if c.Bad? then Releasing(n) else if kind.starts then Reconciling(Starting) else AfterStarts(kind, n)
    case Starting => Reconciling(if c.Good? then Attesting else if c.Bad? then CleaningUp else CleanupObserving)
    case Attesting => Reconciling(if c.Good? then Observing else CleaningUp)
    case Observing => Reconciling(if c.Good? then Confirming else CleaningUp)
    case Confirming => if c.Good? then AfterStarts(kind, n) else Reconciling(CleaningUp)
    case CleaningUp => Reconciling(CleanupObserving)
    case CleanupObserving => Releasing(n)
    case RecoverAttesting => if c.Good? then Reconciling(RecoverObserving) else Releasing(n)
    case RecoverObserving => if c.Good? then Reconciling(RecoverConfirming) else Releasing(n)
    case RecoverConfirming => if c.Good? then AfterRecovers(kind, n) else Releasing(n)
    case Preparing(i) =>
      if c.Bad? then Releasing(n) else Reconciling(if i + 1 < kind.stops then Preparing(i + 1) else Stopping(0))
    case Stopping(i) =>
      if i >= kind.stops then Releasing(n) else Reconciling(if c.Retry? then Stopping(i + 1) else StopObserving(i))
    case StopObserving(i) => Reconciling(if c.Good? then Finalizing(i) else Stopping(i + 1))
    case Finalizing(i) => Reconciling(Stopping(i + 1))
  }

  function PhaseEvents(task: Task, t: nat, phase: Phase, c: Choice): seq<Event>
    requires task.endpoints != {}
  {
    var e := Order(task)[0];
    match phase
    case Starting => [KeeperStart(t, e)]
    case CleaningUp => [KeeperStop(t, e)]
    case Stopping(i) => if task.kind.Reconcile? && i < task.kind.stops && !c.Retry? then [KeeperStop(t, e)] else []
    case _ => []
  }

  predicate IsBody(pc: Pc) {
    pc.Trying? || pc.Replanning? || pc.Running? || pc.Doomed? || pc.Reconciling?
  }

  function Held(task: Task, pc: Pc): nat {
    match pc
    case Acquiring(k) => k
    case Waiting(k) => k
    case Releasing(k) => k
    case Fresh => 0
    case Done => 0
    case _ => |Order(task)|
  }

  predicate ValidPc(task: Task, pc: Pc) {
    && (task.kind.Reconcile? ==> |task.endpoints| == 1)
    && (pc.Waiting? ==> pc.k < |Order(task)|)
    && Held(task, pc) <= |Order(task)|
    && (IsBody(pc) ==> (pc.Reconciling? <==> task.kind.Reconcile?))
    && (pc.Running? || pc.Doomed? ==> pc.i <= |Script(task.kind.targets)|)
    && (pc == Reconciling(Starting) ==> task.kind.starts)
    && (pc.Reconciling? && (pc.phase.StopObserving? || pc.phase.Finalizing? || pc.phase.Preparing?) ==>
          pc.phase.i < task.kind.stops)
    && (pc.Reconciling? && pc.phase.Stopping? ==> pc.phase.i <= task.kind.stops)
  }

  predicate Shape(tasks: seq<Task>, s: State) {
    && |s.pcs| == |tasks| && |s.entered| == |tasks| && |s.at| == |tasks|
    && forall t :: 0 <= t < |tasks| ==> ValidPc(tasks[t], s.pcs[t])
  }

  /** A waiting task runs again only as the first in the queue of a free lock. */
  predicate Enabled(tasks: seq<Task>, s: State, t: nat)
    requires Shape(tasks, s)
  {
    && t < |tasks| && !s.pcs[t].Done?
    && (s.pcs[t].Waiting? ==>
          var e := Order(tasks[t])[s.pcs[t].k];
          e !in s.holder && Queue(s, e) != [] && Queue(s, e)[0] == t)
  }

  function Goto(s: State, t: nat, pc: Pc, events: seq<Event>): State
    requires t < |s.pcs|
  {
    s.(pcs := s.pcs[t := pc], log := s.log + events)
  }

  function NextLock(tasks: seq<Task>, s: State, t: nat): State
    requires Shape(tasks, s) && Enabled(tasks, s, t) && (s.pcs[t].Acquiring? || s.pcs[t].Waiting?)
  {
    var order, k := Order(tasks[t]), s.pcs[t].k;
    if k == |order| then
      Goto(s, t, if tasks[t].kind.Claim? then Trying else Reconciling(Planning), [])
        .(entered := s.entered[t := |s.log|], at := s.at[t := []])
    else
      var e := order[k];
      if s.pcs[t].Waiting? then
        Goto(s, t, Acquiring(k + 1), [Acquired(t, e)]).(holder := s.holder[e := t], queue := s.queue[e := Queue(s, e)[1..]])
      else if e !in s.holder && Queue(s, e) == [] then
        Goto(s, t, Acquiring(k + 1), [Acquired(t, e)]).(holder := s.holder[e := t])
      else
        Goto(s, t, Waiting(k), []).(queue := s.queue[e := Queue(s, e) + [t]])
  }

  /** One step of a claim's hand-off holding `n` locks. */
  function NextCall(tasks: seq<Task>, s: State, t: nat, c: Choice): State
    requires Shape(tasks, s) && t < |tasks| && tasks[t].kind.Claim? && (s.pcs[t].Running? || s.pcs[t].Doomed?)
  {
    var script, n, i := Script(tasks[t].kind.targets), |Order(tasks[t])|, s.pcs[t].i;
    if i == |script| then
      Goto(s, t, Releasing(n), if s.pcs[t].Running? then [Claimed(t)] else [])
    else if s.pcs[t].Doomed? then
      // The stop failed: observe and finalise that keeper all the same, then give up.
      Goto(s, t, if script[i].Observe? && c.Good? then Doomed(i + 1) else Releasing(n),
           [if c.Good? then Did(t, script[i]) else Failed(t, script[i])])
    else if c.Good? then
      Goto(s, t, Running(i + 1), [Did(t, script[i])]).(at := s.at[t := s.at[t] + [|s.log|]])
    else
      Goto(s, t, if script[i].Stop? then Doomed(i + 1) else Releasing(n), [Failed(t, script[i])])
  }

  function NextRelease(tasks: seq<Task>, s: State, t: nat): State
    requires Shape(tasks, s) && t < |tasks| && s.pcs[t].Releasing?
  {
    var k := s.pcs[t].k;
    if k == 0 then Goto(s, t, Done, [])
    else
      var e := Order(tasks[t])[k - 1];
      Goto(s, t, Releasing(k - 1), [Released(t, e)]).(holder := s.holder - {e})
  }

  /** A step outside the lock operations and the hand-off calls. */
  function NextOther(tasks: seq<Task>, s: State, t: nat, c: Choice): State
    requires Shape(tasks, s) && t < |tasks|
    requires s.pcs[t].Fresh? || s.pcs[t].Trying? || s.pcs[t].Replanning? || s.pcs[t].Reconciling?
  {
    var task := tasks[t];
    var n := |Order(task)|;
    match s.pcs[t]
    case Fresh => Goto(s, t, Acquiring(0), [])
    case Trying => Goto(s, t, if c.Retry? then Replanning else Releasing(n), [Tried(t, c)])
    case Replanning => Goto(s, t, if c.Good? && Attemptable(task.kind.targets) then Running(0) else Releasing(n),
                             [Planned(t, c)])
    case Reconciling(phase) => Goto(s, t, NextPhase(task.kind, phase, c, n), PhaseEvents(task, t, phase, c))
  }

  function Next(tasks: seq<Task>, s: State, t: nat, c: Choice): State
    requires Shape(tasks, s) && Enabled(tasks, s, t)
  {
    var pc := s.pcs[t];
    if pc.Acquiring? || pc.Waiting? then NextLock(tasks, s, t)
    else if pc.Running? || pc.Doomed? then NextCall(tasks, s, t, c)
    else if pc.Releasing? then NextRelease(tasks, s, t)
    else NextOther(tasks, s, t, c)
  }

  function Start(tasks: seq<Task>): State {
    State(seq(|tasks|, _ => Fresh), map[], map[], [], seq(|tasks|, _ => 0), seq(|tasks|, _ => []))
  }

  // ----- locks -----

  /** The endpoints of the first `k` locks in the task's order. */
  function Prefix(task: Task, k: nat): set<Endpoint> {
    var order := Order(task);
    if k <= |order| then set e | e in order[..k] else {}
  }

  function Owns(task: Task, pc: Pc): set<Endpoint> {
    Prefix(task, Held(task, pc))
  }

  function Wants(task: Task, pc: Pc): Option<Endpoint> {
    if pc.Waiting? && pc.k < |Order(task)| then Some(Order(task)[pc.k]) else None
  }

  /** Who owns and who waits for which lock, as the tasks see it and as the lock objects see it. */
  datatype View = View(owns: seq<set<Endpoint>>, wants: seq<Option<Endpoint>>,
                       holder: map<Endpoint, nat>, queue: map<Endpoint, seq<nat>>)

  function InQueue(queue: map<Endpoint, seq<nat>>, e: Endpoint): seq<nat> {
    if e in queue then queue[e] else []
  }

  /** A lock's holder is the one task that owns it. */
  ghost predicate OwnersExact(owns: seq<set<Endpoint>>, holder: map<Endpoint, nat>) {
    && (forall e :: e in holder ==> holder[e] < |owns| && e in owns[holder[e]])
    && (forall t, e {:trigger e in owns[t]} :: 0 <= t < |owns| && e in owns[t] ==> e in holder && holder[e] == t)
  }

  ghost predicate NoRepeats(q: seq<nat>) {
    forall i, j :: 0 <= i < j < |q| ==> q[i] != q[j]
  }

  ghost predicate AllWaitFor(q: seq<nat>, wants: seq<Option<Endpoint>>, e: Endpoint) {
    forall i :: 0 <= i < |q| ==> q[i] < |wants| && wants[q[i]] == Some(e)
  }

  /** A task is queued once, exactly at the lock it waits for. */
  ghost predicate QueuesExact(wants: seq<Option<Endpoint>>, queue: map<Endpoint, seq<nat>>) {
    && (forall e :: e in queue ==> AllWaitFor(queue[e], wants, e) && NoRepeats(queue[e]))
    && (forall t :: 0 <= t < |wants| && wants[t].Some? ==> t in InQueue(queue, wants[t].value))
  }

  /** Both sides agree. */
  ghost predicate Exact(v: View) {
    |v.owns| == |v.wants| && OwnersExact(v.owns, v.holder) && QueuesExact(v.wants, v.queue)
  }

  function Take(v: View, t: nat, e: Endpoint): View
    requires t < |v.owns| && |v.owns| == |v.wants| && (v.wants[t].Some? ==> InQueue(v.queue, e) != [])
  {
    View(v.owns[t := v.owns[t] + {e}], v.wants[t := None], v.holder[e := t],
         if v.wants[t].Some? then v.queue[e := InQueue(v.queue, e)[1..]] else v.queue)
  }

  function Enqueue(v: View, t: nat, e: Endpoint): View
    requires t < |v.wants|
  {
    v.(wants := v.wants[t := Some(e)], queue := v.queue[e := InQueue(v.queue, e) + [t]])
  }

  function Drop(v: View, t: nat, e: Endpoint): View
    requires t < |v.owns|
  {
    v.(owns := v.owns[t := v.owns[t] - {e}], holder := v.holder - {e})
  }

  lemma PopOne(wants: seq<Option<Endpoint>>, q: seq<nat>, t: nat, e: Endpoint)
    requires AllWaitFor(q, wants, e) && NoRepeats(q) && q != [] && q[0] == t && t < |wants|
    ensures AllWaitFor(q[1..], wants[t := None], e) && NoRepeats(q[1..])
  {
    var r := q[1..];
    forall i | 0 <= i < |r| ensures r[i] < |wants| && wants[t := None][r[i]] == Some(e) {
      assert r[i] == q[i + 1] && q[0] != q[i + 1];
    }
    forall i, j | 0 <= i < j < |r| ensures r[i] != r[j] {
      assert q[i + 1] != q[j + 1];
    }
  }

  lemma StillWait(wants: seq<Option<Endpoint>>, q: seq<nat>, t: nat, f: Endpoint)
    requires AllWaitFor(q, wants, f) && t < |wants| && wants[t] != Some(f)
    ensures AllWaitFor(q, wants[t := None], f)
  {
  }

  lemma PopExact(wants: seq<Option<Endpoint>>, queue: map<Endpoint, seq<nat>>, t: nat, e: Endpoint)
    requires QueuesExact(wants, queue) && t < |wants| && wants[t] == Some(e)
    requires InQueue(queue, e) != [] && InQueue(queue, e)[0] == t
    ensures QueuesExact(wants[t := None], queue[e := InQueue(queue, e)[1..]])
  {
    hide AllWaitFor, NoRepeats;
    var wants', queue' := wants[t := None], queue[e := InQueue(queue, e)[1..]];
    var q := queue[e];
    PopOne(wants, q, t, e);
    forall f | f in queue' && f != e ensures AllWaitFor(queue'[f], wants', f) && NoRepeats(queue'[f]) {
      StillWait(wants, queue[f], t, f);
    }
    forall u | 0 <= u < |wants'| && wants'[u].Some? ensures u in InQueue(queue', wants'[u].value) {
      assert u in InQueue(queue, wants[u].value);
      assert q == [t] + q[1..];
    }
  }

  lemma PushExact(wants: seq<Option<Endpoint>>, queue: map<Endpoint, seq<nat>>, t: nat, e: Endpoint)
    requires QueuesExact(wants, queue) && t < |wants| && wants[t].None?
    ensures QueuesExact(wants[t := Some(e)], queue[e := InQueue(queue, e) + [t]])
  {
    var wants', queue' := wants[t := Some(e)], queue[e := InQueue(queue, e) + [t]];
    forall f | f in queue' ensures AllWaitFor(queue'[f], wants', f) && NoRepeats(queue'[f]) {
      if f in queue {
        assert AllWaitFor(queue[f], wants, f) && NoRepeats(queue[f]);
      }
    }
    forall u | 0 <= u < |wants'| && wants'[u].Some? ensures u in InQueue(queue', wants'[u].value) {
      if u != t {
        assert u in InQueue(queue, wants[u].value);
      } else {
        assert queue'[e][|InQueue(queue, e)|] == t;
      }
    }
  }

  lemma NoWaitExact(wants: seq<Option<Endpoint>>, t: nat)
    requires t < |wants| && wants[t].None?
    ensures wants[t := None] == wants
  {
  }

  lemma OwnExact(owns: seq<set<Endpoint>>, holder: map<Endpoint, nat>, t: nat, e: Endpoint)
    requires OwnersExact(owns, holder) && t < |owns| && e !in holder
    ensures OwnersExact(owns[t := owns[t] + {e}], holder[e := t])
  {
    var owns', holder' := owns[t := owns[t] + {e}], holder[e := t];
    forall u, f | 0 <= u < |owns'| && f in owns'[u] ensures f in holder' && holder'[f] == u {
      assert f in owns[u] || (u == t && f == e);
    }
  }

  lemma DisownExact(owns: seq<set<Endpoint>>, holder: map<Endpoint, nat>, t: nat, e: Endpoint)
    requires OwnersExact(owns, holder) && t < |owns| && e in owns[t]
    ensures OwnersExact(owns[t := owns[t] - {e}], holder - {e})
  {
    var owns', holder' := owns[t := owns[t] - {e}], holder - {e};
    forall u, f | 0 <= u < |owns'| && f in owns'[u] ensures f in holder' && holder'[f] == u {
      assert f in owns[u] && holder[f] == u;
    }
  }

  function ViewOf(tasks: seq<Task>, s: State): (v: View)
    requires |s.pcs| == |tasks|
    ensures |v.owns| == |v.wants| == |tasks| && v.holder == s.holder && v.queue == s.queue
    ensures forall t :: 0 <= t < |tasks| ==> v.owns[t] == Owns(tasks[t], s.pcs[t]) && v.wants[t] == Wants(tasks[t], s.pcs[t])
  {
    View(seq(|tasks|, t requires 0 <= t < |tasks| => Owns(tasks[t], s.pcs[t])),
         seq(|tasks|, t requires 0 <= t < |tasks| => Wants(tasks[t], s.pcs[t])), s.holder, s.queue)
  }

  lemma PrefixGrows(task: Task, k: nat)
    requires k < |Order(task)|
    ensures Prefix(task, k + 1) == Prefix(task, k) + {Order(task)[k]}
    ensures Order(task)[k] !in Prefix(task, k)
  {
    hide LexLe;
    var order := Order(task);
    assert order[..k + 1] == order[..k] + [order[k]];
    forall i | 0 <= i < k ensures order[..k][i] != order[k] {
      assert LexLess(order[i], order[k]);
    }
  }

  /** The lock table and the queues are exactly what the tasks own and wait for; every state of a run is like that. */
  ghost predicate LocksExact(tasks: seq<Task>, s: State) {
    Shape(tasks, s) && Exact(ViewOf(tasks, s))
  }

  lemma PhaseKeepsValid(task: Task, phase: Phase, c: Choice)
    requires ValidPc(task, Reconciling(phase))
    ensures ValidPc(task, NextPhase(task.kind, phase, c, |Order(task)|))
  {
    hide StrictlySorted, Script;
  }

  /** Only task `t` moves, to a valid point. */
  ghost predicate MovesOnly(tasks: seq<Task>, s: State, s': State, t: nat)
    requires |s.pcs| == |tasks| && t < |tasks|
  {
    && |s'.pcs| == |tasks| && s'.pcs == s.pcs[t := s'.pcs[t]] && ValidPc(tasks[t], s'.pcs[t])
    && |s'.entered| == |tasks| && |s'.at| == |tasks|
  }

  lemma CallMoves(tasks: seq<Task>, s: State, t: nat, c: Choice)
    requires Shape(tasks, s) && t < |tasks| && (s.pcs[t].Running? || s.pcs[t].Doomed?)
    ensures ValidPc(tasks[t], s.pcs[t]) && MovesOnly(tasks, s, NextCall(tasks, s, t, c), t)
    ensures var s' := NextCall(tasks, s, t, c);
      Held(tasks[t], s'.pcs[t]) == Held(tasks[t], s.pcs[t]) && !s'.pcs[t].Waiting? && s'.holder == s.holder && s'.queue == s.queue
  {
    hide StrictlySorted, Script;
    assert ValidPc(tasks[t], s.pcs[t]);
  }

  lemma OtherMoves(tasks: seq<Task>, s: State, t: nat, c: Choice)
    requires Shape(tasks, s) && t < |tasks|
    requires s.pcs[t].Fresh? || s.pcs[t].Trying? || s.pcs[t].Replanning? || s.pcs[t].Reconciling?
    ensures ValidPc(tasks[t], s.pcs[t]) && MovesOnly(tasks, s, NextOther(tasks, s, t, c), t)
    ensures var s' := NextOther(tasks, s, t, c);
      Held(tasks[t], s'.pcs[t]) == Held(tasks[t], s.pcs[t]) && !s'.pcs[t].Waiting? && s'.holder == s.holder && s'.queue == s.queue
  {
    hide StrictlySorted, Script, Attemptable, NextPhase, PhaseEvents;
    assert ValidPc(tasks[t], s.pcs[t]);
    if s.pcs[t].Reconciling? {
      PhaseKeepsValid(tasks[t], s.pcs[t].phase, c);
      PhaseKeepsHeld(tasks[t], s.pcs[t].phase, c);
    }
  }

  lemma PhaseKeepsHeld(task: Task, phase: Phase, c: Choice)
    requires task.kind.Reconcile?
    ensures var pc := NextPhase(task.kind, phase, c, |Order(task)|); Held(task, pc) == |Order(task)| && !pc.Waiting?
  {
    hide StrictlySorted;
  }

  lemma LockMoves(tasks: seq<Task>, s: State, t: nat)
    requires Shape(tasks, s) && Enabled(tasks, s, t) && (s.pcs[t].Acquiring? || s.pcs[t].Waiting?)
    ensures MovesOnly(tasks, s, NextLock(tasks, s, t), t)
  {
    hide StrictlySorted, Script;
    assert ValidPc(tasks[t], s.pcs[t]);
  }

  lemma ReleaseMoves(tasks: seq<Task>, s: State, t: nat)
    requires Shape(tasks, s) && t < |tasks| && s.pcs[t].Releasing?
    ensures s.pcs[t].k <= |Order(tasks[t])| && MovesOnly(tasks, s, NextRelease(tasks, s, t), t)
  {
    hide StrictlySorted, Script;
    assert ValidPc(tasks[t], s.pcs[t]);
  }

  lemma StepMoves(tasks: seq<Task>, s: State, t: nat, c: Choice)
    requires Shape(tasks, s) && Enabled(tasks, s, t)
    ensures MovesOnly(tasks, s, Next(tasks, s, t, c), t) && Shape(tasks, Next(tasks, s, t, c))
  {
    hide StrictlySorted, Script, NextLock, NextCall, NextOther, NextRelease, ValidPc;
    var pc := s.pcs[t];
    if pc.Acquiring? || pc.Waiting? {
      LockMoves(tasks, s, t);
    } else if pc.Running? || pc.Doomed? {
      CallMoves(tasks, s, t, c);
    } else if pc.Releasing? {
      ReleaseMoves(tasks, s, t);
    } else {
      OtherMoves(tasks, s, t, c);
    }
  }

  /** The lock part of a step, as an operation on the view. */
  ghost predicate StepsView(order: seq<Endpoint>, pc: Pc, t: nat, v: View, w: View)
    requires t < |v.owns| && |v.owns| == |v.wants|
  {
    if (pc.Acquiring? || pc.Waiting?) && pc.k < |order| then
      var e := order[pc.k];
      if pc.Waiting? || (e !in v.holder && InQueue(v.queue, e) == []) then
        (v.wants[t].Some? ==> InQueue(v.queue, e) != []) && w == Take(v, t, e)
      else w == Enqueue(v, t, e)
    else if pc.Releasing? && pc.k > 0 then
      pc.k <= |order| && order[pc.k - 1] in v.owns[t] && w == Drop(v, t, order[pc.k - 1])
    else w == v
  }

  lemma ViewAfter(tasks: seq<Task>, s: State, s': State, t: nat)
    requires Shape(tasks, s) && Shape(tasks, s') && t < |tasks| && s'.pcs == s.pcs[t := s'.pcs[t]]
    ensures ViewOf(tasks, s') == View(ViewOf(tasks, s).owns[t := Owns(tasks[t], s'.pcs[t])],
                                      ViewOf(tasks, s).wants[t := Wants(tasks[t], s'.pcs[t])], s'.holder, s'.queue)
  {
    hide Owns, Wants, ValidPc;
  }

  lemma LockOnView(tasks: seq<Task>, s: State, t: nat)
    requires Shape(tasks, s) && Enabled(tasks, s, t) && (s.pcs[t].Acquiring? || s.pcs[t].Waiting?)
    requires s.pcs[t].k < |Order(tasks[t])| ==>
               Prefix(tasks[t], s.pcs[t].k + 1) == Prefix(tasks[t], s.pcs[t].k) + {Order(tasks[t])[s.pcs[t].k]}
    ensures var v, s' := ViewOf(tasks, s), NextLock(tasks, s, t);
      StepsView(Order(tasks[t]), s.pcs[t], t, v,
                View(v.owns[t := Owns(tasks[t], s'.pcs[t])], v.wants[t := Wants(tasks[t], s'.pcs[t])], s'.holder, s'.queue))
  {
    hide StrictlySorted, Prefix;
    var v := ViewOf(tasks, s);
    assert ValidPc(tasks[t], s.pcs[t]);
    assert v.owns[t := v.owns[t]] == v.owns && v.wants[t := v.wants[t]] == v.wants;
  }

  lemma ReleaseGivesUp(task: Task, k: nat)
    requires k <= |Order(task)|
    ensures k == 0 ==> Owns(task, Releasing(k)) == Owns(task, Done)
    ensures k > 0 ==> Order(task)[k - 1] in Owns(task, Releasing(k))
    ensures k > 0 ==> Owns(task, Releasing(k - 1)) == Owns(task, Releasing(k)) - {Order(task)[k - 1]}
  {
    hide StrictlySorted, Prefix;
    if k > 0 {
      PrefixGrows(task, k - 1);
    }
  }

  lemma ReleaseStep(tasks: seq<Task>, s: State, t: nat)
    requires Shape(tasks, s) && t < |tasks| && s.pcs[t].Releasing? && s.pcs[t].k <= |Order(tasks[t])|
    ensures var k, s' := s.pcs[t].k, NextRelease(tasks, s, t);
      && s'.queue == s.queue
      && s'.holder == (if k > 0 then s.holder - {Order(tasks[t])[k - 1]} else s.holder)
      && s'.pcs[t] == if k > 0 then Releasing(k - 1) else Done
  {
  }

  lemma StepOnView(tasks: seq<Task>, s: State, t: nat, c: Choice)
    requires Shape(tasks, s) && Enabled(tasks, s, t)
    ensures Shape(tasks, Next(tasks, s, t, c))
    ensures StepsView(Order(tasks[t]), s.pcs[t], t, ViewOf(tasks, s), ViewOf(tasks, Next(tasks, s, t, c)))
  {
    StepMoves(tasks, s, t, c);
    var s', pc := Next(tasks, s, t, c), s.pcs[t];
    ViewAfter(tasks, s, s', t);
    hide StrictlySorted, Script, NextLock, NextCall, NextOther, NextRelease, Prefix, ValidPc, Owns, StepsView;
    if pc.Acquiring? || pc.Waiting? {
      if pc.k < |Order(tasks[t])| {
        PrefixGrows(tasks[t], pc.k);
      }
      LockOnView(tasks, s, t);
    } else if pc.Releasing? {
      ReleaseOnView(tasks, s, t);
    } else {
      if pc.Running? || pc.Doomed? {
        CallMoves(tasks, s, t, c);
      } else {
        OtherMoves(tasks, s, t, c);
      }
      NoLockOnView(tasks, s, s', t);
    }
  }

  lemma ReleaseOnView(tasks: seq<Task>, s: State, t: nat)
    requires Shape(tasks, s) && t < |tasks| && s.pcs[t].Releasing?
    ensures var v, s' := ViewOf(tasks, s), NextRelease(tasks, s, t);
      StepsView(Order(tasks[t]), s.pcs[t], t, v,
                View(v.owns[t := Owns(tasks[t], s'.pcs[t])], v.wants[t := Wants(tasks[t], s'.pcs[t])], s'.holder, s'.queue))
  {
    ReleaseMoves(tasks, s, t);
    var v := ViewOf(tasks, s);
    assert v.owns[t := v.owns[t]] == v.owns && v.wants[t := v.wants[t]] == v.wants;
    hide StrictlySorted, Script, NextRelease, Prefix, ValidPc, Owns, Order;
    ReleaseGivesUp(tasks[t], s.pcs[t].k);
    ReleaseStep(tasks, s, t);
  }

  /** A step that keeps the number of held locks and waits for none leaves the view alone. */
  lemma NoLockOnView(tasks: seq<Task>, s: State, s': State, t: nat)
    requires Shape(tasks, s) && t < |tasks| && t < |s'.pcs|
    requires !s.pcs[t].Acquiring? && !s.pcs[t].Waiting? && !s.pcs[t].Releasing?
    requires Held(tasks[t], s'.pcs[t]) == Held(tasks[t], s.pcs[t]) && !s'.pcs[t].Waiting?
    requires s'.holder == s.holder && s'.queue == s.queue
    ensures var v := ViewOf(tasks, s);
      StepsView(Order(tasks[t]), s.pcs[t], t, v,
                View(v.owns[t := Owns(tasks[t], s'.pcs[t])], v.wants[t := Wants(tasks[t], s'.pcs[t])], s'.holder, s'.queue))
  {
    hide StrictlySorted, Script, Prefix, ValidPc, Order, Held;
    var v := ViewOf(tasks, s);
    assert v.owns[t := v.owns[t]] == v.owns && v.wants[t := v.wants[t]] == v.wants;
  }

  /** The operations on the view keep it exact. */
  lemma ViewStaysExact(order: seq<Endpoint>, pc: Pc, t: nat, v: View, w: View)
    requires Exact(v) && t < |v.owns| && StepsView(order, pc, t, v, w)
    requires pc.Acquiring? ==> v.wants[t].None?
    requires pc.Waiting? && pc.k < |order| ==>
               var e := order[pc.k];
               v.wants[t] == Some(e) && e !in v.holder && InQueue(v.queue, e) != [] && InQueue(v.queue, e)[0] == t
    ensures Exact(w)
  {
    hide QueuesExact, OwnersExact;
    if (pc.Acquiring? || pc.Waiting?) && pc.k < |order| {
      var e := order[pc.k];
      if pc.Waiting? || (e !in v.holder && InQueue(v.queue, e) == []) {
        OwnExact(v.owns, v.holder, t, e);
        if pc.Waiting? {
          PopExact(v.wants, v.queue, t, e);
        } else {
          NoWaitExact(v.wants, t);
        }
      } else {
        PushExact(v.wants, v.queue, t, e);
      }
    } else if pc.Releasing? && pc.k > 0 {
      DisownExact(v.owns, v.holder, t, order[pc.k - 1]);
    }
  }

  /** Every step keeps the lock table and the queues exact. */
  lemma StepKeepsLocks(tasks: seq<Task>, s: State, t: nat, c: Choice)
    requires LocksExact(tasks, s) && Enabled(tasks, s, t)
    ensures LocksExact(tasks, Next(tasks, s, t, c))
  {
    StepOnView(tasks, s, t, c);
    assert ValidPc(tasks[t], s.pcs[t]);
    hide StrictlySorted, Script, Exact, StepsView, Next, ValidPc, Owns, Order;
    ViewStaysExact(Order(tasks[t]), s.pcs[t], t, ViewOf(tasks, s), ViewOf(tasks, Next(tasks, s, t, c)));
  }

  /** Locks are granted first come, first served: a step leaves a queue alone, adds the stepping task at its end, or
      takes the stepping task from its head together with the free lock. */
  lemma QueueIsFifo(tasks: seq<Task>, s: State, t: nat, c: Choice, e: Endpoint)
    requires Shape(tasks, s) && Enabled(tasks, s, t)
    ensures var s' := Next(tasks, s, t, c);
      || Queue(s', e) == Queue(s, e)
      || Queue(s', e) == Queue(s, e) + [t]
      || (Queue(s, e) == [t] + Queue(s', e) && e !in s.holder && e in s'.holder && s'.holder[e] == t)
  {
    assert ValidPc(tasks[t], s.pcs[t]);
    var pc := s.pcs[t];
    hide StrictlySorted, Script, NextCall, NextOther, NextLock, ValidPc, Order;
    if pc.Acquiring? || pc.Waiting? {
      LockIsFifo(tasks, s, t, e);
    } else if pc.Running? || pc.Doomed? {
      CallMoves(tasks, s, t, c);
    } else if !pc.Releasing? {
      OtherMoves(tasks, s, t, c);
    }
  }

  lemma LockIsFifo(tasks: seq<Task>, s: State, t: nat, e: Endpoint)
    requires Shape(tasks, s) && Enabled(tasks, s, t) && (s.pcs[t].Acquiring? || s.pcs[t].Waiting?)
    ensures var s' := NextLock(tasks, s, t);
      || Queue(s', e) == Queue(s, e)
      || Queue(s', e) == Queue(s, e) + [t]
      || (Queue(s, e) == [t] + Queue(s', e) && e !in s.holder && e in s'.holder && s'.holder[e] == t)
  {
    assert ValidPc(tasks[t], s.pcs[t]);
    hide StrictlySorted, ValidPc, Order;
  }

  lemma OneOwner(tasks: seq<Task>, s: State, t: nat, u: nat, e: Endpoint)
    requires LocksExact(tasks, s) && t < |tasks| && u < |tasks|
    requires e in Owns(tasks[t], s.pcs[t]) && e in Owns(tasks[u], s.pcs[u])
    ensures t == u
  {
    hide Owns, Wants;
    var v := ViewOf(tasks, s);
    assert e in v.owns[t] && e in v.owns[u];
  }

  // ----- no deadlock, and every run ends -----

  /** The waiting tasks whose wanted endpoint comes after `e`. */
  ghost function Ahead(tasks: seq<Task>, s: State, e: Endpoint): set<nat>
    requires |s.pcs| == |tasks|
  {
    set u: nat | u < |tasks| && Wants(tasks[u], s.pcs[u]).Some? && LexLess(e, Wants(tasks[u], s.pcs[u]).value)
  }

  lemma OwnedBeforeWanted(task: Task, pc: Pc, e: Endpoint)
    requires e in Owns(task, pc) && Wants(task, pc).Some?
    ensures LexLess(e, Wants(task, pc).value)
  {
    hide LexLe, LexLess;
    var order := Order(task);
    var i :| 0 <= i < pc.k && order[..pc.k][i] == e;
    assert order[i] == e;
  }

  lemma AheadShrinks(tasks: seq<Task>, s: State, e: Endpoint, h: nat)
    requires |s.pcs| == |tasks| && h < |tasks| && Wants(tasks[h], s.pcs[h]).Some?
    requires LexLess(e, Wants(tasks[h], s.pcs[h]).value)
    ensures |Ahead(tasks, s, Wants(tasks[h], s.pcs[h]).value)| < |Ahead(tasks, s, e)|
  {
    hide LexLe, Wants;
    var f := Wants(tasks[h], s.pcs[h]).value;
    var a, b := Ahead(tasks, s, f), Ahead(tasks, s, e);
    forall u | u in a ensures u in b {
      LexLessTransitive(e, f, Wants(tasks[u], s.pcs[u]).value);
    }
    assert h in b && h !in a;
    SubsetSmaller(a, b, h);
  }

  lemma SubsetSmaller(a: set<nat>, b: set<nat>, h: nat)
    requires a <= b && h in b && h !in a
    ensures |a| < |b|
  {
    SubsetSize(a, b - {h});
  }

  lemma {:induction false} SubsetSize(a: set<nat>, b: set<nat>)
    requires a <= b
    ensures |a| <= |b|
  {
    if a != {} {
      var x :| x in a;
      SubsetSize(a - {x}, b - {x});
    }
  }

  /** Whenever some task is not done, some task can step: locks are taken in one global order. */
  lemma {:induction false} NoDeadlock(tasks: seq<Task>, s: State, t: nat) returns (u: nat)
    requires LocksExact(tasks, s) && t < |tasks| && !s.pcs[t].Done?
    ensures Enabled(tasks, s, u)
    decreases if Wants(tasks[t], s.pcs[t]).Some? then |Ahead(tasks, s, Wants(tasks[t], s.pcs[t]).value)| + 1 else 0
  {
    assert ValidPc(tasks[t], s.pcs[t]);
    hide StrictlySorted, LexLess, Script, ValidPc, Prefix;
    u := t;
    if s.pcs[t].Waiting? {
      var v, e := ViewOf(tasks, s), Wants(tasks[t], s.pcs[t]).value;
      assert t in InQueue(v.queue, e);
      if e in s.holder {
        var h := s.holder[e];
        assert e in v.owns[h];
        OwnerNotDone(tasks[h], s.pcs[h], e);
        if s.pcs[h].Waiting? {
          WaiterWants(tasks, s, h);
          OwnedBeforeWanted(tasks[h], s.pcs[h], e);
          AheadShrinks(tasks, s, e, h);
        }
        u := NoDeadlock(tasks, s, h);
      } else {
        u := InQueue(v.queue, e)[0];
        assert AllWaitFor(v.queue[e], v.wants, e);
        assert v.wants[u] == Some(e);
      }
    }
  }

  lemma WaiterWants(tasks: seq<Task>, s: State, h: nat)
    requires Shape(tasks, s) && h < |tasks| && s.pcs[h].Waiting?
    ensures Wants(tasks[h], s.pcs[h]).Some?
  {
    assert ValidPc(tasks[h], s.pcs[h]);
  }

  lemma OwnerNotDone(task: Task, pc: Pc, e: Endpoint)
    requires e in Owns(task, pc)
    ensures !pc.Done? && !pc.Fresh?
  {
  }

  /** An upper bound on the remaining steps of a reconciliation in this phase. */
  function PhaseRank(phase: Phase, stops: nat): nat {
    match phase
    case Planning => 4 * stops + 11
    case Starting => 4 * stops + 10
    case Attesting => 4 * stops + 9
    case Observing => 4 * stops + 8
    case Confirming => 4 * stops + 7
    case CleaningUp => 2
    case CleanupObserving => 1
    case RecoverAttesting => 4 * stops + 6
    case RecoverObserving => 4 * stops + 5
    case RecoverConfirming => 4 * stops + 4
    case Preparing(i) => if i < stops then 3 * stops + 2 + (stops - i) else 0
    case Stopping(i) => if i <= stops then 3 * (stops - i) + 1 else 0
    case StopObserving(i) => if i < stops then 3 * (stops - i) else 0
    case Finalizing(i) => if i < stops then 3 * (stops - i) - 1 else 0
  }

  function BodyBound(task: Task): nat {
    match task.kind
    case Claim(targets) => |Script(targets)| + 3
    case Reconcile(_, _, stops) => 4 * stops + 11
  }

  /** An upper bound on the remaining steps of a task. */
  function Rank(task: Task, pc: Pc): nat {
    var n := |Order(task)|;
    match pc
    case Fresh => n + 2 + BodyBound(task) + 2 * n + 2
    case Acquiring(k) => n + 2 + BodyBound(task) + (if k <= n then 2 * (n - k) + 1 else 0)
    case Waiting(k) => n + 2 + BodyBound(task) + (if k <= n then 2 * (n - k) else 0)
    case Trying => n + 2 + BodyBound(task)
    case Replanning => n + 1 + BodyBound(task)
    case Running(i) => n + 1 + (if i + 2 <= BodyBound(task) then BodyBound(task) - i - 2 else 0)
    case Doomed(i) => n + 1 + (if i + 2 <= BodyBound(task) then BodyBound(task) - i - 2 else 0)
    case Reconciling(phase) => n + 1 + PhaseRank(phase, if task.kind.Reconcile? then task.kind.stops else 0)
    case Releasing(k) => k + 1
    case Done => 0
  }

  lemma PhaseStepDown(task: Task, phase: Phase, c: Choice)
    requires ValidPc(task, Reconciling(phase)) && task.kind.Reconcile?
    ensures Rank(task, NextPhase(task.kind, phase, c, |Order(task)|)) < Rank(task, Reconciling(phase))
  {
    hide StrictlySorted, Script;
  }

  lemma CallStepDown(tasks: seq<Task>, s: State, t: nat, c: Choice)
    requires Shape(tasks, s) && t < |tasks| && (s.pcs[t].Running? || s.pcs[t].Doomed?) && ValidPc(tasks[t], s.pcs[t])
    ensures Rank(tasks[t], NextCall(tasks, s, t, c).pcs[t]) < Rank(tasks[t], s.pcs[t])
  {
    hide StrictlySorted, Script;
  }

  lemma LockStepDown(tasks: seq<Task>, s: State, t: nat)
    requires Shape(tasks, s) && Enabled(tasks, s, t) && (s.pcs[t].Acquiring? || s.pcs[t].Waiting?) && ValidPc(tasks[t], s.pcs[t])
    ensures Rank(tasks[t], NextLock(tasks, s, t).pcs[t]) < Rank(tasks[t], s.pcs[t])
  {
    hide StrictlySorted, Script;
  }

  lemma OtherStepDown(tasks: seq<Task>, s: State, t: nat, c: Choice)
    requires Shape(tasks, s) && t < |tasks| && ValidPc(tasks[t], s.pcs[t])
    requires s.pcs[t].Fresh? || s.pcs[t].Trying? || s.pcs[t].Replanning? || s.pcs[t].Reconciling?
    ensures Rank(tasks[t], NextOther(tasks, s, t, c).pcs[t]) < Rank(tasks[t], s.pcs[t])
  {
    hide StrictlySorted, Script, NextPhase, Attemptable, PhaseEvents;
    if s.pcs[t].Reconciling? {
      PhaseStepDown(tasks[t], s.pcs[t].phase, c);
    }
  }

  lemma StepGoesDown(tasks: seq<Task>, s: State, t: nat, c: Choice)
    requires Shape(tasks, s) && Enabled(tasks, s, t)
    ensures Rank(tasks[t], Next(tasks, s, t, c).pcs[t]) < Rank(tasks[t], s.pcs[t])
  {
    assert ValidPc(tasks[t], s.pcs[t]);
    hide StrictlySorted, Script, NextLock, NextCall, NextOther, ValidPc, Rank;
    var pc := s.pcs[t];
    if pc.Acquiring? || pc.Waiting? {
      LockStepDown(tasks, s, t);
    } else if pc.Running? || pc.Doomed? {
      CallStepDown(tasks, s, t, c);
    } else if pc.Releasing? {
      ReleaseStepDown(tasks, s, t);
    } else {
      OtherStepDown(tasks, s, t, c);
    }
  }

  lemma ReleaseStepDown(tasks: seq<Task>, s: State, t: nat)
    requires Shape(tasks, s) && t < |tasks| && s.pcs[t].Releasing?
    ensures Rank(tasks[t], NextRelease(tasks, s, t).pcs[t]) < Rank(tasks[t], s.pcs[t])
  {
    assert ValidPc(tasks[t], s.pcs[t]);
    hide StrictlySorted, Script;
  }

  /** The steps all tasks together can still take. */
  function Total(tasks: seq<Task>, pcs: seq<Pc>): nat
    requires |tasks| == |pcs|
  {
    if tasks == [] then 0 else Rank(tasks[0], pcs[0]) + Total(tasks[1..], pcs[1..])
  }

  lemma {:induction false} TotalAfter(tasks: seq<Task>, pcs: seq<Pc>, t: nat, pc: Pc)
    requires |tasks| == |pcs| && t < |tasks|
    ensures Total(tasks, pcs[t := pc]) == Total(tasks, pcs) - Rank(tasks[t], pcs[t]) + Rank(tasks[t], pc)
  {
    hide Rank;
    if t == 0 {
      assert pcs[0 := pc][1..] == pcs[1..];
    } else {
      TotalAfter(tasks[1..], pcs[1..], t - 1, pc);
      assert pcs[t := pc][1..] == pcs[1..][t - 1 := pc];
    }
  }

  datatype Move = Move(task: nat, choice: Choice)

  /** The state a schedule leads to, if each of its moves is possible. */
  ghost function RunFrom(tasks: seq<Task>, s: State, schedule: seq<Move>): Option<State>
    requires Shape(tasks, s)
    decreases |schedule|
  {
    if schedule == [] then Some(s)
    else if !Enabled(tasks, s, schedule[0].task) then None
    else
      var m := schedule[0];
      StepMoves(tasks, s, m.task, m.choice);
      RunFrom(tasks, Next(tasks, s, m.task, m.choice), schedule[1..])
  }

  lemma {:induction false} RunIsBounded(tasks: seq<Task>, s: State, schedule: seq<Move>)
    requires LocksExact(tasks, s) && RunFrom(tasks, s, schedule).Some?
    ensures LocksExact(tasks, RunFrom(tasks, s, schedule).value)
    ensures |schedule| + Total(tasks, RunFrom(tasks, s, schedule).value.pcs) <= Total(tasks, s.pcs)
    decreases |schedule|
  {
    if schedule != [] {
      var m := schedule[0];
      StepMoves(tasks, s, m.task, m.choice);
      StepKeepsLocks(tasks, s, m.task, m.choice);
      StepGoesDown(tasks, s, m.task, m.choice);
      hide Next, Rank, Exact, ValidPc, Total;
      var s' := Next(tasks, s, m.task, m.choice);
      TotalAfter(tasks, s.pcs, m.task, s'.pcs[m.task]);
      RunIsBounded(tasks, s', schedule[1..]);
    }
  }

  /** Each endpoint lock has at most one holder, after every run. */
  lemma MutualExclusion(tasks: seq<Task>, schedule: seq<Move>, t: nat, u: nat, e: Endpoint)
    requires Shape(tasks, Start(tasks)) && RunFrom(tasks, Start(tasks), schedule).Some?
    requires var s := RunFrom(tasks, Start(tasks), schedule).value;
      t < |tasks| && u < |tasks| && |s.pcs| == |tasks| && e in Owns(tasks[t], s.pcs[t]) && e in Owns(tasks[u], s.pcs[u])
    ensures t == u
  {
    StartLocksExact(tasks);
    RunIsBounded(tasks, Start(tasks), schedule);
    OneOwner(tasks, RunFrom(tasks, Start(tasks), schedule).value, t, u, e);
  }

  ghost predicate AllDone(s: State) {
    forall t :: 0 <= t < |s.pcs| ==> s.pcs[t].Done?
  }

  /** Step by step to the end: some task can always move, and every move lowers what is left. */
  lemma {:induction false} Finish(tasks: seq<Task>, s: State) returns (more: seq<Move>)
    requires LocksExact(tasks, s)
    ensures RunFrom(tasks, s, more).Some? && AllDone(RunFrom(tasks, s, more).value)
    decreases Total(tasks, s.pcs)
  {
    if AllDone(s) {
      more := [];
    } else {
      var t :| 0 <= t < |s.pcs| && !s.pcs[t].Done?;
      var u := NoDeadlock(tasks, s, t);
      StepMoves(tasks, s, u, Good);
      StepKeepsLocks(tasks, s, u, Good);
      StepGoesDown(tasks, s, u, Good);
      hide Next, Rank, Exact, ValidPc, Total, AllDone;
      var s' := Next(tasks, s, u, Good);
      TotalAfter(tasks, s.pcs, u, s'.pcs[u]);
      var rest := Finish(tasks, s');
      more := [Move(u, Good)] + rest;
      assert more[1..] == rest;
    }
  }

  lemma FirstMove(tasks: seq<Task>, s: State, m: Move, rest: seq<Move>)
    requires Shape(tasks, s)
    ensures RunFrom(tasks, s, []) == Some(s)
    ensures !Enabled(tasks, s, m.task) ==> RunFrom(tasks, s, [m] + rest).None?
    ensures Enabled(tasks, s, m.task) ==> Shape(tasks, Next(tasks, s, m.task, m.choice))
    ensures Enabled(tasks, s, m.task) ==>
      RunFrom(tasks, s, [m] + rest) == RunFrom(tasks, Next(tasks, s, m.task, m.choice), rest)
  {
    if Enabled(tasks, s, m.task) {
      StepMoves(tasks, s, m.task, m.choice);
    }
    hide Next, Enabled, ValidPc;
    assert ([m] + rest)[1..] == rest;
  }

  lemma {:induction false} RunsJoin(tasks: seq<Task>, s: State, a: seq<Move>, b: seq<Move>)
    requires LocksExact(tasks, s) && RunFrom(tasks, s, a).Some?
    ensures LocksExact(tasks, RunFrom(tasks, s, a).value)
    ensures RunFrom(tasks, s, a + b) == RunFrom(tasks, RunFrom(tasks, s, a).value, b)
    decreases |a|
  {
    hide Next, Exact, ValidPc, RunFrom, Enabled;
    if a == [] {
      FirstMove(tasks, s, Move(0, Good), []);
      assert a + b == b;
    } else {
      var m, rest := a[0], a[1..];
      assert a == [m] + rest && a + b == [m] + (rest + b);
      FirstMove(tasks, s, m, rest);
      FirstMove(tasks, s, m, rest + b);
      StepKeepsLocks(tasks, s, m.task, m.choice);
      RunsJoin(tasks, Next(tasks, s, m.task, m.choice), rest, b);
    }
  }

  /** Any finite set of tasks: every run is no longer than a bound known from the start, and can be continued to
      one in which all tasks are done. */
  lemma EveryRunCompletes(tasks: seq<Task>, schedule: seq<Move>) returns (more: seq<Move>)
    requires Shape(tasks, Start(tasks)) && RunFrom(tasks, Start(tasks), schedule).Some?
    ensures |schedule| <= Total(tasks, Start(tasks).pcs)
    ensures RunFrom(tasks, Start(tasks), schedule + more).Some?
    ensures AllDone(RunFrom(tasks, Start(tasks), schedule + more).value)
  {
    StartLocksExact(tasks);
    hide LocksExact, Start, RunFrom, AllDone, Shape;
    RunIsBounded(tasks, Start(tasks), schedule);
    RunsJoin(tasks, Start(tasks), schedule, []);
    more := Finish(tasks, RunFrom(tasks, Start(tasks), schedule).value);
    RunsJoin(tasks, Start(tasks), schedule, more);
  }

  lemma StartLocksExact(tasks: seq<Task>)
    requires Shape(tasks, Start(tasks))
    ensures LocksExact(tasks, Start(tasks))
  {
    hide StrictlySorted;
    var v := ViewOf(tasks, Start(tasks));
    forall t | 0 <= t < |tasks| ensures v.owns[t] == {} && v.wants[t] == None {
      assert Order(tasks[t])[..0] == [];
    }
  }

  // ----- the claim comes last, under unbroken locks -----

  /** No keeper is started on the task's endpoints and the task releases nothing. */
  predicate Quiet(ev: Event, task: Task, t: nat) {
    !(ev.KeeperStart? && ev.endpoint in task.endpoints) && !(ev.Released? && ev.task == t)
  }

  ghost predicate AcquiredBy(log: seq<Event>, n: nat, t: nat, es: set<Endpoint>) {
    n <= |log| && forall e :: e in es ==> exists a :: 0 <= a < n && log[a] == Acquired(t, e)
  }

  /** From log position `n` on nothing disturbed the task. */
  ghost predicate Undisturbed(log: seq<Event>, n: nat, task: Task, t: nat) {
    n <= |log| && forall j :: n <= j < |log| ==> Quiet(log[j], task, t)
  }

  ghost predicate NeverReleased(log: seq<Event>, t: nat) {
    forall j :: 0 <= j < |log| ==> !(log[j].Released? && log[j].task == t)
  }

  /** `at` lists where the log has the first calls of the script, all since position `n`, in order. */
  ghost predicate Completed(log: seq<Event>, n: nat, at: seq<nat>, t: nat, script: seq<Action>) {
    && |at| <= |script|
    && (forall k :: 0 <= k < |at| ==> n <= at[k] < |log| && log[at[k]] == Did(t, script[k]))
    && (forall k, l :: 0 <= k < l < |at| ==> at[k] < at[l])
  }

  /** What the log shows about a task that has not begun to release. */
  ghost predicate History(task: Task, t: nat, pc: Pc, n: nat, at: seq<nat>, log: seq<Event>) {
    !pc.Releasing? && !pc.Done? ==>
      && NeverReleased(log, t)
      && AcquiredBy(log, if IsBody(pc) then n else |log|, t, Owns(task, pc))
      && (IsBody(pc) && task.kind.Claim? ==> Undisturbed(log, n, task, t))
      && (pc.Trying? || pc.Replanning? ==> at == [])
      && (pc.Running? && task.kind.Claim? ==> |at| == pc.i && Completed(log, n, at, t, Script(task.kind.targets)))
  }

  /** The claim at the end of `log`: all locks taken before position `n` and none released, no
      keeper start on the locked endpoints since, and the whole script completed in order. */
  ghost predicate JustifiedBy(task: Task, t: nat, log: seq<Event>, n: nat, at: seq<nat>) {
    && task.kind.Claim? && NeverReleased(log, t) && AcquiredBy(log, n, t, task.endpoints)
    && Undisturbed(log, n, task, t)
    && |at| == |Script(task.kind.targets)| && Completed(log, n, at, t, Script(task.kind.targets))
  }

  ghost predicate Justified(task: Task, t: nat, log: seq<Event>) {
    exists n: nat, at: seq<nat> :: JustifiedBy(task, t, log, n, at)
  }

  ghost predicate ClaimsJustified(tasks: seq<Task>, log: seq<Event>) {
    forall j :: 0 <= j < |log| && log[j].Claimed? ==>
      log[j].task < |tasks| && Justified(tasks[log[j].task], log[j].task, log[..j])
  }

  ghost predicate Histories(tasks: seq<Task>, s: State)
    requires Shape(tasks, s)
  {
    && (forall t :: 0 <= t < |tasks| ==> History(tasks[t], t, s.pcs[t], s.entered[t], s.at[t], s.log))
    && ClaimsJustified(tasks, s.log)
  }

  /** The one event a step may append. */
  ghost predicate Appends(tasks: seq<Task>, s: State, s': State, t: nat)
    requires Shape(tasks, s) && t < |tasks|
  {
    s'.log == s.log || exists ev :: s'.log == s.log + [ev] && FairEvent(tasks[t], t, s.pcs[t], ev)
  }

  ghost predicate FairEvent(task: Task, t: nat, pc: Pc, ev: Event) {
    && (ev.KeeperStart? ==> task.kind.Reconcile? && ev.endpoint in Owns(task, pc))
    && (ev.Released? ==> ev.task == t && pc.Releasing?)
    && (ev.Claimed? ==> ev.task == t && task.kind.Claim? && pc.Running? && pc.i == |Script(task.kind.targets)|)
  }

  lemma BodyOwnsAll(task: Task, pc: Pc)
    requires IsBody(pc)
    ensures Owns(task, pc) == task.endpoints
  {
    hide StrictlySorted;
    var order := Order(task);
    assert order[..|order|] == order;
    assert forall e :: e in order <==> e in task.endpoints;
  }

  lemma LockAppends(tasks: seq<Task>, s: State, t: nat)
    requires Shape(tasks, s) && Enabled(tasks, s, t) && (s.pcs[t].Acquiring? || s.pcs[t].Waiting?)
    ensures var s' := NextLock(tasks, s, t);
      s'.log == s.log || (|s'.log| == |s.log| + 1 && s'.log == s.log + [s'.log[|s.log|]] && s'.log[|s.log|].Acquired?)
  {
    hide StrictlySorted, ValidPc;
  }

  lemma CallAppends(tasks: seq<Task>, s: State, t: nat, c: Choice)
    requires Shape(tasks, s) && t < |tasks| && tasks[t].kind.Claim? && (s.pcs[t].Running? || s.pcs[t].Doomed?)
    ensures var s' := NextCall(tasks, s, t, c);
      s'.log == s.log
      || (|s'.log| == |s.log| + 1 && s'.log == s.log + [s'.log[|s.log|]]
          && FairEvent(tasks[t], t, s.pcs[t], s'.log[|s.log|]))
  {
    hide StrictlySorted, Script, ValidPc, Owns;
  }

  lemma OtherAppends(tasks: seq<Task>, s: State, t: nat, c: Choice)
    requires Shape(tasks, s) && t < |tasks| && ValidPc(tasks[t], s.pcs[t])
    requires s.pcs[t].Fresh? || s.pcs[t].Trying? || s.pcs[t].Replanning? || s.pcs[t].Reconciling?
    ensures var s' := NextOther(tasks, s, t, c);
      s'.log == s.log
      || (|s'.log| == |s.log| + 1 && s'.log == s.log + [s'.log[|s.log|]]
          && FairEvent(tasks[t], t, s.pcs[t], s'.log[|s.log|]))
  {
    hide StrictlySorted, Script, Owns, NextPhase, PhaseEvents, Attemptable;
    if s.pcs[t].Reconciling? {
      BodyOwnsAll(tasks[t], s.pcs[t]);
      StartsOnOwn(tasks[t], t, s.pcs[t].phase, c);
      var evs := PhaseEvents(tasks[t], t, s.pcs[t].phase, c);
      assert evs == [] || evs == [evs[0]];
    }
  }

  lemma StepAppends(tasks: seq<Task>, s: State, t: nat, c: Choice)
    requires Shape(tasks, s) && Enabled(tasks, s, t)
    ensures Appends(tasks, s, Next(tasks, s, t, c), t)
  {
    assert ValidPc(tasks[t], s.pcs[t]);
    var s', pc := Next(tasks, s, t, c), s.pcs[t];
    if pc.Acquiring? || pc.Waiting? {
      LockAppends(tasks, s, t);
    } else if pc.Running? || pc.Doomed? {
      CallAppends(tasks, s, t, c);
    } else if pc.Releasing? {
      assert s'.log == s.log || s'.log == s.log + [Released(t, Order(tasks[t])[pc.k - 1])];
    } else {
      OtherAppends(tasks, s, t, c);
    }
    hide StrictlySorted, Script, Owns, NextLock, NextCall, NextRelease, NextOther, ValidPc;
    if s'.log != s.log {
      var ev := s'.log[|s.log|];
      assert s'.log == s.log + [ev] && FairEvent(tasks[t], t, pc, ev);
    }
  }

  lemma StartsOnOwn(task: Task, t: nat, phase: Phase, c: Choice)
    requires task.endpoints != {}
    ensures forall ev :: ev in PhaseEvents(task, t, phase, c) ==>
      (ev.KeeperStart? ==> ev.endpoint in task.endpoints) && !ev.Released? && !ev.Claimed?
    ensures |PhaseEvents(task, t, phase, c)| <= 1
  {
    hide StrictlySorted;
    assert Order(task)[0] in Order(task);
  }

  lemma LongerLog(task: Task, t: nat, pc: Pc, n: nat, at: seq<nat>, log: seq<Event>, ev: Event)
    requires History(task, t, pc, n, at, log)
    requires !(ev.Released? && ev.task == t) && (IsBody(pc) && task.kind.Claim? ==> Quiet(ev, task, t))
    ensures History(task, t, pc, n, at, log + [ev])
  {
    hide Owns, Script;
    if !pc.Releasing? && !pc.Done? {
      AcquiredLonger(log, [ev], if IsBody(pc) then n else |log|, t, Owns(task, pc));
      if !IsBody(pc) {
        AcquiredLater(log + [ev], |log|, |log| + 1, t, Owns(task, pc));
      }
    }
  }

  lemma AcquiredLonger(log: seq<Event>, more: seq<Event>, n: nat, t: nat, es: set<Endpoint>)
    requires AcquiredBy(log, n, t, es)
    ensures AcquiredBy(log + more, n, t, es)
  {
    forall e | e in es ensures exists a :: 0 <= a < n && (log + more)[a] == Acquired(t, e) {
      var a :| 0 <= a < n && log[a] == Acquired(t, e);
      assert (log + more)[a] == Acquired(t, e);
    }
  }

  lemma AcquiredLater(log: seq<Event>, n: nat, m: nat, t: nat, es: set<Endpoint>)
    requires AcquiredBy(log, n, t, es) && n <= m <= |log|
    ensures AcquiredBy(log, m, t, es)
  {
    forall e | e in es ensures exists a :: 0 <= a < m && log[a] == Acquired(t, e) {
      var a :| 0 <= a < n && log[a] == Acquired(t, e);
    }
  }

  /** The steps of other tasks disturb no history: a keeper start holds the lock it starts under. */
  lemma OthersKeepHistory(tasks: seq<Task>, s: State, t: nat, c: Choice, u: nat)
    requires LocksExact(tasks, s) && Enabled(tasks, s, t) && u < |tasks| && u != t
    requires History(tasks[u], u, s.pcs[u], s.entered[u], s.at[u], s.log)
    ensures var s' := Next(tasks, s, t, c);
      Shape(tasks, s') && History(tasks[u], u, s'.pcs[u], s'.entered[u], s'.at[u], s'.log)
  {
    StepMoves(tasks, s, t, c);
    StepAppends(tasks, s, t, c);
    SameHistoryVariables(tasks, s, t, c, u);
    hide Next, Exact, ValidPc, History, Owns;
    var s' := Next(tasks, s, t, c);
    if s'.log != s.log {
      var ev :| s'.log == s.log + [ev] && FairEvent(tasks[t], t, s.pcs[t], ev);
      if IsBody(s.pcs[u]) && ev.KeeperStart? && ev.endpoint in tasks[u].endpoints {
        BodyOwnsAll(tasks[u], s.pcs[u]);
        OneOwner(tasks, s, t, u, ev.endpoint);
        assert false;
      }
      LongerLog(tasks[u], u, s.pcs[u], s.entered[u], s.at[u], s.log, ev);
    }
  }

  /** A step changes the history variables of no other task. */
  ghost predicate SameHistory(tasks: seq<Task>, s: State, s': State, u: nat)
    requires |s.entered| == |s.at| == |tasks| && u < |tasks|
  {
    |s'.entered| == |s'.at| == |tasks| && s'.entered[u] == s.entered[u] && s'.at[u] == s.at[u]
  }

  lemma LockSameHistory(tasks: seq<Task>, s: State, t: nat, u: nat)
    requires Shape(tasks, s) && Enabled(tasks, s, t) && (s.pcs[t].Acquiring? || s.pcs[t].Waiting?)
    requires u < |tasks| && u != t
    ensures SameHistory(tasks, s, NextLock(tasks, s, t), u)
  {
    hide StrictlySorted, Script, ValidPc, Order;
  }

  lemma CallSameHistory(tasks: seq<Task>, s: State, t: nat, c: Choice, u: nat)
    requires Shape(tasks, s) && t < |tasks| && tasks[t].kind.Claim? && (s.pcs[t].Running? || s.pcs[t].Doomed?)
    requires u < |tasks| && u != t
    ensures SameHistory(tasks, s, NextCall(tasks, s, t, c), u)
  {
    hide StrictlySorted, Script, ValidPc, Order;
  }

  lemma SameHistoryVariables(tasks: seq<Task>, s: State, t: nat, c: Choice, u: nat)
    requires Shape(tasks, s) && Enabled(tasks, s, t) && u < |tasks| && u != t
    ensures SameHistory(tasks, s, Next(tasks, s, t, c), u)
  {
    var pc := s.pcs[t];
    assert ValidPc(tasks[t], pc);
    hide StrictlySorted, Script, PhaseEvents, NextPhase, NextLock, NextCall, ValidPc, Order;
    if pc.Acquiring? || pc.Waiting? {
      LockSameHistory(tasks, s, t, u);
    } else if pc.Running? || pc.Doomed? {
      CallSameHistory(tasks, s, t, c, u);
    }
  }

  lemma LockKeepsHistory(tasks: seq<Task>, s: State, t: nat)
    requires Shape(tasks, s) && Enabled(tasks, s, t) && (s.pcs[t].Acquiring? || s.pcs[t].Waiting?)
    requires History(tasks[t], t, s.pcs[t], s.entered[t], s.at[t], s.log)
    ensures var s' := NextLock(tasks, s, t);
      |s'.pcs| == |s'.entered| == |s'.at| == |tasks| && History(tasks[t], t, s'.pcs[t], s'.entered[t], s'.at[t], s'.log)
  {
    assert ValidPc(tasks[t], s.pcs[t]);
    hide StrictlySorted, Script, Prefix, ValidPc, NeverReleased, AcquiredBy, Undisturbed, Completed;
    var task, k := tasks[t], s.pcs[t].k;
    FromHere(s.log, task, t);
    if k < |Order(task)| {
      OneMoreLock(s.log, task, t, k);
    }
    assert s.log + [] == s.log;
  }

  lemma FromHere(log: seq<Event>, task: Task, t: nat)
    ensures Undisturbed(log, |log|, task, t)
  {
  }

  lemma OneMoreLock(log: seq<Event>, task: Task, t: nat, k: nat)
    requires k < |Order(task)| && NeverReleased(log, t) && AcquiredBy(log, |log|, t, Prefix(task, k))
    ensures var more := log + [Acquired(t, Order(task)[k])];
      NeverReleased(more, t) && AcquiredBy(more, |more|, t, Prefix(task, k + 1))
  {
    hide StrictlySorted, Prefix, Order;
    var e, es := Order(task)[k], Prefix(task, k);
    var more := log + [Acquired(t, e)];
    PrefixGrows(task, k);
    AcquiredLonger(log, [Acquired(t, e)], |log|, t, es);
    AcquiredLater(more, |log|, |more|, t, es);
    assert more[|log|] == Acquired(t, e);
  }

  lemma CompletedMore(log: seq<Event>, n: nat, at: seq<nat>, t: nat, script: seq<Action>)
    requires Completed(log, n, at, t, script) && |at| < |script| && n <= |log|
    ensures Completed(log + [Did(t, script[|at|])], n, at + [|log|], t, script)
  {
  }

  lemma CallKeepsHistory(tasks: seq<Task>, s: State, t: nat, c: Choice)
    requires Shape(tasks, s) && t < |tasks| && tasks[t].kind.Claim? && (s.pcs[t].Running? || s.pcs[t].Doomed?)
    requires ValidPc(tasks[t], s.pcs[t]) && History(tasks[t], t, s.pcs[t], s.entered[t], s.at[t], s.log)
    ensures var s' := NextCall(tasks, s, t, c);
      |s'.pcs| == |s'.entered| == |s'.at| == |tasks| && History(tasks[t], t, s'.pcs[t], s'.entered[t], s'.at[t], s'.log)
  {
    var task, s', i := tasks[t], NextCall(tasks, s, t, c), s.pcs[t].i;
    CallMoves(tasks, s, t, c);
    if !s'.pcs[t].Releasing? {
      var script := Script(task.kind.targets);
      hide StrictlySorted, Script, Prefix, ValidPc, Completed, NeverReleased, AcquiredBy, Undisturbed;
      var ev := if c.Good? then Did(t, script[i]) else Failed(t, script[i]);
      assert s'.log == s.log + [ev];
      LongerLog(task, t, s.pcs[t], s.entered[t], s.at[t], s.log, ev);
      assert Owns(task, s'.pcs[t]) == Owns(task, s.pcs[t]);
      if s'.pcs[t].Running? {
        UndisturbedLength(s.log, s.entered[t], task, t);
        CompletedMore(s.log, s.entered[t], s.at[t], t, script);
      }
    }
  }

  lemma UndisturbedLength(log: seq<Event>, n: nat, task: Task, t: nat)
    requires Undisturbed(log, n, task, t)
    ensures n <= |log|
  {
  }

  lemma PhaseKeepsHistory(task: Task, t: nat, pc: Pc, next: Pc, n: nat, at: seq<nat>, log: seq<Event>, more: seq<Event>)
    requires pc.Reconciling? && (next.Reconciling? || next.Releasing?) && task.kind.Reconcile?
    requires Owns(task, next) == Owns(task, pc)
    requires more == log || (|more| == |log| + 1 && more == log + [more[|log|]])
    requires more != log ==> !more[|log|].Released?
    requires History(task, t, pc, n, at, log)
    ensures History(task, t, next, n, at, more)
  {
    hide Script, Owns, AcquiredBy, NeverReleased, Undisturbed, Completed;
    if more != log {
      LongerLog(task, t, pc, n, at, log, more[|log|]);
    }
  }

  lemma OtherKeepsHistory(tasks: seq<Task>, s: State, t: nat, c: Choice)
    requires Shape(tasks, s) && t < |tasks| && ValidPc(tasks[t], s.pcs[t])
    requires s.pcs[t].Fresh? || s.pcs[t].Trying? || s.pcs[t].Replanning? || s.pcs[t].Reconciling?
    requires History(tasks[t], t, s.pcs[t], s.entered[t], s.at[t], s.log)
    ensures var s' := NextOther(tasks, s, t, c);
      |s'.pcs| == |s'.entered| == |s'.at| == |tasks| && History(tasks[t], t, s'.pcs[t], s'.entered[t], s'.at[t], s'.log)
  {
    var task, s', pc := tasks[t], NextOther(tasks, s, t, c), s.pcs[t];
    OtherMoves(tasks, s, t, c);
    OtherAppends(tasks, s, t, c);
    assert pc.Reconciling? ==> task.kind.Reconcile?;
    hide StrictlySorted, Script, Prefix, ValidPc, NextPhase, PhaseEvents, Attemptable, FairEvent, AcquiredBy,
      NeverReleased, Undisturbed, Completed;
    assert Owns(task, s'.pcs[t]) == Owns(task, pc);
    if pc.Reconciling? {
      hide History;
      PhaseStays(task, pc.phase, c);
      StartsOnOwn(task, t, pc.phase, c);
      PhaseKeepsHistory(task, t, pc, s'.pcs[t], s.entered[t], s.at[t], s.log, s'.log);
    } else if pc.Trying? {
      LongerLog(task, t, pc, s.entered[t], s.at[t], s.log, Tried(t, c));
    } else if pc.Replanning? {
      LongerLog(task, t, pc, s.entered[t], s.at[t], s.log, Planned(t, c));
    } else {
      assert s.log + [] == s.log;
    }
  }

  lemma PhaseStays(task: Task, phase: Phase, c: Choice)
    requires task.kind.Reconcile?
    ensures var pc := NextPhase(task.kind, phase, c, |Order(task)|); pc.Reconciling? || pc.Releasing?
  {
  }

  /** Every step keeps what the log shows about every task, and a claim is made only when the log
      justifies it. */
  lemma StepKeepsHistories(tasks: seq<Task>, s: State, t: nat, c: Choice)
    requires LocksExact(tasks, s) && Enabled(tasks, s, t) && Histories(tasks, s)
    ensures Shape(tasks, Next(tasks, s, t, c)) && Histories(tasks, Next(tasks, s, t, c))
  {
    StepMoves(tasks, s, t, c);
    StepAppends(tasks, s, t, c);
    assert ValidPc(tasks[t], s.pcs[t]);
    var s', pc := Next(tasks, s, t, c), s.pcs[t];
    hide StrictlySorted, Script, Exact, ValidPc, History, NextLock, NextCall, NextRelease, NextOther, Justified;
    forall u | 0 <= u < |tasks| ensures History(tasks[u], u, s'.pcs[u], s'.entered[u], s'.at[u], s'.log) {
      if u != t {
        OthersKeepHistory(tasks, s, t, c, u);
      } else if pc.Acquiring? || pc.Waiting? {
        LockKeepsHistory(tasks, s, t);
      } else if pc.Running? || pc.Doomed? {
        CallKeepsHistory(tasks, s, t, c);
      } else if pc.Releasing? {
        ReleasedHistory(tasks, s, t);
      } else {
        OtherKeepsHistory(tasks, s, t, c);
      }
    }
    if s'.log != s.log {
      var ev :| s'.log == s.log + [ev] && FairEvent(tasks[t], t, pc, ev);
      if ev.Claimed? {
        ClaimIsJustified(tasks[t], t, pc, s.entered[t], s.at[t], s.log);
      }
      ClaimsExtend(tasks, s.log, ev);
    }
  }

  lemma ReleasedHistory(tasks: seq<Task>, s: State, t: nat)
    requires Shape(tasks, s) && t < |tasks| && s.pcs[t].Releasing?
    ensures var s' := NextRelease(tasks, s, t);
      |s'.pcs| == |s'.entered| == |s'.at| == |tasks| && History(tasks[t], t, s'.pcs[t], s'.entered[t], s'.at[t], s'.log)
  {
    assert ValidPc(tasks[t], s.pcs[t]);
    hide StrictlySorted, Script;
  }

  lemma ClaimIsJustified(task: Task, t: nat, pc: Pc, n: nat, at: seq<nat>, log: seq<Event>)
    requires task.kind.Claim? && pc.Running? && pc.i == |Script(task.kind.targets)| && History(task, t, pc, n, at, log)
    ensures Justified(task, t, log)
  {
    BodyOwnsAll(task, pc);
    hide Script, Owns;
    assert JustifiedBy(task, t, log, n, at);
  }

  lemma ClaimsExtend(tasks: seq<Task>, log: seq<Event>, ev: Event)
    requires ClaimsJustified(tasks, log)
    requires ev.Claimed? ==> ev.task < |tasks| && Justified(tasks[ev.task], ev.task, log)
    ensures ClaimsJustified(tasks, log + [ev])
  {
    hide Justified;
    forall j | 0 <= j < |log + [ev]| && (log + [ev])[j].Claimed?
      ensures (log + [ev])[j].task < |tasks| && Justified(tasks[(log + [ev])[j].task], (log + [ev])[j].task, (log + [ev])[..j])
    {
      assert (log + [ev])[..j] == log[..j];
      assert log[..|log|] == log;
    }
  }

  lemma {:induction false} RunKeepsHistories(tasks: seq<Task>, s: State, schedule: seq<Move>)
    requires LocksExact(tasks, s) && Histories(tasks, s) && RunFrom(tasks, s, schedule).Some?
    ensures Shape(tasks, RunFrom(tasks, s, schedule).value) && Histories(tasks, RunFrom(tasks, s, schedule).value)
    decreases |schedule|
  {
    if schedule != [] {
      var m := schedule[0];
      StepMoves(tasks, s, m.task, m.choice);
      StepKeepsLocks(tasks, s, m.task, m.choice);
      StepKeepsHistories(tasks, s, m.task, m.choice);
      hide Next, Exact, ValidPc, Histories;
      RunKeepsHistories(tasks, Next(tasks, s, m.task, m.choice), schedule[1..]);
    }
  }

  /** The planned keeper was handed off inside `log`, in order, since all locks were held: it was
      prepared with its lease, stopped with a verified reply, observed and finalised. */
  ghost predicate HandedOff(log: seq<Event>, n: nat, t: nat, target: Target) {
    exists p, q, r, f ::
      && n <= p < q < r < f < |log| && log[p] == Did(t, Prepare(target)) && log[q] == Did(t, Stop(target))
      && log[r] == Did(t, Observe(target)) && log[f] == Did(t, Finalize(target))
  }

  /** The claim callback of every run: at that moment every planned keeper has been handed off
      since the task took its last lock, no lock was released, and no keeper was started on any
      locked endpoint in the meantime. */
  lemma ClaimComesLast(tasks: seq<Task>, schedule: seq<Move>, j: nat) returns (n: nat)
    requires Shape(tasks, Start(tasks)) && RunFrom(tasks, Start(tasks), schedule).Some?
    requires var log := RunFrom(tasks, Start(tasks), schedule).value.log; j < |log| && log[j].Claimed?
    ensures var log := RunFrom(tasks, Start(tasks), schedule).value.log;
      var t := log[j].task;
      && t < |tasks| && tasks[t].kind.Claim? && n <= j
      && AcquiredBy(log[..j], n, t, tasks[t].endpoints)
      && NeverReleased(log[..j], t)
      && (forall i :: n <= i < j && log[i].KeeperStart? ==> log[i].endpoint !in tasks[t].endpoints)
      && (forall target :: target in tasks[t].kind.targets ==> HandedOff(log[..j], n, t, target))
  {
    StartLocksExact(tasks);
    StartHistories(tasks);
    RunKeepsHistories(tasks, Start(tasks), schedule);
    var log := RunFrom(tasks, Start(tasks), schedule).value.log;
    var t := log[j].task;
    hide RunFrom, Script, Shape, JustifiedBy, HandedOff, AcquiredBy, NeverReleased;
    var m: nat, at: seq<nat> :| JustifiedBy(tasks[t], t, log[..j], m, at);
    n := m;
    WhatJustifies(tasks[t], t, log, j, n, at);
  }

  lemma WhatJustifies(task: Task, t: nat, log: seq<Event>, j: nat, n: nat, at: seq<nat>)
    requires j <= |log| && JustifiedBy(task, t, log[..j], n, at)
    ensures task.kind.Claim? && n <= j && AcquiredBy(log[..j], n, t, task.endpoints) && NeverReleased(log[..j], t)
    ensures forall i :: n <= i < j && log[i].KeeperStart? ==> log[i].endpoint !in task.endpoints
    ensures forall target :: target in task.kind.targets ==> HandedOff(log[..j], n, t, target)
  {
    hide Script;
    forall target | target in task.kind.targets ensures HandedOff(log[..j], n, t, target) {
      ScriptIsThePlan(task.kind.targets);
      var p: nat, q: nat :| HandsOff(Script(task.kind.targets), target, p, q);
      var l := log[..j];
      assert l[at[p]] == Did(t, Prepare(target)) && l[at[q]] == Did(t, Stop(target));
      assert l[at[q + 1]] == Did(t, Observe(target)) && l[at[q + 2]] == Did(t, Finalize(target));
      assert at[p] < at[q] < at[q + 1] < at[q + 2];
    }
    forall i | n <= i < j && log[i].KeeperStart? ensures log[i].endpoint !in task.endpoints {
      assert Quiet(log[..j][i], task, t);
    }
  }

  lemma StartHistories(tasks: seq<Task>)
    requires Shape(tasks, Start(tasks))
    ensures Histories(tasks, Start(tasks))
  {
    hide StrictlySorted;
    forall t | 0 <= t < |tasks| ensures Owns(tasks[t], Fresh) == {} {
      assert Order(tasks[t])[..0] == [];
    }
  }
}
