/** What one claim shows in the log of a run, whatever the other tasks do in between: its calls are the plan's calls in
    program order, up to the first failure; the claim callback comes once, after a hand-off without a failure. */
module HandoffTraces {
  import opened Text
  import opened Handoff

  /** The calls of a claim, as opposed to lock operations and keeper starts and stops. */
  predicate IsCall(ev: Event) {
    ev.Did? || ev.Failed? || ev.Tried? || ev.Planned? || ev.Claimed?
  }

  /** The calls of one task, in order. */
  function Own(log: seq<Event>, t: nat): seq<Event> {
    if log == [] then []
    else
      var last := log[|log| - 1];
      Own(log[..|log| - 1], t) + if last.task == t && IsCall(last) then [last] else []
  }

  lemma OwnSnoc(log: seq<Event>, ev: Event, t: nat)
    ensures Own(log + [ev], t) == Own(log, t) + if ev.task == t && IsCall(ev) then [ev] else []
  {
    assert (log + [ev])[..|log|] == log;
  }

  lemma {:induction false} OwnCounts(log: seq<Event>, t: nat, ev: Event)
    requires ev.task == t && IsCall(ev)
    ensures multiset(Own(log, t))[ev] == multiset(log)[ev]
    ensures ev in Own(log, t) <==> ev in log
  {
    if log != [] {
      var front, last := log[..|log| - 1], log[|log| - 1];
      OwnCounts(front, t, ev);
      assert log == front + [last];
    }
  }

  function Dids(t: nat, actions: seq<Action>): (es: seq<Event>)
    ensures |es| == |actions| && forall i :: 0 <= i < |es| ==> es[i] == Did(t, actions[i])
  {
    seq(|actions|, i requires 0 <= i < |actions| => Did(t, actions[i]))
  }

  // ----- the script around a stop -----

  /** Every stop is followed by the observation and the finalisation of its keeper. */
  predicate StopsFollowed(script: seq<Action>) {
    forall j :: 0 <= j < |script| && script[j].Stop? ==>
      && j + 2 < |script| && script[j + 1] == Observe(script[j].target) && script[j + 2] == Finalize(script[j].target)
  }

  lemma FollowedJoin(a: seq<Action>, b: seq<Action>)
    requires StopsFollowed(a) && StopsFollowed(b)
    ensures StopsFollowed(a + b)
  {
    var script := a + b;
    forall j | 0 <= j < |script| && script[j].Stop?
      ensures j + 2 < |script| && script[j + 1] == Observe(script[j].target) && script[j + 2] == Finalize(script[j].target)
    {
      if j < |a| {
        assert a[j].Stop?;
      } else {
        assert b[j - |a|].Stop?;
      }
    }
  }

  lemma {:induction false} StopsAreFollowed(ts: seq<Target>)
    ensures StopsFollowed(Stops(ts))
  {
    if ts != [] {
      StopsAreFollowed(ts[..|ts| - 1]);
      FollowedJoin(Stops(ts[..|ts| - 1]), [Stop(ts[|ts| - 1]), Observe(ts[|ts| - 1]), Finalize(ts[|ts| - 1])]);
    }
  }

  lemma {:induction false} ScriptOfFollowed(targets: seq<Target>, es: seq<Endpoint>)
    ensures StopsFollowed(ScriptOf(targets, es))
  {
    if es != [] {
      var ts := Of(targets, es[0]);
      StopsAreFollowed(ts);
      ScriptOfFollowed(targets, es[1..]);
      FollowedJoin([Resolve(es[0])] + Prepares(ts), Stops(ts));
      FollowedJoin([Resolve(es[0])] + Prepares(ts) + Stops(ts), ScriptOf(targets, es[1..]));
    }
  }

  lemma ScriptIsFollowed(targets: seq<Target>)
    ensures StopsFollowed(Script(targets))
    ensures targets != [] ==> Script(targets) != []
  {
    ScriptOfFollowed(targets, Groups(targets));
    if targets != [] {
      ScriptIsThePlan(targets);
      assert targets[0] in targets;
      var p: nat, q: nat :| HandsOff(Script(targets), targets[0], p, q);
    }
  }

  // ----- the trace of one claim -----

  /** What precedes every hand-off: no capacity for the ordinary claim, and a plan. */
  function Head(t: nat): seq<Event> {
    [Tried(t, Retry), Planned(t, Good)]
  }

  /** The first `j` calls went well and the next one failed. */
  function FailedAt(t: nat, script: seq<Action>, j: nat): seq<Event>
    requires j < |script|
  {
    Head(t) + Dids(t, script[..j]) + [Failed(t, script[j])]
  }

  /** After a failed stop the keeper is observed and, if that went well, finalised; after any other failure nothing
      more is called. */
  predicate Aftermath(t: nat, script: seq<Action>, j: nat, rest: seq<Event>) {
    j < |script|
    && if !script[j].Stop? then rest == []
       else
         var observe, finalize := Observe(script[j].target), Finalize(script[j].target);
         rest in {[Failed(t, observe)], [Did(t, observe), Did(t, finalize)], [Did(t, observe), Failed(t, finalize)]}
  }

  ghost predicate GaveUp(t: nat, script: seq<Action>, trace: seq<Event>, j: nat, rest: seq<Event>) {
    j < |script| && Aftermath(t, script, j, rest) && trace == FailedAt(t, script, j) + rest
  }

  /** No hand-off: the ordinary claim did not fail for lack of capacity, or there is no plan that can be attempted. */
  ghost predicate NoHandOff(t: nat, targets: seq<Target>, trace: seq<Event>) {
    exists c: Choice :: (c != Retry && trace == [Tried(t, c)])
                        || ((c != Good || !Attemptable(targets)) && trace == [Tried(t, Retry), Planned(t, c)])
  }

  /** What a finished claim leaves in the log: no hand-off, a failed one, or all calls of the plan and the claim
      callback. */
  ghost predicate FinalTrace(t: nat, targets: seq<Target>, trace: seq<Event>) {
    || NoHandOff(t, targets, trace)
    || (Attemptable(targets) && trace == Head(t) + Dids(t, Script(targets)) + [Claimed(t)])
    || (Attemptable(targets) && exists j: nat, rest :: GaveUp(t, Script(targets), trace, j, rest))
  }

  /** After a failed stop: the call that comes next is the observation, or the finalisation after a good one. */
  ghost predicate DoomedTrace(t: nat, script: seq<Action>, i: nat, trace: seq<Event>) {
    exists j: nat :: DoomedSince(t, script, i, trace, j)
  }

  ghost predicate DoomedSince(t: nat, script: seq<Action>, i: nat, trace: seq<Event>, j: nat) {
    && j < |script| && script[j].Stop?
    && ((i == j + 1 && trace == FailedAt(t, script, j))
        || (i == j + 2 && trace == FailedAt(t, script, j) + [Did(t, Observe(script[j].target))]))
  }

  /** How the log reads at each point of a task. */
  ghost predicate Fits(task: Task, t: nat, pc: Pc, trace: seq<Event>) {
    match task.kind
    case Reconcile(_, _, _) => trace == []
    case Claim(targets) =>
      match pc
      case Replanning => trace == [Tried(t, Retry)]
      case Running(i) =>
        Attemptable(targets) && i <= |Script(targets)| && trace == Head(t) + Dids(t, Script(targets)[..i])
      case Doomed(i) => Attemptable(targets) && DoomedTrace(t, Script(targets), i, trace)
      case Releasing(_) => FinalTrace(t, targets, trace)
      case Done => FinalTrace(t, targets, trace)
      case _ => trace == []
  }

  /** At most one event a step, and it is the stepping task's. */
  predicate Extends(log: seq<Event>, more: seq<Event>, t: nat) {
    more == log || (|more| == |log| + 1 && more == log + [more[|log|]] && more[|log|].task == t)
  }

  /** A step of task `t` that logs this event, or none, and leads to this point keeps the trace in line. */
  ghost predicate KeepsTrace(tasks: seq<Task>, s: State, s': State, t: nat)
    requires t < |tasks|
  {
    |s'.pcs| == |tasks| && Extends(s.log, s'.log, t) && Fits(tasks[t], t, s'.pcs[t], Own(s'.log, t))
  }

  lemma LogsOne(tasks: seq<Task>, s: State, s': State, t: nat, ev: Event)
    requires t < |tasks| == |s'.pcs| && s'.log == s.log + [ev] && ev.task == t
    requires Fits(tasks[t], t, s'.pcs[t], Own(s.log, t) + if IsCall(ev) then [ev] else [])
    ensures KeepsTrace(tasks, s, s', t)
  {
    hide Own, Fits;
    OwnSnoc(s.log, ev, t);
  }

  lemma LogsNoCall(tasks: seq<Task>, s: State, s': State, t: nat, ev: Event)
    requires t < |tasks| == |s'.pcs| && s'.log == s.log + [ev] && ev.task == t && !IsCall(ev)
    requires Fits(tasks[t], t, s'.pcs[t], Own(s.log, t))
    ensures KeepsTrace(tasks, s, s', t)
  {
    hide Own, Fits;
    OwnSnoc(s.log, ev, t);
    assert Own(s.log, t) + [] == Own(s.log, t);
  }

  lemma LogsNothing(tasks: seq<Task>, s: State, s': State, t: nat)
    requires t < |tasks| == |s'.pcs| && s'.log == s.log + []
    requires Fits(tasks[t], t, s'.pcs[t], Own(s.log, t))
    ensures KeepsTrace(tasks, s, s', t)
  {
    hide Own, Fits;
    assert s.log + [] == s.log;
  }

  lemma GoodCallFits(task: Task, t: nat, i: nat, trace: seq<Event>)
    requires task.kind.Claim? && Fits(task, t, Running(i), trace) && i < |Script(task.kind.targets)|
    ensures Fits(task, t, Running(i + 1), trace + [Did(t, Script(task.kind.targets)[i])])
  {
    hide Script, Attemptable;
    var script := Script(task.kind.targets);
    assert Head(t) + Dids(t, script[..i]) + [Did(t, script[i])] == Head(t) + Dids(t, script[..i + 1]);
  }

  lemma BadCallFits(task: Task, t: nat, i: nat, trace: seq<Event>, n: nat)
    requires task.kind.Claim? && Fits(task, t, Running(i), trace) && i < |Script(task.kind.targets)|
    ensures var script := Script(task.kind.targets);
      Fits(task, t, if script[i].Stop? then Doomed(i + 1) else Releasing(n), trace + [Failed(t, script[i])])
  {
    hide Script, Attemptable;
    var script := Script(task.kind.targets);
    var more := FailedAt(t, script, i);
    if script[i].Stop? {
      assert DoomedSince(t, script, i + 1, more, i);
    } else {
      assert more + [] == more;
      assert GaveUp(t, script, more, i, []);
    }
  }

  lemma LastCallFits(task: Task, t: nat, trace: seq<Event>, n: nat)
    requires task.kind.Claim? && Fits(task, t, Running(|Script(task.kind.targets)|), trace)
    ensures Fits(task, t, Releasing(n), trace + [Claimed(t)])
  {
    hide Script, Attemptable;
    var script := Script(task.kind.targets);
    assert script[..|script|] == script;
  }

  /** How a call that was made shows in the log. */
  function Reply(t: nat, action: Action, good: bool): (ev: Event)
    ensures ev.task == t && IsCall(ev)
  {
    if good then Did(t, action) else Failed(t, action)
  }

  lemma DoomedCallFits(task: Task, t: nat, i: nat, trace: seq<Event>, good: bool, n: nat)
    requires task.kind.Claim? && Fits(task, t, Doomed(i), trace)
    ensures i < |Script(task.kind.targets)|
    ensures var call := Script(task.kind.targets)[i];
      Fits(task, t, if call.Observe? && good then Doomed(i + 1) else Releasing(n), trace + [Reply(t, call, good)])
  {
    hide *;
    var script := Script(task.kind.targets);
    ScriptIsFollowed(task.kind.targets);
    var j := DoomedSome(task, t, i, trace);
    DoomedWhere(t, script, i, trace, j);
    if i == j + 1 {
      ObserveDoomed(task, t, script, j, trace, good, n);
    } else {
      FinalizeDoomed(task, t, script, j, trace, good, n);
    }
  }

  lemma DoomedWhere(t: nat, script: seq<Action>, i: nat, trace: seq<Event>, j: nat)
    requires StopsFollowed(script) && DoomedSince(t, script, i, trace, j)
    ensures (i == j + 1 || i == j + 2) && i < |script|
  {
  }

  lemma DoomedSome(task: Task, t: nat, i: nat, trace: seq<Event>) returns (j: nat)
    requires task.kind.Claim? && Fits(task, t, Doomed(i), trace)
    ensures Attemptable(task.kind.targets) && DoomedSince(t, Script(task.kind.targets), i, trace, j)
  {
    hide Script, Attemptable;
    j :| DoomedSince(t, Script(task.kind.targets), i, trace, j);
  }

  lemma DoomedFits(task: Task, t: nat, i: nat, trace: seq<Event>)
    requires task.kind.Claim? && Attemptable(task.kind.targets) && DoomedTrace(t, Script(task.kind.targets), i, trace)
    ensures Fits(task, t, Doomed(i), trace)
  {
    hide Script, Attemptable;
  }

  lemma GaveUpFits(task: Task, t: nat, n: nat, trace: seq<Event>, j: nat, rest: seq<Event>)
    requires task.kind.Claim? && Attemptable(task.kind.targets) && GaveUp(t, Script(task.kind.targets), trace, j, rest)
    ensures Fits(task, t, Releasing(n), trace)
  {
    hide Script, Attemptable, GaveUp;
  }

  lemma ObserveDoomed(task: Task, t: nat, script: seq<Action>, j: nat, trace: seq<Event>, good: bool, n: nat)
    requires task.kind.Claim? && Attemptable(task.kind.targets) && script == Script(task.kind.targets)
    requires StopsFollowed(script) && DoomedSince(t, script, j + 1, trace, j)
    ensures j + 1 < |script| && script[j + 1].Observe?
    ensures Fits(task, t, if good then Doomed(j + 2) else Releasing(n), trace + [Reply(t, script[j + 1], good)])
  {
    hide FailedAt, Fits, Script, Attemptable;
    var more := trace + [Reply(t, script[j + 1], good)];
    if good {
      assert DoomedSince(t, script, j + 2, more, j);
      DoomedFits(task, t, j + 2, more);
    } else {
      assert GaveUp(t, script, more, j, [Failed(t, script[j + 1])]);
      GaveUpFits(task, t, n, more, j, [Failed(t, script[j + 1])]);
    }
  }

  lemma FinalizeDoomed(task: Task, t: nat, script: seq<Action>, j: nat, trace: seq<Event>, good: bool, n: nat)
    requires task.kind.Claim? && Attemptable(task.kind.targets) && script == Script(task.kind.targets)
    requires StopsFollowed(script) && DoomedSince(t, script, j + 2, trace, j)
    ensures j + 2 < |script| && !script[j + 2].Observe?
    ensures Fits(task, t, Releasing(n), trace + [Reply(t, script[j + 2], good)])
  {
    hide FailedAt, Fits, Script, Attemptable;
    var last := Reply(t, script[j + 2], good);
    var rest := [Did(t, script[j + 1]), last];
    assert trace + [last] == FailedAt(t, script, j) + rest;
    assert GaveUp(t, script, trace + [last], j, rest);
    GaveUpFits(task, t, n, trace + [last], j, rest);
  }

  /** A hand-off step keeps the trace in line with the point the claim has reached. */
  lemma CallKeepsTrace(tasks: seq<Task>, s: State, t: nat, c: Choice)
    requires Shape(tasks, s) && t < |tasks| && tasks[t].kind.Claim? && (s.pcs[t].Running? || s.pcs[t].Doomed?)
    requires Fits(tasks[t], t, s.pcs[t], Own(s.log, t))
    ensures KeepsTrace(tasks, s, NextCall(tasks, s, t, c), t)
  {
    var s', script, i, n := NextCall(tasks, s, t, c), Script(tasks[t].kind.targets), s.pcs[t].i, |Order(tasks[t])|;
    var trace := Own(s.log, t);
    hide Script, StrictlySorted, ValidPc, Own, KeepsTrace, Order, Fits;
    if s.pcs[t].Doomed? {
      DoomedCallFits(tasks[t], t, i, trace, c.Good?, n);
      LogsOne(tasks, s, s', t, Reply(t, script[i], c.Good?));
    } else {
      InScript(tasks[t], t, i, trace);
      if i == |script| {
        LastCallFits(tasks[t], t, trace, n);
        LogsOne(tasks, s, s', t, Claimed(t));
      } else {
        if c.Good? {
          GoodCallFits(tasks[t], t, i, trace);
        } else {
          BadCallFits(tasks[t], t, i, trace, n);
        }
        LogsOne(tasks, s, s', t, Reply(t, script[i], c.Good?));
      }
    }
  }

  lemma InScript(task: Task, t: nat, i: nat, trace: seq<Event>)
    requires task.kind.Claim? && Fits(task, t, Running(i), trace)
    ensures i <= |Script(task.kind.targets)|
  {
    hide Script;
  }

  lemma OtherKeepsTrace(tasks: seq<Task>, s: State, t: nat, c: Choice)
    requires Shape(tasks, s) && t < |tasks| && ValidPc(tasks[t], s.pcs[t])
    requires s.pcs[t].Fresh? || s.pcs[t].Trying? || s.pcs[t].Replanning? || s.pcs[t].Reconciling?
    requires Fits(tasks[t], t, s.pcs[t], Own(s.log, t))
    ensures KeepsTrace(tasks, s, NextOther(tasks, s, t, c), t)
  {
    OtherMoves(tasks, s, t, c);
    if s.pcs[t].Reconciling? {
      PhaseKeepsTrace(tasks, s, t, c);
    } else {
      var s' := NextOther(tasks, s, t, c);
      hide Script, StrictlySorted, Own, FinalTrace, Attemptable, Order, KeepsTrace, ValidPc, Fits;
      OtherFits(tasks[t], t, s.pcs[t], s'.pcs[t], Own(s.log, t), c);
      if s.pcs[t].Trying? {
        LogsOne(tasks, s, s', t, Tried(t, c));
      } else if s.pcs[t].Replanning? {
        LogsOne(tasks, s, s', t, Planned(t, c));
      } else {
        LogsNothing(tasks, s, s', t);
      }
    }
  }

  lemma OtherFits(task: Task, t: nat, pc: Pc, next: Pc, trace: seq<Event>, c: Choice)
    requires Fits(task, t, pc, trace) && ValidPc(task, pc)
    ensures pc.Fresh? && next.Acquiring? ==> Fits(task, t, next, trace)
    ensures pc.Trying? && (if c.Retry? then next.Replanning? else next.Releasing?) ==>
              Fits(task, t, next, trace + [Tried(t, c)])
    ensures pc.Replanning? && task.kind.Claim?
              && (if c.Good? && Attemptable(task.kind.targets) then next == Running(0) else next.Releasing?) ==>
              Fits(task, t, next, trace + [Planned(t, c)])
  {
    hide Script, StrictlySorted, FinalTrace, Attemptable, Order;
    assert [] + [Tried(t, c)] == [Tried(t, c)];
    if task.kind.Claim? {
      NoHandOffIsFinal(t, task.kind.targets, c);
    }
  }

  lemma NoHandOffIsFinal(t: nat, targets: seq<Target>, c: Choice)
    ensures !c.Retry? ==> FinalTrace(t, targets, [Tried(t, c)])
    ensures !c.Good? || !Attemptable(targets) ==> FinalTrace(t, targets, [Tried(t, Retry)] + [Planned(t, c)])
    ensures [Tried(t, Retry)] + [Planned(t, Good)] == Head(t) + Dids(t, Script(targets)[..0])
  {
    hide Script, Attemptable;
    assert [Tried(t, Retry)] + [Planned(t, c)] == [Tried(t, Retry), Planned(t, c)];
  }

  lemma PhaseKeepsTrace(tasks: seq<Task>, s: State, t: nat, c: Choice)
    requires Shape(tasks, s) && t < |tasks| && ValidPc(tasks[t], s.pcs[t]) && s.pcs[t].Reconciling?
    requires Fits(tasks[t], t, s.pcs[t], Own(s.log, t))
    ensures KeepsTrace(tasks, s, NextOther(tasks, s, t, c), t)
  {
    var s', phase := NextOther(tasks, s, t, c), s.pcs[t].phase;
    PhaseMakesNoCall(tasks[t], t, phase, c);
    var evs := PhaseEvents(tasks[t], t, phase, c);
    hide Script, StrictlySorted, Own, FinalTrace, NextPhase, PhaseEvents, Order, KeepsTrace, ValidPc;
    if evs == [] {
      LogsNothing(tasks, s, s', t);
    } else {
      LogsNoCall(tasks, s, s', t, evs[0]);
    }
  }

  lemma PhaseMakesNoCall(task: Task, t: nat, phase: Phase, c: Choice)
    requires task.kind.Reconcile? && |task.endpoints| == 1
    ensures task.endpoints != {}
    ensures var evs := PhaseEvents(task, t, phase, c);
      evs == [] || (|evs| == 1 && evs == [evs[0]] && evs[0].task == t && !IsCall(evs[0]))
  {
    hide StrictlySorted;
    assert task.endpoints != {};
  }

  lemma LockKeepsTrace(tasks: seq<Task>, s: State, t: nat)
    requires Shape(tasks, s) && Enabled(tasks, s, t) && (s.pcs[t].Acquiring? || s.pcs[t].Waiting?)
    requires Fits(tasks[t], t, s.pcs[t], Own(s.log, t))
    ensures KeepsTrace(tasks, s, NextLock(tasks, s, t), t)
  {
    var s', k := NextLock(tasks, s, t), s.pcs[t].k;
    assert ValidPc(tasks[t], s.pcs[t]);
    hide Script, StrictlySorted, Own, Attemptable, KeepsTrace;
    if k < |Order(tasks[t])| && s'.pcs[t] == Acquiring(k + 1) {
      LogsNoCall(tasks, s, s', t, Acquired(t, Order(tasks[t])[k]));
    } else {
      LogsNothing(tasks, s, s', t);
    }
  }

  lemma ReleaseKeepsTrace(tasks: seq<Task>, s: State, t: nat)
    requires Shape(tasks, s) && t < |tasks| && s.pcs[t].Releasing? && ValidPc(tasks[t], s.pcs[t])
    requires Fits(tasks[t], t, s.pcs[t], Own(s.log, t))
    ensures KeepsTrace(tasks, s, NextRelease(tasks, s, t), t)
  {
    ReleaseMoves(tasks, s, t);
    var s', k, order := NextRelease(tasks, s, t), s.pcs[t].k, Order(tasks[t]);
    assert s'.log == s.log + if k == 0 then [] else [Released(t, order[k - 1])];
    assert s'.pcs[t] == if k == 0 then Done else Releasing(k - 1);
    assert k > 0 ==> !IsCall(Released(t, order[k - 1]));
    ReleasedFits(tasks[t], t, s.pcs[t], s'.pcs[t], Own(s.log, t));
    hide *;
    if k > 0 {
      LogsNoCall(tasks, s, s', t, Released(t, order[k - 1]));
    } else {
      LogsNothing(tasks, s, s', t);
    }
  }

  lemma ReleasedFits(task: Task, t: nat, pc: Pc, next: Pc, trace: seq<Event>)
    requires Fits(task, t, pc, trace) && pc.Releasing? && (next.Releasing? || next.Done?)
    ensures Fits(task, t, next, trace)
  {
    hide FinalTrace;
  }

  lemma OwnStepFits(tasks: seq<Task>, s: State, t: nat, c: Choice)
    requires Shape(tasks, s) && Enabled(tasks, s, t) && Fits(tasks[t], t, s.pcs[t], Own(s.log, t))
    ensures KeepsTrace(tasks, s, Next(tasks, s, t, c), t)
  {
    assert ValidPc(tasks[t], s.pcs[t]);
    var pc := s.pcs[t];
    hide Script, Fits, Own, KeepsTrace, NextLock, NextCall, NextRelease, NextOther;
    if pc.Acquiring? || pc.Waiting? {
      LockKeepsTrace(tasks, s, t);
    } else if pc.Running? || pc.Doomed? {
      CallKeepsTrace(tasks, s, t, c);
    } else if pc.Releasing? {
      ReleaseKeepsTrace(tasks, s, t);
    } else {
      OtherKeepsTrace(tasks, s, t, c);
    }
  }

  ghost predicate AllFit(tasks: seq<Task>, s: State)
    requires Shape(tasks, s)
  {
    forall t :: 0 <= t < |tasks| ==> Fits(tasks[t], t, s.pcs[t], Own(s.log, t))
  }

  /** Every step keeps every task's calls in line with the point it has reached. */
  lemma StepKeepsTraces(tasks: seq<Task>, s: State, t: nat, c: Choice)
    requires Shape(tasks, s) && Enabled(tasks, s, t) && AllFit(tasks, s)
    ensures Shape(tasks, Next(tasks, s, t, c)) && AllFit(tasks, Next(tasks, s, t, c))
  {
    StepMoves(tasks, s, t, c);
    OwnStepFits(tasks, s, t, c);
    hide Next, Fits, Own, ValidPc, Script;
    var s' := Next(tasks, s, t, c);
    forall u | 0 <= u < |tasks| ensures Fits(tasks[u], u, s'.pcs[u], Own(s'.log, u)) {
      if u != t {
        if s'.log != s.log {
          OwnSnoc(s.log, s'.log[|s.log|], u);
        }
        assert Own(s'.log, u) == Own(s.log, u) && s'.pcs[u] == s.pcs[u];
      }
    }
  }

  lemma {:induction false} RunKeepsTraces(tasks: seq<Task>, s: State, schedule: seq<Move>)
    requires Shape(tasks, s) && AllFit(tasks, s) && RunFrom(tasks, s, schedule).Some?
    ensures Shape(tasks, RunFrom(tasks, s, schedule).value) && AllFit(tasks, RunFrom(tasks, s, schedule).value)
    decreases |schedule|
  {
    if schedule != [] {
      var m := schedule[0];
      StepKeepsTraces(tasks, s, m.task, m.choice);
      hide Next, ValidPc, AllFit;
      RunKeepsTraces(tasks, Next(tasks, s, m.task, m.choice), schedule[1..]);
    }
  }

  /** Every claim of every run: once it is done, its calls in the log are the ordinary claim alone, the whole plan and
      the claim callback, or the plan up to its first failure with the observation and finalisation that a failed stop
      still gets. */
  lemma ClaimLeaves(tasks: seq<Task>, schedule: seq<Move>, t: nat)
    requires Shape(tasks, Start(tasks)) && RunFrom(tasks, Start(tasks), schedule).Some?
    requires var s := RunFrom(tasks, Start(tasks), schedule).value;
      t < |tasks| == |s.pcs| && tasks[t].kind.Claim? && s.pcs[t].Done?
    ensures FinalTrace(t, tasks[t].kind.targets, Own(RunFrom(tasks, Start(tasks), schedule).value.log, t))
  {
    RunKeepsTraces(tasks, Start(tasks), schedule);
    var s := RunFrom(tasks, Start(tasks), schedule).value;
    assert Fits(tasks[t], t, s.pcs[t], Own(s.log, t));
  }

  /** A finished claim ran its callback exactly once if it handed something off and nothing failed, and never
      otherwise. */
  lemma ClaimedOnceIff(tasks: seq<Task>, schedule: seq<Move>, t: nat)
    requires Shape(tasks, Start(tasks)) && RunFrom(tasks, Start(tasks), schedule).Some?
    requires var s := RunFrom(tasks, Start(tasks), schedule).value;
      t < |tasks| == |s.pcs| && tasks[t].kind.Claim? && s.pcs[t].Done?
    ensures var log := RunFrom(tasks, Start(tasks), schedule).value.log;
      multiset(log)[Claimed(t)]
      == if (exists a :: Did(t, a) in log) && (forall a :: Failed(t, a) !in log) then 1 else 0
  {
    ClaimLeaves(tasks, schedule, t);
    var log, targets := RunFrom(tasks, Start(tasks), schedule).value.log, tasks[t].kind.targets;
    hide RunFrom, Own, FinalTrace, Shape;
    forall ev: Event | ev.task == t && IsCall(ev)
      ensures multiset(Own(log, t))[ev] == multiset(log)[ev] && (ev in Own(log, t) <==> ev in log)
    {
      OwnCounts(log, t, ev);
    }
    FinalTraceCounts(t, targets, Own(log, t));
  }

  lemma FinalTraceCounts(t: nat, targets: seq<Target>, trace: seq<Event>)
    requires FinalTrace(t, targets, trace)
    ensures multiset(trace)[Claimed(t)]
         == if (exists a :: Did(t, a) in trace) && (forall a :: Failed(t, a) !in trace) then 1 else 0
  {
    var script := Script(targets);
    ScriptIsFollowed(targets);
    hide Script, StopsFollowed, Attemptable, GaveUp;
    if !NoHandOff(t, targets, trace) {
      if Attemptable(targets) && trace == Head(t) + Dids(t, script) + [Claimed(t)] {
        NonEmptyPlan(targets);
        CompleteCounts(t, script, trace);
      } else {
        var j: nat, rest :| GaveUp(t, script, trace, j, rest);
        GaveUpCounts(t, script, trace, j, rest);
      }
    }
  }

  lemma NonEmptyPlan(targets: seq<Target>)
    requires Attemptable(targets)
    ensures targets != []
  {
  }

  lemma CompleteCounts(t: nat, script: seq<Action>, trace: seq<Event>)
    requires script != [] && trace == Head(t) + Dids(t, script) + [Claimed(t)]
    ensures multiset(trace)[Claimed(t)] == 1 && Did(t, script[0]) in trace && forall a :: Failed(t, a) !in trace
  {
    var dids := Dids(t, script);
    assert trace[2] == dids[0];
    assert Claimed(t) !in dids;
    assert multiset(trace) == multiset(Head(t)) + multiset(dids) + multiset([Claimed(t)]);
  }

  lemma GaveUpCounts(t: nat, script: seq<Action>, trace: seq<Event>, j: nat, rest: seq<Event>)
    requires GaveUp(t, script, trace, j, rest)
    ensures Claimed(t) !in trace && Failed(t, script[j]) in trace
  {
    assert Claimed(t) !in Dids(t, script[..j]);
    assert trace[j + 2] == Failed(t, script[j]);
    assert Claimed(t) !in rest;
  }

  // ----- a hand-off that goes well -----

  function Repeated(m: Move, n: nat): (ms: seq<Move>)
    ensures |ms| == n && forall i :: 0 <= i < n ==> ms[i] == m
  {
    seq(n, _ => m)
  }

  lemma GoodCall(tasks: seq<Task>, s: State, t: nat)
    requires Shape(tasks, s) && t < |tasks| && tasks[t].kind.Claim? && s.pcs[t].Running?
    ensures |s.pcs| == |tasks| && Enabled(tasks, s, t) && s.pcs[t].i <= |Script(tasks[t].kind.targets)|
    ensures Shape(tasks, Next(tasks, s, t, Good))
    ensures var script, i, s' := Script(tasks[t].kind.targets), s.pcs[t].i, Next(tasks, s, t, Good);
      && |s'.pcs| == |tasks|
      && (i < |script| ==> s'.pcs[t] == Running(i + 1) && s'.log == s.log + [Did(t, script[i])])
      && (i == |script| ==> s'.log == s.log + [Claimed(t)])
  {
    StepMoves(tasks, s, t, Good);
    assert ValidPc(tasks[t], s.pcs[t]);
    hide Script, StrictlySorted, Order;
  }

  /** These moves are possible and leave the log like this. */
  ghost predicate LeadsTo(tasks: seq<Task>, s: State, moves: seq<Move>, log: seq<Event>) {
    Shape(tasks, s) && RunFrom(tasks, s, moves).Some? && RunFrom(tasks, s, moves).value.log == log
  }

  lemma FirstLeadsTo(tasks: seq<Task>, s: State, m: Move, rest: seq<Move>, log: seq<Event>)
    requires Shape(tasks, s) && Enabled(tasks, s, m.task) && LeadsTo(tasks, Next(tasks, s, m.task, m.choice), rest, log)
    ensures LeadsTo(tasks, s, [m] + rest, log)
  {
    hide RunFrom, Next, Enabled, Shape;
    FirstMove(tasks, s, m, rest);
  }

  /** Good replies to every call from here on end in the claim. */
  lemma {:induction false} GoodRepliesClaim(tasks: seq<Task>, s: State, t: nat, n: nat)
    requires Shape(tasks, s) && t < |tasks| && tasks[t].kind.Claim? && s.pcs[t].Running?
    requires n == |Script(tasks[t].kind.targets)| - s.pcs[t].i
    ensures LeadsTo(tasks, s, Repeated(Move(t, Good), n + 1),
                    s.log + Dids(t, Script(tasks[t].kind.targets)[s.pcs[t].i..]) + [Claimed(t)])
    decreases n
  {
    hide *;
    GoodCall(tasks, s, t);
    var script, i, s' := Script(tasks[t].kind.targets), s.pcs[t].i, Next(tasks, s, t, Good);
    var moves, log := Repeated(Move(t, Good), n), s.log + Dids(t, script[i..]) + [Claimed(t)];
    assert Repeated(Move(t, Good), n + 1) == [Move(t, Good)] + moves;
    if n == 0 {
      NoMovesLeadTo(tasks, s');
      assert moves == [] && script[i..] == [] && Dids(t, script[i..]) == [] && s.log + [] == s.log;
    } else {
      GoodRepliesClaim(tasks, s', t, n - 1);
      NextDid(s.log, t, script, i);
    }
    FirstLeadsTo(tasks, s, Move(t, Good), moves, log);
  }

  lemma NoMovesLeadTo(tasks: seq<Task>, s: State)
    requires Shape(tasks, s)
    ensures LeadsTo(tasks, s, [], s.log)
  {
    hide Shape;
  }

  lemma NextDid(log: seq<Event>, t: nat, script: seq<Action>, i: nat)
    requires i < |script|
    ensures log + [Did(t, script[i])] + Dids(t, script[i + 1..]) == log + Dids(t, script[i..])
  {
    assert Dids(t, script[i..]) == [Did(t, script[i])] + Dids(t, script[i + 1..]);
  }

  lemma GoodPlan(tasks: seq<Task>, s: State, t: nat, c: Choice)
    requires Shape(tasks, s) && t < |tasks| && tasks[t].kind.Claim? && Attemptable(tasks[t].kind.targets)
    requires (s.pcs[t].Trying? && c.Retry?) || (s.pcs[t].Replanning? && c.Good?)
    ensures Enabled(tasks, s, t)
    ensures Shape(tasks, Next(tasks, s, t, c))
    ensures var s' := Next(tasks, s, t, c);
      && (s.pcs[t].Trying? ==> s'.pcs[t] == Replanning && s'.log == s.log + [Tried(t, c)])
      && (s.pcs[t].Replanning? ==> s'.pcs[t] == Running(0) && s'.log == s.log + [Planned(t, c)])
  {
    StepMoves(tasks, s, t, c);
    hide Script, StrictlySorted, Order, Attemptable, ValidPc;
  }

  lemma WithHead(log: seq<Event>, t: nat, script: seq<Action>)
    ensures log + [Tried(t, Retry)] + [Planned(t, Good)] + Dids(t, script[0..]) + [Claimed(t)]
         == log + Head(t) + Dids(t, script) + [Claimed(t)]
  {
    assert script[0..] == script;
    assert log + [Tried(t, Retry)] + [Planned(t, Good)] == log + Head(t);
  }

  /** A plan that can be attempted, no capacity at the first try and good replies throughout: the claim is made. */
  lemma GoodHandOffClaims(tasks: seq<Task>, s: State, t: nat)
    requires Shape(tasks, s) && t < |tasks| && tasks[t].kind.Claim? && s.pcs[t].Trying?
    requires Attemptable(tasks[t].kind.targets)
    ensures var script := Script(tasks[t].kind.targets);
      LeadsTo(tasks, s, [Move(t, Retry)] + ([Move(t, Good)] + Repeated(Move(t, Good), |script| + 1)),
              s.log + Head(t) + Dids(t, script) + [Claimed(t)])
  {
    var script := Script(tasks[t].kind.targets);
    var moves := Repeated(Move(t, Good), |script| + 1);
    var log := s.log + Head(t) + Dids(t, script) + [Claimed(t)];
    hide *;
    GoodPlan(tasks, s, t, Retry);
    var s1 := Next(tasks, s, t, Retry);
    GoodPlan(tasks, s1, t, Good);
    GoodRepliesClaim(tasks, Next(tasks, s1, t, Good), t, |script|);
    WithHead(s.log, t, script);
    FirstLeadsTo(tasks, s1, Move(t, Good), moves, log);
    FirstLeadsTo(tasks, s, Move(t, Retry), [Move(t, Good)] + moves, log);
  }

  // ----- the phases of a reconciliation -----

  /** The phases a reconciliation goes through with these replies, from `phase` on. */
  function Visited(kind: Kind, phase: Phase, replies: seq<Choice>, n: nat): seq<Phase>
    requires kind.Reconcile?
    decreases |replies|
  {
    if replies == [] then []
    else
      var pc := NextPhase(kind, phase, replies[0], n);
      [phase] + if pc.Reconciling? then Visited(kind, pc.phase, replies[1..], n) else []
  }

  const START_PHASES: seq<Phase> := [Starting, Attesting, Observing, Confirming]

  function Goods(k: nat): (replies: seq<Choice>)
    ensures |replies| == k && forall i :: 0 <= i < k ==> replies[i] == Good
  {
    seq(k, _ => Good)
  }

  lemma NextReply(kind: Kind, phase: Phase, reply: Choice, rest: seq<Choice>, n: nat)
    requires kind.Reconcile?
    ensures var pc := NextPhase(kind, phase, reply, n);
      Visited(kind, phase, [reply] + rest, n) == [phase] + if pc.Reconciling? then Visited(kind, pc.phase, rest, n) else []
  {
    hide NextPhase;
    assert ([reply] + rest)[1..] == rest;
  }

  lemma CleanupVisits(kind: Kind, rest: seq<Choice>, n: nat)
    requires kind.Reconcile? && |rest| >= 2
    ensures Visited(kind, CleaningUp, rest, n) == [CleaningUp, CleanupObserving]
    ensures Visited(kind, CleanupObserving, rest, n) == [CleanupObserving]
  {
    assert Visited(kind, CleanupObserving, rest[1..], n) == [CleanupObserving];
  }

  lemma {:induction false} BadAfterGoods(kind: Kind, p: nat, k: nat, bad: Choice, rest: seq<Choice>, n: nat)
    requires kind.Reconcile? && p + k < 4 && bad != Good && |rest| >= 2
    ensures Visited(kind, START_PHASES[p], Goods(k) + ([bad] + rest), n)
      == START_PHASES[p..p + k + 1] + (if p + k == 0 && bad == Retry then [] else [CleaningUp]) + [CleanupObserving]
    decreases k
  {
    var after := [bad] + rest;
    hide Visited, NextPhase;
    if k == 0 {
      BadReply(kind, p, bad, n);
      CleanupVisits(kind, rest, n);
      NextReply(kind, START_PHASES[p], bad, rest, n);
      assert Goods(0) + after == after;
      assert START_PHASES[p..p + 1] == [START_PHASES[p]];
      Regrouped([START_PHASES[p]], if p == 0 && bad == Retry then [] else [CleaningUp], [CleanupObserving]);
    } else {
      GoodReply(kind, p, n);
      BadAfterGoods(kind, p + 1, k - 1, bad, rest, n);
      NextReply(kind, START_PHASES[p], Good, Goods(k - 1) + after, n);
      assert Goods(k) + after == [Good] + (Goods(k - 1) + after);
      assert START_PHASES[p..p + k + 1] == [START_PHASES[p]] + START_PHASES[p + 1..p + k + 1];
      Regrouped([START_PHASES[p]], START_PHASES[p + 1..p + k + 1], [CleaningUp]);
      Regrouped([START_PHASES[p]], START_PHASES[p + 1..p + k + 1] + [CleaningUp], [CleanupObserving]);
    }
  }

  lemma Regrouped<T>(a: seq<T>, b: seq<T>, c: seq<T>)
    ensures a + (b + c) == a + b + c
  {
  }

  lemma BadReply(kind: Kind, p: nat, bad: Choice, n: nat)
    requires kind.Reconcile? && p < 4 && bad != Good
    ensures NextPhase(kind, START_PHASES[p], bad, n)
         == Reconciling(if p == 0 && bad == Retry then CleanupObserving else CleaningUp)
  {
  }

  lemma GoodReply(kind: Kind, p: nat, n: nat)
    requires kind.Reconcile? && p < 3
    ensures NextPhase(kind, START_PHASES[p], Good, n) == Reconciling(START_PHASES[p + 1])
  {
  }

  /** A start that is not attested, observed and confirmed is stopped again and observed, and ends the reconciliation;
      only a start known to have started nothing is not stopped. */
  lemma FailedStartIsCleanedUp(kind: Kind, k: nat, bad: Choice, rest: seq<Choice>, n: nat)
    requires kind.Reconcile? && k < 4 && bad != Good && |rest| >= 2
    ensures Visited(kind, Starting, Goods(k) + ([bad] + rest), n)
      == START_PHASES[..k + 1] + (if k == 0 && bad == Retry then [] else [CleaningUp]) + [CleanupObserving]
  {
    BadAfterGoods(kind, 0, k, bad, rest, n);
  }

  /** How one stop goes: the helper call (`Retry` when the stop was not prepared) and the observation after it. */
  datatype StopReply = StopReply(call: Choice, observed: Choice)

  function RepliesTo(stops: seq<StopReply>): seq<Choice> {
    if stops == [] then []
    else
      (if stops[0].call == Retry then [Retry]
       else [stops[0].call, stops[0].observed] + if stops[0].observed == Good then [Good] else [])
      + RepliesTo(stops[1..])
  }

  /** Each prepared stop is called, observed and, if that went well, finalised. */
  function StopVisits(i: nat, stops: seq<StopReply>): seq<Phase>
    decreases |stops|
  {
    if stops == [] then []
    else
      (if stops[0].call == Retry then [Stopping(i)]
       else [Stopping(i), StopObserving(i)] + if stops[0].observed == Good then [Finalizing(i)] else [])
      + StopVisits(i + 1, stops[1..])
  }

  lemma OneStop(kind: Kind, i: nat, stop: StopReply, rest: seq<Choice>, n: nat)
    requires kind.Reconcile? && i < kind.stops
    ensures Visited(kind, Stopping(i), RepliesTo([stop]) + rest, n)
      == StopVisits(i, [stop]) + Visited(kind, Stopping(i + 1), rest, n)
  {
    hide Visited;
    assert [stop][1..] == [];
    assert RepliesTo([stop][1..]) == [] && StopVisits(i + 1, [stop][1..]) == [];
    if stop.call == Retry {
      NextReply(kind, Stopping(i), Retry, rest, n);
      assert RepliesTo([stop]) == [Retry] && StopVisits(i, [stop]) == [Stopping(i)];
    } else if stop.observed == Good {
      NextReply(kind, Finalizing(i), Good, rest, n);
      NextReply(kind, StopObserving(i), Good, [Good] + rest, n);
      NextReply(kind, Stopping(i), stop.call, [Good] + ([Good] + rest), n);
      assert RepliesTo([stop]) + rest == [stop.call] + ([Good] + ([Good] + rest));
    } else {
      NextReply(kind, StopObserving(i), stop.observed, rest, n);
      NextReply(kind, Stopping(i), stop.call, [stop.observed] + rest, n);
      assert RepliesTo([stop]) + rest == [stop.call] + ([stop.observed] + rest);
    }
  }

  lemma {:induction false} AllStops(kind: Kind, i: nat, stops: seq<StopReply>, last: Choice, n: nat)
    requires kind.Reconcile? && i + |stops| == kind.stops
    ensures Visited(kind, Stopping(i), RepliesTo(stops) + [last], n) == StopVisits(i, stops) + [Stopping(kind.stops)]
    decreases |stops|
  {
    if stops == [] {
      NextReply(kind, Stopping(i), last, [], n);
      assert [last] + [] == [last];
    } else {
      hide Visited;
      AllStops(kind, i + 1, stops[1..], last, n);
      OneStop(kind, i, stops[0], RepliesTo(stops[1..]) + [last], n);
      FirstStop(i, stops);
      hide RepliesTo, StopVisits;
      Regrouped(RepliesTo([stops[0]]), RepliesTo(stops[1..]), [last]);
      Regrouped(StopVisits(i, [stops[0]]), StopVisits(i + 1, stops[1..]), [Stopping(kind.stops)]);
    }
  }

  lemma FirstStop(i: nat, stops: seq<StopReply>)
    requires stops != []
    ensures RepliesTo(stops) == RepliesTo([stops[0]]) + RepliesTo(stops[1..])
    ensures StopVisits(i, stops) == StopVisits(i, [stops[0]]) + StopVisits(i + 1, stops[1..])
  {
    assert [stops[0]][1..] == [];
    assert RepliesTo([]) == [] && StopVisits(i + 1, []) == [];
  }

  function PrepareVisits(i: nat, n: nat): (phases: seq<Phase>)
    requires i <= n
    ensures |phases| == n - i && forall k :: 0 <= k < n - i ==> phases[k] == Preparing(i + k)
  {
    seq(n - i, k requires 0 <= k < n - i => Preparing(i + k))
  }

  lemma {:induction false} AllPrepares(kind: Kind, i: nat, rest: seq<Choice>, n: nat)
    requires kind.Reconcile? && i < kind.stops
    ensures Visited(kind, Preparing(i), Goods(kind.stops - i) + rest, n)
      == PrepareVisits(i, kind.stops) + Visited(kind, Stopping(0), rest, n)
    decreases kind.stops - i
  {
    hide Visited;
    var more := kind.stops - i - 1;
    NextReply(kind, Preparing(i), Good, Goods(more) + rest, n);
    assert Goods(kind.stops - i) + rest == [Good] + (Goods(more) + rest);
    if more > 0 {
      AllPrepares(kind, i + 1, rest, n);
      assert PrepareVisits(i, kind.stops) == [Preparing(i)] + PrepareVisits(i + 1, kind.stops);
    } else {
      assert Goods(0) + rest == rest;
      assert PrepareVisits(i, kind.stops) == [Preparing(i)];
    }
  }

  /** A reconciliation with stops alone prepares them all and then goes through each of them, whatever became of the
      one before. */
  lemma EveryStopIsVisited(kind: Kind, stops: seq<StopReply>, last: Choice, n: nat)
    requires kind.Reconcile? && !kind.starts && !kind.recovers && |stops| == kind.stops > 0
    ensures Visited(kind, Planning, [Good] + (Goods(kind.stops) + (RepliesTo(stops) + [last])), n)
      == [Planning] + (PrepareVisits(0, kind.stops) + (StopVisits(0, stops) + [Stopping(kind.stops)]))
  {
    hide Visited;
    var rest := RepliesTo(stops) + [last];
    NextReply(kind, Planning, Good, Goods(kind.stops) + rest, n);
    AllPrepares(kind, 0, rest, n);
    AllStops(kind, 0, stops, last, n);
  }

  /** A keeper of the endpoint is told to stop exactly in the clean-up and for each prepared stop, and told to start
      exactly in the start phase. */
  lemma KeeperCallsIff(task: Task, t: nat, phase: Phase, c: Choice, e: Endpoint)
    requires task.kind.Reconcile? && task.endpoints == {e}
    requires phase.Stopping? ==> phase.i <= task.kind.stops
    ensures KeeperStop(t, e) in PhaseEvents(task, t, phase, c) <==>
            phase.CleaningUp? || (phase.Stopping? && phase.i != task.kind.stops && c != Retry)
    ensures KeeperStart(t, e) in PhaseEvents(task, t, phase, c) <==> phase.Starting?
  {
    hide StrictlySorted;
    var order := Order(task);
    assert order[0] in order;
  }
}
