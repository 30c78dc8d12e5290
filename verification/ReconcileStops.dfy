/** The stop phase of an endpoint reconciliation: keepers are stopped one GPU at a time against a
    service and a helper that may answer in any way. */
module ReconcileStops {
  import opened Text
  import opened KeepaliveProtocol

  const PLAN_INVALID := "keepalive_transition_plan_invalid"
  const ADAPTER_FAILED := "keepalive_adapter_failed"
  const OBSERVATION_FAILED := "keepalive_observation_failed"
  const HELPER_INCOMPATIBLE := "keepalive_helper_incompatible"
  const PARTIAL_STOP := "keepalive_partial_stop"

  /** A planned stop; a missing lease or GPU UUID is a malformed plan. */
  datatype Transition = Transition(gpuId: string, gpuUuid: Option<string>, leaseId: Option<string>)

  /** `prepare_keepalive_stop`: the pending lease, a broker error, or any other exception. */
  datatype PrepareReply = Pending(leaseId: Option<string>) | PrepareRefused(code: string) | PrepareCrash

  /** The helper call: a reply to verify, a command error with its failure code, or any other
      exception. */
  datatype AdapterReply = Reply(results: seq<GpuResult>) | CommandError(code: string) | AdapterCrash

  datatype FinalizeReply = Finalized | FinalizeRefused(code: string) | FinalizeCrash

  /** Every answer the outside world will give, by position in the plan. */
  datatype World = World(prepare: nat -> PrepareReply, adapter: nat -> AdapterReply,
                         observed: nat -> bool, finalize: nat -> FinalizeReply)

  datatype Call = Prepare(i: nat) | Adapter(i: nat) | Observe(i: nat) | Finalize(i: nat)

  datatype Failure = Failure(i: nat, code: string)

  datatype Outcome = Normal | BrokerFailure(code: string, failedGpuIds: seq<string>) | Crashed

  // ----- what should happen to planned stop `i` -----

  predicate WellFormed(t: Transition) {
    t.gpuUuid.Some? && t.leaseId.Some?
  }

  predicate Prepared(stops: seq<Transition>, w: World, i: nat)
    requires i < |stops|
  {
    w.prepare(i) == Pending(stops[i].leaseId)
  }

  /** Only the pending lease of the plan itself may be stopped. */
  function PrepareFailure(stops: seq<Transition>, w: World, i: nat): Option<string>
    requires i < |stops|
  {
    match w.prepare(i)
    case PrepareRefused(code) => Some(code)
    case Pending(leaseId) => if leaseId == stops[i].leaseId then None else Some(PLAN_INVALID)
    case PrepareCrash => None
  }

  ghost predicate Verified(stops: seq<Transition>, w: World, i: nat)
    requires i < |stops| && WellFormed(stops[i])
  {
    w.adapter(i).Reply? && ApiAccepts(w.adapter(i).results, [stops[i].gpuUuid.value], false)
  }

  /** The empty code stands for a verified helper reply. */
  ghost function AdapterCode(stops: seq<Transition>, w: World, i: nat): string
    requires i < |stops| && WellFormed(stops[i])
  {
    match w.adapter(i)
    case CommandError(code) => code
    case _ => if Verified(stops, w, i) then "" else ADAPTER_FAILED
  }

  /** Observed empty and finalised, whatever the helper answered. */
  predicate Confirmed(w: World, i: nat) {
    w.observed(i) && w.finalize(i).Finalized?
  }

  ghost function StopFailure(stops: seq<Transition>, w: World, i: nat): Option<string>
    requires i < |stops| && WellFormed(stops[i])
  {
    var brokerCode := if !w.observed(i) then OBSERVATION_FAILED
                      else if w.finalize(i).FinalizeRefused? then w.finalize(i).code else "";
    if Confirmed(w, i) then None
    else if AdapterCode(stops, w, i) == "" then Some(brokerCode) else Some(AdapterCode(stops, w, i))
  }

  predicate Done(stops: seq<Transition>, w: World, i: nat)
    requires i < |stops|
  {
    Prepared(stops, w, i) && Confirmed(w, i)
  }

  /** The outside world answers every call of the phase with a reply or a broker error. */
  predicate NoCrash(stops: seq<Transition>, w: World) {
    forall i :: 0 <= i < |stops| ==>
      !w.prepare(i).PrepareCrash? && (Prepared(stops, w, i) && w.observed(i) ==> !w.finalize(i).FinalizeCrash?)
  }

  // ----- the failure list and the call log, plan position by plan position -----

  function PrepareFailures(stops: seq<Transition>, w: World, n: nat): seq<Failure>
    requires n <= |stops|
  {
    if n == 0 then []
    else PrepareFailures(stops, w, n - 1) +
         (match PrepareFailure(stops, w, n - 1)
          case Some(code) => [Failure(n - 1, code)]
          case None => [])
  }

  function PreparedUpTo(stops: seq<Transition>, w: World, n: nat): (ps: seq<nat>)
    requires n <= |stops|
    ensures forall i: nat :: i in ps <==> i < n && Prepared(stops, w, i)
    ensures forall a :: 0 <= a < |ps| ==> ps[a] < n
    ensures Increasing(ps)
  {
    if n == 0 then []
    else PreparedUpTo(stops, w, n - 1) + if Prepared(stops, w, n - 1) then [n - 1] else []
  }

  predicate Usable(stops: seq<Transition>, ps: seq<nat>) {
    forall k :: 0 <= k < |ps| ==> ps[k] < |stops| && WellFormed(stops[ps[k]])
  }

  function PrepareCalls(n: nat): (calls: seq<Call>)
    ensures |calls| == n && forall i :: 0 <= i < n ==> calls[i] == Prepare(i)
  {
    seq(n, i requires 0 <= i < n => Prepare(i))
  }

  ghost function StopFailures(stops: seq<Transition>, w: World, ps: seq<nat>): seq<Failure>
    requires Usable(stops, ps)
  {
    if ps == [] then []
    else
      var last := ps[|ps| - 1];
      StopFailures(stops, w, ps[..|ps| - 1]) +
      match StopFailure(stops, w, last)
      case Some(code) => [Failure(last, code)]
      case None => []
  }

  function ConfirmedIn(w: World, ps: seq<nat>): seq<nat> {
    if ps == [] then []
    else ConfirmedIn(w, ps[..|ps| - 1]) + if Confirmed(w, ps[|ps| - 1]) then [ps[|ps| - 1]] else []
  }

  /** After every helper call, whatever came of it, the endpoint is observed. */
  function StopCalls(w: World, ps: seq<nat>): seq<Call> {
    if ps == [] then []
    else
      var last := ps[|ps| - 1];
      StopCalls(w, ps[..|ps| - 1]) + [Adapter(last), Observe(last)] + if w.observed(last) then [Finalize(last)] else []
  }

  // ----- the order of the calls -----

  /** Every helper call is directly followed by an observation, every observation follows a helper call for the same
      stop, and a stop is finalised directly after its observation, never on an older one. */
  predicate InOrder(calls: seq<Call>) {
    && (forall k :: 0 <= k < |calls| && calls[k].Adapter? ==> k + 1 < |calls| && calls[k + 1] == Observe(calls[k].i))
    && (forall k :: 0 <= k < |calls| && calls[k].Observe? ==> k > 0 && calls[k - 1] == Adapter(calls[k].i))
    && (forall k :: 0 <= k < |calls| && calls[k].Finalize? ==> k > 0 && calls[k - 1] == Observe(calls[k].i))
  }

  /** A stop is finalised exactly after an observation that went well. */
  predicate FinalizedIfObserved(w: World, calls: seq<Call>) {
    forall k :: 0 <= k < |calls| && calls[k].Observe? ==> (w.observed(calls[k].i) <==> FinalizeNext(calls, k))
  }

  predicate FinalizeNext(calls: seq<Call>, k: nat) {
    k + 1 < |calls| && calls[k + 1].Finalize?
  }

  /** The preparations come first, in plan order, and the helper calls after them in plan order, none twice. */
  predicate PlanOrder(calls: seq<Call>) {
    && (forall k :: 0 <= k < |calls| && calls[k].Prepare? ==> calls[k].i == k && forall l :: 0 <= l < k ==> calls[l].Prepare?)
    && (forall k, l :: 0 <= k < l < |calls| && calls[k].Adapter? && calls[l].Adapter? ==> calls[k].i < calls[l].i)
  }

  predicate Ordered(w: World, calls: seq<Call>) {
    InOrder(calls) && FinalizedIfObserved(w, calls) && PlanOrder(calls)
  }

  predicate Increasing(ps: seq<nat>) {
    forall a, b :: 0 <= a < b < |ps| ==> ps[a] < ps[b]
  }

  lemma InOrderJoin(w: World, a: seq<Call>, b: seq<Call>)
    requires InOrder(a) && FinalizedIfObserved(w, a) && InOrder(b) && FinalizedIfObserved(w, b)
    ensures InOrder(a + b) && FinalizedIfObserved(w, a + b)
  {
    var calls := a + b;
    assert b != [] ==> !b[0].Finalize?;
    forall k | |a| <= k < |calls|
      ensures calls[k].Adapter? ==> k + 1 < |calls| && calls[k + 1] == Observe(calls[k].i)
      ensures calls[k].Observe? ==> k > 0 && calls[k - 1] == Adapter(calls[k].i)
      ensures calls[k].Finalize? ==> k > 0 && calls[k - 1] == Observe(calls[k].i)
    {
      assert calls[k] == b[k - |a|];
    }
    forall k | 0 <= k < |calls| && calls[k].Observe? ensures w.observed(calls[k].i) <==> FinalizeNext(calls, k) {
      if k >= |a| {
        assert FinalizeNext(calls, k) <==> FinalizeNext(b, k - |a|);
        assert calls[k] == b[k - |a|];
      } else {
        assert FinalizeNext(calls, k) <==> FinalizeNext(a, k);
        assert calls[k] == a[k];
      }
    }
  }

  lemma OneStopInOrder(w: World, i: nat)
    ensures var calls := [Adapter(i), Observe(i)] + if w.observed(i) then [Finalize(i)] else [];
      InOrder(calls) && FinalizedIfObserved(w, calls)
  {
  }

  lemma {:induction false} StopCallsInOrder(w: World, ps: seq<nat>)
    ensures InOrder(StopCalls(w, ps)) && FinalizedIfObserved(w, StopCalls(w, ps))
  {
    if ps != [] {
      var last := ps[|ps| - 1];
      StopCallsInOrder(w, ps[..|ps| - 1]);
      OneStopInOrder(w, last);
      var one := [Adapter(last), Observe(last)] + if w.observed(last) then [Finalize(last)] else [];
      hide InOrder, FinalizedIfObserved;
      InOrderJoin(w, StopCalls(w, ps[..|ps| - 1]), one);
      assert StopCalls(w, ps) == StopCalls(w, ps[..|ps| - 1]) + one;
    }
  }

  lemma {:induction false} StopCallsInPlanOrder(w: World, ps: seq<nat>)
    requires Increasing(ps)
    ensures forall k :: 0 <= k < |StopCalls(w, ps)| ==> !StopCalls(w, ps)[k].Prepare? && StopCalls(w, ps)[k].i in ps
    ensures PlanOrder(StopCalls(w, ps))
  {
    if ps != [] {
      var front, last := ps[..|ps| - 1], ps[|ps| - 1];
      StopCallsInPlanOrder(w, front);
      assert ps == front + [last];
      var before := StopCalls(w, front);
      assert StopCalls(w, ps) == before + ([Adapter(last), Observe(last)] + if w.observed(last) then [Finalize(last)] else []);
      hide StopCalls;
      forall i | i in front ensures i < last {
        var a :| 0 <= a < |front| && front[a] == i;
        assert ps[a] == i && ps[|ps| - 1] == last;
      }
      OneMoreStop(w, before, front, last);
    }
  }

  lemma OneMoreStop(w: World, before: seq<Call>, front: seq<nat>, last: nat)
    requires PlanOrder(before) && forall i :: i in front ==> i < last
    requires forall k :: 0 <= k < |before| ==> !before[k].Prepare? && before[k].i in front
    ensures var calls := before + ([Adapter(last), Observe(last)] + if w.observed(last) then [Finalize(last)] else []);
      PlanOrder(calls) && forall k :: 0 <= k < |calls| ==> !calls[k].Prepare? && calls[k].i in front + [last]
  {
  }

  /** The calls of the phase: the preparations made, then the stops of the first prepared plan entries. */
  lemma CallsAreOrdered(w: World, n: nat, ps: seq<nat>, made: nat)
    requires Increasing(ps) && made <= |ps|
    ensures Ordered(w, PrepareCalls(n) + StopCalls(w, ps[..made])) && Ordered(w, PrepareCalls(n))
  {
    StopCallsInOrder(w, ps[..made]);
    StopCallsInPlanOrder(w, ps[..made]);
    hide StopCalls, InOrder, FinalizedIfObserved;
    PreparesInOrder(w, n);
    InOrderJoin(w, PrepareCalls(n), StopCalls(w, ps[..made]));
    PlanOrderJoin(n, StopCalls(w, ps[..made]));
  }

  lemma PreparesInOrder(w: World, n: nat)
    ensures InOrder(PrepareCalls(n)) && FinalizedIfObserved(w, PrepareCalls(n))
  {
  }

  lemma PlanOrderJoin(n: nat, calls: seq<Call>)
    requires PlanOrder(calls) && forall k :: 0 <= k < |calls| ==> !calls[k].Prepare?
    ensures PlanOrder(PrepareCalls(n) + calls) && PlanOrder(PrepareCalls(n))
  {
    var all := PrepareCalls(n) + calls;
    forall k, l | 0 <= k < l < |all| && all[k].Adapter? && all[l].Adapter? ensures all[k].i < all[l].i {
      assert all[k] == calls[k - n] && all[l] == calls[l - n];
    }
  }

  function GpuIds(stops: seq<Transition>, failures: seq<Failure>): (ids: seq<string>)
    requires forall f :: f in failures ==> f.i < |stops|
    ensures |ids| == |failures| && forall k :: 0 <= k < |ids| ==> ids[k] == stops[failures[k].i].gpuId
  {
    seq(|failures|, k requires 0 <= k < |failures| => stops[failures[k].i].gpuId)
  }

  /** The final report: one code for a purely incompatible helper, another otherwise. */
  function Report(stops: seq<Transition>, failures: seq<Failure>): Outcome
    requires forall f :: f in failures ==> f.i < |stops|
  {
    if failures == [] then Normal
    else
      BrokerFailure(if forall f :: f in failures ==> f.code == HELPER_INCOMPATIBLE then HELPER_INCOMPATIBLE else PARTIAL_STOP,
                    GpuIds(stops, failures))
  }

  predicate AllWellFormed(stops: seq<Transition>) {
    forall i :: 0 <= i < |stops| ==> WellFormed(stops[i])
  }

  /** The result of the phase for a well-formed plan in a world without crashes. */
  ghost predicate FullResult(stops: seq<Transition>, w: World, outcome: Outcome, failures: seq<Failure>,
                             finalized: seq<nat>, calls: seq<Call>)
    requires AllWellFormed(stops)
  {
    var prepared := PreparedUpTo(stops, w, |stops|);
    && failures == PrepareFailures(stops, w, |stops|) + StopFailures(stops, w, prepared)
    && finalized == ConfirmedIn(w, prepared)
    && calls == PrepareCalls(|stops|) + StopCalls(w, prepared)
    && (forall f :: f in failures ==> f.i < |stops|) && outcome == Report(stops, failures)
  }

  method StopPhase(stops: seq<Transition>, w: World)
    returns (outcome: Outcome, failures: seq<Failure>, finalized: seq<nat>, calls: seq<Call>)
    // It returns normally exactly when every planned stop was finalised.
    ensures outcome.Normal? <==> AllWellFormed(stops) && forall i :: 0 <= i < |stops| ==> Done(stops, w, i)
    // No helper is ever called for a stop that was not prepared with its own lease.
    ensures forall i: nat :: Adapter(i) in calls ==> i < |stops| && Prepared(stops, w, i)
    ensures forall i: nat :: i in finalized ==> i < |stops| && Done(stops, w, i)
    ensures AllWellFormed(stops) && NoCrash(stops, w) ==> FullResult(stops, w, outcome, failures, finalized, calls)
    ensures !AllWellFormed(stops) ==> finalized == [] && (outcome.Crashed? || outcome == BrokerFailure(PLAN_INVALID, []))
    ensures outcome.Crashed? ==> !NoCrash(stops, w)
    // However the phase ends, the calls were made in this order.
    ensures Ordered(w, calls)
  {
    hide Ordered, Increasing, StopCalls, PrepareFailures, StopFailures, ConfirmedIn;
    var early, prepared;
    early, failures, prepared, calls := PrepareAll(stops, w);
    CallsAreOrdered(w, |calls|, prepared, 0);
    if early.Some? {
      if AllWellFormed(stops) {
        ghost var i: nat :| i < |stops| && w.prepare(i).PrepareCrash?;
        assert !Done(stops, w, i);
      }
      return early.value, failures, [], calls;
    }
    var crashed, stopFailures, stopCalls;
    crashed, stopFailures, finalized, stopCalls := StopAll(stops, w, prepared);
    ghost var made: nat :| made <= |prepared| && stopCalls == StopCalls(w, prepared[..made]);
    CallsAreOrdered(w, |calls|, prepared, made);
    failures, calls := failures + stopFailures, calls + stopCalls;
    if crashed {
      ghost var i: nat :| i in prepared && w.observed(i) && w.finalize(i).FinalizeCrash?;
      assert !Done(stops, w, i);
      return Crashed, failures, finalized, calls;
    }
    FailureIndices(stops, w);
    AllDoneIff(stops, w);
    outcome := Report(stops, failures);
  }

  /** The first loop; `early` is set when it raises. */
  method PrepareAll(stops: seq<Transition>, w: World)
    returns (early: Option<Outcome>, failures: seq<Failure>, prepared: seq<nat>, calls: seq<Call>)
    ensures |calls| <= |stops| && calls == PrepareCalls(|calls|) && Increasing(prepared)
    ensures early.None? <==> AllWellFormed(stops) && forall i :: 0 <= i < |stops| ==> !w.prepare(i).PrepareCrash?
    ensures early.Some? ==> early.value == BrokerFailure(PLAN_INVALID, []) || (early.value == Crashed && !NoCrash(stops, w))
    ensures early.Some? && NoCrash(stops, w) ==> early.value == BrokerFailure(PLAN_INVALID, [])
    ensures early.None? ==> prepared == PreparedUpTo(stops, w, |stops|) && failures == PrepareFailures(stops, w, |stops|)
                            && calls == PrepareCalls(|stops|)
  {
    hide Increasing, PreparedUpTo, PrepareFailures, PrepareCalls, NoCrash;
    failures, prepared, calls := [], [], [];
    NothingPrepared(stops, w);
    var n := 0;
    while n < |stops|
      invariant 0 <= n <= |stops|
      invariant forall i :: 0 <= i < n ==> WellFormed(stops[i]) && !w.prepare(i).PrepareCrash?
      invariant prepared == PreparedUpTo(stops, w, n) && failures == PrepareFailures(stops, w, n)
      invariant calls == PrepareCalls(n)
    {
      PreparedStep(stops, w, n);
      if !WellFormed(stops[n]) {
        return Some(BrokerFailure(PLAN_INVALID, [])), failures, prepared, calls;
      }
      calls := calls + [Prepare(n)];
      match w.prepare(n) {
        case PrepareCrash =>
          CrashedAt(stops, w, n);
          return Some(Crashed), failures, prepared, calls;
        case PrepareRefused(code) => failures := failures + [Failure(n, code)];
        case Pending(leaseId) =>
          if leaseId != stops[n].leaseId {
            failures := failures + [Failure(n, PLAN_INVALID)];
          } else {
            prepared := prepared + [n];
          }
      }
      n := n + 1;
    }
    early := None;
  }

  lemma NothingPrepared(stops: seq<Transition>, w: World)
    ensures Increasing([]) && PreparedUpTo(stops, w, 0) == [] && PrepareFailures(stops, w, 0) == [] && PrepareCalls(0) == []
  {
  }

  lemma PreparedStep(stops: seq<Transition>, w: World, n: nat)
    requires n < |stops|
    ensures var prepared, failures := PreparedUpTo(stops, w, n), PrepareFailures(stops, w, n);
      && PreparedUpTo(stops, w, n + 1) == (if Prepared(stops, w, n) then prepared + [n] else prepared)
      && PrepareCalls(n + 1) == PrepareCalls(n) + [Prepare(n)]
      && match PrepareFailure(stops, w, n)
         case Some(code) => PrepareFailures(stops, w, n + 1) == failures + [Failure(n, code)]
         case None => PrepareFailures(stops, w, n + 1) == failures
  {
  }

  lemma CrashedAt(stops: seq<Transition>, w: World, n: nat)
    requires n < |stops| && w.prepare(n).PrepareCrash?
    ensures !NoCrash(stops, w)
  {
  }

  /** The second loop: stop, observe and finalise one GPU after the other. */
  method StopAll(stops: seq<Transition>, w: World, prepared: seq<nat>)
    returns (crashed: bool, failures: seq<Failure>, finalized: seq<nat>, calls: seq<Call>)
    requires Usable(stops, prepared) && forall i: nat :: i in prepared ==> i < |stops| && Prepared(stops, w, i)
    ensures !crashed ==> failures == StopFailures(stops, w, prepared) && finalized == ConfirmedIn(w, prepared)
                         && calls == StopCalls(w, prepared)
    ensures crashed <==> exists i: nat :: i in prepared && w.observed(i) && w.finalize(i).FinalizeCrash?
    ensures forall i: nat :: Adapter(i) in calls ==> i < |stops| && Prepared(stops, w, i)
    ensures forall i: nat :: i in finalized ==> i < |stops| && Done(stops, w, i)
    ensures exists n: nat :: n <= |prepared| && calls == StopCalls(w, prepared[..n])
    ensures InOrder(calls) && FinalizedIfObserved(w, calls)
  {
    hide InOrder, FinalizedIfObserved;
    failures, finalized, calls, crashed := [], [], [], false;
    var k := 0;
    while k < |prepared|
      invariant 0 <= k <= |prepared|
      invariant failures == StopFailures(stops, w, prepared[..k])
      invariant finalized == ConfirmedIn(w, prepared[..k])
      invariant calls == StopCalls(w, prepared[..k])
      invariant forall a :: 0 <= a < k && w.observed(prepared[a]) ==> !w.finalize(prepared[a]).FinalizeCrash?
    {
      var i := prepared[k];
      assert prepared[..k + 1][..k] == prepared[..k];
      var adapterCode := CallAdapter(stops, w, i);
      calls := calls + [Adapter(i), Observe(i)];
      if !w.observed(i) {
        failures := failures + [Failure(i, if adapterCode == "" then OBSERVATION_FAILED else adapterCode)];
      } else {
        calls := calls + [Finalize(i)];
        match w.finalize(i) {
          case FinalizeCrash =>
            CallsArePrepared(stops, w, prepared, k);
            CallsArePrepared(stops, w, prepared, k + 1);
            StopCallsInOrder(w, prepared[..k + 1]);
            return true, failures, finalized, calls;
          case FinalizeRefused(code) =>
            failures := failures + [Failure(i, if adapterCode == "" then code else adapterCode)];
          case Finalized => finalized := finalized + [i];
        }
      }
      k := k + 1;
    }
    assert prepared[..k] == prepared;
    CallsArePrepared(stops, w, prepared, k);
    StopCallsInOrder(w, prepared[..k]);
  }

  /** One helper call and the verification of its reply. */
  method CallAdapter(stops: seq<Transition>, w: World, i: nat) returns (code: string)
    requires i < |stops| && WellFormed(stops[i])
    ensures code == AdapterCode(stops, w, i)
  {
    match w.adapter(i) {
      case AdapterCrash => code := ADAPTER_FAILED;
      case CommandError(c) => code := c;
      case Reply(results) =>
        var accepted, _ := ResultByGpuUuid(results, [stops[i].gpuUuid.value], false);
        code := if accepted then "" else ADAPTER_FAILED;
    }
  }

  lemma {:induction false} CallsArePrepared(stops: seq<Transition>, w: World, prepared: seq<nat>, k: nat)
    requires k <= |prepared| && forall i: nat :: i in prepared ==> i < |stops| && Prepared(stops, w, i)
    ensures forall i: nat :: Adapter(i) in StopCalls(w, prepared[..k]) ==> i < |stops| && Prepared(stops, w, i)
    ensures forall i: nat :: i in ConfirmedIn(w, prepared[..k]) ==> i < |stops| && Done(stops, w, i)
  {
    if k > 0 {
      assert prepared[..k][..k - 1] == prepared[..k - 1];
      CallsArePrepared(stops, w, prepared, k - 1);
      assert prepared[k - 1] in prepared;
    }
  }

  lemma {:induction false} ConfirmedAre(w: World, ps: seq<nat>, i: nat)
    ensures i in ConfirmedIn(w, ps) <==> i in ps && Confirmed(w, i)
  {
    if ps != [] {
      ConfirmedAre(w, ps[..|ps| - 1], i);
      assert ps == ps[..|ps| - 1] + [ps[|ps| - 1]];
    }
  }

  /** Where and why a preparation failure is listed. */
  lemma {:induction false} PrepareFailureOf(stops: seq<Transition>, w: World, n: nat, f: Failure)
    requires n <= |stops|
    ensures f in PrepareFailures(stops, w, n) <==> f.i < n && PrepareFailure(stops, w, f.i) == Some(f.code)
  {
    if n > 0 {
      PrepareFailureOf(stops, w, n - 1, f);
    }
  }

  lemma {:induction false} StopFailureOf(stops: seq<Transition>, w: World, ps: seq<nat>, f: Failure)
    requires Usable(stops, ps)
    ensures f in StopFailures(stops, w, ps) <==> f.i in ps && StopFailure(stops, w, f.i) == Some(f.code)
  {
    if ps != [] {
      var last := ps[|ps| - 1];
      StopFailureOf(stops, w, ps[..|ps| - 1], f);
      assert ps == ps[..|ps| - 1] + [last];
      hide StopFailure;
      ghost var before := StopFailures(stops, w, ps[..|ps| - 1]);
      assert f in StopFailures(stops, w, ps) <==>
        f in before || (f.i == last && StopFailure(stops, w, last) == Some(f.code));
    }
  }

  lemma FailureIndices(stops: seq<Transition>, w: World)
    requires AllWellFormed(stops)
    ensures var prepared := PreparedUpTo(stops, w, |stops|);
      forall f :: f in PrepareFailures(stops, w, |stops|) + StopFailures(stops, w, prepared) ==> f.i < |stops|
  {
    var prepared := PreparedUpTo(stops, w, |stops|);
    forall f | f in PrepareFailures(stops, w, |stops|) + StopFailures(stops, w, prepared) ensures f.i < |stops| {
      PrepareFailureOf(stops, w, |stops|, f);
      StopFailureOf(stops, w, prepared, f);
    }
  }

  lemma {:induction false} CountPrepared(stops: seq<Transition>, w: World, n: nat)
    requires n <= |stops| && forall i :: 0 <= i < n ==> !w.prepare(i).PrepareCrash?
    ensures |PrepareFailures(stops, w, n)| + |PreparedUpTo(stops, w, n)| == n
  {
    if n > 0 {
      CountPrepared(stops, w, n - 1);
    }
  }

  lemma {:induction false} CountStopped(stops: seq<Transition>, w: World, ps: seq<nat>)
    requires Usable(stops, ps)
    ensures |StopFailures(stops, w, ps)| + |ConfirmedIn(w, ps)| == |ps|
  {
    if ps != [] {
      CountStopped(stops, w, ps[..|ps| - 1]);
      assert ps[|ps| - 1] in ps;
    }
  }

  /** Finalised and failed stops partition the plan: each planned stop is in exactly one list,
      once, and it is finalised whenever it was prepared, observed empty and finalised by the
      service, even if its helper call failed. */
  lemma StopsArePartitioned(stops: seq<Transition>, w: World)
    requires NoCrash(stops, w) && AllWellFormed(stops)
    ensures var prepared := PreparedUpTo(stops, w, |stops|);
      var failures, finalized := PrepareFailures(stops, w, |stops|) + StopFailures(stops, w, prepared), ConfirmedIn(w, prepared);
      && |failures| + |finalized| == |stops|
      && (forall i: nat :: i in finalized <==> i < |stops| && Done(stops, w, i))
      && (forall i: nat :: (exists f :: f in failures && f.i == i) <==> i < |stops| && !Done(stops, w, i))
  {
    var prepared := PreparedUpTo(stops, w, |stops|);
    var failures := PrepareFailures(stops, w, |stops|) + StopFailures(stops, w, prepared);
    CountPrepared(stops, w, |stops|);
    CountStopped(stops, w, prepared);
    forall i: nat ensures i in ConfirmedIn(w, prepared) <==> i < |stops| && Done(stops, w, i) {
      ConfirmedAre(w, prepared, i);
    }
    forall i: nat ensures (exists f :: f in failures && f.i == i) <==> i < |stops| && !Done(stops, w, i) {
      FailureExistsIff(stops, w, i);
    }
  }

  lemma FailureExistsIff(stops: seq<Transition>, w: World, i: nat)
    requires NoCrash(stops, w) && AllWellFormed(stops)
    ensures var failures := PrepareFailures(stops, w, |stops|) + StopFailures(stops, w, PreparedUpTo(stops, w, |stops|));
      (exists f :: f in failures && f.i == i) <==> i < |stops| && !Done(stops, w, i)
  {
    var prepared := PreparedUpTo(stops, w, |stops|);
    var failures := PrepareFailures(stops, w, |stops|) + StopFailures(stops, w, prepared);
    hide AdapterCode, PrepareFailures, StopFailures, PreparedUpTo;
    if f :| f in failures && f.i == i {
      PrepareFailureOf(stops, w, |stops|, f);
      StopFailureOf(stops, w, prepared, f);
    }
    if i < |stops| && !Done(stops, w, i) {
      var reason := if Prepared(stops, w, i) then StopFailure(stops, w, i) else PrepareFailure(stops, w, i);
      var f := Failure(i, reason.value);
      PrepareFailureOf(stops, w, |stops|, f);
      StopFailureOf(stops, w, prepared, f);
      assert f in failures;
    }
  }

  /** The code of the report: an incompatible helper exactly when that is why every unfinished stop failed. */
  lemma ReportCodeIff(stops: seq<Transition>, w: World, failures: seq<Failure>)
    requires NoCrash(stops, w) && AllWellFormed(stops) && (forall f :: f in failures ==> f.i < |stops|)
    requires failures == PrepareFailures(stops, w, |stops|) + StopFailures(stops, w, PreparedUpTo(stops, w, |stops|))
    requires failures != []
    ensures Report(stops, failures).BrokerFailure?
    ensures Report(stops, failures).code in {"keepalive_helper_incompatible", "keepalive_partial_stop"}
    ensures Report(stops, failures).code == "keepalive_helper_incompatible" <==>
            forall i :: 0 <= i < |stops| && !Done(stops, w, i) ==>
              (if Prepared(stops, w, i) then StopFailure(stops, w, i) else PrepareFailure(stops, w, i))
              == Some("keepalive_helper_incompatible")
  {
    var prepared := PreparedUpTo(stops, w, |stops|);
    hide AdapterCode, PrepareFailures, StopFailures, PreparedUpTo, StopFailure;
    forall f: Failure
      ensures f in failures <==>
              f.i < |stops| && !Done(stops, w, f.i)
              && (if Prepared(stops, w, f.i) then StopFailure(stops, w, f.i) else PrepareFailure(stops, w, f.i)) == Some(f.code)
    {
      ListedIff(stops, w, f);
    }
    forall i | 0 <= i < |stops| && !Done(stops, w, i)
      ensures var reason := if Prepared(stops, w, i) then StopFailure(stops, w, i) else PrepareFailure(stops, w, i);
        reason.Some? && Failure(i, reason.value) in failures
    {
      FailureExistsIff(stops, w, i);
      var f :| f in failures && f.i == i;
    }
  }

  lemma ListedIff(stops: seq<Transition>, w: World, f: Failure)
    requires NoCrash(stops, w) && AllWellFormed(stops)
    ensures f in PrepareFailures(stops, w, |stops|) + StopFailures(stops, w, PreparedUpTo(stops, w, |stops|)) <==>
            f.i < |stops| && !Done(stops, w, f.i)
            && (if Prepared(stops, w, f.i) then StopFailure(stops, w, f.i) else PrepareFailure(stops, w, f.i)) == Some(f.code)
  {
    PrepareFailureOf(stops, w, |stops|, f);
    StopFailureOf(stops, w, PreparedUpTo(stops, w, |stops|), f);
    hide PrepareFailures, StopFailures, PreparedUpTo, AdapterCode;
  }

  lemma AllDoneIff(stops: seq<Transition>, w: World)
    requires NoCrash(stops, w) && AllWellFormed(stops)
    ensures PrepareFailures(stops, w, |stops|) + StopFailures(stops, w, PreparedUpTo(stops, w, |stops|)) == [] <==>
            forall i :: 0 <= i < |stops| ==> Done(stops, w, i)
  {
    var failures := PrepareFailures(stops, w, |stops|) + StopFailures(stops, w, PreparedUpTo(stops, w, |stops|));
    if failures == [] {
      forall i | 0 <= i < |stops| ensures Done(stops, w, i) {
        FailureExistsIff(stops, w, i);
      }
    } else {
      FailureIndices(stops, w);
      assert failures[0] in failures;
      FailureExistsIff(stops, w, failures[0].i);
    }
  }
}
