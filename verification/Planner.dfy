/** The choice of the smallest useful plan along a frontier of growing resource contracts. */
module Planner {
  /** CPU cores and thresholds are exact reals here. */
  datatype Candidate = Candidate(
    id: string, remaining: int, basis: string, cpuCores: real, memoryMib: int, gpuCount: int, nodes: int)
  {
    predicate Valid() {
      && id != "" && remaining > 0 && basis != ""
      && cpuCores >= 0.0 && memoryMib >= 0 && gpuCount >= 0 && nodes >= 0
      && !(cpuCores == 0.0 && memoryMib == 0 && gpuCount == 0 && nodes == 0)
    }

    function Size(): (real, int, int, int) {
      (cpuCores, memoryMib, gpuCount, nodes)
    }
  }

  datatype Decision =
    | Smallest(id: string)
    | Qualified(id: string, savedSeconds: int, savedFraction: real)
    | BelowThreshold(id: string, savedSeconds: int, savedFraction: real)

  datatype PlanError =
    | NoCandidates
    | BadFraction
    | BadSeconds
    | BadCandidate(at: nat)
    | RepeatedId(at: nat)
    | Shrinks(at: nat)
    | SameSize(at: nat)

  datatype Selection = Selected(candidate: Candidate, decisions: seq<Decision>) | Refused(error: PlanError)

  // ----- what a frontier must be -----

  /** No quantity of `b` is below that of `a`. */
  predicate Covers(b: Candidate, a: Candidate) {
    a.cpuCores <= b.cpuCores && a.memoryMib <= b.memoryMib && a.gpuCount <= b.gpuCount && a.nodes <= b.nodes
  }

  /** The first `n` candidates pass every check. */
  ghost predicate FrontierUpTo(candidates: seq<Candidate>, n: nat) {
    n <= |candidates|
    && (forall i :: 0 <= i < n ==> candidates[i].Valid())
    && (forall i, j :: 0 <= i < j < n ==> candidates[i].id != candidates[j].id)
    && (forall i :: 0 < i < n ==> Covers(candidates[i], candidates[i - 1]) && candidates[i].Size() != candidates[i - 1].Size())
  }

  ghost predicate Frontier(candidates: seq<Candidate>) {
    candidates != [] && FrontierUpTo(candidates, |candidates|)
  }

  predicate Thresholds(fraction: real, seconds: int) {
    0.0 <= fraction <= 1.0 && seconds >= 0
  }

  /** The error names the first check that fails. */
  ghost predicate Explains(error: PlanError, candidates: seq<Candidate>, fraction: real, seconds: int) {
    match error
    case NoCandidates => candidates == []
    case BadFraction => candidates != [] && !(0.0 <= fraction <= 1.0)
    case BadSeconds => candidates != [] && 0.0 <= fraction <= 1.0 && seconds < 0
    case BadCandidate(at) =>
      Thresholds(fraction, seconds) && at < |candidates| && FrontierUpTo(candidates, at) && !candidates[at].Valid()
    case RepeatedId(at) =>
      Thresholds(fraction, seconds) && at < |candidates| && FrontierUpTo(candidates, at) && candidates[at].Valid()
      && exists i :: 0 <= i < at && candidates[i].id == candidates[at].id
    case Shrinks(at) =>
      Thresholds(fraction, seconds) && 0 < at < |candidates| && FrontierUpTo(candidates, at) && candidates[at].Valid()
      && (forall i :: 0 <= i < at ==> candidates[i].id != candidates[at].id)
      && !Covers(candidates[at], candidates[at - 1])
    case SameSize(at) =>
      Thresholds(fraction, seconds) && 0 < at < |candidates| && FrontierUpTo(candidates, at) && candidates[at].Valid()
      && (forall i :: 0 <= i < at ==> candidates[i].id != candidates[at].id)
      && candidates[at].Size() == candidates[at - 1].Size()
  }

  // ----- the selection -----

  function Saved(a: Candidate, b: Candidate): int {
    a.remaining - b.remaining
  }

  function SavedFraction(a: Candidate, b: Candidate): real
    requires a.remaining > 0
  {
    Saved(a, b) as real / a.remaining as real
  }

  /** The expansion from `a` to `b` meets both thresholds. */
  predicate Qualifies(a: Candidate, b: Candidate, fraction: real, seconds: int)
    requires a.remaining > 0
  {
    Saved(a, b) >= seconds && SavedFraction(a, b) >= fraction
  }

  /** Candidate `k` ends the longest front of the frontier whose every expansion qualifies. */
  ghost predicate StopsAt(candidates: seq<Candidate>, fraction: real, seconds: int, k: nat)
    requires Frontier(candidates)
  {
    k < |candidates|
    && (forall i :: 0 <= i < k ==> Qualifies(candidates[i], candidates[i + 1], fraction, seconds))
    && (k + 1 < |candidates| ==> !Qualifies(candidates[k], candidates[k + 1], fraction, seconds))
  }

  /** The decisions up to candidate `k`: the first candidate, then every accepted expansion. */
  ghost predicate Accepted(decisions: seq<Decision>, candidates: seq<Candidate>, k: nat)
    requires Frontier(candidates) && k < |candidates|
  {
    |decisions| == k + 1 && decisions[0] == Smallest(candidates[0].id)
    && forall i :: 0 < i <= k ==> decisions[i] == Qualified(
      candidates[i].id, Saved(candidates[i - 1], candidates[i]), SavedFraction(candidates[i - 1], candidates[i]))
  }

  /** The accepted expansions and at most one rejection, at the end. */
  ghost predicate Records(decisions: seq<Decision>, candidates: seq<Candidate>, k: nat)
    requires Frontier(candidates) && k < |candidates|
  {
    if k + 1 == |candidates| then Accepted(decisions, candidates, k)
    else
      && |decisions| == k + 2 && Accepted(decisions[..k + 1], candidates, k)
      && decisions[k + 1] == BelowThreshold(
        candidates[k + 1].id, Saved(candidates[k], candidates[k + 1]), SavedFraction(candidates[k], candidates[k + 1]))
  }

  /** The checks on the frontier, in order. */
  method CheckFrontier(candidates: seq<Candidate>, fraction: real, seconds: int) returns (ok: bool, error: PlanError)
    requires candidates != [] && Thresholds(fraction, seconds)
    ensures ok ==> Frontier(candidates)
    ensures !ok ==> Explains(error, candidates, fraction, seconds)
  {
    hide Covers, Candidate.Valid, Candidate.Size, FrontierUpTo;
    error := NoCandidates;
    var seenIds: set<string> := {};
    NothingChecked(candidates);
    for n := 0 to |candidates|
      invariant FrontierUpTo(candidates, n) && seenIds == IdsUpTo(candidates, n)
    {
      var candidate := candidates[n];
      if !candidate.Valid() {
        return false, BadCandidate(n);
      }
      if candidate.id in seenIds {
        return false, RepeatedId(n);
      }
      seenIds := seenIds + {candidate.id};
      if n > 0 {
        if !Covers(candidate, candidates[n - 1]) {
          return false, Shrinks(n);
        }
        if candidate.Size() == candidates[n - 1].Size() {
          return false, SameSize(n);
        }
      }
      OneMoreChecked(candidates, n);
    }
    ok := true;
  }

  ghost function IdsUpTo(candidates: seq<Candidate>, n: nat): set<string>
    requires n <= |candidates|
  {
    set i | 0 <= i < n :: candidates[i].id
  }

  lemma NothingChecked(candidates: seq<Candidate>)
    ensures FrontierUpTo(candidates, 0) && IdsUpTo(candidates, 0) == {}
  {
  }

  lemma OneMoreChecked(candidates: seq<Candidate>, n: nat)
    requires n < |candidates| && FrontierUpTo(candidates, n) && candidates[n].Valid()
    requires candidates[n].id !in IdsUpTo(candidates, n)
    requires n > 0 ==> Covers(candidates[n], candidates[n - 1]) && candidates[n].Size() != candidates[n - 1].Size()
    ensures FrontierUpTo(candidates, n + 1)
    ensures IdsUpTo(candidates, n + 1) == IdsUpTo(candidates, n) + {candidates[n].id}
  {
    hide Covers, Candidate.Valid, Candidate.Size;
  }

  /** `select_smallest_useful_plan` */
  method SelectSmallestUsefulPlan(candidates: seq<Candidate>, fraction: real, seconds: int)
    returns (selection: Selection, ghost k: nat)
    ensures selection.Selected? <==> Frontier(candidates) && Thresholds(fraction, seconds)
    ensures selection.Refused? ==> Explains(selection.error, candidates, fraction, seconds)
    ensures selection.Selected? ==> Frontier(candidates) && StopsAt(candidates, fraction, seconds, k)
    ensures selection.Selected? ==> selection.candidate == candidates[k] && Records(selection.decisions, candidates, k)
  {
    k := 0;
    if candidates == [] {
      return Refused(NoCandidates), k;
    }
    if !(0.0 <= fraction <= 1.0) {
      return Refused(BadFraction), k;
    }
    if seconds < 0 {
      return Refused(BadSeconds), k;
    }
    var ok, error := CheckFrontier(candidates, fraction, seconds);
    if !ok {
      RefusalIsRight(error, candidates, fraction, seconds);
      return Refused(error), k;
    }
    selection, k := Climb(candidates, fraction, seconds);
  }

  lemma RefusalIsRight(error: PlanError, candidates: seq<Candidate>, fraction: real, seconds: int)
    requires Explains(error, candidates, fraction, seconds)
    ensures !(Frontier(candidates) && Thresholds(fraction, seconds))
  {
  }

  /** The loop over the expansions. */
  method Climb(candidates: seq<Candidate>, fraction: real, seconds: int) returns (selection: Selection, ghost k: nat)
    requires Frontier(candidates)
    ensures selection.Selected? && StopsAt(candidates, fraction, seconds, k)
    ensures selection.candidate == candidates[k] && Records(selection.decisions, candidates, k)
  {
    var selected := candidates[0];
    var decisions := [Smallest(selected.id)];
    k := 0;
    for next := 1 to |candidates|
      invariant k == next - 1 && selected == candidates[k] && Accepted(decisions, candidates, k)
      invariant forall i :: 0 <= i < k ==> Qualifies(candidates[i], candidates[i + 1], fraction, seconds)
    {
      var candidate := candidates[next];
      var savedSeconds := Saved(selected, candidate);
      var savedFraction := SavedFraction(selected, candidate);
      hide Saved, SavedFraction, Frontier;
      if savedSeconds >= seconds && savedFraction >= fraction {
        selected := candidate;
        decisions := decisions + [Qualified(candidate.id, savedSeconds, savedFraction)];
      } else {
        assert (decisions + [BelowThreshold(candidate.id, savedSeconds, savedFraction)])[..next] == decisions;
        return Selected(selected, decisions + [BelowThreshold(candidate.id, savedSeconds, savedFraction)]), k;
      }
      k := next;
    }
    selection := Selected(selected, decisions);
  }

  // ----- what the selection guarantees -----

  /** Stricter thresholds never select a later plan. */
  lemma StricterStopsSooner(
    candidates: seq<Candidate>, fraction: real, seconds: int, stricter: real, longer: int, j: nat, k: nat)
    requires Frontier(candidates) && fraction <= stricter && seconds <= longer
    requires StopsAt(candidates, stricter, longer, j) && StopsAt(candidates, fraction, seconds, k)
    ensures j <= k
  {
    hide Frontier, Saved, SavedFraction;
  }

  /** One frontier and one pair of thresholds have one answer. */
  lemma StopIsUnique(candidates: seq<Candidate>, fraction: real, seconds: int, j: nat, k: nat)
    requires Frontier(candidates)
    requires StopsAt(candidates, fraction, seconds, j) && StopsAt(candidates, fraction, seconds, k)
    ensures j == k
  {
    StricterStopsSooner(candidates, fraction, seconds, fraction, seconds, j, k);
    StricterStopsSooner(candidates, fraction, seconds, fraction, seconds, k, j);
  }

  function Power(x: real, k: nat): real {
    if k == 0 then 1.0 else Power(x, k - 1) * x
  }

  lemma EdgeShrinks(a: Candidate, b: Candidate, fraction: real, seconds: int)
    requires a.remaining > 0 && Qualifies(a, b, fraction, seconds)
    ensures b.remaining as real <= a.remaining as real * (1.0 - fraction)
    ensures b.remaining <= a.remaining - seconds
  {
    var whole := a.remaining as real;
    var saved := Saved(a, b) as real;
    assert saved == saved / whole * whole;
    assert saved / whole * whole >= fraction * whole;
  }

  lemma ScaleLe(x: real, y: real, c: real)
    requires x <= y && c >= 0.0
    ensures x * c <= y * c
  {
  }

  lemma PowerStep(first: real, keep: real, k: nat, last: real, next: real)
    requires last <= first * Power(keep, k) && next <= last * keep && keep >= 0.0
    ensures next <= first * Power(keep, k + 1)
  {
    var p := Power(keep, k);
    hide Power;
    ScaleLe(last, first * p, keep);
    assert first * p * keep == first * (p * keep);
    PowerNext(keep, k);
  }

  lemma PowerNext(x: real, k: nat)
    ensures Power(x, k + 1) == Power(x, k) * x
  {
  }

  /** After `k` accepted expansions the remaining time has shrunk by the fraction `k` times and by `k` times the seconds. */
  lemma {:induction false} RemainingShrinks(candidates: seq<Candidate>, fraction: real, seconds: int, k: nat)
    requires Frontier(candidates) && Thresholds(fraction, seconds) && k < |candidates|
    requires forall i :: 0 <= i < k ==> Qualifies(candidates[i], candidates[i + 1], fraction, seconds)
    ensures candidates[k].remaining as real <= candidates[0].remaining as real * Power(1.0 - fraction, k)
    ensures candidates[k].remaining <= candidates[0].remaining - k * seconds
  {
    hide Frontier, Qualifies;
    if k > 0 {
      RemainingShrinks(candidates, fraction, seconds, k - 1);
      Positive(candidates, k - 1);
      assert Qualifies(candidates[k - 1], candidates[k - 1 + 1], fraction, seconds);
      EdgeShrinks(candidates[k - 1], candidates[k], fraction, seconds);
      hide Power;
      PowerStep(candidates[0].remaining as real, 1.0 - fraction, k - 1,
        candidates[k - 1].remaining as real, candidates[k].remaining as real);
      assert k * seconds == (k - 1) * seconds + seconds;
    }
  }

  lemma Positive(candidates: seq<Candidate>, k: nat)
    requires Frontier(candidates) && k < |candidates|
    ensures candidates[k].remaining > 0
  {
    assert candidates[k].Valid();
  }

  lemma MultiplyLe(a: int, b: int, s: int)
    requires a <= b && s > 0
    ensures a * s <= b * s
  {
  }

  lemma DivideBound(k: nat, s: int, n: int)
    requires s > 0 && k * s <= n
    ensures k <= n / s
  {
    var q := n / s;
    if k > q {
      MultiplyLe(q + 1, k, s);
    }
  }

  /** The selected plan keeps both bounds, so a positive number of seconds bounds how far the climb can go. */
  lemma SelectionIsBounded(candidates: seq<Candidate>, fraction: real, seconds: int, k: nat)
    requires Frontier(candidates) && Thresholds(fraction, seconds) && StopsAt(candidates, fraction, seconds, k)
    ensures candidates[k].remaining as real <= candidates[0].remaining as real * Power(1.0 - fraction, k)
    ensures candidates[k].remaining <= candidates[0].remaining - k * seconds
    ensures seconds > 0 ==> k <= (candidates[0].remaining - 1) / seconds
    ensures fraction == 1.0 ==> k == 0
  {
    RemainingShrinks(candidates, fraction, seconds, k);
    Positive(candidates, k);
    hide Frontier;
    if seconds > 0 {
      DivideBound(k, seconds, candidates[0].remaining - 1);
    }
    if k > 0 {
      PowerNext(1.0 - fraction, k - 1);
    }
  }

  function Total(c: Candidate): real {
    c.cpuCores + c.memoryMib as real + c.gpuCount as real + c.nodes as real
  }

  /** Checking neighbours is enough: any later candidate covers any earlier one and differs from it in size. */
  lemma {:induction false} FrontierGrows(candidates: seq<Candidate>, i: nat, j: nat)
    requires Frontier(candidates) && i < j < |candidates|
    ensures Covers(candidates[j], candidates[i]) && candidates[j].Size() != candidates[i].Size()
    ensures Total(candidates[i]) < Total(candidates[j])
  {
    assert Covers(candidates[j], candidates[j - 1]) && candidates[j].Size() != candidates[j - 1].Size();
    if i < j - 1 {
      FrontierGrows(candidates, i, j - 1);
    }
  }

  /** A contract by itself: named, with a forecast, of some resource and of no negative quantity. */
  predicate Sound(c: Candidate) {
    && |c.id| > 0 && |c.basis| > 0 && c.remaining >= 1
    && c.cpuCores >= 0.0 && c.memoryMib >= 0 && c.gpuCount >= 0 && c.nodes >= 0
    && (c.cpuCores > 0.0 || c.memoryMib > 0 || c.gpuCount > 0 || c.nodes > 0)
  }

  /** Every quantity at least as large, and one of them larger. */
  predicate Larger(b: Candidate, a: Candidate) {
    && b.cpuCores >= a.cpuCores && b.memoryMib >= a.memoryMib && b.gpuCount >= a.gpuCount && b.nodes >= a.nodes
    && (b.cpuCores > a.cpuCores || b.memoryMib > a.memoryMib || b.gpuCount > a.gpuCount || b.nodes > a.nodes)
  }

  /** What the checks of neighbours accept: sound contracts, of which every later one is larger and has its own name. */
  lemma FrontierIff(candidates: seq<Candidate>)
    ensures Frontier(candidates) <==>
            && |candidates| > 0 && (forall i :: 0 <= i < |candidates| ==> Sound(candidates[i]))
            && forall i, j :: 0 <= i < j < |candidates| ==>
                 Larger(candidates[j], candidates[i]) && candidates[i].id != candidates[j].id
  {
    if Frontier(candidates) {
      forall i: nat, j: nat | i < j < |candidates| ensures Larger(candidates[j], candidates[i]) {
        FrontierGrows(candidates, i, j);
      }
      assert forall i :: 0 <= i < |candidates| ==> candidates[i].Valid();
    }
  }

  /** An expansion qualifies exactly when what remains is shorter by the seconds and by the fraction. */
  lemma QualifiesIff(a: Candidate, b: Candidate, fraction: real, seconds: int)
    requires a.remaining > 0
    ensures Qualifies(a, b, fraction, seconds) <==>
            && b.remaining + seconds <= a.remaining
            && b.remaining as real <= a.remaining as real * (1.0 - fraction)
  {
    var whole, saved := a.remaining as real, Saved(a, b) as real;
    assert saved == saved / whole * whole;
    if saved / whole < fraction {
      ScaleLess(saved / whole, fraction, whole);
    } else {
      ScaleLe(fraction, saved / whole, whole);
    }
  }

  lemma ScaleLess(x: real, y: real, c: real)
    requires x < y && c > 0.0
    ensures x * c < y * c
  {
  }

  /** What follows the first rejected expansion has no say: the same plan is selected whatever comes after it. */
  lemma StopsForGood(candidates: seq<Candidate>, others: seq<Candidate>, fraction: real, seconds: int, k: nat)
    requires Frontier(candidates) && Frontier(others) && StopsAt(candidates, fraction, seconds, k)
    requires k + 1 < |candidates| && k + 1 < |others| && candidates[..k + 2] == others[..k + 2]
    ensures StopsAt(others, fraction, seconds, k)
  {
    forall i | 0 <= i < k + 2 ensures candidates[i] == others[i] {
      assert candidates[..k + 2][i] == others[..k + 2][i];
    }
  }
}
