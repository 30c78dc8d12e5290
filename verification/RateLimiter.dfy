/** The sliding-window rate limiter: one queue of admitted times for each actor. */
module RateLimiting {
  const WINDOW := 60.0

  datatype Call = Call(actor: string, now: real)

  // ----- one actor's queue -----

  /** `t` is the end of `h`. */
  ghost predicate IsTail(t: seq<real>, h: seq<real>) {
    |t| <= |h| && forall i :: 0 <= i < |t| ==> t[i] == h[|h| - |t| + i]
  }

  /** The queue without the hits at its head that are a minute old. */
  function Trim(queue: seq<real>, now: real): (r: seq<real>)
    ensures IsTail(r, queue)
    ensures r != [] ==> r[0] > now - WINDOW
    ensures forall i :: 0 <= i < |queue| - |r| ==> queue[i] <= now - WINDOW
  {
    if queue != [] && queue[0] <= now - WINDOW then Trim(queue[1..], now) else queue
  }

  predicate Admits(perMinute: int, queue: seq<real>, now: real) {
    |Trim(queue, now)| < perMinute
  }

  function Next(perMinute: int, queue: seq<real>, now: real): seq<real> {
    Trim(queue, now) + if Admits(perMinute, queue, now) then [now] else []
  }

  /** The queue after checks at these times. */
  function Queue(perMinute: int, times: seq<real>): seq<real> {
    if times == [] then [] else Next(perMinute, Queue(perMinute, times[..|times| - 1]), times[|times| - 1])
  }

  /** The times of the checks that were admitted, in the order of the checks. */
  function Admitted(perMinute: int, times: seq<real>): seq<real> {
    if times == [] then []
    else
      var before, now := times[..|times| - 1], times[|times| - 1];
      Admitted(perMinute, before) + if Admits(perMinute, Queue(perMinute, before), now) then [now] else []
  }

  /** How many of the times lie after `low` and not after `high`. */
  function Within(times: seq<real>, low: real, high: real): nat {
    if times == [] then 0
    else
      var t := times[|times| - 1];
      Within(times[..|times| - 1], low, high) + if low < t <= high then 1 else 0
  }

  /** A later check is at most `skew` earlier than the checks before it. */
  ghost predicate Skewed(times: seq<real>, skew: real) {
    forall i, j :: 0 <= i < j < |times| ==> times[i] <= times[j] + skew
  }

  function Limit(perMinute: int): nat {
    if perMinute > 0 then perMinute else 0
  }

  // ----- all actors -----

  function QueueOf(hits: map<string, seq<real>>, actor: string): seq<real> {
    if actor in hits then hits[actor] else []
  }

  function After(perMinute: int, calls: seq<Call>): map<string, seq<real>> {
    if calls == [] then map[]
    else
      var hits, call := After(perMinute, calls[..|calls| - 1]), calls[|calls| - 1];
      hits[call.actor := Next(perMinute, QueueOf(hits, call.actor), call.now)]
  }

  function TimesOf(calls: seq<Call>, actor: string): seq<real> {
    if calls == [] then []
    else
      var call := calls[|calls| - 1];
      TimesOf(calls[..|calls| - 1], actor) + if call.actor == actor then [call.now] else []
  }

  /** One more check, in the words of the queue before it. */
  lemma OneMore(perMinute: int, before: seq<real>, now: real)
    ensures var t, h := Trim(Queue(perMinute, before), now), Admitted(perMinute, before);
      && Queue(perMinute, before + [now]) == (if |t| < perMinute then t + [now] else t)
      && Admitted(perMinute, before + [now]) == (if |t| < perMinute then h + [now] else h)
      && (Admits(perMinute, Queue(perMinute, before), now) <==> |t| < perMinute)
  {
    var times := before + [now];
    assert times[..|times| - 1] == before;
    hide Trim;
    assert Trim(Queue(perMinute, before), now) + [] == Trim(Queue(perMinute, before), now);
  }

  lemma Unsnoc(times: seq<real>) returns (before: seq<real>, now: real)
    requires times != []
    ensures before == times[..|times| - 1] && now == times[|times| - 1] && times == before + [now]
  {
    before, now := times[..|times| - 1], times[|times| - 1];
  }

  class RateLimiter {
    const perMinute: int
    var hits: map<string, seq<real>>
    ghost var calls: seq<Call>

    ghost predicate Valid()
      reads this
    {
      hits == After(perMinute, calls)
    }

    constructor (perMinute: int)
      ensures Valid() && calls == [] && this.perMinute == perMinute
    {
      this.perMinute := perMinute;
      hits := map[];
      calls := [];
    }

    /** The loop of `check` that pops old hits from the head of the actor's queue. */
    method PopOld(actor: string, now: real)
      requires actor in hits
      modifies this`hits
      ensures hits == old(hits)[actor := Trim(old(hits)[actor], now)]
    {
      ghost var was := hits;
      while hits[actor] != [] && hits[actor][0] <= now - WINDOW
        invariant actor in hits && hits == was[actor := hits[actor]]
        invariant Trim(hits[actor], now) == Trim(was[actor], now)
        decreases |hits[actor]|
      {
        hits := hits[actor := hits[actor][1..]];
      }
    }

    /** `check`: admits or refuses, and the decision depends on this actor's earlier checks alone. */
    method Check(actor: string, now: real) returns (admitted: bool)
      requires Valid()
      modifies this
      ensures Valid() && calls == old(calls) + [Call(actor, now)]
      ensures admitted <==> Admits(perMinute, Queue(perMinute, TimesOf(old(calls), actor)), now)
    {
      hide Trim, Queue, TimesOf, After, Next;
      ActorsAreIndependent(perMinute, calls, actor);
      ghost var was := hits;
      if actor !in hits {
        hits := hits[actor := []];
      }
      PopOld(actor, now);
      admitted := |hits[actor]| < perMinute;
      if admitted {
        hits := hits[actor := hits[actor] + [now]];
      }
      NextOf(perMinute, QueueOf(was, actor), now);
      AfterOneMore(perMinute, calls, actor, now);
      calls := calls + [Call(actor, now)];
    }
  }

  lemma NextOf(perMinute: int, queue: seq<real>, now: real)
    ensures Next(perMinute, queue, now)
      == if |Trim(queue, now)| < perMinute then Trim(queue, now) + [now] else Trim(queue, now)
  {
    hide Trim;
    assert Trim(queue, now) + [] == Trim(queue, now);
  }

  lemma AfterOneMore(perMinute: int, calls: seq<Call>, actor: string, now: real)
    ensures var hits := After(perMinute, calls);
      After(perMinute, calls + [Call(actor, now)]) == hits[actor := Next(perMinute, QueueOf(hits, actor), now)]
    ensures TimesOf(calls + [Call(actor, now)], actor) == TimesOf(calls, actor) + [now]
  {
    hide Next;
    assert (calls + [Call(actor, now)])[..|calls|] == calls;
  }

  /** Each actor's queue is what its own checks alone would have made it. */
  lemma {:induction false} ActorsAreIndependent(perMinute: int, calls: seq<Call>, actor: string)
    ensures QueueOf(After(perMinute, calls), actor) == Queue(perMinute, TimesOf(calls, actor))
  {
    hide Next;
    if calls != [] {
      var before, call := calls[..|calls| - 1], calls[|calls| - 1];
      ActorsAreIndependent(perMinute, before, actor);
      var times := TimesOf(calls, actor);
      if call.actor == actor {
        assert times[..|times| - 1] == TimesOf(before, actor);
      } else {
        assert times == TimesOf(before, actor);
      }
    }
  }

  // ----- the queue against the history -----

  /** The queue is the last part of the admitted times and never longer than the limit. What has left it is a
    * minute older than some check, so at least a minute older than any bound on the checks. */
  lemma {:induction false} QueueIsTail(perMinute: int, times: seq<real>, latest: real)
    requires forall i :: 0 <= i < |times| ==> times[i] <= latest
    ensures var q, h := Queue(perMinute, times), Admitted(perMinute, times);
      && IsTail(q, h) && |q| <= Limit(perMinute)
      && forall i :: 0 <= i < |h| - |q| ==> h[i] <= latest - WINDOW
  {
    if times != [] {
      var before, now := Unsnoc(times);
      QueueIsTail(perMinute, before, latest);
      QueueIsTailStep(perMinute, before, now, latest);
    }
  }

  lemma QueueIsTailStep(perMinute: int, before: seq<real>, now: real, latest: real)
    requires now <= latest
    requires var q, h := Queue(perMinute, before), Admitted(perMinute, before);
      && IsTail(q, h) && |q| <= Limit(perMinute)
      && forall i :: 0 <= i < |h| - |q| ==> h[i] <= latest - WINDOW
    ensures var q, h := Queue(perMinute, before + [now]), Admitted(perMinute, before + [now]);
      && IsTail(q, h) && |q| <= Limit(perMinute)
      && forall i :: 0 <= i < |h| - |q| ==> h[i] <= latest - WINDOW
  {
    hide Queue, Admitted, Trim, IsTail;
    OneMore(perMinute, before, now);
    var h, q := Admitted(perMinute, before), Queue(perMinute, before);
    TrimmedTail(h, q, now, latest);
    TailShorter(Trim(q, now), q);
  }

  lemma TrimmedTail(h: seq<real>, q: seq<real>, now: real, latest: real)
    requires IsTail(q, h) && now <= latest
    requires forall i :: 0 <= i < |h| - |q| ==> h[i] <= latest - WINDOW
    ensures var t := Trim(q, now);
      && IsTail(t, h) && IsTail(t + [now], h + [now])
      && forall i :: 0 <= i < |h| - |t| ==> h[i] <= latest - WINDOW
  {
    var t := Trim(q, now);
    hide Trim;
    forall i | 0 <= i < |h| - |t| ensures h[i] <= latest - WINDOW {
      if i >= |h| - |q| {
        assert h[i] == q[i - (|h| - |q|)];
      }
    }
  }

  // ----- counting in a window -----

  lemma {:induction false} WithinSplits(a: seq<real>, b: seq<real>, low: real, high: real)
    ensures Within(a + b, low, high) == Within(a, low, high) + Within(b, low, high)
  {
    if b == [] {
      assert a + b == a;
    } else {
      assert (a + b)[..|a + b| - 1] == a + b[..|b| - 1];
      WithinSplits(a, b[..|b| - 1], low, high);
    }
  }

  lemma {:induction false} WithinBounds(times: seq<real>, low: real, high: real)
    ensures Within(times, low, high) <= |times|
    ensures (forall i :: 0 <= i < |times| ==> times[i] <= low) ==> Within(times, low, high) == 0
    ensures (forall i :: 0 <= i < |times| ==> low < times[i] <= high) ==> Within(times, low, high) == |times|
  {
    if times != [] {
      WithinBounds(times[..|times| - 1], low, high);
    }
  }

  lemma WithinOneMore(times: seq<real>, t: real, low: real, high: real)
    ensures Within(times + [t], low, high) == Within(times, low, high) + if low < t <= high then 1 else 0
  {
    assert (times + [t])[..|times|] == times;
  }

  /** Hits up to `cut` lie before the window, so the window holds no more than the rest. */
  lemma WithinRest(h: seq<real>, cut: nat, low: real, high: real)
    requires cut <= |h| && forall i :: 0 <= i < cut ==> h[i] <= low
    ensures Within(h, low, high) <= |h| - cut
    ensures (forall i :: cut <= i < |h| ==> low < h[i] <= high) ==> Within(h, low, high) == |h| - cut
  {
    hide Within;
    assert h == h[..cut] + h[cut..];
    WithinSplits(h[..cut], h[cut..], low, high);
    WithinBounds(h[..cut], low, high);
    WithinBounds(h[cut..], low, high);
  }

  /** With checks out of order by at most `skew`, no window of 60 - skew seconds holds more admitted checks than the limit. */
  lemma {:induction false} WindowHoldsLimit(perMinute: int, times: seq<real>, skew: real, low: real)
    requires Skewed(times, skew) && skew >= 0.0
    ensures Within(Admitted(perMinute, times), low, low + WINDOW - skew) <= Limit(perMinute)
  {
    if times != [] {
      var before, now := Unsnoc(times);
      WindowHoldsLimit(perMinute, before, skew, low);
      OneMore(perMinute, before, now);
      hide Queue, Admitted, Trim, Within;
      var high := low + WINDOW - skew;
      WithinOneMore(Admitted(perMinute, before), now, low, high);
      if now <= high && Admits(perMinute, Queue(perMinute, before), now) {
        KeptInWindow(perMinute, before, now, skew, low);
      }
    }
  }

  lemma Earlier(times: seq<real>, now: real, skew: real)
    requires Skewed(times + [now], skew)
    ensures Skewed(times, skew) && forall i :: 0 <= i < |times| ==> times[i] <= now + skew
  {
    var all := times + [now];
    forall i, j | 0 <= i < j < |times| ensures times[i] <= times[j] + skew {
      assert all[i] == times[i] && all[j] == times[j];
    }
    forall i | 0 <= i < |times| ensures times[i] <= now + skew {
      assert all[i] == times[i] && all[|times|] == now;
    }
  }

  /** At an admission, every earlier hit of the window that ends there is still queued. */
  lemma KeptInWindow(perMinute: int, before: seq<real>, now: real, skew: real, low: real)
    requires Skewed(before + [now], skew) && skew >= 0.0
    requires now <= low + WINDOW - skew && Admits(perMinute, Queue(perMinute, before), now)
    ensures Within(Admitted(perMinute, before), low, low + WINDOW - skew) < perMinute
  {
    hide Queue, Admitted, Within, Trim, IsTail, Skewed;
    Earlier(before, now, skew);
    QueueIsTail(perMinute, before, now + skew);
    var h, q := Admitted(perMinute, before), Queue(perMinute, before);
    TrimmedTail(h, q, now, now + skew);
    TailShorter(Trim(q, now), h);
    WithinRest(h, |h| - |Trim(q, now)|, low, low + WINDOW - skew);
  }

  // ----- checks in time order -----

  /** The times in the list after `low`, in order. */
  function Recent(times: seq<real>, low: real): seq<real> {
    if times == [] then []
    else Recent(times[..|times| - 1], low) + if times[|times| - 1] > low then [times[|times| - 1]] else []
  }

  lemma {:induction false} RecentIsTail(h: seq<real>, low: real, t: seq<real>)
    requires IsTail(t, h)
    requires forall i :: 0 <= i < |h| - |t| ==> h[i] <= low
    requires forall i :: 0 <= i < |t| ==> t[i] > low
    ensures Recent(h, low) == t
    decreases |h|
  {
    if h != [] {
      var front := h[..|h| - 1];
      if t == [] {
        RecentIsTail(front, low, []);
      } else {
        var rest := t[..|t| - 1];
        assert IsTail(rest, front);
        RecentIsTail(front, low, rest);
        assert h[|h| - 1] == t[|t| - 1] && t == rest + [t[|t| - 1]];
      }
    }
  }

  ghost predicate InOrder(h: seq<real>, latest: real) {
    (forall i, j :: 0 <= i < j < |h| ==> h[i] <= h[j]) && forall i :: 0 <= i < |h| ==> h[i] <= latest
  }

  lemma {:induction false} AdmittedInOrder(perMinute: int, times: seq<real>, latest: real)
    requires Skewed(times, 0.0) && forall i :: 0 <= i < |times| ==> times[i] <= latest
    ensures InOrder(Admitted(perMinute, times), latest)
  {
    if times != [] {
      var before, now := Unsnoc(times);
      Earlier(before, now, 0.0);
      AdmittedInOrder(perMinute, before, now);
      AdmittedInOrderStep(perMinute, before, now, latest);
    }
  }

  lemma AdmittedInOrderStep(perMinute: int, before: seq<real>, now: real, latest: real)
    requires InOrder(Admitted(perMinute, before), now) && now <= latest
    ensures InOrder(Admitted(perMinute, before + [now]), latest)
  {
    hide Admitted, Queue, Trim, IsTail;
    OneMore(perMinute, before, now);
  }

  lemma TailAfterHead(h: seq<real>, t: seq<real>, low: real, latest: real)
    requires InOrder(h, latest) && IsTail(t, h) && (t != [] ==> t[0] > low)
    ensures forall i :: 0 <= i < |t| ==> low < t[i] <= latest
    ensures forall i :: |h| - |t| <= i < |h| ==> low < h[i] <= latest
  {
    var cut := |h| - |t|;
    forall i | cut <= i < |h| ensures low < h[i] && h[i] == t[i - cut] {
      assert h[cut] == t[0];
    }
    forall i | 0 <= i < |t| ensures low < t[i] {
      assert t[i] == h[cut + i];
    }
  }

  /** For checks in time order the queue is the whole admitted history of the last minute. */
  lemma QueueIsLastMinute(perMinute: int, times: seq<real>, now: real)
    requires Skewed(times + [now], 0.0)
    ensures Queue(perMinute, times + [now]) == Recent(Admitted(perMinute, times + [now]), now - 60.0)
  {
    hide Queue, Admitted, Recent, Skewed, IsTail;
    Earlier(times, now, 0.0);
    AdmittedInOrder(perMinute, times + [now], now);
    QueueIsTail(perMinute, times + [now], now);
    OneMore(perMinute, times, now);
    var h, q := Admitted(perMinute, times + [now]), Queue(perMinute, times + [now]);
    TailAfterHead(h, q, now - WINDOW, now);
    RecentIsTail(h, now - WINDOW, q);
  }

  /** For checks in time order, a check is refused exactly when the minute before it already holds the limit. */
  lemma RefusedIffFull(perMinute: int, times: seq<real>, now: real)
    requires Skewed(times + [now], 0.0)
    ensures Admits(perMinute, Queue(perMinute, times), now)
      <==> Within(Admitted(perMinute, times), now - 60.0, now) < perMinute
  {
    hide Queue, Admitted, Within, Skewed, IsTail, Trim, InOrder;
    Earlier(times, now, 0.0);
    QueueIsTail(perMinute, times, now);
    AdmittedInOrder(perMinute, times, now);
    var h, q := Admitted(perMinute, times), Queue(perMinute, times);
    var t := Trim(q, now);
    TrimmedTail(h, q, now, now);
    TailAfterHead(h, t, now - WINDOW, now);
    TailShorter(t, h);
    WithinRest(h, |h| - |t|, now - WINDOW, now);
  }

  lemma TailShorter(t: seq<real>, h: seq<real>)
    requires IsTail(t, h)
    ensures |t| <= |h|
  {
  }

  // ----- when the full minute is safe -----

  ghost predicate SafeFrom(perMinute: int, times: seq<real>, low: real) {
    Within(Admitted(perMinute, times), low, low + 60.0) <= Limit(perMinute)
  }

  /** No minute holds more admitted checks than the limit, for any checks out of order by at most `skew`. */
  ghost predicate MinuteIsSafe(perMinute: int, skew: real) {
    forall times, low :: Skewed(times, skew) ==> SafeFrom(perMinute, times, low)
  }

  ghost predicate Spaced(h: seq<real>) {
    forall i :: 0 < i < |h| ==> h[i - 1] <= h[i] - WINDOW
  }

  /** The queue is the last admitted time alone. */
  ghost predicate KeepsLast(q: seq<real>, h: seq<real>) {
    if h == [] then |q| == 0 else |q| == 1 && q[0] == h[|h| - 1]
  }

  /** With a limit of one, each admitted check is a minute after the one before, whatever the order. */
  lemma {:induction false} OneIsSpaced(times: seq<real>)
    ensures Spaced(Admitted(1, times)) && KeepsLast(Queue(1, times), Admitted(1, times))
  {
    if times != [] {
      var before, now := Unsnoc(times);
      OneIsSpaced(before);
      OneIsSpacedStep(before, now);
    }
  }

  lemma OneIsSpacedStep(before: seq<real>, now: real)
    requires Spaced(Admitted(1, before)) && KeepsLast(Queue(1, before), Admitted(1, before))
    ensures Spaced(Admitted(1, before + [now])) && KeepsLast(Queue(1, before + [now]), Admitted(1, before + [now]))
  {
    hide Queue, Admitted, Trim, IsTail;
    OneMore(1, before, now);
    TrimOne(Queue(1, before), now);
  }

  lemma TrimOne(q: seq<real>, now: real)
    requires |q| <= 1
    ensures Trim(q, now) == [] || Trim(q, now) == q
    ensures Trim(q, now) == [] ==> q == [] || q[0] <= now - WINDOW
  {
  }

  lemma {:induction false} SpacedWithin(times: seq<real>, low: real)
    requires Spaced(times)
    ensures Within(times, low, low + WINDOW) <= 1
    ensures times != [] && times[|times| - 1] <= low ==> Within(times, low, low + WINDOW) == 0
  {
    if times != [] {
      SpacedWithin(times[..|times| - 1], low);
    }
  }

  function Repeated(count: nat, t: real): (r: seq<real>)
    ensures |r| == count && forall i :: 0 <= i < count ==> r[i] == t
  {
    if count == 0 then [] else Repeated(count - 1, t) + [t]
  }

  lemma {:induction false} BurstAdmitted(perMinute: int, count: nat)
    requires count <= perMinute
    ensures var burst := Repeated(count, 0.0); Queue(perMinute, burst) == burst && Admitted(perMinute, burst) == burst
  {
    if count > 0 {
      BurstAdmitted(perMinute, count - 1);
      OneMore(perMinute, Repeated(count - 1, 0.0), 0.0);
      hide Queue, Admitted;
    }
  }

  lemma {:induction false} TrimAll(queue: seq<real>, now: real)
    requires forall i :: 0 <= i < |queue| ==> queue[i] <= now - WINDOW
    ensures Trim(queue, now) == []
  {
    if queue != [] {
      TrimAll(queue[1..], now);
    }
  }

  /** A full burst, a check a minute later that empties the queue, and a check that took its time just before it. */
  function LateLock(perMinute: nat, skew: real): seq<real> {
    Repeated(perMinute, 0.0) + [WINDOW] + [WINDOW - skew]
  }

  lemma LateLockAdmitted(perMinute: nat, skew: real)
    requires perMinute >= 2 && 0.0 < skew <= 30.0
    ensures Admitted(perMinute, LateLock(perMinute, skew)) == LateLock(perMinute, skew)
  {
    hide Queue, Admitted, Repeated, Trim, IsTail;
    BurstAdmitted(perMinute, perMinute);
    var burst := Repeated(perMinute, 0.0);
    TrimAll(burst, WINDOW);
    OneMore(perMinute, burst, WINDOW);
    assert [] + [WINDOW] == [WINDOW];
    OneMore(perMinute, burst + [WINDOW], WINDOW - skew);
    TailShorter(Trim([WINDOW], WINDOW - skew), [WINDOW]);
  }

  lemma LateLockBreaksMinute(perMinute: nat, skew: real)
    requires perMinute >= 2 && 0.0 < skew <= 30.0
    ensures Skewed(LateLock(perMinute, skew), skew) && !SafeFrom(perMinute, LateLock(perMinute, skew), 0.0 - skew / 2.0)
  {
    LateLockAdmitted(perMinute, skew);
    LateLockIsSkewed(perMinute, skew);
    hide Admitted, Repeated, Within, Skewed;
    var burst, low := Repeated(perMinute, 0.0), 0.0 - skew / 2.0;
    WithinOneMore(burst + [WINDOW], WINDOW - skew, low, low + WINDOW);
    WithinOneMore(burst, WINDOW, low, low + WINDOW);
    WithinBounds(burst, low, low + WINDOW);
  }

  lemma LateLockIsSkewed(perMinute: nat, skew: real)
    requires 0.0 < skew <= 30.0
    ensures Skewed(LateLock(perMinute, skew), skew)
  {
    hide Repeated;
    var times := LateLock(perMinute, skew);
    forall i, j | 0 <= i < j < |times| ensures times[i] <= times[j] + skew {
      assert times[i] == if i < perMinute then 0.0 else WINDOW;
    }
  }

  lemma SafeEnough(perMinute: int, skew: real, times: seq<real>, low: real)
    requires (skew == 0.0 || perMinute <= 1) && Skewed(times, skew)
    ensures SafeFrom(perMinute, times, low)
  {
    hide Queue, Admitted, Within, Skewed;
    if perMinute == 1 {
      OneIsSpaced(times);
      SpacedWithin(Admitted(1, times), low);
    } else if perMinute <= 0 {
      NothingAdmitted(perMinute, times);
      WithinBounds([], low, low + WINDOW);
    } else {
      WindowHoldsLimit(perMinute, times, 0.0, low);
    }
  }

  /** The limit holds for every full minute exactly when checks take the lock in time order, or the limit is at most one. */
  lemma MinuteIsSafeIff(perMinute: int, skew: real)
    requires skew >= 0.0
    ensures MinuteIsSafe(perMinute, skew) <==> skew == 0.0 || perMinute <= 1
  {
    hide SafeFrom;
    if skew == 0.0 || perMinute <= 1 {
      forall times, low | Skewed(times, skew) ensures SafeFrom(perMinute, times, low) {
        SafeEnough(perMinute, skew, times, low);
      }
    } else {
      var s := if skew <= 30.0 then skew else 30.0;
      LateLockBreaksMinute(perMinute, s);
      hide LateLock;
      assert Skewed(LateLock(perMinute, s), skew);
    }
  }

  lemma {:induction false} NothingAdmitted(perMinute: int, times: seq<real>)
    requires perMinute <= 0
    ensures Admitted(perMinute, times) == []
  {
    if times != [] {
      NothingAdmitted(perMinute, times[..|times| - 1]);
    }
  }

  // ----- the limiter as a whole -----

  ghost predicate Ordered(calls: seq<Call>) {
    forall i, j :: 0 <= i < j < |calls| ==> calls[i].now <= calls[j].now
  }

  lemma {:induction false} TimesInOrder(calls: seq<Call>, actor: string, latest: real)
    requires Ordered(calls) && forall i :: 0 <= i < |calls| ==> calls[i].now <= latest
    ensures Skewed(TimesOf(calls, actor), 0.0)
    ensures forall i :: 0 <= i < |TimesOf(calls, actor)| ==> TimesOf(calls, actor)[i] <= latest
  {
    if calls != [] {
      var before, call := calls[..|calls| - 1], calls[|calls| - 1];
      TimesInOrder(before, actor, call.now);
    }
  }

  /** Each actor keeps its limit in every minute, and what the limiter holds for it is that actor's last minute. */
  lemma EveryActorIsLimited(perMinute: int, calls: seq<Call>, actor: string, now: real, low: real)
    requires Ordered(calls + [Call(actor, now)])
    ensures var all := calls + [Call(actor, now)];
      var admitted := Admitted(perMinute, TimesOf(all, actor));
      && Within(admitted, low, low + 60.0) <= Limit(perMinute)
      && QueueOf(After(perMinute, all), actor) == Recent(admitted, now - 60.0)
  {
    var all := calls + [Call(actor, now)];
    AfterOneMore(perMinute, calls, actor, now);
    hide TimesOf, Within, Admitted, Queue, After, Recent, Next, Skewed;
    assert all[|calls|].now == now;
    TimesInOrder(all, actor, now);
    WindowHoldsLimit(perMinute, TimesOf(all, actor), 0.0, low);
    ActorsAreIndependent(perMinute, all, actor);
    QueueIsLastMinute(perMinute, TimesOf(calls, actor), now);
  }
}
