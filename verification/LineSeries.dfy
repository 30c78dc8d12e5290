/** Chart lines with gaps: where a line is broken, and which sample a pointer selects. */
module LineSeries {
  import opened Text

  datatype Sample = Sample(time: real, value: Option<real>)
  datatype Point = Point(time: real, value: real, segment: nat)

  // ----- the gap threshold -----

  /** The positive steps between neighbouring times, in order. */
  function Intervals(times: seq<real>): seq<real> {
    if |times| < 2 then []
    else
      var n := |times|;
      Intervals(times[..n - 1]) + if times[n - 1] - times[n - 2] > 0.0 then [times[n - 1] - times[n - 2]] else []
  }

  function Insert(x: real, sorted: seq<real>): (r: seq<real>)
    ensures |r| == |sorted| + 1
  {
    if sorted == [] || x <= sorted[0] then [x] + sorted else [sorted[0]] + Insert(x, sorted[1..])
  }

  function SortReals(xs: seq<real>): (r: seq<real>)
    ensures |r| == |xs|
  {
    if xs == [] then [] else Insert(xs[|xs| - 1], SortReals(xs[..|xs| - 1]))
  }

  /** The middle of the sorted steps, or the mean of the two middle ones. */
  function Median(xs: seq<real>): real
    requires xs != []
  {
    var sorted, middle := SortReals(xs), |xs| / 2;
    if |xs| % 2 == 0 then (sorted[middle - 1] + sorted[middle]) / 2.0 else sorted[middle]
  }

  /** `gapThreshold`: two and a half median steps, once there are two positive steps. */
  function GapThreshold(times: seq<real>): Option<real> {
    var intervals := Intervals(times);
    if |intervals| < 2 then None else Some(Median(intervals) * 2.5)
  }

  /** A neighbouring step longer than the threshold. */
  predicate IsGap(threshold: Option<real>, earlier: real, later: real) {
    threshold.Some? && later - earlier > threshold.value
  }

  /** `gapCount` */
  function GapsUpTo(times: seq<real>, threshold: Option<real>): nat {
    if |times| < 2 then 0
    else
      var n := |times|;
      GapsUpTo(times[..n - 1], threshold) + if IsGap(threshold, times[n - 2], times[n - 1]) then 1 else 0
  }

  function GapCount(times: seq<real>): nat {
    GapsUpTo(times, GapThreshold(times))
  }

  ghost predicate Increasing(xs: seq<real>) {
    forall i, j :: 0 <= i < j < |xs| ==> xs[i] <= xs[j]
  }

  function CountAbove(xs: seq<real>, m: real): nat {
    if xs == [] then 0 else CountAbove(xs[..|xs| - 1], m) + if xs[|xs| - 1] > m then 1 else 0
  }

  function CountBelow(xs: seq<real>, m: real): nat {
    if xs == [] then 0 else CountBelow(xs[..|xs| - 1], m) + if xs[|xs| - 1] < m then 1 else 0
  }

  lemma {:induction false} CountsSplit(a: seq<real>, b: seq<real>, m: real)
    ensures CountAbove(a + b, m) == CountAbove(a, m) + CountAbove(b, m)
    ensures CountBelow(a + b, m) == CountBelow(a, m) + CountBelow(b, m)
  {
    if b == [] {
      assert a + b == a;
    } else {
      assert (a + b)[..|a + b| - 1] == a + b[..|b| - 1];
      CountsSplit(a, b[..|b| - 1], m);
    }
  }

  lemma CountsOneMore(x: real, xs: seq<real>, m: real)
    ensures CountAbove([x] + xs, m) == CountAbove(xs, m) + if x > m then 1 else 0
    ensures CountBelow([x] + xs, m) == CountBelow(xs, m) + if x < m then 1 else 0
    ensures CountAbove(xs + [x], m) == CountAbove(xs, m) + if x > m then 1 else 0
    ensures CountBelow(xs + [x], m) == CountBelow(xs, m) + if x < m then 1 else 0
  {
    CountsSplit([x], xs, m);
    CountsSplit(xs, [x], m);
    assert [x][..0] == [];
  }

  lemma {:induction false} InsertCounts(x: real, s: seq<real>, m: real)
    ensures CountAbove(Insert(x, s), m) == CountAbove(s, m) + if x > m then 1 else 0
    ensures CountBelow(Insert(x, s), m) == CountBelow(s, m) + if x < m then 1 else 0
  {
    hide CountAbove, CountBelow;
    if s == [] || x <= s[0] {
      CountsOneMore(x, s, m);
    } else {
      InsertCounts(x, s[1..], m);
      CountsOneMore(s[0], Insert(x, s[1..]), m);
      CountsOneMore(s[0], s[1..], m);
      assert s == [s[0]] + s[1..];
    }
  }

  lemma {:induction false} SortCounts(xs: seq<real>, m: real)
    ensures CountAbove(SortReals(xs), m) == CountAbove(xs, m) && CountBelow(SortReals(xs), m) == CountBelow(xs, m)
  {
    if xs != [] {
      var front, x := xs[..|xs| - 1], xs[|xs| - 1];
      SortCounts(front, m);
      InsertCounts(x, SortReals(front), m);
      hide CountAbove, CountBelow;
      assert xs == front + [x];
      CountsOneMore(x, front, m);
    }
  }

  lemma {:induction false} InsertIncreasing(x: real, s: seq<real>)
    requires Increasing(s)
    ensures Increasing(Insert(x, s)) && forall y :: y in Insert(x, s) <==> y == x || y in s
  {
    if s != [] && x > s[0] {
      InsertIncreasing(x, s[1..]);
      var rest := Insert(x, s[1..]);
      forall i | 0 <= i < |rest| ensures s[0] <= rest[i] {
        assert rest[i] in rest;
      }
      assert s == [s[0]] + s[1..];
    }
  }

  lemma {:induction false} SortIncreasing(xs: seq<real>)
    ensures Increasing(SortReals(xs)) && forall y :: y in SortReals(xs) <==> y in xs
  {
    if xs != [] {
      var front, x := xs[..|xs| - 1], xs[|xs| - 1];
      SortIncreasing(front);
      InsertIncreasing(x, SortReals(front));
      assert xs == front + [x];
    }
  }

  lemma {:induction false} CountBounds(xs: seq<real>, m: real)
    ensures CountAbove(xs, m) <= |xs| && CountBelow(xs, m) <= |xs|
    ensures (forall i :: 0 <= i < |xs| ==> xs[i] <= m) ==> CountAbove(xs, m) == 0
    ensures (forall i :: 0 <= i < |xs| ==> xs[i] >= m) ==> CountBelow(xs, m) == 0
  {
    if xs != [] {
      CountBounds(xs[..|xs| - 1], m);
    }
  }

  lemma AboveTheFront(s: seq<real>, n: nat, m: real)
    requires n <= |s| && forall i :: 0 <= i < n ==> s[i] <= m
    ensures CountAbove(s, m) <= |s| - n
  {
    hide CountAbove, CountBelow;
    var front, back := s[..n], s[n..];
    assert s == front + back;
    CountsSplit(front, back, m);
    CountBounds(front, m);
    CountBounds(back, m);
  }

  lemma BelowTheBack(s: seq<real>, n: nat, m: real)
    requires n <= |s| && forall i :: n <= i < |s| ==> s[i] >= m
    ensures CountBelow(s, m) <= n
  {
    hide CountAbove, CountBelow;
    var front, back := s[..n], s[n..];
    assert s == front + back;
    CountsSplit(front, back, m);
    CountBounds(front, m);
    CountBounds(back, m);
  }

  /** At most half of the steps are longer than the median, and at most half are shorter. */
  lemma MedianHalves(xs: seq<real>)
    requires xs != []
    ensures 2 * CountAbove(xs, Median(xs)) <= |xs| && 2 * CountBelow(xs, Median(xs)) <= |xs|
  {
    hide CountAbove, CountBelow, SortReals;
    var m, s, middle := Median(xs), SortReals(xs), |xs| / 2;
    SortCounts(xs, m);
    SortIncreasing(xs);
    var low := if |xs| % 2 == 0 then middle else middle + 1;
    assert forall i :: 0 <= i < low ==> s[i] <= s[low - 1] <= m;
    assert forall i :: middle <= i < |s| ==> s[i] >= s[middle] >= m;
    AboveTheFront(s, low, m);
    BelowTheBack(s, middle, m);
  }

  lemma {:induction false} InsertMultiset(x: real, s: seq<real>)
    ensures multiset(Insert(x, s)) == multiset(s) + multiset{x}
  {
    if s != [] && x > s[0] {
      InsertMultiset(x, s[1..]);
      assert s == [s[0]] + s[1..];
    }
  }

  lemma {:induction false} SortMultiset(xs: seq<real>)
    ensures multiset(SortReals(xs)) == multiset(xs)
  {
    if xs != [] {
      var front, x := xs[..|xs| - 1], xs[|xs| - 1];
      SortMultiset(front);
      InsertMultiset(x, SortReals(front));
      assert xs == front + [x];
    }
  }

  lemma {:induction false} OneSortedOrder(a: seq<real>, b: seq<real>)
    requires Increasing(a) && Increasing(b) && multiset(a) == multiset(b)
    ensures a == b
  {
    assert |multiset(a)| == |a| && |multiset(b)| == |b|;
    if a != [] {
      SameFirst(a, b);
      RestMultiset(a);
      RestMultiset(b);
      OneSortedOrder(a[1..], b[1..]);
    }
  }

  lemma SameFirst(a: seq<real>, b: seq<real>)
    requires Increasing(a) && Increasing(b) && multiset(a) == multiset(b) && a != [] && b != []
    ensures a[0] == b[0]
  {
    assert a[0] in multiset(b) && b[0] in multiset(a);
    var i :| 0 <= i < |b| && b[i] == a[0];
    var j :| 0 <= j < |a| && a[j] == b[0];
  }

  lemma RestMultiset(a: seq<real>)
    requires a != []
    ensures a == [a[0]] + a[1..] && multiset(a[1..]) == multiset(a) - multiset{a[0]}
  {
    assert a == [a[0]] + a[1..];
  }

  /** The median, read off any increasing order of the steps: the middle one, or the mean of the two in the middle. */
  lemma MedianOf(xs: seq<real>, ordered: seq<real>)
    requires xs != [] && Increasing(ordered) && multiset(ordered) == multiset(xs)
    ensures |ordered| == |xs|
    ensures |xs| % 2 == 1 ==> Median(xs) == ordered[(|xs| - 1) / 2]
    ensures |xs| % 2 == 0 ==> Median(xs) + Median(xs) == ordered[|xs| / 2 - 1] + ordered[|xs| / 2]
  {
    SortIncreasing(xs);
    SortMultiset(xs);
    hide SortReals;
    assert |multiset(ordered)| == |multiset(xs)|;
    OneSortedOrder(SortReals(xs), ordered);
  }

  /** There is a threshold exactly when two steps are positive, and it is two and a half times their median. */
  lemma GapThresholdIff(times: seq<real>, ordered: seq<real>)
    requires Increasing(ordered) && multiset(ordered) == multiset(Intervals(times))
    ensures GapThreshold(times).None? <==> |ordered| < 2
    ensures |ordered| >= 2 && |ordered| % 2 == 1 ==> GapThreshold(times) == Some(2.5 * ordered[(|ordered| - 1) / 2])
    ensures |ordered| >= 2 && |ordered| % 2 == 0 ==>
              GapThreshold(times) == Some(1.25 * (ordered[|ordered| / 2 - 1] + ordered[|ordered| / 2]))
  {
    hide Median, Intervals;
    assert |multiset(ordered)| == |multiset(Intervals(times))|;
    if Intervals(times) != [] {
      MedianOf(Intervals(times), ordered);
    }
  }

  lemma {:induction false} IntervalsPositive(times: seq<real>)
    ensures forall i :: 0 <= i < |Intervals(times)| ==> Intervals(times)[i] > 0.0
  {
    if |times| >= 2 {
      IntervalsPositive(times[..|times| - 1]);
    }
  }

  lemma MedianPositive(xs: seq<real>)
    requires xs != [] && forall i :: 0 <= i < |xs| ==> xs[i] > 0.0
    ensures Median(xs) > 0.0
  {
    var s := SortReals(xs);
    SortIncreasing(xs);
    hide SortReals;
    forall i | 0 <= i < |s| ensures s[i] > 0.0 {
      assert s[i] in s;
      var j :| 0 <= j < |xs| && xs[j] == s[i];
    }
  }

  lemma {:induction false} GapsAreLongIntervals(times: seq<real>, threshold: real)
    requires threshold > 0.0
    ensures GapsUpTo(times, Some(threshold)) == CountAbove(Intervals(times), threshold)
  {
    if |times| >= 2 {
      var n := |times|;
      var step, before := times[n - 1] - times[n - 2], Intervals(times[..n - 1]);
      GapsAreLongIntervals(times[..n - 1], threshold);
      assert Intervals(times) == if step > 0.0 then before + [step] else before;
      hide CountAbove, Intervals;
      CountsOneMore(step, before, threshold);
    }
  }

  lemma {:induction false} FewerAbove(xs: seq<real>, m: real, more: real)
    requires m <= more
    ensures CountAbove(xs, more) <= CountAbove(xs, m)
  {
    if xs != [] {
      FewerAbove(xs[..|xs| - 1], m, more);
    }
  }

  /** At most half of the positive steps are ever reported as gaps. */
  lemma GapsAreMinority(times: seq<real>)
    ensures 2 * GapCount(times) <= |Intervals(times)|
  {
    var intervals := Intervals(times);
    if |intervals| < 2 {
      NoGaps(times);
    } else {
      IntervalsPositive(times);
      MedianPositive(intervals);
      MedianHalves(intervals);
      hide Median, Intervals, CountAbove, CountBelow, GapsUpTo;
      var median := Median(intervals);
      GapsAreLongIntervals(times, median * 2.5);
      FewerAbove(intervals, median, median * 2.5);
    }
  }

  lemma {:induction false} NoGaps(times: seq<real>)
    ensures GapsUpTo(times, None) == 0
  {
    if |times| >= 2 {
      NoGaps(times[..|times| - 1]);
    }
  }

  // ----- the line -----

  function Times(samples: seq<Sample>): seq<real> {
    seq(|samples|, i requires 0 <= i < |samples| => samples[i].time)
  }

  /** The line may be drawn from sample `i` to sample `j`: every sample between has a value and no neighbouring step is a gap. */
  ghost predicate Connected(samples: seq<Sample>, threshold: Option<real>, i: nat, j: nat)
    requires i <= j < |samples|
  {
    (forall k :: i < k < j ==> samples[k].value.Some?)
    && forall k :: i < k <= j ==> threshold.Some? ==> samples[k].time - samples[k - 1].time <= threshold.value
  }

  /** The places of the samples with a value, in order. */
  function Valued(samples: seq<Sample>): (places: seq<nat>)
    ensures forall p :: 0 <= p < |places| ==> places[p] < |samples| && samples[places[p]].value.Some?
  {
    if samples == [] then []
    else
      Valued(samples[..|samples| - 1]) + if samples[|samples| - 1].value.Some? then [|samples| - 1] else []
  }

  /** The segment number when sample `i` is reached: one step for each gap up to it and each missing value before it. */
  function Segment(samples: seq<Sample>, threshold: Option<real>, i: nat): nat
    requires i < |samples|
  {
    if i == 0 then 0
    else
      Segment(samples, threshold, i - 1) + (if samples[i - 1].value.None? then 1 else 0)
      + if IsGap(threshold, samples[i - 1].time, samples[i].time) then 1 else 0
  }

  /** The points are the valued samples in order, with the segment each is reached in. */
  ghost predicate Draws(points: seq<Point>, samples: seq<Sample>, threshold: Option<real>, n: nat)
    requires n <= |samples|
  {
    var places := Valued(samples[..n]);
    |points| == |places| && forall p :: 0 <= p < |points| ==>
      places[p] < n && samples[places[p]].value.Some?
      && points[p] == Point(samples[places[p]].time, samples[places[p]].value.value, Segment(samples, threshold, places[p]))
  }

  /** `lineSeries` */
  method DrawLine(samples: seq<Sample>) returns (points: seq<Point>)
    ensures Draws(points, samples, GapThreshold(Times(samples)), |samples|)
  {
    var threshold := GapThreshold(Times(samples));
    points := [];
    var segment := 0;
    var previous: Option<real> := None;
    NothingDrawn(samples, threshold);
    hide GapThreshold, Valued, Draws;
    for i := 0 to |samples|
      invariant Draws(points, samples, threshold, i)
      invariant i == 0 ==> segment == 0 && previous == None
      invariant i > 0 ==> previous == Some(samples[i - 1].time)
      invariant i > 0 ==> segment == Segment(samples, threshold, i - 1) + if samples[i - 1].value.None? then 1 else 0
    {
      var sample := samples[i];
      if previous.Some? && threshold.Some? && sample.time - previous.value > threshold.value {
        segment := segment + 1;
      }
      DrawsOneMore(points, samples, threshold, i);
      if sample.value.None? {
        segment := segment + 1;
      } else {
        points := points + [Point(sample.time, sample.value.value, segment)];
      }
      previous := Some(sample.time);
    }
  }

  lemma NothingDrawn(samples: seq<Sample>, threshold: Option<real>)
    ensures Draws([], samples, threshold, 0)
  {
  }

  lemma DrawsOneMore(points: seq<Point>, samples: seq<Sample>, threshold: Option<real>, i: nat)
    requires i < |samples| && Draws(points, samples, threshold, i)
    ensures samples[i].value.None? ==> Draws(points, samples, threshold, i + 1)
    ensures samples[i].value.Some? ==>
      Draws(points + [Point(samples[i].time, samples[i].value.value, Segment(samples, threshold, i))], samples, threshold, i + 1)
  {
    assert samples[..i + 1][..i] == samples[..i];
    assert Valued(samples[..i]) + [] == Valued(samples[..i]);
    hide Segment;
  }

  lemma {:induction false} ValuedIsExact(samples: seq<Sample>)
    ensures forall i :: 0 <= i < |samples| ==> (samples[i].value.Some? <==> i in Valued(samples))
    ensures forall p, q :: 0 <= p < q < |Valued(samples)| ==> Valued(samples)[p] < Valued(samples)[q]
  {
    if samples != [] {
      var front := samples[..|samples| - 1];
      ValuedIsExact(front);
      var last := samples[|samples| - 1].value.Some?;
      assert forall k :: k in Valued(samples) <==> k in Valued(front) || (k == |samples| - 1 && last);
    }
  }

  lemma {:induction false} SegmentsAgree(samples: seq<Sample>, threshold: Option<real>, i: nat, j: nat)
    requires i <= j < |samples| && samples[i].value.Some?
    ensures Segment(samples, threshold, i) <= Segment(samples, threshold, j)
    ensures Segment(samples, threshold, i) == Segment(samples, threshold, j) <==> Connected(samples, threshold, i, j)
  {
    if i < j {
      SegmentsAgree(samples, threshold, i, j - 1);
    }
  }

  /** Every sample with a value is plotted once, in order, and two points share a segment exactly when the line
    * may be drawn between them. */
  lemma LineIsFaithful(points: seq<Point>, samples: seq<Sample>)
    requires Draws(points, samples, GapThreshold(Times(samples)), |samples|)
    ensures var places := Valued(samples);
      && |points| == |places|
      && (forall i :: 0 <= i < |samples| ==> (samples[i].value.Some? <==> i in places))
      && (forall p, q :: 0 <= p < q < |places| ==> places[p] < places[q])
      && (forall p :: 0 <= p < |points| ==>
            points[p].time == samples[places[p]].time && Some(points[p].value) == samples[places[p]].value)
      && (forall p, q :: 0 <= p < q < |points| ==>
            (points[p].segment == points[q].segment
             <==> Connected(samples, GapThreshold(Times(samples)), places[p], places[q])))
  {
    var threshold := GapThreshold(Times(samples));
    var places := Valued(samples);
    assert samples[..|samples|] == samples;
    ValuedIsExact(samples);
    hide GapThreshold, Valued, Segment, Connected;
    forall p, q | 0 <= p < q < |points|
      ensures points[p].segment == points[q].segment <==> Connected(samples, threshold, places[p], places[q])
    {
      SegmentsAgree(samples, threshold, places[p], places[q]);
    }
  }

  // ----- the pointer -----

  function Distance(a: real, b: real): real {
    if a >= b then a - b else b - a
  }

  ghost predicate StrictlyIncreasing(times: seq<real>) {
    forall i, j :: 0 <= i < j < |times| ==> times[i] < times[j]
  }

  /** `updateSelection(for:)`: the nearest item, the earlier of two equally near ones. */
  method Nearest(times: seq<real>, date: real) returns (selected: Option<nat>)
    requires StrictlyIncreasing(times)
    ensures selected == None <==> times == []
    ensures selected.Some? ==> selected.value < |times|
    ensures selected.Some? ==> forall i :: 0 <= i < |times| ==>
      Distance(times[selected.value], date) <= Distance(times[i], date)
      && (i < selected.value ==> Distance(times[selected.value], date) < Distance(times[i], date))
  {
    if times == [] {
      return None;
    }
    var lower, upper := 0, |times|;
    while lower < upper
      invariant 0 <= lower <= upper <= |times|
      invariant forall i :: 0 <= i < lower ==> times[i] < date
      invariant forall i :: upper <= i < |times| ==> times[i] >= date
    {
      var middle := (lower + upper) / 2;
      if times[middle] < date {
        lower := middle + 1;
      } else {
        upper := middle;
      }
    }
    if lower == 0 {
      selected := Some(0);
    } else if lower == |times| {
      selected := Some(|times| - 1);
    } else {
      selected := Some(if Distance(times[lower - 1], date) <= Distance(times[lower], date) then lower - 1 else lower);
    }
  }
}
