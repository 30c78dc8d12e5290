/** The resource usage dashboard: fleet totals and the groups that share them out. */
module ResourceUsage {
  import opened Text

  datatype Scope = Project | Agent | Task

  /** Who a record belongs to; the task is the normalised task reference. */
  datatype Owner = Owner(project: string, actor: string, task: string)

  datatype Quantity = Quantity(cpuCores: real, memoryMib: int, gpuCount: int, nodeCount: int, schedulerUnits: int) {
    function Plus(q: Quantity): Quantity {
      Quantity(cpuCores + q.cpuCores, memoryMib + q.memoryMib, gpuCount + q.gpuCount,
               nodeCount + q.nodeCount, schedulerUnits + q.schedulerUnits)
    }
  }

  const ZERO := Quantity(0.0, 0, 0, 0, 0)

  function Gpus(n: int): Quantity {
    Quantity(0.0, 0, n, 0, 0)
  }

  datatype Claim = Claim(owner: Owner, state: string, runtimeState: Option<string>, quantities: Quantity,
                         leaseIds: seq<string>, requestIds: seq<string>)
  datatype Lease = Lease(id: string, owner: Owner, runtimeState: Option<string>, gpuIds: seq<string>)
  datatype Request = Request(id: string, owner: Owner, gpuCount: int, pending: bool)
  /** A reservation or a recorded run. */
  datatype Activity = Activity(owner: Owner)

  datatype Snapshot = Snapshot(claims: seq<Claim>, leases: seq<Lease>, requests: seq<Request>,
                               reservations: seq<Activity>, actuals: seq<Activity>)

  // ----- states -----

  predicate IsAssigned(c: Claim) {
    c.state in ["HELD", "ACTIVE"] && c.runtimeState != Some("RUNNING")
  }

  predicate IsRunning(c: Claim) {
    c.runtimeState == Some("RUNNING") || c.state == "RUNNING"
  }

  predicate IsPending(c: Claim) {
    c.state in ["BLOCKED", "QUEUED", "PENDING_APPROVAL", "REQUESTED"]
  }

  predicate LeaseRuns(l: Lease) {
    l.runtimeState == Some("RUNNING")
  }

  predicate LeaseIdles(l: Lease) {
    l.runtimeState != Some("RUNNING")
  }

  predicate IsOpen(r: Request) {
    r.pending
  }

  predicate Any(r: Request) {
    true
  }

  function ClaimQuantity(c: Claim): Quantity {
    c.quantities
  }

  function LeaseQuantity(l: Lease): Quantity {
    Gpus(|l.gpuIds|)
  }

  function RequestQuantity(r: Request): Quantity {
    Gpus(r.gpuCount)
  }

  // ----- lists -----

  function Filter<T>(xs: seq<T>, p: T -> bool): seq<T> {
    if xs == [] then []
    else
      var x := xs[|xs| - 1];
      Filter(xs[..|xs| - 1], p) + if p(x) then [x] else []
  }

  /** `combinedQuantities` of the weights of a list. */
  function Combined<T>(xs: seq<T>, weight: T -> Quantity): Quantity {
    if xs == [] then ZERO else Combined(xs[..|xs| - 1], weight).Plus(weight(xs[|xs| - 1]))
  }

  /** The members of a list with a given key, in order. */
  function OfKey<T>(xs: seq<T>, key: T -> string, k: string): seq<T> {
    if xs == [] then []
    else
      var x := xs[|xs| - 1];
      OfKey(xs[..|xs| - 1], key, k) + if key(x) == k then [x] else []
  }

  function KeysOf<T>(xs: seq<T>, key: T -> string): set<string> {
    if xs == [] then {} else KeysOf(xs[..|xs| - 1], key) + {key(xs[|xs| - 1])}
  }

  // ----- groups -----

  /** Two texts joined by the unit separator for a task, one text otherwise. */
  function KeyOf(scope: Scope, owner: Owner): string {
    match scope
    case Project => owner.project
    case Agent => owner.actor
    case Task => owner.project + [0x1F as char] + owner.task
  }

  function ClaimKey(scope: Scope): Claim -> string { (c: Claim) => KeyOf(scope, c.owner) }
  function LeaseKey(scope: Scope): Lease -> string { (l: Lease) => KeyOf(scope, l.owner) }
  function RequestKey(scope: Scope): Request -> string { (r: Request) => KeyOf(scope, r.owner) }
  function ActivityKey(scope: Scope): Activity -> string { (a: Activity) => KeyOf(scope, a.owner) }

  datatype Group = Group(key: string, claims: seq<Claim>, leases: seq<Lease>, requests: seq<Request>,
                         reservations: seq<Activity>, actuals: seq<Activity>)
  {
    function Assigned(): Quantity {
      Combined(Filter(claims, IsAssigned), ClaimQuantity).Plus(Combined(Filter(leases, LeaseIdles), LeaseQuantity))
    }

    function Running(): Quantity {
      Combined(Filter(claims, IsRunning), ClaimQuantity).Plus(Combined(Filter(leases, LeaseRuns), LeaseQuantity))
    }

    /** A group counts every request it holds, whatever its state. */
    function Requested(): Quantity {
      Combined(Filter(claims, IsPending), ClaimQuantity).Plus(Combined(Filter(requests, Any), RequestQuantity))
    }

    function VisibleActivityCount(): nat {
      |Filter(claims, IsAssigned)| + |Filter(claims, IsRunning)| + |leases| + |actuals|
    }
  }

  predicate IsVisible(g: Group) {
    g.VisibleActivityCount() > 0
  }

  function AssignedOf(g: Group): Quantity { g.Assigned() }
  function RunningOf(g: Group): Quantity { g.Running() }
  function RequestedOf(g: Group): Quantity { g.Requested() }

  /** The group of one key. */
  function GroupOf(s: Snapshot, scope: Scope, k: string): Group {
    Group(k, OfKey(s.claims, ClaimKey(scope), k), OfKey(s.leases, LeaseKey(scope), k),
          OfKey(s.requests, RequestKey(scope), k), OfKey(s.reservations, ActivityKey(scope), k),
          OfKey(s.actuals, ActivityKey(scope), k))
  }

  function Keys(s: Snapshot, scope: Scope): set<string> {
    KeysOf(s.claims, ClaimKey(scope)) + KeysOf(s.leases, LeaseKey(scope)) + KeysOf(s.requests, RequestKey(scope))
    + KeysOf(s.reservations, ActivityKey(scope)) + KeysOf(s.actuals, ActivityKey(scope))
  }

  function LinkedLeases(claims: seq<Claim>): set<string> {
    set c, id | c in claims && id in c.leaseIds :: id
  }

  function LinkedRequests(claims: seq<Claim>): set<string> {
    set c, id | c in claims && id in c.requestIds :: id
  }

  function Unlinked(linked: set<string>): Lease -> bool { (l: Lease) => l.id !in linked }
  function UnlinkedRequest(linked: set<string>): Request -> bool { (r: Request) => r.id !in linked }

  /** The snapshot without the leases and requests that a claim already stands for. */
  function Counted(s: Snapshot): Snapshot {
    s.(leases := Filter(s.leases, Unlinked(LinkedLeases(s.claims))),
       requests := Filter(s.requests, UnlinkedRequest(LinkedRequests(s.claims))))
  }

  // ----- the fleet -----

  function FleetAssigned(s: Snapshot): Quantity {
    Combined(Filter(s.claims, IsAssigned), ClaimQuantity)
      .Plus(Combined(Filter(Counted(s).leases, LeaseIdles), LeaseQuantity))
  }

  function FleetRunning(s: Snapshot): Quantity {
    Combined(Filter(s.claims, IsRunning), ClaimQuantity)
      .Plus(Combined(Filter(Counted(s).leases, LeaseRuns), LeaseQuantity))
  }

  /** The fleet counts pending requests only. */
  function FleetRequested(s: Snapshot): Quantity {
    Combined(Filter(s.claims, IsPending), ClaimQuantity)
      .Plus(Combined(Filter(Counted(s).requests, IsOpen), RequestQuantity))
  }

  // ----- building the groups -----

  /** The keys of a snapshot, each once, in some order. */
  ghost predicate Enumerates(ks: seq<string>, s: Snapshot, scope: Scope) {
    Distinct(ks) && forall k :: k in ks <==> k in Keys(s, scope)
  }

  function Groups(s: Snapshot, scope: Scope, ks: seq<string>): (gs: seq<Group>)
    ensures |gs| == |ks|
  {
    if ks == [] then [] else Groups(s, scope, ks[..|ks| - 1]) + [GroupOf(s, scope, ks[|ks| - 1])]
  }

  function BucketAt(buckets: map<string, Group>, k: string): Group {
    if k in buckets then buckets[k] else Group(k, [], [], [], [], [])
  }

  /** The buckets hold exactly this part of the snapshot. */
  ghost predicate Holds(buckets: map<string, Group>, part: Snapshot, scope: Scope) {
    buckets.Keys == Keys(part, scope) && forall k :: BucketAt(buckets, k) == GroupOf(part, scope, k)
  }

  lemma OfKeyOneMore<T>(xs: seq<T>, x: T, key: T -> string, k: string)
    ensures OfKey(xs + [x], key, k) == (if key(x) == k then OfKey(xs, key, k) + [x] else OfKey(xs, key, k))
    ensures KeysOf(xs + [x], key) == KeysOf(xs, key) + {key(x)}
  {
    assert (xs + [x])[..|xs|] == xs;
    assert OfKey(xs, key, k) + [] == OfKey(xs, key, k);
  }

  lemma FilterOneMore<T>(xs: seq<T>, x: T, p: T -> bool)
    ensures Filter(xs + [x], p) == if p(x) then Filter(xs, p) + [x] else Filter(xs, p)
  {
    assert (xs + [x])[..|xs|] == xs;
    assert Filter(xs, p) + [] == Filter(xs, p);
  }

  lemma CombinedOneMore<T>(xs: seq<T>, x: T, weight: T -> Quantity)
    ensures Combined(xs + [x], weight) == Combined(xs, weight).Plus(weight(x))
  {
    assert (xs + [x])[..|xs|] == xs;
  }

  lemma ClaimAdded(buckets: map<string, Group>, part: Snapshot, scope: Scope, c: Claim)
    requires Holds(buckets, part, scope)
    ensures var k := KeyOf(scope, c.owner);
      Holds(buckets[k := BucketAt(buckets, k).(claims := BucketAt(buckets, k).claims + [c])],
            part.(claims := part.claims + [c]), scope)
  {
    hide OfKey, KeysOf;
    var k := KeyOf(scope, c.owner);
    var bucket := BucketAt(buckets, k);
    var now := buckets[k := bucket.(claims := bucket.claims + [c])];
    var more := part.(claims := part.claims + [c]);
    OfKeyOneMore(part.claims, c, ClaimKey(scope), k);
    assert now.Keys == Keys(more, scope);
    forall j ensures BucketAt(now, j) == GroupOf(more, scope, j) {
      OfKeyOneMore(part.claims, c, ClaimKey(scope), j);
      assert BucketAt(buckets, j) == GroupOf(part, scope, j);
    }
  }

  lemma LeaseAdded(buckets: map<string, Group>, part: Snapshot, scope: Scope, l: Lease)
    requires Holds(buckets, part, scope)
    ensures var k := KeyOf(scope, l.owner);
      Holds(buckets[k := BucketAt(buckets, k).(leases := BucketAt(buckets, k).leases + [l])],
            part.(leases := part.leases + [l]), scope)
  {
    hide OfKey, KeysOf;
    var k := KeyOf(scope, l.owner);
    var bucket := BucketAt(buckets, k);
    var now := buckets[k := bucket.(leases := bucket.leases + [l])];
    var more := part.(leases := part.leases + [l]);
    OfKeyOneMore(part.leases, l, LeaseKey(scope), k);
    assert now.Keys == Keys(more, scope);
    forall j ensures BucketAt(now, j) == GroupOf(more, scope, j) {
      OfKeyOneMore(part.leases, l, LeaseKey(scope), j);
      assert BucketAt(buckets, j) == GroupOf(part, scope, j);
    }
  }

  lemma RequestAdded(buckets: map<string, Group>, part: Snapshot, scope: Scope, r: Request)
    requires Holds(buckets, part, scope)
    ensures var k := KeyOf(scope, r.owner);
      Holds(buckets[k := BucketAt(buckets, k).(requests := BucketAt(buckets, k).requests + [r])],
            part.(requests := part.requests + [r]), scope)
  {
    hide OfKey, KeysOf;
    var k := KeyOf(scope, r.owner);
    var bucket := BucketAt(buckets, k);
    var now := buckets[k := bucket.(requests := bucket.requests + [r])];
    var more := part.(requests := part.requests + [r]);
    OfKeyOneMore(part.requests, r, RequestKey(scope), k);
    assert now.Keys == Keys(more, scope);
    forall j ensures BucketAt(now, j) == GroupOf(more, scope, j) {
      OfKeyOneMore(part.requests, r, RequestKey(scope), j);
      assert BucketAt(buckets, j) == GroupOf(part, scope, j);
    }
  }

  lemma ReservationAdded(buckets: map<string, Group>, part: Snapshot, scope: Scope, a: Activity)
    requires Holds(buckets, part, scope)
    ensures var k := KeyOf(scope, a.owner);
      Holds(buckets[k := BucketAt(buckets, k).(reservations := BucketAt(buckets, k).reservations + [a])],
            part.(reservations := part.reservations + [a]), scope)
  {
    hide OfKey, KeysOf;
    var k := KeyOf(scope, a.owner);
    var bucket := BucketAt(buckets, k);
    var now := buckets[k := bucket.(reservations := bucket.reservations + [a])];
    var more := part.(reservations := part.reservations + [a]);
    OfKeyOneMore(part.reservations, a, ActivityKey(scope), k);
    assert now.Keys == Keys(more, scope);
    forall j ensures BucketAt(now, j) == GroupOf(more, scope, j) {
      OfKeyOneMore(part.reservations, a, ActivityKey(scope), j);
      assert BucketAt(buckets, j) == GroupOf(part, scope, j);
    }
  }

  lemma ActualAdded(buckets: map<string, Group>, part: Snapshot, scope: Scope, a: Activity)
    requires Holds(buckets, part, scope)
    ensures var k := KeyOf(scope, a.owner);
      Holds(buckets[k := BucketAt(buckets, k).(actuals := BucketAt(buckets, k).actuals + [a])],
            part.(actuals := part.actuals + [a]), scope)
  {
    hide OfKey, KeysOf;
    var k := KeyOf(scope, a.owner);
    var bucket := BucketAt(buckets, k);
    var now := buckets[k := bucket.(actuals := bucket.actuals + [a])];
    var more := part.(actuals := part.actuals + [a]);
    OfKeyOneMore(part.actuals, a, ActivityKey(scope), k);
    assert now.Keys == Keys(more, scope);
    forall j ensures BucketAt(now, j) == GroupOf(more, scope, j) {
      OfKeyOneMore(part.actuals, a, ActivityKey(scope), j);
      assert BucketAt(buckets, j) == GroupOf(part, scope, j);
    }
  }

  /** These groups are the visible buckets, one for each key, in some order. */
  ghost predicate AreGroups(groups: seq<Group>, s: Snapshot, scope: Scope, ks: seq<string>) {
    Enumerates(ks, Counted(s), scope) && groups == Filter(Groups(Counted(s), scope, ks), IsVisible)
  }

  /** `makeResourceUsageGroups`; the order of the groups is left open. They share out exactly what the fleet has. */
  method MakeResourceUsageGroups(s: Snapshot, scope: Scope) returns (groups: seq<Group>)
    ensures exists ks :: AreGroups(groups, s, scope, ks)
    ensures Combined(groups, AssignedOf) == FleetAssigned(s) && Combined(groups, RunningOf) == FleetRunning(s)
  {
    var buckets := FillBuckets(s, scope);
    hide Filter, Combined, Groups, Enumerates, Counted, FleetAssigned, FleetRunning, Holds;
    ghost var ks;
    groups, ks := ListVisible(Counted(s), scope, buckets);
    assert AreGroups(groups, s, scope, ks);
    GroupsShareTheFleet(s, scope, ks);
  }

  /** The five loops over the records. */
  method FillBuckets(s: Snapshot, scope: Scope) returns (buckets: map<string, Group>)
    ensures Holds(buckets, Counted(s), scope)
  {
    hide Filter, KeysOf, OfKey, Holds, KeyOf;
    var linkedLeases, linkedRequests := LinkedLeases(s.claims), LinkedRequests(s.claims);
    buckets := map[];
    ghost var part := Snapshot([], [], [], [], []);
    NothingHeld(scope);
    for i := 0 to |s.claims|
      invariant Holds(buckets, part, scope) && part == Snapshot(s.claims[..i], [], [], [], [])
    {
      var key := KeyOf(scope, s.claims[i].owner);
      var bucket := BucketAt(buckets, key);
      ClaimAdded(buckets, part, scope, s.claims[i]);
      buckets := buckets[key := bucket.(claims := bucket.claims + [s.claims[i]])];
      part := part.(claims := part.claims + [s.claims[i]]);
    }
    assert s.claims[..|s.claims|] == s.claims;
    NothingFiltered(Unlinked(linkedLeases), UnlinkedRequest(linkedRequests), s);
    for i := 0 to |s.leases|
      invariant Holds(buckets, part, scope)
      invariant part == Snapshot(s.claims, Filter(s.leases[..i], Unlinked(linkedLeases)), [], [], [])
    {
      FilterStep(s.leases, i, Unlinked(linkedLeases));
      if s.leases[i].id !in linkedLeases {
        var key := KeyOf(scope, s.leases[i].owner);
        var bucket := BucketAt(buckets, key);
        LeaseAdded(buckets, part, scope, s.leases[i]);
        buckets := buckets[key := bucket.(leases := bucket.leases + [s.leases[i]])];
        part := part.(leases := part.leases + [s.leases[i]]);
      }
    }
    assert s.leases[..|s.leases|] == s.leases;
    for i := 0 to |s.requests|
      invariant Holds(buckets, part, scope)
      invariant part == Snapshot(s.claims, Counted(s).leases, Filter(s.requests[..i], UnlinkedRequest(linkedRequests)), [], [])
    {
      FilterStep(s.requests, i, UnlinkedRequest(linkedRequests));
      if s.requests[i].id !in linkedRequests {
        var key := KeyOf(scope, s.requests[i].owner);
        var bucket := BucketAt(buckets, key);
        RequestAdded(buckets, part, scope, s.requests[i]);
        buckets := buckets[key := bucket.(requests := bucket.requests + [s.requests[i]])];
        part := part.(requests := part.requests + [s.requests[i]]);
      }
    }
    assert s.requests[..|s.requests|] == s.requests;
    buckets := AddActivities(Counted(s), scope, buckets, part);
  }

  lemma NothingHeld(scope: Scope)
    ensures Holds(map[], Snapshot([], [], [], [], []), scope)
  {
  }

  lemma NothingFiltered(p: Lease -> bool, q: Request -> bool, s: Snapshot)
    ensures Filter(s.leases[..0], p) == [] && Filter(s.requests[..0], q) == []
  {
  }

  lemma FilterStep<T>(xs: seq<T>, i: nat, p: T -> bool)
    requires i < |xs|
    ensures Filter(xs[..i + 1], p) == if p(xs[i]) then Filter(xs[..i], p) + [xs[i]] else Filter(xs[..i], p)
  {
    assert xs[..i + 1] == xs[..i] + [xs[i]];
    FilterOneMore(xs[..i], xs[i], p);
  }

  /** The last two loops, over reservations and recorded runs. */
  method AddActivities(s: Snapshot, scope: Scope, start: map<string, Group>, ghost part: Snapshot)
    returns (buckets: map<string, Group>)
    requires Holds(start, part, scope) && part == s.(reservations := [], actuals := [])
    ensures Holds(buckets, s, scope)
  {
    hide OfKey, KeysOf, Holds, KeyOf;
    buckets := start;
    for i := 0 to |s.reservations|
      invariant Holds(buckets, s.(reservations := s.reservations[..i], actuals := []), scope)
    {
      ghost var done := s.(reservations := s.reservations[..i], actuals := []);
      var key := KeyOf(scope, s.reservations[i].owner);
      var bucket := BucketAt(buckets, key);
      ReservationAdded(buckets, done, scope, s.reservations[i]);
      buckets := buckets[key := bucket.(reservations := bucket.reservations + [s.reservations[i]])];
      assert s.reservations[..i + 1] == s.reservations[..i] + [s.reservations[i]];
    }
    assert s.reservations[..|s.reservations|] == s.reservations;
    for i := 0 to |s.actuals|
      invariant Holds(buckets, s.(actuals := s.actuals[..i]), scope)
    {
      ghost var done := s.(actuals := s.actuals[..i]);
      var key := KeyOf(scope, s.actuals[i].owner);
      var bucket := BucketAt(buckets, key);
      ActualAdded(buckets, done, scope, s.actuals[i]);
      buckets := buckets[key := bucket.(actuals := bucket.actuals + [s.actuals[i]])];
      assert s.actuals[..i + 1] == s.actuals[..i] + [s.actuals[i]];
    }
    assert s.actuals[..|s.actuals|] == s.actuals;
  }

  /** The buckets with something visible, one group for each key. */
  method ListVisible(s: Snapshot, scope: Scope, buckets: map<string, Group>) returns (groups: seq<Group>, ghost ks: seq<string>)
    requires Holds(buckets, s, scope)
    ensures Enumerates(ks, s, scope) && groups == Filter(Groups(s, scope, ks), IsVisible)
  {
    hide Filter, OfKey, KeysOf;
    groups, ks := [], [];
    var rest := buckets.Keys;
    NoGroups(s, scope);
    while rest != {}
      invariant rest <= buckets.Keys && Distinct(ks) && forall k :: k in ks <==> k in buckets && k !in rest
      invariant groups == Filter(Groups(s, scope, ks), IsVisible)
      decreases |rest|
    {
      var k :| k in rest;
      rest := rest - {k};
      assert buckets[k] == BucketAt(buckets, k) == GroupOf(s, scope, k);
      GroupsOneMore(s, scope, ks, k);
      FilterOneMore(Groups(s, scope, ks), GroupOf(s, scope, k), IsVisible);
      hide GroupOf, IsVisible;
      if IsVisible(buckets[k]) {
        groups := groups + [buckets[k]];
      }
      ks := ks + [k];
    }
  }

  lemma NoGroups(s: Snapshot, scope: Scope)
    ensures Filter(Groups(s, scope, []), IsVisible) == []
  {
  }

  lemma GroupsOneMore(s: Snapshot, scope: Scope, ks: seq<string>, k: string)
    ensures Groups(s, scope, ks + [k]) == Groups(s, scope, ks) + [GroupOf(s, scope, k)]
  {
    hide GroupOf;
    assert (ks + [k])[..|ks|] == ks;
  }

  // ----- conservation -----

  /** The weights of the picked members, added up key by key. */
  function Spread<T>(xs: seq<T>, key: T -> string, p: T -> bool, weight: T -> Quantity, ks: seq<string>): Quantity {
    if ks == [] then ZERO
    else
      Spread(xs, key, p, weight, ks[..|ks| - 1]).Plus(Combined(Filter(OfKey(xs, key, ks[|ks| - 1]), p), weight))
  }

  lemma {:induction false} SpreadNothing<T>(key: T -> string, p: T -> bool, weight: T -> Quantity, ks: seq<string>)
    ensures Spread([], key, p, weight, ks) == ZERO
  {
    if ks != [] {
      SpreadNothing(key, p, weight, ks[..|ks| - 1]);
    }
  }

  /** One more member adds its weight under one key only. */
  lemma {:induction false} SpreadOneMore<T>(
    xs: seq<T>, x: T, key: T -> string, p: T -> bool, weight: T -> Quantity, ks: seq<string>)
    requires Distinct(ks)
    ensures Spread(xs + [x], key, p, weight, ks)
      == if p(x) && key(x) in ks then Spread(xs, key, p, weight, ks).Plus(weight(x)) else Spread(xs, key, p, weight, ks)
  {
    hide OfKey, Filter, Combined;
    if ks != [] {
      var front, k := ks[..|ks| - 1], ks[|ks| - 1];
      SpreadOneMore(xs, x, key, p, weight, front);
      OfKeyOneMore(xs, x, key, k);
      FilterOneMore(OfKey(xs, key, k), x, p);
      CombinedOneMore(Filter(OfKey(xs, key, k), p), x, weight);
      assert forall j :: j in ks <==> j in front || j == k;
    }
  }

  /** Every member is under exactly one of the keys, so the keys share out the whole. */
  lemma {:induction false} Conserved<T>(xs: seq<T>, key: T -> string, p: T -> bool, weight: T -> Quantity, ks: seq<string>)
    requires Distinct(ks) && forall k :: k in KeysOf(xs, key) ==> k in ks
    ensures Spread(xs, key, p, weight, ks) == Combined(Filter(xs, p), weight)
  {
    if xs == [] {
      SpreadNothing(key, p, weight, ks);
    } else {
      var front, x := xs[..|xs| - 1], xs[|xs| - 1];
      assert xs == front + [x];
      Conserved(front, key, p, weight, ks);
      SpreadOneMore(front, x, key, p, weight, ks);
      FilterOneMore(front, x, p);
      CombinedOneMore(Filter(front, p), x, weight);
    }
  }

  lemma NothingCombined<T>(p: T -> bool, weight: T -> Quantity)
    ensures Filter([], p) == [] && Combined([], weight) == ZERO
  {
  }

  lemma {:induction false} FilterSplits<T>(xs: seq<T>, p: T -> bool, q: T -> bool, weight: T -> Quantity)
    requires forall x :: q(x) <==> !p(x)
    ensures Combined(Filter(xs, p), weight).Plus(Combined(Filter(xs, q), weight)) == Combined(xs, weight)
  {
    hide Filter, Combined;
    if xs == [] {
      NothingCombined(p, weight);
      NothingCombined(q, weight);
    } else {
      var front, x := xs[..|xs| - 1], xs[|xs| - 1];
      FilterSplits(front, p, q, weight);
      assert xs == front + [x];
      FilterSplitsStep(front, x, p, q, weight);
    }
  }

  lemma FilterSplitsStep<T>(front: seq<T>, x: T, p: T -> bool, q: T -> bool, weight: T -> Quantity)
    requires q(x) <==> !p(x)
    requires Combined(Filter(front, p), weight).Plus(Combined(Filter(front, q), weight)) == Combined(front, weight)
    ensures Combined(Filter(front + [x], p), weight).Plus(Combined(Filter(front + [x], q), weight))
      == Combined(front + [x], weight)
  {
    hide Filter, Combined;
    FilterOneMore(front, x, p);
    FilterOneMore(front, x, q);
    CombinedOneMore(Filter(front, p), x, weight);
    CombinedOneMore(Filter(front, q), x, weight);
    CombinedOneMore(front, x, weight);
  }

  lemma {:induction false} AllZero<T>(xs: seq<T>, weight: T -> Quantity)
    requires forall i :: 0 <= i < |xs| ==> weight(xs[i]) == ZERO
    ensures Combined(xs, weight) == ZERO
  {
    hide Combined;
    if xs == [] {
      NothingCombined((x: T) => true, weight);
    } else {
      var front, x := xs[..|xs| - 1], xs[|xs| - 1];
      AllZero(front, weight);
      assert xs == front + [x];
      CombinedOneMore(front, x, weight);
    }
  }


  predicate IsHidden(g: Group) {
    !IsVisible(g)
  }

  lemma NothingPicked<T>(xs: seq<T>, p: T -> bool, weight: T -> Quantity)
    requires |Filter(xs, p)| == 0
    ensures Combined(Filter(xs, p), weight) == ZERO
  {
    hide Filter;
  }

  lemma NoneToPick<T>(xs: seq<T>, p: T -> bool)
    requires |xs| == 0
    ensures |Filter(xs, p)| == 0
  {
  }

  lemma HiddenHasNothing(g: Group)
    requires IsHidden(g)
    ensures |Filter(g.claims, IsAssigned)| == 0 && |Filter(g.claims, IsRunning)| == 0 && |g.leases| == 0
  {
    hide Combined, Filter, IsAssigned, IsRunning, LeaseIdles, LeaseRuns;
  }

  lemma IdleTotals(g: Group)
    requires Combined(Filter(g.claims, IsAssigned), ClaimQuantity) == Combined(Filter(g.claims, IsRunning), ClaimQuantity) == ZERO
    requires Combined(Filter(g.leases, LeaseIdles), LeaseQuantity) == Combined(Filter(g.leases, LeaseRuns), LeaseQuantity) == ZERO
    ensures AssignedOf(g) == ZERO && RunningOf(g) == ZERO
  {
    hide Combined, Filter, IsAssigned, IsRunning, LeaseIdles, LeaseRuns;
  }

  lemma HiddenIsIdle(g: Group)
    requires IsHidden(g)
    ensures AssignedOf(g) == ZERO && RunningOf(g) == ZERO
  {
    hide Combined, Filter, IsAssigned, IsRunning, LeaseIdles, LeaseRuns, IsHidden, AssignedOf, RunningOf;
    HiddenHasNothing(g);
    NothingPicked(g.claims, IsAssigned, ClaimQuantity);
    NothingPicked(g.claims, IsRunning, ClaimQuantity);
    NoneToPick(g.leases, LeaseIdles);
    NoneToPick(g.leases, LeaseRuns);
    NothingPicked(g.leases, LeaseIdles, LeaseQuantity);
    NothingPicked(g.leases, LeaseRuns, LeaseQuantity);
    IdleTotals(g);
  }

  lemma {:induction false} FilterHolds<T>(xs: seq<T>, p: T -> bool)
    ensures forall i :: 0 <= i < |Filter(xs, p)| ==> p(Filter(xs, p)[i])
  {
    if xs != [] {
      FilterHolds(xs[..|xs| - 1], p);
    }
  }

  /** The groups the filter drops have nothing assigned and nothing running. */
  lemma VisibleIsEnough(gs: seq<Group>)
    ensures Combined(Filter(gs, IsVisible), AssignedOf) == Combined(gs, AssignedOf)
    ensures Combined(Filter(gs, IsVisible), RunningOf) == Combined(gs, RunningOf)
  {
    hide Filter, Combined, AssignedOf, RunningOf;
    var hidden := Filter(gs, IsHidden);
    FilterHolds(gs, IsHidden);
    FilterSplits(gs, IsVisible, IsHidden, AssignedOf);
    FilterSplits(gs, IsVisible, IsHidden, RunningOf);
    hide IsHidden, IsVisible;
    forall i | 0 <= i < |hidden| ensures AssignedOf(hidden[i]) == ZERO && RunningOf(hidden[i]) == ZERO {
      HiddenIsIdle(hidden[i]);
    }
    AllZero(hidden, AssignedOf);
    AllZero(hidden, RunningOf);
  }

  lemma SpreadOneMoreKey<T>(xs: seq<T>, key: T -> string, p: T -> bool, weight: T -> Quantity, ks: seq<string>, k: string)
    ensures Spread(xs, key, p, weight, ks + [k])
      == Spread(xs, key, p, weight, ks).Plus(Combined(Filter(OfKey(xs, key, k), p), weight))
  {
    hide OfKey, Filter, Combined;
    assert (ks + [k])[..|ks|] == ks;
  }

  /** What the groups have, as sums over the claims, leases and requests of each key. */
  ghost predicate GroupsSpreadAt(s: Snapshot, scope: Scope, ks: seq<string>) {
    && Combined(Groups(s, scope, ks), AssignedOf)
      == Spread(s.claims, ClaimKey(scope), IsAssigned, ClaimQuantity, ks)
           .Plus(Spread(s.leases, LeaseKey(scope), LeaseIdles, LeaseQuantity, ks))
    && Combined(Groups(s, scope, ks), RunningOf)
      == Spread(s.claims, ClaimKey(scope), IsRunning, ClaimQuantity, ks)
           .Plus(Spread(s.leases, LeaseKey(scope), LeaseRuns, LeaseQuantity, ks))
    && Combined(Groups(s, scope, ks), RequestedOf)
      == Spread(s.claims, ClaimKey(scope), IsPending, ClaimQuantity, ks)
           .Plus(Spread(s.requests, RequestKey(scope), Any, RequestQuantity, ks))
  }

  lemma {:induction false} GroupsSpread(s: Snapshot, scope: Scope, ks: seq<string>)
    ensures GroupsSpreadAt(s, scope, ks)
  {
    hide OfKey, Filter, Combined, Groups, Spread, ClaimKey, LeaseKey, RequestKey;
    if ks == [] {
      NoKeys(s, scope);
    } else {
      var front, k := ks[..|ks| - 1], ks[|ks| - 1];
      assert ks == front + [k];
      GroupsSpread(s, scope, front);
      GroupsSpreadStep(s, scope, front, k);
    }
  }

  lemma NoKeys(s: Snapshot, scope: Scope)
    ensures Combined(Groups(s, scope, []), AssignedOf) == Combined(Groups(s, scope, []), RunningOf) == ZERO
    ensures Combined(Groups(s, scope, []), RequestedOf) == ZERO
    ensures Spread(s.claims, ClaimKey(scope), IsAssigned, ClaimQuantity, []) == ZERO
    ensures Spread(s.claims, ClaimKey(scope), IsRunning, ClaimQuantity, []) == ZERO
    ensures Spread(s.claims, ClaimKey(scope), IsPending, ClaimQuantity, []) == ZERO
    ensures Spread(s.leases, LeaseKey(scope), LeaseIdles, LeaseQuantity, []) == ZERO
    ensures Spread(s.leases, LeaseKey(scope), LeaseRuns, LeaseQuantity, []) == ZERO
    ensures Spread(s.requests, RequestKey(scope), Any, RequestQuantity, []) == ZERO
  {
  }

  lemma GroupsSpreadStep(s: Snapshot, scope: Scope, front: seq<string>, k: string)
    requires GroupsSpreadAt(s, scope, front)
    ensures GroupsSpreadAt(s, scope, front + [k])
  {
    hide OfKey, Filter, Combined, Groups, Spread, ClaimKey, LeaseKey, RequestKey;
    GroupsOneMore(s, scope, front, k);
    CombinedOneMore(Groups(s, scope, front), GroupOf(s, scope, k), AssignedOf);
    CombinedOneMore(Groups(s, scope, front), GroupOf(s, scope, k), RunningOf);
    CombinedOneMore(Groups(s, scope, front), GroupOf(s, scope, k), RequestedOf);
    SpreadOneMoreKey(s.claims, ClaimKey(scope), IsAssigned, ClaimQuantity, front, k);
    SpreadOneMoreKey(s.claims, ClaimKey(scope), IsRunning, ClaimQuantity, front, k);
    SpreadOneMoreKey(s.claims, ClaimKey(scope), IsPending, ClaimQuantity, front, k);
    SpreadOneMoreKey(s.leases, LeaseKey(scope), LeaseIdles, LeaseQuantity, front, k);
    SpreadOneMoreKey(s.leases, LeaseKey(scope), LeaseRuns, LeaseQuantity, front, k);
    SpreadOneMoreKey(s.requests, RequestKey(scope), Any, RequestQuantity, front, k);
  }

  lemma KeysCovered(s: Snapshot, scope: Scope, ks: seq<string>)
    requires Enumerates(ks, s, scope)
    ensures Distinct(ks)
    ensures forall k :: k in KeysOf(s.claims, ClaimKey(scope)) ==> k in ks
    ensures forall k :: k in KeysOf(s.leases, LeaseKey(scope)) ==> k in ks
    ensures forall k :: k in KeysOf(s.requests, RequestKey(scope)) ==> k in ks
  {
    hide KeysOf;
  }

  /** The visible groups share out exactly what the fleet has assigned and running, for every snapshot and scope. */
  lemma GroupsShareTheFleet(s: Snapshot, scope: Scope, ks: seq<string>)
    requires Enumerates(ks, Counted(s), scope)
    ensures var visible := Filter(Groups(Counted(s), scope, ks), IsVisible);
      Combined(visible, AssignedOf) == FleetAssigned(s) && Combined(visible, RunningOf) == FleetRunning(s)
  {
    hide Filter, Combined, Spread, Groups, KeysOf, Enumerates;
    var c := Counted(s);
    KeysCovered(c, scope, ks);
    VisibleIsEnough(Groups(c, scope, ks));
    GroupsSpread(c, scope, ks);
    Conserved(c.claims, ClaimKey(scope), IsAssigned, ClaimQuantity, ks);
    Conserved(c.claims, ClaimKey(scope), IsRunning, ClaimQuantity, ks);
    Conserved(c.leases, LeaseKey(scope), LeaseIdles, LeaseQuantity, ks);
    Conserved(c.leases, LeaseKey(scope), LeaseRuns, LeaseQuantity, ks);
  }

  predicate IsClosed(r: Request) {
    !r.pending
  }

  lemma {:induction false} FilterAny(rs: seq<Request>)
    ensures Filter(rs, Any) == rs
  {
    hide Filter;
    if rs == [] {
      NothingCombined(Any, RequestQuantity);
    } else {
      var front, r := rs[..|rs| - 1], rs[|rs| - 1];
      FilterAny(front);
      assert rs == front + [r];
      FilterOneMore(front, r, Any);
    }
  }

  /** Requested quantities are not shared out like that: the groups also count closed requests, and lose what dropped
    * groups ask for. */
  lemma RequestedBalance(s: Snapshot, scope: Scope, ks: seq<string>)
    requires Enumerates(ks, Counted(s), scope)
    ensures var groups := Groups(Counted(s), scope, ks);
      Combined(Filter(groups, IsVisible), RequestedOf).Plus(Combined(Filter(groups, IsHidden), RequestedOf))
        == FleetRequested(s).Plus(Combined(Filter(Counted(s).requests, IsClosed), RequestQuantity))
  {
    hide Filter, Combined, Spread, Groups, KeysOf, Enumerates;
    var c := Counted(s);
    KeysCovered(c, scope, ks);
    FilterSplits(Groups(c, scope, ks), IsVisible, IsHidden, RequestedOf);
    GroupsSpread(c, scope, ks);
    Conserved(c.claims, ClaimKey(scope), IsPending, ClaimQuantity, ks);
    Conserved(c.requests, RequestKey(scope), Any, RequestQuantity, ks);
    FilterAny(c.requests);
    FilterSplits(c.requests, IsOpen, IsClosed, RequestQuantity);
  }

  /** The groups show the fleet's requested quantities exactly when the dropped groups ask for what the closed requests add. */
  lemma RequestedSharedIff(s: Snapshot, scope: Scope, ks: seq<string>)
    requires Enumerates(ks, Counted(s), scope)
    ensures var groups := Groups(Counted(s), scope, ks);
      Combined(Filter(groups, IsVisible), RequestedOf) == FleetRequested(s)
      <==> Combined(Filter(groups, IsHidden), RequestedOf)
             == Combined(Filter(Counted(s).requests, IsClosed), RequestQuantity)
  {
    hide Filter, Combined, Groups, Enumerates, FleetRequested;
    RequestedBalance(s, scope, ks);
  }

  lemma NotActive(c: Claim)
    requires IsPending(c) && c.runtimeState != Some("RUNNING")
    ensures !IsAssigned(c) && !IsRunning(c)
  {
    assert "BLOCKED"[0] == 'B' && "QUEUED"[0] == 'Q' && "PENDING_APPROVAL"[0] == 'P' && "REQUESTED"[1] == 'E';
    assert "HELD"[0] == 'H' && "ACTIVE"[0] == 'A' && "RUNNING"[1] == 'U' && "RUNNING"[0] == 'R';
  }

  function Lone(c: Claim): Snapshot {
    Snapshot([c], [], [], [], [])
  }

  lemma LoneGroup(c: Claim, scope: Scope)
    ensures Counted(Lone(c)) == Lone(c)
    ensures Enumerates([KeyOf(scope, c.owner)], Lone(c), scope)
    ensures var k := KeyOf(scope, c.owner);
      Groups(Lone(c), scope, [k]) == [Group(k, [c], [], [], [], [])]
  {
    hide KeyOf, Counted, Keys, GroupOf, Groups;
    var k := KeyOf(scope, c.owner);
    LoneCounted(c);
    LoneKeys(c, scope);
    LoneGroupOf(c, scope);
    assert [] + [k] == [k];
    GroupsOneMore(Lone(c), scope, [], k);
    NoGroupsYet(Lone(c), scope);
  }

  lemma NoGroupsYet(s: Snapshot, scope: Scope)
    ensures Groups(s, scope, []) == []
  {
  }

  lemma LoneCounted(c: Claim)
    ensures Counted(Lone(c)) == Lone(c)
  {
  }

  lemma LoneKeys(c: Claim, scope: Scope)
    ensures Keys(Lone(c), scope) == {KeyOf(scope, c.owner)}
  {
    hide KeyOf, OfKey;
    assert [] + [c] == [c];
    OfKeyOneMore([], c, ClaimKey(scope), KeyOf(scope, c.owner));
  }

  lemma LoneGroupOf(c: Claim, scope: Scope)
    ensures var k := KeyOf(scope, c.owner); GroupOf(Lone(c), scope, k) == Group(k, [c], [], [], [], [])
  {
    hide KeyOf, KeysOf;
    assert [] + [c] == [c];
    OfKeyOneMore([], c, ClaimKey(scope), KeyOf(scope, c.owner));
  }

  lemma LonePick(c: Claim, p: Claim -> bool)
    ensures Filter([c], p) == if p(c) then [c] else []
    ensures Combined([c], ClaimQuantity) == c.quantities
  {
    FilterOneMore([], c, p);
    CombinedOneMore([], c, ClaimQuantity);
    assert [] + [c] == [c];
  }

  lemma LoneHidden(k: string, c: Claim)
    requires !IsAssigned(c) && !IsRunning(c)
    ensures IsHidden(Group(k, [c], [], [], [], [])) && Filter([Group(k, [c], [], [], [], [])], IsVisible) == []
  {
    hide Filter, IsAssigned, IsRunning;
    var g := Group(k, [c], [], [], [], []);
    LonePick(c, IsAssigned);
    LonePick(c, IsRunning);
    assert IsHidden(g);
    hide IsVisible;
    assert [] + [g] == [g];
    FilterOneMore([], g, IsVisible);
    NothingToFilter();
  }

  lemma NothingToFilter()
    ensures Filter([], IsVisible) == []
  {
  }

  /** A lone pending claim is in the fleet total and in no visible group. */
  lemma PendingClaimIsHidden(c: Claim, scope: Scope)
    requires IsPending(c) && c.runtimeState != Some("RUNNING")
    ensures var ks := [KeyOf(scope, c.owner)];
      && Enumerates(ks, Counted(Lone(c)), scope)
      && Filter(Groups(Counted(Lone(c)), scope, ks), IsVisible) == []
      && FleetRequested(Lone(c)) == c.quantities
  {
    NotActive(c);
    LoneGroup(c, scope);
    LoneHidden(KeyOf(scope, c.owner), c);
    LonePick(c, IsPending);
    NothingCombined(IsOpen, RequestQuantity);
    hide Filter, Combined, IsPending, Groups, KeyOf, Enumerates, Counted;
  }

  // ----- who shares a group, and what is counted -----

  lemma {:induction false} OfKeyMembers<T>(xs: seq<T>, key: T -> string, k: string, x: T)
    ensures multiset(OfKey(xs, key, k))[x] == if key(x) == k then multiset(xs)[x] else 0
  {
    if xs != [] {
      var front, last := xs[..|xs| - 1], xs[|xs| - 1];
      OfKeyMembers(front, key, k, x);
      assert xs == front + [last];
    }
  }

  lemma {:induction false} FilterMembers<T>(xs: seq<T>, p: T -> bool, x: T)
    ensures multiset(Filter(xs, p))[x] == if p(x) then multiset(xs)[x] else 0
  {
    if xs != [] {
      var front, last := xs[..|xs| - 1], xs[|xs| - 1];
      FilterMembers(front, p, x);
      assert xs == front + [last];
    }
  }

  /** What a scope groups by. */
  predicate SameOwner(scope: Scope, a: Owner, b: Owner) {
    match scope
    case Project => a.project == b.project
    case Agent => a.actor == b.actor
    case Task => a.project == b.project && a.task == b.task
  }

  /** One project name is another one and the separator, continued. */
  predicate Extends(p: string, q: string) {
    q + [0x1F as char] <= p
  }

  lemma KeyFront(p: string, x: string, q: string, y: string)
    requires p + [0x1F as char] + x == q + [0x1F as char] + y
    ensures (p == q && x == y) || Extends(p, q) || Extends(q, p)
  {
    var sep := [0x1F as char];
    var s := p + sep + x;
    assert s[..|p|] == p && s[|p| + 1..] == x && s[..|p| + 1] == p + sep;
    assert s[..|q|] == q && s[|q| + 1..] == y && s[..|q| + 1] == q + sep;
  }

  /** Two owners have one key exactly when the scope groups them together, unless a project name continues another one
      after a separator. */
  lemma SameGroupIff(scope: Scope, a: Owner, b: Owner)
    requires scope.Task? ==> !Extends(a.project, b.project) && !Extends(b.project, a.project)
    ensures KeyOf(scope, a) == KeyOf(scope, b) <==> SameOwner(scope, a, b)
  {
    if scope.Task? && KeyOf(scope, a) == KeyOf(scope, b) {
      KeyFront(a.project, a.task, b.project, b.task);
    }
  }

  ghost predicate KeysSeparate(projects: set<string>) {
    forall a: Owner, b: Owner :: a.project in projects && b.project in projects && KeyOf(Task, a) == KeyOf(Task, b) ==>
      SameOwner(Task, a, b)
  }

  /** The tasks of these projects are kept apart, whatever the tasks are called, exactly when no project name continues
      another one after a separator. */
  lemma TaskKeysSeparateIff(projects: set<string>)
    ensures KeysSeparate(projects) <==> forall p, q :: p in projects && q in projects ==> !Extends(p, q)
  {
    var sep := [0x1F as char];
    if p, q :| p in projects && q in projects && Extends(p, q) {
      var rest := p[|q| + 1..];
      assert p == q + sep + rest;
      var a, b := Owner(p, "", "x"), Owner(q, "", rest + sep + "x");
      assert KeyOf(Task, a) == KeyOf(Task, b);
      assert !SameOwner(Task, a, b);
    } else {
      forall a: Owner, b: Owner | a.project in projects && b.project in projects && KeyOf(Task, a) == KeyOf(Task, b)
        ensures SameOwner(Task, a, b)
      {
        SameGroupIff(Task, a, b);
      }
    }
  }

  /** Each record is in the group of its key, as often as in the snapshot, and in no other. */
  lemma GroupHolds(s: Snapshot, scope: Scope, k: string, c: Claim, l: Lease, r: Request, a: Activity)
    ensures var g := GroupOf(s, scope, k);
      && multiset(g.claims)[c] == (if KeyOf(scope, c.owner) == k then multiset(s.claims)[c] else 0)
      && multiset(g.leases)[l] == (if KeyOf(scope, l.owner) == k then multiset(s.leases)[l] else 0)
      && multiset(g.requests)[r] == (if KeyOf(scope, r.owner) == k then multiset(s.requests)[r] else 0)
      && multiset(g.reservations)[a] == (if KeyOf(scope, a.owner) == k then multiset(s.reservations)[a] else 0)
      && multiset(g.actuals)[a] == (if KeyOf(scope, a.owner) == k then multiset(s.actuals)[a] else 0)
  {
    hide OfKey, KeyOf;
    OfKeyMembers(s.claims, ClaimKey(scope), k, c);
    OfKeyMembers(s.leases, LeaseKey(scope), k, l);
    OfKeyMembers(s.requests, RequestKey(scope), k, r);
    OfKeyMembers(s.reservations, ActivityKey(scope), k, a);
    OfKeyMembers(s.actuals, ActivityKey(scope), k, a);
  }

  /** A lease or request is counted exactly when no claim stands for it. */
  lemma CountedIff(s: Snapshot, l: Lease, r: Request)
    ensures multiset(Counted(s).leases)[l]
         == if exists c :: c in s.claims && l.id in c.leaseIds then 0 else multiset(s.leases)[l]
    ensures multiset(Counted(s).requests)[r]
         == if exists c :: c in s.claims && r.id in c.requestIds then 0 else multiset(s.requests)[r]
    ensures Counted(s).claims == s.claims && Counted(s).reservations == s.reservations && Counted(s).actuals == s.actuals
  {
    hide Filter;
    FilterMembers(s.leases, Unlinked(LinkedLeases(s.claims)), l);
    FilterMembers(s.requests, UnlinkedRequest(LinkedRequests(s.claims)), r);
  }

  function GpusOf(leases: seq<Lease>): nat {
    if leases == [] then 0 else GpusOf(leases[..|leases| - 1]) + |leases[|leases| - 1].gpuIds|
  }

  lemma {:induction false} LeasesWeigh(leases: seq<Lease>)
    ensures Combined(leases, LeaseQuantity) == Quantity(0.0, 0, GpusOf(leases), 0, 0)
  {
    if leases != [] {
      LeasesWeigh(leases[..|leases| - 1]);
    }
  }

  /** Every GPU of a counted lease is in the fleet once, assigned or running, on top of what the claims hold. */
  lemma LeaseGpusCountOnce(s: Snapshot)
    ensures FleetAssigned(s).Plus(FleetRunning(s)).gpuCount
         == Combined(Filter(s.claims, IsAssigned), ClaimQuantity).gpuCount
            + Combined(Filter(s.claims, IsRunning), ClaimQuantity).gpuCount + GpusOf(Counted(s).leases)
    ensures forall c :: c in s.claims ==>
              if c.state == "RUNNING" || c.runtimeState == Some("RUNNING") then IsRunning(c) && !IsAssigned(c)
              else !IsRunning(c) && (IsAssigned(c) <==> c.state == "HELD" || c.state == "ACTIVE")
  {
    hide Filter, Combined, GpusOf;
    LeasesWeigh(Counted(s).leases);
    FilterSplits(Counted(s).leases, LeaseIdles, LeaseRuns, LeaseQuantity);
  }
}
