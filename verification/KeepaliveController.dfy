/** The keepalive helper's controller: it starts, stops and attests one worker per GPU and keeps
    the map from GPU to worker identity in a file, while workers die, PIDs are reused and the
    helper itself is killed between any two steps. */
module KeepaliveController {
  import opened Text
  import opened Json
  import opened Execution
  import opened KeepaliveProtocol
  import opened Processes
  import opened WorkerState

  /** One GPU's entry in the state file. */
  function Entry(file: Option<string>, uuid: string): Option<Identity> {
    match BookOf(file)
    case None => None
    case Some(b) => if uuid in b then Some(b[uuid]) else None
  }

  /** Every pair of GPU and worker in `recorded` whose worker still runs is in the book. */
  ghost predicate KeepsLive(recorded: set<(string, Identity)>, t: Table, b: Option<Book>) {
    forall p :: p in recorded && Alive(t, p.1) ==> b.Some? && p.0 in b.value && b.value[p.0] == p.1
  }

  ghost predicate AllKnown(t: Table, b: Book) {
    forall u :: u in b ==> Known(t, b[u])
  }

  ghost predicate AllRecordedKnown(recorded: set<(string, Identity)>, t: Table) {
    forall p :: p in recorded ==> Known(t, p.1)
  }

  /** The invariant of the state file: `recorded` holds every pair the file ever contained. */
  ghost predicate Consistent(recorded: set<(string, Identity)>, t: Table, file: Option<string>) {
    && AllRecordedKnown(recorded, t)
    && KeepsLive(recorded, t, BookOf(file))
    && (BookOf(file).Some? ==> forall u :: u in BookOf(file).value ==> (u, BookOf(file).value[u]) in recorded)
  }

  lemma ConsistentEvolves(recorded: set<(string, Identity)>, a: Table, b: Table, file: Option<string>)
    requires Consistent(recorded, a, file) && ValidTable(b) && Evolves(a, b)
    ensures Consistent(recorded, b, file)
  {
    forall p | p in recorded ensures Known(b, p.1) && (Alive(b, p.1) ==> Alive(a, p.1)) {
      DeadStaysDead(a, b, p.1);
    }
  }

  lemma KeepsLiveEvolves(recorded: set<(string, Identity)>, a: Table, b: Table, book: Book)
    requires AllRecordedKnown(recorded, a) && ValidTable(b) && Evolves(a, b)
    requires KeepsLive(recorded, a, Some(book)) && AllKnown(a, book)
    ensures KeepsLive(recorded, b, Some(book)) && AllKnown(b, book)
  {
    forall p | p in recorded ensures Alive(b, p.1) ==> Alive(a, p.1) {
      DeadStaysDead(a, b, p.1);
    }
    forall u | u in book ensures Known(b, book[u]) {
      DeadStaysDead(a, b, book[u]);
    }
  }

  function Items(b: Book): set<(string, Identity)> {
    set u | u in b :: (u, b[u])
  }

  /** Replacing the file by a book that keeps every live recorded worker is safe. */
  lemma ConsistentReplace(recorded: set<(string, Identity)>, t: Table, old_: Option<string>, b: Book)
    requires Consistent(recorded, t, old_) && ValidBook(b)
    requires KeepsLive(recorded, t, Some(b)) && AllKnown(t, b)
    ensures BookOf(FileOf(b)) == Some(b)
    ensures Consistent(recorded + Items(b), t, FileOf(b))
  {
    BookOfFile(b);
  }

  /** `b` is what is left of `b0` after dropping dead workers of requested GPUs. */
  ghost predicate Shrunk(b0: Book, b: Book, requested: seq<string>, t: Table) {
    && (forall u :: u in b ==> u in b0 && b[u] == b0[u])
    && (forall u :: u in b0 && u !in b ==> u in requested && !Alive(t, b0[u]))
    && AllKnown(t, b0)
  }

  ghost predicate ShrunkFile(b0: Book, file: Option<string>, requested: seq<string>, t: Table) {
    BookOf(file).Some? && Shrunk(b0, BookOf(file).value, requested, t)
  }

  lemma ShrunkNothing(b: Book, requested: seq<string>, t: Table)
    requires AllKnown(t, b)
    ensures Shrunk(b, b, requested, t)
  {
  }

  lemma ShrunkEvolves(b0: Book, b: Book, requested: seq<string>, a: Table, c: Table)
    requires Shrunk(b0, b, requested, a) && ValidTable(c) && Evolves(a, c)
    ensures Shrunk(b0, b, requested, c)
  {
    forall u | u in b0 ensures Known(c, b0[u]) && (Alive(c, b0[u]) ==> Alive(a, b0[u])) {
      DeadStaysDead(a, c, b0[u]);
    }
  }

  lemma BookKnown(recorded: set<(string, Identity)>, t: Table, file: Option<string>, b: Book)
    requires Consistent(recorded, t, file) && BookOf(file) == Some(b)
    ensures AllKnown(t, b) && KeepsLive(recorded, t, Some(b))
  {
    forall u | u in b ensures Known(t, b[u]) {
      assert (u, b[u]) in recorded;
    }
  }

  /** Dropping a dead worker keeps every live one. */
  lemma DropOne(recorded: set<(string, Identity)>, t: Table, file: Option<string>, b0: Book, b: Book,
                requested: seq<string>, uuid: string)
    requires Consistent(recorded, t, file) && BookOf(file) == Some(b) && ValidBook(b)
    requires uuid in b && uuid in requested && !Alive(t, b[uuid]) && Shrunk(b0, b, requested, t)
    ensures KeepsLive(recorded, t, Some(b - {uuid})) && AllKnown(t, b - {uuid}) && ValidBook(b - {uuid})
    ensures Shrunk(b0, b - {uuid}, requested, t)
  {
    BookKnown(recorded, t, file, b);
  }

  // ----- the start futures of `_enable` -----

  type Start = (string, Exec<Identity>)

  /** `{gpu_uuid: executor.submit(...) for gpu_uuid in pending}`: of two starts for one GPU only
      the later one's future is kept. */
  function Futures(starts: seq<Start>): map<string, Exec<Identity>> {
    if starts == [] then map[]
    else Futures(starts[..|starts| - 1])[starts[|starts| - 1].0 := starts[|starts| - 1].1]
  }

  ghost predicate LastOfItsGpu(starts: seq<Start>, i: nat) {
    i < |starts| && forall j :: i < j < |starts| ==> starts[j].0 != starts[i].0
  }

  lemma {:induction false} FuturesHold(starts: seq<Start>, i: nat)
    requires i < |starts|
    ensures starts[i].0 in Futures(starts)
    ensures LastOfItsGpu(starts, i) ==> Futures(starts)[starts[i].0] == starts[i].1
  {
    if i < |starts| - 1 {
      FuturesHold(starts[..|starts| - 1], i);
    }
  }

  lemma {:induction false} FuturesComeFromStarts(starts: seq<Start>, uuid: string) returns (i: nat)
    requires uuid in Futures(starts)
    ensures LastOfItsGpu(starts, i) && starts[i].0 == uuid && Futures(starts)[uuid] == starts[i].1
  {
    if starts[|starts| - 1].0 == uuid {
      i := |starts| - 1;
    } else {
      i := FuturesComeFromStarts(starts[..|starts| - 1], uuid);
    }
  }

  /** Of the starts for one GPU the last one's future is kept. */
  lemma FutureIsKeptIff(starts: seq<Start>, i: nat)
    requires i < |starts| && starts[i].1.Returned?
    requires forall j :: 0 <= j < |starts| && j != i ==> starts[j].1 != starts[i].1
    ensures starts[i].0 in Futures(starts)
    ensures Futures(starts)[starts[i].0] == starts[i].1 <==> LastOfItsGpu(starts, i)
  {
    FuturesHold(starts, i);
    var j := FuturesComeFromStarts(starts, starts[i].0);
  }

  /** The successful starts, in order. */
  function Successes(starts: seq<Start>): seq<(string, Identity)> {
    if starts == [] then []
    else
      var last := starts[|starts| - 1];
      Successes(starts[..|starts| - 1]) + if last.1.Returned? then [(last.0, last.1.value)] else []
  }

  lemma {:induction false} SuccessIsStart(starts: seq<Start>, p: (string, Identity)) returns (i: nat)
    requires p in Successes(starts)
    ensures i < |starts| && starts[i] == (p.0, Returned(p.1))
  {
    if p in Successes(starts[..|starts| - 1]) {
      i := SuccessIsStart(starts[..|starts| - 1], p);
    } else {
      i := |starts| - 1;
    }
  }

  /** A worker started between two moments, fit for the state file. */
  predicate FreshEntry(before: Table, after: Table, uuid: string, id: Identity) {
    ValidEntry(uuid, id) && Known(after, id) && !Known(before, id)
  }

  predicate SomeRaised(starts: seq<Start>) {
    exists i :: 0 <= i < |starts| && starts[i].1.Raised?
  }

  ghost predicate FreshStarts(before: Table, after: Table, starts: seq<Start>) {
    forall i :: 0 <= i < |starts| && starts[i].1.Returned? ==> FreshEntry(before, after, starts[i].0, starts[i].1.value)
  }

  /** Starts for a prefix of `pending`, none cut short by a kill. */
  ghost predicate StartsOf(starts: seq<Start>, pending: seq<string>) {
    |starts| <= |pending| && forall i :: 0 <= i < |starts| ==> starts[i].0 == pending[i] && !starts[i].1.Killed?
  }

  /** `launched` lists GPUs of `pending` in order, leaving some out, and each successful start. */
  ghost predicate LaunchedFor(launched: seq<string>, starts: seq<Start>, pending: seq<string>) {
    && (forall u :: u in launched ==> u in pending)
    && (Distinct(pending) ==> Distinct(launched))
    && (forall i :: 0 <= i < |starts| && starts[i].1.Returned? ==> starts[i].0 in launched)
  }

  lemma AfterStart(t0: Table, t1: Table, t2: Table, starts: seq<Start>, uuid: string, future: Exec<Identity>)
    requires ValidTable(t1) && ValidTable(t2) && Evolves(t0, t1) && Evolves(t1, t2)
    requires FreshStarts(t0, t1, starts)
    requires future.Returned? ==> FreshEntry(t1, t2, uuid, future.value)
    ensures FreshStarts(t0, t2, starts + [(uuid, future)])
  {
    forall i | 0 <= i < |starts| && starts[i].1.Returned? ensures FreshEntry(t0, t2, starts[i].0, starts[i].1.value) {
      DeadStaysDead(t1, t2, starts[i].1.value);
    }
    if future.Returned? && Known(t0, future.value) {
      KnownEvolves(t0, t1, future.value);
      assert false;
    }
  }

  lemma KnownEvolves(a: Table, b: Table, id: Identity)
    requires Known(a, id) && Evolves(a, b)
    ensures Known(b, id)
  {
    var i :| 0 <= i < |a.procs| && KnownAt(a, id, i);
    assert Later(a.procs[i], b.procs[i]);
    assert KnownAt(b, id, i);
  }

  lemma AfterLaunch(launched: seq<string>, starts: seq<Start>, pending: seq<string>, next: seq<string>, future: Exec<Identity>)
    requires StartsOf(starts, pending) && |starts| < |pending|
    requires LaunchedFor(launched, starts, pending[..|starts|])
    requires next == launched || next == launched + [pending[|starts|]]
    requires future.Returned? ==> next == launched + [pending[|starts|]]
    ensures LaunchedFor(next, starts + [(pending[|starts|], future)], pending[..|starts| + 1])
  {
    var n := |starts|;
    assert pending[..n + 1] == pending[..n] + [pending[n]];
    if Distinct(pending[..n + 1]) {
      assert Distinct(pending[..n]) by {
        forall i, j | 0 <= i < j < n ensures pending[..n][i] != pending[..n][j] {
          assert pending[..n + 1][i] != pending[..n + 1][j];
        }
      }
      assert pending[n] !in pending[..n] by {
        forall i | 0 <= i < n ensures pending[..n][i] != pending[n] {
          assert pending[..n + 1][i] != pending[..n + 1][n];
        }
      }
    }
  }

  lemma LaunchedForLonger(launched: seq<string>, starts: seq<Start>, pending: seq<string>, n: nat)
    requires n <= |pending| && LaunchedFor(launched, starts, pending[..n])
    ensures LaunchedFor(launched, starts, pending)
  {
    if Distinct(pending) {
      assert Distinct(pending[..n]);
    }
  }

  /** The second loop of `_enable`: record the identity of every start that succeeded. */
  function Extend(b: Book, futures: map<string, Exec<Identity>>, pending: seq<string>): Book {
    if pending == [] then b
    else
      var last := pending[|pending| - 1];
      var rest := Extend(b, futures, pending[..|pending| - 1]);
      if last in futures && futures[last].Returned? then rest[last := futures[last].value] else rest
  }

  lemma {:induction false} ExtendEntry(b: Book, futures: map<string, Exec<Identity>>, pending: seq<string>, u: string)
    ensures var e := Extend(b, futures, pending);
      if u in pending && u in futures && futures[u].Returned? then u in e && e[u] == futures[u].value
      else (u in e <==> u in b) && (u in b ==> e[u] == b[u])
  {
    if pending != [] {
      ExtendEntry(b, futures, pending[..|pending| - 1], u);
      assert pending == pending[..|pending| - 1] + [pending[|pending| - 1]];
    }
  }

  /** A started worker is in the map that is written exactly when no later start named the same GPU. */
  lemma StartIsRecordedIff(b: Book, starts: seq<Start>, pending: seq<string>, i: nat)
    requires StartsOf(starts, pending) && |starts| == |pending| && forall u :: u in pending ==> u !in b
    requires i < |starts| && starts[i].1.Returned?
    requires forall j :: 0 <= j < |starts| && j != i ==> starts[j].1 != starts[i].1
    ensures var e := Extend(b, Futures(starts), pending);
      (starts[i].0 in e && e[starts[i].0] == starts[i].1.value) <==> LastOfItsGpu(starts, i)
  {
    assert starts[i].0 == pending[i] && pending[i] in pending;
    FutureIsKeptIff(starts, i);
    hide Futures, Extend;
    ExtendEntry(b, Futures(starts), pending, starts[i].0);
  }

  /** A GPU named twice: two workers start, and the map that is written holds the second alone. */
  lemma DuplicateLosesWorker(b: Book, u: string, lost: Identity, kept: Identity)
    requires u !in b && lost != kept
    ensures var starts := [(u, Returned(lost)), (u, Returned(kept))];
      && StartsOf(starts, [u, u]) && Successes(starts) == [(u, lost), (u, kept)]
      && Extend(b, Futures(starts), [u, u]) == b[u := kept]
  {
    var starts: seq<Start> := [(u, Returned(lost)), (u, Returned(kept))];
    assert starts[..1] == [starts[0]] && starts[..1][..0] == [];
    assert Successes(starts[..1]) == [(u, lost)];
    FuturesHold(starts, 1);
    hide Futures, Successes, Extend;
    var e := Extend(b, Futures(starts), [u, u]);
    forall v ensures (v in e <==> v in b[u := kept]) && (v in e ==> e[v] == b[u := kept][v]) {
      ExtendEntry(b, Futures(starts), [u, u], v);
    }
  }

  /** Adding fresh workers for GPUs without an entry keeps every live recorded worker. */
  lemma ExtendKeeps(recorded: set<(string, Identity)>, before: Table, t: Table, file: Option<string>, b: Book,
                    starts: seq<Start>, pending: seq<string>)
    requires Consistent(recorded, t, file) && BookOf(file) == Some(b) && ValidBook(b)
    requires StartsOf(starts, pending) && FreshStarts(before, t, starts)
    requires forall u :: u in pending ==> u !in b
    ensures var e := Extend(b, Futures(starts), pending);
      KeepsLive(recorded, t, Some(e)) && AllKnown(t, e) && ValidBook(e)
  {
    var futures := Futures(starts);
    var e := Extend(b, futures, pending);
    BookKnown(recorded, t, file, b);
    hide BookOf, Consistent, Known, Alive, ValidEntry, Futures, Extend;
    forall u | u in e ensures Known(t, e[u]) && ValidEntry(u, e[u]) {
      ExtendEntry(b, futures, pending, u);
      if u in pending && u in futures && futures[u].Returned? {
        var i := FuturesComeFromStarts(starts, u);
        assert FreshEntry(before, t, starts[i].0, starts[i].1.value);
      }
    }
    forall p | p in recorded && Alive(t, p.1) ensures p.0 in e && e[p.0] == p.1 {
      ExtendEntry(b, futures, pending, p.0);
    }
  }

  /** Each successful start of a GPU started once is in the extended book. */
  lemma SuccessesInBook(b: Book, starts: seq<Start>, pending: seq<string>)
    requires StartsOf(starts, pending) && |starts| == |pending| && Distinct(pending)
    ensures forall p :: p in Successes(starts) ==>
              p.0 in Extend(b, Futures(starts), pending) && Extend(b, Futures(starts), pending)[p.0] == p.1
  {
    forall p | p in Successes(starts)
      ensures p.0 in Extend(b, Futures(starts), pending) && Extend(b, Futures(starts), pending)[p.0] == p.1
    {
      var i := SuccessIsStart(starts, p);
      assert forall j :: i < j < |starts| ==> starts[j].0 != starts[i].0 by {
        forall j | i < j < |starts| ensures starts[j].0 != starts[i].0 {
          assert pending[i] != pending[j];
        }
      }
      FuturesHold(starts, i);
      ExtendEntry(b, Futures(starts), pending, p.0);
      assert pending[i] == p.0;
    }
  }

  // ----- what a call may change -----

  /** No entry of a GPU outside the request differs. */
  ghost predicate OthersUntouched(old_: Option<string>, now: Option<string>, requested: seq<string>) {
    forall u :: u !in requested ==> Entry(now, u) == Entry(old_, u)
  }

  /** Workers were started only for requested GPUs without a live recorded worker. */
  ghost predicate LaunchedOnlyDead(b0: Book, requested: seq<string>, launched: seq<string>, t: Table) {
    && (forall u :: u in launched ==> u in requested && (u in b0 ==> !Alive(t, b0[u])))
    && (Distinct(requested) ==> Distinct(launched))
  }

  /** The outcome says whether this call started the worker or found it running. */
  ghost predicate EnableOutcomes(r: Response, b0: Book, file: Option<string>, launched: seq<string>, before: Table,
                                 after: Table) {
    forall x :: x in r.results ==>
      && Entry(file, x.gpuUuid).Some?
      && if x.gpuUuid in launched then x.outcome.DidStart?
         else
           && x.outcome.Unchanged? && x.gpuUuid in b0 && Entry(file, x.gpuUuid) == Some(b0[x.gpuUuid])
           && Seen(before, after, b0[x.gpuUuid])
  }

  /** Everything delivered went to the recorded worker of a requested GPU. */
  ghost predicate SignalsOnly(b0: Book, requested: seq<string>, t: Table, sent: seq<Delivery>) {
    forall d :: d in sent ==> exists u :: u in requested && u in b0 && WorkerAt(t, b0[u], d.target)
  }

  lemma SignalsEvolve(b0: Book, requested: seq<string>, a: Table, c: Table, sent: seq<Delivery>)
    requires SignalsOnly(b0, requested, a, sent) && Evolves(a, c)
    ensures SignalsOnly(b0, requested, c, sent)
  {
    forall d | d in sent ensures exists u :: u in requested && u in b0 && WorkerAt(c, b0[u], d.target) {
      var u :| u in requested && u in b0 && WorkerAt(a, b0[u], d.target);
      assert Later(a.procs[d.target], c.procs[d.target]);
      assert WorkerAt(c, b0[u], d.target);
    }
  }

  lemma SignalsMore(b0: Book, requested: seq<string>, t: Table, sent: seq<Delivery>, more: seq<Delivery>, u: string)
    requires SignalsOnly(b0, requested, t, sent) && u in requested && u in b0
    requires SignalsWorkerOnly(t, b0[u], more)
    ensures SignalsOnly(b0, requested, t, sent + more)
  {
    if more != [] {
      var w: nat :| WorkerAt(t, b0[u], w) && more <= [Delivery(w, SigTerm), Delivery(w, SigKill)];
      assert forall d :: d in more ==> d.target == w;
    }
  }

  /** The outcome of a disabled GPU: stopped by this call the first time it is named, if it had an
      entry. */
  predicate DisableOutcomes(results: seq<GpuResult>, b0: Book, requested: seq<string>) {
    && |results| <= |requested|
    && forall i :: 0 <= i < |results| ==>
         results[i] == GpuResult(requested[i], Stopped,
                                 if requested[i] in b0 && requested[i] !in requested[..i] then DidStop else Unchanged)
  }

  /** Some requested GPU has no entry, or one whose worker is dead: a reason to start a worker. */
  ghost predicate NeedsStart(b0: Book, requested: seq<string>, t: Table) {
    exists u :: u in requested && (u in b0 ==> !Alive(t, b0[u]))
  }

  lemma NeedsStartEvolves(b0: Book, requested: seq<string>, a: Table, c: Table)
    requires NeedsStart(b0, requested, a) && AllKnown(a, b0) && Evolves(a, c) && ValidTable(c)
    ensures NeedsStart(b0, requested, c)
  {
    var u :| u in requested && (u in b0 ==> !Alive(a, b0[u]));
    if u in b0 {
      DeadStaysDead(a, c, b0[u]);
    }
  }

  /** What a GPU left to start says about the book the call began with. */
  lemma PendingNeedsStart(b0: Book, b: Book, requested: seq<string>, t: Table, u: string)
    requires Shrunk(b0, b, requested, t) && u in requested && u !in b
    ensures NeedsStart(b0, requested, t)
  {
    assert u in b0 ==> !Alive(t, b0[u]);
  }

  lemma DeadNeedsStart(b0: Book, b: Book, requested: seq<string>, t: Table, u: string)
    requires Shrunk(b0, b, requested, t) && u in requested && u in b && !Alive(t, b[u])
    ensures NeedsStart(b0, requested, t) && AllKnown(t, b0)
  {
  }

  /** Every entry of the request is there and its worker runs. */
  ghost predicate AllRun(file: Option<string>, requested: seq<string>, t: Table) {
    forall u :: u in requested ==> Entry(file, u).Some? && Alive(t, Entry(file, u).value)
  }

  ghost predicate NoneRecorded(file: Option<string>, requested: seq<string>) {
    forall u :: u in requested ==> Entry(file, u).None?
  }

  predicate AllUnchanged(results: seq<GpuResult>) {
    forall x :: x in results ==> x.outcome.Unchanged?
  }

  /** Where every worker runs nothing is started, so every outcome is `Unchanged`. */
  lemma NothingToStart(file: Option<string>, b0: Book, requested: seq<string>, launched: seq<string>, t: Table)
    requires BookOf(file) == Some(b0) && AllRun(file, requested, t)
    ensures !NeedsStart(b0, requested, t)
    ensures LaunchedOnlyDead(b0, requested, launched, t) ==> launched == []
  {
    hide BookOf, Alive;
    forall u | u in requested ensures u in b0 && Alive(t, b0[u]) {
      assert Entry(file, u).Some?;
    }
    if launched != [] {
      assert launched[0] in launched;
    }
  }

  /** Where nothing is recorded nothing is signalled, and every outcome is `Unchanged`. */
  lemma NothingToStop(b0: Book, requested: seq<string>, t: Table, sent: seq<Delivery>, results: seq<GpuResult>)
    requires forall u :: u in requested ==> u !in b0
    ensures SignalsOnly(b0, requested, t, sent) ==> sent == []
    ensures DisableOutcomes(results, b0, requested) ==> AllUnchanged(results)
  {
    if sent != [] {
      assert sent[0] in sent;
    }
    if DisableOutcomes(results, b0, requested) {
      forall x | x in results ensures x.outcome.Unchanged? {
        var k :| 0 <= k < |results| && results[k] == x;
        assert requested[k] in requested;
      }
    }
  }

  datatype Attestation = Attestation(gpuUuid: string, identity: Identity, driverPid: int)

  /** Evidence for one GPU: its recorded identity, of a process that still owned its PID during
      the call. */
  ghost predicate Attested(a: Attestation, uuid: string, book: Book, before: Table, after: Table) {
    && a.gpuUuid == uuid && uuid in book && a.identity == book[uuid]
    && Seen(before, after, a.identity)
  }

  /** Why a GPU cannot be attested: no entry, a dead worker, or no driver process found for it. */
  ghost predicate NoEvidence(uuid: string, book: Book, driverPids: map<string, int>, t: Table) {
    uuid !in book || !Alive(t, book[uuid]) || uuid !in driverPids || driverPids[uuid] <= 0
  }

  lemma SeenAlong(t0: Table, t1: Table, t2: Table, t3: Table, id: Identity)
    requires Evolves(t0, t1) && Evolves(t1, t2) && Evolves(t2, t3)
    requires Seen(t1, t2, id)
    ensures Seen(t0, t3, id)
  {
    var w: nat :| SeenRunning(t1, t2, id, w);
    assert w < |t0.procs| ==> Later(t0.procs[w], t1.procs[w]);
    assert Later(t2.procs[w], t3.procs[w]);
    assert SeenRunning(t0, t3, id, w);
  }

  /** Every requested GPU that is not pending has an entry whose worker was seen running. */
  ghost predicate RestSeen(before: Table, after: Table, requested: seq<string>, pending: seq<string>, book: Book) {
    forall u :: u in requested && u !in pending ==> u in book && Seen(before, after, book[u])
  }

  lemma RestSeenEvolves(t0: Table, t1: Table, t2: Table, requested: seq<string>, pending: seq<string>, book: Book)
    requires RestSeen(t0, t1, requested, pending, book) && Evolves(t0, t1) && Evolves(t1, t2)
    ensures RestSeen(t0, t2, requested, pending, book)
  {
    EvolvesReflexive(t0);
    EvolvesReflexive(t1);
    forall u | u in requested && u !in pending ensures Seen(t0, t2, book[u]) {
      SeenAlong(t0, t0, t1, t2, book[u]);
    }
  }

  /** The next requested GPU was seen running, or is pending and no longer in the book. */
  lemma RestSeenNext(t0: Table, t1: Table, t2: Table, done: seq<string>, u: string, pending: seq<string>, book: Book,
                     more: seq<string>, left: Book)
    requires RestSeen(t0, t1, done, pending, book) && Evolves(t0, t1) && Evolves(t1, t2)
    requires (more == pending && left == book && u in book && Seen(t1, t2, book[u]))
             || (more == pending + [u] && left == book - {u})
    ensures RestSeen(t0, t2, done + [u], more, left)
  {
    RestSeenEvolves(t0, t1, t2, done, pending, book);
    EvolvesReflexive(t2);
    if left == book && u in book && Seen(t1, t2, book[u]) {
      SeenAlong(t0, t1, t2, t2, book[u]);
    }
    assert forall v :: v in pending ==> v in more;
  }

  class LocalKeepaliveController {
    const provider: TorchSubprocessProvider
    const legacyPresent: bool           // an old workers.v2.json lies beside the state file
    var stateFile: Option<string>
    var temporary: Option<string>
    ghost var recorded: set<(string, Identity)>
    ghost var fileFaults: nat           // failed file system calls

    ghost predicate Valid()
      reads this, provider, provider.kernel
    {
      provider.kernel.Valid() && Consistent(recorded, provider.kernel.table, stateFile)
    }

    /** A helper on a host whose state file was written by earlier helper calls. */
    constructor (provider: TorchSubprocessProvider, legacyPresent: bool, stateFile: Option<string>)
      requires provider.kernel.Valid()
      requires BookOf(stateFile).Some? ==> AllKnown(provider.kernel.table, BookOf(stateFile).value)
      ensures Valid() && this.provider == provider && this.stateFile == stateFile
      ensures recorded == if BookOf(stateFile).Some? then Items(BookOf(stateFile).value) else {}
    {
      this.provider := provider;
      this.legacyPresent := legacyPresent;
      this.stateFile := stateFile;
      this.temporary := None;
      this.recorded := if BookOf(stateFile).Some? then Items(BookOf(stateFile).value) else {};
    }

    /** One file system call: others run first, the helper may be killed, the call may fail. */
    method FileStep() returns (r: Exec<()>)
      requires Valid()
      modifies this`fileFaults, provider.kernel`table, provider.kernel`kills
      ensures Valid() && Evolves(old(provider.kernel.table), provider.kernel.table)
      ensures provider.kernel.kills == old(provider.kernel.kills) + if r.Killed? then 1 else 0
      ensures fileFaults == old(fileFaults) + if r == Raised(StateUnwritable) then 1 else 0
      ensures r.Raised? ==> r.cause == StateUnwritable
    {
      ghost var t := provider.kernel.table;
      var killed := provider.kernel.Interfere();
      ConsistentEvolves(recorded, t, provider.kernel.table, stateFile);
      var failed: bool := *;
      r := if killed then Killed else if failed then Raised(StateUnwritable) else Returned(());
      fileFaults := fileFaults + if r.Raised? then 1 else 0;
    }

    /** `_read_identities`. */
    method ReadIdentities() returns (r: Exec<Book>)
      requires Valid()
      ensures r.Returned? ==> BookOf(stateFile) == Some(r.value) && ValidBook(r.value)
      ensures r.Raised? <==> legacyPresent || BookOf(stateFile).None?
      ensures r.Raised? ==> r.cause == StateUnreadable
      ensures !r.Killed?
    {
      if legacyPresent {
        return Raised(StateUnreadable);
      }
      if stateFile.None? {
        return Returned(map[]);
      }
      var records := Records(stateFile.value);
      if records.None? {
        return Raised(StateUnreadable);
      }
      hide Records, ReadWorker, ValidBook, ValidEntry, BookFrom, Consistent;
      BookFromNothing();
      var workers := records.value;
      var identities: Book := map[];
      var i := 0;
      assert workers[..0] == [];
      while i < |workers|
        invariant 0 <= i <= |workers|
        invariant BookFrom(workers[..i]) == Some(identities)
      {
        NextRecord(workers, i, identities);
        var worker := ReadWorker(workers[i]);
        if worker.None? || worker.value.0 in identities {
          SpoiltBook(workers, i + 1);
          return Raised(StateUnreadable);
        }
        identities := identities[worker.value.0 := worker.value.1];
        i := i + 1;
      }
      assert workers[..i] == workers;
      BookFromIsValid(workers);
      return Returned(identities);
    }

    static lemma NextRecord(workers: seq<Json>, i: nat, b: Book)
      requires i < |workers| && BookFrom(workers[..i]) == Some(b)
      ensures BookFrom(workers[..i + 1]) ==
              match ReadWorker(workers[i]) {
                case None => None
                case Some((uuid, id)) => if uuid in b then None else Some(b[uuid := id])
              }
    {
      hide ReadWorker;
      assert workers[..i + 1][..i] == workers[..i];
    }

    static lemma {:induction false} SpoiltBook(workers: seq<Json>, i: nat)
      requires i <= |workers| && BookFrom(workers[..i]).None?
      ensures BookFrom(workers).None?
      decreases |workers|
    {
      if i < |workers| {
        assert workers[..|workers| - 1][..i] == workers[..i];
        SpoiltBook(workers[..|workers| - 1], i);
      } else {
        assert workers[..i] == workers;
      }
    }

    /** The steps of `_write_identities` up to its `finally`. */
    method Publish(b: Book) returns (r: Exec<()>)
      requires Valid() && ValidBook(b)
      requires KeepsLive(recorded, provider.kernel.table, Some(b)) && AllKnown(provider.kernel.table, b)
      modifies this, provider.kernel`table, provider.kernel`kills
      ensures Valid() && Evolves(old(provider.kernel.table), provider.kernel.table)
      ensures provider.kernel.kills == old(provider.kernel.kills) + if r.Killed? then 1 else 0
      ensures fileFaults == old(fileFaults) + if r == Raised(StateUnwritable) then 1 else 0
      ensures old(recorded) <= recorded
      ensures stateFile == old(stateFile) || stateFile == FileOf(b)
      ensures r.Returned? ==> stateFile == FileOf(b)
      ensures b == map[] ==> temporary == old(temporary)
      ensures b != map[] && r.Returned? ==> temporary == None
      ensures r.Raised? ==> r.cause == StateUnwritable
    {
      hide Evolves, ValidTable, AllRecordedKnown, Known, Alive, KeepsLive, AllKnown, BookOf, StateText, ValidBook, Items;
      ghost var t0 := provider.kernel.table;
      var step :- FileStep();
      ghost var t1 := provider.kernel.table;
      KeepsLiveEvolves(recorded, t0, t1, b);
      if b == map[] {
        ConsistentReplace(recorded, t1, stateFile, b);
        if stateFile.None? {
          return Returned(());
        }
        stateFile, recorded := None, recorded + Items(b);
        r := FileStep();  // fsync of the directory
        EvolvesTransitive(t0, t1, provider.kernel.table);
        return;
      }
      var payload := StateText(b);
      temporary := Some("");
      r := WriteTemporary(payload);
      ghost var t2 := provider.kernel.table;
      EvolvesTransitive(t0, t1, t2);
      if r.IsFailure() {
        return;
      }
      KeepsLiveEvolves(recorded, t1, t2, b);
      ConsistentReplace(recorded, t2, stateFile, b);
      stateFile, temporary, recorded := temporary, None, recorded + Items(b);
      r := FileStep();  // fsync of the directory
      EvolvesTransitive(t0, t2, provider.kernel.table);
    }

    /** Fill, flush and sync the temporary file; a kill may leave any prefix in it. */
    method WriteTemporary(payload: string) returns (r: Exec<()>)
      requires Valid()
      modifies this`temporary, this`fileFaults, provider.kernel`table, provider.kernel`kills
      ensures Valid() && Evolves(old(provider.kernel.table), provider.kernel.table)
      ensures provider.kernel.kills == old(provider.kernel.kills) + if r.Killed? then 1 else 0
      ensures fileFaults == old(fileFaults) + if r == Raised(StateUnwritable) then 1 else 0
      ensures r.Returned? ==> temporary == Some(payload)
      ensures r.Raised? ==> r.cause == StateUnwritable
    {
      ghost var t0 := provider.kernel.table;
      var n: nat := *;
      if 0 <= n < |payload| {
        temporary := Some(payload[..n]);
      }
      var step :- FileStep();
      ghost var t1 := provider.kernel.table;
      temporary := Some(payload);
      r := FileStep();
      EvolvesTransitive(t0, t1, provider.kernel.table);
    }

    /** `_write_identities`: at every moment the state file is the complete old or new map. */
    method WriteIdentities(b: Book) returns (r: Exec<()>)
      requires Valid() && ValidBook(b)
      requires KeepsLive(recorded, provider.kernel.table, Some(b)) && AllKnown(provider.kernel.table, b)
      modifies this, provider.kernel`table, provider.kernel`kills
      ensures Valid() && Evolves(old(provider.kernel.table), provider.kernel.table)
      ensures provider.kernel.kills == old(provider.kernel.kills) + if r.Killed? then 1 else 0
      ensures fileFaults == old(fileFaults) + if r == Raised(StateUnwritable) then 1 else 0
      ensures old(recorded) <= recorded
      ensures stateFile == old(stateFile) || BookOf(stateFile) == Some(b)
      ensures r.Returned? ==> BookOf(stateFile) == Some(b)
      ensures r.Raised? ==> r.cause == StateUnwritable
      // Only a kill leaves the temporary file behind.
      ensures !r.Killed? ==> temporary == if b == map[] then old(temporary) else None
    {
      hide BookOf, FileOf, Evolves, ValidTable, Consistent, ValidBook, KeepsLive, AllKnown;
      BookOfFile(b);
      r := Publish(b);
      if !r.Killed? && b != map[] {
        temporary := None;
      }
    }

    /** One turn of that loop for a GPU with an entry: keep a running worker, forget a dead one. */
    method KeepOrForget(uuid: string, book: Book, ghost identities: Book, ghost requested: seq<string>)
      returns (r: Exec<bool>)
      requires Valid() && BookOf(stateFile) == Some(book) && ValidBook(book)
      requires uuid in book && uuid in requested && Shrunk(identities, book, requested, provider.kernel.table)
      modifies this, provider.kernel`table, provider.kernel`kills
      ensures Valid() && Evolves(old(provider.kernel.table), provider.kernel.table)
      ensures provider.kernel.kills == old(provider.kernel.kills) + if r.Killed? then 1 else 0
      ensures fileFaults == old(fileFaults) + if r == Raised(StateUnwritable) then 1 else 0
      ensures old(recorded) <= recorded
      ensures ShrunkFile(identities, stateFile, requested, provider.kernel.table)
      ensures r.Raised? ==> r.cause == StateUnwritable
      ensures r.Returned? ==> BookOf(stateFile) == Some(if r.value then book else book - {uuid})
      ensures r.Returned? ==> ValidBook(book - {uuid})
      ensures r == Returned(true) ==> Seen(old(provider.kernel.table), provider.kernel.table, book[uuid])
      ensures r.Returned? ==> Shrunk(identities, if r.value then book else book - {uuid}, requested, provider.kernel.table)
      ensures stateFile == old(stateFile) || NeedsStart(identities, requested, provider.kernel.table)
    {
      hide BookOf, Evolves, ValidTable, Known, Alive, Consistent, Shrunk, NeedsStart;
      ghost var t1 := provider.kernel.table;
      BookKnown(recorded, t1, stateFile, book);
      var running := provider.IsRunning(book[uuid]);
      ghost var t2 := provider.kernel.table;
      ConsistentEvolves(recorded, t1, t2, stateFile);
      ShrunkEvolves(identities, book, requested, t1, t2);
      if running.IsFailure() || running.value {
        return running;
      }
      assert running == Returned(false);
      DropOne(recorded, t2, stateFile, identities, book, requested, uuid);
      DeadNeedsStart(identities, book, requested, t2, uuid);
      var written := WriteIdentities(book - {uuid});
      EvolvesTransitive(t1, t2, provider.kernel.table);
      ShrunkEvolves(identities, book, requested, t2, provider.kernel.table);
      ShrunkEvolves(identities, book - {uuid}, requested, t2, provider.kernel.table);
      NeedsStartEvolves(identities, requested, t2, provider.kernel.table);
      r := if written.IsFailure() then written.PropagateFailure() else Returned(false);
    }

    /** The first loop of `_enable`: forget recorded workers that are dead and collect the GPUs
        that need a start. */
    method DropDead(requested: seq<string>, identities: Book) returns (r: Exec<(Book, seq<string>)>)
      requires Valid() && BookOf(stateFile) == Some(identities) && ValidBook(identities)
      modifies this, provider.kernel`table, provider.kernel`kills
      ensures Valid() && Evolves(old(provider.kernel.table), provider.kernel.table)
      ensures provider.kernel.kills == old(provider.kernel.kills) + if r.Killed? then 1 else 0
      ensures fileFaults == old(fileFaults) + if r == Raised(StateUnwritable) then 1 else 0
      ensures old(recorded) <= recorded
      ensures ShrunkFile(identities, stateFile, requested, provider.kernel.table)
      ensures r.Raised? ==> r.cause == StateUnwritable
      ensures r.Returned? ==> BookOf(stateFile) == Some(r.value.0) && ValidBook(r.value.0)
      ensures r.Returned? ==> forall u :: u in requested <==> u in r.value.1 || (u in requested && u in r.value.0)
      ensures r.Returned? ==> forall u :: u in r.value.1 ==> u !in r.value.0
      ensures r.Returned? && Distinct(requested) ==> Distinct(r.value.1)
      ensures r.Returned? ==>
                RestSeen(old(provider.kernel.table), provider.kernel.table, requested, r.value.1, r.value.0)
      ensures stateFile == old(stateFile) || NeedsStart(identities, requested, provider.kernel.table)
    {
      hide BookOf, Evolves, ValidTable, ValidBook, AllKnown, Consistent, Shrunk, Distinct, NeedsStart, RestSeen, Seen;
      var book := identities;
      var pending: seq<string> := [];
      ghost var t0 := provider.kernel.table;
      EvolvesReflexive(t0);
      BookKnown(recorded, t0, stateFile, book);
      ShrunkNothing(book, requested, t0);
      DistinctNothing();
      NothingRequested(t0, book);
      assert requested[..0] == [];
      var i := 0;
      while i < |requested|
        invariant 0 <= i <= |requested|
        invariant provider.kernel.kills == old(provider.kernel.kills) && fileFaults == old(fileFaults)
        invariant RestSeen(t0, provider.kernel.table, requested[..i], pending, book)
        invariant Valid() && Evolves(t0, provider.kernel.table) && old(recorded) <= recorded
        invariant BookOf(stateFile) == Some(book) && ValidBook(book)
        invariant Shrunk(identities, book, requested, provider.kernel.table)
        invariant forall u :: u in pending ==> u in requested[..i] && u !in book
        invariant forall u :: u in requested[..i] ==> u in pending || u in book
        invariant Distinct(requested) ==> Distinct(pending)
        invariant stateFile == old(stateFile) || NeedsStart(identities, requested, provider.kernel.table)
      {
        var uuid := requested[i];
        assert requested[..i + 1] == requested[..i] + [uuid];
        i := i + 1;
        ghost var t1, seen, was := provider.kernel.table, pending, book;
        EvolvesReflexive(t1);
        if uuid in book {
          var running := KeepOrForget(uuid, book, identities, requested);
          EvolvesTransitive(t0, t1, provider.kernel.table);
          StillNeedsStart(identities, book, requested, t1, provider.kernel.table);
          if running.IsFailure() {
            return running.PropagateFailure();
          }
          if running.value {
            assert running == Returned(true);
            RestSeenNext(t0, t1, provider.kernel.table, requested[..i - 1], uuid, pending, book, pending, book);
            continue;
          }
          book := book - {uuid};
        }
        DistinctSnoc(requested, i - 1, pending);
        pending := pending + [uuid];
        assert book == was - {uuid};
        RestSeenNext(t0, t1, provider.kernel.table, requested[..i - 1], uuid, seen, was, pending, book);
      }
      assert requested[..i] == requested;
      return Returned((book, pending));
    }

    static lemma NothingRequested(t: Table, b: Book)
      ensures RestSeen(t, t, [], [], b)
    {
    }

    static lemma StillNeedsStart(b0: Book, b: Book, requested: seq<string>, a: Table, c: Table)
      requires Shrunk(b0, b, requested, a) && Evolves(a, c) && ValidTable(c)
      ensures NeedsStart(b0, requested, a) ==> NeedsStart(b0, requested, c)
    {
      if NeedsStart(b0, requested, a) {
        NeedsStartEvolves(b0, requested, a, c);
      }
    }

    static lemma DistinctSnoc(xs: seq<string>, i: nat, ys: seq<string>)
      requires i < |xs| && (Distinct(xs) ==> Distinct(ys)) && forall y :: y in ys ==> y in xs[..i]
      ensures Distinct(xs) ==> Distinct(ys + [xs[i]])
    {
      if Distinct(xs) {
        assert xs[i] !in xs[..i];
      }
    }

    static lemma DistinctNothing()
      ensures Distinct([])
    {
    }

    /** Submit a start for every pending GPU; `starts` lists them with their results. */
    method StartAll(pending: seq<string>) returns (r: Exec<map<string, Exec<Identity>>>, ghost starts: seq<Start>)
      requires Valid() && AllValid(pending)
      modifies provider, provider.kernel`table, provider.kernel`kills, provider.kernel`startFaults,
        provider.kernel`spawned, provider.kernel`devices, provider.kernel`ready
      ensures Valid() && Evolves(old(provider.kernel.table), provider.kernel.table)
      ensures provider.kernel.kills == old(provider.kernel.kills) + if r.Killed? then 1 else 0
      ensures !r.Raised?
      ensures StartsOf(starts, pending) && FreshStarts(old(provider.kernel.table), provider.kernel.table, starts)
      ensures r.Returned? ==> |starts| == |pending| && r.value == Futures(starts)
      ensures old(provider.launched) <= provider.launched
      ensures LaunchedFor(provider.launched[|old(provider.launched)|..], starts, pending)
      ensures provider.started == old(provider.started) + Successes(starts)
      ensures old(provider.kernel.startFaults) <= provider.kernel.startFaults
      ensures old(provider.kernel.spawned) <= provider.kernel.spawned
      ensures SomeRaised(starts) ==>
                StartsFaulted(provider.kernel.table, provider.kernel.startFaults - old(provider.kernel.startFaults),
                              provider.kernel.spawned[|old(provider.kernel.spawned)|..])
    {
      hide BookOf, Evolves, ValidTable, Consistent, FreshStarts, LaunchedFor, StartsFaulted;
      ghost var t0, l0, s0 := provider.kernel.table, provider.launched, provider.started;
      ghost var f0, c0 := provider.kernel.startFaults, provider.kernel.spawned;
      var futures: map<string, Exec<Identity>> := map[];
      starts := [];
      EvolvesReflexive(t0);
      NothingStarted(t0, pending);
      assert l0[|l0|..] == [];
      var i := 0;
      while i < |pending|
        invariant 0 <= i <= |pending| && |starts| == i && futures == Futures(starts) && StartsOf(starts, pending)
        invariant Valid() && Evolves(t0, provider.kernel.table)
        invariant FreshStarts(t0, provider.kernel.table, starts)
        invariant l0 <= provider.launched && LaunchedFor(provider.launched[|l0|..], starts, pending[..i])
        invariant provider.started == s0 + Successes(starts)
        invariant provider.kernel.kills == old(provider.kernel.kills)
        invariant f0 <= provider.kernel.startFaults && c0 <= provider.kernel.spawned
        invariant SomeRaised(starts) ==>
                    StartsFaulted(provider.kernel.table, provider.kernel.startFaults - f0, provider.kernel.spawned[|c0|..])
      {
        ghost var t1, l1 := provider.kernel.table, provider.launched;
        ghost var f1, c1 := provider.kernel.startFaults, provider.kernel.spawned;
        var future := provider.Start(pending[i]);
        ghost var t2 := provider.kernel.table;
        EvolvesTransitive(t0, t1, t2);
        ConsistentEvolves(recorded, t1, t2, stateFile);
        AfterStart(t0, t1, t2, starts, pending[i], future);
        assert provider.launched[|l0|..] == l1[|l0|..] + provider.launched[|l1|..];
        AfterLaunch(l1[|l0|..], starts, pending, provider.launched[|l0|..], future);
        ghost var more := starts + [(pending[i], future)];
        assert more[..i] == starts;
        FaultedNext(t1, t2, f1 - f0, provider.kernel.startFaults - f1, c0, c1, provider.kernel.spawned, starts, pending[i],
                    future);
        if future.Killed? {
          KilledStart(t0, t2, starts, pending, provider.launched[|l0|..]);
          return Killed, starts;
        }
        starts := more;
        futures := futures[pending[i] := future];
        i := i + 1;
      }
      assert pending[..i] == pending;
      return Returned(futures), starts;
    }

    static lemma FaultedNext(a: Table, b: Table, before: nat, faults: nat, c0: seq<nat>, c1: seq<nat>, c2: seq<nat>,
                             starts: seq<Start>, uuid: string, future: Exec<Identity>)
      requires Evolves(a, b) && c0 <= c1 <= c2
      requires SomeRaised(starts) ==> StartsFaulted(a, before, c1[|c0|..])
      requires future.Raised? ==> StartsFaulted(b, faults, c2[|c1|..])
      ensures SomeRaised(starts + [(uuid, future)]) ==> StartsFaulted(b, before + faults, c2[|c0|..])
      ensures SomeRaised(starts) ==> StartsFaulted(b, before + faults, c2[|c0|..])
    {
      assert c2[|c0|..] == c1[|c0|..] + c2[|c1|..];
      EvolvesReflexive(b);
      if SomeRaised(starts) {
        FaultedEvolves(a, b, before, before + faults, c1[|c0|..], c2[|c0|..]);
      }
      if future.Raised? {
        FaultedEvolves(b, b, faults, before + faults, c2[|c1|..], c2[|c0|..]);
      }
    }

    static lemma NothingStarted(t: Table, pending: seq<string>)
      ensures FreshStarts(t, t, []) && LaunchedFor([], [], pending[..0])
    {
    }

    static lemma KilledStart(t0: Table, t2: Table, starts: seq<Start>, pending: seq<string>, launched: seq<string>)
      requires |starts| < |pending|
      requires FreshStarts(t0, t2, starts + [(pending[|starts|], Killed)])
      requires LaunchedFor(launched, starts + [(pending[|starts|], Killed)], pending[..|starts| + 1])
      ensures FreshStarts(t0, t2, starts) && LaunchedFor(launched, starts, pending)
    {
      var more := starts + [(pending[|starts|], Killed)];
      assert forall i :: 0 <= i < |starts| ==> more[i] == starts[i];
      LaunchedForLonger(launched, more, pending, |starts| + 1);
    }

    /** The part of `_enable` after the first loop: start, record, then report. */
    method StartPending(requested: seq<string>, pending: seq<string>, book: Book)
      returns (r: Exec<Book>, ghost starts: seq<Start>)
      requires Valid() && BookOf(stateFile) == Some(book) && ValidBook(book) && AllValid(pending)
      requires forall u :: u in pending ==> u !in book
      modifies this, provider, provider.kernel`table, provider.kernel`kills, provider.kernel`startFaults,
        provider.kernel`spawned, provider.kernel`devices, provider.kernel`ready
      ensures Valid() && Evolves(old(provider.kernel.table), provider.kernel.table)
      ensures provider.kernel.kills == old(provider.kernel.kills) + if r.Killed? then 1 else 0
      ensures fileFaults == old(fileFaults) + if r == Raised(StateUnwritable) then 1 else 0
      ensures old(recorded) <= recorded
      ensures BookOf(stateFile).Some? && forall u :: u !in pending ==>
                (u in BookOf(stateFile).value <==> u in book) && (u in book ==> BookOf(stateFile).value[u] == book[u])
      ensures old(provider.launched) <= provider.launched && old(provider.started) <= provider.started
      ensures forall u :: u in provider.launched[|old(provider.launched)|..] ==> u in pending
      ensures Distinct(pending) ==> Distinct(provider.launched[|old(provider.launched)|..])
      ensures r.Raised? ==> r.cause in {StartFailed, StateUnwritable}
      ensures old(provider.kernel.startFaults) <= provider.kernel.startFaults
      ensures old(provider.kernel.spawned) <= provider.kernel.spawned
      ensures r == Raised(StartFailed) ==>
                && (exists u :: u in pending && Entry(stateFile, u).None?)
                && StartsFaulted(provider.kernel.table, provider.kernel.startFaults - old(provider.kernel.startFaults),
                                 provider.kernel.spawned[|old(provider.kernel.spawned)|..])
      ensures r.Returned? ==> BookOf(stateFile) == Some(r.value)
      ensures r.Returned? ==> forall u :: u in pending ==> u in r.value && u in provider.launched[|old(provider.launched)|..]
      ensures StartsOf(starts, pending) && provider.started == old(provider.started) + Successes(starts)
      ensures r.Returned? || r == Raised(StartFailed) ==>
                |starts| == |pending| && BookOf(stateFile) == Some(Extend(book, Futures(starts), pending))
      ensures (r.Returned? || r == Raised(StartFailed)) && Distinct(pending) ==>
                forall p :: p in provider.started[|old(provider.started)|..] ==> Entry(stateFile, p.0) == Some(p.1)
    {
      hide BookOf, Evolves, ValidTable, Consistent, Known, Alive, ValidEntry, Distinct, ValidBook, AllKnown, KeepsLive,
        FreshStarts, LaunchedFor, Futures, Successes, StartsFaulted, Extend, SomeRaised;
      ghost var t0, s0 := provider.kernel.table, provider.started;
      ghost var f0, c0 := provider.kernel.startFaults, provider.kernel.spawned;
      var futures;
      futures, starts := StartAll(pending);
      ghost var t1 := provider.kernel.table;
      LaunchedAmong(provider.launched[|old(provider.launched)|..], starts, pending);
      if futures.IsFailure() {
        return futures.PropagateFailure(), starts;
      }
      assert provider.started[|s0|..] == Successes(starts);
      ExtendKeeps(recorded, t0, t1, stateFile, book, starts, pending);
      forall k | 0 <= k < |pending| ensures pending[k] in futures.value && !futures.value[pending[k]].Killed? {
        FutureOf(starts, pending, k);
      }
      var extended, failed := CollectFutures(book, futures.value, pending);
      var written := WriteIdentities(extended);
      EvolvesTransitive(t0, t1, provider.kernel.table);
      ExtendEntries(book, futures.value, pending);
      if written.IsFailure() {
        return written.PropagateFailure(), starts;
      }
      if Distinct(pending) {
        SuccessesInBook(book, starts, pending);
      }
      if failed {
        var u := FailedStart(book, starts, pending);
        FaultedEvolves(t1, provider.kernel.table, provider.kernel.startFaults - f0, provider.kernel.startFaults - f0,
                       provider.kernel.spawned[|c0|..], provider.kernel.spawned[|c0|..]);
        assert Entry(stateFile, u).None?;
        return Raised(StartFailed), starts;
      }
      forall u | u in pending ensures u in extended && u in provider.launched[|old(provider.launched)|..] {
        var k :| 0 <= k < |pending| && pending[k] == u;
        LaunchedIfReturned(provider.launched[|old(provider.launched)|..], starts, pending, u);
      }
      return Returned(extended), starts;
    }

    static lemma ExtendEntries(book: Book, futures: map<string, Exec<Identity>>, pending: seq<string>)
      ensures var extended := Extend(book, futures, pending);
        && (forall u :: u !in pending ==> (u in extended <==> u in book) && (u in book ==> extended[u] == book[u]))
        && forall u :: u in pending && u in futures && futures[u].Returned? ==> u in extended
    {
      hide Extend;
      forall u {
        ExtendEntry(book, futures, pending, u);
      }
    }

    /** A future that raised belongs to a start that raised, for a GPU that gets no entry. */
    static lemma FailedStart(book: Book, starts: seq<Start>, pending: seq<string>) returns (u: string)
      requires StartsOf(starts, pending) && |starts| == |pending| && forall v :: v in pending ==> v !in book
      requires exists k :: 0 <= k < |pending| && pending[k] in Futures(starts) && Futures(starts)[pending[k]].Raised?
      ensures u in pending && u !in Extend(book, Futures(starts), pending) && SomeRaised(starts)
    {
      hide Extend, Futures;
      var k :| 0 <= k < |pending| && pending[k] in Futures(starts) && Futures(starts)[pending[k]].Raised?;
      u := pending[k];
      var _ := FuturesComeFromStarts(starts, u);
      ExtendEntry(book, Futures(starts), pending, u);
    }

    /** The loop over the finished futures. */
    static method CollectFutures(book: Book, futures: map<string, Exec<Identity>>, pending: seq<string>)
      returns (extended: Book, failed: bool)
      requires forall k :: 0 <= k < |pending| ==> pending[k] in futures && !futures[pending[k]].Killed?
      ensures extended == Extend(book, futures, pending)
      ensures failed <==> exists k :: 0 <= k < |pending| && futures[pending[k]].Raised?
    {
      extended, failed := book, false;
      var i := 0;
      assert pending[..0] == [];
      while i < |pending|
        invariant 0 <= i <= |pending| && extended == Extend(book, futures, pending[..i])
        invariant failed <==> exists k :: 0 <= k < i && futures[pending[k]].Raised?
      {
        assert pending[..i + 1][..i] == pending[..i];
        assert pending[..i + 1][|pending[..i + 1]| - 1] == pending[i];
        ghost var was := extended;
        assert Extend(book, futures, pending[..i + 1])
            == if futures[pending[i]].Returned? then was[pending[i] := futures[pending[i]].value] else was;
        match futures[pending[i]]
        {
          case Returned(id) => extended := extended[pending[i] := id];
          case _ => failed := true;
        }
        i := i + 1;
      }
      assert pending[..i] == pending;
    }

    static lemma LaunchedAmong(launched: seq<string>, starts: seq<Start>, pending: seq<string>)
      requires LaunchedFor(launched, starts, pending)
      ensures forall u :: u in launched ==> u in pending
      ensures Distinct(pending) ==> Distinct(launched)
    {
    }

    static lemma LaunchedIfReturned(launched: seq<string>, starts: seq<Start>, pending: seq<string>, u: string)
      requires LaunchedFor(launched, starts, pending) && u in Futures(starts) && Futures(starts)[u].Returned?
      ensures u in launched
    {
      var i := FuturesComeFromStarts(starts, u);
    }

    /** A collected future is a result or an exception. */
    static lemma FutureOf(starts: seq<Start>, pending: seq<string>, i: nat)
      requires StartsOf(starts, pending) && i < |starts|
      ensures pending[i] in Futures(starts) && !Futures(starts)[pending[i]].Killed?
    {
      FuturesHold(starts, i);
      var k := FuturesComeFromStarts(starts, pending[i]);
    }

    /** `_enable`. */
    method Enable(requested: seq<string>, identities: Book) returns (r: Exec<Response>)
      requires Valid() && BookOf(stateFile) == Some(identities) && ValidBook(identities) && AllValid(requested)
      modifies this, provider, provider.kernel`table, provider.kernel`kills, provider.kernel`startFaults,
        provider.kernel`spawned, provider.kernel`devices, provider.kernel`ready
      ensures Valid() && Evolves(old(provider.kernel.table), provider.kernel.table)
      ensures provider.kernel.kills == old(provider.kernel.kills) + if r.Killed? then 1 else 0
      ensures fileFaults == old(fileFaults) + if r == Raised(StateUnwritable) then 1 else 0
      ensures old(recorded) <= recorded && BookOf(stateFile).Some?
      ensures OthersUntouched(old(stateFile), stateFile, requested)
      ensures old(provider.launched) <= provider.launched && old(provider.started) <= provider.started
      ensures LaunchedOnlyDead(identities, requested, provider.launched[|old(provider.launched)|..], provider.kernel.table)
      ensures r.Raised? ==> r.cause in {StartFailed, StateUnwritable}
      ensures r.Returned? ==> Answers(r.value, requested, true)
      ensures r.Returned? ==> EnableOutcomes(r.value, identities, stateFile, provider.launched[|old(provider.launched)|..],
                                             old(provider.kernel.table), provider.kernel.table)
      ensures old(provider.kernel.spawned) <= provider.kernel.spawned
      ensures r == Raised(StartFailed) ==>
                && (exists u :: u in requested && Entry(stateFile, u).None?)
                && StartsFaulted(provider.kernel.table, provider.kernel.startFaults - old(provider.kernel.startFaults),
                                 provider.kernel.spawned[|old(provider.kernel.spawned)|..])
      ensures (r.Returned? || r == Raised(StartFailed)) && Distinct(requested) ==>
                forall p :: p in provider.started[|old(provider.started)|..] ==> Entry(stateFile, p.0) == Some(p.1)
      ensures stateFile == old(stateFile) || NeedsStart(identities, requested, provider.kernel.table)
    {
      hide BookOf, Evolves, ValidTable, Consistent, Known, Alive, ValidEntry, Distinct, ValidBook, AllKnown, KeepsLive,
        NeedsStart, Shrunk, OthersUntouched, LaunchedOnlyDead, EnableOutcomes, Answers, RestSeen, StartsFaulted;
      ghost var file0, t0, l0 := stateFile, provider.kernel.table, provider.launched;
      var dropped := DropDead(requested, identities);
      ghost var t1 := provider.kernel.table;
      assert provider.launched[|l0|..] == [];
      DistinctNothing();
      AfterStarts(file0, stateFile, identities, BookOf(stateFile).value, requested, [], [], t1);
      if dropped.IsFailure() {
        return dropped.PropagateFailure();
      }
      var (book, pending) := dropped.value;
      PendingValid(requested, pending);
      if pending != [] {
        var done, _ := StartPending(requested, pending, book);
        EvolvesTransitive(t0, t1, provider.kernel.table);
        ShrunkEvolves(identities, book, requested, t1, provider.kernel.table);
        RestSeenEvolves(t0, t1, provider.kernel.table, requested, pending, book);
        AfterStarts(file0, stateFile, identities, book, requested, pending, provider.launched[|l0|..], provider.kernel.table);
        assert pending[0] in pending;
        PendingNeedsStart(identities, book, requested, provider.kernel.table, pending[0]);
        if done.IsFailure() {
          return done.PropagateFailure();
        }
      }
      var results := seq(|requested|, i requires 0 <= i < |requested| =>
        GpuResult(requested[i], Running, if requested[i] in pending then DidStart else Unchanged));
      r := Returned(Response(true, results));
      EnabledAnswers(r.value, requested, pending, stateFile, identities, book, provider.launched[|l0|..],
        t0, provider.kernel.table);
    }

    /** After dropping dead entries and starting the pending GPUs no other entry has changed, and the starts were due. */
    static lemma AfterStarts(file: Option<string>, now: Option<string>, b0: Book, b: Book, requested: seq<string>,
                             pending: seq<string>, launched: seq<string>, t: Table)
      requires BookOf(file) == Some(b0) && BookOf(now).Some? && Shrunk(b0, b, requested, t)
      requires forall u :: u in pending ==> u in requested && u !in b
      requires forall u :: u !in pending ==>
                 (u in BookOf(now).value <==> u in b) && (u in b ==> BookOf(now).value[u] == b[u])
      requires (forall u :: u in launched ==> u in pending) && (Distinct(requested) ==> Distinct(launched))
      ensures OthersUntouched(file, now, requested) && LaunchedOnlyDead(b0, requested, launched, t)
    {
      hide BookOf, Alive, Known, Distinct;
      forall u | u !in requested ensures Entry(now, u) == Entry(file, u) {
      }
    }

    static lemma EnabledAnswers(r: Response, requested: seq<string>, pending: seq<string>, now: Option<string>, b0: Book,
                                b: Book, launched: seq<string>, before: Table, t: Table)
      requires RestSeen(before, t, requested, pending, b)
      requires BookOf(now).Some? && Shrunk(b0, b, requested, t) && r.enabled && |r.results| == |requested|
      requires forall i :: 0 <= i < |requested| ==>
                 r.results[i] == GpuResult(requested[i], Running, if requested[i] in pending then DidStart else Unchanged)
      requires forall u :: u in requested ==> u in pending || u in b
      requires forall u :: u !in pending && u in b ==> u in BookOf(now).value && BookOf(now).value[u] == b[u]
      requires forall u :: u in pending ==> u in BookOf(now).value && u in launched
      requires forall u :: u in launched ==> u in pending
      ensures Answers(r, requested, true) && EnableOutcomes(r, b0, now, launched, before, t)
    {
      hide BookOf, Alive, Known, Seen;
      assert Uuids(r.results) == requested;
      forall x | x in r.results
        ensures Entry(now, x.gpuUuid).Some?
        ensures x.gpuUuid in launched ==> x.outcome.DidStart?
        ensures x.gpuUuid !in launched ==>
                  x.outcome.Unchanged? && x.gpuUuid in b0 && Entry(now, x.gpuUuid) == Some(b0[x.gpuUuid])
                  && Seen(before, t, b0[x.gpuUuid])
      {
        var i :| 0 <= i < |requested| && r.results[i] == x;
        assert requested[i] in requested;
      }
    }

    static lemma PendingValid(requested: seq<string>, pending: seq<string>)
      requires AllValid(requested) && forall u :: u in requested <==> u in pending || (u in requested && u !in pending)
      requires forall u :: u in pending ==> u in requested
      ensures AllValid(pending)
    {
      forall i | 0 <= i < |pending| ensures ValidUuid(pending[i]) {
        assert pending[i] in requested;
      }
    }

    /** One turn of `_disable` for a GPU with an entry. */
    method StopRecorded(uuid: string, book: Book, ghost b0: Book, ghost requested: seq<string>) returns (r: Exec<()>)
      requires Valid() && BookOf(stateFile) == Some(book) && ValidBook(book)
      requires uuid in book && uuid in requested && uuid in b0 && b0[uuid] == book[uuid]
      modifies this, provider.kernel`table, provider.kernel`kills, provider.kernel`calls, provider.kernel`delivered
      ensures Valid() && Evolves(old(provider.kernel.table), provider.kernel.table)
      ensures provider.kernel.kills == old(provider.kernel.kills) + if r.Killed? then 1 else 0
      ensures fileFaults == old(fileFaults) + if r == Raised(StateUnwritable) then 1 else 0
      ensures old(recorded) <= recorded
      ensures r.Raised? ==> r.cause in {WorkerFailure, StateUnwritable}
      ensures old(provider.kernel.calls) <= provider.kernel.calls
      ensures r == Raised(WorkerFailure) ==>
                |provider.kernel.calls| > |old(provider.kernel.calls)| && LastFails(provider.kernel.calls)
      ensures BookOf(stateFile) == Some(book) || BookOf(stateFile) == Some(book - {uuid})
      ensures r.Returned? ==> BookOf(stateFile) == Some(book - {uuid}) && ValidBook(book - {uuid})
      ensures old(provider.kernel.delivered) <= provider.kernel.delivered
      ensures SignalsOnly(b0, requested, provider.kernel.table, provider.kernel.delivered[|old(provider.kernel.delivered)|..])
    {
      hide BookOf, Evolves, ValidTable, Consistent, Known, Alive, SignalsOnly, LastFails;
      ghost var t0, d0 := provider.kernel.table, provider.kernel.delivered;
      var id := book[uuid];
      BookKnown(recorded, t0, stateFile, book);
      var running := provider.IsRunning(id);
      ghost var t1 := provider.kernel.table;
      ConsistentEvolves(recorded, t0, t1, stateFile);
      NoSignals(b0, requested, t1);
      assert provider.kernel.delivered[|d0|..] == [];
      if running.IsFailure() {
        return running.PropagateFailure();
      }
      if running.value {
        var stopped := provider.Stop(id);
        EvolvesTransitive(t0, t1, provider.kernel.table);
        ConsistentEvolves(recorded, t1, provider.kernel.table, stateFile);
        NoSignals(b0, requested, provider.kernel.table);
        assert [] + provider.kernel.delivered[|d0|..] == provider.kernel.delivered[|d0|..];
        SignalsMore(b0, requested, provider.kernel.table, [], provider.kernel.delivered[|d0|..], uuid);
        if stopped.IsFailure() {
          return stopped.PropagateFailure();
        }
      } else {
        assert running == Returned(false);
      }
      ghost var t2 := provider.kernel.table;
      BookKnown(recorded, t2, stateFile, book);
      assert !Alive(t2, id);
      ShrunkNothing(book, requested, t2);
      DropOne(recorded, t2, stateFile, book, book, requested, uuid);
      r := WriteIdentities(book - {uuid});
      EvolvesTransitive(t0, t2, provider.kernel.table);
      SignalsEvolve(b0, requested, t2, provider.kernel.table, provider.kernel.delivered[|d0|..]);
    }

    static lemma NoSignals(b0: Book, requested: seq<string>, t: Table)
      ensures SignalsOnly(b0, requested, t, [])
    {
    }

    /** `_disable`. */
    method Disable(requested: seq<string>, identities: Book) returns (r: Exec<Response>)
      requires Valid() && BookOf(stateFile) == Some(identities) && ValidBook(identities) && AllValid(requested)
      modifies this, provider.kernel`table, provider.kernel`kills, provider.kernel`calls, provider.kernel`delivered
      ensures Valid() && Evolves(old(provider.kernel.table), provider.kernel.table)
      ensures provider.kernel.kills == old(provider.kernel.kills) + if r.Killed? then 1 else 0
      ensures fileFaults == old(fileFaults) + if r == Raised(StateUnwritable) then 1 else 0
      ensures old(recorded) <= recorded && BookOf(stateFile).Some?
      ensures r.Raised? ==> r.cause in {WorkerFailure, StateUnwritable}
      ensures old(provider.kernel.calls) <= provider.kernel.calls
      ensures r == Raised(WorkerFailure) ==>
                |provider.kernel.calls| > |old(provider.kernel.calls)| && LastFails(provider.kernel.calls)
      ensures OthersUntouched(old(stateFile), stateFile, requested)
      ensures old(provider.kernel.delivered) <= provider.kernel.delivered
      ensures SignalsOnly(identities, requested, provider.kernel.table,
                          provider.kernel.delivered[|old(provider.kernel.delivered)|..])
      ensures r.Returned? ==> Answers(r.value, requested, false) && forall u :: u in requested ==> Entry(stateFile, u).None?
      ensures r.Returned? ==> |r.value.results| == |requested| && DisableOutcomes(r.value.results, identities, requested)
      ensures stateFile == old(stateFile) || exists u :: u in requested && u in identities
    {
      hide BookOf, Evolves, ValidTable, Consistent, SignalsOnly, ValidBook, DisableOutcomes, ToSet,
        LastFails;
      var book := identities;
      var results: seq<GpuResult> := [];
      ghost var t0, d0 := provider.kernel.table, provider.kernel.delivered;
      EvolvesReflexive(t0);
      NoSignals(identities, requested, t0);
      NoOutcomes(identities, requested);
      assert provider.kernel.delivered[|d0|..] == [];
      var i := 0;
      while i < |requested|
        invariant 0 <= i <= |requested| && |results| == i
        invariant provider.kernel.kills == old(provider.kernel.kills) && fileFaults == old(fileFaults)
        invariant old(provider.kernel.calls) <= provider.kernel.calls
        invariant Valid() && Evolves(t0, provider.kernel.table) && old(recorded) <= recorded
        invariant BookOf(stateFile) == Some(book) && ValidBook(book)
        invariant book == identities - ToSet(requested[..i])
        invariant DisableOutcomes(results, identities, requested)
        invariant d0 <= provider.kernel.delivered
        invariant SignalsOnly(identities, requested, provider.kernel.table, provider.kernel.delivered[|d0|..])
        invariant stateFile == old(stateFile) || exists u :: u in requested && u in identities
      {
        var uuid := requested[i];
        assert requested[..i + 1] == requested[..i] + [uuid];
        ToSetSnoc(requested[..i], uuid);
        OutcomesSnoc(results, identities, requested);
        if uuid !in book {
          results := results + [GpuResult(uuid, Stopped, Unchanged)];
          i := i + 1;
          continue;
        }
        ghost var t1, d1 := provider.kernel.table, provider.kernel.delivered;
        var stopped := StopRecorded(uuid, book, identities, requested);
        EvolvesTransitive(t0, t1, provider.kernel.table);
        SignalsJoin(identities, requested, t1, provider.kernel.table, d0, d1, provider.kernel.delivered);
        if stopped.IsFailure() {
          SeenAreRequested(requested, i);
          return stopped.PropagateFailure();
        }
        book := book - {uuid};
        results := results + [GpuResult(uuid, Stopped, DidStop)];
        i := i + 1;
      }
      assert requested[..i] == requested;
      StoppedAnswers(results, identities, requested);
      return Returned(Response(false, results));
    }

    static lemma SeenAreRequested(requested: seq<string>, i: nat)
      requires i <= |requested|
      ensures forall u :: u in ToSet(requested[..i]) ==> u in requested
    {
    }

    static lemma NoOutcomes(b0: Book, requested: seq<string>)
      ensures DisableOutcomes([], b0, requested) && ToSet(requested[..0]) == {}
    {
    }

    static lemma OutcomesSnoc(results: seq<GpuResult>, b0: Book, requested: seq<string>)
      requires |results| < |requested| && DisableOutcomes(results, b0, requested)
      ensures var u := requested[|results|];
        var outcome := if u in b0 && u !in ToSet(requested[..|results|]) then DidStop else Unchanged;
        DisableOutcomes(results + [GpuResult(u, Stopped, outcome)], b0, requested)
    {
    }

    static lemma StoppedAnswers(results: seq<GpuResult>, b0: Book, requested: seq<string>)
      requires |results| == |requested| && DisableOutcomes(results, b0, requested)
      ensures Answers(Response(false, results), requested, false)
      ensures forall u :: u in requested <==> u in ToSet(requested)
    {
      assert Uuids(results) == requested;
    }

    static lemma SignalsJoin(b0: Book, requested: seq<string>, a: Table, c: Table, d0: seq<Delivery>, d1: seq<Delivery>,
                             d2: seq<Delivery>)
      requires Evolves(a, c) && d0 <= d1 <= d2
      requires SignalsOnly(b0, requested, a, d1[|d0|..]) && SignalsOnly(b0, requested, c, d2[|d1|..])
      ensures SignalsOnly(b0, requested, c, d2[|d0|..])
    {
      SignalsEvolve(b0, requested, a, c, d1[|d0|..]);
      assert d2[|d0|..] == d1[|d0|..] + d2[|d1|..];
    }

    /** `attest_workers`: evidence for every requested GPU, or an exception; nothing is changed. `driverPids` is what the
        driver's process list gives for each GPU, with no entry where the lookup fails. */
    method AttestWorkers(requested: seq<string>, driverPids: map<string, int>) returns (r: Exec<seq<Attestation>>)
      requires Valid()
      modifies provider.kernel`table, provider.kernel`kills
      ensures Valid() && Evolves(old(provider.kernel.table), provider.kernel.table)
      ensures provider.kernel.kills == old(provider.kernel.kills) + if r.Killed? then 1 else 0
      ensures r == Raised(BadRequest) <==> !AllValid(requested) || requested == [] || !Distinct(requested)
      ensures r.Raised? ==> r.cause in {BadRequest, StateUnreadable, WorkerFailure}
      ensures r == Raised(StateUnreadable) <==>
                AllValid(requested) && requested != [] && Distinct(requested)
                && (legacyPresent || BookOf(stateFile).None?)
      ensures r == Raised(WorkerFailure) ==>
                exists u :: u in requested && NoEvidence(u, BookOf(stateFile).value, driverPids, provider.kernel.table)
      ensures r.Returned? ==> !legacyPresent && BookOf(stateFile).Some?
      ensures r.Returned? ==> |r.value| == |requested| && forall i :: 0 <= i < |requested| ==>
                && Attested(r.value[i], requested[i], BookOf(stateFile).value, old(provider.kernel.table),
                            provider.kernel.table)
                && requested[i] in driverPids && r.value[i].driverPid == driverPids[requested[i]] > 0
    {
      hide BookOf, Evolves, ValidTable, Consistent, Known, Alive, ValidBook, ValidUuid, Distinct, Seen;
      DistinctByCount(requested);
      EvolvesReflexive(provider.kernel.table);
      if !AllValid(requested) || requested == [] || |ToSet(requested)| != |requested| {
        return Raised(BadRequest);
      }
      var book :- ReadIdentities();
      var workers: seq<Attestation> := [];
      ghost var t0 := provider.kernel.table;
      EvolvesReflexive(t0);
      var i := 0;
      while i < |requested|
        invariant 0 <= i <= |requested| && |workers| == i
        invariant Valid() && Evolves(t0, provider.kernel.table) && provider.kernel.kills == old(provider.kernel.kills)
        invariant forall k :: 0 <= k < i ==> Attested(workers[k], requested[k], book, t0, provider.kernel.table)
        invariant forall k :: 0 <= k < i ==>
                    requested[k] in driverPids && workers[k].driverPid == driverPids[requested[k]] > 0
      {
        var uuid := requested[i];
        assert uuid in requested;
        if uuid !in book {
          assert NoEvidence(uuid, book, driverPids, provider.kernel.table);
          return Raised(WorkerFailure);
        }
        ghost var t1 := provider.kernel.table;
        EntryWellFormed(book, uuid);
        var running := provider.IsRunning(book[uuid]);
        ghost var t2 := provider.kernel.table;
        EvolvesTransitive(t0, t1, t2);
        ConsistentEvolves(recorded, t1, t2, stateFile);
        if running.IsFailure() {
          return running.PropagateFailure();
        }
        if !running.value {
          assert running == Returned(false);
          assert NoEvidence(uuid, book, driverPids, provider.kernel.table);
          return Raised(WorkerFailure);
        }
        if uuid !in driverPids || driverPids[uuid] <= 0 {
          assert NoEvidence(uuid, book, driverPids, provider.kernel.table);
          return Raised(WorkerFailure);
        }
        assert running == Returned(true);
        EvolvesReflexive(t1);
        EvolvesReflexive(t2);
        SeenAlong(t0, t1, t2, t2, book[uuid]);
        forall k | 0 <= k < i ensures Attested(workers[k], requested[k], book, t0, t2) {
          EvolvesReflexive(t0);
          SeenAlong(t0, t0, t1, t2, workers[k].identity);
        }
        workers := workers + [Attestation(uuid, book[uuid], driverPids[uuid])];
        i := i + 1;
      }
      return Returned(workers);
    }

    static lemma EntryWellFormed(b: Book, uuid: string)
      requires ValidBook(b) && uuid in b
      ensures WellFormed(b[uuid])
    {
    }

    /** `set_enabled` behind the file lock: one helper call. */
    method SetEnabled(enabled: bool, requested: seq<string>, known: set<string>) returns (r: Exec<Response>)
      requires Valid()
      modifies this, provider, provider.kernel
      ensures Valid() && Evolves(old(provider.kernel.table), provider.kernel.table)
      ensures provider.kernel.kills == old(provider.kernel.kills) + if r.Killed? then 1 else 0
      ensures fileFaults == old(fileFaults) + if r == Raised(StateUnwritable) then 1 else 0
      ensures old(recorded) <= recorded
      ensures BookOf(old(stateFile)).Some? ==> BookOf(stateFile).Some?
      ensures OthersUntouched(old(stateFile), stateFile, requested)
      ensures old(provider.launched) <= provider.launched && old(provider.started) <= provider.started
      ensures old(provider.kernel.delivered) <= provider.kernel.delivered
      ensures !enabled ==> provider.launched == old(provider.launched) && provider.started == old(provider.started)
      ensures enabled ==> provider.kernel.delivered == old(provider.kernel.delivered)
      ensures (r.Raised? && r.cause in {BadRequest, StateUnreadable}) || BookOf(old(stateFile)).None? ==>
                stateFile == old(stateFile) && provider.launched == old(provider.launched)
                && provider.kernel.delivered == old(provider.kernel.delivered)
      ensures BookOf(old(stateFile)).Some? ==> var b0 := BookOf(old(stateFile)).value;
                && LaunchedOnlyDead(b0, requested, provider.launched[|old(provider.launched)|..], provider.kernel.table)
                && SignalsOnly(b0, requested, provider.kernel.table,
                               provider.kernel.delivered[|old(provider.kernel.delivered)|..])
                && (enabled ==> stateFile == old(stateFile) || NeedsStart(b0, requested, provider.kernel.table))
                && (!enabled ==> stateFile == old(stateFile) || exists u :: u in requested && u in b0)
      ensures r == Raised(BadRequest) <==> BadTargets(requested, known)
      ensures r == Raised(StateUnreadable) <==>
                !BadTargets(requested, known) && (legacyPresent || BookOf(old(stateFile)).None?)
      ensures enabled ==> r != Raised(WorkerFailure) && provider.kernel.calls == old(provider.kernel.calls)
      ensures !enabled ==> r != Raised(StartFailed)
      ensures old(provider.kernel.calls) <= provider.kernel.calls
      ensures r == Raised(WorkerFailure) ==>
                |provider.kernel.calls| > |old(provider.kernel.calls)| && LastFails(provider.kernel.calls)
      ensures old(provider.kernel.spawned) <= provider.kernel.spawned
      ensures r == Raised(StartFailed) ==>
                && (exists u :: u in requested && Entry(stateFile, u).None?)
                && StartsFaulted(provider.kernel.table, provider.kernel.startFaults - old(provider.kernel.startFaults),
                                 provider.kernel.spawned[|old(provider.kernel.spawned)|..])
      ensures r.Returned? ==> BookOf(old(stateFile)).Some? && !BadTargets(requested, known)
      ensures r.Returned? ==> Answers(r.value, requested, enabled)
      ensures r.Returned? && enabled ==> EnableOutcomes(r.value, BookOf(old(stateFile)).value, stateFile,
                provider.launched[|old(provider.launched)|..], old(provider.kernel.table), provider.kernel.table)
      ensures r.Returned? && !enabled ==>
                |r.value.results| == |requested| && DisableOutcomes(r.value.results, BookOf(old(stateFile)).value, requested)
      ensures (r.Returned? || r == Raised(StartFailed)) && Distinct(requested) ==>
                forall p :: p in provider.started[|old(provider.started)|..] ==> Entry(stateFile, p.0) == Some(p.1)
      ensures r.Returned? ==> forall u :: u in requested ==> (Entry(stateFile, u).Some? <==> enabled)
    {
      hide BookOf, Evolves, ValidTable, Consistent, Known, Alive, ValidBook, ValidUuid, Distinct, NeedsStart,
        DisableOutcomes, StartsFaulted, LastFails, EnableOutcomes;
      assert provider.launched[|provider.launched|..] == [];
      assert provider.started[|provider.started|..] == [];
      assert provider.kernel.delivered[|provider.kernel.delivered|..] == [];
      DistinctNothing();
      EvolvesReflexive(provider.kernel.table);
      if !AllValid(requested) || requested == [] {
        return Raised(BadRequest);
      }
      if exists u :: u in requested && u !in known {
        return Raised(BadRequest);
      }
      var identities :- ReadIdentities();
      if enabled {
        r := Enable(requested, identities);
        NoSignals(identities, requested, provider.kernel.table);
        if r.Returned? {
          EnabledEntries(r.value, identities, stateFile, provider.launched[|old(provider.launched)|..],
                         old(provider.kernel.table), provider.kernel.table, requested);
        }
      } else {
        r := Disable(requested, identities);
      }
    }

    /** A request that is refused before anything is read. */
    static predicate BadTargets(requested: seq<string>, known: set<string>) {
      !AllValid(requested) || requested == [] || exists u :: u in requested && u !in known
    }

    /** The same call made twice, with anything happening on the host in between. After a successful enable whose
        workers still run at the end, the second enable starts nothing, keeps the file and answers `Unchanged`;
        after a successful disable, the second disable signals nothing, keeps the file and answers `Unchanged`. */
    method Repeat(enabled: bool, requested: seq<string>, known: set<string>)
      returns (first: Exec<Response>, second: Exec<Response>, ghost file: Option<string>, ghost launched: seq<string>,
               ghost delivered: seq<Delivery>)
      requires Valid()
      modifies this, provider, provider.kernel
      ensures Valid()
      ensures first.Returned? && !enabled ==>
                && NoneRecorded(file, requested) && stateFile == file
                && provider.launched == launched && provider.kernel.delivered == delivered
      ensures first.Returned? && enabled && AllRun(file, requested, provider.kernel.table) ==>
                stateFile == file && provider.launched == launched && provider.kernel.delivered == delivered
      ensures first.Returned? && second.Returned? && (enabled ==> AllRun(file, requested, provider.kernel.table)) ==>
                Answers(second.value, requested, enabled) && AllUnchanged(second.value.results)
    {
      hide BookOf, Evolves, ValidTable, Consistent, Known, Alive, NeedsStart, LaunchedOnlyDead, SignalsOnly,
        DisableOutcomes, Answers, AllRun;
      first := SetEnabled(enabled, requested, known);
      file, launched, delivered := stateFile, provider.launched, provider.kernel.delivered;
      ghost var t := provider.kernel.table;
      var _ := provider.kernel.Interfere();
      ConsistentEvolves(recorded, t, provider.kernel.table, stateFile);
      second := SetEnabled(enabled, requested, known);
      if first.Returned? {
        ghost var b0 := BookOf(file).value;
        ghost var more, sent := provider.launched[|launched|..], provider.kernel.delivered[|delivered|..];
        if !enabled {
          NoneInBook(file, b0, requested);
          NothingToStop(b0, requested, provider.kernel.table, sent, if second.Returned? then second.value.results else []);
          assert delivered + sent == provider.kernel.delivered;
        } else if AllRun(file, requested, provider.kernel.table) {
          NothingToStart(file, b0, requested, more, provider.kernel.table);
          assert launched + more == provider.launched;
        }
      }
    }

    static lemma NoneInBook(file: Option<string>, b0: Book, requested: seq<string>)
      requires BookOf(file) == Some(b0) && NoneRecorded(file, requested)
      ensures forall u :: u in requested ==> u !in b0
    {
      hide BookOf;
      forall u | u in requested ensures u !in b0 {
        assert Entry(file, u).None?;
      }
    }

    static lemma EnabledEntries(r: Response, b0: Book, file: Option<string>, launched: seq<string>, before: Table,
                               after: Table, requested: seq<string>)
      requires Answers(r, requested, true) && EnableOutcomes(r, b0, file, launched, before, after)
      ensures forall u :: u in requested ==> Entry(file, u).Some?
    {
      forall u | u in requested ensures Entry(file, u).Some? {
        var i :| 0 <= i < |requested| && requested[i] == u;
        assert r.results[i] in r.results;
      }
    }

    /** Any sequence of helper calls, each of which may be killed anywhere: a live worker once
        recorded stays recorded, and a readable state file stays readable. */
    method Serve(calls: seq<Request>, known: set<string>)
      requires Valid()
      modifies this, provider, provider.kernel
      ensures Valid() && old(recorded) <= recorded
      ensures forall p :: p in old(recorded) && Alive(provider.kernel.table, p.1) ==> Entry(stateFile, p.0) == Some(p.1)
      ensures BookOf(old(stateFile)).Some? ==> BookOf(stateFile).Some?
    {
      var i := 0;
      while i < |calls|
        invariant Valid() && old(recorded) <= recorded
        invariant BookOf(old(stateFile)).Some? ==> BookOf(stateFile).Some?
      {
        hide BookOf, ValidTable, Consistent, Evolves, LaunchedOnlyDead, Answers;
        var _ := SetEnabled(calls[i].enabled, calls[i].gpuUuids, known);
        i := i + 1;
      }
    }
  }
}
