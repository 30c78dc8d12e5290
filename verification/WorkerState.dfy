/** The helper's state file `workers.v3.json`: which worker process holds which GPU. */
module WorkerState {
  import opened Text
  import opened Json
  import opened KeepaliveProtocol
  import opened Processes

  /** The map from GPU UUID to worker identity. */
  type Book = map<string, Identity>

  predicate ValidEntry(uuid: string, id: Identity) {
    && ValidUuid(uuid) && WellFormed(id)
    && 0 < |id.boot| <= 128 && id.ticks > 0
  }

  predicate ValidBook(b: Book) {
    forall u :: u in b ==> ValidEntry(u, b[u])
  }

  // ----- writing -----

  function WorkerJson(uuid: string, id: Identity): Json {
    Obj([Member("gpu_uuid", Str(uuid)), Member("pid", Int(id.pid)), Member("boot_id", Str(id.boot)),
         Member("start_time_ticks", Int(id.ticks)), Member("worker_marker", Str(id.marker))])
  }

  function WorkersJson(b: Book, uuids: seq<string>): (vs: seq<Json>)
    requires forall u :: u in uuids ==> u in b
    ensures |vs| == |uuids| && forall i :: 0 <= i < |vs| ==> vs[i] == WorkerJson(uuids[i], b[uuids[i]])
  {
    seq(|uuids|, i requires 0 <= i < |uuids| => WorkerJson(uuids[i], b[uuids[i]]))
  }

  function StateMembers(b: Book): seq<Member> {
    [Member("schema_version", Int(SCHEMA_VERSION)), Member("workers", Arr(WorkersJson(b, Sorted(b.Keys))))]
  }

  function StateText(b: Book): string {
    Print(Obj(StateMembers(b)))
  }

  /** The empty map is stored by removing the file. */
  function FileOf(b: Book): Option<string> {
    if b == map[] then None else Some(StateText(b))
  }

  // ----- reading -----

  function ReadWorker(v: Json): Option<(string, Identity)> {
    if !v.Obj? then None
    else
      match (Lookup(v.members, "gpu_uuid"), Lookup(v.members, "pid"), Lookup(v.members, "boot_id"),
             Lookup(v.members, "start_time_ticks"), Lookup(v.members, "worker_marker"))
      case (Some(Str(uuid)), Some(Int(pid)), Some(Str(boot)), Some(Int(ticks)), Some(Str(marker))) =>
        if ValidEntry(uuid, Identity(pid, boot, ticks, marker)) then Some((uuid, Identity(pid, boot, ticks, marker)))
        else None
      case _ => None
  }

  /** One entry per worker record; a malformed record or a repeated GPU spoils the file. */
  function BookFrom(vs: seq<Json>): Option<Book> {
    if vs == [] then Some(map[])
    else
      match (BookFrom(vs[..|vs| - 1]), ReadWorker(vs[|vs| - 1]))
      case (Some(b), Some((uuid, id))) => if uuid in b then None else Some(b[uuid := id])
      case _ => None
  }

  /** The worker records of a version 3 document. */
  function Records(text: string): Option<seq<Json>> {
    match Read(text)
    case Some(Obj(members)) =>
      if Lookup(members, "schema_version") != Some(Int(SCHEMA_VERSION)) then None
      else
        (match Lookup(members, "workers")
         case Some(Arr(vs)) => Some(vs)
         case _ => None)
    case _ => None
  }

  /** What `_read_identities` makes of the file; a missing file is the empty map. */
  function BookOf(file: Option<string>): Option<Book> {
    match file
    case None => Some(map[])
    case Some(text) =>
      match Records(text)
      case None => None
      case Some(vs) => BookFrom(vs)
  }

  // ----- round trip -----

  lemma ReadWorkerOfJson(uuid: string, id: Identity)
    requires ValidEntry(uuid, id)
    ensures ReadWorker(WorkerJson(uuid, id)) == Some((uuid, id))
  {
    var ms := WorkerJson(uuid, id).members;
    hide Lookup, ValidEntry;
    LookupAt(ms, 0);
    LookupAt(ms, 1);
    LookupAt(ms, 2);
    LookupAt(ms, 3);
    LookupAt(ms, 4);
  }

  lemma BookFromNothing()
    ensures BookFrom([]) == Some(map[])
  {
  }

  lemma BookFromSnoc(vs: seq<Json>, v: Json, b: Book, uuid: string, id: Identity)
    requires BookFrom(vs) == Some(b) && ReadWorker(v) == Some((uuid, id)) && uuid !in b
    ensures BookFrom(vs + [v]) == Some(b[uuid := id])
  {
    hide ReadWorker;
    assert (vs + [v])[..|vs|] == vs;
  }

  function Restrict(b: Book, uuids: seq<string>): Book
    requires forall u :: u in uuids ==> u in b
  {
    map u | u in uuids :: b[u]
  }

  lemma {:induction false} BookFromWorkers(b: Book, uuids: seq<string>)
    requires ValidBook(b) && Distinct(uuids) && forall u :: u in uuids ==> u in b
    ensures BookFrom(WorkersJson(b, uuids)) == Some(Restrict(b, uuids))
  {
    hide ReadWorker, WorkerJson, BookFrom, ValidEntry;
    if uuids == [] {
      assert WorkersJson(b, uuids) == [];
      BookFromNothing();
    } else {
      var last, front := uuids[|uuids| - 1], uuids[..|uuids| - 1];
      BookFromWorkers(b, front);
      ReadWorkerOfJson(last, b[last]);
      assert WorkersJson(b, uuids) == WorkersJson(b, front) + [WorkerJson(last, b[last])];
      assert uuids == front + [last] && last !in front;
      BookFromSnoc(WorkersJson(b, front), WorkerJson(last, b[last]), Restrict(b, front), last, b[last]);
      assert Restrict(b, uuids) == Restrict(b, front)[last := b[last]];
    }
  }

  lemma RecordsOfText(b: Book)
    ensures Records(StateText(b)) == Some(WorkersJson(b, Sorted(b.Keys)))
  {
    hide Print, Read, Lookup, WorkersJson;
    ReadOfPrint(Obj(StateMembers(b)));
    LookupAt(StateMembers(b), 0);
    LookupAt(StateMembers(b), 1);
  }

  /** Reading back any written map, the empty one included, returns it. */
  lemma BookOfFile(b: Book)
    requires ValidBook(b)
    ensures BookOf(FileOf(b)) == Some(b)
  {
    if b != map[] {
      var uuids := Sorted(b.Keys);
      hide StateText, Records, BookFrom, WorkersJson, ValidEntry;
      RecordsOfText(b);
      assert Distinct(uuids);
      BookFromWorkers(b, uuids);
      assert Restrict(b, uuids) == b;
    }
  }

  /** Whatever is read satisfies the entry checks. */
  lemma {:induction false} BookFromIsValid(vs: seq<Json>)
    requires BookFrom(vs).Some?
    ensures ValidBook(BookFrom(vs).value)
  {
    if vs != [] {
      BookFromIsValid(vs[..|vs| - 1]);
    }
  }

  // ----- what is accepted -----

  /** A worker record: the five fields, the last of a repeated one, holding what an identity may hold. */
  predicate RecordOf(v: Json, uuid: string, id: Identity) {
    && v.Obj?
    && Lookup(v.members, "gpu_uuid") == Some(Str(uuid)) && ValidUuid(uuid)
    && Lookup(v.members, "pid") == Some(Int(id.pid)) && id.pid > 0
    && Lookup(v.members, "boot_id") == Some(Str(id.boot)) && 1 <= |id.boot| <= 128
    && Lookup(v.members, "start_time_ticks") == Some(Int(id.ticks)) && id.ticks > 0
    && Lookup(v.members, "worker_marker") == Some(Str(id.marker)) && id.marker == "serverpilot-keepalive-worker-v3"
  }

  /** A version 3 document with these worker records. */
  predicate DocumentOf(v: Json, vs: seq<Json>) {
    && v.Obj? && Lookup(v.members, "schema_version") == Some(Int(3))
    && Lookup(v.members, "workers") == Some(Arr(vs))
  }

  ghost predicate HasEntry(b: Book, v: Json) {
    exists u :: u in b && RecordOf(v, u, b[u])
  }

  ghost predicate HasRecord(vs: seq<Json>, uuid: string, id: Identity) {
    exists i :: 0 <= i < |vs| && RecordOf(vs[i], uuid, id)
  }

  ghost predicate NoGpuTwice(vs: seq<Json>) {
    forall i, j, u, id, other :: 0 <= i < j < |vs| && RecordOf(vs[i], u, id) ==> !RecordOf(vs[j], u, other)
  }

  /** Every record is an entry of the map, every entry has a record, and no two records name one GPU. */
  ghost predicate Describes(vs: seq<Json>, b: Book) {
    && (forall i :: 0 <= i < |vs| ==> HasEntry(b, vs[i]))
    && (forall u :: u in b ==> HasRecord(vs, u, b[u]))
    && NoGpuTwice(vs)
  }

  lemma ReadWorkerIff(v: Json, uuid: string, id: Identity)
    ensures ReadWorker(v) == Some((uuid, id)) <==> RecordOf(v, uuid, id)
  {
    hide Lookup, ValidUuid;
  }

  lemma EntryStays(b: Book, next: Book, v: Json)
    requires HasEntry(b, v) && forall u :: u in b ==> u in next && next[u] == b[u]
    ensures HasEntry(next, v)
  {
    hide RecordOf;
  }

  lemma RecordStays(vs: seq<Json>, more: seq<Json>, uuid: string, id: Identity)
    requires HasRecord(vs, uuid, id) && vs <= more
    ensures HasRecord(more, uuid, id)
  {
    hide RecordOf;
    var i :| 0 <= i < |vs| && RecordOf(vs[i], uuid, id);
    assert more[i] == vs[i];
  }

  lemma LastRecord(vs: seq<Json>, v: Json, b: Book, uuid: string)
    requires uuid in b && RecordOf(v, uuid, b[uuid])
    ensures HasEntry(b, v) && HasRecord(vs + [v], uuid, b[uuid])
  {
    hide RecordOf;
    assert (vs + [v])[|vs|] == v;
  }

  lemma DescribesSnoc(vs: seq<Json>, v: Json, b: Book, uuid: string, id: Identity)
    requires Describes(vs, b) && RecordOf(v, uuid, id) && uuid !in b
    ensures Describes(vs + [v], b[uuid := id])
  {
    hide RecordOf, NoGpuTwice, HasEntry, HasRecord;
    var more, next := vs + [v], b[uuid := id];
    LastRecord(vs, v, next, uuid);
    forall i | 0 <= i < |vs| ensures HasEntry(next, vs[i]) {
      EntryStays(b, next, vs[i]);
    }
    forall u | u in b ensures HasRecord(more, u, b[u]) {
      RecordStays(vs, more, u, b[u]);
    }
    OneMoreGpu(vs, v, b, uuid, id);
  }

  lemma OneMoreGpu(vs: seq<Json>, v: Json, b: Book, uuid: string, id: Identity)
    requires Describes(vs, b) && RecordOf(v, uuid, id) && uuid !in b
    ensures NoGpuTwice(vs + [v])
  {
    hide RecordOf;
    var more := vs + [v];
    forall i, j, u, a, c | 0 <= i < j < |more| && RecordOf(more[i], u, a) ensures !RecordOf(more[j], u, c) {
      if j < |vs| {
        assert more[i] == vs[i] && more[j] == vs[j];
      } else if RecordOf(v, u, c) {
        assert HasEntry(b, vs[i]);
        var k :| k in b && RecordOf(vs[i], k, b[k]);
        OneRecord(vs[i], u, a, k, b[k]);
        OneRecord(v, u, c, uuid, id);
        assert false;
      }
    }
  }

  lemma OneRecord(v: Json, u: string, a: Identity, w: string, c: Identity)
    requires RecordOf(v, u, a) && RecordOf(v, w, c)
    ensures u == w && a == c
  {
    hide Lookup, ValidUuid;
  }

  lemma EntryRemains(vs: seq<Json>, i: nat, b: Book, uuid: string)
    requires i < |vs| - 1 && NoGpuTwice(vs) && HasEntry(b, vs[i])
    requires uuid in b && RecordOf(vs[|vs| - 1], uuid, b[uuid])
    ensures HasEntry(b - {uuid}, vs[i])
  {
    var u :| u in b && RecordOf(vs[i], u, b[u]);
    OtherGpu(vs, i, |vs| - 1, u, b[u], uuid, b[uuid]);
    assert (b - {uuid})[u] == b[u];
  }

  lemma RecordRemains(vs: seq<Json>, u: string, id: Identity, uuid: string, last: Identity)
    requires vs != [] && HasRecord(vs, u, id) && u != uuid && RecordOf(vs[|vs| - 1], uuid, last)
    ensures HasRecord(vs[..|vs| - 1], u, id)
  {
    var i :| 0 <= i < |vs| && RecordOf(vs[i], u, id);
    assert i < |vs| - 1;
    assert vs[..|vs| - 1][i] == vs[i];
  }

  lemma DescribesFront(vs: seq<Json>, b: Book) returns (uuid: string)
    requires vs != [] && Describes(vs, b)
    ensures uuid in b && RecordOf(vs[|vs| - 1], uuid, b[uuid])
    ensures Describes(vs[..|vs| - 1], b - {uuid})
  {
    uuid := EntryNamed(b, vs[|vs| - 1]);
    hide RecordOf, NoGpuTwice, HasEntry, HasRecord;
    var front, less := vs[..|vs| - 1], b - {uuid};
    forall i | 0 <= i < |front| ensures HasEntry(less, front[i]) {
      EntryRemains(vs, i, b, uuid);
    }
    forall u | u in less ensures HasRecord(front, u, less[u]) {
      RecordRemains(vs, u, b[u], uuid, b[uuid]);
    }
    FewerGpus(vs, front);
  }

  lemma EntryNamed(b: Book, v: Json) returns (uuid: string)
    requires HasEntry(b, v)
    ensures uuid in b && RecordOf(v, uuid, b[uuid])
  {
    uuid :| uuid in b && RecordOf(v, uuid, b[uuid]);
  }

  lemma OtherGpu(vs: seq<Json>, i: nat, j: nat, u: string, a: Identity, w: string, c: Identity)
    requires i < j < |vs| && NoGpuTwice(vs) && RecordOf(vs[i], u, a) && RecordOf(vs[j], w, c)
    ensures u != w
  {
  }

  lemma FewerGpus(vs: seq<Json>, front: seq<Json>)
    requires NoGpuTwice(vs) && front <= vs
    ensures NoGpuTwice(front)
  {
    hide RecordOf;
    forall i, j, u, a, c | 0 <= i < j < |front| && RecordOf(front[i], u, a) ensures !RecordOf(front[j], u, c) {
      assert RecordOf(vs[i], u, a);
    }
  }

  /** The records are read as this map exactly when they describe it. */
  lemma {:induction false} BookFromIff(vs: seq<Json>, b: Book)
    ensures BookFrom(vs) == Some(b) <==> Describes(vs, b)
  {
    hide RecordOf, ReadWorker, NoGpuTwice, Describes;
    if vs == [] {
      DescribesNothing(b);
      return;
    }
    var front, last := vs[..|vs| - 1], vs[|vs| - 1];
    assert vs == front + [last];
    if BookFrom(vs) == Some(b) {
      var before := BookFrom(front).value;
      var (uuid, id) := ReadWorker(last).value;
      BookFromIff(front, before);
      ReadWorkerIff(last, uuid, id);
      DescribesSnoc(front, last, before, uuid, id);
    }
    if Describes(vs, b) {
      var uuid := DescribesFront(vs, b);
      BookFromIff(front, b - {uuid});
      ReadWorkerIff(last, uuid, b[uuid]);
      assert (b - {uuid})[uuid := b[uuid]] == b;
    }
  }

  lemma DescribesNothing(b: Book)
    ensures Describes([], b) <==> b == map[]
  {
    hide RecordOf;
    forall u | u in b ensures !HasRecord([], u, b[u]) {
    }
    assert b.Keys == {} ==> b == map[];
  }

  /** A file is read as a map exactly when it holds a version 3 document whose records describe that map; anything else
      is refused. */
  lemma AcceptedIff(text: string, b: Book)
    ensures BookOf(Some(text)) == Some(b) <==>
            exists vs :: Read(text).Some? && DocumentOf(Read(text).value, vs) && Describes(vs, b)
  {
    hide Read, Lookup, BookFrom, Describes;
    match Records(text) {
      case Some(vs) => BookFromIff(vs, b);
      case None =>
    }
  }

  /** The same for a document in the compact encoding, stated on the document alone. */
  lemma DocumentAcceptedIff(v: Json, b: Book)
    ensures BookOf(Some(Print(v))) == Some(b) <==> exists vs :: DocumentOf(v, vs) && Describes(vs, b)
  {
    ReadOfPrint(v);
    hide Print, Read, BookOf, DocumentOf, Describes;
    AcceptedIff(Print(v), b);
  }
}
