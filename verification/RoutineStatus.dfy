/** The routine GPU status: rows, busy rows and servers, with telemetry windows stated once per server. */
module RoutineStatus {
  import opened Text
  import opened Json

  /** The rolling-average window of one GPU observation; at least one part is known. */
  datatype Window = Window(seconds: Option<nat>, samples: Option<nat>, first: Option<string>, last: Option<string>)

  type ServerId = Option<string>

  /** One entry of the broker's GPU list. `task` is what the lease names, when there is a lease. */
  datatype Entry =
    | NotAnObject
    | Record(available: Json, status: Json, serverId: ServerId, gpuId: Json, task: Option<Json>, telemetry: Json)

  /** A row's telemetry: the payload it is projected from and the window that replaces the server's. */
  datatype Telemetry = Telemetry(source: Json, windowOverride: Option<Window>)

  datatype Row = Row(serverId: ServerId, gpuId: Json, status: string, telemetry: Option<Telemetry>,
                     available: Option<bool>, task: Option<Json>)
  datatype BusyRow = BusyRow(serverId: ServerId, gpuId: Json, status: string, task: Option<Json>)
  datatype Server = Server(serverId: ServerId, telemetryWindow: Option<Window>)
  datatype Status = Status(servers: seq<Server>, gpus: seq<Row>, busyGpus: seq<BusyRow>)

  // ----- windows -----

  function Positive(value: Option<Json>): Option<nat> {
    match value
    case Some(Int(n)) => if n > 0 then Some(n) else None
    case _ => None
  }

  function Words(value: Option<Json>): Option<string> {
    match value
    case Some(Str(s)) => if s != "" then Some(s) else None
    case _ => None
  }

  /** `_routine_telemetry_window`: nothing when no part of the window is known. */
  function TelemetryWindow(value: Option<Json>): (window: Option<Window>)
    ensures window.Some? ==> window.value != Window(None, None, None, None)
  {
    match value
    case Some(Obj(members)) =>
      var w := Window(Positive(Lookup(members, "window_seconds")), Positive(Lookup(members, "sample_count")),
                      Words(Lookup(members, "first_observed_at")), Words(Lookup(members, "last_observed_at")));
      if w == Window(None, None, None, None) then None else Some(w)
    case _ => None
  }

  predicate ValidWindow(w: Window) {
    && (w.seconds.Some? ==> w.seconds.value > 0) && (w.samples.Some? ==> w.samples.value > 0)
    && (w.first.Some? ==> w.first.value != "") && (w.last.Some? ==> w.last.value != "")
    && w != Window(None, None, None, None)
  }

  function NumberJson(n: Option<nat>): Json {
    if n.Some? then Int(n.value) else Null
  }

  function WordsJson(s: Option<string>): Json {
    if s.Some? then Str(s.value) else Null
  }

  /** How the broker writes a window. */
  function WindowMembers(w: Window): seq<Member> {
    [Member("window_seconds", NumberJson(w.seconds)), Member("sample_count", NumberJson(w.samples)),
     Member("first_observed_at", WordsJson(w.first)), Member("last_observed_at", WordsJson(w.last))]
  }

  /** A written window is read back, each part under its own name; what is read is always a window with a known part. */
  lemma WindowReads(w: Window, value: Option<Json>)
    ensures ValidWindow(w) ==> TelemetryWindow(Some(Obj(WindowMembers(w)))) == Some(w)
    ensures TelemetryWindow(value).Some? ==> ValidWindow(TelemetryWindow(value).value)
    ensures TelemetryWindow(Some(Obj(WindowMembers(Window(None, None, None, None))))) == None
  {
    WindowLookups(w);
    WindowLookups(Window(None, None, None, None));
    hide Lookup;
  }

  lemma WindowLookups(w: Window)
    ensures var ms := WindowMembers(w);
      && Lookup(ms, "window_seconds") == Some(NumberJson(w.seconds))
      && Lookup(ms, "sample_count") == Some(NumberJson(w.samples))
      && Lookup(ms, "first_observed_at") == Some(WordsJson(w.first))
      && Lookup(ms, "last_observed_at") == Some(WordsJson(w.last))
  {
    var ms := WindowMembers(w);
    hide Lookup;
    LookupAt(ms, 0);
    LookupAt(ms, 1);
    LookupAt(ms, 2);
    LookupAt(ms, 3);
  }

  /** The window one entry was observed in. */
  function WindowOf(telemetry: Json): Option<Window> {
    match telemetry
    case Obj(members) => TelemetryWindow(Lookup(members, "recent_average"))
    case _ => None
  }

  function Observed(windows: seq<Option<Window>>): seq<Window> {
    if windows == [] then []
    else
      var w := windows[|windows| - 1];
      Observed(windows[..|windows| - 1]) + if w.Some? then [w.value] else []
  }

  /** `_routine_shared_telemetry_window` */
  function SharedWindow(windows: seq<Option<Window>>): Option<Window> {
    var observed := Observed(windows);
    if observed == [] then None
    else if forall i :: 0 < i < |observed| ==> observed[i] == observed[0] then Some(observed[0])
    else None
  }

  lemma {:induction false} ObservedMembers(windows: seq<Option<Window>>)
    ensures forall w :: w in Observed(windows) <==> Some(w) in windows
  {
    if windows != [] {
      var front, last := windows[..|windows| - 1], windows[|windows| - 1];
      ObservedMembers(front);
      assert windows == front + [last];
    }
  }

  /** A server has a shared window exactly when some GPU was observed in it and every observed GPU was. */
  lemma SharedIff(windows: seq<Option<Window>>, w: Window)
    ensures SharedWindow(windows) == Some(w) <==> Some(w) in windows && forall x :: Some(x) in windows ==> x == w
  {
    ObservedMembers(windows);
    hide Observed;
    var observed := Observed(windows);
    if SharedWindow(windows) == Some(w) {
      assert observed[0] in observed;
    }
    if Some(w) in windows && forall x :: Some(x) in windows ==> x == w {
      forall i | 0 <= i < |observed| ensures observed[i] == w {
        assert observed[i] in observed;
      }
    }
  }

  // ----- rows -----

  predicate Invalid(e: Entry) {
    e.Record? && (!e.available.Bool? || !e.status.Str? || e.status.s == "")
  }

  /** Whether a record becomes a full row; otherwise it becomes a busy row. */
  predicate Shown(e: Entry, includeBusy: bool) {
    e.Record? && !Invalid(e) && (e.available.b || includeBusy)
  }

  predicate Busy(e: Entry, includeBusy: bool) {
    e.Record? && !Invalid(e) && !e.available.b && !includeBusy
  }

  function RowOf(e: Entry, includeBusy: bool): Row
    requires Shown(e, includeBusy)
  {
    Row(e.serverId, e.gpuId, e.status.s, if e.telemetry.Obj? then Some(Telemetry(e.telemetry, None)) else None,
        if includeBusy then Some(e.available.b) else None, if includeBusy then e.task else None)
  }

  function BusyRowOf(e: Entry, includeBusy: bool): BusyRow
    requires Busy(e, includeBusy)
  {
    BusyRow(e.serverId, e.gpuId, e.status.s, e.task)
  }

  // What the entries amount to, entry by entry.

  function Rows(entries: seq<Entry>, includeBusy: bool): seq<Row> {
    if entries == [] then []
    else
      var e := entries[|entries| - 1];
      Rows(entries[..|entries| - 1], includeBusy) + if Shown(e, includeBusy) then [RowOf(e, includeBusy)] else []
  }

  function BusyRows(entries: seq<Entry>, includeBusy: bool): seq<BusyRow> {
    if entries == [] then []
    else
      var e := entries[|entries| - 1];
      BusyRows(entries[..|entries| - 1], includeBusy) + if Busy(e, includeBusy) then [BusyRowOf(e, includeBusy)] else []
  }

  /** The windows the full rows were observed in, in row order. */
  function Windows(entries: seq<Entry>, includeBusy: bool): (windows: seq<Option<Window>>)
    ensures |windows| == |Rows(entries, includeBusy)|
  {
    if entries == [] then []
    else
      var e := entries[|entries| - 1];
      Windows(entries[..|entries| - 1], includeBusy) + if Shown(e, includeBusy) then [WindowOf(e.telemetry)] else []
  }

  predicate ValidRecord(e: Entry) {
    e.Record? && e.available.Bool? && e.status.Str? && e.status.s != ""
  }

  /** A full row tells of an available GPU, or of any GPU where busy ones are asked for; only then does it say whether
      the GPU is available and what its task is. */
  predicate RowTells(row: Row, e: Entry, includeBusy: bool) {
    && ValidRecord(e) && (e.available == Bool(true) || includeBusy)
    && row.serverId == e.serverId && row.gpuId == e.gpuId && Str(row.status) == e.status
    && (row.telemetry.Some? <==> e.telemetry.Obj?)
    && (row.telemetry.Some? ==> row.telemetry.value.source == e.telemetry && row.telemetry.value.windowOverride.None?)
    && (if includeBusy then row.available.Some? && Bool(row.available.value) == e.available && row.task == e.task
        else row.available.None? && row.task.None?)
  }

  predicate BusyRowTells(row: BusyRow, e: Entry, includeBusy: bool) {
    && ValidRecord(e) && e.available == Bool(false) && !includeBusy
    && row.serverId == e.serverId && row.gpuId == e.gpuId && Str(row.status) == e.status && row.task == e.task
  }

  /** The rows are what some entry tells, and every entry is told. */
  lemma {:induction false} RowsTell(entries: seq<Entry>, includeBusy: bool, row: Row, busy: BusyRow)
    ensures row in Rows(entries, includeBusy) <==> exists e :: e in entries && RowTells(row, e, includeBusy)
    ensures busy in BusyRows(entries, includeBusy) <==> exists e :: e in entries && BusyRowTells(busy, e, includeBusy)
  {
    if entries != [] {
      var front, last := entries[..|entries| - 1], entries[|entries| - 1];
      RowsTell(front, includeBusy, row, busy);
      assert entries == front + [last];
      OneTells(last, includeBusy, row, busy);
      hide Shown, Busy, RowOf, BusyRowOf, RowTells, BusyRowTells;
      assert forall e :: e in entries <==> e in front || e == last;
    }
  }

  lemma OneTells(e: Entry, includeBusy: bool, row: Row, busy: BusyRow)
    ensures RowTells(row, e, includeBusy) <==> Shown(e, includeBusy) && row == RowOf(e, includeBusy)
    ensures BusyRowTells(busy, e, includeBusy) <==> Busy(e, includeBusy) && busy == BusyRowOf(e, includeBusy)
  {
  }

  /** The servers of all records, each at its first mention. */
  function Referenced(entries: seq<Entry>): seq<ServerId> {
    if entries == [] then []
    else
      var e, before := entries[|entries| - 1], Referenced(entries[..|entries| - 1]);
      if e.Record? && e.serverId !in before then before + [e.serverId] else before
  }

  /** The places of one server's rows, in row order. */
  function Places(rows: seq<Row>, id: ServerId): (places: seq<nat>)
    ensures forall i :: 0 <= i < |places| ==> places[i] < |rows| && rows[places[i]].serverId == id
  {
    if rows == [] then []
    else
      Places(rows[..|rows| - 1], id) + if rows[|rows| - 1].serverId == id then [|rows| - 1] else []
  }

  /** The windows of one server's rows. */
  function WindowsAt(rows: seq<Row>, windows: seq<Option<Window>>, id: ServerId): (r: seq<Option<Window>>)
    requires |windows| == |rows|
    ensures |r| == |Places(rows, id)|
  {
    seq(|Places(rows, id)|, i requires 0 <= i < |Places(rows, id)| => windows[Places(rows, id)[i]])
  }

  // ----- the projection -----

  /** The row after the servers have been described: its own window, where the server has no shared one. */
  function Finished(row: Row, window: Option<Window>, shared: Option<Window>): Row {
    if shared.None? && window.Some? && row.telemetry.Some?
    then row.(telemetry := Some(row.telemetry.value.(windowOverride := window)))
    else row
  }

  ghost predicate Projects(status: Status, entries: seq<Entry>, includeBusy: bool) {
    var rows, windows := Rows(entries, includeBusy), Windows(entries, includeBusy);
    && |status.gpus| == |rows|
    && (forall i :: 0 <= i < |rows| ==>
          status.gpus[i] == Finished(rows[i], windows[i], SharedWindow(WindowsAt(rows, windows, rows[i].serverId))))
    && status.busyGpus == BusyRows(entries, includeBusy)
    && |status.servers| == |Referenced(entries)|
    && forall k :: 0 <= k < |status.servers| ==>
      status.servers[k] == Server(Referenced(entries)[k], SharedWindow(WindowsAt(rows, windows, Referenced(entries)[k])))
  }

  function At<T>(table: map<ServerId, seq<T>>, id: ServerId): seq<T> {
    if id in table then table[id] else []
  }

  /** The state of the first loop after some entries. */
  ghost predicate Collected(
    entries: seq<Entry>, includeBusy: bool, gpus: seq<Row>, busy: seq<BusyRow>, referenced: seq<ServerId>,
    windowsByServer: map<ServerId, seq<Option<Window>>>, rowsByServer: map<ServerId, seq<nat>>)
  {
    var rows, windows := Rows(entries, includeBusy), Windows(entries, includeBusy);
    && gpus == rows && busy == BusyRows(entries, includeBusy) && referenced == Referenced(entries)
    && forall id :: At(rowsByServer, id) == Places(rows, id) && At(windowsByServer, id) == WindowsAt(rows, windows, id)
  }

  lemma OneMoreEntry(entries: seq<Entry>, i: nat, includeBusy: bool)
    requires i < |entries|
    ensures var e := entries[i];
      && Rows(entries[..i + 1], includeBusy)
        == (if Shown(e, includeBusy) then Rows(entries[..i], includeBusy) + [RowOf(e, includeBusy)]
            else Rows(entries[..i], includeBusy))
      && BusyRows(entries[..i + 1], includeBusy)
        == (if Busy(e, includeBusy) then BusyRows(entries[..i], includeBusy) + [BusyRowOf(e, includeBusy)]
            else BusyRows(entries[..i], includeBusy))
      && Windows(entries[..i + 1], includeBusy)
        == (if Shown(e, includeBusy) then Windows(entries[..i], includeBusy) + [WindowOf(e.telemetry)]
            else Windows(entries[..i], includeBusy))
      && Referenced(entries[..i + 1])
        == (if e.Record? && e.serverId !in Referenced(entries[..i]) then Referenced(entries[..i]) + [e.serverId]
            else Referenced(entries[..i]))
  {
    assert entries[..i + 1][..i] == entries[..i];
    assert Rows(entries[..i], includeBusy) + [] == Rows(entries[..i], includeBusy);
    assert BusyRows(entries[..i], includeBusy) + [] == BusyRows(entries[..i], includeBusy);
    assert Windows(entries[..i], includeBusy) + [] == Windows(entries[..i], includeBusy);
  }

  lemma OneMoreRow(rows: seq<Row>, windows: seq<Option<Window>>, row: Row, window: Option<Window>, id: ServerId)
    requires |windows| == |rows|
    ensures Places(rows + [row], id) == if row.serverId == id then Places(rows, id) + [|rows|] else Places(rows, id)
    ensures WindowsAt(rows + [row], windows + [window], id)
      == if row.serverId == id then WindowsAt(rows, windows, id) + [window] else WindowsAt(rows, windows, id)
  {
    assert (rows + [row])[..|rows|] == rows;
    assert Places(rows, id) + [] == Places(rows, id);
    var more := Places(rows + [row], id);
    hide Places;
    forall k | 0 <= k < |Places(rows, id)| ensures (windows + [window])[more[k]] == windows[Places(rows, id)[k]] {
      assert more[k] == Places(rows, id)[k];
    }
  }

  lemma NothingCollected(entries: seq<Entry>, includeBusy: bool)
    ensures Collected(entries[..0], includeBusy, [], [], [], map[], map[])
  {
  }

  /** The first loop: rows, busy rows, mentioned servers, and each server's rows and windows. */
  method Collect(entries: seq<Entry>, includeBusy: bool)
    returns (ok: bool, gpus: seq<Row>, busy: seq<BusyRow>, referenced: seq<ServerId>,
             windowsByServer: map<ServerId, seq<Option<Window>>>, rowsByServer: map<ServerId, seq<nat>>)
    ensures ok <==> forall i :: 0 <= i < |entries| ==> !Invalid(entries[i])
    ensures ok ==> Collected(entries, includeBusy, gpus, busy, referenced, windowsByServer, rowsByServer)
  {
    hide Collected, WindowOf;
    gpus, busy, referenced := [], [], [];
    windowsByServer, rowsByServer := map[], map[];
    NothingCollected(entries, includeBusy);
    for i := 0 to |entries|
      invariant forall k :: 0 <= k < i ==> !Invalid(entries[k])
      invariant Collected(entries[..i], includeBusy, gpus, busy, referenced, windowsByServer, rowsByServer)
    {
      var e := entries[i];
      if Invalid(e) {
        return false, gpus, busy, referenced, windowsByServer, rowsByServer;
      }
      CollectedStep(entries, i, includeBusy, gpus, busy, referenced, windowsByServer, rowsByServer);
      if e.Record? {
        if e.serverId !in referenced {
          referenced := referenced + [e.serverId];
        }
        if !e.available.b && !includeBusy {
          busy := busy + [BusyRowOf(e, includeBusy)];
        } else {
          windowsByServer := windowsByServer[e.serverId := At(windowsByServer, e.serverId) + [WindowOf(e.telemetry)]];
          rowsByServer := rowsByServer[e.serverId := At(rowsByServer, e.serverId) + [|gpus|]];
          gpus := gpus + [RowOf(e, includeBusy)];
        }
      }
    }
    assert entries[..|entries|] == entries;
    ok := true;
  }

  lemma CollectedStep(
    entries: seq<Entry>, i: nat, includeBusy: bool, gpus: seq<Row>, busy: seq<BusyRow>, referenced: seq<ServerId>,
    windowsByServer: map<ServerId, seq<Option<Window>>>, rowsByServer: map<ServerId, seq<nat>>)
    requires i < |entries| && !Invalid(entries[i])
    requires Collected(entries[..i], includeBusy, gpus, busy, referenced, windowsByServer, rowsByServer)
    ensures var e := entries[i];
      var nowReferenced := if e.Record? && e.serverId !in referenced then referenced + [e.serverId] else referenced;
      && (Shown(e, includeBusy) ==> Collected(entries[..i + 1], includeBusy, gpus + [RowOf(e, includeBusy)], busy,
            nowReferenced,
            windowsByServer[e.serverId := At(windowsByServer, e.serverId) + [WindowOf(e.telemetry)]],
            rowsByServer[e.serverId := At(rowsByServer, e.serverId) + [|gpus|]]))
      && (Busy(e, includeBusy) ==> Collected(entries[..i + 1], includeBusy, gpus, busy + [BusyRowOf(e, includeBusy)],
            nowReferenced, windowsByServer, rowsByServer))
      && (!e.Record? ==> Collected(entries[..i + 1], includeBusy, gpus, busy, referenced, windowsByServer, rowsByServer))
  {
    hide Rows, BusyRows, Windows, Referenced, Places, WindowsAt, WindowOf;
    var e := entries[i];
    OneMoreEntry(entries, i, includeBusy);
    if Shown(e, includeBusy) {
      var windows := Windows(entries[..i], includeBusy);
      forall id
        ensures Places(gpus + [RowOf(e, includeBusy)], id)
          == At(rowsByServer[e.serverId := At(rowsByServer, e.serverId) + [|gpus|]], id)
        ensures WindowsAt(gpus + [RowOf(e, includeBusy)], windows + [WindowOf(e.telemetry)], id)
          == At(windowsByServer[e.serverId := At(windowsByServer, e.serverId) + [WindowOf(e.telemetry)]], id)
      {
        OneMoreRow(gpus, windows, RowOf(e, includeBusy), WindowOf(e.telemetry), id);
      }
    }
  }

  /** A server's places are exactly its rows, each once. */
  lemma {:induction false} PlacesAreExact(rows: seq<Row>, id: ServerId)
    ensures forall i :: 0 <= i < |rows| ==> (rows[i].serverId == id <==> i in Places(rows, id))
    ensures forall i, j :: 0 <= i < j < |Places(rows, id)| ==> Places(rows, id)[i] < Places(rows, id)[j]
  {
    if rows != [] {
      var front := rows[..|rows| - 1];
      PlacesAreExact(front, id);
      var here := rows[|rows| - 1].serverId == id;
      assert forall k :: k in Places(rows, id) <==> k in Places(front, id) || (k == |rows| - 1 && here);
    }
  }

  /** The strict pairing of a server's rows with their windows; each window goes to its own row. */
  method Override(gpus: seq<Row>, places: seq<nat>, windows: seq<Option<Window>>) returns (r: seq<Row>)
    requires |places| == |windows| && forall i :: 0 <= i < |places| ==> places[i] < |gpus|
    requires forall i, j :: 0 <= i < j < |places| ==> places[i] < places[j]
    ensures |r| == |gpus|
    ensures forall j :: 0 <= j < |places| ==> r[places[j]] == Finished(gpus[places[j]], windows[j], None)
    ensures forall i :: 0 <= i < |gpus| && i !in places ==> r[i] == gpus[i]
  {
    hide Finished;
    r := gpus;
    for j := 0 to |places|
      invariant |r| == |gpus|
      invariant forall k :: 0 <= k < j ==> r[places[k]] == Finished(gpus[places[k]], windows[k], None)
      invariant forall k :: j <= k < |places| ==> r[places[k]] == gpus[places[k]]
      invariant forall i :: 0 <= i < |gpus| && i !in places ==> r[i] == gpus[i]
    {
      r := r[places[j] := Finished(r[places[j]], windows[j], None)];
    }
  }

  /** The row after the servers in `done` have been described. */
  ghost predicate Described(gpus: seq<Row>, rows: seq<Row>, windows: seq<Option<Window>>, done: seq<ServerId>)
    requires |windows| == |rows|
  {
    |gpus| == |rows| && forall i :: 0 <= i < |rows| ==>
      gpus[i] == if rows[i].serverId in done
                 then Finished(rows[i], windows[i], SharedWindow(WindowsAt(rows, windows, rows[i].serverId)))
                 else rows[i]
  }

  /** One server of the second loop. */
  method DescribeServer(
    id: ServerId, gpus: seq<Row>, places: seq<nat>, serverWindows: seq<Option<Window>>,
    ghost rows: seq<Row>, ghost windows: seq<Option<Window>>, ghost done: seq<ServerId>)
    returns (server: Server, r: seq<Row>)
    requires |windows| == |rows| && Described(gpus, rows, windows, done) && id !in done
    requires places == Places(rows, id) && serverWindows == WindowsAt(rows, windows, id)
    ensures server == Server(id, SharedWindow(serverWindows)) && Described(r, rows, windows, done + [id])
  {
    hide Places, Finished, SharedWindow;
    PlacesAreExact(rows, id);
    var shared := SharedWindow(serverWindows);
    server := Server(id, shared);
    r := gpus;
    if shared == None {
      r := Override(gpus, places, serverWindows);
    } else {
      forall i | 0 <= i < |rows| && rows[i].serverId == id ensures Finished(rows[i], windows[i], shared) == rows[i] {
        KeepsRow(rows[i], windows[i], shared);
      }
    }
  }

  lemma KeepsRow(row: Row, window: Option<Window>, shared: Option<Window>)
    requires shared.Some?
    ensures Finished(row, window, shared) == row
  {
  }

  lemma {:induction false} ReferencedOnce(entries: seq<Entry>, includeBusy: bool)
    ensures forall i, j :: 0 <= i < j < |Referenced(entries)| ==> Referenced(entries)[i] != Referenced(entries)[j]
    ensures forall id :: id in Referenced(entries) <==> exists e :: e in entries && e.Record? && e.serverId == id
    ensures forall row :: row in Rows(entries, includeBusy) ==> row.serverId in Referenced(entries)
    ensures forall row :: row in BusyRows(entries, includeBusy) ==> row.serverId in Referenced(entries)
  {
    if entries != [] {
      var front, last := entries[..|entries| - 1], entries[|entries| - 1];
      ReferencedOnce(front, includeBusy);
      assert entries == front + [last];
    }
  }

  /** The second loop, over the mentioned servers. */
  method DescribeAll(
    referenced: seq<ServerId>, start: seq<Row>, windowsByServer: map<ServerId, seq<Option<Window>>>,
    rowsByServer: map<ServerId, seq<nat>>, ghost windows: seq<Option<Window>>)
    returns (servers: seq<Server>, gpus: seq<Row>)
    requires |windows| == |start| && forall i, j :: 0 <= i < j < |referenced| ==> referenced[i] != referenced[j]
    requires forall id :: At(rowsByServer, id) == Places(start, id) && At(windowsByServer, id) == WindowsAt(start, windows, id)
    ensures Described(gpus, start, windows, referenced) && |servers| == |referenced|
    ensures forall m :: 0 <= m < |referenced| ==>
      servers[m] == Server(referenced[m], SharedWindow(WindowsAt(start, windows, referenced[m])))
  {
    hide Places, WindowsAt, Finished, SharedWindow, Described, At;
    servers, gpus := [], start;
    NothingDescribed(start, windows, referenced);
    for k := 0 to |referenced|
      invariant Described(gpus, start, windows, referenced[..k])
      invariant |servers| == k
      invariant forall m :: 0 <= m < k ==>
        servers[m] == Server(referenced[m], SharedWindow(WindowsAt(start, windows, referenced[m])))
    {
      var id := referenced[k];
      assert referenced[..k + 1] == referenced[..k] + [id];
      var server;
      server, gpus := DescribeServer(id, gpus, At(rowsByServer, id), At(windowsByServer, id), start, windows, referenced[..k]);
      servers := servers + [server];
    }
    assert referenced[..|referenced|] == referenced;
  }

  lemma NothingDescribed(rows: seq<Row>, windows: seq<Option<Window>>, referenced: seq<ServerId>)
    requires |windows| == |rows|
    ensures Described(rows, rows, windows, referenced[..0])
  {
  }

  /** `_routine_gpu_status`: refused exactly for an invalid public status, and then complete. */
  method RoutineGpuStatus(entries: seq<Entry>, includeBusy: bool) returns (status: Option<Status>)
    ensures status.None? <==> exists i :: 0 <= i < |entries| && Invalid(entries[i])
    ensures status.Some? ==> Projects(status.value, entries, includeBusy)
  {
    hide Rows, BusyRows, Windows, Referenced, Places, WindowsAt, Finished, SharedWindow, Invalid, At;
    var ok, gpus, busy, referenced, windowsByServer, rowsByServer := Collect(entries, includeBusy);
    if !ok {
      return None;
    }
    ReferencedOnce(entries, includeBusy);
    var servers;
    ghost var rows := gpus;
    servers, gpus := DescribeAll(referenced, gpus, windowsByServer, rowsByServer, Windows(entries, includeBusy));
    RowsReferenced(rows, referenced);
    status := Some(Status(servers, gpus, busy));
  }

  lemma RowsReferenced(rows: seq<Row>, referenced: seq<ServerId>)
    requires forall row :: row in rows ==> row.serverId in referenced
    ensures forall i :: 0 <= i < |rows| ==> rows[i].serverId in referenced
  {
    forall i | 0 <= i < |rows| ensures rows[i].serverId in referenced {
      assert rows[i] in rows;
    }
  }

  // ----- what a reader gets back -----

  /** The window a reader of the projection finds for a row: its own, or else its server's. */
  function WindowRead(row: Row, servers: seq<Server>): Option<Window> {
    if row.telemetry.Some? && row.telemetry.value.windowOverride.Some? then row.telemetry.value.windowOverride
    else ServerWindow(servers, row.serverId)
  }

  function ServerWindow(servers: seq<Server>, id: ServerId): Option<Window> {
    if servers == [] then None
    else if servers[0].serverId == id then servers[0].telemetryWindow
    else ServerWindow(servers[1..], id)
  }

  lemma {:induction false} ServerWindowAt(servers: seq<Server>, k: nat)
    requires k < |servers| && forall i, j :: 0 <= i < j < |servers| ==> servers[i].serverId != servers[j].serverId
    ensures ServerWindow(servers, servers[k].serverId) == servers[k].telemetryWindow
  {
    if k > 0 {
      ServerWindowAt(servers[1..], k - 1);
    }
  }

  ghost predicate KeepsWindows(rows: seq<Row>, windows: seq<Option<Window>>) {
    |windows| == |rows| && forall i :: 0 <= i < |rows| ==>
      && (windows[i].Some? ==> rows[i].telemetry.Some?)
      && (rows[i].telemetry.Some? ==> rows[i].telemetry.value.windowOverride == None)
  }

  /** A window is only ever observed inside telemetry, so a row with a window has telemetry to keep it in. */
  lemma {:induction false} WindowHasTelemetry(entries: seq<Entry>, includeBusy: bool)
    ensures KeepsWindows(Rows(entries, includeBusy), Windows(entries, includeBusy))
  {
    if entries != [] {
      var n := |entries| - 1;
      var e := entries[n];
      WindowHasTelemetry(entries[..n], includeBusy);
      OneMoreEntry(entries, n, includeBusy);
      hide Rows, Windows;
      assert entries[..n + 1] == entries;
    }
  }

  lemma OwnWindowAt(rows: seq<Row>, windows: seq<Option<Window>>, i: nat)
    requires |windows| == |rows| && i < |rows|
    ensures windows[i] in WindowsAt(rows, windows, rows[i].serverId)
  {
    var places := Places(rows, rows[i].serverId);
    PlacesAreExact(rows, rows[i].serverId);
    hide Places;
    var j :| 0 <= j < |places| && places[j] == i;
    assert WindowsAt(rows, windows, rows[i].serverId)[j] == windows[i];
  }

  /** A reader finds a row's own window, or the shared window of a server whose row was observed in none. */
  lemma ReaderFinds(status: Status, entries: seq<Entry>, includeBusy: bool, i: nat)
    requires Projects(status, entries, includeBusy) && i < |status.gpus|
    ensures var rows, windows := Rows(entries, includeBusy), Windows(entries, includeBusy);
      var shared := SharedWindow(WindowsAt(rows, windows, rows[i].serverId));
      WindowRead(status.gpus[i], status.servers) == if windows[i].Some? then windows[i] else shared
  {
    var rows, windows := Rows(entries, includeBusy), Windows(entries, includeBusy);
    var id := rows[i].serverId;
    ReferencedOnce(entries, includeBusy);
    WindowHasTelemetry(entries, includeBusy);
    OwnWindowAt(rows, windows, i);
    hide Rows, BusyRows, Windows, Referenced, Places, WindowsAt, SharedWindow, ServerWindow;
    assert rows[i] in rows;
    var k :| 0 <= k < |status.servers| && Referenced(entries)[k] == id;
    ServerWindowAt(status.servers, k);
    var shared := SharedWindow(WindowsAt(rows, windows, id));
    if shared.Some? {
      SharedIff(WindowsAt(rows, windows, id), shared.value);
    }
  }

  /** Every observed window comes back, from the row or from its server. */
  lemma ObservedWindowsComeBack(status: Status, entries: seq<Entry>, includeBusy: bool, i: nat)
    requires Projects(status, entries, includeBusy) && i < |status.gpus|
    ensures Windows(entries, includeBusy)[i].Some? ==>
      WindowRead(status.gpus[i], status.servers) == Windows(entries, includeBusy)[i]
  {
    ReaderFinds(status, entries, includeBusy, i);
  }

  /** A row without a window is read as having one exactly when the other rows of its server all share one. */
  lemma MissingWindowIff(status: Status, entries: seq<Entry>, includeBusy: bool, i: nat, w: Window)
    requires Projects(status, entries, includeBusy) && i < |status.gpus| && Windows(entries, includeBusy)[i] == None
    ensures var rows := Rows(entries, includeBusy);
      var others := WindowsAt(rows, Windows(entries, includeBusy), rows[i].serverId);
      WindowRead(status.gpus[i], status.servers) == Some(w)
      <==> Some(w) in others && forall x :: Some(x) in others ==> x == w
  {
    ReaderFinds(status, entries, includeBusy, i);
    var rows := Rows(entries, includeBusy);
    SharedIff(WindowsAt(rows, Windows(entries, includeBusy), rows[i].serverId), w);
  }

  /** Two rows of one server, the second observed in no window. */
  function HalfObserved(id: ServerId, seconds: nat): seq<Entry> {
    var window := Obj([Member("window_seconds", Int(seconds))]);
    [Record(Bool(true), Str("available"), id, Null, None, Obj([Member("recent_average", window)])),
     Record(Bool(true), Str("available"), id, Null, None, Null)]
  }

  lemma OneShown(before: seq<Entry>, e: Entry, includeBusy: bool)
    requires Shown(e, includeBusy)
    ensures Rows(before + [e], includeBusy) == Rows(before, includeBusy) + [RowOf(e, includeBusy)]
    ensures Windows(before + [e], includeBusy) == Windows(before, includeBusy) + [WindowOf(e.telemetry)]
  {
    hide WindowOf, RowOf, Shown;
    assert (before + [e])[..|before|] == before;
  }

  lemma TwoRows(e: Entry, f: Entry, includeBusy: bool)
    requires Shown(e, includeBusy) && Shown(f, includeBusy)
    ensures Rows([e, f], includeBusy) == [RowOf(e, includeBusy), RowOf(f, includeBusy)]
    ensures Windows([e, f], includeBusy) == [WindowOf(e.telemetry), WindowOf(f.telemetry)]
  {
    assert Rows([], includeBusy) == [] && Windows([], includeBusy) == [];
    hide WindowOf, RowOf, Shown, Rows, Windows;
    OneShown([], e, includeBusy);
    OneShown([e], f, includeBusy);
    assert [] + [e] == [e] && [e] + [f] == [e, f];
  }

  lemma HalfObservedRows(id: ServerId, seconds: nat)
    requires seconds > 0
    ensures var rows := Rows(HalfObserved(id, seconds), false);
      && |rows| == 2 && rows[0].serverId == id && rows[1].serverId == id
      && Windows(HalfObserved(id, seconds), false) == [Some(Window(Some(seconds), None, None, None)), None]
  {
    hide WindowOf, Rows, Windows;
    var entries := HalfObserved(id, seconds);
    HalfObservedWindow(seconds);
    TwoRows(entries[0], entries[1], false);
  }

  lemma HalfObservedWindow(seconds: nat)
    requires seconds > 0
    ensures WindowOf(Obj([Member("recent_average", Obj([Member("window_seconds", Int(seconds))]))]))
      == Some(Window(Some(seconds), None, None, None))
    ensures WindowOf(Null) == None
  {
    var average := [Member("recent_average", Obj([Member("window_seconds", Int(seconds))]))];
    var parts := [Member("window_seconds", Int(seconds))];
    assert average[..0] == [] && parts[..0] == [];
    assert "window_seconds"[0] != "sample_count"[0] && "window_seconds"[0] != "first_observed_at"[0];
    assert "window_seconds"[0] != "last_observed_at"[0];
    assert Lookup(average, "recent_average") == Some(Obj(parts));
    assert Lookup(parts, "window_seconds") == Some(Int(seconds));
    assert Lookup(parts, "sample_count") == None && Lookup(parts, "first_observed_at") == None;
    assert Lookup(parts, "last_observed_at") == None;
  }

  /** A reader of the second row finds the window of the first. */
  lemma UnobservedRowHasWindow(status: Status, id: ServerId, seconds: nat)
    requires seconds > 0 && Projects(status, HalfObserved(id, seconds), false)
    ensures |status.gpus| == 2 && Windows(HalfObserved(id, seconds), false)[1] == None
    ensures WindowRead(status.gpus[1], status.servers) == Some(Window(Some(seconds), None, None, None))
  {
    var entries := HalfObserved(id, seconds);
    HalfObservedRows(id, seconds);
    var rows, windows := Rows(entries, false), Windows(entries, false);
    var w := Window(Some(seconds), None, None, None);
    hide Rows, Windows, BusyRows, Referenced, HalfObserved, WindowRead, SharedWindow;
    OwnWindowAt(rows, windows, 0);
    MissingWindowIff(status, entries, false, 1, w);
    forall x | Some(x) in WindowsAt(rows, windows, id) ensures x == w {
      assert Some(x) in windows;
    }
  }

  function CountRecords(entries: seq<Entry>): nat {
    if entries == [] then 0
    else CountRecords(entries[..|entries| - 1]) + if entries[|entries| - 1].Record? then 1 else 0
  }

  /** Every record is in exactly one of the two lists: none is lost, and none is in both. */
  lemma {:induction false} RecordsSplit(entries: seq<Entry>, includeBusy: bool)
    requires forall i :: 0 <= i < |entries| ==> !Invalid(entries[i])
    ensures |Rows(entries, includeBusy)| + |BusyRows(entries, includeBusy)| == CountRecords(entries)
    ensures includeBusy ==> BusyRows(entries, includeBusy) == []
    ensures forall i :: 0 <= i < |entries| && entries[i].Record? ==>
      (Shown(entries[i], includeBusy) <==> !Busy(entries[i], includeBusy))
    ensures !includeBusy ==> forall i :: 0 <= i < |entries| && entries[i].Record? ==>
      (Shown(entries[i], false) <==> entries[i].available.b)
  {
    if entries != [] {
      RecordsSplit(entries[..|entries| - 1], includeBusy);
    }
  }

  /** The servers are listed once each and cover every row and every busy row. */
  lemma ServersCover(status: Status, entries: seq<Entry>, includeBusy: bool)
    requires Projects(status, entries, includeBusy)
    ensures forall i, j :: 0 <= i < j < |status.servers| ==> status.servers[i].serverId != status.servers[j].serverId
    ensures forall row :: row in status.gpus ==>
      exists k :: 0 <= k < |status.servers| && status.servers[k].serverId == row.serverId
    ensures forall row :: row in status.busyGpus ==>
      exists k :: 0 <= k < |status.servers| && status.servers[k].serverId == row.serverId
    ensures forall k :: 0 <= k < |status.servers| ==>
      exists e :: e in entries && e.Record? && e.serverId == status.servers[k].serverId
  {
    ReferencedOnce(entries, includeBusy);
    var rows, ids := Rows(entries, includeBusy), Referenced(entries);
    hide Rows, BusyRows, Windows, Referenced, Places, WindowsAt, SharedWindow;
    forall row | row in status.gpus
      ensures exists k :: 0 <= k < |status.servers| && status.servers[k].serverId == row.serverId
    {
      var i :| 0 <= i < |status.gpus| && status.gpus[i] == row;
      assert rows[i] in rows;
      var k :| 0 <= k < |ids| && ids[k] == rows[i].serverId;
      assert status.servers[k].serverId == row.serverId;
    }
    forall row | row in status.busyGpus
      ensures exists k :: 0 <= k < |status.servers| && status.servers[k].serverId == row.serverId
    {
      var k :| 0 <= k < |ids| && ids[k] == row.serverId;
      assert status.servers[k].serverId == row.serverId;
    }
    forall k | 0 <= k < |status.servers|
      ensures exists e :: e in entries && e.Record? && e.serverId == status.servers[k].serverId
    {
      assert ids[k] in ids;
    }
  }
}
