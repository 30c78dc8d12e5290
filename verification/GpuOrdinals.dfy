/** CUDA ordinals under PCI bus order, as the two collectors and the keepalive helper compute them. */
module GpuOrdinals {
  import opened Text
  import opened KeepaliveProtocol

  datatype BusId = BusId(domain: nat, bus: nat, device: nat, function_: nat)

  /** The order of the four-number tuples. */
  predicate Less(a: BusId, b: BusId) {
    a.domain < b.domain || (a.domain == b.domain &&
      (a.bus < b.bus || (a.bus == b.bus &&
        (a.device < b.device || (a.device == b.device && a.function_ < b.function_)))))
  }

  // ----- PCI bus ids -----

  function HexDigitValue(c: char): nat
    requires IsHex(c)
  {
    if IsDigit(c) then DigitValue(c)
    else if 'a' <= c <= 'f' then c as int - 'a' as int + 10
    else c as int - 'A' as int + 10
  }

  function HexValue(s: string): nat
    requires AllHex(s)
  {
    if s == [] then 0 else 16 * HexValue(s[..|s| - 1]) + HexDigitValue(s[|s| - 1])
  }

  predicate AllHex(s: string) {
    forall i :: 0 <= i < |s| ==> IsHex(s[i])
  }

  /** `_PCI_BUS_ID_PATTERN`: four to eight hexadecimal digits, then `:bb:dd.f`. */
  function ParseBusId(s: string): Option<BusId> {
    if !(12 <= |s| <= 16) then None
    else
      var n := |s| - 8;
      if AllHex(s[..n]) && s[n] == ':' && AllHex(s[n + 1..n + 3]) && s[n + 3] == ':'
        && AllHex(s[n + 4..n + 6]) && s[n + 6] == '.' && '0' <= s[n + 7] <= '7'
      then Some(BusId(HexValue(s[..n]), HexValue(s[n + 1..n + 3]), HexValue(s[n + 4..n + 6]), DigitValue(s[n + 7])))
      else None
  }

  /** `:bb:dd.f` */
  function BusTail(bus: string, device: string, f: char): (t: string)
    requires |bus| == 2 && |device| == 2
    ensures |t| == 8
  {
    [':', bus[0], bus[1], ':', device[0], device[1], '.', f]
  }

  lemma TailParts(domain: string, tail: string, s: string)
    requires |tail| == 8 && s == domain + tail
    ensures |s| == |domain| + 8 && s[..|domain|] == domain
    ensures forall i :: 0 <= i < 8 ==> s[|domain| + i] == tail[i]
  {
  }

  lemma TwoAt(s: string, k: nat, t: string)
    requires k + 2 <= |s| && |t| == 2 && s[k] == t[0] && s[k + 1] == t[1]
    ensures s[k..k + 2] == t
  {
  }

  lemma BusIdOfParts(s: string, n: nat, domain: string, bus: string, device: string, f: char)
    requires 4 <= n <= 8 && |s| == n + 8 && '0' <= f <= '7' && AllHex(domain) && AllHex(bus) && AllHex(device)
    requires s[..n] == domain && s[n + 1..n + 3] == bus && s[n + 4..n + 6] == device
    requires s[n] == ':' && s[n + 3] == ':' && s[n + 6] == '.' && s[n + 7] == f
    ensures ParseBusId(s) == Some(BusId(HexValue(domain), HexValue(bus), HexValue(device), DigitValue(f)))
  {
    hide HexValue, AllHex;
  }

  /** How the parts of a bus id are written and read. */
  lemma BusIdReads(domain: string, bus: string, device: string, f: char)
    requires 4 <= |domain| <= 8 && |bus| == 2 && |device| == 2 && '0' <= f <= '7'
    requires AllHex(domain) && AllHex(bus) && AllHex(device)
    ensures ParseBusId(domain + BusTail(bus, device, f))
      == Some(BusId(HexValue(domain), HexValue(bus), HexValue(device), DigitValue(f)))
  {
    var tail := BusTail(bus, device, f);
    var n := |domain|;
    assert tail[0] == tail[3] == ':' && tail[1] == bus[0] && tail[2] == bus[1];
    assert tail[4] == device[0] && tail[5] == device[1] && tail[6] == '.' && tail[7] == f;
    hide HexValue, AllHex, ParseBusId, BusTail;
    var s := domain + tail;
    TailParts(domain, tail, s);
    assert s[n + 0] == ':' && s[n + 3] == ':' && s[n + 6] == '.' && s[n + 7] == f;
    TwoAt(s, n + 1, bus);
    TwoAt(s, n + 4, device);
    BusIdOfParts(s, n, domain, bus, device, f);
  }

  ghost predicate BusParts(s: string, b: BusId, domain: string, bus: string, device: string, f: char) {
    && 4 <= |domain| <= 8 && |bus| == 2 && |device| == 2 && '0' <= f <= '7'
    && AllHex(domain) && AllHex(bus) && AllHex(device) && s == domain + BusTail(bus, device, f)
    && b == BusId(HexValue(domain), HexValue(bus), HexValue(device), DigitValue(f))
  }

  /** A bus id is accepted exactly when it is written in those parts, and read as their numbers. */
  lemma BusIdIff(s: string, b: BusId)
    ensures ParseBusId(s) == Some(b) <==> exists domain, bus, device, f :: BusParts(s, b, domain, bus, device, f)
  {
    if ParseBusId(s) == Some(b) {
      var n := |s| - 8;
      assert s == s[..n] + BusTail(s[n + 1..n + 3], s[n + 4..n + 6], s[n + 7]);
      assert BusParts(s, b, s[..n], s[n + 1..n + 3], s[n + 4..n + 6], s[n + 7]);
    }
    hide ParseBusId, HexValue, AllHex;
    forall domain, bus, device, f | BusParts(s, b, domain, bus, device, f) ensures ParseBusId(s) == Some(b) {
      BusIdReads(domain, bus, device, f);
    }
  }

  lemma {:induction false} HexPadding(s: string)
    requires AllHex(s)
    ensures AllHex("0" + s) && HexValue("0" + s) == HexValue(s)
  {
    var padded := "0" + s;
    if s == [] {
      assert padded[..0] == [];
    } else {
      HexPadding(s[..|s| - 1]);
      assert padded[..|padded| - 1] == "0" + s[..|s| - 1];
    }
  }

  /** A domain written with more leading zeros is the same domain. */
  lemma PaddedDomain(domain: string, bus: string, device: string, f: char)
    requires 4 <= |domain| < 8 && |bus| == 2 && |device| == 2 && '0' <= f <= '7'
    requires AllHex(domain) && AllHex(bus) && AllHex(device)
    ensures ParseBusId("0" + domain + BusTail(bus, device, f)) == ParseBusId(domain + BusTail(bus, device, f))
  {
    hide HexValue, AllHex, ParseBusId;
    HexPadding(domain);
    BusIdReads(domain, bus, device, f);
    BusIdReads("0" + domain, bus, device, f);
  }

  // ----- the three readers of a row -----

  datatype Row = Blank | Bad | Gpu(index: int, uuid: string, bus: BusId)

  /** The texts that mean a missing value. */
  predicate IsMissing(text: string) {
    text in ["", "N/A", "[Not Supported]", "Not Supported"]
  }

  /** A column without blanks, or nothing for the texts that mean a missing value. */
  function Column(row: seq<string>, i: nat): Option<string> {
    var text := if i < |row| then Strip(row[i]) else "";
    if IsMissing(text) then None else Some(text)
  }

  function Number(value: Option<string>, asInt: string -> Option<int>): Option<int> {
    match value
    case None => None
    case Some(text) => asInt(text)
  }

  /** The name and the three memory sizes are there. */
  predicate Complete(row: seq<string>, asInt: string -> Option<int>) {
    Column(row, 2) != None && Number(Column(row, 3), asInt) != None && Number(Column(row, 4), asInt) != None
    && Number(Column(row, 5), asInt) != None
  }

  function CsvGpu(index: Option<int>, uuid: Option<string>, busText: Option<string>, complete: bool): Row {
    match (index, uuid, busText)
    case (Some(n), Some(id), Some(text)) =>
      (match ParseBusId(text)
       case None => Bad
       case Some(bus) => if complete then Gpu(n, id, bus) else Bad)
    case _ => Bad
  }

  /** Both collectors: twelve columns, with each collector's own reading of numbers. */
  function CsvRow(row: seq<string>, asInt: string -> Option<int>): Row {
    if forall i :: 0 <= i < |row| ==> Strip(row[i]) == "" then Blank
    else if |row| != 12 then Bad
    else CsvGpu(Number(Column(row, 0), asInt), Column(row, 1), Column(row, 11), Complete(row, asInt))
  }

  function CsvReader(asInt: string -> Option<int>): seq<string> -> Row {
    row => CsvRow(row, asInt)
  }

  /** `line.split(",", maxsplit=n)`. */
  function SplitAtMost(s: string, n: nat): (parts: seq<string>)
    ensures parts != []
    decreases |s|
  {
    if n == 0 || s == [] then [s]
    else if s[0] == ',' then [""] + SplitAtMost(s[1..], n - 1)
    else
      var rest := SplitAtMost(s[1..], n);
      [[s[0]] + rest[0]] + rest[1..]
  }

  /** The helper: index, UUID and bus id on one line. */
  function HelperLine(line: string): Row {
    if Strip(line) == "" then Blank
    else
      var parts := SplitAtMost(line, 2);
      if |parts| != 3 then Bad
      else
        var index, uuid, busText := Strip(parts[0]), Strip(parts[1]), Strip(parts[2]);
        if index == "" || !AllDigits(index) || !ValidUuid(uuid) then Bad
        else
          match ParseBusId(busText)
          case None => Bad
          case Some(bus) => Gpu(Value(index), uuid, bus)
  }

  // ----- the loop all three run over their rows -----

  datatype Entry = Entry(bus: BusId, uuid: string)

  predicate Clash(a: Row, b: Row) {
    a.Gpu? && b.Gpu? && (a.index == b.index || a.uuid == b.uuid || a.bus == b.bus)
  }

  function Entries(rows: seq<Row>): seq<Entry> {
    if rows == [] then []
    else
      var r := rows[|rows| - 1];
      Entries(rows[..|rows| - 1]) + if r.Gpu? then [Entry(r.bus, r.uuid)] else []
  }

  function Parsed<R>(lines: seq<R>, parse: R -> Row): (rows: seq<Row>)
    ensures |rows| == |lines| && forall i :: 0 <= i < |rows| ==> rows[i] == parse(lines[i])
  {
    seq(|lines|, i requires 0 <= i < |lines| => parse(lines[i]))
  }

  /** What rows showed so far: indices, UUIDs and bus ids. */
  datatype Identities = Identities(indices: set<int>, uuids: set<string>, buses: set<BusId>)

  function Shown(rows: seq<Row>): Identities {
    if rows == [] then Identities({}, {}, {})
    else
      var (seen, r) := (Shown(rows[..|rows| - 1]), rows[|rows| - 1]);
      if r.Gpu? then Identities(seen.indices + {r.index}, seen.uuids + {r.uuid}, seen.buses + {r.bus}) else seen
  }

  predicate Repeats(seen: Identities, row: Row) {
    row.Gpu? && (row.index in seen.indices || row.uuid in seen.uuids || row.bus in seen.buses)
  }

  /** A row repeats something shown exactly when it clashes with an earlier row. */
  lemma {:induction false} RepeatsIffClash(rows: seq<Row>, row: Row)
    ensures Repeats(Shown(rows), row) <==> exists k :: 0 <= k < |rows| && Clash(rows[k], row)
  {
    if rows != [] {
      var before, last := rows[..|rows| - 1], rows[|rows| - 1];
      RepeatsIffClash(before, row);
      assert Repeats(Shown(rows), row) <==> Repeats(Shown(before), row) || Clash(last, row);
      assert forall k :: 0 <= k < |before| ==> before[k] == rows[k];
    }
  }

  ghost predicate Clean(rows: seq<Row>, n: nat) {
    n <= |rows|
    && (forall i :: 0 <= i < n ==> rows[i] != Bad) && (forall i, j :: 0 <= i < j < n ==> !Clash(rows[i], rows[j]))
  }

  ghost predicate Acceptable(rows: seq<Row>) {
    Clean(rows, |rows|)
  }

  lemma CleanOneMore(rows: seq<Row>, n: nat)
    requires n < |rows| && Clean(rows, n)
    ensures Clean(rows, n + 1) <==> rows[n] != Bad && forall k :: 0 <= k < n ==> !Clash(rows[k], rows[n])
    ensures !Clean(rows, n + 1) ==> !Acceptable(rows)
  {
  }

  /** Collect the rows, refusing a bad row and a repeated index, UUID or bus id. */
  method Observe<R>(lines: seq<R>, parse: R -> Row) returns (observed: Option<seq<Entry>>)
    ensures observed.Some? <==> Acceptable(Parsed(lines, parse))
    ensures observed.Some? ==> observed.value == Entries(Parsed(lines, parse))
  {
    hide Entries, Shown, Clash, Clean;
    ghost var rows := Parsed(lines, parse);
    var entries: seq<Entry> := [];
    var seen := Identities({}, {}, {});
    NothingYet(rows);
    for i := 0 to |lines|
      invariant entries == Entries(rows[..i]) && seen == Shown(rows[..i]) && Clean(rows, i)
    {
      var row := parse(lines[i]);
      OneMoreRow(rows, i);
      match row {
        case Blank =>
        case Bad =>
          return None;
        case Gpu(index, uuid, bus) =>
          if index in seen.indices || uuid in seen.uuids || bus in seen.buses {
            return None;
          }
          seen := Identities(seen.indices + {index}, seen.uuids + {uuid}, seen.buses + {bus});
          entries := entries + [Entry(bus, uuid)];
      }
    }
    assert rows[..|lines|] == rows;
    observed := Some(entries);
  }

  lemma NothingYet(rows: seq<Row>)
    ensures Entries(rows[..0]) == [] && Shown(rows[..0]) == Identities({}, {}, {}) && Clean(rows, 0)
  {
  }

  lemma OneMoreRow(rows: seq<Row>, n: nat)
    requires n < |rows| && Clean(rows, n)
    ensures var seen, r := Shown(rows[..n]), rows[n];
      && Entries(rows[..n + 1]) == (if r.Gpu? then Entries(rows[..n]) + [Entry(r.bus, r.uuid)] else Entries(rows[..n]))
      && Shown(rows[..n + 1])
        == (if r.Gpu? then Identities(seen.indices + {r.index}, seen.uuids + {r.uuid}, seen.buses + {r.bus}) else seen)
      && (Clean(rows, n + 1) <==> r != Bad && !Repeats(seen, r))
      && (!Clean(rows, n + 1) ==> !Acceptable(rows))
  {
    assert rows[..n + 1][..n] == rows[..n];
    assert Entries(rows[..n]) + [] == Entries(rows[..n]);
    hide Entries;
    RepeatsIffClash(rows[..n], rows[n]);
    CleanOneMore(rows, n);
    hide Clean;
    assert forall k :: 0 <= k < n ==> rows[..n][k] == rows[k];
  }

  // ----- ordinals -----

  ghost predicate Separate(entries: seq<Entry>) {
    forall i, j :: 0 <= i < j < |entries| ==> entries[i].bus != entries[j].bus && entries[i].uuid != entries[j].uuid
  }

  function Insert(e: Entry, sorted: seq<Entry>): seq<Entry> {
    if sorted == [] || Less(e.bus, sorted[0].bus) then [e] + sorted else [sorted[0]] + Insert(e, sorted[1..])
  }

  /** `sorted(observed)`; the keys are distinct, so the order of the keys decides. */
  function SortEntries(entries: seq<Entry>): seq<Entry> {
    if entries == [] then [] else Insert(entries[|entries| - 1], SortEntries(entries[..|entries| - 1]))
  }

  /** `enumerate(sorted(observed))`: the place of a UUID is its ordinal. */
  function Ordinal(entries: seq<Entry>, uuid: string): Option<nat> {
    PlaceOf(SortEntries(entries), uuid)
  }

  function PlaceOf(entries: seq<Entry>, uuid: string): Option<nat> {
    if entries == [] then None
    else if entries[0].uuid == uuid then Some(0)
    else
      match PlaceOf(entries[1..], uuid)
      case None => None
      case Some(k) => Some(k + 1)
  }

  ghost predicate Sorted(s: seq<Entry>) {
    forall i, j :: 0 <= i < j < |s| ==> Less(s[i].bus, s[j].bus)
  }

  ghost predicate SameEntries(a: seq<Entry>, b: seq<Entry>) {
    forall e :: e in a <==> e in b
  }

  lemma {:induction false} InsertSorted(e: Entry, s: seq<Entry>)
    requires Sorted(s) && forall i :: 0 <= i < |s| ==> s[i].bus != e.bus
    ensures Sorted(Insert(e, s)) && |Insert(e, s)| == |s| + 1
    ensures forall x :: x in Insert(e, s) <==> x == e || x in s
  {
    if s != [] && !Less(e.bus, s[0].bus) {
      InsertSorted(e, s[1..]);
      var rest := Insert(e, s[1..]);
      forall i | 0 <= i < |rest| ensures Less(s[0].bus, rest[i].bus) {
        assert rest[i] in rest;
      }
      assert s == [s[0]] + s[1..];
    }
  }

  /** Sorting by distinct keys keeps the entries and puts them in strictly increasing key order. */
  lemma {:induction false} SortIsSorted(entries: seq<Entry>)
    requires Separate(entries)
    ensures Sorted(SortEntries(entries)) && |SortEntries(entries)| == |entries| && SameEntries(SortEntries(entries), entries)
  {
    if entries != [] {
      var front, last := entries[..|entries| - 1], entries[|entries| - 1];
      SortIsSorted(front);
      var s := SortEntries(front);
      forall i | 0 <= i < |s| ensures s[i].bus != last.bus {
        assert s[i] in front;
      }
      InsertSorted(last, s);
      hide SortEntries, Insert, Sorted;
      assert entries == front + [last];
    }
  }

  lemma {:induction false} SortedIsUnique(a: seq<Entry>, b: seq<Entry>)
    requires Sorted(a) && Sorted(b) && SameEntries(a, b)
    ensures a == b
  {
    assert b != [] ==> b[0] in b;
    if a != [] {
      assert a[0] in b && b[0] in a;
      SameHead(a, b);
      TailEntries(a, b);
      TailEntries(b, a);
      SortedIsUnique(a[1..], b[1..]);
      assert a == [a[0]] + a[1..] && b == [b[0]] + b[1..];
    }
  }

  lemma SameHead(a: seq<Entry>, b: seq<Entry>)
    requires Sorted(a) && Sorted(b) && a != [] && b != [] && a[0] in b && b[0] in a
    ensures a[0] == b[0]
  {
    var i :| 0 <= i < |b| && b[i] == a[0];
    var j :| 0 <= j < |a| && a[j] == b[0];
    if i > 0 {
      assert Less(b[0].bus, b[i].bus);
      assert j > 0 ==> Less(a[0].bus, a[j].bus);
    }
  }

  lemma TailEntries(a: seq<Entry>, b: seq<Entry>)
    requires Sorted(a) && SameEntries(a, b) && a != [] && b != [] && a[0] == b[0]
    ensures forall e :: e in a[1..] ==> e in b[1..]
  {
    forall e | e in a[1..] ensures e in b[1..] {
      var i :| 1 <= i < |a| && a[i] == e;
      assert Less(a[0].bus, a[i].bus) && a[i] in b;
    }
  }

  /** The ordinals depend on which GPUs were seen, not on the order of the rows or on who read them. */
  lemma SameOrdinals(a: seq<Entry>, b: seq<Entry>, uuid: string)
    requires Separate(a) && Separate(b) && SameEntries(a, b)
    ensures SortEntries(a) == SortEntries(b) && Ordinal(a, uuid) == Ordinal(b, uuid)
  {
    SortIsSorted(a);
    SortIsSorted(b);
    hide SortEntries, PlaceOf, Separate, Sorted;
    SortedIsUnique(SortEntries(a), SortEntries(b));
  }

  function CountBelow(entries: seq<Entry>, bus: BusId): nat {
    if entries == [] then 0
    else CountBelow(entries[..|entries| - 1], bus) + if Less(entries[|entries| - 1].bus, bus) then 1 else 0
  }

  lemma {:induction false} CountBelowSplits(a: seq<Entry>, b: seq<Entry>, bus: BusId)
    ensures CountBelow(a + b, bus) == CountBelow(a, bus) + CountBelow(b, bus)
  {
    if b == [] {
      assert a + b == a;
    } else {
      assert (a + b)[..|a + b| - 1] == a + b[..|b| - 1];
      CountBelowSplits(a, b[..|b| - 1], bus);
    }
  }

  lemma CountBelowOne(e: Entry, s: seq<Entry>, bus: BusId)
    ensures CountBelow([e] + s, bus) == CountBelow(s, bus) + if Less(e.bus, bus) then 1 else 0
  {
    CountBelowSplits([e], s, bus);
    assert [e][..0] == [];
  }

  lemma {:induction false} CountBelowInsert(e: Entry, s: seq<Entry>, bus: BusId)
    ensures CountBelow(Insert(e, s), bus) == CountBelow(s, bus) + if Less(e.bus, bus) then 1 else 0
  {
    if s == [] || Less(e.bus, s[0].bus) {
      CountBelowOne(e, s, bus);
    } else {
      CountBelowInsert(e, s[1..], bus);
      CountBelowOne(s[0], Insert(e, s[1..]), bus);
      CountBelowOne(s[0], s[1..], bus);
      assert s == [s[0]] + s[1..];
    }
  }

  lemma {:induction false} CountBelowSort(entries: seq<Entry>, bus: BusId)
    ensures CountBelow(SortEntries(entries), bus) == CountBelow(entries, bus)
  {
    if entries != [] {
      CountBelowSort(entries[..|entries| - 1], bus);
      CountBelowInsert(entries[|entries| - 1], SortEntries(entries[..|entries| - 1]), bus);
    }
  }

  lemma {:induction false} SortedBelow(s: seq<Entry>, k: nat)
    requires Sorted(s) && k < |s|
    ensures CountBelow(s, s[k].bus) == k
  {
    var front := s[..|s| - 1];
    if k == |s| - 1 {
      AllBelow(front, s[k].bus);
    } else {
      SortedBelow(front, k);
      assert Less(s[k].bus, s[|s| - 1].bus);
    }
  }

  lemma {:induction false} AllBelow(s: seq<Entry>, bus: BusId)
    requires forall i :: 0 <= i < |s| ==> Less(s[i].bus, bus)
    ensures CountBelow(s, bus) == |s|
  {
    if s != [] {
      AllBelow(s[..|s| - 1], bus);
    }
  }

  lemma {:induction false} PlaceFound(s: seq<Entry>, uuid: string)
    ensures PlaceOf(s, uuid).Some? <==> exists i :: 0 <= i < |s| && s[i].uuid == uuid
    ensures PlaceOf(s, uuid).Some? ==> PlaceOf(s, uuid).value < |s| && s[PlaceOf(s, uuid).value].uuid == uuid
  {
    if s != [] {
      PlaceFound(s[1..], uuid);
      assert forall i :: 0 < i < |s| ==> s[i] == s[1..][i - 1];
    }
  }

  lemma SameUuidSameEntry(entries: seq<Entry>, e: Entry, f: Entry)
    requires Separate(entries) && e in entries && f in entries && (e.uuid == f.uuid || e.bus == f.bus)
    ensures e == f
  {
  }

  /** A GPU's ordinal is the number of observed GPUs whose bus id is smaller. */
  lemma OrdinalIsRank(entries: seq<Entry>, e: Entry)
    requires Separate(entries) && e in entries
    ensures Ordinal(entries, e.uuid) == Some(CountBelow(entries, e.bus)) && CountBelow(entries, e.bus) < |entries|
    ensures |SortEntries(entries)| == |entries| && SortEntries(entries)[CountBelow(entries, e.bus)] == e
  {
    var s := SortEntries(entries);
    SortIsSorted(entries);
    CountBelowSort(entries, e.bus);
    PlaceFound(s, e.uuid);
    hide SortEntries, CountBelow, PlaceOf, Sorted;
    assert e in s;
    var i :| 0 <= i < |s| && s[i] == e;
    var k := PlaceOf(s, e.uuid).value;
    assert s[k] in s;
    SameUuidSameEntry(entries, s[k], e);
    SortedBelow(s, k);
  }

  /** Some observed GPU has this ordinal. */
  ghost predicate Taken(entries: seq<Entry>, k: nat) {
    exists e :: e in entries && Ordinal(entries, e.uuid) == Some(k)
  }

  /** The ordinals are exactly 0 to n - 1, and they grow with the bus id. */
  lemma OrdinalsEnumerate(entries: seq<Entry>)
    requires Separate(entries)
    ensures forall uuid :: Ordinal(entries, uuid).Some? <==> exists e :: e in entries && e.uuid == uuid
    ensures forall k: nat :: k < |entries| <==> Taken(entries, k)
    ensures forall e, f :: e in entries && f in entries ==>
      (Less(e.bus, f.bus) <==> Ordinal(entries, e.uuid).value < Ordinal(entries, f.uuid).value)
  {
    forall uuid ensures Ordinal(entries, uuid).Some? <==> exists e :: e in entries && e.uuid == uuid {
      OrdinalFound(entries, uuid);
    }
    forall k: nat ensures k < |entries| <==> Taken(entries, k) {
      OrdinalTaken(entries, k);
    }
    forall e, f | e in entries && f in entries
      ensures Less(e.bus, f.bus) <==> Ordinal(entries, e.uuid).value < Ordinal(entries, f.uuid).value
    {
      OrdinalGrows(entries, e, f);
    }
  }

  lemma OrdinalFound(entries: seq<Entry>, uuid: string)
    requires Separate(entries)
    ensures Ordinal(entries, uuid).Some? <==> exists e :: e in entries && e.uuid == uuid
  {
    var s := SortEntries(entries);
    SortIsSorted(entries);
    PlaceFound(s, uuid);
    hide SortEntries, PlaceOf, Sorted, Separate;
    if i :| 0 <= i < |s| && s[i].uuid == uuid {
      assert s[i] in s;
    }
    if e :| e in entries && e.uuid == uuid {
      assert e in s;
    }
  }

  lemma OrdinalTaken(entries: seq<Entry>, k: nat)
    requires Separate(entries)
    ensures k < |entries| <==> Taken(entries, k)
  {
    var s := SortEntries(entries);
    SortIsSorted(entries);
    if k < |entries| {
      var e := s[k];
      assert e in s;
      CountBelowSort(entries, e.bus);
      SortedBelow(s, k);
      OrdinalIsRank(entries, e);
    }
    hide SortEntries, Ordinal, CountBelow;
    if e :| e in entries && Ordinal(entries, e.uuid) == Some(k) {
      OrdinalIsRank(entries, e);
    }
  }

  lemma OrdinalGrows(entries: seq<Entry>, e: Entry, f: Entry)
    requires Separate(entries) && e in entries && f in entries
    ensures Ordinal(entries, e.uuid).Some? && Ordinal(entries, f.uuid).Some?
    ensures Less(e.bus, f.bus) <==> Ordinal(entries, e.uuid).value < Ordinal(entries, f.uuid).value
  {
    SortIsSorted(entries);
    OrdinalIsRank(entries, e);
    OrdinalIsRank(entries, f);
    hide SortEntries, CountBelow, Ordinal;
  }

  // ----- the readers agree -----

  /** Accepted rows show distinct GPUs. */
  lemma {:induction false} EntriesAreSeparate(rows: seq<Row>)
    requires Acceptable(rows)
    ensures Separate(Entries(rows))
    ensures forall e :: e in Entries(rows) ==>
      exists i :: 0 <= i < |rows| && rows[i].Gpu? && e == Entry(rows[i].bus, rows[i].uuid)
  {
    if rows != [] {
      var front, last := rows[..|rows| - 1], rows[|rows| - 1];
      EntriesAreSeparate(front);
      forall e | e in Entries(front) && last.Gpu? ensures e.bus != last.bus && e.uuid != last.uuid {
        var i :| 0 <= i < |front| && front[i].Gpu? && e == Entry(front[i].bus, front[i].uuid);
        assert !Clash(rows[i], rows[|rows| - 1]);
      }
    }
  }

  /** Two accepted readings that show the same GPUs give every UUID the same ordinal, whatever the row order. */
  lemma AcceptedReadingsAgree(rows: seq<Row>, others: seq<Row>, uuid: string)
    requires Acceptable(rows) && Acceptable(others) && SameEntries(Entries(rows), Entries(others))
    ensures Ordinal(Entries(rows), uuid) == Ordinal(Entries(others), uuid)
  {
    EntriesAreSeparate(rows);
    EntriesAreSeparate(others);
    SameOrdinals(Entries(rows), Entries(others), uuid);
  }

  predicate Tight(s: string) {
    s != [] && !IsSpace(s[0]) && !IsSpace(s[|s| - 1])
  }

  lemma StripTight(s: string)
    requires Tight(s)
    ensures Strip(s) == s && Strip(" " + s) == s
  {
    assert IsSpace(' ');
    assert RStrip(s) == s && LStrip(s) == s;
    var t := " " + s;
    assert t[|t| - 1] == s[|s| - 1] && t[1..] == s;
    assert RStrip(t) == t && LStrip(t) == LStrip(s);
  }

  lemma {:induction false} SplitAtComma(a: string, b: string, n: nat)
    requires ',' !in a && n > 0
    ensures SplitAtMost(a + "," + b, n) == [a] + SplitAtMost(b, n - 1)
    decreases |a|
  {
    var s := a + "," + b;
    if a == [] {
      assert s[1..] == b;
    } else {
      SplitAtComma(a[1..], b, n);
      assert s[1..] == a[1..] + "," + b;
      assert [s[0]] + a[1..] == a;
      assert ([a[1..]] + SplitAtMost(b, n - 1))[1..] == SplitAtMost(b, n - 1);
    }
  }

  lemma UuidIsTight(uuid: string)
    requires ValidUuid(uuid)
    ensures Tight(uuid) && ',' !in uuid
    ensures !IsMissing(uuid)
  {
    assert uuid[0] == "GPU-"[0] && uuid[39] != ' ';
    forall i | 0 <= i < |uuid| ensures uuid[i] != ',' {
      if i < 4 {
        assert uuid[i] == "GPU-"[i];
      }
    }
  }

  lemma BusTextIsTight(text: string)
    requires ParseBusId(text).Some?
    ensures Tight(text) && !IsMissing(text)
  {
    var n := |text| - 8;
    assert IsHex(text[..n][0]) && text[0] == text[..n][0];
    assert text[n] == ':' && ':' in text;
    assert ':' !in "N/A" && ':' !in "[Not Supported]" && ':' !in "Not Supported";
  }

  lemma HelperParts(index: string, uuid: string, busText: string)
    requires ',' !in index && ',' !in uuid
    ensures SplitAtMost(index + "," + (" " + uuid + "," + (" " + busText)), 2) == [index, " " + uuid, " " + busText]
  {
    SplitAtComma(index, " " + uuid + "," + (" " + busText), 2);
    SplitAtComma(" " + uuid, " " + busText, 1);
    LastPart(" " + busText);
    hide SplitAtMost;
    assert [" " + uuid] + [" " + busText] == [" " + uuid, " " + busText];
    assert [index] + [" " + uuid, " " + busText] == [index, " " + uuid, " " + busText];
  }

  /** The line printed for a GPU gives the helper its index, UUID and bus id. */
  lemma HelperReads(index: string, uuid: string, busText: string)
    requires index != "" && AllDigits(index) && ValidUuid(uuid) && ParseBusId(busText).Some?
    ensures HelperLine(index + "," + (" " + uuid + "," + (" " + busText)))
      == Gpu(Value(index), uuid, ParseBusId(busText).value)
  {
    hide ValidUuid, ParseBusId, Strip, SplitAtMost, Value, Tight;
    UuidIsTight(uuid);
    BusTextIsTight(busText);
    DigitsAreTight(index);
    HelperParts(index, uuid, busText);
    StripTight(index);
    StripTight(uuid);
    StripTight(busText);
    NotBlank(index + "," + (" " + uuid + "," + (" " + busText)));
  }

  lemma DigitsAreTight(s: string)
    requires s != "" && AllDigits(s)
    ensures Tight(s) && ',' !in s
  {
  }

  lemma LastPart(s: string)
    ensures SplitAtMost(s, 0) == [s]
  {
  }

  lemma NotBlank(line: string)
    requires line != "" && IsDigit(line[0])
    ensures Strip(line) != ""
  {
    assert RStrip(line) != "" by {
      assert !IsSpace(line[0]);
    }
    assert RStrip(line)[0] == line[0];
  }

  /** The row printed for the same GPU gives both collectors the same UUID and bus id. */
  lemma CollectorReads(row: seq<string>, asInt: string -> Option<int>, uuid: string, busText: string)
    requires |row| == 12 && Strip(row[1]) == uuid && Strip(row[11]) == busText
    requires ValidUuid(uuid) && ParseBusId(busText).Some?
    ensures var r := CsvRow(row, asInt);
      r == Bad || (r.Gpu? && r.uuid == uuid && r.bus == ParseBusId(busText).value)
    ensures CsvRow(row, asInt) == Bad <==> Number(Column(row, 0), asInt) == None || !Complete(row, asInt)
  {
    UuidIsTight(uuid);
    BusTextIsTight(busText);
    hide ValidUuid, ParseBusId, Strip, Number, Column, Complete, IsMissing, Tight, CsvRow;
    ColumnText(row, 1);
    ColumnText(row, 11);
    FullRow(row, asInt);
  }

  lemma FullRow(row: seq<string>, asInt: string -> Option<int>)
    requires |row| == 12 && Strip(row[1]) != ""
    ensures CsvRow(row, asInt)
         == CsvGpu(Number(Column(row, 0), asInt), Column(row, 1), Column(row, 11), Complete(row, asInt))
  {
    hide Strip, Number, Column, Complete, CsvGpu;
  }

  lemma ColumnText(row: seq<string>, i: nat)
    requires i < |row| && !IsMissing(Strip(row[i]))
    ensures Column(row, i) == Some(Strip(row[i])) && Strip(row[i]) != ""
  {
    hide Strip;
  }

  // ----- one machine, three readers -----

  /** What the NVIDIA tool prints of a GPU in every one of the three tables. */
  datatype Device = Device(index: string, uuid: string, busText: string) {
    predicate Valid() {
      index != "" && AllDigits(index) && ValidUuid(uuid) && ParseBusId(busText).Some?
    }

    function Line(): string {
      index + "," + (" " + uuid + "," + (" " + busText))
    }

    function ToEntry(): Entry
      requires Valid()
    {
      Entry(ParseBusId(busText).value, uuid)
    }
  }

  ghost predicate AllDevices(devices: seq<Device>) {
    forall i :: 0 <= i < |devices| ==> devices[i].Valid()
  }

  /** The helper's lines, in the order of the list. */
  ghost predicate PrintedLines(lines: seq<string>, devices: seq<Device>) {
    |lines| == |devices| && forall i :: 0 <= i < |lines| ==> lines[i] == devices[i].Line()
  }

  /** A collector's rows, in the order of the list; ten of the twelve columns are left open. */
  ghost predicate PrintedRows(csv: seq<seq<string>>, devices: seq<Device>) {
    |csv| == |devices| && forall i :: 0 <= i < |csv| ==>
      |csv[i]| == 12 && Strip(csv[i][1]) == devices[i].uuid && Strip(csv[i][11]) == devices[i].busText
  }

  ghost predicate SameDevices(a: seq<Device>, b: seq<Device>) {
    forall d :: d in a <==> d in b
  }

  /** The rows of a reading show these devices, one by one. */
  ghost predicate Show(rows: seq<Row>, devices: seq<Device>)
    requires AllDevices(devices)
  {
    |rows| == |devices| && forall i :: 0 <= i < |rows| ==>
      rows[i].Gpu? && Entry(rows[i].bus, rows[i].uuid) == devices[i].ToEntry()
  }

  lemma HelperShows(lines: seq<string>, devices: seq<Device>)
    requires AllDevices(devices) && PrintedLines(lines, devices)
    ensures Show(Parsed(lines, HelperLine), devices)
  {
    hide HelperLine;
    forall i | 0 <= i < |lines|
      ensures HelperLine(lines[i]).Gpu?
        && Entry(HelperLine(lines[i]).bus, HelperLine(lines[i]).uuid) == devices[i].ToEntry()
    {
      HelperReads(devices[i].index, devices[i].uuid, devices[i].busText);
    }
  }

  lemma CollectorShows(csv: seq<seq<string>>, asInt: string -> Option<int>, devices: seq<Device>)
    requires AllDevices(devices) && PrintedRows(csv, devices) && Acceptable(Parsed(csv, CsvReader(asInt)))
    ensures Show(Parsed(csv, CsvReader(asInt)), devices)
  {
    hide CsvRow, Strip, Clash;
    var rows := Parsed(csv, CsvReader(asInt));
    forall i | 0 <= i < |csv|
      ensures rows[i].Gpu? && Entry(rows[i].bus, rows[i].uuid) == devices[i].ToEntry()
    {
      CollectorReads(csv[i], asInt, devices[i].uuid, devices[i].busText);
      assert rows[i] == CsvRow(csv[i], asInt) != Bad;
    }
  }

  lemma {:induction false} ShownEntries(rows: seq<Row>, devices: seq<Device>)
    requires AllDevices(devices) && Show(rows, devices)
    ensures |Entries(rows)| == |devices|
    ensures forall i :: 0 <= i < |devices| ==> Entries(rows)[i] == devices[i].ToEntry()
  {
    if rows != [] {
      ShownEntries(rows[..|rows| - 1], devices[..|devices| - 1]);
    }
  }

  lemma ShownAlike(rows: seq<Row>, devices: seq<Device>, others: seq<Row>, otherDevices: seq<Device>)
    requires AllDevices(devices) && AllDevices(otherDevices) && SameDevices(devices, otherDevices)
    requires Show(rows, devices) && Show(others, otherDevices)
    ensures forall e :: e in Entries(rows) ==> e in Entries(others)
  {
    ShownEntries(rows, devices);
    ShownEntries(others, otherDevices);
    hide Entries;
    forall e | e in Entries(rows) ensures e in Entries(others) {
      var i :| 0 <= i < |devices| && Entries(rows)[i] == e;
      assert devices[i] in otherDevices;
      var j :| 0 <= j < |otherDevices| && otherDevices[j] == devices[i];
      assert Entries(others)[j] == e;
    }
  }

  /** Two accepted readings of one machine's GPUs, in any orders, give every UUID the same ordinal. */
  lemma SameMachineSameOrdinals(rows: seq<Row>, devices: seq<Device>, others: seq<Row>, otherDevices: seq<Device>)
    requires AllDevices(devices) && AllDevices(otherDevices) && SameDevices(devices, otherDevices)
    requires Show(rows, devices) && Show(others, otherDevices) && Acceptable(rows) && Acceptable(others)
    ensures forall uuid :: Ordinal(Entries(rows), uuid) == Ordinal(Entries(others), uuid)
  {
    ShownAlike(rows, devices, others, otherDevices);
    ShownAlike(others, otherDevices, rows, devices);
    hide Entries, Ordinal, Acceptable;
    forall uuid ensures Ordinal(Entries(rows), uuid) == Ordinal(Entries(others), uuid) {
      AcceptedReadingsAgree(rows, others, uuid);
    }
  }

  // ----- the two results -----

  /** `_resolve_gpu_ordinals`: UUIDs to ordinals, or a refusal. */
  method ResolveGpuOrdinals(lines: seq<string>) returns (ordinals: Option<map<string, nat>>)
    ensures var rows := Parsed(lines, HelperLine);
      && (ordinals.Some? <==> Acceptable(rows) && Entries(rows) != [])
      && (ordinals.Some? ==> forall uuid ::
            Ordinal(Entries(rows), uuid) == if uuid in ordinals.value then Some(ordinals.value[uuid]) else None)
  {
    var observed := Observe(lines, HelperLine);
    if observed == None || observed.value == [] {
      return None;
    }
    EntriesAreSeparate(Parsed(lines, HelperLine));
    var table := Enumerate(observed.value);
    ordinals := Some(table);
  }

  method Enumerate(entries: seq<Entry>) returns (table: map<string, nat>)
    requires Separate(entries)
    ensures forall uuid :: Ordinal(entries, uuid) == if uuid in table then Some(table[uuid]) else None
  {
    var s := SortEntries(entries);
    ghost var uuids := SortedUuids(entries);
    table := map[];
    for i := 0 to |s|
      invariant forall k :: 0 <= k < i ==> uuids[k] in table && table[uuids[k]] == k
      invariant forall uuid :: uuid in table ==> exists k :: 0 <= k < i && uuids[k] == uuid
    {
      table := table[s[i].uuid := i];
    }
    forall uuid ensures Ordinal(entries, uuid) == if uuid in table then Some(table[uuid]) else None {
      PlaceFound(s, uuid);
    }
  }

  lemma SortedUuids(entries: seq<Entry>) returns (uuids: seq<string>)
    requires Separate(entries)
    ensures var s := SortEntries(entries);
      |uuids| == |s| && (forall i :: 0 <= i < |s| ==> uuids[i] == s[i].uuid) && Distinct(uuids)
  {
    var s := SortEntries(entries);
    uuids := seq(|s|, i requires 0 <= i < |s| => s[i].uuid);
    SortIsSorted(entries);
    hide SortEntries;
    forall i, j | 0 <= i < j < |s| ensures uuids[i] != uuids[j] {
      assert s[i] in s && s[j] in s && Less(s[i].bus, s[j].bus);
      if s[i].uuid == s[j].uuid {
        SameUuidSameEntry(entries, s[i], s[j]);
      }
    }
  }

  /** `parse_gpu_csv`: the GPUs in ordinal order, or a refusal. `_gpu_snapshot` differs in the numbers and in accepting no GPU. */
  method ParseGpuCsv(csv: seq<seq<string>>, asInt: string -> Option<int>, emptyAllowed: bool) returns (gpus: Option<seq<Entry>>)
    ensures var rows := Parsed(csv, CsvReader(asInt));
      && (gpus.Some? <==> Acceptable(rows) && (Entries(rows) != [] || emptyAllowed))
      && (gpus.Some? ==> |gpus.value| == |Entries(rows)| && SameEntries(gpus.value, Entries(rows)) && Sorted(gpus.value))
      && (gpus.Some? ==> forall k :: 0 <= k < |gpus.value| ==> Ordinal(Entries(rows), gpus.value[k].uuid) == Some(k))
  {
    var parse := CsvReader(asInt);
    var observed := Observe(csv, parse);
    if observed == None || (observed.value == [] && !emptyAllowed) {
      return None;
    }
    var entries := observed.value;
    EntriesAreSeparate(Parsed(csv, parse));
    gpus := Some(SortEntries(entries));
    SortIsSorted(entries);
    forall k | 0 <= k < |gpus.value| ensures Ordinal(entries, gpus.value[k].uuid) == Some(k) {
      assert gpus.value[k] in gpus.value;
      OrdinalIsRank(entries, gpus.value[k]);
      CountBelowSort(entries, gpus.value[k].bus);
      SortedBelow(gpus.value, k);
    }
  }

  /** The list holds every UUID of the table at its ordinal, and nothing else. */
  ghost predicate Agrees(table: map<string, nat>, gpus: seq<Entry>) {
    && (forall k :: 0 <= k < |gpus| ==> gpus[k].uuid in table && table[gpus[k].uuid] == k)
    && (forall uuid :: uuid in table ==> table[uuid] < |gpus| && gpus[table[uuid]].uuid == uuid)
  }

  lemma TableMatchesList(entries: seq<Entry>, table: map<string, nat>, gpus: seq<Entry>)
    requires Separate(entries) && SameEntries(gpus, entries)
    requires forall uuid :: Ordinal(entries, uuid) == if uuid in table then Some(table[uuid]) else None
    requires forall k :: 0 <= k < |gpus| ==> Ordinal(entries, gpus[k].uuid) == Some(k)
    ensures Agrees(table, gpus)
  {
    hide Ordinal, Separate;
    forall uuid | uuid in table ensures table[uuid] < |gpus| && gpus[table[uuid]].uuid == uuid {
      OrdinalFound(entries, uuid);
      var e :| e in entries && e.uuid == uuid;
      var j :| 0 <= j < |gpus| && gpus[j] == e;
      assert Ordinal(entries, gpus[j].uuid) == Some(j);
    }
  }

  lemma TableNamesDevices(rows: seq<Row>, devices: seq<Device>, table: map<string, nat>)
    requires AllDevices(devices) && Show(rows, devices) && Acceptable(rows)
    requires forall uuid :: Ordinal(Entries(rows), uuid) == if uuid in table then Some(table[uuid]) else None
    ensures forall uuid :: uuid in table <==> exists d :: d in devices && d.uuid == uuid
  {
    EntriesAreSeparate(rows);
    ShownEntries(rows, devices);
    hide Entries, Ordinal, Separate, Acceptable, Show;
    forall uuid ensures uuid in table <==> exists d :: d in devices && d.uuid == uuid {
      OrdinalFound(Entries(rows), uuid);
      if uuid in table {
        var e :| e in Entries(rows) && e.uuid == uuid;
        var i :| 0 <= i < |devices| && Entries(rows)[i] == e;
        assert devices[i] in devices && devices[i].uuid == uuid;
      }
      if d :| d in devices && d.uuid == uuid {
        var i :| 0 <= i < |devices| && devices[i] == d;
        assert Entries(rows)[i] in Entries(rows) && Entries(rows)[i].uuid == uuid;
      }
    }
  }

  lemma ReadingsMatch(
    rows: seq<Row>, devices: seq<Device>, others: seq<Row>, otherDevices: seq<Device>,
    table: map<string, nat>, gpus: seq<Entry>)
    requires AllDevices(devices) && AllDevices(otherDevices) && SameDevices(devices, otherDevices)
    requires Show(rows, devices) && Show(others, otherDevices) && Acceptable(rows) && Acceptable(others)
    requires forall uuid :: Ordinal(Entries(rows), uuid) == if uuid in table then Some(table[uuid]) else None
    requires SameEntries(gpus, Entries(others))
    requires forall k :: 0 <= k < |gpus| ==> Ordinal(Entries(others), gpus[k].uuid) == Some(k)
    ensures Agrees(table, gpus)
  {
    SameMachineSameOrdinals(rows, devices, others, otherDevices);
    EntriesAreSeparate(others);
    hide Entries, Ordinal, Separate, Acceptable, Show, Agrees;
    TableMatchesList(Entries(others), table, gpus);
  }

  /** The lists of the two collectors for one machine are the same list. */
  lemma ListsMatch(
    rows: seq<Row>, devices: seq<Device>, others: seq<Row>, otherDevices: seq<Device>, gpus: seq<Entry>, local: seq<Entry>)
    requires AllDevices(devices) && AllDevices(otherDevices) && SameDevices(devices, otherDevices)
    requires Show(rows, devices) && Show(others, otherDevices)
    requires SameEntries(gpus, Entries(rows)) && Sorted(gpus) && SameEntries(local, Entries(others)) && Sorted(local)
    ensures gpus == local
  {
    ShownAlike(rows, devices, others, otherDevices);
    ShownAlike(others, otherDevices, rows, devices);
    hide Entries, Sorted, Show;
    SortedIsUnique(gpus, local);
  }

  /** The helper and the two collectors on one machine: whatever the order of each one's rows and however each
    * collector reads numbers, all that accept their rows give every UUID the same ordinal. */
  method ReadMachine(
    lines: seq<string>, ghost lineDevices: seq<Device>,
    csv: seq<seq<string>>, asInt: string -> Option<int>, ghost csvDevices: seq<Device>,
    serverCsv: seq<seq<string>>, asInteger: string -> Option<int>, ghost serverDevices: seq<Device>)
    returns (table: Option<map<string, nat>>, gpus: Option<seq<Entry>>, local: Option<seq<Entry>>)
    requires AllDevices(lineDevices) && AllDevices(csvDevices) && AllDevices(serverDevices)
    requires SameDevices(lineDevices, csvDevices) && SameDevices(lineDevices, serverDevices)
    requires PrintedLines(lines, lineDevices) && PrintedRows(csv, csvDevices) && PrintedRows(serverCsv, serverDevices)
    ensures table.Some? ==> forall uuid :: uuid in table.value <==> exists d :: d in lineDevices && d.uuid == uuid
    ensures table.Some? && gpus.Some? ==> Agrees(table.value, gpus.value)
    ensures table.Some? && local.Some? ==> Agrees(table.value, local.value)
    ensures gpus.Some? && local.Some? ==> gpus.value == local.value
  {
    hide Entries, Ordinal, Acceptable, Show, PrintedLines, PrintedRows, HelperLine, CsvRow, Agrees, Sorted, AllDevices;
    table := ResolveGpuOrdinals(lines);
    gpus := ParseGpuCsv(csv, asInt, false);
    local := ParseGpuCsv(serverCsv, asInteger, true);
    ghost var rows := Parsed(lines, HelperLine);
    ghost var csvRows, serverRows := Parsed(csv, CsvReader(asInt)), Parsed(serverCsv, CsvReader(asInteger));
    HelperShows(lines, lineDevices);
    if gpus.Some? { CollectorShows(csv, asInt, csvDevices); }
    if local.Some? { CollectorShows(serverCsv, asInteger, serverDevices); }
    if table.Some? {
      TableNamesDevices(rows, lineDevices, table.value);
      if gpus.Some? { ReadingsMatch(rows, lineDevices, csvRows, csvDevices, table.value, gpus.value); }
      if local.Some? { ReadingsMatch(rows, lineDevices, serverRows, serverDevices, table.value, local.value); }
    }
    if gpus.Some? && local.Some? {
      ListsMatch(csvRows, csvDevices, serverRows, serverDevices, gpus.value, local.value);
    }
  }
}
