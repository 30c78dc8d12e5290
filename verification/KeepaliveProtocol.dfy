/** The version 3 request and response messages of the keepalive helper, and the two checks a
    helper reply passes before the broker believes it. */
module KeepaliveProtocol {
  import opened Text
  import opened Json

  const SCHEMA_VERSION := 3

  datatype Status = Running | Stopped

  datatype Outcome = DidStart | DidStop | Unchanged

  datatype GpuResult = GpuResult(gpuUuid: string, status: Status, outcome: Outcome)

  datatype Request = Request(enabled: bool, gpuUuids: seq<string>)

  datatype Response = Response(enabled: bool, results: seq<GpuResult>)

  /** `UnhashableField` is the `TypeError` Python raises when a status or outcome is an array or
      an object: it is no `ValueError`, so the adapter does not turn it into a command error. */
  datatype DecodeError = ProtocolError | UnhashableField

  datatype Decoded<+T> = Ok(value: T) | Err(error: DecodeError)

  // ----- GPU UUIDs -----

  predicate IsHex(c: char) {
    '0' <= c <= '9' || 'a' <= c <= 'f' || 'A' <= c <= 'F'
  }

  /** `GPU-` and hexadecimal groups of 8, 4, 4, 4 and 12 digits. */
  predicate ValidUuid(s: string) {
    && |s| == 40 && "GPU-" <= s
    && forall i :: 4 <= i < 40 ==> if i in {12, 17, 22, 27} then s[i] == '-' else IsHex(s[i])
  }

  predicate AllValid(uuids: seq<string>) {
    forall i :: 0 <= i < |uuids| ==> ValidUuid(uuids[i])
  }

  function ToSet(xs: seq<string>): set<string> {
    set x | x in xs
  }

  lemma {:induction false} DistinctByCount(xs: seq<string>)
    ensures |ToSet(xs)| <= |xs|
    ensures Distinct(xs) <==> |ToSet(xs)| == |xs|
  {
    if xs != [] {
      var last, front := xs[|xs| - 1], xs[..|xs| - 1];
      DistinctByCount(front);
      assert ToSet(xs) == ToSet(front) + {last};
      assert xs == front + [last];
      if Distinct(xs) {
        assert last !in front;
      } else if Distinct(front) {
        var i, j :| 0 <= i < j < |xs| && xs[i] == xs[j];
        assert front[i] == last;
      }
    }
  }

  // ----- encoding -----

  function StatusText(s: Status): string {
    if s.Running? then "running" else "stopped"
  }

  function OutcomeText(o: Outcome): string {
    match o
    case DidStart => "started"
    case DidStop => "stopped"
    case Unchanged => "unchanged"
  }

  function ResultJson(r: GpuResult): Json {
    Obj([Member("gpu_uuid", Str(r.gpuUuid)), Member("status", Str(StatusText(r.status))),
         Member("outcome", Str(OutcomeText(r.outcome)))])
  }

  function ResultsJson(rs: seq<GpuResult>): (vs: seq<Json>)
    ensures |vs| == |rs| && forall i :: 0 <= i < |rs| ==> vs[i] == ResultJson(rs[i])
  {
    seq(|rs|, i requires 0 <= i < |rs| => ResultJson(rs[i]))
  }

  /** Both messages: the schema version, the desired state and one array. */
  function MessageMembers(enabled: bool, name: string, vs: seq<Json>): seq<Member> {
    [Member("schema_version", Int(SCHEMA_VERSION)), Member("enabled", Bool(enabled)), Member(name, Arr(vs))]
  }

  function EncodeMessage(enabled: bool, name: string, vs: seq<Json>): string {
    Print(Obj(MessageMembers(enabled, name, vs))) + "\n"
  }

  function EncodeResponse(r: Response): string {
    EncodeMessage(r.enabled, "results", ResultsJson(r.results))
  }

  function UuidsJson(us: seq<string>): (vs: seq<Json>)
    ensures |vs| == |us| && forall i :: 0 <= i < |us| ==> vs[i] == Str(us[i])
  {
    seq(|us|, i requires 0 <= i < |us| => Str(us[i]))
  }

  /** `KeepaliveRequest.encode`: refused when empty or when a UUID is malformed. */
  function EncodeRequest(r: Request): Decoded<string> {
    if r.gpuUuids == [] || !AllValid(r.gpuUuids) then Err(ProtocolError)
    else Ok(EncodeMessage(r.enabled, "gpu_uuids", UuidsJson(r.gpuUuids)))
  }

  // ----- decoding -----

  function DecodeStatus(v: Json): Decoded<Status> {
    if v.Arr? || v.Obj? then Err(UnhashableField)
    else if v == Str("running") then Ok(Running)
    else if v == Str("stopped") then Ok(Stopped)
    else Err(ProtocolError)
  }

  function DecodeOutcome(v: Json): Decoded<Outcome> {
    if v.Arr? || v.Obj? then Err(UnhashableField)
    else if v == Str("started") then Ok(DidStart)
    else if v == Str("stopped") then Ok(DidStop)
    else if v == Str("unchanged") then Ok(Unchanged)
    else Err(ProtocolError)
  }

  function DecodeResult(v: Json): Decoded<GpuResult> {
    if !v.Obj? then Err(ProtocolError)
    else
      match (Lookup(v.members, "gpu_uuid"), Lookup(v.members, "status"), Lookup(v.members, "outcome"))
      case (Some(Str(uuid)), Some(status), Some(outcome)) =>
        if !ValidUuid(uuid) then Err(ProtocolError)
        else
          (match DecodeStatus(status)
           case Err(e) => Err(e)
           case Ok(st) =>
             match DecodeOutcome(outcome)
             case Err(e) => Err(e)
             case Ok(oc) => Ok(GpuResult(uuid, st, oc)))
      case _ => Err(ProtocolError)
  }

  function DecodeResults(vs: seq<Json>): Decoded<seq<GpuResult>> {
    if vs == [] then Ok([])
    else
      match DecodeResult(vs[0])
      case Err(e) => Err(e)
      case Ok(r) =>
        match DecodeResults(vs[1..])
        case Err(e) => Err(e)
        case Ok(rs) => Ok([r] + rs)
  }

  /** The members of a version 3 message. */
  function DecodeMessage(text: string): Decoded<seq<Member>> {
    match Read(text)
    case Some(Obj(members)) =>
      if Lookup(members, "schema_version") == Some(Int(SCHEMA_VERSION)) then Ok(members) else Err(ProtocolError)
    case _ => Err(ProtocolError)
  }

  function DecodeResponse(text: string): Decoded<Response> {
    match DecodeMessage(text)
    case Err(e) => Err(e)
    case Ok(members) =>
      match (Lookup(members, "enabled"), Lookup(members, "results"))
      case (Some(Bool(enabled)), Some(Arr(vs))) =>
        (match DecodeResults(vs)
         case Err(e) => Err(e)
         case Ok(rs) => Ok(Response(enabled, rs)))
      case _ => Err(ProtocolError)
  }

  function DecodeUuids(vs: seq<Json>): Decoded<seq<string>> {
    if vs == [] then Ok([])
    else if !vs[0].Str? || !ValidUuid(vs[0].s) then Err(ProtocolError)
    else
      match DecodeUuids(vs[1..])
      case Err(e) => Err(e)
      case Ok(us) => Ok([vs[0].s] + us)
  }

  function DecodeRequest(text: string): Decoded<Request> {
    match DecodeMessage(text)
    case Err(e) => Err(e)
    case Ok(members) =>
      match (Lookup(members, "enabled"), Lookup(members, "gpu_uuids"))
      case (Some(Bool(enabled)), Some(Arr(vs))) =>
        if vs == [] then Err(ProtocolError)
        else
          (match DecodeUuids(vs)
           case Err(e) => Err(e)
           case Ok(us) => Ok(Request(enabled, us)))
      case _ => Err(ProtocolError)
  }

  // ----- round trips -----

  lemma LookupInThree(a: Member, b: Member, c: Member)
    requires a.name != b.name && b.name != c.name && a.name != c.name
    ensures Lookup([a, b, c], a.name) == Some(a.value)
    ensures Lookup([a, b, c], b.name) == Some(b.value)
    ensures Lookup([a, b, c], c.name) == Some(c.value)
  {
    LookupAt([a, b, c], 0);
    LookupAt([a, b, c], 1);
    LookupAt([a, b, c], 2);
  }

  lemma DecodeResultOfJson(r: GpuResult)
    ensures DecodeResult(ResultJson(r)) == if ValidUuid(r.gpuUuid) then Ok(r) else Err(ProtocolError)
  {
    hide Lookup;
    LookupInThree(Member("gpu_uuid", Str(r.gpuUuid)), Member("status", Str(StatusText(r.status))),
                  Member("outcome", Str(OutcomeText(r.outcome))));
  }

  lemma {:induction false} DecodeResultsOfJson(rs: seq<GpuResult>, vs: seq<Json>)
    requires |vs| == |rs| && forall i :: 0 <= i < |rs| ==> vs[i] == ResultJson(rs[i])
    ensures DecodeResults(vs) == if forall r :: r in rs ==> ValidUuid(r.gpuUuid) then Ok(rs) else Err(ProtocolError)
  {
    if rs != [] {
      DecodeResultOfJson(rs[0]);
      DecodeResultsOfJson(rs[1..], vs[1..]);
      assert rs == [rs[0]] + rs[1..];
      assert forall r :: r in rs <==> r == rs[0] || r in rs[1..];
    }
  }

  lemma DecodeOwnMessage(enabled: bool, name: string, vs: seq<Json>)
    requires name == "results" || name == "gpu_uuids"
    ensures DecodeMessage(EncodeMessage(enabled, name, vs)) == Ok(MessageMembers(enabled, name, vs))
    ensures Lookup(MessageMembers(enabled, name, vs), "enabled") == Some(Bool(enabled))
    ensures Lookup(MessageMembers(enabled, name, vs), name) == Some(Arr(vs))
  {
    hide Print, Read, Lookup;
    var members := MessageMembers(enabled, name, vs);
    ReadOfPrint(Obj(members));
    LookupInThree(members[0], members[1], members[2]);
  }

  /** A response is decoded to itself exactly when every UUID in it is well formed. */
  lemma ResponseRoundTrip(r: Response)
    ensures DecodeResponse(EncodeResponse(r)) ==
            if forall x :: x in r.results ==> ValidUuid(x.gpuUuid) then Ok(r) else Err(ProtocolError)
  {
    hide EncodeMessage, DecodeMessage, MessageMembers, Lookup, DecodeResults, ValidUuid, ResultJson;
    DecodeOwnMessage(r.enabled, "results", ResultsJson(r.results));
    DecodeResultsOfJson(r.results, ResultsJson(r.results));
  }

  lemma {:induction false} DecodeUuidsOfJson(us: seq<string>, vs: seq<Json>)
    requires |vs| == |us| && AllValid(us) && forall i :: 0 <= i < |us| ==> vs[i] == Str(us[i])
    ensures DecodeUuids(vs) == Ok(us)
  {
    if us != [] {
      DecodeUuidsOfJson(us[1..], vs[1..]);
      assert us == [us[0]] + us[1..];
    }
  }

  /** Every request the adapter can send reaches the helper unchanged. */
  lemma RequestRoundTrip(r: Request)
    ensures EncodeRequest(r).Ok? <==> r.gpuUuids != [] && AllValid(r.gpuUuids)
    ensures EncodeRequest(r).Ok? ==> DecodeRequest(EncodeRequest(r).value) == Ok(r)
  {
    hide EncodeMessage, DecodeMessage, MessageMembers, Lookup, DecodeUuids, ValidUuid;
    if EncodeRequest(r).Ok? {
      DecodeOwnMessage(r.enabled, "gpu_uuids", UuidsJson(r.gpuUuids));
      DecodeUuidsOfJson(r.gpuUuids, UuidsJson(r.gpuUuids));
    }
  }

  // ----- what is accepted -----

  predicate HexGroup(s: string, n: nat) {
    |s| == n && forall i :: 0 <= i < n ==> IsHex(s[i])
  }

  /** The hexadecimal digits, one by one. */
  lemma HexDigits(c: char)
    ensures IsHex(c) <==> c in "0123456789abcdefABCDEF"
  {
    var digits := "0123456789abcdefABCDEF";
    if IsHex(c) {
      var n := c as int;
      assert digits[if n <= 57 then n - 48 else if n <= 70 then n - 65 + 16 else n - 97 + 10] == c;
    }
  }

  ghost predicate FiveGroups(s: string, a: string, b: string, c: string, d: string, e: string) {
    && HexGroup(a, 8) && HexGroup(b, 4) && HexGroup(c, 4) && HexGroup(d, 4) && HexGroup(e, 12)
    && s == "GPU-" + a + "-" + b + "-" + c + "-" + d + "-" + e
  }

  /** A UUID is well formed exactly when it is `GPU-` and five hexadecimal groups joined by hyphens. */
  lemma ValidUuidIff(s: string)
    ensures ValidUuid(s) <==> exists a, b, c, d, e :: FiveGroups(s, a, b, c, d, e)
  {
    hide IsHex;
    if ValidUuid(s) {
      assert s == s[..4] + s[4..12] + [s[12]] + s[13..17] + [s[17]] + s[18..22] + [s[22]] + s[23..27] + [s[27]] + s[28..];
      assert FiveGroups(s, s[4..12], s[13..17], s[18..22], s[23..27], s[28..]);
    }
    forall a, b, c, d, e | FiveGroups(s, a, b, c, d, e) ensures ValidUuid(s) {
      FiveGroupsValid(s, a, b, c, d, e);
    }
  }

  lemma FiveGroupsValid(s: string, a: string, b: string, c: string, d: string, e: string)
    requires FiveGroups(s, a, b, c, d, e)
    ensures ValidUuid(s)
  {
    hide IsHex;
    forall i | 4 <= i < 40 ensures if i in {12, 17, 22, 27} then s[i] == '-' else IsHex(s[i]) {
      assert s[i] == if i < 12 then a[i - 4] else if i < 17 then ("-" + b)[i - 12] else if i < 22 then ("-" + c)[i - 17]
                     else if i < 27 then ("-" + d)[i - 22] else ("-" + e)[i - 27];
    }
  }

  /** A result object: three fields, the last of a repeated one. */
  predicate ResultOf(v: Json, r: GpuResult) {
    && v.Obj?
    && Lookup(v.members, "gpu_uuid") == Some(Str(r.gpuUuid)) && ValidUuid(r.gpuUuid)
    && Lookup(v.members, "status") == Some(Str(if r.status.Running? then "running" else "stopped"))
    && Lookup(v.members, "outcome") == Some(Str(if r.outcome.DidStart? then "started"
                                                else if r.outcome.DidStop? then "stopped" else "unchanged"))
  }

  /** A version 3 message with this desired state and this array. */
  predicate MessageOf(v: Json, enabled: bool, name: string, vs: seq<Json>) {
    && v.Obj? && Lookup(v.members, "schema_version") == Some(Int(3))
    && Lookup(v.members, "enabled") == Some(Bool(enabled)) && Lookup(v.members, name) == Some(Arr(vs))
  }

  lemma DecodeResultIff(v: Json, r: GpuResult)
    ensures DecodeResult(v) == Ok(r) <==> ResultOf(v, r)
  {
    hide Lookup, ValidUuid;
  }

  lemma {:induction false} DecodeResultsIff(vs: seq<Json>, rs: seq<GpuResult>)
    ensures DecodeResults(vs) == Ok(rs) <==> |vs| == |rs| && forall i :: 0 <= i < |vs| ==> ResultOf(vs[i], rs[i])
  {
    hide ResultOf, DecodeResult;
    if vs != [] && rs != [] {
      DecodeResultIff(vs[0], rs[0]);
      DecodeResultsIff(vs[1..], rs[1..]);
      assert rs == [rs[0]] + rs[1..];
      assert vs == [vs[0]] + vs[1..];
    }
  }

  predicate IsContainer(v: Json) {
    v.Arr? || v.Obj?
  }

  /** Up to a status or outcome that is an array or an object the result is well formed. */
  predicate Unhashable(v: Json) {
    && v.Obj? && (match Lookup(v.members, "gpu_uuid") case Some(Str(uuid)) => ValidUuid(uuid) case _ => false)
    && Lookup(v.members, "status").Some? && Lookup(v.members, "outcome").Some?
    && (IsContainer(Lookup(v.members, "status").value)
        || (Lookup(v.members, "status").value in {Str("running"), Str("stopped")}
            && IsContainer(Lookup(v.members, "outcome").value)))
  }

  lemma DecodeResultUnhashableIff(v: Json)
    ensures DecodeResult(v) == Err(UnhashableField) <==> Unhashable(v)
  {
    hide Lookup, ValidUuid;
  }

  ghost predicate WellFormedResult(v: Json) {
    exists r :: ResultOf(v, r)
  }

  /** Python's type error escapes exactly when a result of that kind comes after well-formed ones alone. */
  lemma {:induction false} UnhashableIff(vs: seq<Json>)
    ensures DecodeResults(vs) == Err(UnhashableField) <==>
            exists k :: 0 <= k < |vs| && Unhashable(vs[k]) && forall i :: 0 <= i < k ==> WellFormedResult(vs[i])
  {
    hide Unhashable, DecodeResult, WellFormedResult;
    if vs != [] {
      var rest := vs[1..];
      UnhashableIff(rest);
      DecodeResultUnhashableIff(vs[0]);
      FirstResult(vs[0]);
      assert forall i :: 0 <= i < |rest| ==> rest[i] == vs[i + 1];
      if DecodeResults(rest) == Err(UnhashableField) && DecodeResult(vs[0]).Ok? {
        var k :| 0 <= k < |rest| && Unhashable(rest[k]) && forall i :: 0 <= i < k ==> WellFormedResult(rest[i]);
        forall i | 0 <= i < k + 1 ensures WellFormedResult(vs[i]) {
          assert i > 0 ==> vs[i] == rest[i - 1];
        }
        assert Unhashable(vs[k + 1]);
      }
      if k :| 0 < k < |vs| && Unhashable(vs[k]) && forall i :: 0 <= i < k ==> WellFormedResult(vs[i]) {
        assert WellFormedResult(vs[0]);
        assert Unhashable(rest[k - 1]);
        forall i | 0 <= i < k - 1 ensures WellFormedResult(rest[i]) {
          assert rest[i] == vs[i + 1];
        }
      }
    }
  }

  lemma FirstResult(v: Json)
    ensures DecodeResult(v).Ok? <==> WellFormedResult(v)
  {
    if DecodeResult(v).Ok? {
      DecodeResultIff(v, DecodeResult(v).value);
    }
    forall r | ResultOf(v, r) ensures DecodeResult(v).Ok? {
      DecodeResultIff(v, r);
    }
  }

  lemma {:induction false} DecodeUuidsIff(vs: seq<Json>, us: seq<string>)
    ensures DecodeUuids(vs) == Ok(us) <==> |vs| == |us| && AllValid(us) && forall i :: 0 <= i < |vs| ==> vs[i] == Str(us[i])
  {
    hide ValidUuid;
    if vs != [] && us != [] {
      DecodeUuidsIff(vs[1..], us[1..]);
      assert us == [us[0]] + us[1..];
      assert vs == [vs[0]] + vs[1..];
    }
  }

  /** A reply is decoded exactly when it is a version 3 message whose results are all well formed, in their order. */
  lemma ResponseAcceptedIff(text: string, r: Response)
    ensures DecodeResponse(text) == Ok(r) <==>
            exists vs :: Read(text).Some? && MessageOf(Read(text).value, r.enabled, "results", vs)
                         && |vs| == |r.results| && forall i :: 0 <= i < |vs| ==> ResultOf(vs[i], r.results[i])
  {
    hide Read, Lookup, DecodeResults, ResultOf;
    match DecodeMessage(text) {
      case Ok(members) =>
        match Lookup(members, "results") {
          case Some(Arr(vs)) => DecodeResultsIff(vs, r.results);
          case _ =>
        }
      case Err(_) =>
    }
  }

  /** A request is decoded exactly when it is a version 3 message naming one or more well-formed UUIDs. */
  lemma RequestAcceptedIff(text: string, r: Request)
    ensures DecodeRequest(text) == Ok(r) <==>
            Read(text).Some? && MessageOf(Read(text).value, r.enabled, "gpu_uuids", UuidsJson(r.gpuUuids))
            && r.gpuUuids != [] && AllValid(r.gpuUuids)
  {
    hide Read, Lookup, DecodeUuids, AllValid;
    match DecodeMessage(text) {
      case Ok(members) =>
        match Lookup(members, "gpu_uuids") {
          case Some(Arr(vs)) =>
            DecodeUuidsIff(vs, r.gpuUuids);
            assert vs == UuidsJson(r.gpuUuids) <==>
                   |vs| == |r.gpuUuids| && forall i :: 0 <= i < |vs| ==> vs[i] == Str(r.gpuUuids[i]);
          case _ =>
        }
      case Err(_) =>
    }
  }

  // ----- the two checks of a reply -----

  function Uuids(results: seq<GpuResult>): (us: seq<string>)
    ensures |us| == |results| && forall i :: 0 <= i < |us| ==> us[i] == results[i].gpuUuid
  {
    seq(|results|, i requires 0 <= i < |results| => results[i].gpuUuid)
  }

  predicate AllHave(results: seq<GpuResult>, enabled: bool) {
    forall r :: r in results ==> r.status == if enabled then Running else Stopped
  }

  /** The adapter: desired state, then `_validate_exact_result_mapping`. */
  predicate AdapterAccepts(r: Response, requested: seq<string>, enabled: bool) {
    && r.enabled == enabled
    && |Uuids(r.results)| == |ToSet(Uuids(r.results))|
    && ToSet(Uuids(r.results)) == ToSet(requested)
    && AllHave(r.results, enabled)
  }

  /** What `result_by_gpu_uuid` accepts. */
  ghost predicate ApiAccepts(results: seq<GpuResult>, requested: seq<string>, enabled: bool) {
    && |results| == |requested|
    && Distinct(Uuids(results))
    && AllHave(results, enabled)
    && ToSet(Uuids(results)) == ToSet(requested)
  }

  /** `result_by_gpu_uuid`: a table of the results, or a refusal. */
  method ResultByGpuUuid(results: seq<GpuResult>, gpuUuids: seq<string>, enabled: bool)
    returns (accepted: bool, byUuid: map<string, GpuResult>)
    ensures accepted <==> ApiAccepts(results, gpuUuids, enabled)
    ensures accepted ==> byUuid.Keys == ToSet(gpuUuids)
    ensures accepted ==> forall r :: r in results ==> r.gpuUuid in byUuid && byUuid[r.gpuUuid] == r
  {
    hide ToSet, Distinct;
    byUuid := map[];
    if |results| != |gpuUuids| {
      return false, byUuid;
    }
    ghost var us := Uuids(results);
    NothingRepeats();
    assert us[..0] == [];
    var expected := if enabled then Running else Stopped;
    var i := 0;
    while i < |results|
      invariant 0 <= i <= |results|
      invariant byUuid.Keys == ToSet(us[..i])
      invariant forall k :: 0 <= k < i ==> us[k] in byUuid && byUuid[us[k]] == results[k]
      invariant forall k :: 0 <= k < i ==> results[k].status == expected
      invariant Distinct(us[..i])
    {
      var result := results[i];
      assert us[..i + 1] == us[..i] + [us[i]];
      if result.gpuUuid in byUuid {
        DuplicateAt(us, i);
        return false, byUuid;
      }
      if result.status != expected {
        return false, byUuid;
      }
      ToSetSnoc(us[..i], us[i]);
      byUuid := byUuid[result.gpuUuid := result];
      i := i + 1;
    }
    assert us[..i] == us;
    accepted := byUuid.Keys == ToSet(gpuUuids);
  }

  lemma DuplicateAt(us: seq<string>, i: nat)
    requires i < |us| && us[i] in ToSet(us[..i])
    ensures !Distinct(us)
  {
    var k :| 0 <= k < i && us[..i][k] == us[i];
    assert us[k] == us[i];
  }

  lemma NothingRepeats()
    ensures ToSet([]) == {} && Distinct([])
  {
  }

  lemma ToSetSnoc(xs: seq<string>, x: string)
    ensures ToSet(xs + [x]) == ToSet(xs) + {x}
    ensures Distinct(xs) && x !in ToSet(xs) ==> Distinct(xs + [x])
  {
  }

  /** The helper's own reply: one result per requested GPU, in order, all in the desired state. */
  predicate Answers(r: Response, requested: seq<string>, enabled: bool) {
    r.enabled == enabled && Uuids(r.results) == requested && AllHave(r.results, enabled)
  }

  /** An honest helper reply to a request the adapter lets through crosses the wire and passes
      both checks. */
  lemma HelperReplyAccepted(r: Response, requested: seq<string>, enabled: bool)
    requires AllValid(requested) && Distinct(requested)
    requires Answers(r, requested, enabled)
    ensures DecodeResponse(EncodeResponse(r)) == Ok(r)
    ensures AdapterAccepts(r, requested, enabled) && ApiAccepts(r.results, requested, enabled)
  {
    ResponseRoundTrip(r);
    DistinctByCount(requested);
    forall x | x in r.results ensures ValidUuid(x.gpuUuid) {
      var i :| 0 <= i < |r.results| && r.results[i] == x;
      assert requested[i] == x.gpuUuid;
    }
  }

  /** Whatever reply passes the API check names the requested GPUs and no other, each once. */
  lemma AcceptedReplyIsExact(results: seq<GpuResult>, requested: seq<string>, enabled: bool)
    requires ApiAccepts(results, requested, enabled)
    ensures multiset(Uuids(results)) == multiset(requested)
    ensures Distinct(requested)
  {
    var us := Uuids(results);
    DistinctByCount(us);
    DistinctByCount(requested);
    DistinctIsSet(us);
    DistinctIsSet(requested);
  }

  lemma {:induction false} DistinctIsSet(xs: seq<string>)
    requires Distinct(xs)
    ensures multiset(xs) == multiset(ToSet(xs))
  {
    if xs != [] {
      var last, front := xs[|xs| - 1], xs[..|xs| - 1];
      DistinctIsSet(front);
      assert xs == front + [last];
      assert ToSet(xs) == ToSet(front) + {last};
      assert last !in ToSet(front);
    }
  }

  /** For the duplicate-free requests the adapter sends, its check and the API's agree on every
      reply; a request naming a GPU twice is refused by the API whatever the helper answers. */
  lemma ChecksAgree(r: Response, requested: seq<string>, enabled: bool)
    requires r.enabled == enabled
    ensures Distinct(requested) ==> (AdapterAccepts(r, requested, enabled) <==> ApiAccepts(r.results, requested, enabled))
    ensures !Distinct(requested) ==> !ApiAccepts(r.results, requested, enabled)
  {
    DistinctByCount(Uuids(r.results));
    DistinctByCount(requested);
  }
}
