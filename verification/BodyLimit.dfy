/** The request body limit: read the body against the limit, then replay it to the application. */
module BodyLimit {
  import opened Text

  /** One ASGI event; an absent body is empty and an absent `more_body` is false. */
  datatype Message = Message(kind: string, body: seq<bv8>, moreBody: bool)

  /** A header value as `int` reads it; `Unreadable` stands for its `ValueError`. */
  datatype Header = Header(name: string, value: Declared)
  datatype Declared = Length(bytes: int) | Unreadable

  datatype Outcome =
    | PassedThrough  // the application got the caller's own receive
    | Ran            // the application got the replaying receive
    | Rejected       // the application was not called
    | Starved        // still waiting for the next event of the body

  const REQUEST := "http.request"

  predicate More(m: Message) {
    m.kind == REQUEST && m.moreBody
  }

  function Bytes(messages: seq<Message>): nat {
    if messages == [] then 0
    else
      var m := messages[|messages| - 1];
      Bytes(messages[..|messages| - 1]) + if m.kind == REQUEST then |m.body| else 0
  }

  /** The last header of that name wins, as in a dictionary built from the list. */
  function ContentLength(headers: seq<Header>): Option<Declared> {
    if headers == [] then None
    else
      var h := headers[|headers| - 1];
      if Lower(h.name) == "content-length" then Some(h.value) else ContentLength(headers[..|headers| - 1])
  }

  predicate DeclaredOver(headers: seq<Header>, maxBytes: nat) {
    match ContentLength(headers)
    case Some(Length(n)) => n > maxBytes
    case _ => false
  }

  predicate NamesLength(h: Header) {
    Lower(h.name) == "content-length"
  }

  /** Header `i` is the last one of that name. */
  predicate IsLast(headers: seq<Header>, i: int) {
    0 <= i < |headers| && NamesLength(headers[i]) && forall j :: i < j < |headers| ==> !NamesLength(headers[j])
  }

  lemma LastOfMore(front: seq<Header>, h: Header, i: int)
    ensures IsLast(front + [h], i) <==> if NamesLength(h) then i == |front| else IsLast(front, i)
  {
    hide NamesLength;
    var more := front + [h];
    assert more[|front|] == h;
    if IsLast(front, i) && !NamesLength(h) {
      assert forall j :: i < j < |more| ==> !NamesLength(more[j]);
    }
    if IsLast(more, i) && i < |front| {
      assert forall j :: i < j < |front| ==> front[j] == more[j];
    }
  }

  /** The declared length is the value of the last header of that name, in any case; without one there is none. */
  lemma {:induction false} ContentLengthIff(headers: seq<Header>, d: Declared)
    ensures ContentLength(headers) == Some(d) <==> exists i :: IsLast(headers, i) && headers[i].value == d
  {
    if headers != [] {
      var front, h := headers[..|headers| - 1], headers[|headers| - 1];
      ContentLengthIff(front, d);
      assert headers == front + [h];
      assert NamesLength(h) <==> Lower(h.name) == "content-length";
      forall i ensures IsLast(headers, i) <==> if NamesLength(h) then i == |front| else IsLast(front, i) {
        LastOfMore(front, h, i);
      }
      LastInRange(front);
      LastInRange(headers);
      hide NamesLength, IsLast;
      if NamesLength(h) {
        assert IsLast(headers, |front|) && headers[|front|] == h;
      } else {
        assert forall i :: IsLast(front, i) ==> front[i] == headers[i];
      }
    }
  }

  lemma LastInRange(headers: seq<Header>)
    ensures forall i :: IsLast(headers, i) ==> 0 <= i < |headers|
  {
  }

  /** A body is refused unread exactly when the last such header holds a readable number above the limit. */
  lemma DeclaredOverIff(headers: seq<Header>, maxBytes: nat)
    ensures DeclaredOver(headers, maxBytes) <==>
            exists i :: IsLast(headers, i) && headers[i].value.Length? && headers[i].value.bytes > maxBytes
  {
    LastInRange(headers);
    hide ContentLength, IsLast;
    if DeclaredOver(headers, maxBytes) {
      ContentLengthIff(headers, ContentLength(headers).value);
    }
    forall i | IsLast(headers, i) && headers[i].value.Length? && headers[i].value.bytes > maxBytes
      ensures DeclaredOver(headers, maxBytes)
    {
      ContentLengthIff(headers, headers[i].value);
    }
  }

  // ----- what a stream of events amounts to -----

  /** The body ends with event `k - 1` and fits. */
  ghost predicate Fits(stream: seq<Message>, maxBytes: nat, k: nat) {
    0 < k <= |stream| && (forall i :: 0 <= i < k - 1 ==> More(stream[i])) && !More(stream[k - 1])
    && Bytes(stream[..k]) <= maxBytes
  }

  /** Event `k - 1` is the first one that takes the body over the limit. */
  ghost predicate Overflows(stream: seq<Message>, maxBytes: nat, k: nat) {
    0 < k <= |stream| && (forall i :: 0 <= i < k - 1 ==> More(stream[i])) && stream[k - 1].kind == REQUEST
    && Bytes(stream[..k]) > maxBytes && (k > 1 ==> Bytes(stream[..k - 1]) <= maxBytes)
  }

  /** The stream stops inside a body that has fitted so far. */
  ghost predicate Unfinished(stream: seq<Message>, maxBytes: nat) {
    (forall i :: 0 <= i < |stream| ==> More(stream[i])) && (stream != [] ==> Bytes(stream) <= maxBytes)
  }

  /** The caller's `receive`: the events of one connection, each handed out once. */
  class Channel {
    const stream: seq<Message>
    var next: nat

    predicate Valid()
      reads this
    {
      next <= |stream|
    }

    constructor (stream: seq<Message>)
      ensures Valid() && this.stream == stream && next == 0
    {
      this.stream, next := stream, 0;
    }

    method Receive() returns (m: Option<Message>)
      requires Valid()
      modifies this
      ensures Valid()
      ensures old(next) < |stream| ==> m == Some(stream[old(next)]) && next == old(next) + 1
      ensures old(next) == |stream| ==> m == None && next == old(next)
    {
      if next < |stream| {
        m := Some(stream[next]);
        next := next + 1;
      } else {
        m := None;
      }
    }
  }

  /** `replay_receive`: the buffered events first, then the live channel. */
  class ReplayReceive {
    const channel: Channel
    var buffered: seq<Message>

    ghost predicate Valid()
      reads this, channel
    {
      channel.Valid()
    }

    /** The events this receive will still hand out. */
    ghost function Ahead(): seq<Message>
      reads this, channel
      requires Valid()
    {
      buffered + channel.stream[channel.next..]
    }

    constructor (channel: Channel, buffered: seq<Message>)
      requires channel.Valid()
      ensures Valid() && this.channel == channel && this.buffered == buffered
    {
      this.channel, this.buffered := channel, buffered;
    }

    method Receive() returns (m: Option<Message>)
      requires Valid()
      modifies this, channel
      ensures Valid()
      ensures old(Ahead()) == [] ==> m == None && Ahead() == []
      ensures old(Ahead()) != [] ==> m == Some(old(Ahead())[0]) && Ahead() == old(Ahead())[1..]
    {
      if buffered != [] {
        m := Some(buffered[0]);
        buffered := buffered[1..];
      } else {
        m := channel.Receive();
      }
    }

    /** Any number of receives by the application. */
    method ReceiveMany(n: nat) returns (seen: seq<Message>)
      requires Valid()
      modifies this, channel
      ensures Valid() && seen + Ahead() == old(Ahead())
      ensures |seen| == if n <= |old(Ahead())| then n else |old(Ahead())|
    {
      seen := [];
      ghost var all := Ahead();
      for i := 0 to n
        invariant Valid() && seen + Ahead() == all
        invariant |seen| == if i <= |all| then i else |all|
      {
        ghost var ahead := Ahead();
        var m := Receive();
        if m.Some? {
          seen := seen + [m.value];
          assert [m.value] + Ahead() == ahead;
        }
      }
    }
  }

  // ----- the middleware -----

  class RequestBodyLimitMiddleware {
    const maxBytes: nat

    constructor (maxBytes: nat)
      ensures this.maxBytes == maxBytes
    {
      this.maxBytes := maxBytes;
    }

    static lemma NoBytes()
      ensures Bytes([]) == 0
    {
    }

    static lemma OneMoreBody(messages: seq<Message>, m: Message)
      ensures Bytes(messages + [m]) == Bytes(messages) + if m.kind == REQUEST then |m.body| else 0
    {
      assert (messages + [m])[..|messages|] == messages;
    }

    /** The loop that reads the body. `messages` are the events read, whether or not they fit. */
    method ReadBody(channel: Channel) returns (outcome: Outcome, messages: seq<Message>)
      requires channel.Valid() && channel.next == 0
      modifies channel
      ensures channel.Valid() && messages == channel.stream[..channel.next]
      ensures outcome == Ran ==> Fits(channel.stream, maxBytes, channel.next)
      ensures outcome == Rejected ==> Overflows(channel.stream, maxBytes, channel.next)
      ensures outcome == Starved ==> Unfinished(channel.stream, maxBytes)
      ensures outcome != PassedThrough
    {
      hide Bytes;
      NoBytes();
      var received := 0;
      messages := [];
      ghost var stream := channel.stream;
      while true
        invariant channel.Valid() && messages == stream[..channel.next]
        invariant forall i :: 0 <= i < channel.next ==> More(stream[i])
        invariant received == Bytes(messages) && (messages != [] ==> received <= maxBytes)
        decreases |stream| - channel.next
      {
        ghost var k := channel.next;
        var next := channel.Receive();
        if next == None {
          assert stream[..k] == stream;
          return Starved, messages;
        }
        var message := next.value;
        assert stream[..k + 1] == messages + [message];
        OneMoreBody(messages, message);
        messages := messages + [message];
        if message.kind == REQUEST {
          received := received + |message.body|;
          if received > maxBytes {
            return Rejected, messages;
          }
        }
        if message.kind != REQUEST || !message.moreBody {
          return Ran, messages;
        }
      }
    }

    /** `__call__`: `app` is the receive the application is given when it runs on a replay. */
    method Call(scopeType: string, headers: seq<Header>, channel: Channel) returns (outcome: Outcome, app: ReplayReceive?)
      requires channel.Valid() && channel.next == 0
      modifies channel
      ensures channel.Valid()
      ensures outcome == PassedThrough <==> scopeType != "http"
      ensures outcome == PassedThrough ==> channel.next == 0
      ensures scopeType == "http" && DeclaredOver(headers, maxBytes) ==> outcome == Rejected && channel.next == 0
      ensures scopeType == "http" && !DeclaredOver(headers, maxBytes) ==>
        && (outcome == Ran <==> exists k :: Fits(channel.stream, maxBytes, k))
        && (outcome == Rejected <==> exists k :: Overflows(channel.stream, maxBytes, k))
        && (outcome == Starved <==> Unfinished(channel.stream, maxBytes))
      ensures app != null <==> outcome == Ran
      ensures app != null ==> fresh(app) && app.Valid() && app.channel == channel && app.Ahead() == channel.stream
      ensures app != null ==> Fits(channel.stream, maxBytes, |app.buffered|)
    {
      app := null;
      if scopeType != "http" {
        return PassedThrough, app;
      }
      var contentLength := ContentLength(headers);
      if contentLength.Some? && contentLength.value.Length? && contentLength.value.bytes > maxBytes {
        return Rejected, app;
      }
      var messages;
      outcome, messages := ReadBody(channel);
      OneReading(channel.stream, maxBytes);
      if outcome == Ran {
        app := new ReplayReceive(channel, messages);
        assert channel.stream[..channel.next] + channel.stream[channel.next..] == channel.stream;
      }
    }
  }

  lemma {:induction false} BytesGrow(stream: seq<Message>, i: nat, j: nat)
    requires i <= j <= |stream|
    ensures Bytes(stream[..i]) <= Bytes(stream[..j])
  {
    if i < j {
      BytesGrow(stream, i, j - 1);
      assert stream[..j][..j - 1] == stream[..j - 1];
    }
  }

  /** The three readings of a stream exclude each other, and each is found at one place. */
  lemma OneReading(stream: seq<Message>, maxBytes: nat)
    ensures forall j, k :: Fits(stream, maxBytes, j) && Fits(stream, maxBytes, k) ==> j == k
    ensures forall j, k :: Overflows(stream, maxBytes, j) && Overflows(stream, maxBytes, k) ==> j == k
    ensures forall j, k :: !(Fits(stream, maxBytes, j) && Overflows(stream, maxBytes, k))
    ensures Unfinished(stream, maxBytes) ==> forall k :: !Fits(stream, maxBytes, k) && !Overflows(stream, maxBytes, k)
  {
    assert stream[..|stream|] == stream;
    forall j: nat, k: nat | Overflows(stream, maxBytes, j) && Fits(stream, maxBytes, k) ensures false {
      if j <= k {
        BytesGrow(stream, j, k);
      }
    }
    forall j: nat, k: nat | Overflows(stream, maxBytes, j) && Overflows(stream, maxBytes, k) && j < k ensures false {
      BytesGrow(stream, j, k - 1);
    }
    forall k: nat | Unfinished(stream, maxBytes) && Overflows(stream, maxBytes, k) ensures false {
      BytesGrow(stream, k, |stream|);
    }
  }

  /** Whatever the application receives on a replay is the original stream from its start: nothing lost or repeated. */
  method Observe(middleware: RequestBodyLimitMiddleware, headers: seq<Header>, channel: Channel, n: nat)
    returns (outcome: Outcome, seen: seq<Message>)
    requires channel.Valid() && channel.next == 0
    modifies channel
    ensures outcome == Ran ==> seen == channel.stream[..if n <= |channel.stream| then n else |channel.stream|]
    ensures outcome != Ran ==> seen == []
    ensures outcome == Ran ==> exists k :: Fits(channel.stream, middleware.maxBytes, k)
  {
    var app;
    outcome, app := middleware.Call("http", headers, channel);
    seen := [];
    if app != null {
      ghost var all := app.Ahead();
      seen := app.ReceiveMany(n);
      assert all[..|seen|] == seen;
    }
  }

  /** If nothing but lifecycle events follow the end of the body, the application never sees more than the limit. */
  lemma {:induction false} RunStaysWithinLimit(stream: seq<Message>, maxBytes: nat, k: nat, n: nat)
    requires Fits(stream, maxBytes, k) && n <= |stream|
    requires forall i :: k <= i < |stream| ==> stream[i].kind != REQUEST
    ensures Bytes(stream[..n]) <= maxBytes
  {
    if n <= k {
      BytesGrow(stream, n, k);
    } else {
      RunStaysWithinLimit(stream, maxBytes, k, n - 1);
      assert stream[..n][..n - 1] == stream[..n - 1];
    }
  }

  lemma {:induction false} BytesSplit(a: seq<Message>, b: seq<Message>)
    ensures Bytes(a + b) == Bytes(a) + Bytes(b)
  {
    if b == [] {
      assert a + b == a;
    } else {
      assert (a + b)[..|a + b| - 1] == a + b[..|b| - 1];
      BytesSplit(a, b[..|b| - 1]);
    }
  }

  /** The application never sees more body bytes than the limit exactly when what follows the buffered events has
    * room in what they left of the limit. */
  lemma NeverOverLimitIff(stream: seq<Message>, maxBytes: nat, k: nat)
    requires Fits(stream, maxBytes, k)
    ensures (forall n: nat :: n <= |stream| ==> Bytes(stream[..n]) <= maxBytes)
      <==> Bytes(stream[k..]) <= maxBytes - Bytes(stream[..k])
  {
    assert stream[..k] + stream[k..] == stream == stream[..|stream|];
    BytesSplit(stream[..k], stream[k..]);
    forall n: nat | n <= |stream| ensures Bytes(stream[..n]) <= Bytes(stream) {
      BytesGrow(stream, n, |stream|);
    }
  }

  /** A body event after an early `http.disconnect` is handed on uncounted: the limit covers the buffered events only. */
  lemma LimitIsOnTheBuffer(maxBytes: nat, body: seq<bv8>)
    requires |body| > maxBytes
    ensures var stream := [Message("http.disconnect", [], false), Message(REQUEST, body, false)];
      Fits(stream, maxBytes, 1) && Bytes(stream) > maxBytes
  {
    var stream := [Message("http.disconnect", [], false), Message(REQUEST, body, false)];
    assert stream[..1] == [stream[0]] && stream[..1][..0] == [];
    assert "http.disconnect"[5] != REQUEST[5];
    assert Bytes(stream[..1]) == 0;
  }
}
