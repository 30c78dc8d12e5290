/** The agent policy block kept between two marker lines of a user's Markdown file. */
module PolicyMerge {
  import opened Text

  const START := "<!-- SERVERPILOT_GLOBAL_START -->"
  const END := "<!-- SERVERPILOT_GLOBAL_END -->"
  const LEGACY_START := "<!-- GPU_BROKER_GLOBAL_START -->"
  const LEGACY_END := "<!-- GPU_BROKER_GLOBAL_END -->"

  datatype Merged = Merged(text: string) | Refused

  // ----- Python string searches -----

  /** `s.count(m)`: occurrences found from the left, without overlap. */
  function Count(s: string, m: string): nat
    requires m != []
  {
    if |s| < |m| then 0
    else if s[..|m|] == m then 1 + Count(s[|m|..], m)
    else Count(s[1..], m)
  }

  /** `s.find(m)` for a string that occurs. */
  function Find(s: string, m: string): (i: nat)
    requires m != [] && Count(s, m) > 0
    ensures i + |m| <= |s| && s[i..][..|m|] == m
  {
    if s[..|m|] == m then 0
    else
      var i := 1 + Find(s[1..], m);
      assert s[i..] == s[1..][i - 1..];
      i
  }

  // ----- the program -----

  function Render(body: string): string {
    START + "\n" + RStrip(body) + "\n" + END + "\n"
  }

  predicate Blank(s: string) {
    forall i :: 0 <= i < |s| ==> IsSpace(s[i])
  }

  function Merge(existing: string, block: string): Merged {
    var current, currentEnd := Count(existing, START), Count(existing, END);
    var legacy, legacyEnd := Count(existing, LEGACY_START), Count(existing, LEGACY_END);
    if current != currentEnd || legacy != legacyEnd then Refused
    else if current > 1 || legacy > 1 then Refused
    else if current > 0 && legacy > 0 then Refused
    else if current > 0 || legacy > 0 then
      var begin := Find(existing, if current > 0 then START else LEGACY_START);
      var finish := Find(existing, if current > 0 then END else LEGACY_END);
      if finish < begin then Refused
      else
        var after := finish + |if current > 0 then END else LEGACY_END|;
        Merged(RStrip(existing[..begin]) + "\n\n" + RStrip(block) + "\n" + LStrip(existing[after..]))
    else if Blank(existing) then Merged(block)
    else Merged(RStrip(existing) + "\n\n" + block)
  }

  // ----- markers -----

  predicate IsMarker(m: string) {
    m == START || m == END || m == LEGACY_START || m == LEGACY_END
  }

  /** A marker is one line, opens with its only `<` and ends in a printing character. */
  lemma MarkerShape(m: string)
    requires IsMarker(m)
    ensures |m| >= 30 && m[0] == '<' && forall i :: 0 < i < |m| ==> m[i] != '<'
    ensures forall i :: 0 <= i < |m| ==> m[i] != '\n'
    ensures m[|m| - 1] == '>'
  {
  }

  /** No marker begins another. */
  lemma MarkersDiffer(m: string, n: string)
    requires IsMarker(m) && IsMarker(n) && m <= n
    ensures m == n
  {
    assert START[24] == 'S' && END[24] == 'E' && START[5] == END[5] == 'S';
    assert LEGACY_START[23] == 'S' && LEGACY_END[23] == 'E' && LEGACY_START[5] == LEGACY_END[5] == 'G';
  }

  /** Nothing but a marker's first character is a `<`, and no marker holds a newline. */
  predicate Cuts(t: string) {
    t == [] || t[0] == '<' || t[0] == '\n'
  }

  predicate Occurs(s: string, m: string, i: int) {
    0 <= i && i + |m| <= |s| && s[i..][..|m|] == m
  }

  /** Counting nothing means occurring nowhere. */
  lemma {:induction false} CountIsZero(s: string, m: string)
    requires m != []
    ensures Count(s, m) == 0 <==> forall i :: 0 <= i <= |s| ==> !Occurs(s, m, i)
    decreases |s|
  {
    if |s| >= |m| {
      if s[..|m|] == m {
        assert s[0..] == s;
        assert Occurs(s, m, 0);
      } else {
        CountIsZero(s[1..], m);
        forall i | 1 <= i <= |s| ensures Occurs(s, m, i) <==> Occurs(s[1..], m, i - 1) {
          assert s[i..] == s[1..][i - 1..];
        }
        assert s[0..] == s;
        forall j | 0 <= j <= |s[1..]| ensures Occurs(s[1..], m, j) <==> Occurs(s, m, j + 1) {
        }
      }
    }
  }

  lemma {:induction false} FindIsFirst(s: string, m: string, j: nat)
    requires m != [] && Count(s, m) > 0 && j < Find(s, m)
    ensures !Occurs(s, m, j)
    decreases |s|
  {
    if j > 0 {
      FindIsFirst(s[1..], m, j - 1);
      assert s[j..] == s[1..][j - 1..];
    } else {
      assert s[0..] == s;
    }
  }

  /** No marker straddles a point where a newline or another marker starts. */
  lemma Inside(a: string, t: string, m: string)
    requires IsMarker(m) && Cuts(t) && a != []
    ensures m <= a + t <==> m <= a
    ensures m <= a ==> (a + t)[..|m|] == m == a[..|m|] && (a + t)[|m|..] == a[|m|..] + t
    ensures (a + t)[1..] == a[1..] + t
  {
    MarkerShape(m);
    hide START, END, LEGACY_START, LEGACY_END, IsMarker;
    assert t != [] ==> (a + t)[|a|] == t[0];
  }

  lemma {:induction false} CountSplits(a: string, t: string, m: string)
    requires IsMarker(m) && Cuts(t)
    ensures Count(a + t, m) == Count(a, m) + Count(t, m)
    decreases |a|
  {
    MarkerShape(m);
    hide START, END, LEGACY_START, LEGACY_END, IsMarker, Cuts;
    if a == [] {
      assert a + t == t;
    } else {
      Inside(a, t, m);
      CountSplits(if m <= a then a[|m|..] else a[1..], t, m);
    }
  }

  lemma {:induction false} FindSplits(a: string, t: string, m: string)
    requires IsMarker(m) && Cuts(t) && Count(a + t, m) > 0
    ensures Count(a, m) > 0 ==> Find(a + t, m) == Find(a, m)
    ensures Count(a, m) == 0 ==> Count(t, m) > 0 && Find(a + t, m) == |a| + Find(t, m)
    decreases |a|
  {
    CountSplits(a, t, m);
    MarkerShape(m);
    hide START, END, LEGACY_START, LEGACY_END, IsMarker, Cuts;
    if a == [] {
      assert a + t == t;
    } else {
      Inside(a, t, m);
      if !(m <= a) {
        FindSplits(a[1..], t, m);
      }
    }
  }

  /** Text without a `<` in front changes no count. */
  lemma {:induction false} CountSkips(u: string, t: string, m: string)
    requires IsMarker(m) && forall i :: 0 <= i < |u| ==> u[i] != '<'
    ensures Count(u + t, m) == Count(t, m)
    ensures Count(t, m) > 0 ==> Find(u + t, m) == |u| + Find(t, m)
    decreases |u|
  {
    MarkerShape(m);
    hide START, END, LEGACY_START, LEGACY_END, IsMarker;
    if u == [] {
      assert u + t == t;
    } else {
      CountSkips(u[1..], t, m);
      assert (u + t)[1..] == u[1..] + t;
      assert |u + t| >= |m| ==> (u + t)[..|m|][0] == u[0];
    }
  }

  lemma NotAhead(n: string, b: string, m: string)
    requires IsMarker(m) && IsMarker(n) && m <= n + b
    ensures m == n
  {
    hide START, END, LEGACY_START, LEGACY_END, IsMarker;
    if |m| <= |n| {
      assert m == (n + b)[..|m|] == n[..|m|];
      MarkersDiffer(m, n);
    } else {
      assert n == (n + b)[..|n|] == m[..|n|];
      MarkersDiffer(n, m);
    }
  }

  lemma CountAhead(n: string, b: string, m: string)
    requires IsMarker(m) && IsMarker(n)
    ensures Count(n + b, m) == (if m == n then 1 else 0) + Count(b, m)
    ensures m == n ==> Find(n + b, m) == 0
    ensures m != n && Count(b, m) > 0 ==> Find(n + b, m) == |n| + Find(b, m)
  {
    hide START, END, LEGACY_START, LEGACY_END, IsMarker;
    MarkerShape(m);
    MarkerShape(n);
    var s := n + b;
    if m == n {
      assert s[..|m|] == m && s[|m|..] == b;
    } else {
      if m <= s { NotAhead(n, b, m); }
      assert s[1..] == n[1..] + b;
      CountSkips(n[1..], b, m);
    }
  }

  /** Counts add up around a marker, wherever it stands. */
  lemma CountAround(a: string, n: string, b: string, m: string)
    requires IsMarker(m) && IsMarker(n)
    ensures Count(a + n + b, m) == Count(a, m) + (if m == n then 1 else 0) + Count(b, m)
  {
    hide Count, IsMarker;
    MarkerShape(n);
    assert Cuts(n + b);
    assert a + n + b == a + (n + b);
    CountSplits(a, n + b, m);
    CountAhead(n, b, m);
  }

  // ----- stripping -----

  lemma {:induction false} CountDropLast(s: string, m: string)
    requires IsMarker(m) && s != [] && s[|s| - 1] != '>'
    ensures Count(s[..|s| - 1], m) == Count(s, m)
    decreases |s|
  {
    MarkerShape(m);
    hide START, END, LEGACY_START, LEGACY_END, IsMarker;
    var r := s[..|s| - 1];
    if |s| > |m| {
      assert r[..|m|] == s[..|m|];
      var k := if s[..|m|] == m then |m| else 1;
      assert s[k..][..|s[k..]| - 1] == r[k..];
      CountDropLast(s[k..], m);
    } else if |s| == |m| {
      assert s == s[..|m|];
    }
  }

  lemma {:induction false} CountRStrip(s: string, m: string)
    requires IsMarker(m)
    ensures Count(RStrip(s), m) == Count(s, m)
  {
    hide START, END, LEGACY_START, LEGACY_END, IsMarker;
    if s != [] && IsSpace(s[|s| - 1]) {
      CountDropLast(s, m);
      CountRStrip(s[..|s| - 1], m);
    }
  }

  lemma {:induction false} CountLStrip(s: string, m: string)
    requires IsMarker(m)
    ensures Count(LStrip(s), m) == Count(s, m)
  {
    if s != [] && IsSpace(s[0]) {
      DropFirst(s, m);
      hide START, END, LEGACY_START, LEGACY_END, IsMarker, Count;
      CountLStrip(s[1..], m);
    }
  }

  lemma DropFirst(s: string, m: string)
    requires IsMarker(m) && s != [] && s[0] != '<'
    ensures Count(s[1..], m) == Count(s, m)
  {
    hide START, END, LEGACY_START, LEGACY_END, IsMarker, Count;
    CountSkips([s[0]], s[1..], m);
    assert [s[0]] + s[1..] == s;
  }

  lemma {:induction false} RStripSpace(s: string, u: string)
    requires Blank(u)
    ensures RStrip(s + u) == RStrip(s)
    decreases |u|
  {
    if u == [] {
      assert s + u == s;
    } else {
      assert (s + u)[..|s + u| - 1] == s + u[..|u| - 1];
      RStripSpace(s, u[..|u| - 1]);
    }
  }

  lemma {:induction false} LStripSpace(u: string, s: string)
    requires Blank(u)
    ensures LStrip(u + s) == LStrip(s)
    decreases |u|
  {
    if u == [] {
      assert u + s == s;
    } else {
      assert (u + s)[1..] == u[1..] + s;
      LStripSpace(u[1..], s);
    }
  }

  lemma RStripTwice(s: string)
    ensures RStrip(RStrip(s)) == RStrip(s)
    ensures LStrip(LStrip(s)) == LStrip(s)
  {
  }

  // ----- where the block stands -----

  ghost predicate MarkerFree(s: string) {
    forall m :: IsMarker(m) ==> Count(s, m) == 0
  }

  predicate IsPair(open: string, close: string) {
    (open == START && close == END) || (open == LEGACY_START && close == LEGACY_END)
  }

  /** The text holds one block, between `open` and `close`, and no other marker. */
  ghost predicate HasBlock(text: string, open: string, close: string, before: string, inside: string, after: string) {
    IsPair(open, close) && text == before + open + inside + close + after
    && MarkerFree(before) && MarkerFree(inside) && MarkerFree(after)
  }

  ghost predicate Accepted(text: string) {
    MarkerFree(text) || exists open, close, before, inside, after :: HasBlock(text, open, close, before, inside, after)
  }

  function Before(text: string): string {
    if Count(text, START) > 0 then text[..Find(text, START)]
    else if Count(text, LEGACY_START) > 0 then text[..Find(text, LEGACY_START)]
    else text
  }

  function After(text: string): string {
    if Count(text, END) > 0 then text[Find(text, END) + |END|..]
    else if Count(text, LEGACY_END) > 0 then text[Find(text, LEGACY_END) + |LEGACY_END|..]
    else ""
  }

  /** The rendered block without its last newline. */
  function Kernel(body: string): string {
    START + ("\n" + RStrip(body) + "\n") + END
  }

  lemma PairDiffers(open: string, close: string)
    requires IsPair(open, close)
    ensures IsMarker(open) && IsMarker(close) && open != close
  {
    assert START[24] == 'S' && END[24] == 'E' && LEGACY_START[23] == 'S' && LEGACY_END[23] == 'E';
  }

  lemma CountBlock(before: string, open: string, inside: string, close: string, after: string, m: string)
    requires IsMarker(m) && IsPair(open, close)
    ensures Count(before + open + inside + close + after, m)
      == Count(before, m) + Count(inside, m) + Count(after, m) + (if m == open || m == close then 1 else 0)
  {
    PairDiffers(open, close);
    hide Count, IsMarker, IsPair;
    CountAround(before + open + inside, close, after, m);
    CountAround(before, open, inside, m);
  }

  /** Where a marker is found when text without that marker and another marker stand before it. */
  lemma FindFirst(before: string, n: string, rest: string, m: string)
    requires IsMarker(m) && IsMarker(n) && Count(before, m) == 0 && (m == n || Count(rest, m) > 0)
    ensures Count(before + (n + rest), m) > 0
    ensures Find(before + (n + rest), m) == |before| + if m == n then 0 else |n| + Find(rest, m)
  {
    MarkerShape(n);
    hide Count, IsMarker;
    CountAhead(n, rest, m);
    CountSplits(before, n + rest, m);
    FindSplits(before, n + rest, m);
  }

  lemma Regroup(before: string, open: string, inside: string, close: string, after: string)
    ensures before + open + inside + close + after == before + (open + (inside + (close + after)))
  {
  }

  lemma FindOpen(before: string, open: string, inside: string, close: string, after: string)
    requires IsPair(open, close) && Count(before, open) == Count(before, close) == Count(inside, close) == 0
    ensures var text := before + open + inside + close + after;
      && Count(text, open) > 0 && Find(text, open) == |before|
      && Count(text, close) > 0 && Find(text, close) == |before| + |open| + |inside|
  {
    PairDiffers(open, close);
    Regroup(before, open, inside, close, after);
    hide Count, Find, IsMarker, IsPair;
    FindFirst(inside, close, after, close);
    FindFirst(before, open, inside + (close + after), close);
    FindFirst(before, open, inside + (close + after), open);
  }

  lemma BlockCounts(text: string, open: string, close: string, before: string, inside: string, after: string)
    requires HasBlock(text, open, close, before, inside, after)
    ensures forall m :: IsMarker(m) ==> Count(text, m) == if m == open || m == close then 1 else 0
  {
    assert MarkerFree(before) && MarkerFree(inside) && MarkerFree(after);
    hide START, END, LEGACY_START, LEGACY_END, IsMarker, IsPair;
    forall m | IsMarker(m) ensures Count(text, m) == if m == open || m == close then 1 else 0 {
      CountBlock(before, open, inside, close, after, m);
    }
  }

  lemma Slices(before: string, open: string, inside: string, close: string, after: string)
    ensures var text := before + open + inside + close + after;
      text[..|before|] == before && text[|before| + |open| + |inside| + |close|..] == after
  {
  }

  /** The search for the four markers tells exactly which block a text holds. */
  lemma BlockFound(text: string, open: string, close: string, before: string, inside: string, after: string)
    requires HasBlock(text, open, close, before, inside, after)
    ensures Count(text, open) > 0 && Find(text, open) == |before|
    ensures Count(text, close) > 0 && Find(text, close) == |before| + |open| + |inside|
    ensures text[..|before|] == before && text[|before| + |open| + |inside| + |close|..] == after
  {
    PairDiffers(open, close);
    hide START, END, LEGACY_START, LEGACY_END, IsMarker, IsPair, Count, Find;
    assert Count(before, open) == Count(before, close) == Count(inside, close) == 0;
    FindOpen(before, open, inside, close, after);
    Slices(before, open, inside, close, after);
  }

  lemma BlockParts(text: string, open: string, close: string, before: string, inside: string, after: string)
    requires HasBlock(text, open, close, before, inside, after)
    ensures Before(text) == before && After(text) == after
  {
    hide START, END, LEGACY_START, LEGACY_END, MarkerFree, HasBlock, Count, Find, IsMarker, IsPair;
    OtherPairAbsent(text, open, close, before, inside, after);
    BlockFound(text, open, close, before, inside, after);
  }

  lemma MarkersApart()
    ensures START != END && START != LEGACY_START && START != LEGACY_END
    ensures END != LEGACY_START && END != LEGACY_END && LEGACY_START != LEGACY_END
  {
    assert START[24] == 'S' && END[24] == 'E' && START[5] == END[5] == 'S';
    assert LEGACY_START[23] == 'S' && LEGACY_END[23] == 'E' && LEGACY_START[5] == LEGACY_END[5] == 'G';
  }

  lemma OtherPairAbsent(text: string, open: string, close: string, before: string, inside: string, after: string)
    requires HasBlock(text, open, close, before, inside, after)
    ensures open == START ==> close == END && Count(text, LEGACY_START) == Count(text, LEGACY_END) == 0
    ensures open != START ==> open == LEGACY_START && close == LEGACY_END && Count(text, START) == Count(text, END) == 0
    ensures Count(text, open) == Count(text, close) == 1
  {
    hide START, END, LEGACY_START, LEGACY_END, MarkerFree, Count;
    BlockCounts(text, open, close, before, inside, after);
    MarkersApart();
  }

  /** What a merge returns for a text that holds a block. */
  lemma MergeBlock(text: string, open: string, close: string, before: string, inside: string, after: string, block: string)
    requires HasBlock(text, open, close, before, inside, after)
    ensures Merge(text, block) == Merged(RStrip(before) + "\n\n" + RStrip(block) + "\n" + LStrip(after))
  {
    hide START, END, LEGACY_START, LEGACY_END, MarkerFree, HasBlock, Count, Find, RStrip, LStrip, IsMarker, IsPair;
    OtherPairAbsent(text, open, close, before, inside, after);
    BlockFound(text, open, close, before, inside, after);
  }

  lemma SplitCounts(a: string, n: string, b: string)
    requires IsMarker(n)
    ensures forall m :: IsMarker(m) ==>
      Count(a + (n + b), m) == Count(a, m) + (if m == n then 1 else 0) + Count(b, m)
  {
    forall m | IsMarker(m) ensures Count(a + (n + b), m) == Count(a, m) + (if m == n then 1 else 0) + Count(b, m) {
      MarkerShape(n);
      hide START, END, LEGACY_START, LEGACY_END, IsMarker, Count;
      CountAhead(n, b, m);
      CountSplits(a, n + b, m);
    }
  }

  lemma SplitAt(text: string, n: string) returns (a: string, b: string)
    requires IsMarker(n) && Count(text, n) == 1
    ensures text == a + (n + b) && |a| == Find(text, n)
    ensures forall m :: IsMarker(m) ==> Count(text, m) == Count(a, m) + (if m == n then 1 else 0) + Count(b, m)
  {
    MarkerShape(n);
    hide START, END, LEGACY_START, LEGACY_END, IsMarker, Count;
    var i := Find(text, n);
    var tail := text[i..];
    a, b := text[..i], tail[|n|..];
    assert tail == tail[..|n|] + tail[|n|..];
    assert text == text[..i] + text[i..];
    SplitCounts(a, n, b);
  }

  lemma NothingBefore(text: string, before: string, open: string, rest: string, close: string)
    requires IsMarker(open) && IsMarker(close) && text == before + (open + rest) && Count(text, close) > 0
    requires |before| <= Find(text, close)
    ensures Count(before, close) == 0
  {
    MarkerShape(open);
    hide START, END, LEGACY_START, LEGACY_END, IsMarker, Count, Find;
    FindSplits(before, open + rest, close);
    if Count(before, close) > 0 {
      FoundInside(before, close);
    }
  }

  lemma FoundInside(s: string, m: string)
    requires m != [] && Count(s, m) > 0
    ensures Find(s, m) < |s|
  {
  }

  /** One opening marker before one closing marker delimit a block. */
  lemma FoundIsBlock(text: string, open: string, close: string) returns (before: string, inside: string, after: string)
    requires IsPair(open, close) && Count(text, open) == Count(text, close) == 1
    requires forall m :: IsMarker(m) && m != open && m != close ==> Count(text, m) == 0
    requires Find(text, open) <= Find(text, close)
    ensures HasBlock(text, open, close, before, inside, after)
  {
    PairDiffers(open, close);
    hide START, END, LEGACY_START, LEGACY_END, IsMarker, IsPair, Count, Find;
    var rest;
    before, rest := SplitAt(text, open);
    NothingBefore(text, before, open, rest, close);
    inside, after := SplitAt(rest, close);
    assert MarkerFree(before) && MarkerFree(inside) && MarkerFree(after);
    Regroup(before, open, inside, close, after);
  }

  // ----- which texts are accepted -----

  /** A merge is refused exactly when the text neither is free of markers nor holds one well-formed block. */
  lemma AcceptedIff(text: string, block: string)
    ensures Merge(text, block).Merged? <==> Accepted(text)
  {
    if Accepted(text) {
      assert IsMarker(START) && IsMarker(END) && IsMarker(LEGACY_START) && IsMarker(LEGACY_END);
      if !MarkerFree(text) {
        var open, close, before, inside, after :| HasBlock(text, open, close, before, inside, after);
        MergeBlock(text, open, close, before, inside, after, block);
      }
    }
    if Merge(text, block).Merged? {
      MergedIsAccepted(text, block);
    }
  }

  lemma MergedCounts(text: string, block: string)
    requires Merge(text, block).Merged?
    ensures Count(text, START) == Count(text, END) <= 1 && Count(text, LEGACY_START) == Count(text, LEGACY_END) <= 1
    ensures Count(text, START) == 0 || Count(text, LEGACY_START) == 0
    ensures Count(text, START) == 1 ==> Find(text, START) <= Find(text, END)
    ensures Count(text, LEGACY_START) == 1 ==> Find(text, LEGACY_START) <= Find(text, LEGACY_END)
  {
    hide Count, Find, RStrip, LStrip, Blank;
  }

  lemma OnlyPair(text: string, open: string, close: string, other: string, otherClose: string)
    requires IsPair(open, close) && IsPair(other, otherClose) && open != other
    requires Count(text, other) == Count(text, otherClose) == 0
    ensures forall m :: IsMarker(m) && m != open && m != close ==> Count(text, m) == 0
  {
    hide START, END, LEGACY_START, LEGACY_END, Count;
    MarkersApart();
  }

  lemma PairIsAccepted(text: string, open: string, close: string, other: string, otherClose: string)
    requires IsPair(open, close) && IsPair(other, otherClose) && open != other
    requires Count(text, open) == Count(text, close) == 1 && Count(text, other) == Count(text, otherClose) == 0
    requires Find(text, open) <= Find(text, close)
    ensures Accepted(text)
  {
    hide Count, Find, HasBlock, MarkerFree, IsMarker, IsPair;
    OnlyPair(text, open, close, other, otherClose);
    var before, inside, after := FoundIsBlock(text, open, close);
  }

  lemma CurrentIsAccepted(text: string)
    requires Count(text, START) == Count(text, END) == 1 && Count(text, LEGACY_START) == Count(text, LEGACY_END) == 0
    requires Find(text, START) <= Find(text, END)
    ensures Accepted(text)
  {
    hide Count, Find, Accepted, IsMarker;
    MarkersApart();
    PairIsAccepted(text, START, END, LEGACY_START, LEGACY_END);
  }

  lemma LegacyIsAccepted(text: string)
    requires Count(text, START) == Count(text, END) == 0 && Count(text, LEGACY_START) == Count(text, LEGACY_END) == 1
    requires Find(text, LEGACY_START) <= Find(text, LEGACY_END)
    ensures Accepted(text)
  {
    hide Count, Find, Accepted, IsMarker;
    MarkersApart();
    PairIsAccepted(text, LEGACY_START, LEGACY_END, START, END);
  }

  lemma CountedFree(text: string)
    requires Count(text, START) == Count(text, END) == Count(text, LEGACY_START) == Count(text, LEGACY_END) == 0
    ensures Accepted(text)
  {
    hide Count, HasBlock, START, END, LEGACY_START, LEGACY_END;
    assert MarkerFree(text);
  }

  lemma MergedIsAccepted(text: string, block: string)
    requires Merge(text, block).Merged?
    ensures Accepted(text)
  {
    MergedCounts(text, block);
    hide Count, Find, Merge, Accepted;
    if Count(text, START) == 1 {
      CurrentIsAccepted(text);
    } else if Count(text, LEGACY_START) == 1 {
      LegacyIsAccepted(text);
    } else {
      CountedFree(text);
    }
  }

  // ----- what a merge returns -----

  function Lead(existing: string): string {
    if Blank(existing) then "" else RStrip(Before(existing)) + "\n\n"
  }

  function Trail(existing: string): string {
    "\n" + LStrip(After(existing))
  }

  function Inner(body: string): string {
    "\n" + RStrip(body) + "\n"
  }

  lemma RStripLine(k: string)
    requires k != [] && k[|k| - 1] == '>'
    ensures RStrip(k + "\n") == k
  {
    assert Blank("\n");
    hide Blank;
    RStripSpace(k, "\n");
  }

  lemma RenderShape(body: string)
    ensures RStrip(Render(body)) == START + Inner(body) + END
    ensures Render(body) == START + Inner(body) + END + "\n"
  {
    MarkerShape(END);
    hide START, END, IsMarker, RStrip;
    var k := START + Inner(body) + END;
    assert Render(body) == k + "\n";
    assert k[|k| - 1] == END[|END| - 1] == '>';
    RStripLine(k);
  }

  lemma {:induction false} BlankText(s: string, m: string)
    requires Blank(s) && IsMarker(m)
    ensures Count(s, m) == 0
  {
    MarkerShape(m);
    hide START, END, LEGACY_START, LEGACY_END, IsMarker;
    CountSkips(s, "", m);
    assert s + "" == s;
  }

  lemma {:induction false} BlankStripped(s: string)
    requires Blank(s)
    ensures RStrip(s) == "" == LStrip(s)
  {
    assert RStrip("") == "" == LStrip("");
    assert "" + s == s == s + "";
    hide RStrip, LStrip, Blank;
    RStripSpace("", s);
    LStripSpace(s, "");
  }

  /** A merge puts the new block between the stripped text before and after the old one. */
  lemma MergeShape(existing: string, body: string)
    requires Merge(existing, Render(body)).Merged?
    ensures Merge(existing, Render(body)).text == Lead(existing) + START + Inner(body) + END + Trail(existing)
    ensures MarkerFree(Before(existing)) && MarkerFree(After(existing))
  {
    RenderShape(body);
    AcceptedIff(existing, Render(body));
    if MarkerFree(existing) {
      FreeShape(existing, body);
    } else {
      var open, close, before, inside, after :| HasBlock(existing, open, close, before, inside, after);
      BlockShape(existing, open, close, before, inside, after, body);
    }
  }

  lemma MergeFree(text: string, block: string)
    requires MarkerFree(text)
    ensures Merge(text, block) == Merged(if Blank(text) then block else RStrip(text) + "\n\n" + block)
    ensures Before(text) == text && After(text) == "" && MarkerFree(After(text))
  {
    assert IsMarker(START) && IsMarker(END) && IsMarker(LEGACY_START) && IsMarker(LEGACY_END);
    hide Count, Find, RStrip, LStrip, Blank;
  }

  lemma FreeShape(existing: string, body: string)
    requires MarkerFree(existing)
    ensures Merge(existing, Render(body)) == Merged(Lead(existing) + START + Inner(body) + END + Trail(existing))
    ensures MarkerFree(Before(existing)) && MarkerFree(After(existing))
  {
    hide Count, Merge, Render, Inner, Blank, RStrip, Before, After, START, END;
    MergeFree(existing, Render(body));
    RenderShape(body);
    Around(Lead(existing), START + Inner(body) + END, "\n");
    Joined(Lead(existing), START, Inner(body), END, "\n");
    assert "\n" + "" == "\n" && "" + Render(body) == Render(body);
  }

  lemma Around(a: string, b: string, c: string)
    ensures a + (b + c) == a + b + c
  {
  }

  lemma Joined(a: string, b: string, c: string, d: string, e: string)
    ensures a + (b + c + d) + e == a + b + c + d + e
  {
  }

  lemma BlockShape(existing: string, open: string, close: string, before: string, inside: string, after: string, body: string)
    requires HasBlock(existing, open, close, before, inside, after)
    ensures Merge(existing, Render(body)) == Merged(Lead(existing) + START + Inner(body) + END + Trail(existing))
    ensures Before(existing) == before && After(existing) == after && !Blank(existing)
  {
    BlockParts(existing, open, close, before, inside, after);
    BlockNotBlank(existing, open, close, before, inside, after);
    MergeBlock(existing, open, close, before, inside, after, Render(body));
    RenderShape(body);
    hide RStrip, LStrip, Render, Merge, Inner, Before, After, HasBlock, Blank, MarkerFree, Count;
    Around(Lead(existing) + (START + Inner(body) + END), "\n", LStrip(after));
    Joined(Lead(existing), START, Inner(body), END, Trail(existing));
  }

  lemma BlockNotBlank(text: string, open: string, close: string, before: string, inside: string, after: string)
    requires HasBlock(text, open, close, before, inside, after)
    ensures !Blank(text)
  {
    PairDiffers(open, close);
    MarkerShape(open);
    hide Count, IsMarker, IsPair, MarkerFree;
    assert text[|before|] == open[0] == '<';
  }

  lemma LeadAndTrail(existing: string, m: string)
    requires MarkerFree(Before(existing)) && MarkerFree(After(existing)) && IsMarker(m)
    ensures Count(Lead(existing), m) == 0 && Count(Trail(existing), m) == 0
  {
    BlankText("", m);
    hide START, END, LEGACY_START, LEGACY_END, IsMarker;
    CountRStrip(Before(existing), m);
    CountLStrip(After(existing), m);
    CountSkips("\n", LStrip(After(existing)), m);
    CountSplits(RStrip(Before(existing)), "\n\n", m);
    CountSkips("\n\n", "", m);
    assert "\n\n" + "" == "\n\n";
  }

  lemma InnerCount(body: string, m: string)
    requires IsMarker(m)
    ensures Count(Inner(body), m) == Count(body, m)
  {
    BlankText("\n", m);
    hide START, END, LEGACY_START, LEGACY_END, IsMarker;
    CountRStrip(body, m);
    CountSkips("\n", RStrip(body), m);
    CountSplits("\n" + RStrip(body), "\n", m);
  }

  /** A merge adds one current marker pair to the markers of the body and leaves no other marker. */
  lemma ResultCounts(existing: string, body: string)
    requires Merge(existing, Render(body)).Merged?
    ensures var text := Merge(existing, Render(body)).text;
      forall m :: IsMarker(m) ==> Count(text, m) == Count(body, m) + if m == START || m == END then 1 else 0
  {
    MergeShape(existing, body);
    assert IsPair(START, END);
    var text := Merge(existing, Render(body)).text;
    hide Merge, Render, IsMarker, IsPair, Lead, Trail, Inner, MarkerFree, Count;
    forall m | IsMarker(m)
      ensures Count(text, m) == Count(body, m) + if m == START || m == END then 1 else 0
    {
      CountBlock(Lead(existing), START, Inner(body), END, Trail(existing), m);
      LeadAndTrail(existing, m);
      InnerCount(body, m);
    }
  }

  /** For a body without markers the result holds exactly one current block, that body, and no legacy marker. */
  lemma MergeInstalls(existing: string, body: string)
    requires MarkerFree(body) && Merge(existing, Render(body)).Merged?
    ensures var text := Merge(existing, Render(body)).text;
      && HasBlock(text, START, END, Lead(existing), Inner(body), Trail(existing))
      && Before(text) == Lead(existing) && After(text) == Trail(existing)
  {
    MergeShape(existing, body);
    var text := Merge(existing, Render(body)).text;
    assert HasBlock(text, START, END, Lead(existing), Inner(body), Trail(existing)) by {
      hide Merge, Render, IsMarker, Lead, Trail, Inner, Count;
      forall m | IsMarker(m)
        ensures Count(Lead(existing), m) == 0 && Count(Trail(existing), m) == 0 && Count(Inner(body), m) == 0
      {
        LeadAndTrail(existing, m);
        InnerCount(body, m);
      }
    }
    BlockParts(text, START, END, Lead(existing), Inner(body), Trail(existing));
  }

  /** The user's text on both sides survives, up to blanks next to the block. */
  lemma MergeKeepsText(existing: string, body: string)
    requires MarkerFree(body) && Merge(existing, Render(body)).Merged?
    ensures var text := Merge(existing, Render(body)).text;
      RStrip(Before(text)) == RStrip(Before(existing)) && LStrip(After(text)) == LStrip(After(existing))
  {
    hide MarkerFree, Count, Merge, Render, Inner, HasBlock, Before, After, START, END;
    MergeInstalls(existing, body);
    LeadStrips(existing);
    TrailStrips(existing);
  }

  lemma StripsAgain(s: string, u: string)
    requires Blank(u)
    ensures RStrip(RStrip(s) + u) == RStrip(s) && LStrip(u + LStrip(s)) == LStrip(s)
  {
    RStripTwice(s);
    RStripSpace(RStrip(s), u);
    LStripSpace(u, LStrip(s));
  }

  lemma LeadStrips(existing: string)
    ensures RStrip(Lead(existing)) == RStrip(Before(existing))
  {
    assert Blank("\n\n") && Blank("");
    if Blank(existing) {
      BlankBefore(existing);
      BlankStripped(existing);
      BlankStripped("");
    }
    hide Before, After, Count, Find, RStrip, Blank;
    StripsAgain(Before(existing), "\n\n");
  }

  lemma TrailStrips(existing: string)
    ensures LStrip(Trail(existing)) == LStrip(After(existing))
  {
    assert Blank("\n");
    hide Before, After, Count, Find, LStrip, Blank;
    StripsAgain(After(existing), "\n");
  }

  lemma BlankBefore(s: string)
    requires Blank(s)
    ensures Before(s) == s && After(s) == ""
  {
    BlankText(s, START);
    BlankText(s, END);
    BlankText(s, LEGACY_START);
    BlankText(s, LEGACY_END);
  }

  /** A later merge replaces an earlier one: installing `first` and then `second` gives what installing `second` gives. */
  lemma LastMergeWins(existing: string, first: string, second: string)
    requires MarkerFree(first) && Merge(existing, Render(first)).Merged? && !Blank(existing)
    ensures Merge(Merge(existing, Render(first)).text, Render(second)) == Merge(existing, Render(second))
  {
    var text := Merge(existing, Render(first)).text;
    MergeInstalls(existing, first);
    MergeKeepsText(existing, first);
    BlockShape(text, START, END, Lead(existing), Inner(first), Trail(existing), second);
    AcceptedIff(existing, Render(first));
    AcceptedIff(existing, Render(second));
    MergeShape(existing, second);
  }

  /** Merging the same body again changes nothing, at once for a non-blank text and after one more merge for a blank one. */
  lemma MergeSettles(existing: string, body: string)
    requires MarkerFree(body) && Merge(existing, Render(body)).Merged?
    ensures var once := Merge(existing, Render(body)).text;
      && Merge(once, Render(body)).Merged?
      && var twice := Merge(once, Render(body)).text;
      && Merge(twice, Render(body)) == Merged(twice)
      && (twice == once <==> !Blank(existing))
  {
    hide MarkerFree, Count, Merge, Render, Inner, HasBlock, Before, After, START, END, Lead, Trail, Blank;
    var once := Merge(existing, Render(body)).text;
    MergeInstalls(existing, body);
    BlockShape(once, START, END, Lead(existing), Inner(body), Trail(existing), body);
    LastMergeWins(once, body, body);
    if Blank(existing) {
      BlankSettles(existing, body);
    } else {
      LastMergeWins(existing, body, body);
    }
  }

  /** On a blank text the block is written alone, and the next merge puts an empty line before it. */
  lemma BlankSettles(existing: string, body: string)
    requires MarkerFree(body) && Blank(existing)
    ensures Merge(existing, Render(body)) == Merged(Render(body))
    ensures Merge(Render(body), Render(body)) == Merged("\n\n" + Render(body))
  {
    var block := Render(body);
    hide MarkerFree, Count, Inner, HasBlock, Before, After, START, END, Render;
    BlankFree(existing);
    MergeFree(existing, block);
    hide Merge;
    MergeInstalls(existing, body);
    BlankBefore(existing);
    MergeBlock(block, START, END, Lead(existing), Inner(body), Trail(existing), block);
    RenderShape(body);
    LeadStrips(existing);
    TrailStrips(existing);
    BlankStripped(existing);
    BlankStripped("");
    assert "" + "\n\n" == "\n\n";
    Around("\n\n", RStrip(block), "\n");
    assert "\n\n" + RStrip(block) + "\n" + "" == "\n\n" + RStrip(block) + "\n";
  }

  lemma BlankFree(s: string)
    requires Blank(s)
    ensures MarkerFree(s)
  {
    forall m | IsMarker(m) ensures Count(s, m) == 0 {
      BlankText(s, m);
    }
  }

  /** The result of a merge can be merged into again exactly when the installed body held no marker. */
  lemma AcceptedAgainIff(existing: string, body: string, block: string)
    requires Merge(existing, Render(body)).Merged?
    ensures Merge(Merge(existing, Render(body)).text, block).Merged? <==> MarkerFree(body)
  {
    var text := Merge(existing, Render(body)).text;
    if MarkerFree(body) {
      MergeInstalls(existing, body);
      AcceptedIff(text, block);
    } else {
      ResultCounts(existing, body);
      MarkersApart();
    }
  }

  /** A body that is itself a marker: installed in an empty file, and refused ever after. */
  lemma MarkerBodyIsFinal(block: string)
    ensures Merge("", Render(START)).Merged? && Merge(Merge("", Render(START)).text, block).Refused?
  {
    BlankFree("");
    AcceptedIff("", Render(START));
    MarkerCountsItself(START);
    hide Merge, Render, Count, START;
    AcceptedAgainIff("", START, block);
  }

  lemma MarkerCountsItself(m: string)
    requires IsMarker(m)
    ensures Count(m, m) == 1 && !MarkerFree(m)
  {
    CountAhead(m, "", m);
    BlankText("", m);
    assert m + "" == m;
  }
}
