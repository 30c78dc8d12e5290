/** Which SSH commands are accepted and what they yield, stated without the parser: the hosts by how they are written,
    the endpoint id by the shape of its slug. */
module SshAcceptance {
  import opened Text
  import opened SshCommand

  // ----- hosts -----

  /** Four numbers up to 255 between dots, in their shortest decimal form. */
  ghost predicate DottedQuad(host: string, a: nat, b: nat, c: nat, d: nat) {
    && a <= 255 && b <= 255 && c <= 255 && d <= 255
    && host == Decimal(a) + ("." + (Decimal(b) + ("." + (Decimal(c) + ("." + Decimal(d))))))
  }

  /** Labels between dots. */
  ghost predicate Labels(host: string, labels: seq<string>) {
    labels != [] && host == Join(labels, '.')
    && forall k :: 0 <= k < |labels| ==> IsLabel(labels[k])
  }

  lemma OctetOf(n: nat)
    requires n <= 255
    ensures IsOctet(Decimal(n)) && Value(Decimal(n)) == n && '.' !in Decimal(n)
  {
    assert Power10(3) == 10 * (10 * (10 * 1)) by {
      assert Power10(0) == 1 && Power10(1) == 10 && Power10(2) == 100;
    }
    DecimalLength(n, 3, Power10(3));
    ValueOfDecimal(n);
  }

  lemma QuadSplits(a: string, b: string, c: string, d: string)
    requires '.' !in a && '.' !in b && '.' !in c && '.' !in d
    ensures Split(a + ("." + (b + ("." + (c + ("." + d))))), '.') == [a, b, c, d]
  {
    hide Split;
    SplitNothing(d);
    SplitAtDot(c, d);
    assert c + "." + d == c + ("." + d);
    SplitAtDot(b, c + ("." + d));
    assert b + "." + (c + ("." + d)) == b + ("." + (c + ("." + d)));
    SplitAtDot(a, b + ("." + (c + ("." + d))));
    assert a + "." + (b + ("." + (c + ("." + d)))) == a + ("." + (b + ("." + (c + ("." + d)))));
  }

  lemma QuadParses(host: string, a: nat, b: nat, c: nat, d: nat)
    requires DottedQuad(host, a, b, c, d)
    ensures ParseIpv4(host) == Some(Ipv4(a, b, c, d))
  {
    OctetOf(a);
    OctetOf(b);
    OctetOf(c);
    OctetOf(d);
    hide Decimal, Value, Split, IsOctet;
    QuadSplits(Decimal(a), Decimal(b), Decimal(c), Decimal(d));
  }

  lemma ParsesToQuad(host: string)
    requires ParseIpv4(host).Some?
    ensures var p := ParseIpv4(host).value; DottedQuad(host, p.a, p.b, p.c, p.d)
  {
    ShowOfParse(host);
    hide Decimal, Split, Value;
    var p := ParseIpv4(host).value;
    Regrouped(Decimal(p.a), Decimal(p.b), Decimal(p.c), Decimal(p.d));
  }

  lemma Regrouped(a: string, b: string, c: string, d: string)
    ensures a + "." + b + "." + c + "." + d == a + ("." + (b + ("." + (c + ("." + d)))))
  {
    assert a + "." + b == a + ("." + b);
    assert a + "." + b + "." + c == a + ("." + (b + ("." + c)));
  }

  /** A host of digits and dots is an address exactly when it is a dotted quad, and then it is this address. */
  lemma Ipv4Iff(host: string, p: Ipv4)
    ensures ParseIpv4(host) == Some(p) <==> DottedQuad(host, p.a, p.b, p.c, p.d)
  {
    hide ParseIpv4, DottedQuad;
    if ParseIpv4(host) == Some(p) {
      ParsesToQuad(host);
    }
    if DottedQuad(host, p.a, p.b, p.c, p.d) {
      QuadParses(host, p.a, p.b, p.c, p.d);
    }
  }

  lemma {:induction false} SplitOfJoin(labels: seq<string>)
    requires labels != [] && forall k :: 0 <= k < |labels| ==> '.' !in labels[k]
    ensures Split(Join(labels, '.'), '.') == labels
  {
    hide Split;
    if |labels| == 1 {
      SplitNothing(labels[0]);
    } else {
      SplitOfJoin(labels[1..]);
      SplitAtDot(labels[0], Join(labels[1..], '.'));
    }
  }

  lemma LabelHasNoDot(part: string)
    requires IsLabel(part)
    ensures '.' !in part
  {
  }

  /** A host name is accepted exactly when it is one or more labels between dots. */
  lemma DnsNameIff(host: string)
    ensures IsDnsName(host) <==> exists labels :: Labels(host, labels)
  {
    hide IsLabel, Split, Join;
    if IsDnsName(host) {
      JoinOfSplit(host, '.');
      var parts := Split(host, '.');
      forall k | 0 <= k < |parts| ensures IsLabel(parts[k]) {
        assert parts[k] in parts;
      }
      assert Labels(host, parts);
    }
    if labels :| Labels(host, labels) {
      forall k | 0 <= k < |labels| ensures '.' !in labels[k] {
        LabelHasNoDot(labels[k]);
      }
      SplitOfJoin(labels);
    }
  }

  /** A dotted quad, or a host name that is not all digits and dots. */
  ghost predicate GoodHost(host: string) {
    if forall i :: 0 <= i < |host| ==> '0' <= host[i] <= '9' || host[i] == '.'
    then exists a, b, c, d :: DottedQuad(host, a, b, c, d)
    else exists labels :: Labels(host, labels)
  }

  lemma NormalHostIff(host: string, normal: string)
    ensures NormalHost(host) == Some(normal) <==> GoodHost(host) && normal == Lower(host)
  {
    hide DottedQuad, Labels, IsDnsName, ParseIpv4, Lower, ShowIpv4;
    if NormalHost(host).Some? {
      NormalHostIsLower(host);
    }
    DnsNameIff(host);
    if IsNumeric(host) {
      if ParseIpv4(host).Some? {
        Ipv4Iff(host, ParseIpv4(host).value);
      }
      if a: nat, b: nat, c: nat, d: nat :| DottedQuad(host, a, b, c, d) {
        Ipv4Iff(host, Ipv4(a, b, c, d));
      }
    }
  }

  // ----- labels and users -----

  predicate AsciiAlnum(c: char) {
    'a' <= c <= 'z' || 'A' <= c <= 'Z' || '0' <= c <= '9'
  }

  /** A letter or digit, or two of them around at most 61 letters, digits and hyphens. */
  ghost predicate LabelParts(s: string, first: string, inner: string, last: string) {
    && s == first + (inner + last) && |first| == 1 && |inner| <= 61 && |last| <= 1 && (last == [] ==> inner == [])
    && AsciiAlnum(first[0]) && (last != [] ==> AsciiAlnum(last[0]))
    && forall i :: 0 <= i < |inner| ==> AsciiAlnum(inner[i]) || inner[i] == '-'
  }

  lemma IsLabelIff(s: string)
    ensures IsLabel(s) <==> exists first, inner, last :: LabelParts(s, first, inner, last)
  {
    if IsLabel(s) {
      var n := |s|;
      if n == 1 {
        assert s == s + ([] + []);
        assert LabelParts(s, s, [], []);
      } else {
        assert s == s[..1] + (s[1..n - 1] + s[n - 1..]);
        assert LabelParts(s, s[..1], s[1..n - 1], s[n - 1..]);
      }
    }
  }

  /** A letter or underscore and at most 31 letters, digits, underscores and hyphens. */
  ghost predicate UserParts(s: string, first: string, rest: string) {
    && s == first + rest && |first| == 1 && |rest| <= 31
    && ('a' <= first[0] <= 'z' || 'A' <= first[0] <= 'Z' || first[0] == '_')
    && forall i :: 0 <= i < |rest| ==> AsciiAlnum(rest[i]) || rest[i] == '_' || rest[i] == '-'
  }

  lemma IsUserIff(s: string)
    ensures IsUser(s) <==> exists first, rest :: UserParts(s, first, rest)
  {
    if IsUser(s) {
      assert s == s[..1] + s[1..];
      assert UserParts(s, s[..1], s[1..]);
    }
  }

  // ----- commands -----

  /** What a command that reads this way yields, if anything. */
  ghost predicate Yields(p: ParsedSshCommand, port: Option<string>, user: string, host: string) {
    && p.user == user
    && (if port.None? then p.port == 22 else AllDigits(port.value) && p.port == Value(port.value))
    && 1 <= p.port <= 65535
    && |host| <= 253 && GoodHost(host) && p.host == Lower(host)
    && |EndpointId(p)| <= 128
  }

  predicate OneLine(command: string) {
    1 <= |command| <= 512 && forall i :: 0 <= i < |command| ==> 32 <= command[i] as int != 127
  }

  /** A command is accepted exactly when it is one printable line of at most 512 characters that matches the pattern,
      with a port from 1 to 65535 and a good host, and an id that fits. */
  lemma AcceptedIff(command: string, p: ParsedSshCommand)
    ensures ParseSshCommand(command) == Some(p) <==>
            OneLine(command) && exists port, user, host :: Matches(command, port, user, host) && Yields(p, port, user, host)
  {
    hide Matches, ReadCommand, NormalHost, GoodHost, EndpointId, Lower, Value;
    if ParseSshCommand(command) == Some(p) {
      var t := ReadCommand(command).value;
      ReadsTheGrammar(command, t.port, t.user, t.host);
      NormalHostIff(t.host, p.host);
      assert Matches(command, t.port, t.user, t.host) && Yields(p, t.port, t.user, t.host);
    }
    if OneLine(command) {
      forall port, user, host | Matches(command, port, user, host) && Yields(p, port, user, host)
        ensures ParseSshCommand(command) == Some(p)
      {
        ReadsTheGrammar(command, port, user, host);
        NormalHostIff(host, p.host);
        PortHasDigits(command, port, user, host);
      }
    }
  }

  lemma PortHasDigits(command: string, port: Option<string>, user: string, host: string)
    requires Matches(command, port, user, host)
    ensures port.Some? ==> port.value != [] && AllDigits(port.value)
  {
    hide IsUser, IsHostText, IsPortOption;
  }

  // ----- the slug -----

  /** Lower-case letters, digits and single hyphens between them. */
  predicate IsSlug(s: string) {
    && (forall i :: 0 <= i < |s| ==> Plain(s[i]) || s[i] == '-')
    && (s != [] ==> s[0] != '-' && s[|s| - 1] != '-')
    && NoDoubleHyphen(s)
  }

  predicate Plain(c: char) {
    'a' <= c <= 'z' || '0' <= c <= '9'
  }

  predicate NoDoubleHyphen(s: string) {
    forall i :: 0 < i < |s| ==> s[i - 1] != '-' || s[i] != '-'
  }

  function SlugChars(s: string): string {
    if s == [] then [] else (if Plain(s[0]) then [s[0]] else []) + SlugChars(s[1..])
  }

  lemma {:induction false} SluggedShape(s: string)
    ensures var r := Slugged(s);
      && (forall i :: 0 <= i < |r| ==> IsSlugChar(r[i]) || r[i] == '-') && NoDoubleHyphen(r)
      && (s == [] <==> r == []) && (s != [] ==> (r[0] == '-' <==> !IsSlugChar(s[0])))
      && SlugChars(r) == SlugChars(s)
  {
    if s != [] {
      SluggedShape(s[1..]);
      var rest := Slugged(s[1..]);
      assert ("-" + rest)[1..] == rest && ([s[0]] + rest)[1..] == rest;
    }
  }

  lemma {:induction false} SlugCharsJoin(a: string, b: string)
    ensures SlugChars(a + b) == SlugChars(a) + SlugChars(b)
  {
    if a == [] {
      assert a + b == b;
    } else {
      SlugCharsJoin(a[1..], b);
      assert (a + b)[1..] == a[1..] + b;
    }
  }

  lemma {:induction false} StripShape(s: string)
    requires (forall i :: 0 <= i < |s| ==> IsSlugChar(s[i]) || s[i] == '-') && NoDoubleHyphen(s)
    ensures IsSlug(StripHyphens(s)) && SlugChars(StripHyphens(s)) == SlugChars(s)
    decreases |s|
  {
    if s != [] && s[0] == '-' {
      StripShape(s[1..]);
    } else if s != [] && s[|s| - 1] == '-' {
      var front := s[..|s| - 1];
      StripShape(front);
      assert s == front + "-";
      SlugCharsJoin(front, "-");
      assert SlugChars("-") == [] by {
        assert "-"[1..] == [];
      }
    }
  }

  /** The slug of a host: its lower-case letters and digits in order, with single hyphens between some of them. */
  lemma SlugOfHost(host: string)
    ensures var slug := StripHyphens(Slugged(host));
      IsSlug(slug) && SlugChars(slug) == SlugChars(host)
  {
    SluggedShape(host);
    StripShape(Slugged(host));
  }

  lemma {:induction false} SluggedKeeps(s: string)
    requires (forall i :: 0 <= i < |s| ==> IsSlugChar(s[i]) || s[i] == '-') && NoDoubleHyphen(s)
    ensures Slugged(s) == s
  {
    if s != [] {
      assert s == [s[0]] + s[1..];
      assert |s| > 1 && s[0] == '-' ==> s[1] != '-';
      SluggedKeeps(s[1..]);
    }
  }

  /** A slug is its own slug. */
  lemma SlugIsFixed(s: string)
    requires IsSlug(s)
    ensures StripHyphens(Slugged(s)) == s
  {
    SluggedKeeps(s);
  }
}
