/** The strict parser of `ssh [-p PORT] USER@HOST` and the printer of its normal form. */
module SshCommand {
  import opened Text

  // ----- characters -----

  predicate IsLetter(c: char) {
    'a' <= c <= 'z' || 'A' <= c <= 'Z'
  }

  predicate IsUserStart(c: char) {
    IsLetter(c) || c == '_'
  }

  predicate IsUserChar(c: char) {
    IsLetter(c) || IsDigit(c) || c == '_' || c == '-'
  }

  predicate IsAlnum(c: char) {
    IsLetter(c) || IsDigit(c)
  }

  predicate IsHostChar(c: char) {
    IsAlnum(c) || c == '.' || c == '-'
  }

  predicate IsControl(c: char) {
    (c as int) < 32 || c as int == 127
  }

  predicate Spaces(s: string) {
    forall i :: 0 <= i < |s| ==> s[i] == ' '
  }

  // ----- the command pattern, as a grammar -----

  predicate IsUser(user: string) {
    1 <= |user| <= 32 && IsUserStart(user[0]) && forall i :: 0 <= i < |user| ==> IsUserChar(user[i])
  }

  predicate IsHostText(host: string) {
    host != [] && forall i :: 0 <= i < |host| ==> IsHostChar(host[i])
  }

  ghost predicate IsPortOption(s: string, a: string, b: string, digits: string, c: string) {
    a != [] && b != [] && c != [] && Spaces(a) && Spaces(b) && Spaces(c) && s == a + ("-p" + (b + (digits + c)))
  }

  /** `-p` and a port between blanks, or one run of blanks when no port is given. */
  ghost predicate IsOption(s: string, port: Option<string>) {
    match port
    case None => s != [] && Spaces(s)
    case Some(digits) => digits != [] && AllDigits(digits) && exists a, b, c :: IsPortOption(s, a, b, digits, c)
  }

  ghost predicate Joins(command: string, lead: string, option: string, user: string, host: string, trail: string) {
    Spaces(lead) && Spaces(trail) && command == lead + ("ssh" + (option + (user + ("@" + (host + trail)))))
  }

  /** `SSH_COMMAND_PATTERN.fullmatch` with its three groups. */
  ghost predicate Matches(command: string, port: Option<string>, user: string, host: string) {
    IsUser(user) && IsHostText(host)
    && exists lead, option, trail :: IsOption(option, port) && Joins(command, lead, option, user, host, trail)
  }

  // ----- the same pattern, as a reader -----

  /** The length of the longest front whose characters all pass. */
  function Span(s: string, p: char -> bool): (n: nat)
    ensures n <= |s| && (forall i :: 0 <= i < n ==> p(s[i])) && (n < |s| ==> !p(s[n]))
  {
    if s != [] && p(s[0]) then 1 + Span(s[1..], p) else 0
  }

  lemma {:induction false} SpanOf(a: string, b: string, p: char -> bool)
    requires forall i :: 0 <= i < |a| ==> p(a[i])
    requires b == [] || !p(b[0])
    ensures Span(a + b, p) == |a|
  {
    if a == [] {
      assert a + b == b;
    } else {
      assert (a + b)[1..] == a[1..] + b;
      SpanOf(a[1..], b, p);
    }
  }

  const IsBlank := (c: char) => c == ' '

  datatype Target = Target(port: Option<string>, user: string, host: string)

  function ReadTarget(s: string, port: Option<string>): Option<Target> {
    var u := Span(s, IsUserChar);
    var user := s[..u];
    if !IsUser(user) || u == |s| || s[u] != '@' then None
    else
      var rest := s[u + 1..];
      var h := Span(rest, IsHostChar);
      if h == 0 || Span(rest[h..], IsBlank) != |rest| - h then None
      else Some(Target(port, user, rest[..h]))
  }

  function ReadDigits(s: string): Option<Target> {
    var d := Span(s, IsDigit);
    var rest := s[d..];
    var c := Span(rest, IsBlank);
    if d == 0 || c == 0 then None else ReadTarget(rest[c..], Some(s[..d]))
  }

  function ReadPort(s: string): Option<Target> {
    var b := Span(s, IsBlank);
    if b == 0 then None else ReadDigits(s[b..])
  }

  function ReadOption(s: string): Option<Target> {
    var a := Span(s, IsBlank);
    var rest := s[a..];
    if a == 0 then None
    else if "-p" <= rest then ReadPort(rest[2..])
    else ReadTarget(rest, None)
  }

  function ReadCommand(command: string): Option<Target> {
    var rest := command[Span(command, IsBlank)..];
    if "ssh" <= rest then ReadOption(rest[3..]) else None
  }

  lemma ReadTargetComplete(port: Option<string>, user: string, host: string, trail: string)
    requires IsUser(user) && IsHostText(host) && Spaces(trail)
    ensures ReadTarget(user + ("@" + (host + trail)), port) == Some(Target(port, user, host))
  {
    var rest := host + trail;
    var s := user + ("@" + rest);
    SpanOf(user, "@" + rest, IsUserChar);
    assert s[..|user|] == user && s[|user| + 1..] == rest;
    SpanOf(host, trail, IsHostChar);
    assert rest[..|host|] == host && rest[|host|..] == trail;
    SpanOf(trail, "", IsBlank);
    assert trail + "" == trail;
  }

  lemma ReadDigitsComplete(digits: string, c: string, tail: string)
    requires digits != [] && AllDigits(digits) && c != [] && Spaces(c) && tail != [] && IsUserStart(tail[0])
    ensures ReadDigits(digits + (c + tail)) == ReadTarget(tail, Some(digits))
  {
    hide Span, ReadTarget;
    var rest := c + tail;
    SpanOf(digits, rest, IsDigit);
    SpanOf(c, tail, IsBlank);
    assert (digits + rest)[..|digits|] == digits && (digits + rest)[|digits|..] == rest && rest[|c|..] == tail;
  }

  lemma PortOptionComplete(a: string, b: string, digits: string, rest: string)
    requires a != [] && b != [] && Spaces(a) && Spaces(b) && digits != [] && AllDigits(digits)
    ensures ReadOption(a + ("-p" + (b + (digits + rest)))) == ReadDigits(digits + rest)
  {
    hide Span, ReadTarget, ReadDigits;
    var s2 := b + (digits + rest);
    var s1 := "-p" + s2;
    SpanOf(a, s1, IsBlank);
    SpanOf(b, digits + rest, IsBlank);
    assert (a + s1)[|a|..] == s1 && s1[2..] == s2 && s2[|b|..] == digits + rest;
  }

  lemma ReadOptionComplete(option: string, port: Option<string>, tail: string)
    requires IsOption(option, port) && tail != [] && IsUserStart(tail[0])
    ensures ReadOption(option + tail) == ReadTarget(tail, port)
  {
    match port {
      case None =>
        SpanOf(option, tail, IsBlank);
        hide ReadTarget;
        assert (option + tail)[|option|..] == tail;
      case Some(digits) =>
        var a, b, c :| IsPortOption(option, a, b, digits, c);
        hide ReadTarget, ReadDigits, ReadOption;
        PortOptionComplete(a, b, digits, c + tail);
        ReadDigitsComplete(digits, c, tail);
        Regroup(a, "-p", b, digits, c, tail);
    }
  }

  lemma Regroup(a: string, b: string, c: string, d: string, e: string, f: string)
    ensures a + (b + (c + (d + e))) + f == a + (b + (c + (d + (e + f))))
  {
    assert d + e + f == d + (e + f);
    assert c + (d + e) + f == c + (d + e + f);
    assert b + (c + (d + e)) + f == b + (c + (d + e) + f);
  }

  lemma Cut(s: string, n: nat) returns (front: string, back: string)
    requires n <= |s|
    ensures front == s[..n] && back == s[n..] && s == front + back
  {
    front, back := s[..n], s[n..];
  }

  lemma ReadTargetSound(s: string, port: Option<string>) returns (trail: string)
    requires ReadTarget(s, port).Some?
    ensures var t := ReadTarget(s, port).value;
      && t.port == port && IsUser(t.user) && IsHostText(t.host)
      && Spaces(trail) && s == t.user + ("@" + (t.host + trail))
  {
    var u := Span(s, IsUserChar);
    var user, back := Cut(s, u);
    var at, rest := Cut(back, 1);
    var h := Span(rest, IsHostChar);
    assert rest == s[u + 1..] && at == "@";
    var host;
    host, trail := Cut(rest, h);
  }

  lemma CutSpaces(s: string) returns (front: string, back: string)
    ensures Spaces(front) && s == front + back && |front| == Span(s, IsBlank) && back == s[Span(s, IsBlank)..]
  {
    hide Span;
    front, back := Cut(s, Span(s, IsBlank));
  }

  lemma DigitParts(s: string) returns (digits: string, z: string, tail: string)
    requires ReadDigits(s).Some?
    ensures s == digits + (z + tail) && digits != [] && z != [] && AllDigits(digits) && Spaces(z)
    ensures ReadDigits(s) == ReadTarget(tail, Some(digits))
  {
    hide Span, ReadTarget;
    var rest;
    digits, rest := Cut(s, Span(s, IsDigit));
    z, tail := CutSpaces(rest);
  }

  lemma PortParts(s: string) returns (y: string, digits: string, z: string, tail: string)
    requires ReadPort(s).Some?
    ensures s == y + (digits + (z + tail)) && y != [] && digits != [] && z != []
    ensures Spaces(y) && AllDigits(digits) && Spaces(z)
    ensures ReadPort(s) == ReadTarget(tail, Some(digits))
  {
    hide Span, ReadTarget, ReadDigits, Spaces, AllDigits;
    var rest;
    y, rest := CutSpaces(s);
    digits, z, tail := DigitParts(rest);
  }

  lemma OptionParts(s: string) returns (x: string, y: string, digits: string, z: string, tail: string)
    requires ReadOption(s).Some? && "-p" <= s[Span(s, IsBlank)..]
    ensures s == x + ("-p" + (y + (digits + (z + tail))))
    ensures x != [] && y != [] && digits != [] && z != [] && Spaces(x) && Spaces(y) && AllDigits(digits) && Spaces(z)
    ensures ReadOption(s) == ReadTarget(tail, Some(digits))
  {
    hide Span, ReadTarget, ReadPort, Spaces, AllDigits;
    var p, rest, after;
    x, rest := CutSpaces(s);
    p, after := Cut(rest, 2);
    y, digits, z, tail := PortParts(after);
  }

  lemma ReadOptionSound(s: string) returns (option: string, tail: string, trail: string)
    requires ReadOption(s).Some?
    ensures var t := ReadOption(s).value;
      && IsOption(option, t.port) && s == option + tail
      && IsUser(t.user) && IsHostText(t.host) && Spaces(trail) && tail == t.user + ("@" + (t.host + trail))
  {
    hide Span, ReadTarget, ReadPort;
    if "-p" <= s[Span(s, IsBlank)..] {
      var x, y, digits, z;
      x, y, digits, z, tail := OptionParts(s);
      option := x + ("-p" + (y + (digits + z)));
      assert IsPortOption(option, x, y, digits, z);
      hide ReadOption;
      Regroup(x, "-p", y, digits, z, tail);
      trail := ReadTargetSound(tail, Some(digits));
    } else {
      option, tail := Cut(s, Span(s, IsBlank));
      trail := ReadTargetSound(tail, None);
    }
  }

  lemma ReadComplete(command: string, port: Option<string>, user: string, host: string)
    requires Matches(command, port, user, host)
    ensures ReadCommand(command) == Some(Target(port, user, host))
  {
    var lead, option, trail :| IsOption(option, port) && Joins(command, lead, option, user, host, trail);
    var tail := user + ("@" + (host + trail));
    ReadTargetComplete(port, user, host, trail);
    ReadOptionComplete(option, port, tail);
    SpanOf(lead, "ssh" + (option + tail), IsBlank);
    hide ReadOption, ReadTarget, IsOption, Span;
    var rest := command[|lead|..];
    assert rest == "ssh" + (option + tail) && rest[3..] == option + tail;
  }

  lemma CommandParts(command: string) returns (lead: string, s: string)
    requires ReadCommand(command).Some?
    ensures Spaces(lead) && command == lead + ("ssh" + s) && ReadCommand(command) == ReadOption(s)
  {
    hide ReadOption, Span;
    var rest, ssh;
    lead, rest := Cut(command, Span(command, IsBlank));
    ssh, s := Cut(rest, 3);
  }

  lemma ReadSound(command: string)
    requires ReadCommand(command).Some?
    ensures var t := ReadCommand(command).value; Matches(command, t.port, t.user, t.host)
  {
    var lead, s := CommandParts(command);
    hide ReadCommand, ReadOption, ReadTarget, IsOption, Span;
    var option, tail, trail := ReadOptionSound(s);
    var t := ReadOption(s).value;
    assert Joins(command, lead, option, t.user, t.host, trail);
  }

  /** The reader accepts exactly the texts of the pattern, each with one reading. */
  lemma ReadsTheGrammar(command: string, port: Option<string>, user: string, host: string)
    ensures ReadCommand(command) == Some(Target(port, user, host)) <==> Matches(command, port, user, host)
  {
    if Matches(command, port, user, host) {
      ReadComplete(command, port, user, host);
    }
    if ReadCommand(command) == Some(Target(port, user, host)) {
      ReadSound(command);
    }
  }

  // ----- hosts -----

  /** `s.split(sep)`, never empty. */
  function Split(s: string, sep: char): (parts: seq<string>)
    ensures parts != []
  {
    if s == [] then [""]
    else
      var rest := Split(s[1..], sep);
      if s[0] == sep then [""] + rest else [[s[0]] + rest[0]] + rest[1..]
  }

  function Join(parts: seq<string>, sep: char): string
    requires parts != []
  {
    if |parts| == 1 then parts[0] else parts[0] + [sep] + Join(parts[1..], sep)
  }

  lemma {:induction false} JoinOfSplit(s: string, sep: char)
    ensures Join(Split(s, sep), sep) == s
  {
    if s != [] {
      JoinOfSplit(s[1..], sep);
      var rest := Split(s[1..], sep);
      var parts := Split(s, sep);
      if s[0] == sep {
        assert parts[1..] == rest;
      } else {
        assert parts[1..] == rest[1..] && parts[0] == [s[0]] + rest[0];
      }
    }
  }

  /** One octet of `IPv4Address`: one to three digits, no leading zero, at most 255. */
  predicate IsOctet(s: string) {
    1 <= |s| <= 3 && AllDigits(s) && (s[0] == '0' ==> |s| == 1) && Value(s) <= 255
  }

  datatype Ipv4 = Ipv4(a: nat, b: nat, c: nat, d: nat)

  function ParseIpv4(host: string): Option<Ipv4> {
    var octets := Split(host, '.');
    if |octets| == 4 && IsOctet(octets[0]) && IsOctet(octets[1]) && IsOctet(octets[2]) && IsOctet(octets[3])
    then Some(Ipv4(Value(octets[0]), Value(octets[1]), Value(octets[2]), Value(octets[3])))
    else None
  }

  function ShowIpv4(address: Ipv4): string {
    Decimal(address.a) + "." + Decimal(address.b) + "." + Decimal(address.c) + "." + Decimal(address.d)
  }

  lemma Join4(a: string, b: string, c: string, d: string)
    ensures Join([a, b, c, d], '.') == a + "." + b + "." + c + "." + d
  {
    assert [a, b, c, d][1..] == [b, c, d] && [b, c, d][1..] == [c, d] && [c, d][1..] == [d];
    assert Join([c, d], '.') == c + "." + d;
    assert Join([b, c, d], '.') == b + "." + (c + "." + d);
  }

  /** Printing the parsed address gives back the text: an accepted IPv4 host is its own normal form. */
  lemma ShowOfParse(host: string)
    requires ParseIpv4(host).Some?
    ensures ShowIpv4(ParseIpv4(host).value) == host
  {
    var o := Split(host, '.');
    JoinOfSplit(host, '.');
    assert o == [o[0], o[1], o[2], o[3]];
    DecimalOfValue(o[0]);
    DecimalOfValue(o[1]);
    DecimalOfValue(o[2]);
    DecimalOfValue(o[3]);
    hide Split, Join, Value, Decimal;
    Join4(o[0], o[1], o[2], o[3]);
  }

  /** `DNS_LABEL_PATTERN`: letters, digits and inner hyphens, section 2.1 of RFC 1123. */
  predicate IsLabel(s: string) {
    1 <= |s| <= 63 && IsAlnum(s[0]) && IsAlnum(s[|s| - 1]) && forall i :: 0 <= i < |s| ==> IsAlnum(s[i]) || s[i] == '-'
  }

  predicate IsDnsName(host: string) {
    forall part :: part in Split(host, '.') ==> IsLabel(part)
  }

  predicate IsNumeric(host: string) {
    forall i :: 0 <= i < |host| ==> IsDigit(host[i]) || host[i] == '.'
  }

  function NormalHost(host: string): Option<string> {
    if IsNumeric(host) then
      match ParseIpv4(host)
      case None => None
      case Some(address) => Some(ShowIpv4(address))
    else if IsDnsName(host) then Some(Lower(host))
    else None
  }

  lemma LowerKinds(c: char)
    ensures LowerChar(LowerChar(c)) == LowerChar(c)
    ensures IsDigit(LowerChar(c)) == IsDigit(c) && IsAlnum(LowerChar(c)) == IsAlnum(c)
    ensures IsHostChar(LowerChar(c)) == IsHostChar(c)
    ensures LowerChar(c) == '.' <==> c == '.'
    ensures LowerChar(c) == '-' <==> c == '-'
  {
  }

  lemma {:induction false} SplitLower(s: string)
    ensures var parts, lowered := Split(s, '.'), Split(Lower(s), '.');
      |parts| == |lowered| && forall k :: 0 <= k < |parts| ==> lowered[k] == Lower(parts[k])
  {
    if s == [] {
    } else {
      SplitLower(s[1..]);
      LowerKinds(s[0]);
      assert Lower(s)[1..] == Lower(s[1..]);
      var rest := Split(s[1..], '.');
      assert Lower([s[0]] + rest[0]) == [LowerChar(s[0])] + Lower(rest[0]);
    }
  }

  lemma LowerLabel(s: string)
    ensures IsLabel(Lower(s)) <==> IsLabel(s)
  {
    hide IsAlnum, LowerChar;
    forall i | 0 <= i < |s|
      ensures IsAlnum(Lower(s)[i]) == IsAlnum(s[i]) && (Lower(s)[i] == '-' <==> s[i] == '-')
    {
      LowerKinds(s[i]);
    }
  }

  lemma LowerDns(host: string)
    requires IsDnsName(host)
    ensures IsDnsName(Lower(host))
  {
    SplitLower(host);
    hide IsLabel, Split;
    var parts, lowered := Split(host, '.'), Split(Lower(host), '.');
    forall part | part in lowered ensures IsLabel(part) {
      var k :| 0 <= k < |lowered| && lowered[k] == part;
      LowerLabel(parts[k]);
    }
  }

  /** Normalising a host twice is normalising it once, and keeps it a host text of the same length. */
  lemma NormalHostIsNormal(host: string)
    requires IsHostText(host) && NormalHost(host).Some?
    ensures var normal := NormalHost(host).value;
      NormalHost(normal) == Some(normal) && IsHostText(normal) && |normal| == |host|
  {
    var normal := NormalHost(host).value;
    if IsNumeric(host) {
      ShowOfParse(host);
      hide ParseIpv4, ShowIpv4;
    } else {
      LowerDns(host);
      hide IsDnsName, IsHostChar, LowerChar;
      forall i | 0 <= i < |host|
        ensures IsHostChar(normal[i]) == IsHostChar(host[i])
          && (IsDigit(normal[i]) || normal[i] == '.' <==> IsDigit(host[i]) || host[i] == '.')
          && LowerChar(normal[i]) == normal[i]
      {
        LowerKinds(host[i]);
      }
      assert Lower(normal) == normal;
    }
  }

  lemma NumericIsLower(host: string)
    requires IsNumeric(host)
    ensures Lower(host) == host
  {
  }

  /** The normal form of a host is its lower case. */
  lemma NormalHostIsLower(host: string)
    requires NormalHost(host).Some?
    ensures NormalHost(host) == Some(Lower(host))
  {
    if IsNumeric(host) {
      ShowOfParse(host);
      NumericIsLower(host);
    }
  }

  // ----- the parsed command -----

  datatype ParsedSshCommand = ParsedSshCommand(user: string, host: string, port: nat)

  /** Runs of anything but lower-case letters and digits become one hyphen each. */
  function Slugged(s: string): string {
    if s == [] then []
    else if IsSlugChar(s[0]) then [s[0]] + Slugged(s[1..])
    else if |s| > 1 && !IsSlugChar(s[1]) then Slugged(s[1..])
    else "-" + Slugged(s[1..])
  }

  predicate IsSlugChar(c: char) {
    'a' <= c <= 'z' || IsDigit(c)
  }

  function StripHyphens(s: string): string {
    if s != [] && s[0] == '-' then StripHyphens(s[1..])
    else if s != [] && s[|s| - 1] == '-' then StripHyphens(s[..|s| - 1])
    else s
  }

  function EndpointId(p: ParsedSshCommand): string {
    "server-" + StripHyphens(Slugged(p.host)) + "-p" + Decimal(p.port)
  }

  function Normalized(p: ParsedSshCommand): string {
    "ssh" + ((if p.port != 22 then " -p " + Decimal(p.port) + " " else " ") + (p.user + ("@" + p.host)))
  }

  function ParseSshCommand(command: string): Option<ParsedSshCommand> {
    if command == [] || |command| > 512 || (exists i :: 0 <= i < |command| && IsControl(command[i])) then None
    else
      match ReadCommand(command)
      case None => None
      case Some(target) => FinishTarget(target)
  }

  /** The checks after the pattern has matched. */
  function FinishTarget(target: Target): Option<ParsedSshCommand> {
    var port := match target.port
      case None => Some(22)
      case Some(digits) => if digits != [] && AllDigits(digits) then Some(Value(digits)) else None;
    if port.None? || !(1 <= port.value <= 65535) || |target.host| > 253 then None
    else
      match NormalHost(target.host)
      case None => None
      case Some(host) =>
        var parsed := ParsedSshCommand(target.user, host, port.value);
        if |EndpointId(parsed)| > 128 then None else Some(parsed)
  }

  /** What every accepted command yields. */
  predicate Canonical(p: ParsedSshCommand) {
    && IsUser(p.user) && IsHostText(p.host) && |p.host| <= 253
    && NormalHost(p.host) == Some(p.host)
    && 1 <= p.port <= 65535
    && |EndpointId(p)| <= 128
  }

  lemma AcceptedIsCanonical(command: string)
    requires ParseSshCommand(command).Some?
    ensures Canonical(ParseSshCommand(command).value)
  {
    hide ReadCommand, NormalHost, EndpointId, IsUser, IsHostText, IsControl;
    var target := ReadCommand(command).value;
    ReadSound(command);
    NormalHostIsNormal(target.host);
  }

  function PortText(p: ParsedSshCommand): Option<string> {
    if p.port != 22 then Some(Decimal(p.port)) else None
  }

  lemma NormalizedOption(p: ParsedSshCommand) returns (option: string)
    ensures IsOption(option, PortText(p)) && Normalized(p) == "ssh" + (option + (p.user + ("@" + p.host)))
  {
    hide Decimal;
    if p.port != 22 {
      option := " -p " + Decimal(p.port) + " ";
      assert option == " " + ("-p" + (" " + (Decimal(p.port) + " ")));
      assert IsPortOption(option, " ", " ", Decimal(p.port), " ");
    } else {
      option := " ";
    }
  }

  lemma NormalizedReads(p: ParsedSshCommand)
    requires Canonical(p)
    ensures ReadCommand(Normalized(p)) == Some(Target(PortText(p), p.user, p.host))
  {
    hide Normalized, Decimal, ReadCommand, NormalHost, EndpointId, IsOption, PortText, IsUser, IsHostText;
    var option := NormalizedOption(p);
    assert p.host + "" == p.host;
    var tail := "ssh" + (option + (p.user + ("@" + p.host)));
    assert "" + tail == tail;
    assert Joins(Normalized(p), "", option, p.user, p.host, "");
    ReadComplete(Normalized(p), PortText(p), p.user, p.host);
  }

  lemma FinishOfCanonical(p: ParsedSshCommand)
    requires Canonical(p)
    ensures FinishTarget(Target(PortText(p), p.user, p.host)) == Some(p)
  {
    ValueOfDecimal(p.port);
    hide NormalHost, EndpointId, Decimal, Value, IsUser, IsHostText;
  }

  lemma PrintableUser(c: char)
    ensures IsUserChar(c) || IsHostChar(c) || IsDigit(c) ==> !IsControl(c)
  {
  }

  /** The normal form always fits: one printable line of at most 299 of the 512 characters allowed. */
  lemma NormalizedFits(p: ParsedSshCommand)
    requires Canonical(p)
    ensures |Normalized(p)| <= 299
    ensures forall i :: 0 <= i < |Normalized(p)| ==> !IsControl(Normalized(p)[i])
  {
    DecimalLength(p.port, 5, Power10(5));
    forall c ensures IsUserChar(c) || IsHostChar(c) || IsDigit(c) ==> !IsControl(c) {
      PrintableUser(c);
    }
    hide Decimal, NormalHost, EndpointId, IsControl, IsUserChar, IsHostChar, IsDigit;
    assert !IsControl(' ') && !IsControl('s') && !IsControl('h') && !IsControl('-') && !IsControl('p') && !IsControl('@');
  }

  /** Parsing the normal form of an accepted command gives the same user, host and port. */
  lemma ParseOfNormalized(command: string)
    requires ParseSshCommand(command).Some?
    ensures var p := ParseSshCommand(command).value; ParseSshCommand(Normalized(p)) == Some(p)
  {
    var p := ParseSshCommand(command).value;
    AcceptedIsCanonical(command);
    CanonicalReparses(p);
  }

  /** A user, host and port come back from their normal form exactly when some command yields them. */
  lemma CanonicalReparses(p: ParsedSshCommand)
    requires Canonical(p)
    ensures ParseSshCommand(Normalized(p)) == Some(p)
  {
    assert Normalized(p) != [];
    hide ReadCommand, FinishTarget, Normalized, Canonical, PortText, IsControl;
    NormalizedReads(p);
    NormalizedFits(p);
    FinishOfCanonical(p);
  }

  function PortOf(port: Option<string>): nat {
    match port
    case None => 22
    case Some(digits) => if AllDigits(digits) then Value(digits) else 0
  }

  /** Two accepted commands mean the same exactly when users are equal, ports are equal as numbers, the default
    * and leading zeros included, and hosts are equal up to case. */
  lemma SameDestinationIff(command: string, other: string)
    requires ParseSshCommand(command).Some? && ParseSshCommand(other).Some?
    ensures var a, b := ReadCommand(command).value, ReadCommand(other).value;
      ParseSshCommand(command) == ParseSshCommand(other)
      <==> a.user == b.user && PortOf(a.port) == PortOf(b.port) && Lower(a.host) == Lower(b.host)
  {
    hide ReadCommand, NormalHost, EndpointId, IsControl, Lower, Value;
    NormalHostIsLower(ReadCommand(command).value.host);
    NormalHostIsLower(ReadCommand(other).value.host);
  }

  /** Equal normal forms mean equal destinations, so the normal form is a key. */
  lemma NormalFormIsKey(p: ParsedSshCommand, q: ParsedSshCommand)
    requires Canonical(p) && Canonical(q) && Normalized(p) == Normalized(q)
    ensures p == q
  {
    CanonicalReparses(p);
    CanonicalReparses(q);
  }

  /** Two destinations share an endpoint id exactly when their ports agree and their hosts have the same slug. */
  lemma EndpointIdsCollideIff(p: ParsedSshCommand, q: ParsedSshCommand)
    ensures EndpointId(p) == EndpointId(q)
      <==> p.port == q.port && StripHyphens(Slugged(p.host)) == StripHyphens(Slugged(q.host))
  {
    var a, b := StripHyphens(Slugged(p.host)), StripHyphens(Slugged(q.host));
    ValueOfDecimal(p.port);
    ValueOfDecimal(q.port);
    hide Decimal, StripHyphens, Slugged;
    if EndpointId(p) == EndpointId(q) {
      SameTail("server-" + a, Decimal(p.port), "server-" + b, Decimal(q.port));
      SameFront("server-", a, b);
    }
  }

  lemma SameFront(front: string, a: string, b: string)
    requires front + a == front + b
    ensures a == b
  {
    assert (front + a)[|front|..] == a && (front + b)[|front|..] == b;
  }

  lemma TailAt(a: string, x: string)
    requires AllDigits(x)
    ensures var s := a + "-p" + x;
      s[|a| + 1] == 'p' && s[..|a|] == a && s[|a| + 2..] == x && forall k :: |a| + 2 <= k < |s| ==> IsDigit(s[k])
  {
  }

  /** The port is what follows the last `-p`, as it holds digits only. */
  lemma SameTail(a: string, x: string, b: string, y: string)
    requires AllDigits(x) && AllDigits(y) && a + "-p" + x == b + "-p" + y
    ensures a == b && x == y
  {
    TailAt(a, x);
    TailAt(b, y);
    assert |a| == |b|;
  }

  lemma {:induction false} SplitAtDot(a: string, b: string)
    requires '.' !in a
    ensures Split(a + "." + b, '.') == [a] + Split(b, '.')
    decreases |a|
  {
    var s := a + "." + b;
    if a == [] {
      assert s[1..] == b;
    } else {
      SplitAtDot(a[1..], b);
      assert s[1..] == a[1..] + "." + b;
      assert [s[0]] + a[1..] == a;
      assert ([a[1..]] + Split(b, '.'))[1..] == Split(b, '.');
    }
  }

  lemma {:induction false} SplitNothing(a: string)
    requires '.' !in a
    ensures Split(a, '.') == [a]
  {
    if a != [] {
      SplitNothing(a[1..]);
      assert [a[0]] + a[1..] == a;
    }
  }

  lemma {:induction false} SlugSize(s: string)
    ensures |Slugged(s)| <= |s|
  {
    if s != [] {
      SlugSize(s[1..]);
    }
  }

  lemma {:induction false} StripSize(s: string)
    ensures |StripHyphens(s)| <= |s|
    decreases |s|
  {
    if s != [] {
      StripSize(s[1..]);
      StripSize(s[..|s| - 1]);
    }
  }

  lemma {:induction false} SlugSeparator(x: string, y: string)
    ensures Slugged(x + ("." + y)) == Slugged(x + ("-" + y))
    decreases |x|
  {
    if x == [] {
      assert x + ("." + y) == "." + y && x + ("-" + y) == "-" + y;
      assert ("." + y)[1..] == y == ("-" + y)[1..];
      assert |y| > 0 ==> ("." + y)[1] == y[0] == ("-" + y)[1];
    } else {
      SlugSeparator(x[1..], y);
      assert (x + ("." + y))[1..] == x[1..] + ("." + y) && (x + ("-" + y))[1..] == x[1..] + ("-" + y);
    }
  }

  lemma LowerJoin(x: string, y: string, c: char)
    requires Lower(x) == x && Lower(y) == y && (c == '.' || c == '-')
    ensures Lower(x + ([c] + y)) == x + ([c] + y)
  {
    var s := x + ([c] + y);
    forall i | 0 <= i < |s| ensures LowerChar(s[i]) == s[i] {
      assert i < |x| ==> s[i] == Lower(x)[i];
      assert i > |x| ==> s[i] == Lower(y)[i - |x| - 1];
    }
  }

  lemma DottedHost(x: string, y: string)
    requires IsLabel(x) && IsLabel(y) && Lower(x) == x && Lower(y) == y && !IsNumeric(x)
    ensures var host := x + ("." + y); IsHostText(host) && NormalHost(host) == Some(host)
  {
    var host := x + ("." + y);
    assert host == x + "." + y;
    SplitAtDot(x, y);
    SplitNothing(y);
    LowerJoin(x, y, '.');
    assert !IsNumeric(host) by {
      var i :| 0 <= i < |x| && !(IsDigit(x[i]) || x[i] == '.');
      assert host[i] == x[i];
    }
  }

  lemma HyphenLabel(x: string, y: string)
    requires IsLabel(x) && IsLabel(y) && |x| + |y| < 63
    ensures var host := x + ("-" + y); IsLabel(host) && '.' !in host && IsHostText(host) && !IsNumeric(host)
  {
    var host := x + ("-" + y);
    assert host[|x|] == '-' && host[|host| - 1] == y[|y| - 1];
    assert '.' !in x && '.' !in y;
  }

  lemma HyphenHost(x: string, y: string)
    requires IsLabel(x) && IsLabel(y) && Lower(x) == x && Lower(y) == y && |x| + |y| < 63
    ensures var host := x + ("-" + y); IsHostText(host) && NormalHost(host) == Some(host)
  {
    var host := x + ("-" + y);
    HyphenLabel(x, y);
    LowerJoin(x, y, '-');
    hide IsLabel, IsHostText, IsNumeric, Lower, LowerChar, Split;
    SplitNothing(host);
  }

  lemma IdSize(p: ParsedSshCommand)
    requires |p.host| <= 114 && p.port <= 65535
    ensures |EndpointId(p)| <= 128
  {
    DecimalLength(p.port, 5, Power10(5));
    SlugSize(p.host);
    StripSize(Slugged(p.host));
  }

  /** The id is not a key: a dot and a hyphen between two labels give two accepted hosts with one id. */
  lemma EndpointIdsCollide(user: string, x: string, y: string, port: nat)
    requires IsUser(user) && 1 <= port <= 65535
    requires IsLabel(x) && IsLabel(y) && Lower(x) == x && Lower(y) == y && !IsNumeric(x) && |x| + |y| < 63
    ensures var p, q := ParsedSshCommand(user, x + ("." + y), port), ParsedSshCommand(user, x + ("-" + y), port);
      && ParseSshCommand(Normalized(p)) == Some(p) && ParseSshCommand(Normalized(q)) == Some(q)
      && p != q && EndpointId(p) == EndpointId(q)
  {
    var p, q := ParsedSshCommand(user, x + ("." + y), port), ParsedSshCommand(user, x + ("-" + y), port);
    hide IsLabel, NormalHost, IsUser, IsHostText, Slugged, StripHyphens, Decimal, IsNumeric, Lower, ParseSshCommand, Normalized;
    DottedHost(x, y);
    HyphenHost(x, y);
    IdSize(p);
    IdSize(q);
    SlugSeparator(x, y);
    CanonicalReparses(p);
    CanonicalReparses(q);
    assert p.host[|x|] == '.' && q.host[|x|] == '-';
  }
}
