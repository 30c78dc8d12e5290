/** JSON values, the compact ASCII text `json.dumps(value, separators=(",", ":"))` prints for
    them, and a reader of RFC 8259 text.  Objects keep their members in order. */
module Json {
  import opened Text

  datatype Member = Member(name: string, value: Json)

  datatype Json =
    | Null
    | Bool(b: bool)
    | Int(n: int)
    | Str(s: string)
    | Arr(items: seq<Json>)
    | Obj(members: seq<Member>)

  /** `value.get(name)`: of repeated names the last one counts. */
  function Lookup(members: seq<Member>, name: string): Option<Json> {
    if members == [] then None
    else if members[|members| - 1].name == name then Some(members[|members| - 1].value)
    else Lookup(members[..|members| - 1], name)
  }

  lemma {:induction false} LookupAt(members: seq<Member>, i: nat)
    requires i < |members| && forall j :: i < j < |members| ==> members[j].name != members[i].name
    ensures Lookup(members, members[i].name) == Some(members[i].value)
  {
    if i < |members| - 1 {
      LookupAt(members[..|members| - 1], i);
    }
  }

  // ----- printing -----

  function HexChar(d: nat): char
    requires d < 16
  {
    if d < 10 then ('0' as int + d) as char else ('a' as int + (d - 10)) as char
  }

  /** The four lower-case hexadecimal digits of one UTF-16 code unit. */
  function Hex4(n: nat): (s: string)
    requires n < 0x10000
    ensures |s| == 4
  {
    [HexChar(n / 0x1000), HexChar(n / 0x100 % 16), HexChar(n / 16 % 16), HexChar(n % 16)]
  }

  /** Section 7 of RFC 8259, with everything outside printable ASCII escaped. */
  function PrintChar(c: char): (s: string)
    ensures s != [] && s[0] != '"'
  {
    var code := c as int;
    if c == '"' then "\\\""
    else if c == '\\' then "\\\\"
    else if code == 10 then "\\n"
    else if code == 13 then "\\r"
    else if code == 9 then "\\t"
    else if code == 8 then "\\b"
    else if code == 12 then "\\f"
    else if 32 <= code <= 126 then [c]
    else if code < 0x10000 then "\\u" + Hex4(code)
    else "\\u" + Hex4(0xD800 + (code - 0x10000) / 0x400) + "\\u" + Hex4(0xDC00 + (code - 0x10000) % 0x400)
  }

  function PrintChars(s: string): string {
    if s == [] then [] else PrintChar(s[0]) + PrintChars(s[1..])
  }

  function PrintString(s: string): string {
    "\"" + PrintChars(s) + "\""
  }

  function PrintInt(n: int): string {
    if n < 0 then "-" + Decimal(-n) else Decimal(n)
  }

  function Print(v: Json): string
    decreases v, 1
  {
    match v
    case Null => "null"
    case Bool(b) => if b then "true" else "false"
    case Int(n) => PrintInt(n)
    case Str(s) => PrintString(s)
    case Arr(items) => "[" + (if items == [] then "]" else PrintItems(items))
    case Obj(members) => "{" + (if members == [] then "}" else PrintMembers(members))
  }

  /** The items of a non-empty array up to and including its closing bracket. */
  function PrintItems(items: seq<Json>): string
    requires items != []
    decreases items, 0
  {
    Print(items[0]) + (if |items| == 1 then "]" else "," + PrintItems(items[1..]))
  }

  function PrintMembers(members: seq<Member>): string
    requires members != []
    decreases members, 0
  {
    PrintString(members[0].name) + ":" + Print(members[0].value)
    + (if |members| == 1 then "}" else "," + PrintMembers(members[1..]))
  }

  // ----- reading: each reader returns a value and the text after it -----

  predicate IsWhitespace(c: char) {
    c == ' ' || c == '\t' || c == '\n' || c == '\r'
  }

  function SkipSpaces(s: string): (r: string)
    ensures |r| <= |s|
  {
    if s != [] && IsWhitespace(s[0]) then SkipSpaces(s[1..]) else s
  }

  function HexDigit(c: char): Option<nat> {
    if '0' <= c <= '9' then Some(c as int - '0' as int)
    else if 'a' <= c <= 'f' then Some(c as int - 'a' as int + 10)
    else if 'A' <= c <= 'F' then Some(c as int - 'A' as int + 10)
    else None
  }

  function ReadHex4(s: string): Option<nat> {
    if |s| < 4 then None else
      match (HexDigit(s[0]), HexDigit(s[1]), HexDigit(s[2]), HexDigit(s[3]))
      case (Some(a), Some(b), Some(c), Some(d)) => Some(((a * 16 + b) * 16 + c) * 16 + d)
      case _ => None
  }

  /** The escape after a backslash-u; a lone surrogate has no `char` and is refused. */
  function ReadUnicode(s: string): (r: Option<(char, string)>)
    ensures r.Some? ==> |r.value.1| < |s|
  {
    match ReadHex4(s)
    case None => None
    case Some(unit) =>
      if unit < 0xD800 || 0xE000 <= unit < 0x10000 then Some((unit as char, s[4..]))
      else if !(0xD800 <= unit < 0xDC00) || |s| < 6 || s[4..6] != "\\u" then None
      else
        match ReadHex4(s[6..])
        case None => None
        case Some(low) =>
          if !(0xDC00 <= low < 0xE000) then None
          else Some(((0x10000 + (unit - 0xD800) * 0x400 + (low - 0xDC00)) as char, s[10..]))
  }

  function ReadChar(s: string): (r: Option<(char, string)>)
    requires s != []
    ensures r.Some? ==> |r.value.1| < |s|
  {
    if s[0] != '\\' then
      if (s[0] as int) < 32 then None else Some((s[0], s[1..]))
    else if |s| < 2 then None
    else
      match s[1]
      case '"' => Some(('"', s[2..]))
      case '\\' => Some(('\\', s[2..]))
      case '/' => Some(('/', s[2..]))
      case 'b' => Some((8 as char, s[2..]))
      case 'f' => Some((12 as char, s[2..]))
      case 'n' => Some((10 as char, s[2..]))
      case 'r' => Some((13 as char, s[2..]))
      case 't' => Some((9 as char, s[2..]))
      case 'u' => ReadUnicode(s[2..])
      case _ => None
  }

  /** Characters up to and including the closing quote. */
  function ReadChars(s: string): (r: Option<(string, string)>)
    ensures r.Some? ==> |r.value.1| < |s|
    decreases |s|
  {
    if s == [] then None
    else if s[0] == '"' then Some(("", s[1..]))
    else
      match ReadChar(s)
      case None => None
      case Some((c, rest)) =>
        match ReadChars(rest)
        case None => None
        case Some((cs, after)) => Some(([c] + cs, after))
  }

  function DigitPrefix(s: string): (k: nat)
    ensures k <= |s| && AllDigits(s[..k]) && (k < |s| ==> !IsDigit(s[k]))
  {
    if s != [] && IsDigit(s[0]) then
      var k := 1 + DigitPrefix(s[1..]);
      assert s[..k] == [s[0]] + s[1..][..k - 1];
      k
    else 0
  }

  /** An unsigned integer without leading zeros; a fraction or exponent is refused. */
  function ReadNat(s: string): (r: Option<(nat, string)>)
    ensures r.Some? ==> |r.value.1| < |s|
  {
    var k := DigitPrefix(s);
    if k == 0 || (k > 1 && s[0] == '0') || (k < |s| && s[k] in ".eE") then None
    else Some((Value(s[..k]), s[k..]))
  }

  function ReadValue(s: string): (r: Option<(Json, string)>)
    ensures r.Some? ==> |r.value.1| < |s|
    decreases |s|, 1
  {
    var s := SkipSpaces(s);
    if s == [] then None
    else if "null" <= s then Some((Null, s[4..]))
    else if "true" <= s then Some((Bool(true), s[4..]))
    else if "false" <= s then Some((Bool(false), s[5..]))
    else if s[0] == '"' then
      match ReadChars(s[1..])
      case None => None
      case Some((cs, rest)) => Some((Str(cs), rest))
    else if s[0] == '[' then
      var t := SkipSpaces(s[1..]);
      if t != [] && t[0] == ']' then Some((Arr([]), t[1..]))
      else
        match ReadItems(s[1..])
        case None => None
        case Some((items, rest)) => Some((Arr(items), rest))
    else if s[0] == '{' then
      var t := SkipSpaces(s[1..]);
      if t != [] && t[0] == '}' then Some((Obj([]), t[1..]))
      else
        match ReadMembers(s[1..])
        case None => None
        case Some((members, rest)) => Some((Obj(members), rest))
    else if s[0] == '-' then
      match ReadNat(s[1..])
      case None => None
      case Some((n, rest)) => Some((Int(0 - (n as int)), rest))
    else
      match ReadNat(s)
      case None => None
      case Some((n, rest)) => Some((Int(n), rest))
  }

  function ReadItems(s: string): (r: Option<(seq<Json>, string)>)
    ensures r.Some? ==> |r.value.1| < |s|
    decreases |s|, 2
  {
    match ReadValue(s)
    case None => None
    case Some((v, rest)) =>
      var t := SkipSpaces(rest);
      if t == [] then None
      else if t[0] == ']' then Some(([v], t[1..]))
      else if t[0] != ',' then None
      else
        match ReadItems(t[1..])
        case None => None
        case Some((vs, after)) => Some(([v] + vs, after))
  }

  function ReadMembers(s: string): (r: Option<(seq<Member>, string)>)
    ensures r.Some? ==> |r.value.1| < |s|
    decreases |s|, 2
  {
    var s := SkipSpaces(s);
    if s == [] || s[0] != '"' then None
    else
      match ReadChars(s[1..])
      case None => None
      case Some((name, rest)) =>
        var t := SkipSpaces(rest);
        if t == [] || t[0] != ':' then None
        else
          match ReadValue(t[1..])
          case None => None
          case Some((v, rest)) =>
            var t := SkipSpaces(rest);
            if t == [] then None
            else if t[0] == '}' then Some(([Member(name, v)], t[1..]))
            else if t[0] != ',' then None
            else
              match ReadMembers(t[1..])
              case None => None
              case Some((ms, after)) => Some(([Member(name, v)] + ms, after))
  }

  /** `json.loads(text)`. */
  function Read(text: string): Option<Json> {
    match ReadValue(text)
    case None => None
    case Some((v, rest)) => if SkipSpaces(rest) == [] then Some(v) else None
  }

  // ----- what is printed is read back -----

  lemma HexCharRoundTrip(d: nat)
    requires d < 16
    ensures HexDigit(HexChar(d)) == Some(d)
  {
  }

  lemma HexSum(n: nat)
    requires n < 0x10000
    ensures ((n / 0x1000 * 16 + n / 0x100 % 16) * 16 + n / 16 % 16) * 16 + n % 16 == n
  {
    assert n / 16 / 16 == n / 0x100 && n / 0x100 / 16 == n / 0x1000;
    assert n / 0x100 == n / 0x1000 * 16 + n / 0x100 % 16;
    assert n / 16 == n / 0x100 * 16 + n / 16 % 16;
  }

  lemma Hex4RoundTrip(n: nat, rest: string)
    requires n < 0x10000
    ensures ReadHex4(Hex4(n) + rest) == Some(n)
  {
    var a, b, c, d := n / 0x1000, n / 0x100 % 16, n / 16 % 16, n % 16;
    assert ((a * 16 + b) * 16 + c) * 16 + d == n by {
      HexSum(n);
    }
    ReadHex4Of(a, b, c, d, rest);
  }

  lemma ReadHex4Of(a: nat, b: nat, c: nat, d: nat, rest: string)
    requires a < 16 && b < 16 && c < 16 && d < 16
    ensures ReadHex4([HexChar(a), HexChar(b), HexChar(c), HexChar(d)] + rest) == Some(((a * 16 + b) * 16 + c) * 16 + d)
  {
    var s := [HexChar(a), HexChar(b), HexChar(c), HexChar(d)] + rest;
    HexCharRoundTrip(a);
    HexCharRoundTrip(b);
    HexCharRoundTrip(c);
    HexCharRoundTrip(d);
    hide HexChar, HexDigit;
    assert s[0] == HexChar(a) && s[1] == HexChar(b) && s[2] == HexChar(c) && s[3] == HexChar(d);
  }

  lemma ReadShortOfPrint(c: char, rest: string)
    requires (c as int) < 0x7F && (c as int >= 32 || c as int in {10, 13, 9, 8, 12})
    ensures ReadChar(PrintChar(c) + rest) == Some((c, rest))
  {
    hide Hex4, ReadUnicode;
    var s := PrintChar(c) + rest;
    if c as int in {34, 92, 10, 13, 9, 8, 12} {
      assert s[0] == '\\' && s[2..] == rest;
    } else {
      assert s[0] == c && s[1..] == rest;
    }
  }

  lemma ReadUnitOfPrint(c: char, rest: string)
    requires c as int < 0x10000
    ensures ReadUnicode(Hex4(c as int) + rest) == Some((c, rest))
  {
    Hex4RoundTrip(c as int, rest);
    hide Hex4, ReadHex4;
    assert (Hex4(c as int) + rest)[4..] == rest;
  }

  lemma ReadPairOfPrint(c: char, rest: string)
    requires c as int >= 0x10000
    ensures var high, low := 0xD800 + (c as int - 0x10000) / 0x400, 0xDC00 + (c as int - 0x10000) % 0x400;
      ReadUnicode(Hex4(high) + ("\\u" + Hex4(low) + rest)) == Some((c, rest))
  {
    var high, low := 0xD800 + (c as int - 0x10000) / 0x400, 0xDC00 + (c as int - 0x10000) % 0x400;
    var tail := "\\u" + Hex4(low) + rest;
    Hex4RoundTrip(high, tail);
    Hex4RoundTrip(low, rest);
    hide Hex4, ReadHex4;
    var t := Hex4(high) + tail;
    assert t[4..6] == "\\u" && t[6..] == Hex4(low) + rest && t[10..] == rest;
  }

  lemma ReadCharOfPrint(c: char, rest: string)
    ensures ReadChar(PrintChar(c) + rest) == Some((c, rest))
  {
    hide Hex4, ReadUnicode;
    var code := c as int;
    if code < 0x7F && (code >= 32 || code in {10, 13, 9, 8, 12}) {
      ReadShortOfPrint(c, rest);
    } else {
      var s := PrintChar(c) + rest;
      assert s[0] == '\\' && s[1] == 'u';
      if code < 0x10000 {
        assert s[2..] == Hex4(code) + rest;
        ReadUnitOfPrint(c, rest);
      } else {
        var high, low := 0xD800 + (code - 0x10000) / 0x400, 0xDC00 + (code - 0x10000) % 0x400;
        assert s[2..] == Hex4(high) + ("\\u" + Hex4(low) + rest);
        ReadPairOfPrint(c, rest);
      }
    }
  }

  lemma {:induction false} ReadCharsOfPrint(s: string, rest: string)
    ensures ReadChars(PrintChars(s) + "\"" + rest) == Some((s, rest))
  {
    hide PrintChar, ReadChar;
    var text := PrintChars(s) + "\"" + rest;
    if s == [] {
      assert text == "\"" + rest;
    } else {
      var tail := PrintChars(s[1..]) + "\"" + rest;
      assert text == PrintChar(s[0]) + tail;
      ReadCharOfPrint(s[0], tail);
      ReadCharsOfPrint(s[1..], rest);
      assert s == [s[0]] + s[1..];
    }
  }

  /** What may follow a printed value: nothing, a delimiter or the final newline. */
  predicate Delimited(rest: string) {
    rest == [] || rest[0] in ",]}\n"
  }

  lemma {:induction false} DigitPrefixOf(digits: string, rest: string)
    requires AllDigits(digits) && (rest == [] || !IsDigit(rest[0]))
    ensures DigitPrefix(digits + rest) == |digits|
  {
    var s := digits + rest;
    if digits == [] {
      assert s == rest;
    } else {
      assert s[1..] == digits[1..] + rest;
      DigitPrefixOf(digits[1..], rest);
    }
  }

  lemma ReadNatOfDecimal(n: nat, rest: string)
    requires Delimited(rest)
    ensures ReadNat(Decimal(n) + rest) == Some((n, rest))
  {
    var digits := Decimal(n);
    var s := digits + rest;
    DigitPrefixOf(digits, rest);
    ValueOfDecimal(n);
    assert s[..|digits|] == digits && s[|digits|..] == rest;
  }

  // One step of each reader on text that starts with a given token.

  lemma ReadWord(v: Json, rest: string)
    requires v.Null? || v.Bool?
    ensures ReadValue(Print(v) + rest) == Some((v, rest))
  {
    var text := Print(v) + rest;
    assert Print(v) <= text && text[|Print(v)|..] == rest;
    assert SkipSpaces(text) == text;
  }

  lemma ReadUnsigned(s: string, n: nat, rest: string)
    requires s != [] && IsDigit(s[0]) && ReadNat(s) == Some((n, rest))
    ensures ReadValue(s) == Some((Int(n), rest))
  {
    hide ReadNat, ReadChars, ReadItems, ReadMembers;
    assert SkipSpaces(s) == s;
    assert "null"[0] == 'n' && "true"[0] == 't' && "false"[0] == 'f';
  }

  lemma ReadNegative(s: string, n: nat, rest: string)
    requires ReadNat(s) == Some((n, rest))
    ensures ReadValue("-" + s) == Some((Int(0 - (n as int)), rest))
  {
    hide ReadNat, ReadChars, ReadItems, ReadMembers;
    var text := "-" + s;
    assert text[0] == '-' && text[1..] == s;
    assert SkipSpaces(text) == text;
    assert "null"[0] == 'n' && "true"[0] == 't' && "false"[0] == 'f';
  }

  lemma ReadNumber(n: int, rest: string)
    requires Delimited(rest)
    ensures ReadValue(PrintInt(n) + rest) == Some((Int(n), rest))
  {
    hide ReadValue, ReadNat;
    if n < 0 {
      ReadNatOfDecimal(-n, rest);
      ReadNegative(Decimal(-n) + rest, -n, rest);
      assert PrintInt(n) + rest == "-" + (Decimal(-n) + rest);
    } else {
      ReadNatOfDecimal(n, rest);
      assert IsDigit(Decimal(n)[0]);
      ReadUnsigned(Decimal(n) + rest, n, rest);
    }
  }

  lemma ReadText(s: string, rest: string)
    ensures ReadValue(PrintString(s) + rest) == Some((Str(s), rest))
  {
    var text := PrintString(s) + rest;
    assert text[0] == '"' && text[1..] == PrintChars(s) + "\"" + rest;
    ReadCharsOfPrint(s, rest);
    assert SkipSpaces(text) == text;
  }

  lemma ReadEmpty(v: Json, rest: string)
    requires v == Arr([]) || v == Obj([])
    ensures ReadValue(Print(v) + rest) == Some((v, rest))
  {
    var text := Print(v) + rest;
    assert text[0] == (if v.Arr? then '[' else '{');
    assert text[1..] == (if v.Arr? then "]" else "}") + rest;
    assert SkipSpaces(text) == text && SkipSpaces(text[1..]) == text[1..];
    assert text[1..][1..] == rest;
  }

  lemma ReadBracketed(body: string, items: seq<Json>, rest: string)
    requires body != [] && !IsWhitespace(body[0]) && body[0] != ']'
    requires ReadItems(body) == Some((items, rest))
    ensures ReadValue("[" + body) == Some((Arr(items), rest))
  {
    var text := "[" + body;
    assert text[0] == '[' && text[1..] == body;
    assert SkipSpaces(text) == text && SkipSpaces(body) == body;
  }

  lemma ReadBraced(body: string, members: seq<Member>, rest: string)
    requires body != [] && body[0] == '"'
    requires ReadMembers(body) == Some((members, rest))
    ensures ReadValue("{" + body) == Some((Obj(members), rest))
  {
    var text := "{" + body;
    assert text[0] == '{' && text[1..] == body;
    assert SkipSpaces(text) == text && SkipSpaces(body) == body;
  }

  lemma ReadLastItem(v: Json, text: string, rest: string)
    requires ReadValue(text) == Some((v, "]" + rest))
    ensures ReadItems(text) == Some(([v], rest))
  {
    var t := "]" + rest;
    assert SkipSpaces(t) == t && t[1..] == rest;
  }

  lemma ReadNextItem(v: Json, text: string, more: string, vs: seq<Json>, rest: string)
    requires ReadValue(text) == Some((v, "," + more)) && ReadItems(more) == Some((vs, rest))
    ensures ReadItems(text) == Some(([v] + vs, rest))
  {
    var t := "," + more;
    assert SkipSpaces(t) == t && t[1..] == more;
  }

  lemma NoSpaces(s: string)
    requires s != [] && s[0] in "\":,}"
    ensures SkipSpaces(s) == s
  {
  }

  lemma ReadMember(m: Member, tail: string, rest: string, ms: seq<Member>)
    requires tail != [] && ReadValue(Print(m.value) + tail) == Some((m.value, tail))
    requires if ms == [] then tail == "}" + rest
             else tail[0] == ',' && ReadMembers(tail[1..]) == Some((ms, rest))
    ensures ReadMembers(PrintString(m.name) + ":" + Print(m.value) + tail) == Some(([m] + ms, rest))
  {
    var text := PrintString(m.name) + ":" + Print(m.value) + tail;
    var afterName := ":" + Print(m.value) + tail;
    hide Print, PrintChars, ReadValue, ReadChars, SkipSpaces;
    assert text[0] == '"' && text[1..] == PrintChars(m.name) + "\"" + afterName;
    ReadCharsOfPrint(m.name, afterName);
    assert afterName[0] == ':' && afterName[1..] == Print(m.value) + tail;
    NoSpaces(text);
    NoSpaces(afterName);
    NoSpaces(tail);
    if ms == [] {
      assert tail[1..] == rest && [m] + ms == [m];
    }
  }

  lemma {:induction false} ReadValueOfPrint(v: Json, rest: string)
    requires Delimited(rest)
    ensures ReadValue(Print(v) + rest) == Some((v, rest))
    decreases v, 1
  {
    hide ReadValue, ReadItems, ReadMembers, PrintItems, PrintMembers, PrintString, PrintInt;
    match v
    case Null => ReadWord(v, rest);
    case Bool(_) => ReadWord(v, rest);
    case Int(n) => ReadNumber(n, rest);
    case Str(s) => ReadText(s, rest);
    case Arr(items) =>
      if items == [] {
        ReadEmpty(v, rest);
      } else {
        ReadItemsOfPrint(items, rest);
        ReadBracketed(PrintItems(items) + rest, items, rest);
        assert Print(v) + rest == "[" + (PrintItems(items) + rest);
      }
    case Obj(members) =>
      if members == [] {
        ReadEmpty(v, rest);
      } else {
        ReadMembersOfPrint(members, rest);
        ReadBraced(PrintMembers(members) + rest, members, rest);
        assert Print(v) + rest == "{" + (PrintMembers(members) + rest);
      }
  }

  lemma {:induction false} ReadItemsOfPrint(items: seq<Json>, rest: string)
    requires items != []
    ensures ReadItems(PrintItems(items) + rest) == Some((items, rest))
    ensures PrintItems(items) != [] && PrintItems(items)[0] != ']' && !IsWhitespace(PrintItems(items)[0])
    decreases items, 0
  {
    hide ReadValue, ReadItems, Print;
    var text := PrintItems(items) + rest;
    PrintHead(items[0]);
    if |items| == 1 {
      ReadValueOfPrint(items[0], "]" + rest);
      assert text == Print(items[0]) + ("]" + rest);
      ReadLastItem(items[0], text, rest);
      assert items == [items[0]];
    } else {
      var more := PrintItems(items[1..]) + rest;
      ReadValueOfPrint(items[0], "," + more);
      assert text == Print(items[0]) + ("," + more);
      ReadItemsOfPrint(items[1..], rest);
      ReadNextItem(items[0], text, more, items[1..], rest);
      assert items == [items[0]] + items[1..];
    }
  }

  lemma {:induction false} ReadMembersOfPrint(members: seq<Member>, rest: string)
    requires members != []
    ensures ReadMembers(PrintMembers(members) + rest) == Some((members, rest))
    ensures PrintMembers(members) != [] && PrintMembers(members)[0] == '"'
    decreases members, 0
  {
    hide ReadValue, ReadMembers, Print, PrintChars;
    var m, ms := members[0], members[1..];
    var tail := (if ms == [] then "}" else "," + PrintMembers(ms)) + rest;
    ReadValueOfPrint(m.value, tail);
    if ms != [] {
      ReadMembersOfPrint(ms, rest);
      assert tail[1..] == PrintMembers(ms) + rest;
    }
    ReadMember(m, tail, rest, ms);
    assert PrintMembers(members) + rest == PrintString(m.name) + ":" + Print(m.value) + tail;
    assert members == [m] + ms;
  }

  lemma PrintHead(v: Json)
    ensures Print(v) != [] && Print(v)[0] != ']' && !IsWhitespace(Print(v)[0])
  {
    if v.Int? && v.n >= 0 {
      assert IsDigit(Decimal(v.n)[0]);
    }
  }

  /** Every value survives printing and reading, with or without the message newline. */
  lemma ReadOfPrint(v: Json)
    ensures Read(Print(v)) == Some(v)
    ensures Read(Print(v) + "\n") == Some(v)
  {
    ReadValueOfPrint(v, []);
    assert Print(v) + [] == Print(v);
    ReadValueOfPrint(v, "\n");
  }
}
