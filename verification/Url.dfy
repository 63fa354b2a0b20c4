/**
  The URL parser, which walks the text from mark to mark, and the printer.

  Parsing a printed URL gives the same URL back exactly for the well-formed ones (`RoundTripIff`).
  `canonical` stands for reading an IPv6 address and writing it back; it fails on a malformed one.
 */
module Urls {
  import opened Options

  datatype Url = Url(scheme: string, userinfo: string, host: string, port: nat, query: string, ipv6: bool)

  datatype Result = Parsed(url: Url) | BadPort

  type Canonical = string -> Option<string>

  const PortLimit: nat := 0x1_0000

  // ---------------------------------------------------------------- library calls

  predicate IsSpace(c: char) {
    c == ' ' || ('\t' <= c && c <= '\r')
  }

  // The characters that are trimmed: space, tab, line feed, vertical tab, form feed and carriage return.
  lemma SpacesAre(c: char)
    ensures IsSpace(c) <==> c as int in {0x20, 0x09, 0x0A, 0x0B, 0x0C, 0x0D}
  {
  }

  predicate AllSpace(s: string) {
    forall i | 0 <= i < |s| :: IsSpace(s[i])
  }

  function TrimLeft(s: string): string {
    if s != "" && IsSpace(s[0]) then TrimLeft(s[1..]) else s
  }

  function TrimRight(s: string): string {
    if s != "" && IsSpace(s[|s| - 1]) then TrimRight(s[..|s| - 1]) else s
  }

  function Trim(s: string): string {
    TrimRight(TrimLeft(s))
  }

  predicate Free(s: string, c: char, from: nat, end: nat)
    requires from <= end <= |s|
  {
    forall i | from <= i < end :: s[i] != c
  }

  // The first place of `c` between the two positions, or the second of them.
  function Find(s: string, c: char, from: nat, end: nat): (r: nat)
    requires from <= end <= |s|
    ensures from <= r <= end && (r < end ==> s[r] == c)
    ensures Free(s, c, from, r)
    decreases end - from
  {
    if from == end || s[from] == c then from else Find(s, c, from + 1, end)
  }

  predicate MarkAt(s: string, i: nat) {
    i + 3 <= |s| && s[i] == ':' && s[i + 1] == '/' && s[i + 2] == '/'
  }

  predicate Unmarked(s: string, from: nat, end: nat) {
    forall i | from <= i < end :: !MarkAt(s, i)
  }

  predicate HasMark(s: string) {
    exists i | 0 <= i < |s| :: MarkAt(s, i)
  }

  // The first "://" at or after the position; the length of the text if there is none.
  function FindMark(s: string, from: nat): (r: nat)
    requires from <= |s|
    ensures from <= r <= |s| && (r < |s| ==> MarkAt(s, r))
    ensures Unmarked(s, from, r)
    decreases |s| - from
  {
    if from == |s| || MarkAt(s, from) then from else FindMark(s, from + 1)
  }

  predicate IsDigit(c: char) {
    '0' <= c <= '9'
  }

  function Number(digits: string): nat
    requires forall i | 0 <= i < |digits| :: IsDigit(digits[i])
  {
    if digits == "" then 0
    else
      var last := |digits| - 1;
      assert IsDigit(digits[last]);
      10 * Number(digits[..last]) + (digits[last] - '0') as nat
  }

  predicate AllDigits(s: string) {
    s != "" && forall i | 0 <= i < |s| :: IsDigit(s[i])
  }

  // A cast to a 16-bit unsigned number: an optional sign, then digits and nothing else; a minus wraps.
  function CastPort(s: string): (r: Option<nat>)
    ensures r.Some? ==> r.value < PortLimit
  {
    var signed := s != "" && (s[0] == '-' || s[0] == '+');
    var digits := if signed then s[1..] else s;
    if !AllDigits(digits) then None
    else
      var n := Number(digits);
      if n >= PortLimit then None
      else if s[0] == '-' then Some((PortLimit - n) % PortLimit)
      else Some(n)
  }

  function Decimal(n: nat): (s: string)
    ensures s != "" && forall i | 0 <= i < |s| :: IsDigit(s[i])
  {
    (if n < 10 then "" else Decimal(n / 10)) + ['0' + (n % 10) as char]
  }

  lemma {:induction false} NumberOfDecimal(n: nat)
    ensures Number(Decimal(n)) == n
  {
    if n >= 10 {
      NumberOfDecimal(n / 10);
      assert Decimal(n)[..|Decimal(n)| - 1] == Decimal(n / 10);
    } else {
      assert Decimal(n)[..|Decimal(n)| - 1] == "";
    }
  }

  lemma {:induction false} LeadingZero(digits: string)
    requires forall i | 0 <= i < |digits| :: IsDigit(digits[i])
    ensures Number("0" + digits) == Number(digits)
  {
    var zero := "0" + digits;
    if digits == "" {
      assert zero[..0] == "";
    } else {
      var n := |digits|;
      assert zero[..n] == "0" + digits[..n - 1];
      LeadingZero(digits[..n - 1]);
    }
  }

  // Digits are cast to their number, with a sign or without, and a minus wraps around 2^16.
  lemma CastDigits(digits: string)
    requires AllDigits(digits)
    ensures var n := Number(digits);
            && CastPort(digits) == (if n < 0x1_0000 then Some(n) else None)
            && CastPort("+" + digits) == (if n < 0x1_0000 then Some(n) else None)
            && CastPort("-" + digits) == (if n < 0x1_0000 then Some((0x1_0000 - n) % 0x1_0000) else None)
  {
    assert IsDigit(digits[0]);
    assert ("+" + digits)[1..] == digits && ("-" + digits)[1..] == digits;
  }

  // Nothing else is cast.
  lemma CastOnlyDigits(s: string)
    requires CastPort(s).Some?
    ensures AllDigits(s) || (s != "" && (s[0] == '+' || s[0] == '-') && AllDigits(s[1..]))
  {
    var signed := s != "" && (s[0] == '-' || s[0] == '+');
    assert AllDigits(if signed then s[1..] else s);
  }

  // Every 16-bit port survives being written in decimal and cast back.
  lemma PortSurvives(port: nat)
    requires port < 0x1_0000
    ensures CastPort(Decimal(port)) == Some(port)
  {
    NumberOfDecimal(port);
    assert IsDigit(Decimal(port)[0]);
  }

  // ---------------------------------------------------------------- the marks of a trimmed text

  function SchemeEnd(t: string): (r: nat)
    ensures r <= |t| && (r > 0 ==> MarkAt(t, r))
  {
    var m := FindMark(t, 0);
    if m < |t| then m else 0
  }

  function AuthorityBegin(t: string): (r: nat)
    ensures r <= |t|
  {
    if SchemeEnd(t) == 0 then 0 else SchemeEnd(t) + 3
  }

  function AuthorityEnd(t: string): (r: nat)
    ensures AuthorityBegin(t) <= r <= |t|
  {
    Find(t, '/', AuthorityBegin(t), |t|)
  }

  // Behind the userinfo, if there is one.
  function HostFrom(t: string): (r: nat)
    ensures AuthorityBegin(t) <= r <= AuthorityEnd(t)
  {
    var at := Find(t, '@', AuthorityBegin(t), AuthorityEnd(t));
    if at == AuthorityEnd(t) then AuthorityBegin(t) else at + 1
  }

  predicate Bracketed(t: string) {
    HostFrom(t) < |t| && t[HostFrom(t)] == '['
  }

  function HostBegin(t: string): (r: nat)
    ensures r <= AuthorityEnd(t)
  {
    if Bracketed(t) then HostFrom(t) + 1 else HostFrom(t)
  }

  function HostEnd(t: string): (r: nat)
    ensures HostBegin(t) <= r <= AuthorityEnd(t)
  {
    Find(t, if Bracketed(t) then ']' else ':', HostBegin(t), AuthorityEnd(t))
  }

  function PortMark(t: string): (r: nat)
    ensures HostEnd(t) <= r <= AuthorityEnd(t)
  {
    Find(t, ':', HostEnd(t), AuthorityEnd(t))
  }

  function PortOf(t: string): Option<nat> {
    if PortMark(t) == AuthorityEnd(t) then Some(0) else CastPort(t[PortMark(t) + 1..AuthorityEnd(t)])
  }

  function ParseTrimmed(t: string): Result {
    var port := PortOf(t);
    if port.None? then BadPort
    else Parsed(Url(t[..SchemeEnd(t)], "", t[HostBegin(t)..HostEnd(t)], port.value, t[AuthorityEnd(t)..], Bracketed(t)))
  }

  function Parse(s: string): Result {
    ParseTrimmed(Trim(s))
  }

  // ---------------------------------------------------------------- the printer

  function SchemeText(scheme: string): string {
    if scheme == "" then "" else scheme + "://"
  }

  function PortText(port: nat): string {
    if port == 0 then "" else ":" + Decimal(port)
  }

  function HostText(u: Url, canonical: Canonical): string {
    if u.ipv6 && canonical(u.host).Some? then "[" + canonical(u.host).value + "]" else u.host
  }

  function Print(u: Url, canonical: Canonical): Option<string> {
    if u.ipv6 && canonical(u.host).None? then None
    else Some(SchemeText(u.scheme) + u.userinfo + HostText(u, canonical) + PortText(u.port) + u.query)
  }

  // ---------------------------------------------------------------- step by step

  // The parser as the program runs it.
  method ParseUrl(text: string) returns (r: Result)
    ensures r == Parse(text)
  {
    hide Trim, Find, FindMark, Free, Unmarked, CastPort, SchemeEnd, AuthorityBegin, AuthorityEnd, HostFrom, HostBegin,
         HostEnd, Bracketed;
    var t := Trim(text);
    var schemeEnd, authorityEnd, hostBegin, hostEnd, ipv6 := WalkToHost(t);
    var host := t[hostBegin..hostEnd];
    var portBegin, port := Find(t, ':', hostEnd, authorityEnd), 0;
    if portBegin != authorityEnd {
      portBegin := portBegin + 1;
      var cast := CastPort(t[portBegin..authorityEnd]);
      if cast.None? {
        return BadPort;
      }
      port := cast.value;
    }
    return Parsed(Url(t[..schemeEnd], "", host, port, t[authorityEnd..], ipv6));
  }

  // As far as the end of the host.
  method WalkToHost(t: string)
    returns (schemeEnd: nat, authorityEnd: nat, hostBegin: nat, hostEnd: nat, ipv6: bool)
    ensures schemeEnd == SchemeEnd(t) && authorityEnd == AuthorityEnd(t)
    ensures hostBegin == HostBegin(t) && hostEnd == HostEnd(t) && ipv6 == Bracketed(t)
  {
    hide Find, FindMark, Free, Unmarked;
    schemeEnd := FindMark(t, 0);
    if schemeEnd == |t| {
      schemeEnd := 0;
    }
    var scheme := t[..schemeEnd];
    var authorityBegin := if scheme == "" then schemeEnd else schemeEnd + 3;
    authorityEnd := Find(t, '/', authorityBegin, |t|);
    var userinfoEnd := Find(t, '@', authorityBegin, authorityEnd);
    hostBegin := authorityBegin;
    if userinfoEnd != authorityEnd {
      hostBegin := userinfoEnd + 1;
    }
    assert hostBegin == HostFrom(t);
    if hostBegin < |t| && t[hostBegin] == '[' {
      hostBegin := hostBegin + 1;
      hostEnd := Find(t, ']', hostBegin, authorityEnd);
      ipv6 := true;
    } else {
      hostEnd := Find(t, ':', hostBegin, authorityEnd);
      ipv6 := false;
    }
  }

  // The printer as the program runs it; it fails on an IPv6 host that is no address.
  method PrintUrl(u: Url, canonical: Canonical) returns (r: Option<string>)
    ensures r == Print(u, canonical)
  {
    hide Decimal;
    var result := "";
    if u.scheme != "" {
      result := result + (u.scheme + "://");
    }
    assert result == SchemeText(u.scheme);
    result := result + u.userinfo;
    if u.ipv6 {
      var address := canonical(u.host);
      if address.None? {
        return None;
      }
      result := result + ("[" + address.value + "]");
    } else {
      result := result + u.host;
    }
    ghost var head := result;
    if u.port != 0 {
      result := result + ":";
      result := result + Decimal(u.port);
    }
    assert result == head + PortText(u.port);
    result := result + u.query;
    r := Some(result);
  }

  // ---------------------------------------------------------------- well-formed values

  predicate Without(s: string, c: char) {
    forall i | 0 <= i < |s| :: s[i] != c
  }

  predicate StartsBare(s: string) {
    s != "" ==> !IsSpace(s[0])
  }

  predicate EndsBare(s: string) {
    s != "" ==> !IsSpace(s[|s| - 1])
  }

  // What every parsed value meets.
  predicate Regular(u: Url) {
    && u.port < 0x1_0000
    && u.userinfo == ""
    && !HasMark(u.scheme) && (u.scheme == "" ==> !HasMark(u.query))
    && (u.query != "" ==> u.query[0] == '/')
    && StartsBare(u.scheme) && EndsBare(u.query)
    && (!u.ipv6 ==> Without(u.host, ':') && Without(u.host, '/') && (u.host != "" ==> u.host[0] != '['))
  }

  // The host is canonical, or free of '@' and of spaces at the ends of the text.
  predicate HostKept(u: Url, canonical: Canonical) {
    if u.ipv6 then canonical(u.host) == Some(u.host)
    else
      && Without(u.host, '@')
      && (u.scheme == "" ==> StartsBare(u.host))
      && (u.port == 0 && u.query == "" ==> EndsBare(u.host))
  }

  predicate WellFormed(u: Url, canonical: Canonical) {
    Regular(u) && HostKept(u, canonical)
  }

  // What an address is written with.
  predicate AddressText(s: string) {
    Without(s, '/') && Without(s, '@') && Without(s, ']')
  }

  // ---------------------------------------------------------------- trimming

  lemma {:induction false} TrimLeftDrops(x: string, y: string)
    requires AllSpace(x) && StartsBare(y)
    ensures TrimLeft(x + y) == y
    decreases |x|
  {
    if x == "" {
      assert x + y == y;
    } else {
      assert (x + y)[1..] == x[1..] + y;
      TrimLeftDrops(x[1..], y);
    }
  }

  lemma {:induction false} TrimRightDrops(y: string, z: string)
    requires AllSpace(z) && EndsBare(y)
    ensures TrimRight(y + z) == y
    decreases |z|
  {
    if z == "" {
      assert y + z == y;
    } else {
      assert (y + z)[..|y + z| - 1] == y + z[..|z| - 1];
      TrimRightDrops(y, z[..|z| - 1]);
    }
  }

  lemma {:induction false} TrimLeftSplits(s: string) returns (x: string)
    ensures AllSpace(x) && s == x + TrimLeft(s) && StartsBare(TrimLeft(s))
  {
    x := "";
    if s != "" && IsSpace(s[0]) {
      x := TrimLeftSplits(s[1..]);
      x := [s[0]] + x;
    }
  }

  lemma {:induction false} TrimRightSplits(s: string) returns (z: string)
    ensures AllSpace(z) && s == TrimRight(s) + z && EndsBare(TrimRight(s))
  {
    z := "";
    if s != "" && IsSpace(s[|s| - 1]) {
      z := TrimRightSplits(s[..|s| - 1]);
      z := z + [s[|s| - 1]];
    }
  }

  // Both ends of a trimmed text are bare.
  lemma TrimBares(s: string)
    ensures StartsBare(Trim(s)) && EndsBare(Trim(s))
  {
    var x := TrimLeftSplits(s);
    var z := TrimRightSplits(TrimLeft(s));
    if Trim(s) != "" {
      assert TrimLeft(s)[0] == Trim(s)[0];
    }
  }

  // Only what is between two bare ends stays.
  lemma TrimIs(x: string, y: string, z: string)
    requires AllSpace(x) && AllSpace(z) && StartsBare(y) && EndsBare(y)
    ensures Trim(x + y + z) == y
  {
    if y == "" {
      assert x + y + z == x + z + "";
      TrimLeftDrops(x + z, "");
    } else {
      assert x + y + z == x + (y + z);
      TrimLeftDrops(x, y + z);
      TrimRightDrops(y, z);
    }
  }

  // ---------------------------------------------------------------- where the marks are

  lemma FindIs(s: string, c: char, from: nat, r: nat, end: nat)
    requires from <= r <= end <= |s| && Free(s, c, from, r) && (r < end ==> s[r] == c)
    ensures Find(s, c, from, end) == r
  {
  }

  lemma MarkBehindScheme(scheme: string, rest: string)
    requires scheme != "" && !HasMark(scheme)
    ensures SchemeEnd(scheme + "://" + rest) == |scheme|
  {
    var t := scheme + "://" + rest;
    forall i | 0 <= i < |scheme| ensures !MarkAt(t, i) {
      assert !MarkAt(scheme, i);
    }
    assert MarkAt(t, |scheme|);
  }

  lemma NoMark(authority: string, query: string)
    requires Without(authority, '/') && (authority != "" ==> authority[|authority| - 1] != ':')
    requires !HasMark(query)
    ensures SchemeEnd(authority + query) == 0
  {
    var t := authority + query;
    forall i | 0 <= i < |t| ensures !MarkAt(t, i) {
      if i >= |authority| {
        assert !MarkAt(query, i - |authority|);
      } else if i + 1 < |authority| {
        assert t[i + 1] == authority[i + 1];
      }
    }
  }

  // The scheme and the authority end where the printer ended them.
  lemma Layout(scheme: string, authority: string, query: string)
    requires !HasMark(scheme) && (scheme == "" ==> !HasMark(query)) && (query != "" ==> query[0] == '/')
    requires Without(authority, '/') && (authority != "" ==> authority[|authority| - 1] != ':')
    ensures var t := SchemeText(scheme) + authority + query;
            && SchemeEnd(t) == |scheme|
            && AuthorityBegin(t) == |SchemeText(scheme)|
            && AuthorityEnd(t) == |SchemeText(scheme)| + |authority|
  {
    var t, a := SchemeText(scheme) + authority + query, |SchemeText(scheme)|;
    if scheme == "" {
      assert t == authority + query;
      NoMark(authority, query);
    } else {
      assert t == scheme + "://" + (authority + query);
      MarkBehindScheme(scheme, authority + query);
    }
    assert forall i | a <= i < a + |authority| :: t[i] == authority[i - a];
    FindIs(t, '/', a, a + |authority|, |t|);
  }

  lemma PortTextShape(port: nat)
    ensures Without(PortText(port), '/') && Without(PortText(port), '@') && Without(PortText(port), ']')
    ensures PortText(port) != "" ==> PortText(port)[0] == ':' && PortText(port)[|PortText(port)| - 1] != ':'
    ensures PortText(port) == "" <==> port == 0
    ensures StartsBare(PortText(port)) && EndsBare(PortText(port))
  {
  }

  // The text of the authority.
  function Authority(t: string): string {
    t[AuthorityBegin(t)..AuthorityEnd(t)]
  }

  lemma PortIs(t: string, mark: nat, port: nat)
    requires HostEnd(t) <= mark <= AuthorityEnd(t) && Free(t, ':', HostEnd(t), mark) && port < PortLimit
    requires t[mark..AuthorityEnd(t)] == PortText(port)
    ensures PortOf(t) == Some(port)
  {
    hide Decimal, CastPort;
    var e := AuthorityEnd(t);
    if mark < e {
      assert t[mark] == PortText(port)[0] == ':';
      assert t[mark + 1..e] == PortText(port)[1..] == Decimal(port);
      PortSurvives(port);
    }
    FindIs(t, ':', HostEnd(t), mark, e);
  }

  // Searching a part of a text is searching that part on its own.
  lemma {:induction false} FindWithin(t: string, c: char, a: nat, i: nat, e: nat)
    requires a + i <= e <= |t|
    ensures Find(t, c, a + i, e) == a + Find(t[a..e], c, i, e - a)
    decreases e - a - i
  {
    if a + i < e && t[a + i] != c {
      FindWithin(t, c, a, i + 1, e);
    }
  }

  lemma PartOfPart(t: string, a: nat, e: nat, i: nat, j: nat)
    requires a <= e <= |t| && i <= j <= e - a
    ensures t[a..e][i..j] == t[a + i..a + j]
  {
    assert |t[a..e][i..j]| == |t[a + i..a + j]|;
    assert forall k | 0 <= k < j - i :: t[a..e][i..j][k] == t[a + i..a + j][k];
  }

  lemma PlainShape(host: string, p: string)
    requires Without(host, ':') && Without(p, '@') && (p != "" ==> p[0] == ':')
    ensures var s := host + p;
            && s[|host|..] == p
            && (forall i | 0 <= i <= |host| :: Find(s, ':', i, |s|) == |host|)
            && (if Without(host, '@') then Find(s, '@', 0, |s|) == |s| else Find(s, '@', 0, |s|) < |host|)
  {
  }

  // A host outside of brackets ends where the printer ended it, and begins there unless it has a '@'.
  lemma PlainMarks(t: string, host: string, port: nat)
    requires Authority(t) == host + PortText(port) && Without(host, ':') && !Bracketed(t) && port < PortLimit
    ensures HostFrom(t) <= HostEnd(t) == AuthorityBegin(t) + |host| && PortOf(t) == Some(port)
    ensures HostFrom(t) == AuthorityBegin(t) <==> Without(host, '@')
  {
    var a, e, p, h := AuthorityBegin(t), AuthorityEnd(t), PortText(port), |host|;
    PortTextShape(port);
    PlainHostMarks(t, host, p);
    assert (host + p)[h..] == p;
    hide PortText, Find, Free, Without, SchemeEnd, AuthorityEnd, AuthorityBegin, PortOf, HostFrom, HostEnd, HostBegin;
    PartOfPart(t, a, e, h, e - a);
    EmptyFree(t, ':', a + h);
    PortIs(t, a + h, port);
  }

  lemma PlainHostMarks(t: string, host: string, p: string)
    requires Authority(t) == host + p && Without(host, ':') && !Bracketed(t)
    requires Without(p, '@') && (p != "" ==> p[0] == ':')
    ensures HostFrom(t) <= HostEnd(t) == AuthorityBegin(t) + |host|
    ensures HostFrom(t) == AuthorityBegin(t) <==> Without(host, '@')
  {
    var a, e := AuthorityBegin(t), AuthorityEnd(t);
    PlainShape(host, p);
    hide Find, Free, Without, SchemeEnd, AuthorityEnd, AuthorityBegin;
    FindWithin(t, '@', a, 0, e);
    FindWithin(t, ':', a, HostFrom(t) - a, e);
  }

  lemma EmptyFree(s: string, c: char, i: nat)
    requires i <= |s|
    ensures Free(s, c, i, i)
  {
  }

  lemma BracketShape(address: string, p: string)
    requires AddressText(address) && Without(p, '@')
    ensures var s := "[" + address + "]" + p;
            var h := |address|;
            && s[0] == '[' && s[1..1 + h] == address && s[2 + h..] == p && s[1 + h] == ']'
            && Find(s, '@', 0, |s|) == |s| && Find(s, ']', 1, |s|) == 1 + h
  {
  }

  lemma BracketHost(t: string, address: string, p: string)
    requires Authority(t) == "[" + address + "]" + p && AddressText(address) && Without(p, '@')
    ensures Bracketed(t) && HostBegin(t) == AuthorityBegin(t) + 1 && HostEnd(t) == HostBegin(t) + |address|
  {
    var a, e, s := AuthorityBegin(t), AuthorityEnd(t), Authority(t);
    BracketShape(address, p);
    hide Find, Free, AddressText, Without, SchemeEnd, AuthorityEnd, AuthorityBegin;
    FindWithin(t, '@', a, 0, e);
    assert t[a] == s[0];
    FindWithin(t, ']', a, 1, e);
  }

  // An address in brackets is found as it was printed.
  lemma BracketMarks(t: string, address: string, port: nat)
    requires Authority(t) == "[" + address + "]" + PortText(port) && AddressText(address) && port < PortLimit
    ensures Bracketed(t) && t[HostBegin(t)..HostEnd(t)] == address && PortOf(t) == Some(port)
  {
    hide Decimal, PortText, Find, PortOf, AddressText, Without, SchemeEnd, AuthorityEnd, AuthorityBegin, HostBegin,
         HostEnd, HostFrom, Bracketed, Free, Authority;
    PortTextShape(port);
    BracketHost(t, address, PortText(port));
    BracketSlices(t, address, PortText(port));
    OneFree(t, ':', HostEnd(t));
    PortIs(t, HostEnd(t) + 1, port);
  }

  lemma BracketSlices(t: string, address: string, p: string)
    requires Authority(t) == "[" + address + "]" + p
    ensures var from, e := AuthorityBegin(t) + 1, AuthorityEnd(t);
            var end := from + |address|;
            end < e && t[from..end] == address && t[end] == ']' && t[end + 1..e] == p
  {
    var a, e, s, h := AuthorityBegin(t), AuthorityEnd(t), Authority(t), |address|;
    assert |s| == e - a && s[1..1 + h] == address && s[2 + h..e - a] == p && s[1 + h] == ']';
    assert t[a + 1 + h] == s[1 + h];
    PartOfPart(t, a, e, 1, 1 + h);
    PartOfPart(t, a, e, 2 + h, e - a);
  }

  lemma OneFree(s: string, c: char, i: nat)
    requires i < |s| && s[i] != c
    ensures Free(s, c, i, i + 1)
  {
  }

  // ---------------------------------------------------------------- well-formed values come back

  lemma BareText(s: string, body: string, tail: string)
    requires StartsBare(s) && EndsBare(s) && StartsBare(tail) && EndsBare(tail)
    requires (s == "" ==> StartsBare(body)) && (tail == "" ==> EndsBare(body))
    ensures StartsBare(s + body + tail) && EndsBare(s + body + tail)
  {
  }

  lemma BareEnds(s: string, body: string, tail: string)
    requires StartsBare(s) && EndsBare(s) && StartsBare(tail) && EndsBare(tail)
    requires (s == "" ==> StartsBare(body)) && (tail == "" ==> EndsBare(body))
    ensures Trim(s + body + tail) == s + body + tail
  {
  }

  lemma TailBare(port: nat, query: string)
    requires EndsBare(query) && (query != "" ==> query[0] == '/')
    ensures StartsBare(PortText(port) + query) && EndsBare(PortText(port) + query)
    ensures PortText(port) + query == "" <==> port == 0 && query == ""
  {
  }

  lemma SchemeBare(scheme: string)
    requires StartsBare(scheme)
    ensures StartsBare(SchemeText(scheme)) && EndsBare(SchemeText(scheme))
  {
  }

  lemma Regroup(a: string, b: string, c: string, d: string)
    ensures a + b + c + d == a + (b + c) + d == a + b + (c + d)
  {
  }

  // Where the marks of a printed text are, for a host text without '/'.
  lemma PrintedLayout(scheme: string, host: string, port: nat, query: string) returns (t: string)
    requires !HasMark(scheme) && (scheme == "" ==> !HasMark(query)) && (query != "" ==> query[0] == '/')
    requires Without(host, '/') && (host != "" ==> host[|host| - 1] != ':')
    ensures t == SchemeText(scheme) + host + PortText(port) + query ==
              SchemeText(scheme) + host + (PortText(port) + query)
    ensures t[..SchemeEnd(t)] == scheme && AuthorityBegin(t) == |SchemeText(scheme)|
    ensures Authority(t) == host + PortText(port) && t[AuthorityEnd(t)..] == query
  {
    var p := PortText(port);
    PortTextShape(port);
    hide PortText, HasMark, SchemeEnd, AuthorityBegin, AuthorityEnd;
    t := SchemeText(scheme) + host + p + query;
    Regroup(SchemeText(scheme), host, p, query);
    Layout(scheme, host + p, query);
  }

  lemma NotBracketed(t: string, host: string, port: nat)
    requires Authority(t) == host + PortText(port) && Without(host, '@') && (host != "" ==> host[0] != '[')
    ensures !Bracketed(t)
  {
    PortTextShape(port);
    hide PortText;
    var a, e, s := AuthorityBegin(t), AuthorityEnd(t), Authority(t);
    FindIs(s, '@', 0, |s|, |s|);
    FindWithin(t, '@', a, 0, e);
    assert a < e ==> t[a] == s[0];
  }

  lemma WellFormedLayout(u: Url, canonical: Canonical) returns (t: string)
    requires WellFormed(u, canonical) && (u.ipv6 ==> AddressText(u.host))
    ensures Print(u, canonical) == Some(t) && Trim(t) == t
    ensures t[..SchemeEnd(t)] == u.scheme && t[AuthorityEnd(t)..] == u.query
    ensures Authority(t) == HostText(u, canonical) + PortText(u.port)
  {
    var s, host, p := SchemeText(u.scheme), HostText(u, canonical), PortText(u.port);
    t := PrintedLayout(u.scheme, host, u.port, u.query);
    TailBare(u.port, u.query);
    SchemeBare(u.scheme);
    hide HasMark, Trim, PortText, SchemeText, Authority, SchemeEnd, AuthorityEnd;
    assert s + u.userinfo == s;
    BareEnds(s, host, p + u.query);
  }

  lemma Assembled(t: string, u: Url)
    requires t[..SchemeEnd(t)] == u.scheme && t[AuthorityEnd(t)..] == u.query && u.userinfo == ""
    requires t[HostBegin(t)..HostEnd(t)] == u.host && PortOf(t) == Some(u.port) && Bracketed(t) == u.ipv6
    ensures ParseTrimmed(t) == Parsed(u)
  {
  }

  lemma PlainHostFound(t: string, host: string, port: nat)
    requires Authority(t) == host + PortText(port) && port < PortLimit
    requires Without(host, ':') && Without(host, '@') && (host != "" ==> host[0] != '[')
    ensures !Bracketed(t) && t[HostBegin(t)..HostEnd(t)] == host && PortOf(t) == Some(port)
  {
    NotBracketed(t, host, port);
    PlainMarks(t, host, port);
    HostSlice(t, host, port);
    hide PortOf, HostEnd, Authority, PortText, Without;
  }

  lemma WellFormedParses(u: Url, canonical: Canonical)
    requires WellFormed(u, canonical) && (u.ipv6 ==> AddressText(u.host))
    ensures Print(u, canonical).Some? && Parse(Print(u, canonical).value) == Parsed(u)
  {
    var t := WellFormedLayout(u, canonical);
    hide HasMark, Trim, PortText, SchemeText, Authority, PortOf, Print, ParseTrimmed, HostEnd, HostBegin, Bracketed;
    if u.ipv6 {
      BracketMarks(t, u.host, u.port);
    } else {
      PlainHostFound(t, u.host, u.port);
    }
    Assembled(t, u);
  }

  lemma HostSlice(t: string, host: string, port: nat)
    requires Authority(t) == host + PortText(port)
    ensures AuthorityBegin(t) + |host| <= |t| && t[AuthorityBegin(t)..AuthorityBegin(t) + |host|] == host
  {
    assert Authority(t)[0..|host|] == host;
    PartOfPart(t, AuthorityBegin(t), AuthorityEnd(t), 0, |host|);
  }

  // ---------------------------------------------------------------- no other values do

  // A text that starts with "://" has a bad port.
  lemma MarkedStartIsBad(t: string)
    requires MarkAt(t, 0)
    ensures ParseTrimmed(t) == BadPort
  {
  }

  lemma PartUnmarked(t: string, from: nat, to: nat)
    requires from <= to <= |t| && Unmarked(t, from, to)
    ensures !HasMark(t[from..to])
  {
    forall i | 0 <= i < to - from ensures !MarkAt(t[from..to], i) {
      assert !MarkAt(t, from + i);
    }
  }

  lemma ParsedMarks(t: string)
    requires ParseTrimmed(t).Parsed?
    ensures !HasMark(t[..SchemeEnd(t)])
    ensures SchemeEnd(t) == 0 ==> !HasMark(t[AuthorityEnd(t)..])
  {
    hide FindMark, CastPort, ParseTrimmed;
    PartUnmarked(t, 0, SchemeEnd(t));
    assert t[0..SchemeEnd(t)] == t[..SchemeEnd(t)];
    if MarkAt(t, 0) {
      MarkedStartIsBad(t);
    } else if SchemeEnd(t) == 0 {
      PartUnmarked(t, AuthorityEnd(t), |t|);
      assert t[AuthorityEnd(t)..|t|] == t[AuthorityEnd(t)..];
    }
  }

  lemma ParsedHost(t: string)
    ensures var host := t[HostBegin(t)..HostEnd(t)];
            !Bracketed(t) ==> Without(host, ':') && Without(host, '/') && (host != "" ==> host[0] != '[')
  {
  }

  // Whatever is parsed is regular.
  lemma ParsedShape(t: string)
    requires StartsBare(t) && EndsBare(t) && ParseTrimmed(t).Parsed?
    ensures Regular(ParseTrimmed(t).url)
  {
    ParsedMarks(t);
    ParsedHost(t);
    hide Find, FindMark, Free, Unmarked, MarkAt, HasMark, CastPort, Bracketed, HostEnd, HostBegin, Without;
    assert AuthorityEnd(t) < |t| ==> t[AuthorityEnd(t)] == '/';
  }

  // What trimming leaves of a printed text: everything but spaces at the ends of the host text.
  lemma TrimPrinted(s: string, host: string, tail: string) returns (rest: string)
    requires StartsBare(s) && EndsBare(s) && StartsBare(tail) && EndsBare(tail)
    ensures Trim(s + host + tail) == s + rest + tail
    ensures |rest| <= |host| && forall c :: Without(host, c) ==> Without(rest, c)
    ensures rest == host || |rest| < |host|
    ensures rest == host ==> (s == "" ==> StartsBare(host)) && (tail == "" ==> EndsBare(host))
  {
    var x, z;
    x, rest, z := TrimHost(host, s == "", tail == "");
    assert forall i | 0 <= i < |rest| :: rest[i] == host[|x| + i];
    SpacesAround(s, x, rest, z, tail);
  }

  lemma TrimHost(host: string, fromLeft: bool, fromRight: bool) returns (x: string, rest: string, z: string)
    ensures host == x + rest + z && AllSpace(x) && AllSpace(z)
    ensures if fromLeft then StartsBare(rest) else x == ""
    ensures if fromRight then EndsBare(rest) else z == ""
  {
    x, rest, z := "", host, "";
    if fromLeft {
      x := TrimLeftSplits(host);
      rest := TrimLeft(host);
    }
    if fromRight {
      z := TrimRightSplits(rest);
      ghost var left := rest;
      rest := TrimRight(left);
      assert rest != "" ==> rest[0] == left[0];
      assert x + left == x + rest + z;
    }
  }

  lemma SpacesAround(s: string, x: string, rest: string, z: string, tail: string)
    requires StartsBare(s) && EndsBare(s) && StartsBare(tail) && EndsBare(tail) && AllSpace(x) && AllSpace(z)
    requires if s == "" then StartsBare(rest) else x == ""
    requires if tail == "" then EndsBare(rest) else z == ""
    ensures Trim(s + (x + rest + z) + tail) == s + rest + tail
  {
    BareText(s, rest, tail);
    TrimIs(x, s + rest + tail, z);
    Outside(s, x, rest, z, tail);
  }

  lemma Outside(s: string, x: string, rest: string, z: string, tail: string)
    requires (s == "" || x == "") && (tail == "" || z == "")
    ensures s + (x + rest + z) + tail == x + (s + rest + tail) + z
  {
  }

  // What is left of a printed text after trimming has the marks of a printed text.
  lemma PlainTrimmed(u: Url, canonical: Canonical) returns (rest: string)
    requires !u.ipv6 && Regular(u)
    ensures var t := Trim(Print(u, canonical).value);
            && AuthorityBegin(t) == |SchemeText(u.scheme)|
            && Authority(t) == rest + PortText(u.port)
    ensures Without(rest, ':')
    ensures |rest| < |u.host| || (rest == u.host && (HostKept(u, canonical) <==> Without(u.host, '@')))
  {
    TailBare(u.port, u.query);
    SchemeBare(u.scheme);
    var s, tail := SchemeText(u.scheme), PortText(u.port) + u.query;
    hide HasMark, Trim, PortText, SchemeText, Authority, AuthorityBegin;
    assert s + u.userinfo == s;
    Regroup(s, u.host, PortText(u.port), u.query);
    rest := TrimPrinted(s, u.host, tail);
    var t := PrintedLayout(u.scheme, rest, u.port, u.query);
  }

  lemma PlainComesBack(u: Url, canonical: Canonical)
    requires !u.ipv6 && Parse(Print(u, canonical).value) == Parsed(u)
    ensures WellFormed(u, canonical)
  {
    var t := Trim(Print(u, canonical).value);
    TrimBares(Print(u, canonical).value);
    ParsedShape(t);
    assert u.port < PortLimit;
    hide Print, Trim, PortText, SchemeText, Authority, PortOf, Regular;
    var rest := PlainTrimmed(u, canonical);
    PlainMarks(t, rest, u.port);
    assert |u.host| == HostEnd(t) - HostBegin(t);
  }

  lemma AddressTrimmed(u: Url, canonical: Canonical)
    requires u.ipv6 && canonical(u.host).Some? && Regular(u) && AddressText(canonical(u.host).value)
    ensures Authority(Trim(Print(u, canonical).value)) == "[" + canonical(u.host).value + "]" + PortText(u.port)
  {
    var s, host := SchemeText(u.scheme), HostText(u, canonical);
    TailBare(u.port, u.query);
    SchemeBare(u.scheme);
    var t := PrintedLayout(u.scheme, host, u.port, u.query);
    hide HasMark, Trim, PortText, SchemeText, Authority;
    assert s + u.userinfo == s;
    BareEnds(s, host, PortText(u.port) + u.query);
  }

  lemma AddressComesBack(u: Url, canonical: Canonical)
    requires u.ipv6 && canonical(u.host).Some? && AddressText(canonical(u.host).value)
    requires Parse(Print(u, canonical).value) == Parsed(u)
    ensures WellFormed(u, canonical)
  {
    var t := Trim(Print(u, canonical).value);
    TrimBares(Print(u, canonical).value);
    ParsedShape(t);
    assert u.port < PortLimit;
    hide Print, Trim, PortText, SchemeText, Authority, PortOf, Regular;
    AddressTrimmed(u, canonical);
    BracketMarks(t, canonical(u.host).value, u.port);
  }

  // Parsing a printed URL gives the same URL back if and only if it is well-formed.
  lemma RoundTripIff(u: Url, canonical: Canonical)
    requires u.ipv6 && canonical(u.host).Some? ==> AddressText(canonical(u.host).value)
    ensures Print(u, canonical).Some? && Parse(Print(u, canonical).value) == Parsed(u) <==> WellFormed(u, canonical)
  {
    hide Parse, PortText, SchemeText;
    if WellFormed(u, canonical) {
      WellFormedParses(u, canonical);
    } else if Print(u, canonical).Some? && Parse(Print(u, canonical).value) == Parsed(u) {
      if u.ipv6 {
        AddressComesBack(u, canonical);
      } else {
        PlainComesBack(u, canonical);
      }
    }
  }

  // A user name is lost, and a host with a '@' comes back without what is before it.
  lemma UserIsLost(canonical: Canonical)
    ensures var u, v := Url("", "me@", "host", 0, "", false), Url("", "", "me@host", 0, "", false);
            Print(u, canonical) == Some("me@host") && Print(v, canonical) == Some("me@host")
    ensures Parse("me@host") == Parsed(Url("", "", "host", 0, "", false))
  {
    hide Parse, HasMark;
    var s, e := "me@host", "";
    assert e + "me@" == "me@" && "me@" + "host" == s && s + e == s && e + e == e && e + s == s;
    UserIsSkipped();
  }

  lemma UserIsSkipped()
    ensures Parse("me@host") == Parsed(Url("", "", "host", 0, "", false))
  {
    hide Find, FindMark, Trim;
    var s := "me@host";
    assert Trim(s) == s by { TrimIs("", s, ""); assert "" + s + "" == s; }
    assert SchemeEnd(s) == 0;
    FindIs(s, '/', 0, 7, 7);
    FindIs(s, '@', 0, 2, 7);
    FindIs(s, ':', 3, 7, 7);
    assert s[3..7] == "host" && s[7..] == "" && s[..0] == "";
  }

  // A user name before a plain host is skipped, whatever it is.
  lemma UserSkipped(u: Url, user: string, canonical: Canonical)
    requires WellFormed(u, canonical) && !u.ipv6 && Without(user, '/') && Without(user, '@') && StartsBare(user)
    ensures Parse(SchemeText(u.scheme) + (user + "@" + u.host) + PortText(u.port) + u.query) == Parsed(u)
  {
    var s, host, tail := SchemeText(u.scheme), user + "@" + u.host, PortText(u.port) + u.query;
    UserText(user, u.host);
    TailBare(u.port, u.query);
    SchemeBare(u.scheme);
    hide Without, Trim, PortText, SchemeText, Authority, PortOf, ParseTrimmed, HostEnd, HostBegin, Bracketed;
    var t := PrintedLayout(u.scheme, host, u.port, u.query);
    BareEnds(s, host, tail);
    UserMarks(t, user, u.host, u.port);
    Assembled(t, u);
  }

  lemma UserText(user: string, host: string)
    requires Without(user, '/') && Without(host, '/') && Without(host, ':') && StartsBare(user)
    ensures var text := user + "@" + host;
            && Without(text, '/') && text[|text| - 1] != ':' && StartsBare(text) && (EndsBare(host) ==> EndsBare(text))
  {
    var text := user + "@" + host;
    assert text[0] == if user == "" then '@' else user[0];
    assert text[|text| - 1] == if host == "" then '@' else host[|host| - 1];
  }

  lemma UserShape(user: string, host: string, p: string)
    requires Without(user, '@') && Without(host, ':') && (p != "" ==> p[0] == ':')
    ensures var s, h := user + "@" + host + p, |user| + 1;
            && Find(s, '@', 0, |s|) == |user| && Find(s, ':', h, |s|) == h + |host|
            && s[h..h + |host|] == host && s[h + |host|..] == p
  {
    var s, h := user + "@" + host + p, |user| + 1;
    FindIs(s, '@', 0, |user|, |s|);
    FindIs(s, ':', h, h + |host|, |s|);
  }

  lemma UserMarks(t: string, user: string, host: string, port: nat)
    requires Authority(t) == user + "@" + host + PortText(port) && port < PortLimit
    requires Without(user, '@') && Without(host, ':') && (host != "" ==> host[0] != '[')
    ensures !Bracketed(t) && t[HostBegin(t)..HostEnd(t)] == host && PortOf(t) == Some(port)
  {
    hide PortText, Find, Free, Without, SchemeEnd, AuthorityEnd, AuthorityBegin, PortOf, HostFrom, HostBegin, HostEnd,
         Bracketed, Authority, Decimal;
    PortTextShape(port);
    UserHostMarks(t, user, host, PortText(port));
    UserSlices(t, user, host, PortText(port));
    PortHere(t, port);
  }

  lemma PortHere(t: string, port: nat)
    requires t[HostEnd(t)..AuthorityEnd(t)] == PortText(port) && port < PortLimit
    ensures PortOf(t) == Some(port)
  {
    EmptyFree(t, ':', HostEnd(t));
    hide PortText, Find, Free, PortOf, HostEnd;
    PortIs(t, HostEnd(t), port);
  }

  lemma UserSlices(t: string, user: string, host: string, p: string)
    requires Authority(t) == user + "@" + host + p
    ensures var from, e := AuthorityBegin(t) + |user| + 1, AuthorityEnd(t);
            from + |host| <= e && t[from..from + |host|] == host && t[from + |host|..e] == p
  {
    var a, e, s, h := AuthorityBegin(t), AuthorityEnd(t), Authority(t), |user| + 1;
    assert |s| == e - a;
    assert s[h..h + |host|] == host && s[h + |host|..e - a] == p;
    hide Authority, AuthorityBegin, AuthorityEnd;
    PartOfPart(t, a, e, h, h + |host|);
    PartOfPart(t, a, e, h + |host|, e - a);
  }

  lemma UserHostMarks(t: string, user: string, host: string, p: string)
    requires Authority(t) == user + "@" + host + p && (p != "" ==> p[0] == ':')
    requires Without(user, '@') && Without(host, ':') && (host != "" ==> host[0] != '[')
    ensures !Bracketed(t) && HostBegin(t) == AuthorityBegin(t) + |user| + 1 && HostEnd(t) == HostBegin(t) + |host|
  {
    var a, e, h := AuthorityBegin(t), AuthorityEnd(t), |user| + 1;
    UserShape(user, host, p);
    hide Find, Free, Without, SchemeEnd, AuthorityEnd, AuthorityBegin;
    FindWithin(t, '@', a, 0, e);
    FindWithin(t, ':', a, h, e);
    UserNotBracketed(t, user, host, p);
  }

  lemma UserNotBracketed(t: string, user: string, host: string, p: string)
    requires Authority(t) == user + "@" + host + p && HostFrom(t) == AuthorityBegin(t) + |user| + 1
    requires (host != "" ==> host[0] != '[') && (p != "" ==> p[0] == ':')
    ensures !Bracketed(t)
  {
    var a, e, h := AuthorityBegin(t), AuthorityEnd(t), |user| + 1;
    if a + h < e {
      assert t[a + h] == Authority(t)[h];
    }
  }

  // Of what any text was parsed to, only the host decides whether printing and parsing keep it.
  lemma ReparseIff(s: string, canonical: Canonical)
    requires Parse(s).Parsed?
    requires var h := canonical(Parse(s).url.host); h.Some? ==> AddressText(h.value)
    ensures var u := Parse(s).url;
            Print(u, canonical).Some? && Parse(Print(u, canonical).value) == Parsed(u) <==> HostKept(u, canonical)
  {
    TrimBares(s);
    ParsedShape(Trim(s));
    RoundTripIff(Parse(s).url, canonical);
    hide Print, HasMark, ParseTrimmed;
  }
}
