/** parse_host_port and address of include/kcp.hpp: the one reads back what the other prints. */
module HostPort {
  import opened Common

  const ULONG_MAX: nat := 0xFFFF_FFFF_FFFF_FFFF
  const USHORT_RANGE: nat := 0x1_0000

  // ---------------------------------------------------------------- the scan

  datatype Scan = Scan(host: string, port: string, parsePort: bool, depth: int)

  /** One character of the loop; brackets are dropped and hide the colons between them. */
  function ScanChar(s: Scan, c: char): Scan {
    if c == '[' then s.(depth := s.depth + 1)
    else if c == ']' then s.(depth := s.depth - 1)
    else if s.depth == 0 && c == ':' then s.(parsePort := true)
    else if !s.parsePort then s.(host := s.host + [c])
    else s.(port := s.port + [c])
  }

  function ScanFrom(s: Scan, text: string): Scan {
    if text == "" then s else ScanChar(ScanFrom(s, text[..|text| - 1]), text[|text| - 1])
  }

  const START := Scan("", "", false, 0)

  // ---------------------------------------------------------------- std::stoul

  predicate IsSpace(c: char) {
    c == ' ' || 9 <= c as int <= 13
  }

  predicate IsDigit(c: char) {
    '0' <= c <= '9'
  }

  function SkipSpaces(s: string): string {
    if s != "" && IsSpace(s[0]) then SkipSpaces(s[1..]) else s
  }

  function LeadingDigits(s: string): string {
    if s != "" && IsDigit(s[0]) then [s[0]] + LeadingDigits(s[1..]) else ""
  }

  function Value(digits: string): nat {
    if digits == "" then 0
    else
      var c := digits[|digits| - 1];
      10 * Value(digits[..|digits| - 1]) + if IsDigit(c) then (c - '0') as nat else 0
  }

  /** None stands for the exceptions: no digits, or a value out of range. A minus sign wraps around. */
  function Stoul(s: string): Option<nat> {
    var text := SkipSpaces(s);
    var negative := text != "" && text[0] == '-';
    var digits := LeadingDigits(if text != "" && (text[0] == '-' || text[0] == '+') then text[1..] else text);
    var value := Value(digits);
    if digits == "" || value > ULONG_MAX then None
    else if negative && value != 0 then Some(ULONG_MAX + 1 - value)
    else Some(value)
  }

  function PortNumber(port: string, defaultPort: nat): nat {
    match Stoul(port)
    case None => defaultPort
    case Some(n) => n % USHORT_RANGE
  }

  // ---------------------------------------------------------------- parse_host_port

  function Parse(text: string, defaultPort: nat): (string, nat) {
    var s := ScanFrom(START, text);
    (s.host, if s.port == "" then defaultPort else PortNumber(s.port, defaultPort))
  }

  method ParseHostPort(text: string, defaultPort: nat) returns (host: string, port: nat)
    ensures (host, port) == Parse(text, defaultPort)
  {
    var digits, parsePort, squareCount := "", false, 0;
    host := "";
    for i := 0 to |text|
      invariant Scan(host, digits, parsePort, squareCount) == ScanFrom(START, text[..i])
    {
      assert text[..i + 1][..i] == text[..i];
      var c := text[i];
      if c == '[' {
        squareCount := squareCount + 1;
      } else if c == ']' {
        squareCount := squareCount - 1;
      } else if squareCount == 0 && c == ':' {
        parsePort := true;
      } else if !parsePort {
        host := host + [c];
      } else {
        digits := digits + [c];
      }
    }
    assert text[..|text|] == text;
    if digits == "" {
      port := defaultPort;
    } else {
      var n := Stoul(digits);
      port := if n.Some? then n.value % USHORT_RANGE else defaultPort;
    }
  }

  // ---------------------------------------------------------------- printing

  /** std::to_string. */
  function Decimal(n: nat): string {
    if n < 10 then [Digit(n)] else Decimal(n / 10) + [Digit(n % 10)]
  }

  function Digit(n: nat): char
    requires n < 10
  {
    '0' + n as char
  }

  function Address(host: string, port: nat): string {
    host + ":" + Decimal(port)
  }

  // ---------------------------------------------------------------- round trips

  lemma {:induction false} ScanConcat(s: Scan, a: string, b: string)
    ensures ScanFrom(s, a + b) == ScanFrom(ScanFrom(s, a), b)
  {
    if b == "" {
      assert a + b == a;
    } else {
      var n := |b| - 1;
      assert (a + b)[..|a + b| - 1] == a + b[..n];
      ScanConcat(s, a, b[..n]);
    }
  }

  predicate Free(s: string, c: char) {
    c !in s
  }

  /** Characters that are no bracket, and no colon outside brackets, all go to the current part. */
  lemma {:induction false} ScanPlain(s: Scan, text: string)
    requires Free(text, '[') && Free(text, ']') && (s.depth == 0 ==> Free(text, ':'))
    ensures ScanFrom(s, text)
         == if s.parsePort then s.(port := s.port + text) else s.(host := s.host + text)
  {
    if text == "" {
      assert s.port + text == s.port && s.host + text == s.host;
    } else {
      var n := |text| - 1;
      assert text[n] in text && text == text[..n] + [text[n]];
      ScanPlain(s, text[..n]);
      assert s.port + text[..n] + [text[n]] == s.port + text;
      assert s.host + text[..n] + [text[n]] == s.host + text;
    }
  }

  lemma {:induction false} DecimalDigits(n: nat)
    ensures Decimal(n) != ""
    ensures forall c <- Decimal(n) :: IsDigit(c)
    ensures Value(Decimal(n)) == n
  {
    if n >= 10 {
      DecimalDigits(n / 10);
      assert Decimal(n)[..|Decimal(n)| - 1] == Decimal(n / 10);
    } else {
      assert Decimal(n)[..0] == "";
      assert Value("") == 0;
    }
  }

  lemma {:induction false} AllDigits(s: string)
    requires forall c <- s :: IsDigit(c)
    ensures LeadingDigits(s) == s
  {
    if s != "" {
      assert s[0] in s && s == [s[0]] + s[1..];
      AllDigits(s[1..]);
    }
  }

  lemma {:induction false} DigitsAreRead(s: string)
    requires s != "" && (forall c <- s :: IsDigit(c)) && Value(s) <= ULONG_MAX
    ensures Stoul(s) == Some(Value(s))
  {
    var c := s[0];
    assert c in s && !IsSpace(c) && c != '-' && c != '+';
    AllDigits(s);
  }

  lemma {:induction false} PortReadsBack(port: nat, defaultPort: nat)
    requires port < USHORT_RANGE
    ensures PortNumber(Decimal(port), defaultPort) == port
  {
    DecimalDigits(port);
    DigitsAreRead(Decimal(port));
  }

  // ---------------------------------------------------------------- what std::stoul makes of a port

  /** No digit at the start. */
  predicate DigitFree(s: string) {
    s == "" || !IsDigit(s[0])
  }

  predicate Sign(s: string) {
    s == "" || s == "+" || s == "-"
  }

  /**
   * Spaces, a sign, a number and whatever follows it: the number, taken modulo 2 to the 64 if the sign is
   * a minus, and nothing if it is out of range.
   */
  lemma {:induction false} StoulReads(spaces: string, sign: string, n: nat, rest: string)
    requires (forall c <- spaces :: IsSpace(c)) && Sign(sign) && DigitFree(rest)
    ensures Stoul(spaces + (sign + (Decimal(n) + rest)))
         == if n > ULONG_MAX then None
            else if sign == "-" && n > 0 then Some(0x1_0000_0000_0000_0000 - n) else Some(n)
  {
    var number := Decimal(n) + rest;
    DecimalDigits(n);
    assert number[0] == Decimal(n)[0] && Decimal(n)[0] in Decimal(n);
    SpacesSkipped(spaces, sign + number);
    DigitsTaken(Decimal(n), rest);
    assert sign == "" ==> sign + number == number;
    assert sign != "" ==> (sign + number)[1..] == number;
  }

  /** Without a digit behind spaces and sign there is no number. */
  lemma {:induction false} StoulFails(spaces: string, sign: string, rest: string)
    requires (forall c <- spaces :: IsSpace(c)) && Sign(sign) && DigitFree(rest)
    requires sign == "" && rest != "" ==> !IsSpace(rest[0]) && rest[0] != '+' && rest[0] != '-'
    ensures Stoul(spaces + (sign + rest)) == None
  {
    SpacesSkipped(spaces, sign + rest);
    assert sign == "" ==> sign + rest == rest;
    assert sign != "" ==> (sign + rest)[1..] == rest;
    assert LeadingDigits(rest) == "";
  }

  lemma {:induction false} SpacesSkipped(spaces: string, s: string)
    requires (forall c <- spaces :: IsSpace(c)) && (s == "" || !IsSpace(s[0]))
    ensures SkipSpaces(spaces + s) == s
  {
    if spaces == "" {
      assert spaces + s == s;
    } else {
      assert spaces[0] in spaces && (spaces + s)[1..] == spaces[1..] + s;
      SpacesSkipped(spaces[1..], s);
    }
  }

  lemma {:induction false} DigitsTaken(digits: string, rest: string)
    requires (forall c <- digits :: IsDigit(c)) && DigitFree(rest)
    ensures LeadingDigits(digits + rest) == digits
  {
    if digits == "" {
      assert digits + rest == rest;
    } else {
      assert digits[0] in digits && (digits + rest)[1..] == digits[1..] + rest;
      DigitsTaken(digits[1..], rest);
      assert digits == [digits[0]] + digits[1..];
    }
  }

  // ---------------------------------------------------------------- texts with and without a port

  /** A text without bracket and colon is all host, and the port is the default. */
  lemma {:induction false} NoPort(text: string, defaultPort: nat)
    requires Plain(text)
    ensures Parse(text, defaultPort) == (text, defaultPort)
  {
    ScanPlain(START, text);
    assert "" + text == text;
  }

  /**
   * One colon: what stands before it is the host, and the port is what std::stoul makes of the rest, cut
   * to 16 bits; the default if it makes nothing of it or there is nothing.
   */
  lemma {:induction false} HostAndPort(host: string, port: string, defaultPort: nat)
    requires Plain(host) && Plain(port)
    ensures Parse(host + (":" + port), defaultPort)
         == (host, if Stoul(port) == None then defaultPort else Stoul(port).value % 65536)
  {
    ScanConcat(START, host, ":" + port);
    ScanPlain(START, host);
    assert "" + host == host;
    SuffixScanned(host, port);
    if port == "" {
      NoDigits();
    }
  }

  lemma {:induction false} NoDigits()
    ensures Stoul("") == None
  {
    StoulFails("", "", "");
    assert "" + ("" + "") == "";
  }

  lemma {:induction false} SuffixScanned(host: string, port: string)
    requires Plain(port)
    ensures ScanFrom(Scan(host, "", false, 0), ":" + port) == Scan(host, port, true, 0)
  {
    var s := Scan(host, "", false, 0);
    ScanConcat(s, ":", port);
    assert ":"[..0] == "";
    assert ScanFrom(s, ":"[..0]) == s;
    ScanPlain(s.(parsePort := true), port);
    assert "" + port == port;
  }

  lemma {:induction false} SuffixReadsBack(host: string, port: nat, defaultPort: nat, s: Scan)
    requires s == Scan(host, "", false, 0) && port < USHORT_RANGE
    ensures var r := ScanFrom(s, ":" + Decimal(port));
            r.host == host && r.port != "" && PortNumber(r.port, defaultPort) == port
  {
    DecimalDigits(port);
    SuffixScanned(host, Decimal(port));
    PortReadsBack(port, defaultPort);
  }

  predicate Plain(host: string) {
    Free(host, '[') && Free(host, ']') && Free(host, ':')
  }

  /** What address prints is parsed back exactly when the host has no bracket and no colon. */
  lemma {:induction false} AddressRoundTrip(host: string, port: nat, defaultPort: nat)
    requires port < USHORT_RANGE
    ensures Parse(Address(host, port), defaultPort) == (host, port) <==> Plain(host)
  {
    if Plain(host) {
      assert Address(host, port) == host + (":" + Decimal(port));
      ScanConcat(START, host, ":" + Decimal(port));
      ScanPlain(START, host);
      assert "" + host == host;
      SuffixReadsBack(host, port, defaultPort, Scan(host, "", false, 0));
    } else {
      ScannedHost(Address(host, port));
      if Free(host, '[') && Free(host, ']') {
        DecimalDigits(port);
        assert Free(Address(host, port), '[') && Free(Address(host, port), ']');
      }
    }
  }

  /** The IPv6 loopback address at port 9 comes back as no host at port 19. */
  lemma {:induction false} LoopbackIsMisread(defaultPort: nat)
    ensures Address("::1", 9) == "::1:9"
    ensures Parse("::1:9", defaultPort) == ("", 19)
  {
    assert Decimal(9) == "9";
    ScanStep(START, "", ':', ":");
    ScanStep(START, ":", ':', "::");
    ScanStep(START, "::", '1', "::1");
    ScanStep(START, "::1", ':', "::1:");
    ScanStep(START, "::1:", '9', "::1:9");
    assert ScanFrom(START, "::") == START.(parsePort := true);
    assert ScanFrom(START, "::1:").port == "1";
    assert ScanFrom(START, "::1:9") == Scan("", "19", true, 0);
    NineteenIsRead(defaultPort);
  }

  lemma {:induction false} NineteenIsRead(defaultPort: nat)
    ensures PortNumber("19", defaultPort) == 19
  {
    PortReadsBack(19, defaultPort);
    assert Decimal(19) == Decimal(1) + [Digit(9)] == "19";
  }

  lemma {:induction false} ScanStep(s: Scan, text: string, c: char, longer: string)
    requires longer == text + [c]
    ensures ScanFrom(s, longer) == ScanChar(ScanFrom(s, text), c)
  {
    AppendOne(text, c);
  }

  /** The parsed host never holds a bracket, and a colon only if the text had brackets. */
  lemma {:induction false} ScannedHost(text: string)
    ensures var s := ScanFrom(START, text);
            && Free(s.host, '[') && Free(s.host, ']')
            && (Free(text, '[') && Free(text, ']') ==> s.depth == 0 && Free(s.host, ':'))
  {
    if text != "" {
      var n := |text| - 1;
      assert text == text[..n] + [text[n]];
      ScannedHost(text[..n]);
    }
  }

  /** A bracketed host keeps its colons. */
  lemma {:induction false} BracketedRoundTrip(host: string, port: nat, defaultPort: nat)
    requires Free(host, '[') && Free(host, ']') && port < USHORT_RANGE
    ensures Parse(Address("[" + host + "]", port), defaultPort) == (host, port)
  {
    var tail := ":" + Decimal(port);
    assert Address("[" + host + "]", port) == "[" + (host + ("]" + tail));
    ScanConcat(START, "[", host + ("]" + tail));
    assert "["[..0] == "" && "]"[..0] == "";
    var open := START.(depth := 1);
    assert ScanFrom(START, "["[..0]) == START;
    assert ScanFrom(START, "[") == open;
    ScanConcat(open, host, "]" + tail);
    ScanPlain(open, host);
    assert "" + host == host;
    var inside := open.(host := host);
    ScanConcat(inside, "]", tail);
    assert ScanFrom(inside, "]"[..0]) == inside;
    SuffixReadsBack(host, port, defaultPort, Scan(host, "", false, 0));
  }
}
