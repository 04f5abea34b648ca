/**
 Version 1 of the PROXY protocol, section 2.1 of the HAProxy PROXY protocol specification, as the SNI
 proxy writes it to its targets and reads it from trusted upstreams.

 An IPv4 address is its four numbers; an IPv6 address is its canonical text, which has only hexadecimal
 digits and colons. An IPv4-mapped IPv6 address is the IPv4 address, as in the source's address type.
 */
module ProxyProtocol {
  import opened Collections
  import opened Text

  const CRLF: string := "\r\n"
  const UNKNOWN_LINE: string := "PROXY" + " " + "UNKNOWN"
  const UNKNOWN_HEADER: string := UNKNOWN_LINE + CRLF
  const MAPPED_PREFIX: string := "::ffff:"
  const MAX_INT: int := 0x7fff_ffff_ffff_ffff
  const BUFFER_SIZE: nat := 512

  // ---------- Addresses ----------

  predicate IsHexOrColon(c: char) {
    IsDigit(c) || 'a' <= c <= 'f' || c == ':'
  }

  predicate IsIPv6Text(s: string) {
    ':' in s && forall i | 0 <= i < |s| :: IsHexOrColon(s[i])
  }

  datatype IP = V4(v4: IPv4) | V6(text: string) {
    predicate WellFormed() {
      V6? ==> IsIPv6Text(text)
    }

    function String(): string {
      match this
      case V4(v4) => Dotted(v4)
      case V6(text) => text
    }
  }

  /** A text of the IPv6 family: a canonical IPv6 text or an IPv4-mapped one. */
  ghost predicate IsSixText(s: string) {
    IsIPv6Text(s) || exists v4 :: s == MAPPED_PREFIX + Dotted(v4)
  }

  ghost predicate IsFourText(s: string) {
    exists v4 :: s == Dotted(v4)
  }

  /** `s` is a text that denotes `ip`. */
  predicate Denotes(s: string, ip: IP) {
    s == ip.String() || (ip.V4? && s == MAPPED_PREFIX + Dotted(ip.v4))
  }

  // ---------- Building a header ----------

  function DetermineProxyProtocolAndTargetIP(client: IP, target: IP): (string, string) {
    if client.V4? then
      if target.V4? then ("TCP4", target.String()) else ("TCP6", target.String())
    else if target.V4? then ("TCP6", MAPPED_PREFIX + target.String())
    else ("TCP6", target.String())
  }

  function NormalizeProxyProtocolIP(ip: IP, protocol: string): string {
    if protocol == "TCP6" && ip.V4? then MAPPED_PREFIX + ip.String() else ip.String()
  }

  /** A TCP address, or an address of some other kind. */
  datatype NetAddr = TCP(ip: IP, port: nat) | Other

  datatype Info = Info(protocol: string, srcIP: string, destIP: string, srcPort: int, destPort: int)

  /** The header's text up to the line end. */
  function Line(protocol: string, src: string, dest: string, srcPort: nat, destPort: nat): string {
    "PROXY" + " " + (protocol + " " + (src + " " + (dest + " " + (Decimal(srcPort) + " " + Decimal(destPort)))))
  }

  function BuildProxyProtocolHeader(client: NetAddr, target: NetAddr): string {
    if client.Other? || target.Other? then UNKNOWN_HEADER
    else
      var (protocol, targetIP) := DetermineProxyProtocolAndTargetIP(client.ip, target.ip);
      Line(protocol, NormalizeProxyProtocolIP(client.ip, protocol), targetIP, client.port, target.port) + CRLF
  }

  /** The same from a received header; `src` is what parsing its source address gave. */
  function BuildProxyProtocolHeaderFromInfo(src: Option<IP>, srcPort: nat, target: NetAddr): string {
    if target.Other? || src.None? then UNKNOWN_HEADER
    else BuildProxyProtocolHeader(TCP(src.value, srcPort), target)
  }

  // ---------- Reading a header ----------

  predicate IsSpace(c: char) {
    c == ' ' || c == '\t' || c == '\n' || c == '\r' || c == '\U{0B}' || c == '\U{0C}'
  }

  /** The length of the longest prefix without white space. */
  function TokenLength(s: string): (n: nat)
    ensures n <= |s|
  {
    if s == [] || IsSpace(s[0]) then 0 else 1 + TokenLength(s[1..])
  }

  /** The maximal runs of characters that are not white space. */
  function Fields(s: string): seq<string> {
    if s == [] then []
    else if IsSpace(s[0]) then Fields(s[1..])
    else [s[..TokenLength(s)]] + Fields(s[TokenLength(s)..])
  }

  /** The index of the first line end, or none. */
  function FindLineEnd(s: string): (r: Option<nat>)
    ensures r.Some? ==> r.value + 2 <= |s| && s[r.value..r.value + 2] == CRLF
  {
    if |s| < 2 then None
    else if s[0] == '\r' && s[1] == '\n' then Some(0)
    else
      match FindLineEnd(s[1..])
      case None => None
      case Some(n) => Some(n + 1)
  }

  /** A decimal integer with an optional sign, within 64 bits. */
  function Atoi(s: string): Option<int> {
    var signed := s != [] && (s[0] == '-' || s[0] == '+');
    var digits := if signed then s[1..] else s;
    if digits == [] || !AllDigits(digits) then None
    else
      var n := Value(digits);
      if signed && s[0] == '-' then (if n <= MAX_INT + 1 then Some(0 - n) else None)
      else if n <= MAX_INT then Some(n) else None
  }

  /** What the first read turns out to be. */
  datatype Outcome =
    | Regular                                // not a header: the whole read is replayed
    | Unknown                                // "PROXY UNKNOWN": the bare connection goes on
    | Malformed                              // a header whose port is not a number
    | Header(info: Info, remaining: string)  // a header; the rest of the read goes on

  function Classify(read: string): Outcome {
    match FindLineEnd(read)
    case None => Regular
    case Some(end) =>
      var parts := Fields(read[..end]);
      if |parts| != 6 || parts[0] != "PROXY" then
        if |parts| == 2 && parts[0] == "PROXY" && parts[1] == "UNKNOWN" then Unknown else Regular
      else
        var srcPort, destPort := Atoi(parts[4]), Atoi(parts[5]);
        if srcPort.None? || destPort.None? then Malformed
        else Header(Info(parts[1], parts[2], parts[3], srcPort.value, destPort.value), read[end + 2..])
  }

  /** The bytes the connection yields afterwards, when `read` was taken from the stream and `rest` is left. */
  function Stream(read: string, rest: string): Option<string> {
    match Classify(read)
    case Regular => Some(read + rest)
    case Unknown => Some(rest)
    case Malformed => None
    case Header(_, remaining) => Some(remaining + rest)
  }

  /** The first line of a read, with its end. */
  function FirstLine(read: string): string {
    match FindLineEnd(read)
    case None => []
    case Some(end) => read[..end + 2]
  }

  /** The bytes of a read that follow its first line. */
  function AfterLine(read: string): string {
    match FindLineEnd(read)
    case None => []
    case Some(end) => read[end + 2..]
  }

  /** A client connection: the bytes that have not been read yet. */
  class ClientConn {
    var incoming: string

    constructor (incoming: string)
      ensures this.incoming == incoming
    {
      this.incoming := incoming;
    }

    method Read(n: nat) returns (data: string)
      requires n <= |incoming|
      modifies this
      ensures data == old(incoming)[..n] && incoming == old(incoming)[n..]
    {
      data, incoming := incoming[..n], incoming[n..];
    }
  }

  /** The connection afterwards: what is prepended to it, and the header if there was one; or a failure. */
  datatype Result = Failed | Wrapped(prefix: string, info: Option<Info>)

  /**
   `size` is how many bytes the one read delivers, or none when it fails. What the wrapped connection yields
   next, `r.prefix + conn.incoming`, is everything the client sent, or everything after the header's line;
   only a "PROXY UNKNOWN" that was read together with more bytes loses those.
   */
  method ParseProxyProtocolHeader(conn: ClientConn, trusted: bool, size: Option<nat>) returns (r: Result)
    requires size.Some? ==> size.value <= |conn.incoming| && size.value <= BUFFER_SIZE
    modifies conn
    ensures !trusted || size.None? ==> r == Wrapped("", None) && conn.incoming == old(conn.incoming)
    ensures trusted && size.Some? ==>
              var read := old(conn.incoming)[..size.value];
              && conn.incoming == old(conn.incoming)[size.value..]
              && match Classify(read)
                 case Regular => r == Wrapped(read, None)
                 case Unknown => r == Wrapped("", None)
                 case Malformed => r == Failed
                 case Header(info, remaining) => r == Wrapped(remaining, Some(info))
    ensures trusted && size.Some? ==>
              var read := old(conn.incoming)[..size.value];
              && (r.Failed? <==> Stream(read, conn.incoming) == None)
              && (r.Wrapped? ==> Stream(read, conn.incoming) == Some(r.prefix + conn.incoming))
    ensures r.Wrapped? && r.info.Some? ==>
              FirstLine(old(conn.incoming)[..size.value]) + (r.prefix + conn.incoming) == old(conn.incoming)
    ensures r.Wrapped? && r.info.None? ==>
              if trusted && size.Some? && Classify(old(conn.incoming)[..size.value]).Unknown?
              then var read := old(conn.incoming)[..size.value];
                   FirstLine(read) + (r.prefix + conn.incoming) == old(conn.incoming) <==> AfterLine(read) == []
              else r.prefix + conn.incoming == old(conn.incoming)
  {
    if !trusted || size == None {
      return Wrapped("", None);
    }
    var buffer := conn.Read(size.value);
    assert buffer + conn.incoming == old(conn.incoming);
    Conserved(buffer, conn.incoming);
    var headerEnd := FindLineEnd(buffer);
    if headerEnd == None {
      return Wrapped(buffer, None);
    }
    var parts := Fields(buffer[..headerEnd.value]);
    if |parts| != 6 || parts[0] != "PROXY" {
      if |parts| == 2 && parts[0] == "PROXY" && parts[1] == "UNKNOWN" {
        assert "" + conn.incoming == conn.incoming;
        return Wrapped("", None);
      }
      return Wrapped(buffer, None);
    }
    var srcPort, destPort := Atoi(parts[4]), Atoi(parts[5]);
    if srcPort == None || destPort == None {
      return Failed;
    }
    return Wrapped(buffer[headerEnd.value + 2..], Some(Info(parts[1], parts[2], parts[3], srcPort.value, destPort.value)));
  }

  // ---------- Text facts ----------

  predicate IsToken(s: string) {
    s != [] && forall i | 0 <= i < |s| :: !IsSpace(s[i])
  }

  lemma {:induction false} TokenEnds(tok: string, rest: string)
    requires (forall i | 0 <= i < |tok| :: !IsSpace(tok[i])) && (rest == [] || IsSpace(rest[0]))
    ensures TokenLength(tok + rest) == |tok|
  {
    if tok == [] {
      assert tok + rest == rest;
    } else {
      assert (tok + rest)[1..] == tok[1..] + rest;
      TokenEnds(tok[1..], rest);
    }
  }

  /** A token followed by a space is the first field. */
  lemma FirstField(tok: string, rest: string)
    requires IsToken(tok)
    ensures Fields(tok + " " + rest) == [tok] + Fields(rest)
  {
    var s := tok + (" " + rest);
    assert tok + " " + rest == s;
    TokenEnds(tok, " " + rest);
    assert s[..|tok|] == tok && s[|tok|..] == " " + rest;
    assert (" " + rest)[1..] == rest;
  }

  lemma LastField(tok: string)
    requires IsToken(tok)
    ensures Fields(tok) == [tok]
  {
    assert tok + [] == tok;
    TokenEnds(tok, []);
    assert tok[..|tok|] == tok && tok[|tok|..] == [];
  }

  lemma PrependField(tok: string, rest: string, fields: seq<string>) returns (s: string, all: seq<string>)
    requires IsToken(tok) && Fields(rest) == fields
    ensures s == tok + " " + rest && all == [tok] + fields && Fields(s) == all
  {
    FirstField(tok, rest);
    s, all := tok + " " + rest, [tok] + fields;
  }

  lemma LineFields(protocol: string, src: string, dest: string, srcPort: nat, destPort: nat)
    requires IsToken(protocol) && IsToken(src) && IsToken(dest)
    ensures Fields(Line(protocol, src, dest, srcPort, destPort)) ==
            ["PROXY", protocol, src, dest, Decimal(srcPort), Decimal(destPort)]
  {
    DecimalIsToken(srcPort);
    DecimalIsToken(destPort);
    LastField(Decimal(destPort));
    var s, fs := PrependField(Decimal(srcPort), Decimal(destPort), [Decimal(destPort)]);
    s, fs := PrependField(dest, s, fs);
    s, fs := PrependField(src, s, fs);
    s, fs := PrependField(protocol, s, fs);
    s, fs := PrependField("PROXY", s, fs);
  }

  lemma DecimalIsToken(n: nat)
    ensures IsToken(Decimal(n))
  {
    DecimalRoundTrip(n);
  }

  /** A line end is found right after text without a carriage return. */
  lemma {:induction false} LineEndAfter(body: string, rest: string)
    requires '\r' !in body
    ensures FindLineEnd(body + CRLF + rest) == Some(|body|)
  {
    var s := body + CRLF + rest;
    if body != [] {
      assert s[1..] == body[1..] + CRLF + rest;
      LineEndAfter(body[1..], rest);
      assert s[0] == body[0];
    }
  }

  /** And none in text without a carriage return, or with one at its very end. */
  lemma {:induction false} NoLineEnd(body: string)
    requires forall i | 0 <= i < |body| - 1 :: body[i] != '\r'
    ensures FindLineEnd(body) == None
  {
    if |body| >= 2 {
      NoLineEnd(body[1..]);
    }
  }

  lemma AtoiDecimal(n: nat)
    requires n <= MAX_INT
    ensures Atoi(Decimal(n)) == Some(n)
  {
    DecimalRoundTrip(n);
    assert IsDigit(Decimal(n)[0]);
  }

  /** The texts that go into a header are tokens without a carriage return. */
  lemma AddressIsToken(s: string, ip: IP)
    requires ip.WellFormed() && Denotes(s, ip)
    ensures IsToken(s) && '\r' !in s
  {
    if ip.V4? {
      DottedIsToken(ip.v4);
    }
  }

  lemma DottedIsToken(v4: IPv4)
    ensures IsToken(Dotted(v4)) && '\r' !in Dotted(v4)
  {
    DottedFree(v4, '\r');
    DottedFree(v4, ' ');
    DottedFree(v4, '\t');
    DottedFree(v4, '\n');
    DottedFree(v4, '\U{0B}');
    DottedFree(v4, '\U{0C}');
    DottedStartsWithDigit(v4);
  }

  // ---------- Families ----------

  /**
   The declared family is TCP4 exactly when both addresses are IPv4, both printed addresses belong to the
   declared family, and each denotes the address it was printed from.
   */
  lemma FamiliesAgree(client: IP, target: IP)
    requires client.WellFormed() && target.WellFormed()
    ensures var (protocol, dest) := DetermineProxyProtocolAndTargetIP(client, target);
            var src := NormalizeProxyProtocolIP(client, protocol);
            && (protocol == "TCP4" <==> client.V4? && target.V4?)
            && (protocol == "TCP4" ==> IsFourText(src) && IsFourText(dest))
            && (protocol != "TCP4" ==> protocol == "TCP6" && IsSixText(src) && IsSixText(dest))
            && Denotes(src, client) && Denotes(dest, target)
  {
  }

  /** No text denotes two addresses. */
  lemma DenotesOne(s: string, ip: IP, ip': IP)
    requires ip.WellFormed() && ip'.WellFormed() && Denotes(s, ip) && Denotes(s, ip')
    ensures ip == ip'
  {
    if ip.V4? { V4TextHasDot(s, ip.v4); }
    if ip'.V4? { V4TextHasDot(s, ip'.v4); }
    if ip.V4? && ip'.V4? {
      V4TextCore(s, ip.v4);
      V4TextCore(s, ip'.v4);
      DottedInjective(ip.v4, ip'.v4);
    }
  }

  /** The dotted part of a text that denotes an IPv4 address. */
  function Core(s: string): string {
    if ':' in s && |s| >= 7 then s[7..] else s
  }

  lemma V4TextCore(s: string, v4: IPv4)
    requires Denotes(s, V4(v4))
    ensures Core(s) == Dotted(v4)
  {
    DottedFree(v4, ':');
    if s != Dotted(v4) { assert s[0] == ':' && s[7..] == Dotted(v4); }
  }

  lemma V4TextHasDot(s: string, v4: IPv4)
    requires Denotes(s, V4(v4))
    ensures '.' in s
  {
    var d := Dotted(v4);
    assert d[|Decimal(v4.a)|] == '.';
    assert '.' in d;
  }

  // ---------- Round trip ----------

  predicate Printable(a: NetAddr) {
    a.TCP? && a.ip.WellFormed() && a.port <= MAX_INT
  }

  /** What a header built for `client` and `target` says. */
  function InfoOf(client: NetAddr, target: NetAddr): Info
    requires client.TCP? && target.TCP?
  {
    var (protocol, dest) := DetermineProxyProtocolAndTargetIP(client.ip, target.ip);
    Info(protocol, NormalizeProxyProtocolIP(client.ip, protocol), dest, client.port, target.port)
  }

  function LineOf(client: NetAddr, target: NetAddr): string
    requires client.TCP? && target.TCP?
  {
    var i := InfoOf(client, target);
    Line(i.protocol, i.srcIP, i.destIP, client.port, target.port)
  }

  lemma LineNoReturn(protocol: string, src: string, dest: string, srcPort: nat, destPort: nat)
    requires '\r' !in protocol && '\r' !in src && '\r' !in dest
    ensures '\r' !in Line(protocol, src, dest, srcPort, destPort)
  {
    DecimalFree(srcPort, '\r');
    DecimalFree(destPort, '\r');
    var ports := Decimal(srcPort) + " " + Decimal(destPort);
    assert '\r' !in ports;
    assert '\r' !in dest + " " + ports;
    assert '\r' !in src + " " + (dest + " " + ports);
    assert '\r' !in protocol + " " + (src + " " + (dest + " " + ports));
  }

  /** The line of a built header has six fields, no carriage return, and readable ports. */
  lemma BuiltLine(client: NetAddr, target: NetAddr)
    requires Printable(client) && Printable(target)
    ensures BuildProxyProtocolHeader(client, target) == LineOf(client, target) + CRLF
    ensures '\r' !in LineOf(client, target)
    ensures var i := InfoOf(client, target);
            Fields(LineOf(client, target)) ==
            ["PROXY", i.protocol, i.srcIP, i.destIP, Decimal(client.port), Decimal(target.port)]
  {
    var i := InfoOf(client, target);
    FamiliesAgree(client.ip, target.ip);
    AddressIsToken(i.srcIP, client.ip);
    AddressIsToken(i.destIP, target.ip);
    assert i.protocol == "TCP4" || i.protocol == "TCP6";
    LineFields(i.protocol, i.srcIP, i.destIP, client.port, target.port);
    LineNoReturn(i.protocol, i.srcIP, i.destIP, client.port, target.port);
  }

  /** A line with these fields, followed by its end, is classified as a header. */
  lemma ClassifyLine(line: string, i: Info, rest: string)
    requires '\r' !in line && 0 <= i.srcPort <= MAX_INT && 0 <= i.destPort <= MAX_INT
    requires Fields(line) == ["PROXY", i.protocol, i.srcIP, i.destIP, Decimal(i.srcPort), Decimal(i.destPort)]
    ensures Classify(line + CRLF + rest) == Header(i, rest)
  {
    var read := line + CRLF + rest;
    LineEndAfter(line, rest);
    assert read[..|line|] == line && read[|line| + 2..] == rest;
    AtoiDecimal(i.srcPort);
    AtoiDecimal(i.destPort);
  }

  lemma WholeLine(line: string, i: Info, payload: string, size: nat)
    requires '\r' !in line && 0 <= i.srcPort <= MAX_INT && 0 <= i.destPort <= MAX_INT
    requires Fields(line) == ["PROXY", i.protocol, i.srcIP, i.destIP, Decimal(i.srcPort), Decimal(i.destPort)]
    requires |line| + 2 <= size <= |line + CRLF + payload|
    ensures var all := line + CRLF + payload;
            && Classify(all[..size]) == Header(i, all[|line| + 2..size])
            && Stream(all[..size], all[size..]) == Some(payload)
  {
    var all, more := line + CRLF + payload, payload[..size - |line| - 2];
    assert all[..size] == line + CRLF + more && all[|line| + 2..size] == more;
    assert more + all[size..] == payload;
    ClassifyLine(line, i, more);
  }

  lemma PartOfLine(line: string, payload: string, size: nat)
    requires '\r' !in line && size < |line| + 2
    ensures var all := line + CRLF + payload;
            Classify(all[..size]) == Regular && Stream(all[..size], all[size..]) == Some(all)
  {
    var all := line + CRLF + payload;
    var read := all[..size];
    forall i | 0 <= i < |read| - 1
      ensures read[i] != '\r'
    {
      assert read[i] == line[i];
    }
    NoLineEnd(read);
    assert read + all[size..] == all;
  }

  /**
   Reading back a built header followed by any payload, whatever the size of the first read: when it
   contains the whole header, family, addresses and ports are recovered and exactly the payload is left;
   when it does not, nothing is taken for a header and every byte is replayed.
   */
  lemma RoundTrip(client: NetAddr, target: NetAddr, payload: string, size: nat)
    requires Printable(client) && Printable(target)
    requires size <= |BuildProxyProtocolHeader(client, target) + payload|
    ensures var header := BuildProxyProtocolHeader(client, target);
            var all := header + payload;
            if size >= |header|
            then Classify(all[..size]) == Header(InfoOf(client, target), all[|header|..size])
                 && Stream(all[..size], all[size..]) == Some(payload)
            else Classify(all[..size]) == Regular && Stream(all[..size], all[size..]) == Some(all)
  {
    var line, info := LineOf(client, target), InfoOf(client, target);
    BuiltLine(client, target);
    if size >= |line| + 2 {
      WholeLine(line, info, payload, size);
    } else {
      PartOfLine(line, payload, size);
    }
  }

  // ---------- Conservation ----------

  /**
   A read that is not a header is replayed byte for byte. After a header the bytes that follow its line are
   conserved, except for "PROXY UNKNOWN", where they are conserved exactly when the read ended with the line.
   */
  lemma Conserved(read: string, rest: string)
    ensures var out := Stream(read, rest);
            match Classify(read)
            case Regular => out == Some(read + rest)
            case Malformed => out == None
            case Header(_, _) => out.Some? && FirstLine(read) + out.value == read + rest
            case Unknown => out.Some? && (FirstLine(read) + out.value == read + rest <==> AfterLine(read) == [])
  {
    if !Classify(read).Regular? {
      assert read == FirstLine(read) + AfterLine(read);
      assert FirstLine(read) + (AfterLine(read) + rest) == read + rest;
      if Classify(read).Unknown? {
        assert |FirstLine(read) + rest| == |read + rest| - |AfterLine(read)|;
        if AfterLine(read) == [] { assert read == FirstLine(read); }
      }
    }
  }

  // ---------- Every line ----------

  /** Tokens separated by single spaces. */
  function Joined(tokens: seq<string>): string {
    if tokens == [] then "" else if |tokens| == 1 then tokens[0] else tokens[0] + " " + Joined(tokens[1..])
  }

  predicate AllTokens(tokens: seq<string>) {
    forall i | 0 <= i < |tokens| :: IsToken(tokens[i])
  }

  lemma {:induction false} FieldsJoined(tokens: seq<string>)
    requires AllTokens(tokens)
    ensures Fields(Joined(tokens)) == tokens && '\r' !in Joined(tokens)
  {
    if |tokens| == 1 {
      LastField(tokens[0]);
      assert tokens == [tokens[0]];
    } else if |tokens| > 1 {
      assert AllTokens(tokens[1..]);
      FieldsJoined(tokens[1..]);
      FirstField(tokens[0], Joined(tokens[1..]));
      assert tokens == [tokens[0]] + tokens[1..];
    }
  }

  /**
   What a line of any tokens is: six with "PROXY" first are a header if the last two are numbers and malformed if
   not; "PROXY UNKNOWN" is the fallback; every other line is no header.
   */
  lemma LineOutcome(tokens: seq<string>, rest: string)
    requires AllTokens(tokens)
    ensures Classify(Joined(tokens) + CRLF + rest) ==
            if tokens == ["PROXY", "UNKNOWN"] then Unknown
            else if |tokens| != 6 || tokens[0] != "PROXY" then Regular
            else if Atoi(tokens[4]) == None || Atoi(tokens[5]) == None then Malformed
            else Header(Info(tokens[1], tokens[2], tokens[3], Atoi(tokens[4]).value, Atoi(tokens[5]).value), rest)
  {
    FieldsJoined(tokens);
    LineParts(Joined(tokens), rest);
    assert |tokens| == 2 && tokens[0] == "PROXY" && tokens[1] == "UNKNOWN" ==> tokens == ["PROXY", "UNKNOWN"];
  }

  lemma LineParts(line: string, rest: string)
    requires '\r' !in line
    ensures var read := line + CRLF + rest;
            FindLineEnd(read) == Some(|line|) && read[..|line|] == line && read[|line| + 2..] == rest
  {
    LineEndAfter(line, rest);
  }

  /** A port reads as the number that is written, with or without a sign, as long as it fits 64 bits. */
  lemma AtoiSigned(n: nat)
    ensures Atoi(Decimal(n)) == Atoi("+" + Decimal(n)) == if n <= MAX_INT then Some(n) else None
    ensures Atoi("-" + Decimal(n)) == if n <= MAX_INT + 1 then Some(0 - n) else None
  {
    DecimalRoundTrip(n);
    assert IsDigit(Decimal(n)[0]);
    assert ("+" + Decimal(n))[1..] == Decimal(n) && ("-" + Decimal(n))[1..] == Decimal(n);
  }

  /** Anything else after an optional sign is no number. */
  lemma AtoiRejects(s: string)
    requires s == "" || s == "+" || s == "-" || exists i :: 0 < i < |s| && !IsDigit(s[i])
    ensures Atoi(s) == None
  {
    if i :| 0 < i < |s| && !IsDigit(s[i]) {
      assert s[i] == s[1..][i - 1];
    }
  }

  /** Without a TCP address on both sides, or a readable source, the fallback header is written. */
  lemma FallbackIsUnknown(client: NetAddr, target: NetAddr, srcPort: nat, payload: string)
    requires client.Other? || target.Other?
    ensures Classify(BuildProxyProtocolHeader(client, target) + payload) == Unknown
    ensures Classify(BuildProxyProtocolHeaderFromInfo(None, srcPort, target) + payload) == Unknown
  {
    UnknownDropsPayload(payload, "");
  }

  /** The fallback header loses whatever is read together with it. */
  lemma UnknownDropsPayload(payload: string, rest: string)
    ensures Classify(UNKNOWN_HEADER + payload) == Unknown
    ensures Stream(UNKNOWN_HEADER + payload, rest) == Some(rest)
  {
    UnknownTokens();
    LineOutcome(["PROXY", "UNKNOWN"], payload);
    assert UNKNOWN_HEADER + payload == Joined(["PROXY", "UNKNOWN"]) + CRLF + payload;
  }

  lemma UnknownTokens()
    ensures AllTokens(["PROXY", "UNKNOWN"]) && Joined(["PROXY", "UNKNOWN"]) == UNKNOWN_LINE
  {
    assert "PROXY" == ['P', 'R', 'O', 'X', 'Y'] && "UNKNOWN" == ['U', 'N', 'K', 'N', 'O', 'W', 'N'];
    assert ["PROXY", "UNKNOWN"][1..] == ["UNKNOWN"];
  }

  // ---------- Several hops ----------

  /** The inverse of printing; a text that no address prints is not an address here. */
  ghost function ParseIP(s: string): Option<IP> {
    if exists ip: IP :: ip.WellFormed() && Denotes(s, ip)
    then var ip: IP :| ip.WellFormed() && Denotes(s, ip); Some(ip)
    else None
  }

  lemma ParseIPDenotes(s: string, ip: IP)
    requires ip.WellFormed() && Denotes(s, ip)
    ensures ParseIP(s) == Some(ip)
  {
    DenotesOne(s, ip, ParseIP(s).value);
  }

  /**
   A proxy that received a header and passes the connection on writes exactly the header it would write if
   the original client had connected to it directly, for any next target of either family.
   */
  lemma HopPreservesClient(client: NetAddr, target: NetAddr, next: NetAddr, payload: string)
    requires Printable(client) && Printable(target) && next.TCP?
    ensures var read := BuildProxyProtocolHeader(client, target) + payload;
            && Classify(read).Header?
            && var info := Classify(read).info;
               && info.srcPort >= 0
               && BuildProxyProtocolHeaderFromInfo(ParseIP(info.srcIP), info.srcPort, next) ==
                  BuildProxyProtocolHeader(client, next)
  {
    var header := BuildProxyProtocolHeader(client, target);
    var all := header + payload;
    RoundTrip(client, target, payload, |all|);
    assert all[..|all|] == all;
    FamiliesAgree(client.ip, target.ip);
    ParseIPDenotes(InfoOf(client, target).srcIP, client.ip);
  }
}
