/**
 The keys of the relay's connection table, "destination-remote", each side an address with its port, and
 the scan that decides whether a key belongs to an IP address.
 */
module ConnectionKey {
  import opened Text

  /** A UDP address: IPv4, or IPv6 by its text, which is printed in brackets. */
  datatype UDPAddr = V4(ip: IPv4, port: nat) | V6(text: string, port: nat) {
    predicate WellFormed() {
      V6? ==> '-' !in text
    }

    function String(): string {
      match this
      case V4(ip, port) => Dotted(ip) + ":" + Decimal(port)
      case V6(text, port) => "[" + text + "]:" + Decimal(port)
    }
  }

  function Key(dest: UDPAddr, remote: UDPAddr): string {
    dest.String() + "-" + remote.String()
  }

  function FirstDash(s: string): nat {
    First(s, '-')
  }

  /** What the scan computes, on any text. */
  predicate Mentions(key: string, ip: string) {
    || ip + ":" <= key
    || (FirstDash(key) + 1 < |key| && ip + ":" <= key[FirstDash(key) + 1..])
  }

  method ContainsIP(key: string, ip: string) returns (found: bool)
    ensures found == Mentions(key, ip)
  {
    var ipWithColon := ip + ":";
    if |key| >= |ipWithColon| && key[..|ipWithColon|] == ipWithColon {
      return true;
    }
    var dashIndex := -1;
    var i := 0;
    while i < |key|
      invariant 0 <= i <= |key| && dashIndex == -1 && '-' !in key[..i]
    {
      if key[i] == '-' {
        dashIndex := i;
        break;
      }
      i := i + 1;
    }
    FirstIs(key, '-', i);
    if dashIndex != -1 && dashIndex + 1 < |key| {
      var remaining := key[dashIndex + 1..];
      if |remaining| >= |ip| + 1 && remaining[..|ip| + 1] == ipWithColon {
        return true;
      }
    }
    return false;
  }

  /** A text starts with "x:", for `x` without a colon, exactly when `x` is what precedes its first colon. */
  lemma StartsWith(x: string, y: string, rest: string)
    requires ':' !in x && ':' !in y
    ensures x + ":" <= y + ":" + rest <==> x == y
  {
    var s := y + ":" + rest;
    if x + ":" <= s {
      assert s == x + ":" + s[|x| + 1..];
      SplitUnique(x, s[|x| + 1..], y, rest, ':');
    }
  }

  /** On a key made of two sides, the scan looks at the start of either. */
  lemma MentionsSides(d: string, r: string, ip: string)
    requires '-' !in d && r != []
    ensures Mentions(d + "-" + r, ip) <==> ip + ":" <= d + ("-" + r) || ip + ":" <= r
  {
    var key := d + "-" + r;
    assert key[..|d|] == d && key[|d| + 1..] == r && key == d + ("-" + r);
    FirstIs(key, '-', |d|);
  }

  /** One side of a key starts with "ip:" exactly when it is an IPv4 address with that text. */
  lemma SideMentions(addr: UDPAddr, tail: string, ip: string)
    requires ':' !in ip && (ip == [] || ip[0] != '[')
    ensures ip + ":" <= addr.String() + tail <==> addr.V4? && ip == Dotted(addr.ip)
  {
    if addr.V4? {
      DottedFree(addr.ip, ':');
      StartsWith(ip, Dotted(addr.ip), Decimal(addr.port) + tail);
      assert addr.String() + tail == Dotted(addr.ip) + ":" + (Decimal(addr.port) + tail);
    } else {
      BracketFirst(addr, tail, ip);
    }
  }

  lemma BracketFirst(addr: UDPAddr, tail: string, ip: string)
    requires addr.V6? && (ip == [] || ip[0] != '[')
    ensures !(ip + ":" <= addr.String() + tail)
  {
    assert addr.String()[0] == '[';
    assert (addr.String() + tail)[0] == '[' && (ip + ":")[0] != '[';
  }

  lemma AddrNoDash(addr: UDPAddr)
    requires addr.WellFormed()
    ensures '-' !in addr.String() && addr.String() != []
  {
    DecimalFree(addr.port, '-');
    if addr.V4? { DottedFree(addr.ip, '-'); }
  }

  /**
   The scan finds an IPv4 address exactly when it is the destination's or the remote's, and never because
   its text is a prefix of another one. IPv6 sides, printed in brackets, are never found.
   */
  lemma MentionsIff(dest: UDPAddr, remote: UDPAddr, ip: string)
    requires dest.WellFormed() && remote.WellFormed() && ':' !in ip && (ip == [] || ip[0] != '[')
    ensures Mentions(Key(dest, remote), ip) <==>
            (dest.V4? && ip == Dotted(dest.ip)) || (remote.V4? && ip == Dotted(remote.ip))
  {
    AddrNoDash(dest);
    AddrNoDash(remote);
    MentionsSides(dest.String(), remote.String(), ip);
    SideMentions(dest, "-" + remote.String(), ip);
    SideMentions(remote, [], ip);
    assert remote.String() + [] == remote.String();
  }

  /** For IPv4 keys and an IPv4 address, textual matching is address equality. */
  lemma MentionsIPv4Iff(dest: UDPAddr, remote: UDPAddr, ip: IPv4)
    requires dest.V4? && remote.V4?
    ensures Mentions(Key(dest, remote), Dotted(ip)) <==> ip == dest.ip || ip == remote.ip
  {
    DottedFree(ip, ':');
    DottedStartsWithDigit(ip);
    MentionsIff(dest, remote, Dotted(ip));
    if Dotted(ip) == Dotted(dest.ip) { DottedInjective(ip, dest.ip); }
    if Dotted(ip) == Dotted(remote.ip) { DottedInjective(ip, remote.ip); }
  }

  /** A key between two IPv6 addresses is found for no address written without brackets. */
  lemma IPv6NeverMentioned(dest: UDPAddr, remote: UDPAddr, ip: string)
    requires dest.V6? && remote.V6? && dest.WellFormed() && ip != [] && ip[0] != '['
    ensures !Mentions(Key(dest, remote), ip)
  {
    AddrNoDash(dest);
    MentionsSides(dest.String(), remote.String(), ip);
    assert (ip + ":")[0] == ip[0];
  }
}
