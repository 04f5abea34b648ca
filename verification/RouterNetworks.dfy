/**
 Networks in CIDR form, section 3.1 of RFC 4632: an address of 4 or 16 bytes and a prefix length. Membership
 compares bytes under the mask; it is proved to be prefix matching on bits.
 */
module RouterNetworks {
  import opened Arithmetic
  import opened PrefixCover

  const IPV4_BITS: nat := 32
  const IPV6_BITS: nat := 128

  datatype IPNet = IPNet(ip: seq<Octet>, ones: nat) {
    predicate WellFormed() {
      ones <= 8 * |ip|
    }

    function Width(): nat {
      8 * |ip|
    }

    function Prefix(): Bits
      requires WellFormed()
    {
      IPBits(ip)[..ones]
    }
  }

  type Networks = nets: seq<IPNet> | forall n | n in nets :: n.WellFormed()

  predicate IsFamily(w: nat) {
    w == IPV4_BITS || w == IPV6_BITS
  }

  // ---------- Bytes and bits ----------

  type Octet = x: nat | x < 256

  /** Bit `k` of a byte, counted from the most significant one: shift right by `7 - k`, keep the last bit. */
  predicate TopBit(b: Octet, k: nat)
    requires k < 8
  {
    b / Pow2(7 - k) % 2 == 1
  }

  predicate Bit(ip: seq<Octet>, k: nat)
    requires k < 8 * |ip|
  {
    TopBit(ip[k / 8], k % 8)
  }

  function IPBits(ip: seq<Octet>): (bits: Bits)
    ensures |bits| == 8 * |ip|
  {
    seq(8 * |ip|, k requires 0 <= k < 8 * |ip| => Bit(ip, k))
  }

  /** A byte and-ed with the mask byte of `r` leading ones: the other bits are cleared. */
  function Masked(b: Octet, r: nat): int
    requires r <= 8
  {
    b / Pow2(8 - r) * Pow2(8 - r)
  }

  /** How many of the first `ones` mask bits fall into byte `i`. */
  function OnesInByte(ones: nat, i: nat): (r: nat)
    ensures r <= 8
  {
    if ones <= 8 * i then 0 else if ones >= 8 * i + 8 then 8 else ones - 8 * i
  }

  /** The mask comparison, byte by byte; lengths must agree and be 4 or 16. */
  predicate Agrees(n: IPNet, ip: seq<Octet>) {
    && IsFamily(n.Width())
    && |ip| == |n.ip|
    && forall i | 0 <= i < |ip| :: Masked(ip[i], OnesInByte(n.ones, i)) == Masked(n.ip[i], OnesInByte(n.ones, i))
  }

  /** Sixteen bytes that stand for an IPv4 address: ten zeros, two bytes of ones, and the address. */
  predicate IsMapped(ip: seq<Octet>) {
    |ip| == 16 && (forall i | 0 <= i < 10 :: ip[i] == 0) && ip[10] == 255 && ip[11] == 255
  }

  /** The four bytes of an IPv4 address in either form; any other address as it is. */
  function Unmapped(ip: seq<Octet>): seq<Octet> {
    if IsMapped(ip) then ip[12..] else ip
  }

  /** A network with its host bits cleared: a mapped address keeps its first twelve bytes only if the mask does. */
  predicate Canonical(n: IPNet) {
    n.WellFormed() && (IsMapped(n.ip) ==> n.ones >= 96)
  }

  /** The network that membership compares with: of a mapped one, the last four bytes of address and mask. */
  function Compared(n: IPNet): IPNet
    requires Canonical(n)
  {
    if IsMapped(n.ip) then IPNet(n.ip[12..], n.ones - 96) else n
  }

  /** Membership: IPv4 addresses and IPv4-mapped ones are the same, in the network and in the address. */
  predicate Contains(n: IPNet, ip: seq<Octet>)
    requires Canonical(n)
  {
    Agrees(Compared(n), Unmapped(ip))
  }

  lemma MaskedIff(a: Octet, b: Octet, r: nat)
    requires r <= 8
    ensures Masked(a, r) == Masked(b, r) <==> a / Pow2(8 - r) == b / Pow2(8 - r)
  {
    Steps(a / Pow2(8 - r), b / Pow2(8 - r), Pow2(8 - r));
    Steps(b / Pow2(8 - r), a / Pow2(8 - r), Pow2(8 - r));
  }

  /** One mask bit more compares one address bit more. */
  lemma MaskGrows(a: Octet, b: Octet, r: nat)
    requires r < 8
    ensures Masked(a, r + 1) == Masked(b, r + 1) <==> Masked(a, r) == Masked(b, r) && TopBit(a, r) == TopBit(b, r)
  {
    MaskedIff(a, b, r);
    MaskedIff(a, b, r + 1);
    Halve(a, Pow2(7 - r));
    Halve(b, Pow2(7 - r));
  }

  lemma {:induction false} MaskedBytesAgree(a: Octet, b: Octet, r: nat)
    requires r <= 8
    ensures Masked(a, r) == Masked(b, r) <==> forall k | 0 <= k < r :: TopBit(a, k) == TopBit(b, k)
  {
    if r == 0 {
      assert Pow2(8) == 256;
    } else {
      MaskGrows(a, b, r - 1);
      MaskedBytesAgree(a, b, r - 1);
    }
  }

  /** The byte-wise mask comparison is prefix matching on bits. */
  lemma AgreesIsPrefix(n: IPNet, ip: seq<Octet>)
    requires n.WellFormed() && IsFamily(n.Width()) && |ip| == |n.ip|
    ensures Agrees(n, ip) <==> n.Prefix() <= IPBits(ip)
  {
    forall i | 0 <= i < |ip|
      ensures Masked(ip[i], OnesInByte(n.ones, i)) == Masked(n.ip[i], OnesInByte(n.ones, i)) <==>
              forall k | 0 <= k < OnesInByte(n.ones, i) :: TopBit(ip[i], k) == TopBit(n.ip[i], k)
    {
      MaskedBytesAgree(ip[i], n.ip[i], OnesInByte(n.ones, i));
    }
    if Agrees(n, ip) {
      forall j | 0 <= j < n.ones
        ensures n.Prefix()[j] == IPBits(ip)[j]
      {
        assert j % 8 < OnesInByte(n.ones, j / 8);
        assert TopBit(ip[j / 8], j % 8) == TopBit(n.ip[j / 8], j % 8);
      }
    }
    if n.Prefix() <= IPBits(ip) {
      forall i, k | 0 <= i < |ip| && 0 <= k < OnesInByte(n.ones, i)
        ensures TopBit(ip[i], k) == TopBit(n.ip[i], k)
      {
        var j := 8 * i + k;
        assert j / 8 == i && j % 8 == k && j < n.ones;
        assert n.Prefix()[j] == IPBits(ip)[j];
      }
    }
  }

  // ---------- IPv4 in sixteen bytes ----------

  /** What precedes the four bytes of an IPv4 address in its sixteen-byte form. */
  const MAPPED_HEAD: seq<Octet> := [0, 0, 0, 0, 0, 0, 0, 0, 0, 0, 255, 255]

  /** An IPv4 address is the same in four and in sixteen bytes; every other address is taken as it is. */
  lemma UnmappedForms(ip: seq<Octet>, x: seq<Octet>)
    requires |x| == 4
    ensures Unmapped(MAPPED_HEAD + x) == x && Unmapped(x) == x
    ensures !(|ip| == 16 && ip[..12] == MAPPED_HEAD) ==> Unmapped(ip) == ip && !IsMapped(ip)
  {
    var m := MAPPED_HEAD + x;
    assert m[12..] == x;
    assert forall i | 0 <= i < 12 :: m[i] == MAPPED_HEAD[i];
    if IsMapped(ip) {
      assert ip[..12] == MAPPED_HEAD;
    }
  }

  lemma MappedHead(ip: seq<Octet>)
    requires IsMapped(ip)
    ensures ip == MAPPED_HEAD + ip[12..]
  {
    assert ip[..12] == MAPPED_HEAD;
  }

  /** Four bytes behind the head contribute the last 32 bits. */
  lemma HeadBits(x: seq<Octet>)
    requires |x| == 4
    ensures |IPBits(MAPPED_HEAD)| == 96 && IPBits(MAPPED_HEAD + x) == IPBits(MAPPED_HEAD) + IPBits(x)
  {
    var m := MAPPED_HEAD + x;
    forall k | 0 <= k < 128
      ensures IPBits(m)[k] == (IPBits(MAPPED_HEAD) + IPBits(x))[k]
    {
      if k < 96 {
        assert m[k / 8] == MAPPED_HEAD[k / 8];
      } else {
        assert k / 8 == (k - 96) / 8 + 12 && k % 8 == (k - 96) % 8;
        assert m[k / 8] == x[(k - 96) / 8];
      }
    }
  }

  /**
   An IPv4-mapped network compares as IPv4 network exactly as its own prefix matches the sixteen-byte form of
   the address.
   */
  lemma ComparedIsMapped(n: IPNet, x: seq<Octet>)
    requires Canonical(n) && IsMapped(n.ip) && |x| == 4
    ensures Compared(n).Prefix() <= IPBits(x) <==> n.Prefix() <= IPBits(MAPPED_HEAD + x)
  {
    MappedHead(n.ip);
    HeadBits(n.ip[12..]);
    HeadBits(x);
    var front, p := IPBits(MAPPED_HEAD), Compared(n).Prefix();
    assert n.Prefix() == front + p;
    FrontPrefix(front, p, IPBits(x));
  }

  lemma FrontPrefix(front: Bits, p: Bits, a: Bits)
    ensures p <= a <==> front + p <= front + a
  {
    if front + p <= front + a {
      assert p == (front + p)[|front|..] && a == (front + a)[|front|..];
    }
  }

  /** A mapped network's own prefix matches mapped addresses only. */
  lemma MappedPrefix(n: IPNet, ip: seq<Octet>)
    requires Canonical(n) && IsMapped(n.ip) && |ip| == 16 && n.Prefix() <= IPBits(ip)
    ensures IsMapped(ip)
  {
    AgreesIsPrefix(n, ip);
    forall i | 0 <= i < 12
      ensures ip[i] == n.ip[i]
    {
      assert OnesInByte(n.ones, i) == 8 && Pow2(0) == 1;
      assert Masked(ip[i], 8) == Masked(n.ip[i], 8);
    }
  }

  /**
   Membership is prefix matching on bits: of the network's prefix, or of what a mapped network's prefix says
   about IPv4 addresses.
   */
  lemma ContainsIsPrefix(n: IPNet, ip: seq<Octet>)
    requires Canonical(n)
    ensures var c, x := Compared(n), Unmapped(ip);
            Contains(n, ip) <==> IsFamily(c.Width()) && |x| == |c.ip| && c.Prefix() <= IPBits(x)
  {
    var c, x := Compared(n), Unmapped(ip);
    if IsFamily(c.Width()) && |x| == |c.ip| {
      AgreesIsPrefix(c, x);
    }
  }
}
