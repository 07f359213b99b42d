/** IPv4 addresses as 32-bit values, socket addresses, and IPv4 network
    prefixes ("CIDR ranges") with their containment test.

    The containment test used by the server is the range form
    `network <= ip <= broadcast`; `ContainsIffPrefixMatch` proves that it is
    exactly the prefix match of section 3.1 of RFC 4632: the first
    `prefixLen` bits of the address equal those of the prefix. */
module Ipv4 {

  /** An IPv4 address as an unsigned 32-bit value. */
  type Addr = x: nat | x < 0x1_0000_0000

  /** A 16-bit port number. */
  type Port = p: nat | p < 0x1_0000

  /** The length of an IPv4 prefix, at most 32 bits. */
  type PrefixLen = n: nat | n <= 32

  /** An IPv6 address; the model never looks inside one. */
  datatype Ipv6Addr = Ipv6Addr(bits: nat)

  datatype IpAddr = V4(v4: Addr) | V6(v6: Ipv6Addr)

  datatype SocketAddr = SocketAddr(ip: IpAddr, port: Port)

  /** An IPv4 network: an address and a prefix length (`10.0.0.0/8`).
      The address may carry host bits; they do not take part in containment. */
  datatype Cidr = Cidr(addr: Addr, prefixLen: PrefixLen)

  function Pow2(n: nat): (r: nat)
    ensures r >= 1
  {
    if n == 0 then 1 else 2 * Pow2(n - 1)
  }

  /** `x` shifted right by `d` bits. */
  function Shr(x: nat, d: nat): nat
  {
    if d == 0 then x else Shr(x / 2, d - 1)
  }

  /** The shift `Shr(x, d)` is the unique `q` with `q * 2^d <= x < (q + 1) * 2^d`. */
  lemma {:induction false} ShrRange(x: nat, d: nat, q: nat)
    ensures Shr(x, d) == q <==> q * Pow2(d) <= x < q * Pow2(d) + Pow2(d)
  {
    if d > 0 {
      ShrRange(x / 2, d - 1, q);
      var m := Pow2(d - 1);
      assert Pow2(d) == 2 * m;
      assert q * Pow2(d) == 2 * (q * m);
    }
  }

  /** Shifting a value below `2^(d+k)` right by `d` leaves a value below `2^k`. */
  lemma {:induction false} ShrBound(x: nat, d: nat, k: nat)
    requires x < Pow2(d + k)
    ensures Shr(x, d) < Pow2(k)
  {
    if d > 0 {
      assert Pow2(d + k) == 2 * Pow2(d - 1 + k);
      ShrBound(x / 2, d - 1, k);
    }
  }

  /** The number of host bits of a network. */
  function HostBits(c: Cidr): nat
  {
    32 - c.prefixLen
  }

  /** The first address of the network: `addr` with its host bits cleared. */
  function Network(c: Cidr): (r: nat)
    ensures r <= c.addr
  {
    var d := HostBits(c);
    var q := Shr(c.addr, d);
    ShrRange(c.addr, d, q);
    q * Pow2(d)
  }

  /** The last address of the network: `addr` with its host bits set. */
  function Broadcast(c: Cidr): (r: nat)
    ensures r < 0x1_0000_0000
  {
    var d := HostBits(c);
    var k := c.prefixLen;
    Pow2Of32();
    Pow2Add(k, d);
    ShrBound(c.addr, d, k);
    BlockEnd(Shr(c.addr, d), Pow2(k), Pow2(d));
    Network(c) + Pow2(d) - 1
  }

  /** Block `q` of size `m`, with `q` below `n`, ends within `n` blocks. */
  lemma BlockEnd(q: nat, n: nat, m: nat)
    requires q < n
    ensures q * m + m <= n * m
  {
    assert q * m + m == (q + 1) * m;
  }

  /** The containment test of the range type: the address lies between the
      network address and the broadcast address, both included. */
  predicate Contains(c: Cidr, ip: Addr)
  {
    Network(c) <= ip <= Broadcast(c)
  }

  /** The low `n` bits of `x`, most significant first. */
  function Bits(x: nat, n: nat): (r: seq<bool>)
    ensures |r| == n
  {
    if n == 0 then [] else Bits(x / 2, n - 1) + [x % 2 == 1]
  }

  /** The 32 bits of an address, most significant first. */
  function AddrBits(a: Addr): seq<bool>
  {
    Bits(a, 32)
  }

  /** Prefix match of section 3.1 of RFC 4632: the leading `prefixLen` bits of
      `ip` are those of the network's address. */
  predicate PrefixMatch(c: Cidr, ip: Addr)
  {
    AddrBits(ip)[..c.prefixLen] == AddrBits(c.addr)[..c.prefixLen]
  }

  /** The leading `k` of `n` bits of `x` are the bits of `x` shifted right by `n - k`. */
  lemma {:induction false} BitsPrefix(x: nat, n: nat, k: nat)
    requires k <= n
    ensures Bits(x, n)[..k] == Bits(Shr(x, n - k), k)
  {
    if k < n {
      BitsPrefix(x / 2, n - 1, k);
      assert Bits(x, n)[..k] == Bits(x / 2, n - 1)[..k];
    }
  }

  /** Two values below `2^k` have the same `k` bits exactly when they are equal. */
  lemma {:induction false} BitsInjective(a: nat, b: nat, k: nat)
    requires a < Pow2(k) && b < Pow2(k)
    ensures Bits(a, k) == Bits(b, k) <==> a == b
  {
    if k > 0 {
      BitsInjective(a / 2, b / 2, k - 1);
      var ba, bb := Bits(a, k), Bits(b, k);
      if ba == bb {
        assert ba[..k - 1] == bb[..k - 1] && ba[k - 1] == bb[k - 1];
        assert Bits(a / 2, k - 1) == ba[..k - 1];
        assert Bits(b / 2, k - 1) == bb[..k - 1];
      }
    }
  }

  lemma {:induction false} Pow2Add(a: nat, b: nat)
    ensures Pow2(a + b) == Pow2(a) * Pow2(b)
  {
    if a > 0 {
      Pow2Add(a - 1, b);
    }
  }

  lemma Pow2Of32()
    ensures Pow2(32) == 0x1_0000_0000
  {
    assert Pow2(4) == 16;
    Pow2Add(4, 4);
    Pow2Add(8, 8);
    Pow2Add(16, 16);
  }

  /** The range test holds exactly when the address, shifted right by the
      number of host bits, equals the network's address shifted likewise. */
  lemma ContainsIffSameHighPart(c: Cidr, ip: Addr)
    ensures Contains(c, ip) <==> Shr(ip, HostBits(c)) == Shr(c.addr, HostBits(c))
  {
    var d := HostBits(c);
    var q := Shr(c.addr, d);
    assert Network(c) == q * Pow2(d);
    ShrRange(ip, d, q);
  }

  /** The prefix match holds exactly when the shifted values are equal. */
  lemma PrefixMatchIffSameHighPart(c: Cidr, ip: Addr)
    ensures PrefixMatch(c, ip) <==> Shr(ip, HostBits(c)) == Shr(c.addr, HostBits(c))
  {
    var d, k := HostBits(c), c.prefixLen;
    Pow2Of32();
    assert Pow2(d + k) == 0x1_0000_0000;
    BitsPrefix(ip, 32, k);
    BitsPrefix(c.addr, 32, k);
    ShrBound(ip, d, k);
    ShrBound(c.addr, d, k);
    BitsInjective(Shr(ip, d), Shr(c.addr, d), k);
  }

  /** The range test and the RFC 4632 prefix match agree on every network and
      every address. */
  lemma ContainsIffPrefixMatch(c: Cidr, ip: Addr)
    ensures Contains(c, ip) <==> PrefixMatch(c, ip)
  {
    ContainsIffSameHighPart(c, ip);
    PrefixMatchIffSameHighPart(c, ip);
  }
}
