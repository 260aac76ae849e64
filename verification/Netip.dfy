/**
 * IP addresses and prefixes as values, after Go's net/netip: an address is its number, its
 * family and, for IPv6, a zone; a prefix is an address without zone and a length.
 */
module Netip {

  datatype Addr = Addr(is6: bool, value: nat, zone: string)

  datatype Prefix = Prefix(addr: Addr, bits: nat)

  function BitLen(a: Addr): nat {
    if a.is6 then 128 else 32
  }

  const TWO_32: nat := 0x1_0000_0000
  const TWO_128: nat := 0x1_0000_0000_0000_0000_0000_0000_0000_0000

  /** What netip makes: numbers of the width of the family, and zones for IPv6 only. */
  predicate ValidAddr(a: Addr) {
    if a.is6 then a.value < TWO_128 else a.value < TWO_32 && a.zone == ""
  }

  predicate ValidPrefix(p: Prefix) {
    ValidAddr(p.addr) && p.addr.zone == "" && p.bits <= BitLen(p.addr)
  }

  /** netip.Prefix{}: no family has prefixes of that length. */
  const INVALID_PREFIX := Prefix(Addr(false, 0, ""), 256)

  predicate ValidPrefixes(ips: seq<Prefix>) {
    forall p :: p in ips ==> ValidPrefix(p)
  }

  /** netip.PrefixFrom drops the zone and keeps the host bits. */
  function PrefixFrom(a: Addr, bits: nat): Prefix {
    Prefix(a.(zone := ""), bits)
  }

  /** The prefix holding just this address. */
  function HostPrefix(a: Addr): Prefix {
    PrefixFrom(a, BitLen(a))
  }

  function Power2(n: nat): (p: nat)
    ensures p > 0
  {
    if n == 0 then 1 else 2 * Power2(n - 1)
  }

  function HostBits(p: Prefix): nat
    requires p.bits <= BitLen(p.addr)
  {
    BitLen(p.addr) - p.bits
  }

  /** netip.Prefix.Masked. */
  function Masked(p: Prefix): Prefix {
    if p.bits > BitLen(p.addr) then p
    else
      var v, unit := p.addr.value, Power2(HostBits(p));
      p.(addr := p.addr.(value := if v < unit then 0 else v - v % unit))
  }
}
