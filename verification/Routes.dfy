/**
 * Whether two tunnels overlap, and the removal of repeated addresses (conf/config.go).
 */
module Routes {
  import opened Netip
  import opened Config

  /** The routes a tunnel sets up: every interface address and its network, and the networks of
      the allowed IPs. */
  ghost predicate IsRoute(c: Config, r: Prefix) {
    || (exists a :: a in c.iface.addresses && (r == HostPrefix(a.addr) || r == Masked(a)))
    || exists p, a :: p in c.peers && a in p.allowedIPs && r == Masked(a)
  }

  ghost predicate ValidConfig(c: Config) {
    ValidPrefixes(c.iface.addresses) && forall p :: p in c.peers ==> ValidPrefixes(p.allowedIPs)
  }

  /** A common route. */
  ghost predicate Overlaps(c: Config, d: Config) {
    exists r :: IsRoute(c, r) && IsRoute(d, r)
  }

  // ----- The sets that the loops build -----

  function AddressRoutes(addresses: seq<Prefix>): set<Prefix> {
    if addresses == [] then {}
    else
      var a := addresses[|addresses| - 1];
      AddressRoutes(addresses[..|addresses| - 1]) + {HostPrefix(a.addr), Masked(a)}
  }

  function IpRoutes(ips: seq<Prefix>): set<Prefix> {
    if ips == [] then {} else IpRoutes(ips[..|ips| - 1]) + {Masked(ips[|ips| - 1])}
  }

  ghost function PeerRoutes(ps: seq<Peer>): set<Prefix> {
    if ps == [] then {} else PeerRoutes(ps[..|ps| - 1]) + IpRoutes(ps[|ps| - 1].allowedIPs)
  }

  ghost function RouteSet(c: Config): set<Prefix> {
    AddressRoutes(c.iface.addresses) + PeerRoutes(c.peers)
  }

  lemma {:induction false} InAddressRoutes(addresses: seq<Prefix>, r: Prefix)
    ensures r in AddressRoutes(addresses) <==> exists a :: a in addresses && (r == HostPrefix(a.addr) || r == Masked(a))
  {
    if addresses == [] {
    } else {
      var front, a := addresses[..|addresses| - 1], addresses[|addresses| - 1];
      assert addresses == front + [a];
      InAddressRoutes(front, r);
    }
  }

  lemma {:induction false} InIpRoutes(ips: seq<Prefix>, r: Prefix)
    ensures r in IpRoutes(ips) <==> exists a :: a in ips && r == Masked(a)
  {
    if ips == [] {
    } else {
      assert ips == ips[..|ips| - 1] + [ips[|ips| - 1]];
      InIpRoutes(ips[..|ips| - 1], r);
    }
  }

  lemma {:induction false} InPeerRoutes(ps: seq<Peer>, r: Prefix)
    ensures r in PeerRoutes(ps) <==> exists p, a :: p in ps && a in p.allowedIPs && r == Masked(a)
  {
    if ps == [] {
    } else {
      var front, p := ps[..|ps| - 1], ps[|ps| - 1];
      assert ps == front + [p];
      InPeerRoutes(front, r);
      InIpRoutes(p.allowedIPs, r);
    }
  }

  lemma {:induction false} RouteSetIsRoutes(c: Config, r: Prefix)
    ensures r in RouteSet(c) <==> IsRoute(c, r)
  {
    InAddressRoutes(c.iface.addresses, r);
    InPeerRoutes(c.peers, r);
  }

  lemma {:induction false} OverlapIsIntersection(c: Config, d: Config)
    ensures Overlaps(c, d) <==> !(RouteSet(c) !! RouteSet(d))
  {
    hide RouteSet, IsRoute;
    forall r ensures (r in RouteSet(c) <==> IsRoute(c, r)) && (r in RouteSet(d) <==> IsRoute(d, r)) {
      RouteSetIsRoutes(c, r);
      RouteSetIsRoutes(d, r);
    }
  }

  lemma {:induction false} OverlapIsSymmetric(c: Config, d: Config)
    ensures Overlaps(c, d) <==> Overlaps(d, c)
  {
    hide RouteSet, IsRoute;
    OverlapIsIntersection(c, d);
    OverlapIsIntersection(d, c);
  }

  // ----- Repeated entries -----

  function Keys<T>(s: seq<T>, show: T -> string): set<string> {
    set i | 0 <= i < |s| :: show(s[i])
  }

  /** The first of the entries with the same text, in order. */
  function Firsts<T>(s: seq<T>, show: T -> string): seq<T> {
    if s == [] then []
    else Firsts(s[..|s| - 1], show) + if show(s[|s| - 1]) in Keys(s[..|s| - 1], show) then [] else [s[|s| - 1]]
  }

  lemma {:induction false} KeysAppend<T>(s: seq<T>, x: T, show: T -> string)
    ensures Keys(s + [x], show) == Keys(s, show) + {show(x)}
  {
    forall k ensures k in Keys(s + [x], show) <==> k in Keys(s, show) + {show(x)} {
      if k in Keys(s, show) {
        var i :| 0 <= i < |s| && show(s[i]) == k;
        assert (s + [x])[i] == s[i];
      }
      assert (s + [x])[|s|] == x;
    }
  }

  lemma {:induction false} FirstsAppend<T>(s: seq<T>, x: T, show: T -> string)
    ensures Firsts(s + [x], show) == Firsts(s, show) + if show(x) in Keys(s, show) then [] else [x]
  {
    assert (s + [x])[..|s|] == s;
  }

  lemma {:induction false} NoKeys<T>(show: T -> string)
    ensures Firsts([], show) == [] && Keys([], show) == {}
  {
  }

  lemma {:induction false} FirstsAreIn<T>(s: seq<T>, show: T -> string)
    ensures forall x :: x in Firsts(s, show) ==> x in s
    ensures Keys(Firsts(s, show), show) == Keys(s, show)
  {
    if s == [] {
    } else {
      var front, x := s[..|s| - 1], s[|s| - 1];
      assert s == front + [x];
      FirstsAreIn(front, show);
      KeysAppend(front, x, show);
      KeysAppend(Firsts(front, show), x, show);
      assert Firsts(front, show) + [] == Firsts(front, show);
    }
  }

  /** No two of the entries left have the same text. */
  lemma {:induction false} FirstsDiffer<T>(s: seq<T>, show: T -> string, i: nat, j: nat)
    requires i < j < |Firsts(s, show)|
    ensures show(Firsts(s, show)[i]) != show(Firsts(s, show)[j])
  {
    var front := s[..|s| - 1];
    var f := Firsts(front, show);
    if j < |f| {
      FirstsDiffer(front, show, i, j);
    } else {
      FirstsAreIn(front, show);
      assert show(f[i]) in Keys(f, show);
    }
  }

  /** An entry that comes first stays; the order is kept. */
  lemma {:induction false} FirstsOfPrefix<T>(s: seq<T>, show: T -> string, n: nat)
    requires n <= |s|
    ensures Firsts(s[..n], show) <= Firsts(s, show)
  {
    if n == |s| {
      assert s[..n] == s;
    } else {
      FirstsOfPrefix(s[..|s| - 1], show, n);
      assert s[..|s| - 1][..n] == s[..n];
    }
  }

  /** The loop of DeduplicateNetworkEntries, in place; the list is then cut to n entries. */
  method Deduplicate<T>(a: array<T>, show: T -> string) returns (n: nat)
    modifies a
    ensures n <= a.Length && a[..n] == Firsts(old(a[..]), show)
  {
    hide Firsts, Keys;
    ghost var before := a[..];
    NoKeys<T>(show);
    var seen: set<string> := {};
    n := 0;
    for j := 0 to a.Length
      invariant n <= j && seen == Keys(before[..j], show)
      invariant a[..n] == Firsts(before[..j], show) && a[j..] == before[j..]
    {
      var x := a[j];
      assert x == a[j..][0] == before[j];
      assert before[..j + 1] == before[..j] + [x];
      FirstsAppend(before[..j], x, show);
      assert a[j + 1..] == a[j..][1..] == before[j + 1..];
      KeysAppend(before[..j], x, show);
      if show(x) !in seen {
        ghost var kept := a[..n];
        seen := seen + {show(x)};
        a[n] := x;
        n := n + 1;
        assert a[..n] == kept + [x];
      }
    }
    assert before[..a.Length] == before;
  }

  /** Different prefixes have different texts. */
  ghost predicate Injective(show: Prefix -> string) {
    forall p, q :: ValidPrefix(p) && ValidPrefix(q) && show(p) == show(q) ==> p == q
  }

  /** Only which prefixes are listed counts, not how often. */
  lemma {:induction false} SameListsSameRoutes(c: Config, d: Config, r: Prefix)
    requires |c.peers| == |d.peers| && forall a :: a in c.iface.addresses <==> a in d.iface.addresses
    requires forall i :: 0 <= i < |c.peers| ==> forall a :: a in c.peers[i].allowedIPs <==> a in d.peers[i].allowedIPs
    ensures IsRoute(c, r) ==> IsRoute(d, r)
  {
    hide Masked, HostPrefix;
    if p, a :| p in c.peers && a in p.allowedIPs && r == Masked(a) {
      var i :| 0 <= i < |c.peers| && c.peers[i] == p;
      assert d.peers[i] in d.peers && a in d.peers[i].allowedIPs;
    }
  }

  /** Without repeated entries a tunnel has the same routes. */
  lemma {:induction false} DeduplicatedRoutes(c: Config, show: Prefix -> string, showAddr: Addr -> string, r: Prefix)
    requires ValidConfig(c) && Injective(show)
    ensures IsRoute(Deduplicated(c, show, showAddr), r) <==> IsRoute(c, r)
  {
    hide Firsts, IsRoute, ValidPrefixes, Injective;
    var d := Deduplicated(c, show, showAddr);
    SameEntries(c.iface.addresses, show);
    forall i | 0 <= i < |c.peers| ensures forall a :: a in c.peers[i].allowedIPs <==> a in d.peers[i].allowedIPs {
      assert c.peers[i] in c.peers;
      SameEntries(c.peers[i].allowedIPs, show);
    }
    SameListsSameRoutes(c, d, r);
    SameListsSameRoutes(d, c, r);
  }

  lemma {:induction false} SameEntries(s: seq<Prefix>, show: Prefix -> string)
    requires ValidPrefixes(s) && Injective(show)
    ensures forall x :: x in Firsts(s, show) <==> x in s
  {
    FirstsAreIn(s, show);
    forall x | x in s ensures x in Firsts(s, show) {
      assert show(x) in Keys(s, show);
      assert show(x) in Keys(Firsts(s, show), show);
    }
  }

  function Deduplicated(c: Config, show: Prefix -> string, showAddr: Addr -> string): Config {
    c.(iface := c.iface.(addresses := Firsts(c.iface.addresses, show), dns := Firsts(c.iface.dns, showAddr)),
       peers := seq(|c.peers|,
         i requires 0 <= i < |c.peers| => c.peers[i].(allowedIPs := Firsts(c.peers[i].allowedIPs, show))))
  }

  /** Removing repeated entries, on either side, never changes whether two tunnels overlap. */
  lemma {:induction false} DeduplicationKeepsOverlap(c: Config, d: Config, show: Prefix -> string,
                                                     showAddr: Addr -> string)
    requires ValidConfig(c) && Injective(show)
    ensures Overlaps(Deduplicated(c, show, showAddr), d) <==> Overlaps(c, d)
    ensures Overlaps(d, Deduplicated(c, show, showAddr)) <==> Overlaps(d, c)
  {
    hide IsRoute, Deduplicated;
    forall r ensures IsRoute(Deduplicated(c, show, showAddr), r) <==> IsRoute(c, r) {
      DeduplicatedRoutes(c, show, showAddr, r);
    }
  }

  /** One list: the entries that stay move to the front of its array, and the rest is cut off. */
  method DeduplicateList<T>(s: seq<T>, show: T -> string) returns (r: seq<T>)
    ensures r == Firsts(s, show)
  {
    var a := new T[|s|](i requires 0 <= i < |s| => s[i]);
    assert a[..] == s;
    var n := Deduplicate(a, show);
    r := a[..n];
  }

  /** DeduplicateNetworkEntries. */
  method DeduplicateNetworkEntries(c: Config, show: Prefix -> string, showAddr: Addr -> string) returns (d: Config)
    ensures d == Deduplicated(c, show, showAddr)
  {
    hide Firsts;
    var addresses := DeduplicateList(c.iface.addresses, show);
    var dns := DeduplicateList(c.iface.dns, showAddr);
    var peers := c.peers;
    for i := 0 to |c.peers|
      invariant |peers| == |c.peers| && forall j :: i <= j < |peers| ==> peers[j] == c.peers[j]
      invariant forall j :: 0 <= j < i ==> peers[j] == Deduplicated(c, show, showAddr).peers[j]
    {
      var allowedIPs := DeduplicateList(peers[i].allowedIPs, show);
      peers := peers[i := peers[i].(allowedIPs := allowedIPs)];
    }
    d := c.(iface := c.iface.(addresses := addresses, dns := dns), peers := peers);
  }

  // ----- The loops -----

  /** IntersectsWith. */
  method IntersectsWith(c: Config, d: Config) returns (r: bool)
    ensures r <==> Overlaps(c, d)
  {
    hide IsRoute, Masked, HostPrefix, Overlaps;
    var allRoutes: set<Prefix> := {};
    for i := 0 to |c.iface.addresses|
      invariant allRoutes == AddressRoutes(c.iface.addresses[..i])
    {
      var a := c.iface.addresses[i];
      assert c.iface.addresses[..i + 1][..i] == c.iface.addresses[..i];
      allRoutes := allRoutes + {HostPrefix(a.addr)};
      allRoutes := allRoutes + {Masked(a)};
    }
    assert c.iface.addresses[..|c.iface.addresses|] == c.iface.addresses;
    for i := 0 to |c.peers|
      invariant allRoutes == AddressRoutes(c.iface.addresses) + PeerRoutes(c.peers[..i])
    {
      assert c.peers[..i + 1][..i] == c.peers[..i];
      var ips := MaskedIPs(c.peers[i].allowedIPs);
      allRoutes := allRoutes + ips;
    }
    assert c.peers[..|c.peers|] == c.peers;
    r := Meets(allRoutes, d);
    OverlapIsIntersection(c, d);
  }

  /** The answer is the same whichever tunnel is asked. */
  method AskBoth(c: Config, d: Config) returns (r: bool, s: bool)
    ensures r == s
  {
    hide Overlaps;
    r := IntersectsWith(c, d);
    s := IntersectsWith(d, c);
    OverlapIsSymmetric(c, d);
  }

  method MaskedIPs(ips: seq<Prefix>) returns (r: set<Prefix>)
    ensures r == IpRoutes(ips)
  {
    r := {};
    for i := 0 to |ips|
      invariant r == IpRoutes(ips[..i])
    {
      assert ips[..i + 1][..i] == ips[..i];
      r := r + {Masked(ips[i])};
    }
    assert ips[..|ips|] == ips;
  }

  /** The second half: is one of the routes among those of d? */
  method Meets(routes: set<Prefix>, d: Config) returns (r: bool)
    ensures r <==> !(routes !! RouteSet(d))
  {
    hide IsRoute, Masked, HostPrefix;
    for i := 0 to |d.iface.addresses|
      invariant routes !! AddressRoutes(d.iface.addresses[..i])
    {
      var a := d.iface.addresses[i];
      assert d.iface.addresses[..i + 1][..i] == d.iface.addresses[..i];
      InAddressRoutes(d.iface.addresses, HostPrefix(a.addr));
      InAddressRoutes(d.iface.addresses, Masked(a));
      assert a in d.iface.addresses;
      if HostPrefix(a.addr) in routes {
        return true;
      }
      if Masked(a) in routes {
        return true;
      }
    }
    assert d.iface.addresses[..|d.iface.addresses|] == d.iface.addresses;
    for i := 0 to |d.peers|
      invariant routes !! PeerRoutes(d.peers[..i])
    {
      assert d.peers[..i + 1][..i] == d.peers[..i];
      var ips := d.peers[i].allowedIPs;
      for j := 0 to |ips|
        invariant routes !! IpRoutes(ips[..j])
      {
        assert ips[..j + 1][..j] == ips[..j];
        if Masked(ips[j]) in routes {
          InPeerRoutes(d.peers, Masked(ips[j]));
          assert d.peers[i] in d.peers && ips[j] in d.peers[i].allowedIPs;
          return true;
        }
      }
      assert ips[..|ips|] == ips;
    }
    assert d.peers[..|d.peers|] == d.peers;
    r := false;
  }
}
