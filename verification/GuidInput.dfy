/**
 * What is hashed to derive the interface GUID of a tunnel (tunnel/deterministicguid.go). The
 * hash function itself is not part of this model.
 */
module GuidInput {
  import opened Text
  import opened Netip
  import opened Config
  import opened Bytes
  import opened Sorting

  /** The functions of other packages: the normalised UTF-8 bytes of a string, the public key
      of a private key, the text of a prefix, and where sort.Slice puts peers with given keys. */
  datatype Library =
    Library(nfc: string -> seq<byte>, public: Key -> Key, show: Prefix -> string, order: seq<Key> -> seq<nat>)

  predicate Ascii(s: string) {
    forall i :: 0 <= i < |s| ==> s[i] < '\U{0080}'
  }

  /** Normalisation keeps ASCII strings apart, and different prefixes have different texts. */
  ghost predicate Laws(lib: Library) {
    && (forall s, t :: Ascii(s) && Ascii(t) && lib.nfc(s) == lib.nfc(t) ==> s == t)
    && (forall p :: ValidPrefix(p) ==> Ascii(lib.show(p)))
    && forall p, q :: ValidPrefix(p) && ValidPrefix(q) && lib.show(p) == lib.show(q) ==> p == q
  }

  const DETERMINISTIC_LABEL := "D" + "eterministic WireGuard Windows GUID v1 jason@zx2c4.com"
  const FIXED_LABEL := "F" + "ixed WireGuard Windows GUID v1 jason@zx2c4.com"

  function AsciiBytes(s: string): seq<byte> {
    seq(|s|, i requires 0 <= i < |s| => (s[i] as int % 256) as byte)
  }

  // ----- The orders -----

  /** bytes.Compare(a, b) <= 0. */
  predicate LexLeq(a: seq<byte>, b: seq<byte>) {
    a == [] || (b != [] && (a[0] < b[0] || (a[0] == b[0] && LexLeq(a[1..], b[1..]))))
  }

  /** By family, then by length, then by address. */
  predicate IpLeq(a: Prefix, b: Prefix) {
    if BitLen(a.addr) != BitLen(b.addr) then BitLen(a.addr) < BitLen(b.addr)
    else if a.bits != b.bits then a.bits < b.bits
    else a.addr.value <= b.addr.value
  }

  lemma {:induction false} LexTotal(a: seq<byte>, b: seq<byte>)
    ensures LexLeq(a, b) || LexLeq(b, a)
  {
    if a == [] || b == [] {
    } else {
      LexTotal(a[1..], b[1..]);
    }
  }

  lemma {:induction false} LexTransitive(a: seq<byte>, b: seq<byte>, c: seq<byte>)
    requires LexLeq(a, b) && LexLeq(b, c)
    ensures LexLeq(a, c)
  {
    if a != [] && a[0] == b[0] == c[0] { LexTransitive(a[1..], b[1..], c[1..]); }
  }

  lemma {:induction false} LexAntisymmetric(a: seq<byte>, b: seq<byte>)
    requires LexLeq(a, b) && LexLeq(b, a)
    ensures a == b
  {
    if a == [] {
    } else {
      LexAntisymmetric(a[1..], b[1..]);
    }
  }

  lemma {:induction false} IpOrders()
    ensures Orders(IpLeq)
  {
  }

  lemma {:induction false} KeyOrders()
    ensures Orders(LexLeq)
  {
    forall a, b ensures LexLeq(a, b) || LexLeq(b, a) { LexTotal(a, b); }
    forall a, b, c | LexLeq(a, b) && LexLeq(b, c) ensures LexLeq(a, c) { LexTransitive(a, b, c); }
  }

  predicate SortsKeys(order: seq<nat>, keys: seq<Key>) {
    Arranges(order, |keys|) && forall i, j :: 0 <= i < j < |keys| ==> LexLeq(keys[order[i]], keys[order[j]])
  }

  /** What sort.Slice promises of a list of peers. It gets the comparison of their keys and
      nothing else, so the new order is computed from the keys; which of two peers with the same
      key comes first is up to the algorithm. */
  ghost predicate Sorts(lib: Library) {
    forall keys :: SortsKeys(lib.order(keys), keys)
  }

  /** The comparison of two places by their keys; places that do not exist come last. */
  function ByKey(keys: seq<Key>): (nat, nat) -> bool {
    (i: nat, j: nat) => j >= |keys| || (i < |keys| && LexLeq(keys[i], keys[j]))
  }

  function StableOrder(keys: seq<Key>): seq<nat> {
    Sort(Indices(|keys|), ByKey(keys))
  }

  lemma {:induction false} StableOrderSorts(keys: seq<Key>)
    ensures SortsKeys(StableOrder(keys), keys)
  {
    hide Sort, Orders, LexLeq;
    var all, leq := Indices(|keys|), ByKey(keys);
    var order := Sort(all, leq);
    ByKeyOrders(keys);
    SortSorts(all, leq);
    SortKeeps(all, leq);
    SameLength(order, all);
    SameElements(order, all);
    forall i | 0 <= i < |order| ensures order[i] < |keys| { assert order[i] in all; }
  }

  /** One algorithm that keeps the promise. */
  lemma {:induction false} SortsCanBeMet(lib: Library)
    ensures Sorts(lib.(order := StableOrder))
  {
    hide SortsKeys;
    forall keys ensures SortsKeys(StableOrder(keys), keys) { StableOrderSorts(keys); }
  }

  lemma {:induction false} ByKeyOrders(keys: seq<Key>)
    ensures Orders(ByKey(keys))
  {
    hide LexLeq;
    KeyOrders();
  }

  // ----- The input -----

  /** A string behind its length. */
  function StringBytes(s: seq<byte>): seq<byte> {
    U32(|s|) + s
  }

  function IpBytes(lib: Library, ips: seq<Prefix>): seq<byte> {
    if ips == [] then [] else StringBytes(lib.nfc(lib.show(ips[0]))) + IpBytes(lib, ips[1..])
  }

  function PeerBytes(lib: Library, p: Peer): seq<byte> {
    p.publicKey + U32(|p.allowedIPs|) + IpBytes(lib, Sort(p.allowedIPs, IpLeq))
  }

  function PeersBytes(lib: Library, ps: seq<Peer>): seq<byte> {
    if ps == [] then [] else PeerBytes(lib, ps[0]) + PeersBytes(lib, ps[1..])
  }

  function KeyOf(p: Peer): Key {
    p.publicKey
  }

  lemma {:induction false} OrderSorts(lib: Library, ps: seq<Peer>)
    requires Sorts(lib)
    ensures var order := lib.order(Map(KeyOf, ps));
      Arranges(order, |ps|) && forall i, j :: 0 <= i < j < |ps| ==> LexLeq(KeyOf(ps[order[i]]), KeyOf(ps[order[j]]))
  {
    hide LexLeq;
    var keys := Map(KeyOf, ps);
    assert SortsKeys(lib.order(keys), keys);
  }

  function SortedPeers(lib: Library, ps: seq<Peer>): (r: seq<Peer>)
    requires Sorts(lib)
    ensures |r| == |ps|
  {
    OrderSorts(lib, ps);
    Arranged(ps, lib.order(Map(KeyOf, ps)))
  }

  function Input(lib: Library, c: Config, fixed: bool): seq<byte>
    requires Sorts(lib)
  {
    if fixed then
      AsciiBytes(FIXED_LABEL) + StringBytes(lib.nfc(c.name))
    else
      var peers := U32(|c.peers|) + PeersBytes(lib, SortedPeers(lib, c.peers));
      AsciiBytes(DETERMINISTIC_LABEL) + (StringBytes(lib.nfc(c.name)) + (lib.public(c.iface.privateKey) + peers))
  }

  /** The lengths fit into 32 bits, else the original panics; the allowed IPs are prefixes as
      netip.PrefixFrom makes them. */
  predicate Fits(lib: Library, c: Config) {
    && |lib.nfc(c.name)| < TWO_32 && |c.peers| < TWO_32
    && forall p :: p in c.peers ==> PeerFits(lib, p)
  }

  predicate PeerFits(lib: Library, p: Peer) {
    |p.allowedIPs| < TWO_32 && forall ip :: ip in p.allowedIPs ==> ValidPrefix(ip) && |lib.nfc(lib.show(ip))| < TWO_32
  }

  // ----- Reading it back -----

  lemma {:induction false} Cancel(a: seq<byte>, x: seq<byte>, b: seq<byte>, y: seq<byte>)
    requires |a| == |b| && a + x == b + y
    ensures a == b && x == y
  {
    assert a == (a + x)[..|a|] && b == (b + y)[..|b|];
    assert x == (a + x)[|a|..] && y == (b + y)[|b|..];
  }

  lemma {:induction false} CancelNumber(m: nat, x: seq<byte>, n: nat, y: seq<byte>)
    requires m < TWO_32 && n < TWO_32 && U32(m) + x == U32(n) + y
    ensures m == n && x == y
  {
    Cancel(U32(m), x, U32(n), y);
    NumberOfU32(m);
    NumberOfU32(n);
  }

  lemma {:induction false} CancelString(s: seq<byte>, x: seq<byte>, t: seq<byte>, y: seq<byte>)
    requires |s| < TWO_32 && |t| < TWO_32 && StringBytes(s) + x == StringBytes(t) + y
    ensures s == t && x == y
  {
    hide U32;
    assert StringBytes(s) + x == U32(|s|) + (s + x);
    assert StringBytes(t) + y == U32(|t|) + (t + y);
    CancelNumber(|s|, s + x, |t|, t + y);
    Cancel(s, x, t, y);
  }

  predicate IpsFit(lib: Library, ips: seq<Prefix>) {
    forall ip :: ip in ips ==> ValidPrefix(ip) && |lib.nfc(lib.show(ip))| < TWO_32
  }

  lemma {:induction false} CancelIp(lib: Library, p: Prefix, x: seq<byte>, q: Prefix, y: seq<byte>)
    requires Laws(lib) && IpsFit(lib, [p]) && IpsFit(lib, [q])
    requires StringBytes(lib.nfc(lib.show(p))) + x == StringBytes(lib.nfc(lib.show(q))) + y
    ensures p == q && x == y
  {
    hide StringBytes;
    assert p in [p] && q in [q];
    CancelString(lib.nfc(lib.show(p)), x, lib.nfc(lib.show(q)), y);
  }

  lemma {:induction false} CancelIps(lib: Library, a: seq<Prefix>, x: seq<byte>, b: seq<Prefix>, y: seq<byte>)
    requires Laws(lib) && |a| == |b| && IpsFit(lib, a) && IpsFit(lib, b)
    requires IpBytes(lib, a) + x == IpBytes(lib, b) + y
    ensures a == b && x == y
  {
    hide Laws, StringBytes;
    if a == [] {
      Cancel([], x, [], y);
    } else {
      var s, t := StringBytes(lib.nfc(lib.show(a[0]))), StringBytes(lib.nfc(lib.show(b[0])));
      assert IpBytes(lib, a) + x == s + (IpBytes(lib, a[1..]) + x);
      assert IpBytes(lib, b) + y == t + (IpBytes(lib, b[1..]) + y);
      CancelIp(lib, a[0], IpBytes(lib, a[1..]) + x, b[0], IpBytes(lib, b[1..]) + y);
      CancelIps(lib, a[1..], x, b[1..], y);
      assert a == [a[0]] + a[1..] && b == [b[0]] + b[1..];
    }
  }

  /** What counts of a peer: its key, and its allowed IPs in any order. */
  datatype View = View(key: Key, ips: multiset<Prefix>)

  function ViewOf(p: Peer): View {
    View(p.publicKey, multiset(p.allowedIPs))
  }

  function Views(ps: seq<Peer>): (r: seq<View>)
    ensures |r| == |ps| && forall i :: 0 <= i < |ps| ==> r[i] == ViewOf(ps[i])
  {
    Map(ViewOf, ps)
  }

  lemma {:induction false} CancelPeer(lib: Library, p: Peer, x: seq<byte>, q: Peer, y: seq<byte>)
    requires Laws(lib) && PeerFits(lib, p) && PeerFits(lib, q)
    requires PeerBytes(lib, p) + x == PeerBytes(lib, q) + y
    ensures ViewOf(p) == ViewOf(q) && x == y
  {
    hide Laws, IpBytes, Sort, U32, IpsFit;
    var a, b := Sort(p.allowedIPs, IpLeq), Sort(q.allowedIPs, IpLeq);
    var m, n := U32(|p.allowedIPs|), U32(|q.allowedIPs|);
    assert PeerBytes(lib, p) + x == p.publicKey + (m + (IpBytes(lib, a) + x));
    assert PeerBytes(lib, q) + y == q.publicKey + (n + (IpBytes(lib, b) + y));
    Cancel(p.publicKey, m + (IpBytes(lib, a) + x), q.publicKey, n + (IpBytes(lib, b) + y));
    CancelNumber(|p.allowedIPs|, IpBytes(lib, a) + x, |q.allowedIPs|, IpBytes(lib, b) + y);
    SortedFit(lib, p);
    SortedFit(lib, q);
    CancelIps(lib, a, x, b, y);
  }

  lemma {:induction false} SortedFit(lib: Library, p: Peer)
    requires PeerFits(lib, p)
    ensures var ips := Sort(p.allowedIPs, IpLeq);
      IpsFit(lib, ips) && |ips| == |p.allowedIPs| && multiset(ips) == multiset(p.allowedIPs)
  {
    SortKeeps(p.allowedIPs, IpLeq);
    SameElements(p.allowedIPs, Sort(p.allowedIPs, IpLeq));
    SameLength(p.allowedIPs, Sort(p.allowedIPs, IpLeq));
  }

  lemma {:induction false} CancelPeers(lib: Library, a: seq<Peer>, x: seq<byte>, b: seq<Peer>, y: seq<byte>)
    requires Laws(lib) && |a| == |b|
    requires (forall p :: p in a ==> PeerFits(lib, p)) && forall p :: p in b ==> PeerFits(lib, p)
    requires PeersBytes(lib, a) + x == PeersBytes(lib, b) + y
    ensures Views(a) == Views(b) && x == y
  {
    hide Laws, PeerFits, PeerBytes, ViewOf;
    if a == [] {
      Cancel([], x, [], y);
    } else {
      var s, t := PeerBytes(lib, a[0]), PeerBytes(lib, b[0]);
      assert PeersBytes(lib, a) + x == s + (PeersBytes(lib, a[1..]) + x);
      assert PeersBytes(lib, b) + y == t + (PeersBytes(lib, b[1..]) + y);
      CancelPeer(lib, a[0], PeersBytes(lib, a[1..]) + x, b[0], PeersBytes(lib, b[1..]) + y);
      CancelPeers(lib, a[1..], x, b[1..], y);
    }
  }

  // ----- Order does not matter -----

  predicate ViewLeq(a: View, b: View) {
    LexLeq(a.key, b.key)
  }

  lemma {:induction false} ViewOrders()
    ensures Orders(ViewLeq)
  {
    hide LexLeq;
    KeyOrders();
  }

  lemma {:induction false} SortedPeersKeep(lib: Library, ps: seq<Peer>)
    requires Sorts(lib)
    ensures var r := SortedPeers(lib, ps);
      multiset(Views(r)) == multiset(Views(ps)) && forall p :: p in r <==> p in ps
  {
    hide ViewOf, Arranges, Sorts;
    var r := SortedPeers(lib, ps);
    OrderSorts(lib, ps);
    ArrangedKeeps(ps, lib.order(Map(KeyOf, ps)));
    MapKeeps(ViewOf, r, ps);
    SameElements(r, ps);
  }

  lemma {:induction false} ViewsSorted(lib: Library, ps: seq<Peer>)
    requires Sorts(lib)
    ensures Sorted(Views(SortedPeers(lib, ps)), ViewLeq)
  {
    hide LexLeq, Sorts, Arranges;
    OrderSorts(lib, ps);
  }

  /** Peers with the same key have the same allowed IPs, in any order. */
  predicate KeysTellPeers(ps: seq<Peer>) {
    forall p, q :: p in ps && q in ps && p.publicKey == q.publicKey ==> ViewOf(p) == ViewOf(q)
  }

  /** Then there is no choice in the order of the views. */
  lemma {:induction false} ViewsSeparate(ps: seq<Peer>)
    requires KeysTellPeers(ps)
    ensures Separates(ViewLeq, Views(ps))
  {
    forall a, b | a in Views(ps) && b in Views(ps) && ViewLeq(a, b) && ViewLeq(b, a) ensures a == b {
      var i :| 0 <= i < |ps| && Views(ps)[i] == a;
      var j :| 0 <= j < |ps| && Views(ps)[j] == b;
      LexAntisymmetric(a.key, b.key);
      assert ps[i] in ps && ps[j] in ps;
    }
  }

  lemma {:induction false} SortedViews(lib: Library, a: seq<Peer>, b: seq<Peer>)
    requires Sorts(lib) && KeysTellPeers(a) && multiset(Views(a)) == multiset(Views(b))
    ensures Views(SortedPeers(lib, a)) == Views(SortedPeers(lib, b))
  {
    hide Sorts, KeysTellPeers, SortedPeers, Views, Orders, Sorted, Separates;
    var s, t := SortedPeers(lib, a), SortedPeers(lib, b);
    ViewOrders();
    ViewsSorted(lib, a);
    ViewsSorted(lib, b);
    SortedPeersKeep(lib, a);
    SortedPeersKeep(lib, b);
    ViewsSeparate(a);
    SameSeparates(Views(a), Views(s));
    SortedIsUnique(Views(s), Views(t), ViewLeq);
  }

  lemma {:induction false} SameSeparates(a: seq<View>, b: seq<View>)
    requires multiset(a) == multiset(b) && Separates(ViewLeq, a)
    ensures Separates(ViewLeq, b)
  {
    hide ViewLeq;
    SameElements(a, b);
  }

  /** The bytes of a peer depend on its view only. */
  lemma {:induction false} BytesOfView(lib: Library, p: Peer, q: Peer)
    requires ViewOf(p) == ViewOf(q) && PeerFits(lib, p)
    ensures PeerBytes(lib, p) == PeerBytes(lib, q)
  {
    hide Sort;
    IpOrders();
    SameLength(p.allowedIPs, q.allowedIPs);
    SortForgets(p.allowedIPs, q.allowedIPs, IpLeq);
  }

  lemma {:induction false} BytesOfViews(lib: Library, a: seq<Peer>, b: seq<Peer>)
    requires Views(a) == Views(b) && forall p :: p in a ==> PeerFits(lib, p)
    ensures PeersBytes(lib, a) == PeersBytes(lib, b)
  {
    hide PeerBytes, PeerFits;
    if a == [] {
    } else {
      assert Views(a)[0] == ViewOf(a[0]) && Views(b)[0] == ViewOf(b[0]);
      assert Views(a)[1..] == Views(a[1..]) && Views(b)[1..] == Views(b[1..]);
      BytesOfView(lib, a[0], b[0]);
      BytesOfViews(lib, a[1..], b[1..]);
    }
  }

  // ----- The order in which they are hashed -----

  /** IPv4 before IPv6; then the shorter prefix first; then the lower address first. */
  predicate ComesFirst(a: Prefix, b: Prefix) {
    if !a.addr.is6 && b.addr.is6 then true
    else if a.addr.is6 && !b.addr.is6 then false
    else if a.bits < b.bits then true
    else if a.bits > b.bits then false
    else a.addr.value <= b.addr.value
  }

  /** The allowed IPs of a peer are hashed in that order. */
  lemma {:induction false} IpsInOrder(ips: seq<Prefix>, i: nat, j: nat)
    requires i < j < |Sort(ips, IpLeq)|
    ensures ComesFirst(Sort(ips, IpLeq)[i], Sort(ips, IpLeq)[j])
  {
    hide Sort;
    IpOrders();
    SortSorts(ips, IpLeq);
  }

  /** The first byte in which two keys differ decides. */
  ghost predicate KeyComesFirst(a: Key, b: Key) {
    a == b || exists k :: 0 <= k < KEY_LENGTH && a[..k] == b[..k] && a[k] < b[k]
  }

  lemma {:induction false} LexLeqIsFirst(a: seq<byte>, b: seq<byte>)
    requires |a| == |b|
    ensures LexLeq(a, b) ==> a == b || exists k :: 0 <= k < |a| && a[..k] == b[..k] && a[k] < b[k]
  {
    if a == [] {
    } else if a[0] < b[0] {
      assert a[..0] == b[..0];
    } else if LexLeq(a, b) {
      var s, t := a[1..], b[1..];
      assert a == [a[0]] + s && b == [b[0]] + t;
      LexLeqIsFirst(s, t);
      if s != t {
        var k :| 0 <= k < |s| && s[..k] == t[..k] && s[k] < t[k];
        assert a[..k + 1] == [a[0]] + s[..k] && b[..k + 1] == [b[0]] + t[..k];
      }
    }
  }

  /** The peers are hashed in the order of their keys. */
  lemma {:induction false} PeersInOrder(lib: Library, ps: seq<Peer>, i: nat, j: nat)
    requires Sorts(lib) && i < j < |ps|
    ensures KeyComesFirst(SortedPeers(lib, ps)[i].publicKey, SortedPeers(lib, ps)[j].publicKey)
  {
    hide LexLeq, Sorts, Arranges;
    OrderSorts(lib, ps);
    var a, b := SortedPeers(lib, ps)[i].publicKey, SortedPeers(lib, ps)[j].publicKey;
    assert LexLeq(a, b);
    LexLeqIsFirst(a, b);
  }

  // ----- The theorem -----

  /** Same name, same key, and the same peers with the same allowed IPs, in the order in which
      they are hashed. */
  predicate SameHashed(lib: Library, c: Config, d: Config)
    requires Sorts(lib)
  {
    && lib.nfc(c.name) == lib.nfc(d.name)
    && lib.public(c.iface.privateKey) == lib.public(d.iface.privateKey)
    && Views(SortedPeers(lib, c.peers)) == Views(SortedPeers(lib, d.peers))
  }

  /** Same name, same key, and the same peers with the same allowed IPs, in any order. */
  predicate SameTunnel(lib: Library, c: Config, d: Config) {
    && lib.nfc(c.name) == lib.nfc(d.name)
    && lib.public(c.iface.privateKey) == lib.public(d.iface.privateKey)
    && multiset(Views(c.peers)) == multiset(Views(d.peers))
  }

  function PeerPart(lib: Library, c: Config): seq<byte>
    requires Sorts(lib)
  {
    U32(|c.peers|) + PeersBytes(lib, SortedPeers(lib, c.peers))
  }

  lemma {:induction false} Encodes(lib: Library, c: Config, d: Config)
    requires Sorts(lib) && Fits(lib, c) && SameHashed(lib, c, d)
    ensures Input(lib, c, false) == Input(lib, d, false)
  {
    hide Sorts, Views, PeersBytes, SortedPeers, AsciiBytes, StringBytes, U32, PeerFits;
    var s, t := SortedPeers(lib, c.peers), SortedPeers(lib, d.peers);
    SortedPeersKeep(lib, c.peers);
    SortedPeersKeep(lib, d.peers);
    assert |s| == |Views(s)| && |t| == |Views(t)|;
    BytesOfViews(lib, s, t);
  }

  /** The input can be decoded. */
  lemma {:induction false} Decodes(lib: Library, c: Config, d: Config)
    requires Sorts(lib) && Laws(lib) && Fits(lib, c) && Fits(lib, d) && Input(lib, c, false) == Input(lib, d, false)
    ensures SameHashed(lib, c, d) && SameTunnel(lib, c, d)
  {
    hide Sorts, Laws, PeersBytes, SortedPeers, AsciiBytes, Views, PeerFits, StringBytes;
    var tag := AsciiBytes(DETERMINISTIC_LABEL);
    var k, l := lib.public(c.iface.privateKey), lib.public(d.iface.privateKey);
    var x, y := PeerPart(lib, c), PeerPart(lib, d);
    Cancel(tag, StringBytes(lib.nfc(c.name)) + (k + x), tag, StringBytes(lib.nfc(d.name)) + (l + y));
    CancelString(lib.nfc(c.name), k + x, lib.nfc(d.name), l + y);
    Cancel(k, x, l, y);
    DecodesPeers(lib, c, d);
  }

  lemma {:induction false} DecodesPeers(lib: Library, c: Config, d: Config)
    requires Sorts(lib) && Laws(lib) && Fits(lib, c) && Fits(lib, d) && PeerPart(lib, c) == PeerPart(lib, d)
    ensures Views(SortedPeers(lib, c.peers)) == Views(SortedPeers(lib, d.peers))
    ensures multiset(Views(c.peers)) == multiset(Views(d.peers))
  {
    hide Sorts, Laws, PeersBytes, SortedPeers, Views, PeerFits, U32;
    var a, b := SortedPeers(lib, c.peers), SortedPeers(lib, d.peers);
    CancelNumber(|c.peers|, PeersBytes(lib, a), |d.peers|, PeersBytes(lib, b));
    SortedPeersKeep(lib, c.peers);
    SortedPeersKeep(lib, d.peers);
    assert PeersBytes(lib, a) + [] == PeersBytes(lib, a) && PeersBytes(lib, b) + [] == PeersBytes(lib, b);
    CancelPeers(lib, a, [], b, []);
  }

  /** The input is determined by, and determines, what is hashed. */
  lemma {:induction false} InputIffSameHashed(lib: Library, c: Config, d: Config)
    requires Sorts(lib) && Laws(lib) && Fits(lib, c) && Fits(lib, d)
    ensures Input(lib, c, false) == Input(lib, d, false) <==> SameHashed(lib, c, d)
  {
    hide Sorts, Laws, Fits, Input, SameHashed, SameTunnel;
    if Input(lib, c, false) == Input(lib, d, false) { Decodes(lib, c, d); }
    if SameHashed(lib, c, d) { Encodes(lib, c, d); }
  }

  /** If no key stands for two peers, the order does not matter. */
  lemma {:induction false} Forgets(lib: Library, c: Config, d: Config)
    requires Sorts(lib) && Fits(lib, c) && KeysTellPeers(c.peers) && SameTunnel(lib, c, d)
    ensures Input(lib, c, false) == Input(lib, d, false)
  {
    hide Sorts, KeysTellPeers, Views, SortedPeers, Input, Fits;
    SortedViews(lib, c.peers, d.peers);
    Encodes(lib, c, d);
  }

  /** Then the input determines the tunnel, and the tunnel determines the input. */
  lemma {:induction false} InputIffSameTunnel(lib: Library, c: Config, d: Config)
    requires Sorts(lib) && Laws(lib) && Fits(lib, c) && Fits(lib, d) && KeysTellPeers(c.peers)
    ensures Input(lib, c, false) == Input(lib, d, false) <==> SameTunnel(lib, c, d)
  {
    hide Sorts, Laws, Fits, Input, SameHashed, SameTunnel, KeysTellPeers;
    if Input(lib, c, false) == Input(lib, d, false) { Decodes(lib, c, d); }
    if SameTunnel(lib, c, d) { Forgets(lib, c, d); }
  }

  // ----- When the order of peers matters -----

  function Exchanged(c: Config, i: nat, j: nat): Config
    requires i < |c.peers| && j < |c.peers|
  {
    c.(peers := c.peers[i := c.peers[j]][j := c.peers[i]])
  }

  lemma {:induction false} ExchangedViews(ps: seq<Peer>, qs: seq<Peer>, i: nat, j: nat)
    requires i < |ps| && j < |ps| && qs == ps[i := ps[j]][j := ps[i]]
    ensures multiset(Views(qs)) == multiset(Views(ps)) && forall p :: p in qs ==> p in ps
  {
    hide ViewOf;
    var a := Views(ps);
    assert Views(qs) == a[i := a[j]][j := a[i]];
  }

  /** An exchange of peers with the same key leaves the keys and so the sorting as it was: each of
      the two takes the other's place. */
  lemma {:induction false} ExchangedPlace(lib: Library, c: Config, i: nat, j: nat)
    requires Sorts(lib) && i < |c.peers| && j < |c.peers| && c.peers[i].publicKey == c.peers[j].publicKey
    requires ViewOf(c.peers[i]) != ViewOf(c.peers[j])
    ensures Views(SortedPeers(lib, c.peers)) != Views(SortedPeers(lib, Exchanged(c, i, j).peers))
  {
    hide Sorts, ViewOf, Arranges;
    var ps, qs := c.peers, Exchanged(c, i, j).peers;
    assert Map(KeyOf, ps) == Map(KeyOf, qs);
    var order := lib.order(Map(KeyOf, ps));
    OrderSorts(lib, ps);
    var place := PlaceOf(order, |ps|, i);
    assert Views(SortedPeers(lib, ps))[place] == ViewOf(ps[i]);
    assert Views(SortedPeers(lib, qs))[place] == ViewOf(qs[i]);
  }

  /** Two peers with one key and different allowed IPs: exchanging them shows, however the peers
      are sorted. */
  lemma {:induction false} ExchangeShows(lib: Library, c: Config, i: nat, j: nat)
    requires Sorts(lib) && Laws(lib) && Fits(lib, c) && i < |c.peers| && j < |c.peers|
    requires c.peers[i].publicKey == c.peers[j].publicKey && ViewOf(c.peers[i]) != ViewOf(c.peers[j])
    ensures var d := Exchanged(c, i, j);
      Fits(lib, d) && SameTunnel(lib, c, d) && Input(lib, c, false) != Input(lib, d, false)
  {
    hide Sorts, Laws, Input, Views, SortedPeers, PeerFits;
    var d := Exchanged(c, i, j);
    ExchangedViews(c.peers, d.peers, i, j);
    ExchangedPlace(lib, c, i, j);
    if Input(lib, c, false) == Input(lib, d, false) { Decodes(lib, c, d); }
  }

  function WithPeers(c: Config, ps: seq<Peer>): Config {
    c.(peers := ps)
  }

  lemma {:induction false} OrderOfTwoShows(lib: Library, c: Config, p: Peer, q: Peer)
    requires Sorts(lib) && Laws(lib) && Fits(lib, WithPeers(c, [p, q]))
    requires p.publicKey == q.publicKey && ViewOf(p) != ViewOf(q)
    ensures SameTunnel(lib, WithPeers(c, [p, q]), WithPeers(c, [q, p]))
    ensures Input(lib, WithPeers(c, [p, q]), false) != Input(lib, WithPeers(c, [q, p]), false)
  {
    hide Sorts, Laws, Fits, Input, SameTunnel, ViewOf;
    assert Exchanged(WithPeers(c, [p, q]), 0, 1) == WithPeers(c, [q, p]);
    ExchangeShows(lib, WithPeers(c, [p, q]), 0, 1);
  }

  /** Otherwise some other order of the same peers gives another input. */
  lemma {:induction false} SomeOrderShows(lib: Library, c: Config) returns (d: Config)
    requires Sorts(lib) && Laws(lib) && Fits(lib, c) && !KeysTellPeers(c.peers)
    ensures Fits(lib, d) && SameTunnel(lib, c, d) && Input(lib, c, false) != Input(lib, d, false)
  {
    hide Sorts, Laws, Fits, Input, SameTunnel, ViewOf;
    var p, q :| p in c.peers && q in c.peers && p.publicKey == q.publicKey && ViewOf(p) != ViewOf(q);
    var i :| 0 <= i < |c.peers| && c.peers[i] == p;
    var j :| 0 <= j < |c.peers| && c.peers[j] == q;
    d := Exchanged(c, i, j);
    ExchangeShows(lib, c, i, j);
  }

  /** Whatever order the same peers come in, the input is the same. */
  ghost predicate OrderIsForgotten(lib: Library, c: Config)
    requires Sorts(lib)
  {
    forall d :: Fits(lib, d) && SameTunnel(lib, c, d) ==> Input(lib, c, false) == Input(lib, d, false)
  }

  /** That is so if and only if no key stands for two different peers. */
  lemma {:induction false} ForgetsIffKeysTellPeers(lib: Library, c: Config)
    requires Sorts(lib) && Laws(lib) && Fits(lib, c)
    ensures OrderIsForgotten(lib, c) <==> KeysTellPeers(c.peers)
  {
    hide Sorts, Laws, Fits, Input, SameTunnel, KeysTellPeers;
    if KeysTellPeers(c.peers) {
      forall d | Fits(lib, d) && SameTunnel(lib, c, d) ensures Input(lib, c, false) == Input(lib, d, false) {
        Forgets(lib, c, d);
      }
    } else {
      var d := SomeOrderShows(lib, c);
    }
  }

  /** A valid tunnel name is determined, not only its normal form. */
  lemma {:induction false} InputDeterminesName(lib: Library, c: Config, d: Config, fixed: bool)
    requires Sorts(lib) && Laws(lib) && Fits(lib, c) && Fits(lib, d) && Ascii(c.name) && Ascii(d.name)
    requires Input(lib, c, fixed) == Input(lib, d, fixed)
    ensures c.name == d.name
  {
    hide Sorts, AsciiBytes, PeersBytes, SortedPeers, PeerFits, Views, StringBytes;
    if fixed {
      var tag := AsciiBytes(FIXED_LABEL);
      Cancel(tag, StringBytes(lib.nfc(c.name)), tag, StringBytes(lib.nfc(d.name)));
      assert StringBytes(lib.nfc(c.name)) + [] == StringBytes(lib.nfc(d.name)) + [];
      CancelString(lib.nfc(c.name), [], lib.nfc(d.name), []);
    } else {
      Decodes(lib, c, d);
    }
  }

  /** The two modes never hash the same bytes. */
  lemma {:induction false} ModesDiffer(lib: Library, c: Config, d: Config)
    requires Sorts(lib)
    ensures Input(lib, c, false) != Input(lib, d, true)
  {
    hide Sorts, PeersBytes, SortedPeers, StringBytes;
    assert DETERMINISTIC_LABEL[0] == 'D' && FIXED_LABEL[0] == 'F';
    assert 'D' as int % 256 == 68 && 'F' as int % 256 == 70;
    var x, y := AsciiBytes(DETERMINISTIC_LABEL), AsciiBytes(FIXED_LABEL);
    assert Input(lib, c, false)[0] == x[0] != y[0] == Input(lib, d, true)[0];
  }

  // ----- Writing it -----

  /** The bytes given to the hash so far. */
  class Hash {
    var written: seq<byte>

    constructor ()
      ensures written == []
    {
      written := [];
    }

    method Write(s: seq<byte>)
      modifies this
      ensures written == old(written) + s
    {
      written := written + s;
    }

    method WriteNumber(n: nat)
      requires n < TWO_32
      modifies this
      ensures written == old(written) + U32(n)
    {
      Write(U32(n));
    }

    method WriteString(lib: Library, s: string)
      requires |lib.nfc(s)| < TWO_32
      modifies this
      ensures written == old(written) + StringBytes(lib.nfc(s))
    {
      var bytes := lib.nfc(s);
      WriteNumber(|bytes|);
      Write(bytes);
    }
  }

  /** deterministicGUID, up to the hash. */
  method Feed(lib: Library, c: Config, fixed: bool) returns (b2: Hash)
    requires Sorts(lib) && Fits(lib, c)
    ensures b2.written == Input(lib, c, fixed)
  {
    hide Sorts, PeersBytes, SortedPeers, PeerFits, AsciiBytes, StringBytes, U32, DETERMINISTIC_LABEL, FIXED_LABEL;
    b2 := new Hash();
    b2.Write(AsciiBytes(if fixed then FIXED_LABEL else DETERMINISTIC_LABEL));
    b2.WriteString(lib, c.name);
    if !fixed {
      b2.Write(lib.public(c.iface.privateKey));
      b2.WriteNumber(|c.peers|);
      var sortedPeers := SortedPeers(lib, c.peers);
      SortedPeersKeep(lib, c.peers);
      FeedPeers(lib, sortedPeers, b2);
      FiveParts(AsciiBytes(DETERMINISTIC_LABEL), StringBytes(lib.nfc(c.name)), lib.public(c.iface.privateKey),
        U32(|c.peers|), PeersBytes(lib, sortedPeers));
    }
  }

  lemma {:induction false} FiveParts(a: seq<byte>, b: seq<byte>, c: seq<byte>, d: seq<byte>, e: seq<byte>)
    ensures [] + a + b + c + d + e == a + (b + (c + (d + e)))
  {
  }

  method FeedPeers(lib: Library, sortedPeers: seq<Peer>, b2: Hash)
    requires forall p :: p in sortedPeers ==> PeerFits(lib, p)
    modifies b2
    ensures b2.written == old(b2.written) + PeersBytes(lib, sortedPeers)
  {
    hide PeerBytes, PeerFits;
    for i := 0 to |sortedPeers|
      invariant b2.written == old(b2.written) + PeersBytes(lib, sortedPeers[..i])
    {
      assert sortedPeers[..i + 1] == sortedPeers[..i] + [sortedPeers[i]];
      PeersBytesAppend(lib, sortedPeers[..i], sortedPeers[i]);
      FeedPeer(lib, sortedPeers[i], b2);
    }
    assert sortedPeers[..|sortedPeers|] == sortedPeers;
  }

  method FeedPeer(lib: Library, peer: Peer, b2: Hash)
    requires PeerFits(lib, peer)
    modifies b2
    ensures b2.written == old(b2.written) + PeerBytes(lib, peer)
  {
    hide Sort, StringBytes, IpsFit, IpBytes, U32;
    b2.Write(peer.publicKey);
    b2.WriteNumber(|peer.allowedIPs|);
    var sortedAllowedIPs := Sort(peer.allowedIPs, IpLeq);
    SortedFit(lib, peer);
    FeedIps(lib, sortedAllowedIPs, b2);
    FourParts(old(b2.written), peer.publicKey, U32(|peer.allowedIPs|), IpBytes(lib, sortedAllowedIPs));
  }

  lemma {:induction false} FourParts(a: seq<byte>, b: seq<byte>, c: seq<byte>, d: seq<byte>)
    ensures a + b + c + d == a + (b + c + d)
  {
  }

  method FeedIps(lib: Library, sortedAllowedIPs: seq<Prefix>, b2: Hash)
    requires IpsFit(lib, sortedAllowedIPs)
    modifies b2
    ensures b2.written == old(b2.written) + IpBytes(lib, sortedAllowedIPs)
  {
    hide StringBytes, IpsFit;
    for i := 0 to |sortedAllowedIPs|
      invariant b2.written == old(b2.written) + IpBytes(lib, sortedAllowedIPs[..i])
    {
      assert sortedAllowedIPs[..i + 1] == sortedAllowedIPs[..i] + [sortedAllowedIPs[i]];
      IpBytesAppend(lib, sortedAllowedIPs[..i], sortedAllowedIPs[i]);
      OneFits(lib, sortedAllowedIPs, i);
      b2.WriteString(lib, lib.show(sortedAllowedIPs[i]));
    }
    assert sortedAllowedIPs[..|sortedAllowedIPs|] == sortedAllowedIPs;
  }

  lemma {:induction false} OneFits(lib: Library, ips: seq<Prefix>, i: nat)
    requires IpsFit(lib, ips) && i < |ips|
    ensures |lib.nfc(lib.show(ips[i]))| < TWO_32
  {
    assert ips[i] in ips;
  }

  lemma {:induction false} PeersBytesAppend(lib: Library, ps: seq<Peer>, p: Peer)
    ensures PeersBytes(lib, ps + [p]) == PeersBytes(lib, ps) + PeerBytes(lib, p)
  {
    hide PeerBytes;
    if ps == [] {
      assert [p][1..] == [];
    } else {
      assert (ps + [p])[1..] == ps[1..] + [p];
      PeersBytesAppend(lib, ps[1..], p);
    }
  }

  lemma {:induction false} IpBytesAppend(lib: Library, ips: seq<Prefix>, ip: Prefix)
    ensures IpBytes(lib, ips + [ip]) == IpBytes(lib, ips) + StringBytes(lib.nfc(lib.show(ip)))
  {
    hide StringBytes;
    if ips == [] {
      assert [ip][1..] == [];
    } else {
      assert (ips + [ip])[1..] == ips[1..] + [ip];
      IpBytesAppend(lib, ips[1..], ip);
    }
  }
}
