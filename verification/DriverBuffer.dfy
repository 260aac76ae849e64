/**
 * The flat buffer in which a configuration goes to the driver and comes back
 * (driver/configuration_windows.go, conf/writer.go, conf/parser.go): one interface record,
 * then every peer record followed by its allowed IP records. Sizes and offsets are those of
 * the 64-bit layout.
 */
module DriverBuffer {
  import opened Text
  import opened Netip
  import opened Config
  import opened Bytes
  import opened WgQuickParser

  const INTERFACE_SIZE := 80
  const PEER_SIZE := 136
  const IP_SIZE := 24
  const SOCKADDR_SIZE := 28

  const AF_INET := 2
  const AF_INET6 := 23

  const INTERFACE_HAS_PRIVATE_KEY := 2
  const INTERFACE_HAS_LISTEN_PORT := 4

  const PEER_HAS_PUBLIC_KEY := 1
  const PEER_HAS_PRESHARED_KEY := 2
  const PEER_HAS_KEEPALIVE := 4
  const PEER_HAS_ENDPOINT := 8

  predicate HasFlag(flags: nat, bit: nat)
    requires bit > 0
  {
    flags / bit % 2 == 1
  }

  // ----- Allowed IPs -----

  /** netip.Addr.AsSlice. */
  function AddrBytes(a: Addr): (s: seq<byte>)
    ensures |s| == if a.is6 then 16 else 4
  {
    BigEndian(a.value, if a.is6 then 16 else 4)
  }

  function AddrOf(s: seq<byte>): Addr {
    Addr(|s| == 16, BigNumber(s), "")
  }

  function Family(a: Addr): nat {
    if a.is6 then AF_INET6 else AF_INET
  }

  function IpRecord(p: Prefix): (r: seq<byte>)
    ensures |r| == IP_SIZE
  {
    AddrBytes(p.addr) + Zeros(16 - |AddrBytes(p.addr)|) + U16(Family(p.addr))
    + LittleEndian(p.bits, 1) + Zeros(1) + U32(0)
  }

  function ReadIp(r: seq<byte>): Prefix
    requires |r| == IP_SIZE
  {
    var family := Number(r[16..18]);
    if family == AF_INET then PrefixFrom(AddrOf(r[..4]), Number(r[18..19]))
    else if family == AF_INET6 then PrefixFrom(AddrOf(r[..16]), Number(r[18..19]))
    else INVALID_PREFIX
  }

  lemma {:induction false} AddrRoundTrip(a: Addr)
    requires ValidAddr(a)
    ensures AddrOf(AddrBytes(a)) == a.(zone := "")
  {
    Powers();
    BigNumberOfBigEndian(a.value, if a.is6 then 16 else 4);
  }

  lemma {:induction false} IpFields(p: Prefix)
    ensures var r, a := IpRecord(p), AddrBytes(p.addr);
      r[..|a|] == a && r[16..18] == U16(Family(p.addr)) && r[18..19] == LittleEndian(p.bits, 1)
  {
    hide LittleEndian, BigEndian, U16, U32, AddrBytes;
    var a := AddrBytes(p.addr);
    IpParts(a, Zeros(16 - |a|), U16(Family(p.addr)), LittleEndian(p.bits, 1), Zeros(1), U32(0));
  }

  lemma {:induction false} IpParts(a: seq<byte>, pad: seq<byte>, family: seq<byte>, bits: seq<byte>, z: seq<byte>,
                                   flags: seq<byte>)
    requires |a| + |pad| == 16 && |family| == 2 && |bits| == |z| == 1
    ensures var r := a + pad + family + bits + z + flags;
      r[..|a|] == a && r[16..18] == family && r[18..19] == bits
  {
  }

  lemma {:induction false} IpRoundTrip(p: Prefix)
    requires ValidPrefix(p)
    ensures ReadIp(IpRecord(p)) == p
  {
    hide LittleEndian, BigEndian, U16, U32, Number, BigNumber, AddrBytes, AddrOf, IpRecord;
    IpFields(p);
    Powers();
    NumberOfU16(Family(p.addr));
    NumberOfLittleEndian(p.bits, 1);
    AddrRoundTrip(p.addr);
  }

  // ----- Endpoints -----

  /** The scope a zone stands for: a number, or none. */
  function Scope(zone: string): nat {
    if zone == "" then 0
    else
      var n := ParseUint(zone, TWO_32 - 1);
      if n.Some? then n.value else 0
  }

  /** What is left of an address: the zone only as a number. */
  function Scoped(a: Addr): Addr {
    a.(zone := if a.is6 && Scope(a.zone) != 0 then Itoa(Scope(a.zone)) else "")
  }

  /** RawSockaddrInet.SetAddrPort; the port is in network order. */
  function SockaddrRecord(a: Addr, port: nat): (r: seq<byte>)
    ensures |r| == SOCKADDR_SIZE
  {
    if a.is6 then U16(AF_INET6) + BigEndian(port, 2) + U32(0) + AddrBytes(a) + U32(Scope(a.zone))
    else U16(AF_INET) + BigEndian(port, 2) + AddrBytes(a) + Zeros(8) + Zeros(12)
  }

  /** RawSockaddrInet.Addr. Neither family leaves the zero Addr, which prints "invalid IP". */
  function ReadAddr(r: seq<byte>): Option<Addr>
    requires |r| == SOCKADDR_SIZE
  {
    var family := Number(r[..2]);
    if family == AF_INET then Some(AddrOf(r[4..8]))
    else if family == AF_INET6 then
      var scope := Number(r[24..28]);
      Some(AddrOf(r[8..24]).(zone := if scope != 0 then Itoa(scope) else ""))
    else None
  }

  function ReadPort(r: seq<byte>): nat
    requires |r| == SOCKADDR_SIZE
  {
    var family := Number(r[..2]);
    if family == AF_INET || family == AF_INET6 then BigNumber(r[2..4]) else 0
  }

  lemma {:induction false} SockaddrRoundTrip(a: Addr, port: nat)
    requires ValidAddr(a) && port < TWO_16
    ensures ReadAddr(SockaddrRecord(a, port)) == Some(Scoped(a)) && ReadPort(SockaddrRecord(a, port)) == port
  {
    hide Itoa, Number, BigNumber, LittleEndian, BigEndian, AddrOf;
    Powers();
    BigNumberOfBigEndian(port, 2);
    AddrRoundTrip(a);
    if a.is6 { Sockaddr6(a, port); } else { Sockaddr4(a, port); }
  }

  lemma {:induction false} Sockaddr6(a: Addr, port: nat)
    requires a.is6
    ensures var r := SockaddrRecord(a, port);
      && Number(r[..2]) == AF_INET6 && r[2..4] == BigEndian(port, 2)
      && r[8..24] == AddrBytes(a) && Number(r[24..28]) == Scope(a.zone)
  {
    hide Number, LittleEndian, BigEndian, U16, U32, AddrBytes, Scope;
    Sockaddr6Parts(U16(AF_INET6), BigEndian(port, 2), U32(0), AddrBytes(a), U32(Scope(a.zone)));
    NumberOfU16(AF_INET6);
    ScopeFits(a.zone);
    NumberOfU32(Scope(a.zone));
  }

  lemma {:induction false} ScopeFits(zone: string)
    ensures Scope(zone) < TWO_32
  {
  }

  lemma {:induction false} Sockaddr6Parts(f: seq<byte>, p: seq<byte>, flow: seq<byte>, b: seq<byte>, s: seq<byte>)
    requires |f| == |p| == 2 && |flow| == 4 && |b| == 16 && |s| == 4
    ensures var r := f + p + flow + b + s; r[..2] == f && r[2..4] == p && r[8..24] == b && r[24..28] == s
  {
  }

  lemma {:induction false} Sockaddr4(a: Addr, port: nat)
    requires !a.is6
    ensures var r := SockaddrRecord(a, port);
      Number(r[..2]) == AF_INET && r[2..4] == BigEndian(port, 2) && r[4..8] == AddrBytes(a)
  {
    hide Number, LittleEndian, BigEndian, U16, AddrBytes;
    Sockaddr4Parts(U16(AF_INET), BigEndian(port, 2), AddrBytes(a), Zeros(8), Zeros(12));
    NumberOfU16(AF_INET);
  }

  lemma {:induction false} Sockaddr4Parts(f: seq<byte>, p: seq<byte>, b: seq<byte>, z: seq<byte>, pad: seq<byte>)
    requires |f| == |p| == 2 && |b| == 4
    ensures var r := f + p + b + z + pad; r[..2] == f && r[2..4] == p && r[4..8] == b
  {
  }

  // ----- Peers -----

  /** The address of the endpoint, if the host is one. */
  function EndpointAddr(cx: Codecs, e: HostPort): Option<Addr> {
    if e.host == "" then None else cx.parseAddr(e.host)
  }

  function PeerFlags(cx: Codecs, p: Peer): nat {
    PEER_HAS_PUBLIC_KEY + PEER_HAS_KEEPALIVE
      + (if p.presharedKey != ZeroKey() then PEER_HAS_PRESHARED_KEY else 0)
      + (if EndpointAddr(cx, p.endpoint).Some? then PEER_HAS_ENDPOINT else 0)
  }

  function EndpointRecord(cx: Codecs, p: Peer): (r: seq<byte>)
    ensures |r| == SOCKADDR_SIZE
  {
    var a := EndpointAddr(cx, p.endpoint);
    if a.Some? then SockaddrRecord(a.value, p.endpoint.port) else Zeros(SOCKADDR_SIZE)
  }

  /** Flags, both keys, keepalive and endpoint; then the counters, here zero, and the number of
      allowed IPs. */
  function PeerRecord(cx: Codecs, p: Peer): (r: seq<byte>)
    ensures |r| == PEER_SIZE
  {
    U32(PeerFlags(cx, p)) + Zeros(4) + p.publicKey + p.presharedKey + U16(p.persistentKeepalive) + Zeros(2)
    + EndpointRecord(cx, p) + Zeros(24) + U32(|p.allowedIPs|) + Zeros(4)
  }

  function IpRecords(ips: seq<Prefix>): (r: seq<byte>)
    ensures |r| == IP_SIZE * |ips|
  {
    if ips == [] then [] else IpRecord(ips[0]) + IpRecords(ips[1..])
  }

  function PeerRecords(cx: Codecs, ps: seq<Peer>): seq<byte> {
    if ps == [] then [] else PeerRecord(cx, ps[0]) + IpRecords(ps[0].allowedIPs) + PeerRecords(cx, ps[1..])
  }

  /** Flags, port and private key; no public key; then the number of peers. */
  function InterfaceRecord(c: Config): (r: seq<byte>)
    ensures |r| == INTERFACE_SIZE
  {
    U32(INTERFACE_HAS_PRIVATE_KEY + INTERFACE_HAS_LISTEN_PORT) + U16(c.iface.listenPort) + c.iface.privateKey
    + Zeros(34) + U32(|c.peers|) + Zeros(4)
  }

  function Buffer(cx: Codecs, c: Config): seq<byte> {
    InterfaceRecord(c) + PeerRecords(cx, c.peers)
  }

  // ----- The walk -----

  function IpCount(buf: seq<byte>, peer: nat): nat
    requires peer + PEER_SIZE <= |buf|
  {
    Number(buf[peer + 128..peer + 132])
  }

  function NextPeer(buf: seq<byte>, peer: nat): nat
    requires peer + PEER_SIZE <= |buf|
  {
    peer + PEER_SIZE + IpCount(buf, peer) * IP_SIZE
  }

  /** The next n peers lie within the buffer. */
  predicate Inside(buf: seq<byte>, peer: nat, n: nat)
    decreases n
  {
    n == 0 || (peer + PEER_SIZE <= |buf| && NextPeer(buf, peer) <= |buf| && Inside(buf, NextPeer(buf, peer), n - 1))
  }

  function ReadIps(buf: seq<byte>, ip: nat, n: nat): seq<Prefix>
    requires ip + n * IP_SIZE <= |buf|
    decreases n
  {
    if n == 0 then [] else [ReadIp(buf[ip..ip + IP_SIZE])] + ReadIps(buf, ip + IP_SIZE, n - 1)
  }

  function ReadEndpoint(cx: Codecs, r: seq<byte>): HostPort
    requires |r| == SOCKADDR_SIZE
  {
    var a := ReadAddr(r);
    HostPort(if a.Some? then cx.showAddr(a.value) else "invalid IP", ReadPort(r))
  }

  const UNIX_EPOCH := 116_444_736_000_000_000

  /** From the driver's clock, in units of 100 ns since 1601, to nanoseconds since 1970. */
  function HandshakeTime(n: nat): int {
    if n == 0 then 0 else Wrap64((n - UNIX_EPOCH) * 100)
  }

  function ReadPeerRecord(cx: Codecs, r: seq<byte>, ips: seq<Prefix>): Seen
    requires |r| == PEER_SIZE
  {
    Seen(ReadSettings(cx, r, ips), Number(r[104..112]), Number(r[112..120]), HandshakeTime(Number(r[120..128])))
  }

  function ReadSettings(cx: Codecs, r: seq<byte>, ips: seq<Prefix>): Peer
    requires |r| == PEER_SIZE
  {
    var flags := Number(r[..4]);
    EMPTY_PEER.(
      publicKey := if HasFlag(flags, PEER_HAS_PUBLIC_KEY) then r[8..40] else ZeroKey(),
      presharedKey := if HasFlag(flags, PEER_HAS_PRESHARED_KEY) then r[40..72] else ZeroKey(),
      endpoint := if HasFlag(flags, PEER_HAS_ENDPOINT) then ReadEndpoint(cx, r[76..104]) else NO_ENDPOINT,
      persistentKeepalive := if HasFlag(flags, PEER_HAS_KEEPALIVE) then Number(r[72..74]) else 0,
      allowedIPs := ips)
  }

  function ReadPeer(cx: Codecs, buf: seq<byte>, peer: nat): Seen
    requires peer + PEER_SIZE <= |buf| && NextPeer(buf, peer) <= |buf|
  {
    ReadPeerRecord(cx, buf[peer..peer + PEER_SIZE], ReadIps(buf, peer + PEER_SIZE, IpCount(buf, peer)))
  }

  function ReadPeers(cx: Codecs, buf: seq<byte>, peer: nat, n: nat): seq<Seen>
    requires Inside(buf, peer, n)
    decreases n
  {
    if n == 0 then [] else [ReadPeer(cx, buf, peer)] + ReadPeers(cx, buf, NextPeer(buf, peer), n - 1)
  }

  function PeerCount(buf: seq<byte>): nat
    requires |buf| >= INTERFACE_SIZE
  {
    Number(buf[72..76])
  }

  predicate WellFormed(buf: seq<byte>) {
    |buf| >= INTERFACE_SIZE && Inside(buf, INTERFACE_SIZE, PeerCount(buf))
  }

  function ReadInterface(buf: seq<byte>, existing: Interface): Interface
    requires |buf| >= INTERFACE_SIZE
  {
    var flags := Number(buf[..4]);
    existing.(
      privateKey := if HasFlag(flags, INTERFACE_HAS_PRIVATE_KEY) then buf[6..38] else ZeroKey(),
      listenPort := if HasFlag(flags, INTERFACE_HAS_LISTEN_PORT) then Number(buf[4..6]) else 0,
      comments := NO_SECTION_COMMENTS)
  }

  function ReadConfig(cx: Codecs, buf: seq<byte>, existing: Config): RuntimeConfig
    requires WellFormed(buf)
  {
    RuntimeConfig(existing.name, ReadInterface(buf, existing.iface), ReadPeers(cx, buf, INTERFACE_SIZE, PeerCount(buf)))
  }

  // ----- What survives -----

  /** The driver knows addresses, not host names, and nothing of WebSocket. */
  function SurvivingEndpoint(cx: Codecs, e: HostPort): HostPort {
    var a := EndpointAddr(cx, e);
    if a.Some? then HostPort(cx.showAddr(Scoped(a.value)), e.port) else NO_ENDPOINT
  }

  function Surviving(cx: Codecs, p: Peer): Seen {
    Seen(EMPTY_PEER.(publicKey := p.publicKey, presharedKey := p.presharedKey, allowedIPs := p.allowedIPs,
           endpoint := SurvivingEndpoint(cx, p.endpoint), persistentKeepalive := p.persistentKeepalive), 0, 0, 0)
  }

  function SurvivingPeers(cx: Codecs, ps: seq<Peer>): (r: seq<Seen>)
    ensures |r| == |ps|
  {
    if ps == [] then [] else [Surviving(cx, ps[0])] + SurvivingPeers(cx, ps[1..])
  }

  /** The widths of the original's integers, and the codec's addresses. */
  ghost predicate PeerOk(cx: Codecs, p: Peer) {
    && p.persistentKeepalive < TWO_16 && p.endpoint.port < TWO_16 && |p.allowedIPs| < TWO_32
    && (forall ip :: ip in p.allowedIPs ==> ValidPrefix(ip))
    && (EndpointAddr(cx, p.endpoint).Some? ==> ValidAddr(EndpointAddr(cx, p.endpoint).value))
  }

  /** Where the parts of a peer record are. */
  lemma {:induction false} PeerParts(flags: seq<byte>, z: seq<byte>, public: seq<byte>, psk: seq<byte>,
                                     keepalive: seq<byte>, pad: seq<byte>, endpoint: seq<byte>, counters: seq<byte>,
                                     ips: seq<byte>, end: seq<byte>)
    requires |flags| == |z| == |ips| == 4 && |public| == |psk| == 32 && |keepalive| == |pad| == 2
    requires |endpoint| == SOCKADDR_SIZE && |counters| == 24
    ensures var r := flags + z + public + psk + keepalive + pad + endpoint + counters + ips + end;
      && r[..4] == flags && r[8..40] == public && r[40..72] == psk && r[72..74] == keepalive
      && r[76..104] == endpoint && r[104..128] == counters && r[128..132] == ips
  {
  }

  lemma {:induction false} PeerFields(cx: Codecs, p: Peer)
    ensures var r := PeerRecord(cx, p);
      && r[..4] == U32(PeerFlags(cx, p)) && r[8..40] == p.publicKey && r[40..72] == p.presharedKey
      && r[72..74] == U16(p.persistentKeepalive) && r[76..104] == EndpointRecord(cx, p)
      && r[104..128] == Zeros(24) && r[128..132] == U32(|p.allowedIPs|)
  {
    hide PeerFlags, EndpointRecord, LittleEndian, U16, U32, Zeros;
    PeerParts(U32(PeerFlags(cx, p)), Zeros(4), p.publicKey, p.presharedKey, U16(p.persistentKeepalive), Zeros(2),
      EndpointRecord(cx, p), Zeros(24), U32(|p.allowedIPs|), Zeros(4));
  }

  lemma {:induction false} PeerNumbers(cx: Codecs, p: Peer)
    requires PeerOk(cx, p)
    ensures var r := PeerRecord(cx, p);
      && Number(r[..4]) == PeerFlags(cx, p) && Number(r[72..74]) == p.persistentKeepalive
      && Number(r[128..132]) == |p.allowedIPs|
  {
    hide PeerRecord, EndpointRecord, LittleEndian, U16, U32, Number;
    PeerFields(cx, p);
    NumberOfU32(PeerFlags(cx, p));
    NumberOfU16(p.persistentKeepalive);
    NumberOfU32(|p.allowedIPs|);
  }

  lemma {:induction false} NumberOfZeros(n: nat)
    ensures Number(Zeros(n)) == 0
  {
    if n == 0 {
      assert Zeros(n) == [];
    } else {
      assert Zeros(n)[1..] == Zeros(n - 1);
      NumberOfZeros(n - 1);
    }
  }

  lemma {:induction false} PeerCounters(cx: Codecs, p: Peer)
    ensures var r := PeerRecord(cx, p); Number(r[104..112]) == Number(r[112..120]) == Number(r[120..128]) == 0
  {
    hide PeerRecord, EndpointRecord, LittleEndian, U16, U32, Number, PeerFlags;
    var r := PeerRecord(cx, p);
    PeerFields(cx, p);
    ThreeZeros(r);
    NumberOfZeros(8);
  }

  lemma {:induction false} ThreeZeros(r: seq<byte>)
    requires |r| == PEER_SIZE && r[104..128] == Zeros(24)
    ensures r[104..112] == r[112..120] == r[120..128] == Zeros(8)
  {
    forall i | 104 <= i < 128 ensures r[i] == 0 { assert r[i] == r[104..128][i - 104]; }
  }

  /** A record as the driver fills it in: the counters, and the time in units of 100 ns since 1601,
      stand where the zeros were. */
  function FilledRecord(cx: Codecs, p: Peer, sent: nat, received: nat, time: nat): (r: seq<byte>)
    ensures |r| == PEER_SIZE
  {
    PeerRecord(cx, p)[..104] + (LittleEndian(sent, 8) + LittleEndian(received, 8) + LittleEndian(time, 8))
    + PeerRecord(cx, p)[128..]
  }

  lemma {:induction false} FilledParts(r: seq<byte>, a: seq<byte>, b: seq<byte>, c: seq<byte>)
    requires |r| == PEER_SIZE && |a| == |b| == |c| == 8
    ensures var f := r[..104] + (a + b + c) + r[128..];
      && |f| == PEER_SIZE && f[..104] == r[..104] && f[104..112] == a && f[112..120] == b && f[120..128] == c
  {
  }

  lemma {:induction false} SameFields(r: seq<byte>, f: seq<byte>)
    requires |r| == |f| == PEER_SIZE && r[..104] == f[..104]
    ensures r[..4] == f[..4] && r[8..40] == f[8..40] && r[40..72] == f[40..72] && r[72..74] == f[72..74]
    ensures r[76..104] == f[76..104]
  {
    forall i | 0 <= i < 104 ensures r[i] == f[i] { assert r[i] == r[..104][i] && f[i] == f[..104][i]; }
  }

  lemma {:induction false} Power256Of8()
    ensures Power256(8) == MAX_UINT64 + 1
  {
    Powers();
    assert Power256(6) == 256 * 256 * Power256(4);
    assert Power256(8) == 256 * 256 * Power256(6);
  }

  /** The counters read are the ones filled in, each from its own place; 100 nanoseconds make a unit
      of time, which is a 64-bit integer from 1970 on. */
  lemma {:induction false} FilledRoundTrip(cx: Codecs, p: Peer, sent: nat, received: nat, time: nat)
    requires PeerOk(cx, p) && sent <= MAX_UINT64 && received <= MAX_UINT64 && time <= MAX_UINT64
    ensures var q := ReadPeerRecord(cx, FilledRecord(cx, p, sent, received, time), p.allowedIPs);
      && q.peer == Surviving(cx, p).peer && q.txBytes == sent && q.rxBytes == received
      && q.lastHandshake == if time == 0 then 0 else Wrap64((time - 116_444_736_000_000_000) * 100)
  {
    hide PeerRecord, Number, LittleEndian, HasFlag, ReadEndpoint, Wrap64, Surviving;
    var r, f := PeerRecord(cx, p), FilledRecord(cx, p, sent, received, time);
    FilledParts(r, LittleEndian(sent, 8), LittleEndian(received, 8), LittleEndian(time, 8));
    SameFields(r, f);
    PeerRoundTrip(cx, p);
    Power256Of8();
    NumberOfLittleEndian(sent, 8);
    NumberOfLittleEndian(received, 8);
    NumberOfLittleEndian(time, 8);
  }

  lemma {:induction false} FlagsAreRead(cx: Codecs, p: Peer)
    ensures var f := PeerFlags(cx, p);
      && HasFlag(f, PEER_HAS_PUBLIC_KEY) && HasFlag(f, PEER_HAS_KEEPALIVE)
      && (HasFlag(f, PEER_HAS_PRESHARED_KEY) <==> p.presharedKey != ZeroKey())
      && (HasFlag(f, PEER_HAS_ENDPOINT) <==> EndpointAddr(cx, p.endpoint).Some?)
  {
    hide EndpointAddr, ZeroKey;
  }

  lemma {:induction false} PeerRoundTrip(cx: Codecs, p: Peer)
    requires PeerOk(cx, p)
    ensures ReadPeerRecord(cx, PeerRecord(cx, p), p.allowedIPs) == Surviving(cx, p)
  {
    hide PeerRecord, Number, HasFlag, PeerFlags, SockaddrRecord, ReadAddr, ReadPort, Scoped, EndpointAddr;
    PeerFields(cx, p);
    PeerNumbers(cx, p);
    PeerCounters(cx, p);
    FlagsAreRead(cx, p);
    var a := EndpointAddr(cx, p.endpoint);
    if a.Some? { SockaddrRoundTrip(a.value, p.endpoint.port); }
  }

  // ----- The round trip -----

  lemma {:induction false} WalkIps(before: seq<byte>, ips: seq<Prefix>, after: seq<byte>)
    requires forall ip :: ip in ips ==> ValidPrefix(ip)
    ensures ReadIps(before + IpRecords(ips) + after, |before|, |ips|) == ips
    decreases |ips|
  {
    hide ReadIp, IpRecord;
    if ips == [] {
    } else {
      var buf, r, rest := before + IpRecords(ips) + after, IpRecord(ips[0]), IpRecords(ips[1..]);
      assert buf == before + r + (rest + after);
      SubSlice(before, r, rest + after, 0, IP_SIZE);
      assert r[0..IP_SIZE] == r;
      IpRoundTrip(ips[0]);
      assert buf == (before + r) + rest + after;
      WalkIps(before + r, ips[1..], after);
    }
  }

  /** Where the walk over n peers ends. */
  function End(buf: seq<byte>, peer: nat, n: nat): nat
    requires Inside(buf, peer, n)
    decreases n
  {
    if n == 0 then peer else End(buf, NextPeer(buf, peer), n - 1)
  }

  lemma {:induction false} WalkPeer(cx: Codecs, before: seq<byte>, p: Peer, after: seq<byte>)
    requires PeerOk(cx, p)
    ensures var buf := before + (PeerRecord(cx, p) + IpRecords(p.allowedIPs)) + after;
      && NextPeer(buf, |before|) == |before + (PeerRecord(cx, p) + IpRecords(p.allowedIPs))|
      && ReadPeer(cx, buf, |before|) == Surviving(cx, p)
  {
    hide PeerRecord, IpRecords, ReadIps, ReadPeerRecord, Surviving, Number;
    var r, ips := PeerRecord(cx, p), IpRecords(p.allowedIPs);
    var buf := before + (r + ips) + after;
    assert buf == before + r + (ips + after) == (before + r) + ips + after;
    SubSlice(before, r, ips + after, 128, 132);
    SubSlice(before, r, ips + after, 0, PEER_SIZE);
    assert r[0..PEER_SIZE] == r;
    PeerNumbers(cx, p);
    WalkIps(before + r, p.allowedIPs, after);
    PeerRoundTrip(cx, p);
  }

  lemma {:induction false} WalkPeers(cx: Codecs, before: seq<byte>, ps: seq<Peer>, after: seq<byte>)
    requires forall p :: p in ps ==> PeerOk(cx, p)
    ensures var buf := before + PeerRecords(cx, ps) + after;
      && Inside(buf, |before|, |ps|)
      && ReadPeers(cx, buf, |before|, |ps|) == SurvivingPeers(cx, ps)
      && End(buf, |before|, |ps|) == |before| + |PeerRecords(cx, ps)|
    decreases |ps|
  {
    hide PeerOk, PeerRecord, IpRecords, ReadPeer, Surviving, NextPeer;
    if ps == [] {
    } else {
      var buf := before + PeerRecords(cx, ps) + after;
      var r, rest := PeerRecord(cx, ps[0]) + IpRecords(ps[0].allowedIPs), PeerRecords(cx, ps[1..]);
      assert buf == before + r + (rest + after) == (before + r) + rest + after;
      WalkPeer(cx, before, ps[0], rest + after);
      WalkPeers(cx, before + r, ps[1..], after);
    }
  }

  /** The bytes a configuration needs. */
  function Size(ps: seq<Peer>): nat {
    if ps == [] then 0 else PEER_SIZE + IP_SIZE * |ps[0].allowedIPs| + Size(ps[1..])
  }

  lemma {:induction false} SizeOfRecords(cx: Codecs, ps: seq<Peer>)
    ensures |PeerRecords(cx, ps)| == Size(ps)
  {
    hide PeerRecord, IpRecords;
    if ps == [] {
    } else {
      SizeOfRecords(cx, ps[1..]);
    }
  }

  ghost predicate ConfigOk(cx: Codecs, c: Config) {
    && c.iface.listenPort < TWO_16
    && INTERFACE_SIZE + Size(c.peers) < TWO_32
    && forall p :: p in c.peers ==> PeerOk(cx, p)
  }

  lemma {:induction false} PeersFit(ps: seq<Peer>)
    ensures |ps| <= Size(ps)
  {
    if ps == [] {
    } else {
      PeersFit(ps[1..]);
    }
  }

  lemma {:induction false} InterfaceFields(c: Config)
    ensures var r := InterfaceRecord(c);
      && r[0..4] == U32(INTERFACE_HAS_PRIVATE_KEY + INTERFACE_HAS_LISTEN_PORT) && r[4..6] == U16(c.iface.listenPort)
      && r[6..38] == c.iface.privateKey && r[72..76] == U32(|c.peers|)
  {
    hide LittleEndian, U16, U32, Zeros;
    InterfaceParts(U32(INTERFACE_HAS_PRIVATE_KEY + INTERFACE_HAS_LISTEN_PORT), U16(c.iface.listenPort),
      c.iface.privateKey, Zeros(34), U32(|c.peers|), Zeros(4));
  }

  lemma {:induction false} InterfaceParts(flags: seq<byte>, port: seq<byte>, key: seq<byte>, z: seq<byte>,
                                          peers: seq<byte>, end: seq<byte>)
    requires |flags| == |peers| == 4 && |port| == 2 && |key| == 32 && |z| == 34
    ensures var r := flags + port + key + z + peers + end;
      r[0..4] == flags && r[4..6] == port && r[6..38] == key && r[72..76] == peers
  {
  }

  lemma {:induction false} InterfaceRoundTrip(c: Config, rest: seq<byte>)
    requires c.iface.listenPort < TWO_16 && |c.peers| < TWO_32
    ensures var buf := InterfaceRecord(c) + rest;
      ReadInterface(buf, c.iface) == c.iface.(comments := NO_SECTION_COMMENTS) && PeerCount(buf) == |c.peers|
  {
    hide LittleEndian, U16, U32, Number, InterfaceRecord;
    var r := InterfaceRecord(c);
    InterfaceFields(c);
    assert r + rest == [] + r + rest;
    SubSlice([], r, rest, 0, 4);
    SubSlice([], r, rest, 4, 6);
    SubSlice([], r, rest, 6, 38);
    SubSlice([], r, rest, 72, 76);
    NumberOfU32(INTERFACE_HAS_PRIVATE_KEY + INTERFACE_HAS_LISTEN_PORT);
    NumberOfU16(c.iface.listenPort);
    NumberOfU32(|c.peers|);
  }

  /** Walking the buffer of a configuration stays inside, ends at its end, and gives back the
      interface and every peer with its allowed IPs, in order. */
  lemma {:induction false} BufferRoundTrip(cx: Codecs, c: Config)
    requires ConfigOk(cx, c)
    ensures var buf := Buffer(cx, c);
      && WellFormed(buf)
      && End(buf, INTERFACE_SIZE, PeerCount(buf)) == |buf| == INTERFACE_SIZE + Size(c.peers)
      && ReadConfig(cx, buf, c)
        == RuntimeConfig(c.name, c.iface.(comments := NO_SECTION_COMMENTS), SurvivingPeers(cx, c.peers))
  {
    hide PeerOk, PeerRecords, ReadPeers, SurvivingPeers, ReadInterface, PeerCount, Inside, End, InterfaceRecord;
    var buf := Buffer(cx, c);
    assert buf == InterfaceRecord(c) + PeerRecords(cx, c.peers) + [];
    PeersFit(c.peers);
    InterfaceRoundTrip(c, PeerRecords(cx, c.peers));
    WalkPeers(cx, InterfaceRecord(c), c.peers, []);
    SizeOfRecords(cx, c.peers);
  }

  // ----- Building and reading -----

  class ConfigBuilder {
    var buffer: Option<seq<byte>>
    /** The capacity asked for. */
    var reserved: nat

    constructor ()
      ensures buffer == None && reserved == 0
    {
      buffer := None;
      reserved := 0;
    }

    function Bytes(): seq<byte>
      reads this
    {
      if buffer.Some? then buffer.value else []
    }

    method Preallocate(size: nat)
      modifies this
      ensures if old(buffer).None? then buffer == Some([]) && reserved == size
        else buffer == old(buffer) && reserved == old(reserved)
    {
      if buffer.None? {
        buffer := Some([]);
        reserved := size;
      }
    }

    method Append(record: seq<byte>)
      modifies `buffer
      ensures buffer == Some(old(Bytes()) + record)
    {
      buffer := Some(Bytes() + record);
    }
  }

  method Preallocation(peers: seq<Peer>) returns (preallocation: nat)
    ensures preallocation == INTERFACE_SIZE + Size(peers)
  {
    preallocation := INTERFACE_SIZE + |peers| * PEER_SIZE;
    for i := 0 to |peers|
      invariant preallocation + Size(peers[i..]) == INTERFACE_SIZE + Size(peers) + (|peers| - i) * PEER_SIZE
    {
      assert peers[i..][1..] == peers[i + 1..];
      preallocation := preallocation + |peers[i].allowedIPs| * IP_SIZE;
    }
  }

  /** ToDriverConfiguration: the buffer, and the size that was reserved for it. */
  method ToDriver(cx: Codecs, c: Config) returns (buffer: seq<byte>, reserved: nat)
    requires ConfigOk(cx, c)
    ensures buffer == Buffer(cx, c)
    ensures reserved == |buffer|
  {
    hide PeerOk, PeerRecords, InterfaceRecord;
    var preallocation := Preallocation(c.peers);
    var b := new ConfigBuilder();
    b.Preallocate(preallocation % TWO_32);
    b.Append(InterfaceRecord(c));
    AppendPeers(cx, c.peers, b);
    SizeOfRecords(cx, c.peers);
    buffer, reserved := b.Bytes(), b.reserved;
  }

  method AppendPeers(cx: Codecs, peers: seq<Peer>, b: ConfigBuilder)
    modifies b`buffer
    ensures b.Bytes() == old(b.Bytes()) + PeerRecords(cx, peers)
  {
    hide PeerRecord, IpRecords, PeerRecords;
    ghost var goal := b.Bytes() + PeerRecords(cx, peers);
    assert peers[0..] == peers;
    for i := 0 to |peers|
      invariant b.Bytes() + PeerRecords(cx, peers[i..]) == goal
    {
      var p := peers[i];
      NextRecord(cx, peers, i);
      Regroup(b.Bytes(), PeerRecord(cx, p) + IpRecords(p.allowedIPs), PeerRecords(cx, peers[i + 1..]));
      AppendPeer(cx, p, b);
    }
    NoRecords(cx, peers[|peers|..]);
  }

  lemma {:induction false} NextRecord(cx: Codecs, ps: seq<Peer>, i: nat)
    requires i < |ps|
    ensures PeerRecords(cx, ps[i..])
      == (PeerRecord(cx, ps[i]) + IpRecords(ps[i].allowedIPs)) + PeerRecords(cx, ps[i + 1..])
  {
    hide PeerRecord, IpRecords;
    assert ps[i..][1..] == ps[i + 1..];
  }

  lemma {:induction false} NoRecords(cx: Codecs, ps: seq<Peer>)
    requires |ps| == 0
    ensures PeerRecords(cx, ps) == []
  {
  }

  lemma {:induction false} Regroup(a: seq<byte>, x: seq<byte>, y: seq<byte>)
    ensures a + (x + y) == (a + x) + y
  {
  }

  method AppendPeer(cx: Codecs, p: Peer, b: ConfigBuilder)
    modifies b`buffer
    ensures b.Bytes() == old(b.Bytes()) + (PeerRecord(cx, p) + IpRecords(p.allowedIPs))
  {
    hide PeerRecord, IpRecord;
    b.Append(PeerRecord(cx, p));
    ghost var before := b.Bytes();
    for j := 0 to |p.allowedIPs|
      invariant b.Bytes() + IpRecords(p.allowedIPs[j..]) == before + IpRecords(p.allowedIPs)
    {
      assert p.allowedIPs[j..][1..] == p.allowedIPs[j + 1..];
      b.Append(IpRecord(p.allowedIPs[j]));
    }
    assert p.allowedIPs[|p.allowedIPs|..] == [];
    assert before + IpRecords(p.allowedIPs) == old(b.Bytes()) + (PeerRecord(cx, p) + IpRecords(p.allowedIPs));
  }

  /** FromDriverConfiguration. */
  method FromDriver(cx: Codecs, buf: seq<byte>, existing: Config) returns (c: RuntimeConfig)
    requires WellFormed(buf)
    ensures c == ReadConfig(cx, buf, existing)
  {
    hide ReadPeer, Number;
    var n := PeerCount(buf);
    var peers: seq<Seen> := [];
    var p: Option<nat> := None;
    for i := 0 to n
      invariant p.Some? ==> p.value + PEER_SIZE <= |buf|
      invariant var at := if p.None? then INTERFACE_SIZE else NextPeer(buf, p.value);
        Inside(buf, at, n - i) && peers + ReadPeers(cx, buf, at, n - i) == ReadPeers(cx, buf, INTERFACE_SIZE, n)
    {
      p := Some(if p.None? then INTERFACE_SIZE else NextPeer(buf, p.value));
      var peer := FromDriverPeer(cx, buf, p.value);
      peers := peers + [peer];
    }
    c := RuntimeConfig(existing.name, ReadInterface(buf, existing.iface), peers);
  }

  method FromDriverPeer(cx: Codecs, buf: seq<byte>, p: nat) returns (peer: Seen)
    requires p + PEER_SIZE <= |buf| && NextPeer(buf, p) <= |buf|
    ensures peer == ReadPeer(cx, buf, p)
  {
    hide Number, ReadIp, ReadPeerRecord;
    var ips := FromDriverIps(buf, p + PEER_SIZE, IpCount(buf, p));
    peer := ReadPeerRecord(cx, buf[p..p + PEER_SIZE], ips);
  }

  method FromDriverIps(buf: seq<byte>, first: nat, n: nat) returns (ips: seq<Prefix>)
    requires first + n * IP_SIZE <= |buf|
    ensures ips == ReadIps(buf, first, n)
  {
    hide ReadIp;
    ips := [];
    var a := first;
    for j := 0 to n
      invariant a == first + j * IP_SIZE && a + (n - j) * IP_SIZE <= |buf|
      invariant ips + ReadIps(buf, a, n - j) == ReadIps(buf, first, n)
    {
      ips := ips + [ReadIp(buf[a..a + IP_SIZE])];
      a := a + IP_SIZE;
    }
  }

  /** Configuring the driver and asking it back, on one buffer. */
  method ThereAndBack(cx: Codecs, c: Config) returns (r: RuntimeConfig)
    requires ConfigOk(cx, c)
    ensures r == RuntimeConfig(c.name, c.iface.(comments := NO_SECTION_COMMENTS), SurvivingPeers(cx, c.peers))
  {
    hide Buffer, WellFormed, ReadConfig, ConfigOk, SurvivingPeers;
    var buffer, reserved := ToDriver(cx, c);
    BufferRoundTrip(cx, c);
    r := FromDriver(cx, buffer, c);
  }
}
