/**
 * The runtime view of a userspace tunnel (conf/uapi.go), read from the device's answer: peers
 * in any order, brought into the stored order with their stored WebSocket settings; and its
 * redacted form (conf/config.go).
 */
module Uapi {
  import opened Text
  import opened Config
  import opened Bytes
  import opened Sorting
  import opened WgQuickParser

  /** The keys of the answer; those that are read and ignored count as one. */
  datatype Name =
    | Errno | PrivateKeyName | ListenPortName | IgnoredInterface
    | PublicKeyName | PresharedKeyName | ProtocolVersion | AllowedIPName | KeepaliveName | EndpointName
    | TxBytes | RxBytes | HandshakeSec | HandshakeNsec | IgnoredPeer | Unknown

  function NameOf(s: string): Name {
    if s == "errno" then Errno
    else if s == "private_key" then PrivateKeyName
    else if s == "listen_port" then ListenPortName
    else if s in ["fwmark", "ws_listen", "ws_server_tls_cert", "ws_server_tls_key", "ws_server_bearer",
                  "ws_trusted_proxies"] then
      IgnoredInterface
    else if s == "public_key" then PublicKeyName
    else PeerNameOf(s)
  }

  function PeerNameOf(s: string): Name {
    if s == "preshared_key" then PresharedKeyName
    else if s == "protocol_version" then ProtocolVersion
    else if s == "allowed_ip" then AllowedIPName
    else if s == "persistent_keepalive_interval" then KeepaliveName
    else if s == "endpoint" then EndpointName
    else if s == "tx_bytes" then TxBytes
    else if s == "rx_bytes" then RxBytes
    else if s == "last_handshake_time_sec" then HandshakeSec
    else if s == "last_handshake_time_nsec" then HandshakeNsec
    else if s in ["transport", "ws_url", "wstunnel_target", "ws_bearer", "ws_mask", "ws_tls_ca", "ws_tls_cert",
                  "ws_tls_key", "ws_tls_insecure", "ws_ping_interval", "ws_backoff_min", "ws_backoff_max"] then
      IgnoredPeer
    else Unknown
  }

  /** hex.DecodeString is a parameter. */
  type Hex = string -> Option<seq<byte>>

  function ParseKeyHex(hex: Hex, s: string): Result<Key> {
    var k := hex(s);
    if k.None? || |k.value| != KEY_LENGTH then Err(InvalidKey) else Ok(k.value)
  }

  const SECOND := 1_000_000_000

  const NEW_SEEN := Seen(EMPTY_PEER, 0, 0, 0)

  // ----- Merging -----

  function WithWS(p: Peer, stored: Peer): Peer {
    p.(wsMode := stored.wsMode, wsURL := stored.wsURL, wsTunnelTarget := stored.wsTunnelTarget,
       wsBearer := stored.wsBearer,
       wsMask := stored.wsMask, wsTLSCA := stored.wsTLSCA, wsTLSCert := stored.wsTLSCert, wsTLSKey := stored.wsTLSKey,
       wsTLSInsecure := stored.wsTLSInsecure, wsPingInterval := stored.wsPingInterval,
       wsBackoffMin := stored.wsBackoffMin, wsBackoffMax := stored.wsBackoffMax)
  }

  /** The WebSocket settings of the first stored peer with the key. */
  function Merged(p: Seen, stored: seq<Peer>): Seen {
    if stored == [] then p
    else if stored[0].publicKey == p.peer.publicKey then p.(peer := WithWS(p.peer, stored[0]))
    else Merged(p, stored[1..])
  }

  // ----- Reading -----

  /** `done` are the peers read, `peer` the one being read. */
  datatype Progress = Progress(iface: Interface, done: seq<Seen>, peer: Option<Seen>)

  /** addPeer. */
  function AddPeer(s: Progress, stored: seq<Peer>): Progress {
    if s.peer.None? then s else s.(done := s.done + [Merged(s.peer.value, stored)], peer := None)
  }

  function InterfaceField(hex: Hex, s: Progress, name: Name, val: string): Result<Progress> {
    match name
    case PrivateKeyName =>
      var k :- ParseKeyHex(hex, val);
      Ok(s.(iface := s.iface.(privateKey := k)))
    case ListenPortName =>
      var p :- ParsePort(val);
      Ok(s.(iface := s.iface.(listenPort := p)))
    case IgnoredInterface => Ok(s)
    case _ => Err(InvalidInterfaceKey)
  }

  function ParseStamp(val: string): Result<nat> {
    var n := ParseUint(val, MAX_UINT64);
    if n.None? then Err(InvalidStamp) else Ok(n.value)
  }

  function PeerField(cx: Codecs, hex: Hex, s: Seen, name: Name, val: string): Result<Seen> {
    var p := s.peer;
    match name
    case PublicKeyName =>
      var k :- ParseKeyHex(hex, val);
      Ok(s.(peer := p.(publicKey := k)))
    case PresharedKeyName =>
      var k :- ParseKeyHex(hex, val);
      Ok(s.(peer := p.(presharedKey := k)))
    case ProtocolVersion => if val != "1" then Err(InvalidProtocolVersion) else Ok(s)
    case AllowedIPName =>
      var a :- ParseIPCidr(cx, val);
      Ok(s.(peer := p.(allowedIPs := p.allowedIPs + [a])))
    case KeepaliveName =>
      var k :- ParseKeepalive(val);
      Ok(s.(peer := p.(persistentKeepalive := k)))
    case EndpointName =>
      var e :- ParseEndpoint(cx, val);
      Ok(s.(peer := p.(endpoint := e)))
    case TxBytes =>
      var n :- ParseStamp(val);
      Ok(s.(txBytes := n))
    case RxBytes =>
      var n :- ParseStamp(val);
      Ok(s.(rxBytes := n))
    case HandshakeSec =>
      var n :- ParseStamp(val);
      Ok(s.(lastHandshake := Wrap64(s.lastHandshake + Wrap64(Wrap64(n) * SECOND))))
    case HandshakeNsec =>
      var n :- ParseStamp(val);
      Ok(s.(lastHandshake := Wrap64(s.lastHandshake + Wrap64(n))))
    case IgnoredPeer => Ok(s)
    case _ => Err(InvalidPeerKey)
  }

  /** One line. The interface part lasts until the first public key. */
  function Step(cx: Codecs, hex: Hex, stored: seq<Peer>, s: Progress, line: string): Result<Progress> {
    var cut := Cut(line, '=');
    var name := NameOf(cut.before);
    if !cut.found then Err(MissingEquals)
    else if name == Errno then if cut.after != "0" then Err(GetFailed) else Ok(s)
    else
      var s1 := if name == PublicKeyName then AddPeer(s, stored).(peer := Some(NEW_SEEN)) else s;
      if s1.peer.None? then InterfaceField(hex, s1, name, cut.after)
      else
        var p :- PeerField(cx, hex, s1.peer.value, name, cut.after);
        Ok(s1.(peer := Some(p)))
  }

  /** The lines up to an empty one. */
  function Read(cx: Codecs, hex: Hex, stored: seq<Peer>, s: Progress, text: string): Result<Progress>
    decreases |text|
  {
    var cut := Cut(text, '\n');
    if !cut.found then Err(EndOfInput)
    else if cut.before == "" then Ok(AddPeer(s, stored))
    else
      var s1 :- Step(cx, hex, stored, s, cut.before);
      Read(cx, hex, stored, s1, cut.after)
  }

  /** The place of a key: the last stored peer with it, or behind all. */
  function Place(stored: seq<Peer>, key: Key): (i: nat)
    ensures i <= |stored|
    ensures i < |stored| ==> stored[i].publicKey == key
    ensures forall j :: 0 <= j < |stored| && stored[j].publicKey == key ==> j <= i < |stored|
  {
    PlaceBelow(stored, key, |stored|)
  }

  function PlaceBelow(stored: seq<Peer>, key: Key, n: nat): (i: nat)
    requires n <= |stored|
    ensures i < n || i == |stored|
    ensures i < |stored| ==> stored[i].publicKey == key
    ensures forall j :: 0 <= j < n && stored[j].publicKey == key ==> j <= i < n
  {
    if n == 0 then |stored|
    else if stored[n - 1].publicKey == key then n - 1
    else PlaceBelow(stored, key, n - 1)
  }

  function KeyOf(p: Peer): Key {
    p.publicKey
  }

  function SeenKey(p: Seen): Key {
    p.peer.publicKey
  }

  function InOrder(stored: seq<Peer>): (Seen, Seen) -> bool {
    (a, b) => Place(stored, SeenKey(a)) <= Place(stored, SeenKey(b))
  }

  function Start(existing: Config): Progress {
    Progress(existing.iface.(privateKey := ZeroKey(), listenPort := 0, comments := NO_SECTION_COMMENTS), [], None)
  }

  /** FromUAPI, as a function of the answer. */
  function Runtime(cx: Codecs, hex: Hex, text: string, existing: Config): Result<RuntimeConfig> {
    var s :- Read(cx, hex, existing.peers, Start(existing), text);
    Ok(RuntimeConfig(existing.name, s.iface, Sort(s.done, InOrder(existing.peers))))
  }

  function Settings(c: RuntimeConfig): Config {
    Config(c.name, c.iface, Map((p: Seen) => p.peer, c.peers), [])
  }

  // ----- What the answer lists -----

  /** The public key on a line. */
  function KeyOn(hex: Hex, line: string): seq<Key> {
    var field := Cut(line, '=');
    if NameOf(field.before) == PublicKeyName && ParseKeyHex(hex, field.after).Ok? then
      [ParseKeyHex(hex, field.after).value]
    else []
  }

  /** The public keys in the answer, in order. */
  function Listed(hex: Hex, text: string): seq<Key>
    decreases |text|
  {
    var cut := Cut(text, '\n');
    if !cut.found || cut.before == "" then [] else KeyOn(hex, cut.before) + Listed(hex, cut.after)
  }

  function KeysOf(s: Progress): seq<Key> {
    Map(SeenKey, s.done) + if s.peer.Some? then [SeenKey(s.peer.value)] else []
  }

  lemma {:induction false} MergedKey(p: Seen, stored: seq<Peer>)
    ensures SeenKey(Merged(p, stored)) == SeenKey(p)
  {
    if stored == [] {
    } else {
      MergedKey(p, stored[1..]);
    }
  }

  lemma {:induction false} AddPeerKeys(s: Progress, stored: seq<Peer>)
    ensures KeysOf(AddPeer(s, stored)) == KeysOf(s) && AddPeer(s, stored).peer.None?
  {
    if s.peer.Some? {
      MergedKey(s.peer.value, stored);
      MapAppend(SeenKey, s.done, [Merged(s.peer.value, stored)]);
    }
  }

  lemma {:induction false} PeerFieldKey(cx: Codecs, hex: Hex, p: Seen, name: Name, val: string)
    requires PeerField(cx, hex, p, name, val).Ok?
    ensures SeenKey(PeerField(cx, hex, p, name, val).value)
      == if name == PublicKeyName then ParseKeyHex(hex, val).value else SeenKey(p)
    ensures name == PublicKeyName ==> ParseKeyHex(hex, val).Ok?
  {
  }

  lemma {:induction false} StepKeys(cx: Codecs, hex: Hex, stored: seq<Peer>, s: Progress, line: string)
    requires Step(cx, hex, stored, s, line).Ok?
    ensures KeysOf(Step(cx, hex, stored, s, line).value) == KeysOf(s) + KeyOn(hex, line)
  {
    hide NameOf, PeerField, AddPeer, ParseKeyHex;
    var field := Cut(line, '=');
    var name := NameOf(field.before);
    AddPeerKeys(s, stored);
    var s1 := if name == PublicKeyName then AddPeer(s, stored).(peer := Some(NEW_SEEN)) else s;
    if name != Errno && s1.peer.Some? {
      PeerFieldKey(cx, hex, s1.peer.value, name, field.after);
    }
  }

  lemma {:induction false} ReadKeys(cx: Codecs, hex: Hex, stored: seq<Peer>, s: Progress, text: string)
    requires Read(cx, hex, stored, s, text).Ok?
    ensures var r := Read(cx, hex, stored, s, text).value; Map(SeenKey, r.done) == KeysOf(s) + Listed(hex, text)
    decreases |text|
  {
    hide Step, AddPeer, KeysOf, KeyOn;
    var cut := Cut(text, '\n');
    if cut.before == "" {
      AddPeerKeys(s, stored);
      DoneKeys(AddPeer(s, stored));
      assert KeysOf(s) + [] == KeysOf(s);
    } else {
      var s1 := Step(cx, hex, stored, s, cut.before).value;
      var k, ks := KeyOn(hex, cut.before), Listed(hex, cut.after);
      StepKeys(cx, hex, stored, s, cut.before);
      ReadKeys(cx, hex, stored, s1, cut.after);
      assert (KeysOf(s) + k) + ks == KeysOf(s) + (k + ks);
    }
  }

  lemma {:induction false} DoneKeys(s: Progress)
    requires s.peer.None?
    ensures KeysOf(s) == Map(SeenKey, s.done)
  {
  }

  // ----- Stored settings -----

  predicate SameWS(p: Peer, q: Peer) {
    WithWS(p, q) == p
  }

  /** A peer with a stored key has the settings stored with it. */
  predicate HasStoredWS(p: Seen, stored: seq<Peer>) {
    forall q :: q in stored && q.publicKey == p.peer.publicKey ==> SameWS(p.peer, q)
  }

  lemma {:induction false} MergedWS(p: Seen, stored: seq<Peer>)
    requires DistinctKeys(stored)
    ensures HasStoredWS(Merged(p, stored), stored)
  {
    if stored == [] {
    } else {
      MergedKey(p, stored);
      assert stored == [stored[0]] + stored[1..];
      if stored[0].publicKey == p.peer.publicKey {
        assert forall q :: q in stored[1..] ==> q.publicKey != p.peer.publicKey;
      } else {
        MergedWS(p, stored[1..]);
      }
    }
  }

  lemma {:induction false} StepWS(cx: Codecs, hex: Hex, stored: seq<Peer>, s: Progress, line: string)
    requires DistinctKeys(stored) && Step(cx, hex, stored, s, line).Ok?
    requires forall p :: p in s.done ==> HasStoredWS(p, stored)
    ensures forall p :: p in Step(cx, hex, stored, s, line).value.done ==> HasStoredWS(p, stored)
  {
    hide NameOf, PeerField, HasStoredWS, Merged, DistinctKeys;
    if s.peer.Some? { MergedWS(s.peer.value, stored); }
  }

  lemma {:induction false} ReadWS(cx: Codecs, hex: Hex, stored: seq<Peer>, s: Progress, text: string)
    requires DistinctKeys(stored) && Read(cx, hex, stored, s, text).Ok?
    requires forall p :: p in s.done ==> HasStoredWS(p, stored)
    ensures forall p :: p in Read(cx, hex, stored, s, text).value.done ==> HasStoredWS(p, stored)
    decreases |text|
  {
    hide Step, HasStoredWS, Merged, DistinctKeys;
    var cut := Cut(text, '\n');
    if cut.before == "" {
      if s.peer.Some? { MergedWS(s.peer.value, stored); }
    } else {
      StepWS(cx, hex, stored, s, cut.before);
      ReadWS(cx, hex, stored, Step(cx, hex, stored, s, cut.before).value, cut.after);
    }
  }

  // ----- The stored order -----

  predicate KeysInOrder(stored: seq<Peer>, a: Key, b: Key) {
    Place(stored, a) <= Place(stored, b)
  }

  lemma {:induction false} PlaceOf(stored: seq<Peer>, i: nat)
    requires DistinctKeys(stored) && i < |stored|
    ensures Place(stored, stored[i].publicKey) == i
  {
    var j := Place(stored, stored[i].publicKey);
    assert i <= j < |stored| && stored[j].publicKey == stored[i].publicKey;
  }

  lemma {:induction false} StoredIsSorted(stored: seq<Peer>)
    requires DistinctKeys(stored)
    ensures var leq := (a, b) => KeysInOrder(stored, a, b);
      Sorted(Map(KeyOf, stored), leq) && Separates(leq, Map(KeyOf, stored))
  {
    hide Place, DistinctKeys;
    var leq := (a, b) => KeysInOrder(stored, a, b);
    var keys := Map(KeyOf, stored);
    forall i, j | 0 <= i < j < |keys| ensures leq(keys[i], keys[j]) {
      PlaceOf(stored, i);
      PlaceOf(stored, j);
    }
    forall a, b | a in keys && b in keys && leq(a, b) && leq(b, a) ensures a == b {
      var i :| 0 <= i < |keys| && keys[i] == a;
      var j :| 0 <= j < |keys| && keys[j] == b;
      PlaceOf(stored, i);
      PlaceOf(stored, j);
    }
  }

  lemma {:induction false} PlacesOrder(stored: seq<Peer>)
    ensures Orders(InOrder(stored)) && Orders((a, b) => KeysInOrder(stored, a, b))
  {
    hide Place;
  }

  lemma {:induction false} SortedKeys(stored: seq<Peer>, ps: seq<Seen>)
    requires DistinctKeys(stored) && multiset(Map(SeenKey, ps)) == multiset(Map(KeyOf, stored))
    ensures Map(SeenKey, Sort(ps, InOrder(stored))) == Map(KeyOf, stored)
  {
    hide Place, DistinctKeys, Sort;
    var leq := (a, b) => KeysInOrder(stored, a, b);
    var r := Sort(ps, InOrder(stored));
    PlacesOrder(stored);
    SortSorts(ps, InOrder(stored));
    SortKeeps(ps, InOrder(stored));
    MapKeeps(SeenKey, r, ps);
    StoredIsSorted(stored);
    assert Sorted(Map(SeenKey, r), leq) by {
      assert Sorted(r, InOrder(stored));
    }
    SortedIsUnique(Map(KeyOf, stored), Map(SeenKey, r), leq);
  }

  /** When the device lists the stored peers in any order, the peer at every position is the
      stored peer of that position, with its WebSocket settings. */
  lemma {:induction false} StoredOrder(cx: Codecs, hex: Hex, text: string, existing: Config)
    requires DistinctKeys(existing.peers) && Runtime(cx, hex, text, existing).Ok?
    requires multiset(Listed(hex, text)) == multiset(Map(KeyOf, existing.peers))
    ensures var peers := Runtime(cx, hex, text, existing).value.peers;
      && |peers| == |existing.peers|
      && multiset(peers) == multiset(Read(cx, hex, existing.peers, Start(existing), text).value.done)
      && forall i :: 0 <= i < |peers| ==>
        SeenKey(peers[i]) == existing.peers[i].publicKey && SameWS(peers[i].peer, existing.peers[i])
  {
    hide Read, Listed, DistinctKeys, Sort, SameWS;
    var stored := existing.peers;
    var done := Read(cx, hex, stored, Start(existing), text).value.done;
    ReadKeys(cx, hex, stored, Start(existing), text);
    assert KeysOf(Start(existing)) + Listed(hex, text) == Listed(hex, text);
    SortedKeys(stored, done);
    ReadWS(cx, hex, stored, Start(existing), text);
    var peers := Sort(done, InOrder(stored));
    assert |peers| == |Map(SeenKey, peers)| == |stored|;
    SortKeeps(done, InOrder(stored));
    SameElements(done, peers);
    forall i | 0 <= i < |peers| ensures SeenKey(peers[i]) == stored[i].publicKey && SameWS(peers[i].peer, stored[i]) {
      assert Map(SeenKey, peers)[i] == Map(KeyOf, stored)[i];
      assert peers[i] in peers && HasStoredWS(peers[i], stored) && stored[i] in stored;
    }
  }

  // ----- Redaction -----

  /** The key that stands for a position. */
  function PositionKey(i: nat): (k: Key) {
    LittleEndian(i, 8) + Zeros(24)
  }

  function RedactedPeer(p: Peer, i: nat): Peer {
    p.(publicKey := PositionKey(i), presharedKey := ZeroKey(), wsBearer := "", comments := NO_SECTION_COMMENTS)
  }

  function Redacted(c: Config): Config {
    Config(c.name,
      c.iface.(privateKey := ZeroKey(), preUp := "", postUp := "", preDown := "", postDown := "",
        comments := NO_SECTION_COMMENTS),
      seq(|c.peers|, i requires 0 <= i < |c.peers| => RedactedPeer(c.peers[i], i)), [])
  }

  /** What of a peer may be shown. */
  predicate SameShownPeer(p: Peer, q: Peer) {
    && p.allowedIPs == q.allowedIPs && p.endpoint == q.endpoint && p.persistentKeepalive == q.persistentKeepalive
    && p.wsMode == q.wsMode && p.wsURL == q.wsURL && p.wsTunnelTarget == q.wsTunnelTarget && p.wsMask == q.wsMask
    && p.wsTLSCA == q.wsTLSCA && p.wsTLSCert == q.wsTLSCert && p.wsTLSKey == q.wsTLSKey
    && p.wsTLSInsecure == q.wsTLSInsecure && p.wsPingInterval == q.wsPingInterval
    && p.wsBackoffMin == q.wsBackoffMin && p.wsBackoffMax == q.wsBackoffMax
  }

  /** And of a configuration: no private key, script or comment. */
  predicate SameShown(c: Config, d: Config) {
    && c.name == d.name && c.iface.addresses == d.iface.addresses && c.iface.listenPort == d.iface.listenPort
    && c.iface.mtu == d.iface.mtu && c.iface.dns == d.iface.dns && c.iface.dnsSearch == d.iface.dnsSearch
    && c.iface.tableOff == d.iface.tableOff && |c.peers| == |d.peers|
    && forall i :: 0 <= i < |c.peers| ==> SameShownPeer(c.peers[i], d.peers[i])
  }

  lemma {:induction false} RedactedPeerHides(p: Peer, q: Peer, i: nat)
    ensures RedactedPeer(p, i) == RedactedPeer(q, i) <==> SameShownPeer(p, q)
  {
    hide PositionKey;
  }

  /** Redaction shows that and nothing else: two configurations have the same redacted form if and
      only if they agree on what may be shown, whatever their keys, scripts, bearers and comments. */
  lemma {:induction false} RedactionHides(c: Config, d: Config)
    ensures Redacted(c) == Redacted(d) <==> SameShown(c, d)
  {
    hide RedactedPeer, SameShownPeer;
    var ps, qs := Redacted(c).peers, Redacted(d).peers;
    if |c.peers| == |d.peers| {
      forall i | 0 <= i < |c.peers| ensures ps[i] == qs[i] <==> SameShownPeer(c.peers[i], d.peers[i]) {
        RedactedPeerHides(c.peers[i], d.peers[i], i);
      }
    }
    if SameShown(c, d) { assert ps == qs; }
  }

  lemma {:induction false} PositionKeysDiffer(i: nat, j: nat)
    requires i <= MAX_UINT64 && j <= MAX_UINT64 && PositionKey(i) == PositionKey(j)
    ensures i == j
  {
    Powers();
    assert Power256(8) == 256 * 256 * Power256(6) && Power256(6) == 256 * 256 * Power256(4);
    assert PositionKey(i)[..8] == LittleEndian(i, 8) && PositionKey(j)[..8] == LittleEndian(j, 8);
    NumberOfLittleEndian(i, 8);
    NumberOfLittleEndian(j, 8);
  }

  /** After redaction on both sides, equal keys mean the same peer. */
  lemma {:induction false} RedactedKeysMatch(cx: Codecs, hex: Hex, text: string, existing: Config, i: nat, j: nat)
    requires DistinctKeys(existing.peers) && Runtime(cx, hex, text, existing).Ok?
    requires multiset(Listed(hex, text)) == multiset(Map(KeyOf, existing.peers)) && |existing.peers| <= MAX_UINT64
    requires i < |Runtime(cx, hex, text, existing).value.peers| && j < |existing.peers|
    ensures var c := Runtime(cx, hex, text, existing).value;
      Redacted(Settings(c)).peers[i].publicKey == Redacted(existing).peers[j].publicKey <==>
      SeenKey(c.peers[i]) == existing.peers[j].publicKey
  {
    hide Runtime, Listed, SameWS, PositionKey;
    var c := Runtime(cx, hex, text, existing).value;
    StoredOrder(cx, hex, text, existing);
    if PositionKey(i) == PositionKey(j) { PositionKeysDiffer(i, j); }
  }

  // ----- The loops -----

  /** FromUAPI, line by line. */
  method FromUAPI(cx: Codecs, hex: Hex, text: string, existing: Config) returns (r: Result<RuntimeConfig>)
    ensures r == Runtime(cx, hex, text, existing)
  {
    hide Step, AddPeer, Sort;
    var s := Start(existing);
    var rest := text;
    while true
      invariant Read(cx, hex, existing.peers, s, rest) == Read(cx, hex, existing.peers, Start(existing), text)
      decreases |rest|
    {
      var line := Cut(rest, '\n');
      if !line.found {
        return Err(EndOfInput);
      }
      if line.before == "" {
        break;
      }
      var next := Step(cx, hex, existing.peers, s, line.before);
      if next.Err? {
        return Err(next.error);
      }
      s, rest := next.value, line.after;
    }
    s := AddPeer(s, existing.peers);
    r := Ok(RuntimeConfig(existing.name, s.iface, Sort(s.done, InOrder(existing.peers))));
  }

  /** The loop of Redact, in place. */
  method RedactPeers(peers: array<Peer>)
    modifies peers
    ensures forall i :: 0 <= i < peers.Length ==> peers[i] == RedactedPeer(old(peers[i]), i)
  {
    hide RedactedPeer;
    for i := 0 to peers.Length
      invariant forall j :: 0 <= j < peers.Length ==> peers[j] == if j < i then RedactedPeer(old(peers[j]), j)
        else old(peers[j])
    {
      peers[i] := RedactedPeer(peers[i], i);
    }
  }
}
