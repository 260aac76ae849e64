/**
 * What the device's answer says (conf/uapi.go), in terms of its lines: the lines before the first
 * public key speak about the interface, and every public key begins the lines of one peer.
 */
module UapiMeaning {
  import opened Text
  import opened Netip
  import opened Config
  import opened Entries
  import opened Sorting
  import opened WgQuickParser
  import opened Uapi

  // ----- Parts of an answer -----

  function EntryOf(line: string): Entry {
    Entry(Cut(line, '=').before, Cut(line, '=').after)
  }

  /** The lines up to an empty one. */
  function Answer(text: string): seq<Entry>
    decreases |text|
  {
    var cut := Cut(text, '\n');
    if !cut.found || cut.before == "" then [] else [EntryOf(cut.before)] + Answer(cut.after)
  }

  /** The lines up to the next public key. */
  function Until(es: seq<Entry>): seq<Entry> {
    if es == [] || es[0].key == "public_key" then [] else [es[0]] + Until(es[1..])
  }

  /** The lines of every peer. */
  function Blocks(es: seq<Entry>): seq<seq<Entry>> {
    if es == [] then []
    else (if es[0].key == "public_key" then [[es[0]] + Until(es[1..])] else []) + Blocks(es[1..])
  }

  // ----- What the lines say -----

  predicate ReadsHex(hex: Hex, v: Option<string>, before: Key, after: Key) {
    if v.None? then after == before else hex(v.value) == Some(after)
  }

  predicate ReadsHostPort(cx: Codecs, v: Option<string>, before: HostPort, after: HostPort) {
    if v.None? then after == before else ParseEndpoint(cx, v.value) == Ok(after)
  }

  function NumberOn(val: string): nat {
    if AllDigits(val) then Digits(val) else 0
  }

  /** All the seconds and nanoseconds together, in nanoseconds. */
  function Nanoseconds(es: seq<Entry>): nat {
    if es == [] then 0
    else
      var n := NumberOn(es[0].val);
      (if es[0].key == "last_handshake_time_sec" then n * 1_000_000_000
       else if es[0].key == "last_handshake_time_nsec" then n else 0) + Nanoseconds(es[1..])
  }

  /** What lines make of the settings of a peer. */
  predicate SettingsSay(cx: Codecs, hex: Hex, es: seq<Entry>, p: Peer, q: Peer) {
    && ReadsHex(hex, Last(es, "public_key"), p.publicKey, q.publicKey)
    && ReadsHex(hex, Last(es, "preshared_key"), p.presharedKey, q.presharedKey)
    && Appended(cx, Values(es, "allowed_ip"), p.allowedIPs, q.allowedIPs)
    && ReadsHostPort(cx, Last(es, "endpoint"), p.endpoint, q.endpoint)
    && ReadsKeepalive(Last(es, "persistent_keepalive_interval"), p.persistentKeepalive, q.persistentKeepalive)
  }

  /** And of its counters; the time is a 64-bit integer. */
  predicate CountersSay(es: seq<Entry>, p: Seen, q: Seen) {
    && ReadsCount(Last(es, "tx_bytes"), MAX_UINT64, p.txBytes, q.txBytes)
    && ReadsCount(Last(es, "rx_bytes"), MAX_UINT64, p.rxBytes, q.rxBytes)
    && q.lastHandshake == Wrap64(p.lastHandshake + Nanoseconds(es))
  }

  predicate SeenSays(cx: Codecs, hex: Hex, es: seq<Entry>, p: Seen, q: Seen) {
    SettingsSay(cx, hex, es, p.peer, q.peer) && CountersSay(es, p, q)
  }

  /** What lines make of an interface; all else of it stays. */
  predicate InterfaceSays(hex: Hex, es: seq<Entry>, i: Interface, j: Interface) {
    && ReadsHex(hex, Last(es, "private_key"), i.privateKey, j.privateKey)
    && ReadsNumber(Last(es, "listen_port"), 0, 65535, i.listenPort, j.listenPort)
    && j == i.(privateKey := j.privateKey, listenPort := j.listenPort)
  }

  predicate BlocksSay(cx: Codecs, hex: Hex, blocks: seq<seq<Entry>>, ps: seq<Seen>) {
    |ps| == |blocks| && forall k :: 0 <= k < |ps| ==> SeenSays(cx, hex, blocks[k], NEW_SEEN, ps[k])
  }

  // ----- Lines after lines -----

  const TWO_64 := 0x1_0000_0000_0000_0000

  lemma {:induction false} WrapTwice(a: int, b: int)
    ensures Wrap64(Wrap64(a) + b) == Wrap64(a + b)
  {
  }

  lemma {:induction false} NanosecondsAppend(a: seq<Entry>, b: seq<Entry>)
    ensures Nanoseconds(a + b) == Nanoseconds(a) + Nanoseconds(b)
  {
    hide NumberOn;
    if a == [] {
      assert a + b == b;
    } else {
      assert (a + b)[1..] == a[1..] + b;
      NanosecondsAppend(a[1..], b);
    }
  }

  lemma {:induction false} SettingsSayTwice(cx: Codecs, hex: Hex, a: seq<Entry>, b: seq<Entry>,
                                            p: Peer, q: Peer, r: Peer)
    requires SettingsSay(cx, hex, a, p, q) && SettingsSay(cx, hex, b, q, r)
    ensures SettingsSay(cx, hex, a + b, p, r)
  {
    hide Appended, Last, Values, Atoi, ParseEndpoint;
    LastAppend(a, b, "public_key");
    LastAppend(a, b, "preshared_key");
    LastAppend(a, b, "endpoint");
    LastAppend(a, b, "persistent_keepalive_interval");
    var s, t := Values(a, "allowed_ip"), Values(b, "allowed_ip");
    ValuesAppend(a, b, "allowed_ip");
    AppendedTwice(cx, s, t, p.allowedIPs, q.allowedIPs, r.allowedIPs);
  }

  lemma {:induction false} CountersSayTwice(a: seq<Entry>, b: seq<Entry>, p: Seen, q: Seen, r: Seen)
    requires CountersSay(a, p, q) && CountersSay(b, q, r)
    ensures CountersSay(a + b, p, r)
  {
    hide Last, AllDigits, Digits, Wrap64, Nanoseconds;
    LastAppend(a, b, "tx_bytes");
    LastAppend(a, b, "rx_bytes");
    NanosecondsAppend(a, b);
    WrapTwice(p.lastHandshake + Nanoseconds(a), Nanoseconds(b));
  }

  lemma {:induction false} SeenSaysTwice(cx: Codecs, hex: Hex, a: seq<Entry>, b: seq<Entry>, p: Seen, q: Seen, r: Seen)
    requires SeenSays(cx, hex, a, p, q) && SeenSays(cx, hex, b, q, r)
    ensures SeenSays(cx, hex, a + b, p, r)
  {
    hide SettingsSay, CountersSay;
    SettingsSayTwice(cx, hex, a, b, p.peer, q.peer, r.peer);
    CountersSayTwice(a, b, p, q, r);
  }

  lemma {:induction false} InterfaceSaysTwice(hex: Hex, a: seq<Entry>, b: seq<Entry>,
                                              i: Interface, j: Interface, k: Interface)
    requires InterfaceSays(hex, a, i, j) && InterfaceSays(hex, b, j, k)
    ensures InterfaceSays(hex, a + b, i, k)
  {
    hide Last, Atoi;
    LastAppend(a, b, "private_key");
    LastAppend(a, b, "listen_port");
  }

  /** A time that fits 64 bits. */
  predicate Fits64(n: int) {
    n == Wrap64(n)
  }

  lemma {:induction false} NothingSaid(cx: Codecs, hex: Hex, i: Interface, p: Seen)
    ensures InterfaceSays(hex, [], i, i)
    ensures Fits64(p.lastHandshake) ==> SeenSays(cx, hex, [], p, p)
  {
  }

  // ----- One line -----

  lemma {:induction false} InterfaceNames(key: string)
    ensures NameOf(key) == PrivateKeyName <==> key == "private_key"
    ensures NameOf(key) == ListenPortName <==> key == "listen_port"
    ensures NameOf(key) == PublicKeyName <==> key == "public_key"
  {
    hide PeerNameOf;
    NoInterfaceName(key);
  }

  lemma {:induction false} NoInterfaceName(key: string)
    ensures PeerNameOf(key) !in {Errno, PrivateKeyName, ListenPortName, IgnoredInterface, PublicKeyName}
  {
  }

  /** What the name of a setting of a peer says, whatever comes before it in the list of names. */
  lemma {:induction false} ByPeerName(key: string, name: Name)
    requires name !in {Errno, PrivateKeyName, ListenPortName, IgnoredInterface, PublicKeyName}
    ensures NameOf(key) == name ==> PeerNameOf(key) == name
  {
    hide PeerNameOf;
  }

  lemma {:induction false} SettingNames(key: string)
    ensures NameOf(key) == PresharedKeyName <==> key == "preshared_key"
    ensures NameOf(key) == AllowedIPName <==> key == "allowed_ip"
    ensures NameOf(key) == KeepaliveName <==> key == "persistent_keepalive_interval"
    ensures NameOf(key) == EndpointName <==> key == "endpoint"
  {
    hide NameOf, PeerNameOf;
    PeerSettingNames(key);
    if key == "preshared_key" || key == "allowed_ip" { ListNames(key); }
    if key == "persistent_keepalive_interval" || key == "endpoint" { ValueNames(key); }
    ByPeerName(key, PresharedKeyName);
    ByPeerName(key, AllowedIPName);
    ByPeerName(key, KeepaliveName);
    ByPeerName(key, EndpointName);
  }

  lemma {:induction false} PeerSettingNames(key: string)
    ensures PeerNameOf(key) == PresharedKeyName <==> key == "preshared_key"
    ensures PeerNameOf(key) == AllowedIPName <==> key == "allowed_ip"
    ensures PeerNameOf(key) == KeepaliveName <==> key == "persistent_keepalive_interval"
    ensures PeerNameOf(key) == EndpointName <==> key == "endpoint"
  {
  }

  lemma {:induction false} ListNames(key: string)
    requires key == "preshared_key" || key == "allowed_ip"
    ensures NameOf(key) == PeerNameOf(key)
  {
    hide PeerNameOf;
  }

  lemma {:induction false} ValueNames(key: string)
    requires key == "persistent_keepalive_interval" || key == "endpoint"
    ensures NameOf(key) == PeerNameOf(key)
  {
    hide PeerNameOf;
  }

  lemma {:induction false} CounterNames(key: string)
    ensures NameOf(key) == TxBytes <==> key == "tx_bytes"
    ensures NameOf(key) == RxBytes <==> key == "rx_bytes"
    ensures NameOf(key) == HandshakeSec <==> key == "last_handshake_time_sec"
    ensures NameOf(key) == HandshakeNsec <==> key == "last_handshake_time_nsec"
  {
    hide NameOf, PeerNameOf;
    PeerCounterNames(key);
    if key == "tx_bytes" || key == "rx_bytes" { ByteNames(key); }
    if key == "last_handshake_time_sec" || key == "last_handshake_time_nsec" { TimeNames(key); }
    ByPeerName(key, TxBytes);
    ByPeerName(key, RxBytes);
    ByPeerName(key, HandshakeSec);
    ByPeerName(key, HandshakeNsec);
  }

  lemma {:induction false} PeerCounterNames(key: string)
    ensures PeerNameOf(key) == TxBytes <==> key == "tx_bytes"
    ensures PeerNameOf(key) == RxBytes <==> key == "rx_bytes"
    ensures PeerNameOf(key) == HandshakeSec <==> key == "last_handshake_time_sec"
    ensures PeerNameOf(key) == HandshakeNsec <==> key == "last_handshake_time_nsec"
  {
  }

  lemma {:induction false} ByteNames(key: string)
    requires key == "tx_bytes" || key == "rx_bytes"
    ensures NameOf(key) == PeerNameOf(key)
  {
    hide PeerNameOf;
  }

  lemma {:induction false} TimeNames(key: string)
    requires key == "last_handshake_time_sec" || key == "last_handshake_time_nsec"
    ensures NameOf(key) == PeerNameOf(key)
  {
    hide PeerNameOf;
  }

  lemma {:induction false} InterfaceLine(hex: Hex, s: Progress, e: Entry)
    requires InterfaceField(hex, s, NameOf(e.key), e.val).Ok?
    ensures var t := InterfaceField(hex, s, NameOf(e.key), e.val).value;
      t == s.(iface := t.iface) && InterfaceSays(hex, [e], s.iface, t.iface)
  {
    hide NameOf, Last, Atoi;
    InterfaceNames(e.key);
    OneEntry(e, "private_key");
    OneEntry(e, "listen_port");
  }

  /** What one line does to the settings, by its name. */
  lemma {:induction false} FieldSettings(cx: Codecs, hex: Hex, s: Seen, name: Name, val: string)
    requires PeerField(cx, hex, s, name, val).Ok?
    ensures var p, q := s.peer, PeerField(cx, hex, s, name, val).value.peer;
      && (if name == PublicKeyName then ParseKeyHex(hex, val) == Ok(q.publicKey) else q.publicKey == p.publicKey)
      && (if name == PresharedKeyName then ParseKeyHex(hex, val) == Ok(q.presharedKey)
          else q.presharedKey == p.presharedKey)
      && (if name == EndpointName then ParseEndpoint(cx, val) == Ok(q.endpoint) else q.endpoint == p.endpoint)
      && (if name == KeepaliveName then ParseKeepalive(val) == Ok(q.persistentKeepalive)
          else q.persistentKeepalive == p.persistentKeepalive)
      && (name == AllowedIPName ==> ParseIPCidr(cx, val).Ok?)
      && q.allowedIPs == p.allowedIPs + if name == AllowedIPName then [ParseIPCidr(cx, val).value] else []
  {
    hide ParseKeyHex, ParseEndpoint, ParseKeepalive, ParseIPCidr, ParseStamp, Wrap64;
  }

  /** And to the counters. */
  lemma {:induction false} FieldCounters(cx: Codecs, hex: Hex, s: Seen, name: Name, val: string)
    requires PeerField(cx, hex, s, name, val).Ok?
    ensures var q := PeerField(cx, hex, s, name, val).value;
      && (if name == TxBytes then ParseStamp(val) == Ok(q.txBytes) else q.txBytes == s.txBytes)
      && (if name == RxBytes then ParseStamp(val) == Ok(q.rxBytes) else q.rxBytes == s.rxBytes)
      && (name == HandshakeSec || name == HandshakeNsec ==> ParseStamp(val).Ok?)
      && q.lastHandshake ==
        if name == HandshakeSec then Wrap64(s.lastHandshake + Wrap64(Wrap64(ParseStamp(val).value) * SECOND))
        else if name == HandshakeNsec then Wrap64(s.lastHandshake + Wrap64(ParseStamp(val).value))
        else s.lastHandshake
  {
    hide ParseKeyHex, ParseEndpoint, ParseKeepalive, ParseIPCidr, ParseStamp, Wrap64;
  }

  lemma {:induction false} OnePrefix(cx: Codecs, val: string, ps: seq<Prefix>)
    ensures Appended(cx, [], ps, ps)
    ensures ParseIPCidr(cx, val).Ok? ==> Appended(cx, [val], ps, ps + [ParseIPCidr(cx, val).value])
  {
  }

  lemma {:induction false} KeysLine(cx: Codecs, hex: Hex, s: Seen, e: Entry)
    requires PeerField(cx, hex, s, NameOf(e.key), e.val).Ok?
    ensures var p, q := s.peer, PeerField(cx, hex, s, NameOf(e.key), e.val).value.peer;
      && ReadsHex(hex, Last([e], "public_key"), p.publicKey, q.publicKey)
      && ReadsHex(hex, Last([e], "preshared_key"), p.presharedKey, q.presharedKey)
  {
    hide PeerField, NameOf, Last, ParseEndpoint, ParseIPCidr, ParseKeepalive;
    FieldSettings(cx, hex, s, NameOf(e.key), e.val);
    InterfaceNames(e.key);
    SettingNames(e.key);
    OneEntry(e, "public_key");
    OneEntry(e, "preshared_key");
  }

  lemma {:induction false} ValuesLine(cx: Codecs, hex: Hex, s: Seen, e: Entry)
    requires PeerField(cx, hex, s, NameOf(e.key), e.val).Ok?
    ensures var p, q := s.peer, PeerField(cx, hex, s, NameOf(e.key), e.val).value.peer;
      && ReadsHostPort(cx, Last([e], "endpoint"), p.endpoint, q.endpoint)
      && ReadsKeepalive(Last([e], "persistent_keepalive_interval"), p.persistentKeepalive, q.persistentKeepalive)
  {
    hide PeerField, NameOf, Last, Atoi, ParseEndpoint, ParseIPCidr, ParseKeyHex;
    FieldSettings(cx, hex, s, NameOf(e.key), e.val);
    SettingNames(e.key);
    OneEntry(e, "endpoint");
    OneEntry(e, "persistent_keepalive_interval");
  }

  lemma {:induction false} AllowedLine(cx: Codecs, hex: Hex, s: Seen, e: Entry)
    requires PeerField(cx, hex, s, NameOf(e.key), e.val).Ok?
    ensures var p, q := s.peer, PeerField(cx, hex, s, NameOf(e.key), e.val).value.peer;
      Appended(cx, Values([e], "allowed_ip"), p.allowedIPs, q.allowedIPs)
  {
    hide PeerField, NameOf, Values, Appended, ParseEndpoint, ParseIPCidr, ParseKeyHex, ParseKeepalive;
    FieldSettings(cx, hex, s, NameOf(e.key), e.val);
    OnePrefix(cx, e.val, s.peer.allowedIPs);
    assert s.peer.allowedIPs + [] == s.peer.allowedIPs;
    SettingNames(e.key);
    OneEntry(e, "allowed_ip");
  }

  lemma {:induction false} SettingsLine(cx: Codecs, hex: Hex, s: Seen, e: Entry)
    requires PeerField(cx, hex, s, NameOf(e.key), e.val).Ok?
    ensures SettingsSay(cx, hex, [e], s.peer, PeerField(cx, hex, s, NameOf(e.key), e.val).value.peer)
  {
    hide PeerField, NameOf, Last, Values, Appended, ReadsHex, ReadsHostPort, ReadsKeepalive;
    KeysLine(cx, hex, s, e);
    ValuesLine(cx, hex, s, e);
    AllowedLine(cx, hex, s, e);
  }

  lemma {:induction false} WrappedSeconds(a: int, n: nat)
    ensures Wrap64(a + Wrap64(Wrap64(n) * SECOND)) == Wrap64(a + n * SECOND)
  {
    hide Wrap64;
    WrappedProduct(n);
    WrapTwice(n * SECOND, a);
  }

  lemma {:induction false} WrappedProduct(n: nat)
    ensures Wrap64(Wrap64(n) * SECOND) == Wrap64(n * SECOND)
  {
    var k := (n + 0x8000_0000_0000_0000) / TWO_64;
    assert Wrap64(n) == n - k * TWO_64;
    WrapShift(n * SECOND, k * SECOND);
  }

  lemma {:induction false} WrapShift(a: int, k: int)
    ensures Wrap64(a - k * TWO_64) == Wrap64(a)
  {
  }

  lemma {:induction false} OneTime(e: Entry)
    ensures Nanoseconds([e]) == if e.key == "last_handshake_time_sec" then NumberOn(e.val) * SECOND
      else if e.key == "last_handshake_time_nsec" then NumberOn(e.val) else 0
  {
    assert [e][1..] == [];
  }

  lemma {:induction false} StampIsCount(val: string)
    requires ParseStamp(val).Ok?
    ensures IsCount(val, MAX_UINT64) && ParseStamp(val).value == Digits(val) == NumberOn(val)
  {
  }

  lemma {:induction false} BytesLine(cx: Codecs, hex: Hex, s: Seen, e: Entry)
    requires PeerField(cx, hex, s, NameOf(e.key), e.val).Ok?
    ensures var q := PeerField(cx, hex, s, NameOf(e.key), e.val).value;
      && ReadsCount(Last([e], "tx_bytes"), MAX_UINT64, s.txBytes, q.txBytes)
      && ReadsCount(Last([e], "rx_bytes"), MAX_UINT64, s.rxBytes, q.rxBytes)
  {
    hide PeerField, NameOf, Last, Wrap64, IsCount, ParseStamp;
    FieldCounters(cx, hex, s, NameOf(e.key), e.val);
    CounterNames(e.key);
    OneEntry(e, "tx_bytes");
    OneEntry(e, "rx_bytes");
    if ParseStamp(e.val).Ok? { StampIsCount(e.val); }
  }

  lemma {:induction false} TimeLine(cx: Codecs, hex: Hex, s: Seen, e: Entry)
    requires PeerField(cx, hex, s, NameOf(e.key), e.val).Ok? && Fits64(s.lastHandshake)
    ensures var q := PeerField(cx, hex, s, NameOf(e.key), e.val).value;
      q.lastHandshake == Wrap64(s.lastHandshake + Nanoseconds([e])) && Fits64(q.lastHandshake)
  {
    hide PeerField, NameOf, Nanoseconds, Wrap64, ParseStamp, NumberOn, IsCount;
    FieldCounters(cx, hex, s, NameOf(e.key), e.val);
    CounterNames(e.key);
    OneTime(e);
    var n := NumberOn(e.val);
    if e.key == "last_handshake_time_sec" {
      StampIsCount(e.val);
      WrappedSeconds(s.lastHandshake, n);
    } else if e.key == "last_handshake_time_nsec" {
      StampIsCount(e.val);
      WrapTwice(n, s.lastHandshake);
    }
    WrapTwice(s.lastHandshake + Nanoseconds([e]), 0);
  }

  lemma {:induction false} CountersLine(cx: Codecs, hex: Hex, s: Seen, e: Entry)
    requires PeerField(cx, hex, s, NameOf(e.key), e.val).Ok? && Fits64(s.lastHandshake)
    ensures CountersSay([e], s, PeerField(cx, hex, s, NameOf(e.key), e.val).value)
    ensures Fits64(PeerField(cx, hex, s, NameOf(e.key), e.val).value.lastHandshake)
  {
    hide PeerField, NameOf, Last, Nanoseconds, Wrap64, ReadsCount;
    BytesLine(cx, hex, s, e);
    TimeLine(cx, hex, s, e);
  }

  lemma {:induction false} PeerLine(cx: Codecs, hex: Hex, s: Seen, e: Entry)
    requires PeerField(cx, hex, s, NameOf(e.key), e.val).Ok? && Fits64(s.lastHandshake)
    ensures var t := PeerField(cx, hex, s, NameOf(e.key), e.val).value;
      SeenSays(cx, hex, [e], s, t) && Fits64(t.lastHandshake)
  {
    hide PeerField, SettingsSay, CountersSay, NameOf;
    SettingsLine(cx, hex, s, e);
    CountersLine(cx, hex, s, e);
  }

  /** The stored WebSocket settings do not touch what the device says. */
  lemma {:induction false} MergedSays(cx: Codecs, hex: Hex, es: seq<Entry>, p: Seen, q: Seen, stored: seq<Peer>)
    requires SeenSays(cx, hex, es, p, q)
    ensures SeenSays(cx, hex, es, p, Merged(q, stored))
  {
    hide Last, Values, Appended, Nanoseconds, ParseEndpoint;
    if stored == [] {
    } else {
      MergedSays(cx, hex, es, p, q, stored[1..]);
    }
  }

  // ----- All lines -----

  /** What the lines to come make of the progress so far. */
  predicate Says(cx: Codecs, hex: Hex, s: Progress, es: seq<Entry>, t: Progress) {
    var n := |s.done|;
    && n <= |t.done| && t.done[..n] == s.done
    && if s.peer.Some? then
         && t.iface == s.iface && n < |t.done| && SeenSays(cx, hex, Until(es), s.peer.value, t.done[n])
         && BlocksSay(cx, hex, Blocks(es), t.done[n + 1..])
       else
         && InterfaceSays(hex, Until(es), s.iface, t.iface)
         && BlocksSay(cx, hex, Blocks(es), t.done[n..])
  }

  predicate TimeFits(s: Progress) {
    s.peer.Some? ==> Fits64(s.peer.value.lastHandshake)
  }

  lemma {:induction false} EndSays(cx: Codecs, hex: Hex, stored: seq<Peer>, s: Progress)
    requires TimeFits(s)
    ensures Says(cx, hex, s, [], AddPeer(s, stored))
  {
    hide InterfaceSays, SeenSays, Fits64, Merged;
    var t, n := AddPeer(s, stored), |s.done|;
    assert t.done[..n] == s.done;
    var p := if s.peer.Some? then s.peer.value else NEW_SEEN;
    NothingSaid(cx, hex, s.iface, p);
    if s.peer.Some? { MergedSays(cx, hex, [], p, p, stored); }
  }

  /** A public key: the peer being read is finished, and a new one begins with this line. */
  lemma {:induction false} PublicKeySays(cx: Codecs, hex: Hex, stored: seq<Peer>, s: Progress, e: Entry,
                                         rest: seq<Entry>, p: Seen, t: Progress)
    requires TimeFits(s) && e.key == "public_key" && SeenSays(cx, hex, [e], NEW_SEEN, p)
    requires Says(cx, hex, AddPeer(s, stored).(peer := Some(p)), rest, t)
    ensures Says(cx, hex, s, [e] + rest, t)
  {
    hide InterfaceSays, SeenSays, Fits64, Merged;
    var a := AddPeer(s, stored);
    var es, n, m := [e] + rest, |s.done|, |a.done|;
    assert es[1..] == rest;
    SeenSaysTwice(cx, hex, [e], Until(rest), NEW_SEEN, p, t.done[m]);
    assert t.done[m..] == [t.done[m]] + t.done[m + 1..];
    assert BlocksSay(cx, hex, Blocks(es), t.done[m..]);
    assert t.done[..n] == t.done[..m][..n] == s.done;
    NothingSaid(cx, hex, s.iface, if s.peer.Some? then s.peer.value else NEW_SEEN);
    if s.peer.Some? {
      assert t.done[n] == t.done[..m][n] == Merged(s.peer.value, stored);
      MergedSays(cx, hex, [], s.peer.value, s.peer.value, stored);
    }
  }

  lemma {:induction false} PeerKeySays(cx: Codecs, hex: Hex, s: Progress, e: Entry, rest: seq<Entry>,
                                       p: Seen, t: Progress)
    requires s.peer.Some? && e.key != "public_key" && SeenSays(cx, hex, [e], s.peer.value, p)
    requires Says(cx, hex, s.(peer := Some(p)), rest, t)
    ensures Says(cx, hex, s, [e] + rest, t)
  {
    hide SeenSays, InterfaceSays;
    assert ([e] + rest)[1..] == rest;
    SeenSaysTwice(cx, hex, [e], Until(rest), s.peer.value, p, t.done[|s.done|]);
  }

  lemma {:induction false} InterfaceKeySays(cx: Codecs, hex: Hex, s: Progress, e: Entry, rest: seq<Entry>,
                                            i: Interface, t: Progress)
    requires s.peer.None? && e.key != "public_key" && InterfaceSays(hex, [e], s.iface, i)
    requires Says(cx, hex, s.(iface := i), rest, t)
    ensures Says(cx, hex, s, [e] + rest, t)
  {
    hide SeenSays, InterfaceSays;
    assert ([e] + rest)[1..] == rest;
    InterfaceSaysTwice(hex, [e], Until(rest), s.iface, i, t.iface);
  }

  /** An errno line says nothing. */
  lemma {:induction false} ErrnoLine(cx: Codecs, hex: Hex, s: Progress, e: Entry)
    requires NameOf(e.key) == Errno && TimeFits(s)
    ensures e.key != "public_key" && InterfaceSays(hex, [e], s.iface, s.iface)
    ensures s.peer.Some? ==> SeenSays(cx, hex, [e], s.peer.value, s.peer.value)
  {
    hide NameOf, Last, Values, Nanoseconds, Wrap64;
    InterfaceNames(e.key);
    SettingNames(e.key);
    CounterNames(e.key);
    OneEntry(e, "private_key");
    OneEntry(e, "listen_port");
    OneEntry(e, "public_key");
    OneEntry(e, "preshared_key");
    OneEntry(e, "allowed_ip");
    OneEntry(e, "endpoint");
    OneEntry(e, "persistent_keepalive_interval");
    OneEntry(e, "tx_bytes");
    OneEntry(e, "rx_bytes");
    OneTime(e);
  }

  lemma {:induction false} StepSays(cx: Codecs, hex: Hex, stored: seq<Peer>, s: Progress, line: string,
                                    rest: seq<Entry>, t: Progress)
    requires TimeFits(s) && Uapi.Step(cx, hex, stored, s, line).Ok?
    requires Says(cx, hex, Uapi.Step(cx, hex, stored, s, line).value, rest, t)
    ensures Says(cx, hex, s, [EntryOf(line)] + rest, t)
  {
    hide NameOf, PeerField, InterfaceField, Says, SeenSays, InterfaceSays, Fits64, AddPeer;
    var e := EntryOf(line);
    var s1 := Uapi.Step(cx, hex, stored, s, line).value;
    InterfaceNames(e.key);
    if NameOf(e.key) == Errno {
      ErrnoLine(cx, hex, s, e);
      if s.peer.Some? {
        PeerKeySays(cx, hex, s, e, rest, s.peer.value, t);
      } else {
        InterfaceKeySays(cx, hex, s, e, rest, s.iface, t);
      }
    } else if e.key == "public_key" {
      NewTimeFits();
      PeerLine(cx, hex, NEW_SEEN, e);
      PublicKeySays(cx, hex, stored, s, e, rest, s1.peer.value, t);
    } else if s.peer.Some? {
      PeerLine(cx, hex, s.peer.value, e);
      PeerKeySays(cx, hex, s, e, rest, s1.peer.value, t);
    } else {
      InterfaceLine(hex, s, e);
      InterfaceKeySays(cx, hex, s, e, rest, s1.iface, t);
    }
  }

  lemma {:induction false} NewTimeFits()
    ensures Fits64(NEW_SEEN.lastHandshake)
  {
  }

  lemma {:induction false} StepFits(cx: Codecs, hex: Hex, stored: seq<Peer>, s: Progress, line: string)
    requires TimeFits(s) && Uapi.Step(cx, hex, stored, s, line).Ok?
    ensures TimeFits(Uapi.Step(cx, hex, stored, s, line).value)
  {
    hide NameOf, PeerField, SeenSays, InterfaceSays, Fits64, AddPeer;
    var e := EntryOf(line);
    if NameOf(e.key) == Errno {
    } else if NameOf(e.key) == PublicKeyName {
      NewTimeFits();
      PeerLine(cx, hex, NEW_SEEN, e);
    } else if s.peer.Some? {
      PeerLine(cx, hex, s.peer.value, e);
    } else {
      InterfaceLine(hex, s, e);
    }
  }

  lemma {:induction false} ReadSays(cx: Codecs, hex: Hex, stored: seq<Peer>, s: Progress, text: string)
    requires TimeFits(s) && Read(cx, hex, stored, s, text).Ok?
    ensures Says(cx, hex, s, Answer(text), Read(cx, hex, stored, s, text).value)
    decreases |text|
  {
    hide Uapi.Step, Says, TimeFits, AddPeer;
    var cut := Cut(text, '\n');
    if cut.before == "" {
      EndSays(cx, hex, stored, s);
    } else {
      StepFits(cx, hex, stored, s, cut.before);
      ReadSays(cx, hex, stored, Uapi.Step(cx, hex, stored, s, cut.before).value, cut.after);
      StepSays(cx, hex, stored, s, cut.before, Answer(cut.after), Read(cx, hex, stored, s, text).value);
    }
  }

  // ----- The law -----

  /** For every answer that is accepted: the peers of the runtime view are, in some order, what the
      blocks of the answer say, one for each; the key and the port of the interface are what the
      lines before the first block say, and all else of it is as stored. */
  lemma {:induction false} RuntimeSays(cx: Codecs, hex: Hex, text: string, existing: Config) returns (read: seq<Seen>)
    requires Runtime(cx, hex, text, existing).Ok?
    ensures BlocksSay(cx, hex, Blocks(Answer(text)), read)
    ensures multiset(Runtime(cx, hex, text, existing).value.peers) == multiset(read)
    ensures var i, j := existing.iface, Runtime(cx, hex, text, existing).value.iface;
      && ReadsHex(hex, Last(Until(Answer(text)), "private_key"), ZeroKey(), j.privateKey)
      && ReadsNumber(Last(Until(Answer(text)), "listen_port"), 0, 65535, 0, j.listenPort)
      && j == i.(privateKey := j.privateKey, listenPort := j.listenPort, comments := NO_SECTION_COMMENTS)
    ensures Runtime(cx, hex, text, existing).value.name == existing.name
  {
    hide Read, BlocksSay, Sort, Last, Until, Blocks, Answer;
    var s := Read(cx, hex, existing.peers, Start(existing), text).value;
    ReadSays(cx, hex, existing.peers, Start(existing), text);
    read := s.done;
    assert s.done[0..] == s.done;
    SortKeeps(s.done, InOrder(existing.peers));
  }
}
