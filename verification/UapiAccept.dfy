/**
 * Which answers of the device are accepted (conf/uapi.go), in terms of their lines.
 */
module UapiAccept {
  import opened Text
  import opened Config
  import opened Entries
  import opened WgQuickParser
  import opened Uapi
  import opened UapiMeaning

  /** An empty line ends the answer, and every line before it has an equals sign. */
  predicate Complete(text: string)
    decreases |text|
  {
    var cut := Cut(text, '\n');
    cut.found && (cut.before == "" || ('=' in cut.before && Complete(cut.after)))
  }

  predicate IsHexKey(hex: Hex, text: string) {
    hex(text).Some? && |hex(text).value| == 32
  }

  predicate IsNumber(text: string, max: nat) {
    Atoi(text).Some? && 0 <= Atoi(text).value <= max
  }

  const INTERFACE_IGNORED :=
    ["fwmark", "ws_listen", "ws_server_tls_cert", "ws_server_tls_key", "ws_server_bearer", "ws_trusted_proxies"]

  const PEER_IGNORED :=
    ["transport", "ws_url", "wstunnel_target", "ws_bearer", "ws_mask", "ws_tls_ca", "ws_tls_cert", "ws_tls_key",
     "ws_tls_insecure", "ws_ping_interval", "ws_backoff_min", "ws_backoff_max"]

  /** A line before the first public key. */
  predicate InterfaceLineOk(hex: Hex, e: Entry) {
    if e.key == "errno" then e.val == "0"
    else if e.key == "private_key" then IsHexKey(hex, e.val)
    else if e.key == "listen_port" then IsNumber(e.val, 65535)
    else e.key in INTERFACE_IGNORED
  }

  /** A line from there on. */
  predicate PeerLineOk(cx: Codecs, hex: Hex, e: Entry) {
    if e.key == "errno" then e.val == "0"
    else if e.key == "public_key" || e.key == "preshared_key" then IsHexKey(hex, e.val)
    else if e.key == "protocol_version" then e.val == "1"
    else if e.key == "allowed_ip" then cx.parsePrefix(e.val).Some? || cx.parseAddr(e.val).Some?
    else if e.key == "persistent_keepalive_interval" then e.val == "off" || IsNumber(e.val, 65535)
    else if e.key == "endpoint" then ParseEndpoint(cx, e.val).Ok?
    else if IsCounter(e.key) then IsCount(e.val, MAX_UINT64)
    else e.key in PEER_IGNORED
  }

  predicate IsCounter(key: string) {
    || key == "tx_bytes" || key == "rx_bytes"
    || key == "last_handshake_time_sec" || key == "last_handshake_time_nsec"
  }

  predicate LineOk(cx: Codecs, hex: Hex, inPeer: bool, e: Entry) {
    if inPeer then PeerLineOk(cx, hex, e) else InterfaceLineOk(hex, e)
  }

  predicate LinesOk(cx: Codecs, hex: Hex, inPeer: bool, es: seq<Entry>) {
    forall i :: 0 <= i < |es| ==> LineOk(cx, hex, inPeer, es[i])
  }

  predicate BlocksOk(cx: Codecs, hex: Hex, blocks: seq<seq<Entry>>) {
    forall k :: 0 <= k < |blocks| ==> LinesOk(cx, hex, true, blocks[k])
  }

  // ----- One line -----

  lemma {:induction false} OtherNames(key: string)
    ensures NameOf(key) == Errno <==> key == "errno"
    ensures NameOf(key) == ProtocolVersion <==> key == "protocol_version"
  {
    hide PeerNameOf;
    NoInterfaceName(key);
    VersionName(key);
  }

  lemma {:induction false} VersionName(key: string)
    ensures PeerNameOf(key) == ProtocolVersion <==> key == "protocol_version"
  {
  }

  lemma {:induction false} IgnoredInterfaceNames(key: string)
    ensures NameOf(key) == IgnoredInterface <==> key in INTERFACE_IGNORED
  {
    hide PeerNameOf;
    NoInterfaceName(key);
  }

  lemma {:induction false} IgnoredPeerNames(key: string)
    ensures NameOf(key) == IgnoredPeer <==> key in PEER_IGNORED
  {
    hide NameOf, PeerNameOf;
    ByPeerName(key, IgnoredPeer);
    IgnoredInPeer(key);
    if key in PEER_IGNORED { IsPeerName(key); }
  }

  lemma {:induction false} IgnoredInPeer(key: string)
    ensures PeerNameOf(key) == IgnoredPeer ==> key in PEER_IGNORED
    ensures key in PEER_IGNORED ==> PeerNameOf(key) == IgnoredPeer
  {
    if key in PEER_IGNORED { NoSettingIsIgnored(key); }
  }

  lemma {:induction false} NoSettingIsIgnored(key: string)
    requires key in PEER_IGNORED
    ensures key != "preshared_key" && key != "protocol_version" && key != "allowed_ip" && key != "endpoint"
    ensures key != "persistent_keepalive_interval" && !IsCounter(key)
  {
  }

  lemma {:induction false} IsPeerName(key: string)
    requires key in PEER_IGNORED
    ensures NameOf(key) == PeerNameOf(key)
  {
    hide PeerNameOf;
  }

  lemma {:induction false} InterfaceLineTaken(hex: Hex, s: Progress, e: Entry)
    requires NameOf(e.key) != Errno
    ensures InterfaceField(hex, s, NameOf(e.key), e.val).Ok? <==> InterfaceLineOk(hex, e)
  {
    hide NameOf, Atoi, INTERFACE_IGNORED;
    InterfaceNames(e.key);
    OtherNames(e.key);
    IgnoredInterfaceNames(e.key);
  }

  lemma {:induction false} PeerLineTaken(cx: Codecs, hex: Hex, s: Seen, e: Entry)
    requires NameOf(e.key) != Errno
    ensures PeerField(cx, hex, s, NameOf(e.key), e.val).Ok? <==> PeerLineOk(cx, hex, e)
  {
    hide NameOf, Atoi, PEER_IGNORED, ParseEndpoint, Digits, Wrap64;
    InterfaceNames(e.key);
    SettingNames(e.key);
    CounterNames(e.key);
    OtherNames(e.key);
    IgnoredPeerNames(e.key);
  }

  // ----- All lines -----

  predicate AllOk(cx: Codecs, hex: Hex, inPeer: bool, es: seq<Entry>) {
    LinesOk(cx, hex, inPeer, Until(es)) && BlocksOk(cx, hex, Blocks(es))
  }

  lemma {:induction false} LinesCons(cx: Codecs, hex: Hex, inPeer: bool, e: Entry, es: seq<Entry>)
    ensures LinesOk(cx, hex, inPeer, [e] + es) <==> LineOk(cx, hex, inPeer, e) && LinesOk(cx, hex, inPeer, es)
  {
    hide LineOk;
    var all := [e] + es;
    if LinesOk(cx, hex, inPeer, all) {
      assert all[0] == e;
      forall i | 0 <= i < |es| ensures LineOk(cx, hex, inPeer, es[i]) { assert all[i + 1] == es[i]; }
    }
  }

  lemma {:induction false} BlocksCons(cx: Codecs, hex: Hex, b: seq<Entry>, bs: seq<seq<Entry>>)
    ensures BlocksOk(cx, hex, [b] + bs) <==> LinesOk(cx, hex, true, b) && BlocksOk(cx, hex, bs)
  {
    hide LinesOk;
    var all := [b] + bs;
    if BlocksOk(cx, hex, all) {
      assert all[0] == b;
      forall i | 0 <= i < |bs| ensures LinesOk(cx, hex, true, bs[i]) { assert all[i + 1] == bs[i]; }
    }
  }

  /** The first line, and the others behind it. */
  lemma {:induction false} AllOkCons(cx: Codecs, hex: Hex, inPeer: bool, e: Entry, es: seq<Entry>)
    ensures AllOk(cx, hex, inPeer, [e] + es) <==>
      && LineOk(cx, hex, inPeer || e.key == "public_key", e)
      && AllOk(cx, hex, inPeer || e.key == "public_key", es)
  {
    hide LineOk, LinesOk, BlocksOk;
    assert ([e] + es)[1..] == es;
    if e.key == "public_key" {
      LinesCons(cx, hex, true, e, Until(es));
      BlocksCons(cx, hex, [e] + Until(es), Blocks(es));
      assert LinesOk(cx, hex, inPeer, []) by { NoLines(cx, hex, inPeer); }
    } else {
      LinesCons(cx, hex, inPeer, e, Until(es));
      assert [] + Blocks(es) == Blocks(es);
    }
  }

  lemma {:induction false} NoLines(cx: Codecs, hex: Hex, inPeer: bool)
    ensures LinesOk(cx, hex, inPeer, [])
  {
  }

  lemma {:induction false} StepOk(cx: Codecs, hex: Hex, stored: seq<Peer>, s: Progress, line: string)
    ensures var inPeer := s.peer.Some? || EntryOf(line).key == "public_key";
      && (Uapi.Step(cx, hex, stored, s, line).Ok? <==> '=' in line && LineOk(cx, hex, inPeer, EntryOf(line)))
      && (Uapi.Step(cx, hex, stored, s, line).Ok? ==>
        (Uapi.Step(cx, hex, stored, s, line).value.peer.Some? <==> inPeer))
  {
    hide NameOf, PeerField, InterfaceField, PeerLineOk, InterfaceLineOk, AddPeer;
    var e := EntryOf(line);
    InterfaceNames(e.key);
    OtherNames(e.key);
    if NameOf(e.key) == Errno {
      ErrnoOk(cx, hex, s.peer.Some?, e);
    } else if s.peer.None? && e.key != "public_key" {
      InterfaceLineTaken(hex, s, e);
      if InterfaceField(hex, s, NameOf(e.key), e.val).Ok? { InterfaceLine(hex, s, e); }
    } else {
      PeerLineTaken(cx, hex, if e.key == "public_key" then NEW_SEEN else s.peer.value, e);
    }
  }

  lemma {:induction false} ErrnoOk(cx: Codecs, hex: Hex, inPeer: bool, e: Entry)
    requires e.key == "errno"
    ensures LineOk(cx, hex, inPeer, e) <==> e.val == "0"
  {
  }

  lemma {:induction false} ReadOk(cx: Codecs, hex: Hex, stored: seq<Peer>, s: Progress, text: string)
    ensures Read(cx, hex, stored, s, text).Ok? <==> Complete(text) && AllOk(cx, hex, s.peer.Some?, Answer(text))
    decreases |text|
  {
    hide LineOk, AllOk;
    var cut := Cut(text, '\n');
    if cut.found && cut.before != "" {
      hide Uapi.Step;
      var line := cut.before;
      StepOk(cx, hex, stored, s, line);
      AllOkCons(cx, hex, s.peer.Some?, EntryOf(line), Answer(cut.after));
      if Uapi.Step(cx, hex, stored, s, line).Ok? {
        ReadOk(cx, hex, stored, Uapi.Step(cx, hex, stored, s, line).value, cut.after);
      }
    } else {
      assert AllOk(cx, hex, s.peer.Some?, []) by { NothingOk(cx, hex, s.peer.Some?); }
    }
  }

  lemma {:induction false} NothingOk(cx: Codecs, hex: Hex, inPeer: bool)
    ensures AllOk(cx, hex, inPeer, [])
  {
  }

  /** FromUAPI accepts exactly the complete answers in which every line before the first public key is
      one about an interface, and every line from there on one about a peer. */
  lemma {:induction false} ReaderAccepts(cx: Codecs, hex: Hex, text: string, existing: Config)
    ensures Runtime(cx, hex, text, existing).Ok? <==>
      && Complete(text) && LinesOk(cx, hex, false, Until(Answer(text)))
      && BlocksOk(cx, hex, Blocks(Answer(text)))
  {
    hide Read, LinesOk, BlocksOk, Complete, Answer, Until, Blocks;
    ReadOk(cx, hex, existing.peers, Start(existing), text);
  }
}
