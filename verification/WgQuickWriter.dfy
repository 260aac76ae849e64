/**
 * The wg-quick writer (conf/writer.go, Config.ToWgQuick), as the lines it prints.
 */
module WgQuickWriter {
  import opened Text
  import opened Netip
  import opened Config
  import opened WgQuickParser

  /** Endpoint.String. */
  function ShowEndpoint(e: HostPort): string {
    if ':' in e.host then "[" + e.host + "]:" + Itoa(e.port) else e.host + ":" + Itoa(e.port)
  }

  function ShowWSMode(m: WSMode): string {
    match m
    case NoWS => ""
    case WebSocket => "websocket"
    case WSTunnel => "wstunnel"
  }

  function ShowBool(b: bool): string {
    if b then "true" else "false"
  }

  function ShowPrefixes(cx: Codecs, ps: seq<Prefix>): (r: seq<string>)
    ensures |r| == |ps|
    ensures forall i :: 0 <= i < |ps| ==> r[i] == cx.showPrefix(ps[i])
  {
    if ps == [] then [] else [cx.showPrefix(ps[0])] + ShowPrefixes(cx, ps[1..])
  }

  function ShowAddrs(cx: Codecs, xs: seq<Addr>): (r: seq<string>)
    ensures |r| == |xs|
    ensures forall i :: 0 <= i < |xs| ==> r[i] == cx.showAddr(xs[i])
  {
    if xs == [] then [] else [cx.showAddr(xs[0])] + ShowAddrs(cx, xs[1..])
  }

  /** What the writer has for a key: nothing, or a value that is printed when `present`, or
      when a comment hangs on the key. */
  datatype Slot = Absent | Slot(present: bool, value: string)

  function InterfaceSlot(cx: Codecs, i: Interface, f: Field): Slot
    requires IsInterfaceField(f)
  {
    match f
    case PrivateKey => Slot(true, cx.encodeKey(i.privateKey))
    case ListenPort => Slot(i.listenPort > 0, Itoa(i.listenPort))
    case Address =>
      if i.addresses == [] then Absent else Slot(true, Join(ShowPrefixes(cx, i.addresses), ", "))
    case DNS =>
      if i.dns == [] && i.dnsSearch == [] then Absent
      else Slot(true, Join(ShowAddrs(cx, i.dns) + i.dnsSearch, ", "))
    case MTU => Slot(i.mtu > 0, Itoa(i.mtu))
    case PreUp => Slot(i.preUp != "", i.preUp)
    case PostUp => Slot(i.postUp != "", i.postUp)
    case PreDown => Slot(i.preDown != "", i.preDown)
    case PostDown => Slot(i.postDown != "", i.postDown)
    case Table => Slot(i.tableOff, if i.tableOff then "off" else "auto")
  }

  function PeerSlot(cx: Codecs, p: Peer, f: Field): Slot
    requires !IsInterfaceField(f)
  {
    match f
    case PublicKey => Slot(true, cx.encodeKey(p.publicKey))
    case PresharedKey => Slot(p.presharedKey != ZeroKey(), cx.encodeKey(p.presharedKey))
    case AllowedIPs =>
      if p.allowedIPs == [] then Absent else Slot(true, Join(ShowPrefixes(cx, p.allowedIPs), ", "))
    case PeerEndpoint =>
      if p.wsURL != "" then Slot(true, p.wsURL)
      else Slot(p.endpoint.host != "", ShowEndpoint(p.endpoint))
    case PersistentKeepalive => Slot(p.persistentKeepalive > 0, Itoa(p.persistentKeepalive))
    case WSModeField => Slot(p.wsMode != NoWS, ShowWSMode(p.wsMode))
    case WSTunnelTarget => Slot(p.wsTunnelTarget != "", p.wsTunnelTarget)
    case WSMask => Slot(p.wsMask, ShowBool(p.wsMask))
    case WSTLSCA => Slot(p.wsTLSCA != "", p.wsTLSCA)
    case WSTLSCert => Slot(p.wsTLSCert != "", p.wsTLSCert)
    case WSTLSKey => Slot(p.wsTLSKey != "", p.wsTLSKey)
    case WSTLSInsecure => Slot(p.wsTLSInsecure, ShowBool(p.wsTLSInsecure))
    case WSPingInterval => Slot(p.wsPingInterval > 0, Itoa(p.wsPingInterval))
    case WSBackoffMin => Slot(p.wsBackoffMin > 0, Itoa(p.wsBackoffMin))
    case WSBackoffMax => Slot(p.wsBackoffMax > 0, Itoa(p.wsBackoffMax))
    case WSBearer => Slot(p.wsBearer != "", p.wsBearer)
  }

  /** The order in which the writer prints the keys of each section. */
  const INTERFACE_ORDER: seq<Field> :=
    [PrivateKey, ListenPort, Address, DNS, MTU, PreUp, PostUp, PreDown, PostDown, Table]

  const PEER_ORDER: seq<Field> :=
    [PublicKey, PresharedKey, AllowedIPs, PeerEndpoint, PersistentKeepalive, WSModeField, WSTunnelTarget,
     WSMask, WSTLSCA, WSTLSCert, WSTLSKey, WSTLSInsecure, WSPingInterval, WSBackoffMin, WSBackoffMax, WSBearer]

  function WithSuffix(line: string, suffix: string): string {
    if suffix == "" then line else line + " " + suffix
  }

  /** writeLine: the comments before, then the line and its own comment. */
  function CommentedLine(c: Comments, line: string): seq<string> {
    c.before + [WithSuffix(line, c.suffix)]
  }

  predicate Printed(sc: SectionComments, f: Field, slot: Slot) {
    slot.Slot? && (slot.present || CommentsAt(sc, f).before != [] || CommentsAt(sc, f).suffix != "")
  }

  /** writeField. */
  function SlotLines(sc: SectionComments, f: Field, slot: Slot): seq<string> {
    if Printed(sc, f, slot) then CommentedLine(CommentsAt(sc, f), Name(f) + " = " + slot.value) else []
  }

  function InterfaceFieldLines(cx: Codecs, i: Interface, fs: seq<Field>): seq<string>
    requires forall k :: 0 <= k < |fs| ==> IsInterfaceField(fs[k])
  {
    if fs == [] then []
    else SlotLines(i.comments, fs[0], InterfaceSlot(cx, i, fs[0])) + InterfaceFieldLines(cx, i, fs[1..])
  }

  function PeerFieldLines(cx: Codecs, p: Peer, fs: seq<Field>): seq<string>
    requires forall k :: 0 <= k < |fs| ==> !IsInterfaceField(fs[k])
  {
    if fs == [] then []
    else SlotLines(p.comments, fs[0], PeerSlot(cx, p, fs[0])) + PeerFieldLines(cx, p, fs[1..])
  }

  function InterfaceLines(cx: Codecs, i: Interface): seq<string> {
    CommentedLine(i.comments.header, "[Interface]") + InterfaceFieldLines(cx, i, INTERFACE_ORDER)
  }

  function PeerLines(cx: Codecs, p: Peer): seq<string> {
    [""] + CommentedLine(p.comments.header, "[Peer]") + PeerFieldLines(cx, p, PEER_ORDER)
  }

  function AllPeerLines(cx: Codecs, ps: seq<Peer>): seq<string> {
    if ps == [] then [] else PeerLines(cx, ps[0]) + AllPeerLines(cx, ps[1..])
  }

  function ConfigLines(cx: Codecs, c: Config): seq<string> {
    InterfaceLines(cx, c.iface) + AllPeerLines(cx, c.peers) + c.trailingComments
  }

  /** ToWgQuick, as a function of the configuration. */
  function Show(cx: Codecs, c: Config): string {
    Unlines(ConfigLines(cx, c))
  }
}
