/**
 * The configuration of a tunnel (conf/config.go): interface, peers and the comments that
 * the wg-quick text carried. `Field` enumerates the keys of both sections.
 */
module Config {
  import opened Text
  import opened Netip

  newtype byte = b: int | 0 <= b < 256

  const KEY_LENGTH := 32

  /** A Curve25519 or preshared key. */
  type Key = k: seq<byte> | |k| == KEY_LENGTH witness seq(KEY_LENGTH, _ => 0 as byte)

  function ZeroKey(): (k: Key) {
    seq(KEY_LENGTH, _ => 0 as byte)
  }

  /** An endpoint: host name or address, and port. */
  datatype HostPort = HostPort(host: string, port: nat)

  datatype WSMode = NoWS | WebSocket | WSTunnel

  datatype Comments = Comments(before: seq<string>, suffix: string)

  datatype SectionComments = SectionComments(header: Comments, lines: map<Field, Comments>)

  datatype Interface = Interface(
    privateKey: Key,
    addresses: seq<Prefix>,
    listenPort: nat,
    mtu: nat,
    dns: seq<Addr>,
    dnsSearch: seq<string>,
    preUp: string,
    postUp: string,
    preDown: string,
    postDown: string,
    tableOff: bool,
    comments: SectionComments)

  datatype Peer = Peer(
    publicKey: Key,
    presharedKey: Key,
    allowedIPs: seq<Prefix>,
    endpoint: HostPort,
    persistentKeepalive: nat,
    wsMode: WSMode,
    wsURL: string,
    wsTunnelTarget: string,
    wsBearer: string,
    wsMask: bool,
    wsTLSCA: string,
    wsTLSCert: string,
    wsTLSKey: string,
    wsTLSInsecure: bool,
    wsPingInterval: nat,
    wsBackoffMin: nat,
    wsBackoffMax: nat,
    comments: SectionComments)

  datatype Config = Config(
    name: string,
    iface: Interface,
    peers: seq<Peer>,
    trailingComments: seq<string>)

  /** A 64-bit signed integer. */
  function Wrap64(n: int): int {
    (n + 0x8000_0000_0000_0000) % 0x1_0000_0000_0000_0000 - 0x8000_0000_0000_0000
  }

  /** A peer as the device reports it: the settings, the traffic, and the time of the last
      handshake in nanoseconds. */
  datatype Seen = Seen(peer: Peer, txBytes: nat, rxBytes: nat, lastHandshake: int)

  /** The configuration of a running tunnel. */
  datatype RuntimeConfig = RuntimeConfig(name: string, iface: Interface, peers: seq<Seen>)

  predicate DistinctKeys(ps: seq<Peer>) {
    forall i, j :: 0 <= i < j < |ps| ==> ps[i].publicKey != ps[j].publicKey
  }

  const NO_COMMENTS := Comments([], "")
  const NO_SECTION_COMMENTS := SectionComments(NO_COMMENTS, map[])
  const NO_ENDPOINT := HostPort("", 0)

  const EMPTY_INTERFACE := Interface(ZeroKey(), [], 0, 0, [], [], "", "", "", "", false, NO_SECTION_COMMENTS)

  const EMPTY_PEER := Peer(ZeroKey(), ZeroKey(), [], NO_ENDPOINT, 0, NoWS, "", "", "", false,
                           "", "", "", false, 0, 0, 0, NO_SECTION_COMMENTS)

  // ----- Keys of the wg-quick text -----

  datatype Field =
    | PrivateKey | ListenPort | Address | DNS | MTU
    | PreUp | PostUp | PreDown | PostDown | Table
    | PublicKey | PresharedKey | AllowedIPs | PeerEndpoint | PersistentKeepalive
    | WSModeField | WSTunnelTarget | WSMask | WSTLSCA | WSTLSCert | WSTLSKey | WSTLSInsecure
    | WSPingInterval | WSBackoffMin | WSBackoffMax | WSBearer

  predicate IsInterfaceField(f: Field) {
    f.PrivateKey? || f.ListenPort? || f.Address? || f.DNS? || f.MTU?
    || IsScript(f) || f.Table?
  }

  /** The keys whose values are shell commands and keep their '#'. */
  predicate IsScript(f: Field) {
    f.PreUp? || f.PostUp? || f.PreDown? || f.PostDown?
  }

  /** The spelling the writer uses. */
  function Name(f: Field): string {
    match f
    case PrivateKey => "PrivateKey"
    case ListenPort => "ListenPort"
    case Address => "Address"
    case DNS => "DNS"
    case MTU => "MTU"
    case PreUp => "PreUp"
    case PostUp => "PostUp"
    case PreDown => "PreDown"
    case PostDown => "PostDown"
    case Table => "Table"
    case PublicKey => "PublicKey"
    case PresharedKey => "PresharedKey"
    case AllowedIPs => "AllowedIPs"
    case PeerEndpoint => "Endpoint"
    case PersistentKeepalive => "PersistentKeepalive"
    case WSModeField => "WSMode"
    case WSTunnelTarget => "WSTunnelTarget"
    case WSMask => "WSMask"
    case WSTLSCA => "WSTLSCA"
    case WSTLSCert => "WSTLSCert"
    case WSTLSKey => "WSTLSKey"
    case WSTLSInsecure => "WSTLSInsecure"
    case WSPingInterval => "WSPingInterval"
    case WSBackoffMin => "WSBackoffMin"
    case WSBackoffMax => "WSBackoffMax"
    case WSBearer => "WSBearer"
  }

  /** The spelling the parser compares with, after lower-casing the text. */
  function LowerName(f: Field): string {
    match f
    case PrivateKey => "privatekey"
    case ListenPort => "listenport"
    case Address => "address"
    case DNS => "dns"
    case MTU => "mtu"
    case PreUp => "preup"
    case PostUp => "postup"
    case PreDown => "predown"
    case PostDown => "postdown"
    case Table => "table"
    case PublicKey => "publickey"
    case PresharedKey => "presharedkey"
    case AllowedIPs => "allowedips"
    case PeerEndpoint => "endpoint"
    case PersistentKeepalive => "persistentkeepalive"
    case WSModeField => "wsmode"
    case WSTunnelTarget => "wstunneltarget"
    case WSMask => "wsmask"
    case WSTLSCA => "wstlsca"
    case WSTLSCert => "wstlscert"
    case WSTLSKey => "wstlskey"
    case WSTLSInsecure => "wstlsinsecure"
    case WSPingInterval => "wspinginterval"
    case WSBackoffMin => "wsbackoffmin"
    case WSBackoffMax => "wsbackoffmax"
    case WSBearer => "wsbearer"
  }

  /** The key of the [Interface] section that a lower-cased name denotes. */
  function InterfaceFieldOf(key: string): (r: Option<Field>)
    ensures r.Some? ==> IsInterfaceField(r.value)
  {
    if key == "privatekey" then Some(PrivateKey)
    else if key == "listenport" then Some(ListenPort)
    else if key == "address" then Some(Address)
    else if key == "dns" then Some(DNS)
    else if key == "mtu" then Some(MTU)
    else if key == "preup" then Some(PreUp)
    else if key == "postup" then Some(PostUp)
    else if key == "predown" then Some(PreDown)
    else if key == "postdown" then Some(PostDown)
    else if key == "table" then Some(Table)
    else None
  }

  /** The key of the [Peer] section that a lower-cased name denotes. */
  function PeerFieldOf(key: string): (r: Option<Field>)
    ensures r.Some? ==> !IsInterfaceField(r.value)
  {
    if key == "publickey" then Some(PublicKey)
    else if key == "presharedkey" then Some(PresharedKey)
    else if key == "allowedips" then Some(AllowedIPs)
    else if key == "endpoint" then Some(PeerEndpoint)
    else if key == "persistentkeepalive" then Some(PersistentKeepalive)
    else if key == "wsmode" then Some(WSModeField)
    else if key == "wstunneltarget" then Some(WSTunnelTarget)
    else if key == "wsmask" then Some(WSMask)
    else if key == "wstlsca" then Some(WSTLSCA)
    else if key == "wstlscert" then Some(WSTLSCert)
    else if key == "wstlskey" then Some(WSTLSKey)
    else if key == "wstlsinsecure" then Some(WSTLSInsecure)
    else if key == "wspinginterval" then Some(WSPingInterval)
    else if key == "wsbackoffmin" then Some(WSBackoffMin)
    else if key == "wsbackoffmax" then Some(WSBackoffMax)
    else if key == "wsbearer" then Some(WSBearer)
    else None
  }

  predicate IsScriptKey(key: string) {
    key == "preup" || key == "postup" || key == "predown" || key == "postdown"
  }

  lemma {:induction false} InterfaceFieldOfLowerName(f: Field)
    requires IsInterfaceField(f)
    ensures InterfaceFieldOf(LowerName(f)) == Some(f)
    ensures IsScriptKey(LowerName(f)) <==> IsScript(f)
  {
  }

  lemma {:induction false} PeerFieldOfLowerName(f: Field)
    requires !IsInterfaceField(f)
    ensures PeerFieldOf(LowerName(f)) == Some(f)
  {
  }

  lemma {:induction false} PeerKeyIsNotScript(f: Field)
    requires !IsInterfaceField(f)
    ensures !IsScriptKey(LowerName(f))
  {
  }

  lemma {:induction false} LowerNameOfInterfaceName(f: Field)
    requires IsInterfaceField(f)
    ensures ToLower(Name(f)) == LowerName(f)
  {
  }

  predicate IsWSField(f: Field) {
    !IsInterfaceField(f)
    && !f.PublicKey? && !f.PresharedKey? && !f.AllowedIPs? && !f.PeerEndpoint? && !f.PersistentKeepalive?
  }

  lemma {:induction false} LowerNameOfPeerName(f: Field)
    requires !IsInterfaceField(f) && !IsWSField(f)
    ensures ToLower(Name(f)) == LowerName(f)
  {
  }

  predicate IsWSTextField(f: Field) {
    f.WSModeField? || f.WSTunnelTarget? || f.WSMask? || f.WSTLSCA? || f.WSTLSCert? || f.WSTLSKey?
  }

  lemma {:induction false} LowerNameOfWSTextName(f: Field)
    requires IsWSTextField(f)
    ensures ToLower(Name(f)) == LowerName(f)
  {
  }

  lemma {:induction false} LowerNameOfWSName(f: Field)
    requires IsWSField(f) && !IsWSTextField(f)
    ensures ToLower(Name(f)) == LowerName(f)
  {
  }

  /** Every key the writer prints is read back as itself. */
  lemma {:induction false} FieldOfName(f: Field)
    ensures IsInterfaceField(f) ==> InterfaceFieldOf(ToLower(Name(f))) == Some(f)
    ensures !IsInterfaceField(f) ==> PeerFieldOf(ToLower(Name(f))) == Some(f)
    ensures IsScriptKey(ToLower(Name(f))) <==> IsScript(f)
  {
    if IsInterfaceField(f) {
      LowerNameOfInterfaceName(f);
      InterfaceFieldOfLowerName(f);
    } else {
      if IsWSTextField(f) {
        LowerNameOfWSTextName(f);
      } else if IsWSField(f) {
        LowerNameOfWSName(f);
      } else {
        LowerNameOfPeerName(f);
      }
      PeerFieldOfLowerName(f);
      PeerKeyIsNotScript(f);
    }
  }
}
