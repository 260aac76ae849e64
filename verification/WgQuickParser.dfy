/**
 * The wg-quick parser (conf/parser.go): one token per line, a step of the section state
 * machine per token, and the comment pruning at the end.
 */
module WgQuickParser {
  import opened Text
  import opened Netip
  import opened Config
  import opened Names

  datatype ParseError =
    | InvalidTunnelName | LineOutsideSection | MissingEquals | MissingValue
    | InvalidInterfaceKey | InvalidPeerKey | NoPrivateKey | PeerWithoutPublicKey
    | InvalidIPAddress | MissingPort | InvalidEndpointHost | BracketsNeedIPv6
    | NumberSyntax | InvalidPort | InvalidMTU | InvalidKeepalive | InvalidKey | TwoCommas
    | InvalidWSURL | WSURLHasUser | WSURLNeedsPath | InvalidWSMode | InvalidBool | InvalidMillis
    | InvalidTunnelTarget
    | WSEndpointNeedsMode | WSModeNeedsWSEndpoint | WSTunnelNeedsWSEndpoint
    | WSTunnelNeedsTarget | TargetNeedsWSTunnel | WSSettingsNeedMode
    | EndOfInput | GetFailed | InvalidProtocolVersion | InvalidStamp

  datatype Result<+T> = Ok(value: T) | Err(error: ParseError) {
    predicate IsFailure() {
      Err?
    }

    function PropagateFailure<U>(): Result<U>
      requires Err?
    {
      Err(error)
    }

    function Extract(): T
      requires Ok?
    {
      value
    }
  }

  /** A parsed URL, as url.Parse returns it. */
  datatype URL = URL(scheme: string, hasOpaque: bool, hasUser: bool, path: string,
                     hasQuery: bool, hasFragment: bool, hostname: string, port: string)

  /** The library codecs the parser and the writer call: net/netip, base64 and net/url. */
  datatype Codecs = Codecs(
    parseAddr: string -> Option<Addr>,
    showAddr: Addr -> string,
    parsePrefix: string -> Option<Prefix>,
    showPrefix: Prefix -> string,
    decodeKey: string -> Option<Key>,
    encodeKey: Key -> string,
    parseURL: string -> Option<URL>)

  // ----- Leaf parsers -----

  /** parseIPCidr: a prefix, or an address standing for its host prefix. */
  function ParseIPCidr(cx: Codecs, s: string): Result<Prefix> {
    var p := cx.parsePrefix(s);
    if p.Some? then Ok(p.value)
    else
      var a := cx.parseAddr(s);
      if a.Some? then Ok(HostPrefix(a.value)) else Err(InvalidIPAddress)
  }

  function ParseNumber(s: string, min: int, max: nat, error: ParseError): (r: Result<nat>)
    requires min >= 0
    ensures r.Ok? ==> min <= r.value <= max
  {
    var m := Atoi(s);
    if m.None? then Err(NumberSyntax)
    else if m.value < min || m.value > max then Err(error)
    else Ok(m.value)
  }

  function ParsePort(s: string): Result<nat> {
    ParseNumber(s, 0, 65535, InvalidPort)
  }

  function ParseMTU(s: string): Result<nat> {
    ParseNumber(s, 576, 65535, InvalidMTU)
  }

  function ParseKeepalive(s: string): Result<nat> {
    if s == "off" then Ok(0) else ParseNumber(s, 0, 65535, InvalidKeepalive)
  }

  const MAX_UINT32: nat := 0xffff_ffff

  function ParseMillis(s: string): Result<nat> {
    var m := ParseUint(s, MAX_UINT32);
    if m.Some? then Ok(m.value) else Err(InvalidMillis)
  }

  function ParseBool(s: string): Result<bool> {
    if s == "true" then Ok(true) else if s == "false" then Ok(false) else Err(InvalidBool)
  }

  /** parseTableOff: whether routes are left alone. */
  function ParseTableOff(s: string): Result<bool> {
    if s == "off" then Ok(true)
    else if s == "auto" || s == "main" then Ok(false)
    else if ParseUint(s, MAX_UINT32).Some? then Ok(false)
    else Err(NumberSyntax)
  }

  function ParseKey(cx: Codecs, s: string): Result<Key> {
    var k := cx.decodeKey(s);
    if k.Some? then Ok(k.value) else Err(InvalidKey)
  }

  function ParseWSMode(s: string): Result<WSMode> {
    var mode := ToLower(s);
    if mode == "websocket" then Ok(WebSocket)
    else if mode == "wstunnel" then Ok(WSTunnel)
    else Err(InvalidWSMode)
  }

  /** The bracketed host of an endpoint holds an IPv6 address, up to a zone. */
  predicate BracketedIPv6(cx: Codecs, host: string) {
    && |host| > 3 && host[0] == '[' && host[|host| - 1] == ']' && IndexOf(host, ':') > 0
    && var zone := LastIndexOf(host, '%');
       var a := cx.parseAddr(host[1..if zone > 1 then zone else |host| - 1]);
       a.Some? && a.value.is6
  }

  /** parseEndpoint: host:port, or [IPv6]:port. */
  function ParseEndpoint(cx: Codecs, s: string): (r: Result<HostPort>)
    ensures r.Ok? ==> r.value.host != "" && r.value.port <= 65535
  {
    var i := LastIndexOf(s, ':');
    if i < 0 then Err(MissingPort)
    else
      var host := s[..i];
      if host == "" then Err(InvalidEndpointHost)
      else
        var port :- ParsePort(s[i + 1..]);
        if host[0] == '[' || host[|host| - 1] == ']' || ':' in host then
          if BracketedIPv6(cx, host) then Ok(HostPort(host[1..|host| - 1], port))
          else Err(BracketsNeedIPv6)
        else Ok(HostPort(host, port))
  }

  predicate IsWSURL(s: string) {
    HasPrefix(ToLower(s), "ws://") || HasPrefix(ToLower(s), "wss://")
  }

  /** parseWSURL: the host:port of a ws(s):// URL. */
  function ParseWSURL(cx: Codecs, s: string): (r: Result<HostPort>)
    ensures r.Ok? ==> r.value.host != ""
  {
    var u := cx.parseURL(s);
    if u.None? || (u.value.scheme != "ws" && u.value.scheme != "wss") || u.value.hasOpaque then Err(InvalidWSURL)
    else if u.value.hasUser then Err(WSURLHasUser)
    else if u.value.path == "" && (u.value.hasQuery || u.value.hasFragment) then Err(WSURLNeedsPath)
    else if u.value.hostname == "" || u.value.port == "" then Err(InvalidWSURL)
    else
      var h := u.value.hostname;
      var e := ParseEndpoint(cx, (if ':' in h then "[" + h + "]" else h) + ":" + u.value.port);
      if e.Ok? then e else Err(InvalidWSURL)
  }

  // ----- Lists -----

  function TrimParts(parts: seq<string>): (r: Result<seq<string>>)
    ensures r.Ok? ==> |r.value| == |parts|
  {
    if parts == [] then Ok([])
    else
      var first := TrimSpace(parts[0]);
      if first == "" then Err(TwoCommas)
      else
        var rest :- TrimParts(parts[1..]);
        Ok([first] + rest)
  }

  function SplitList(s: string): Result<seq<string>> {
    TrimParts(Split(s, ','))
  }

  function ParsePrefixes(cx: Codecs, items: seq<string>): (r: Result<seq<Prefix>>)
    ensures r.Ok? ==> |r.value| == |items|
  {
    if items == [] then Ok([])
    else
      var p :- ParseIPCidr(cx, items[0]);
      var rest :- ParsePrefixes(cx, items[1..]);
      Ok([p] + rest)
  }

  /** The items that are addresses, in order. */
  function Servers(cx: Codecs, items: seq<string>): seq<Addr> {
    if items == [] then []
    else
      var a := cx.parseAddr(items[0]);
      (if a.Some? then [a.value] else []) + Servers(cx, items[1..])
  }

  /** The items that are not addresses, in order. */
  function SearchDomains(cx: Codecs, items: seq<string>): seq<string> {
    if items == [] then []
    else (if cx.parseAddr(items[0]).None? then [items[0]] else []) + SearchDomains(cx, items[1..])
  }

  // ----- One line -----

  datatype Token =
    | Filler(comment: string)
    | Code(key: string, hasValue: bool, val: string, comment: string)

  predicate IsLineEnd(c: char) {
    c == ' ' || c == '\t' || c == '\r'
  }

  function TrimLineEnd(s: string): string {
    TrimRightBy(s, IsLineEnd)
  }

  /** What a line says: nothing but a comment, or a key, its value and its comment. The
      value of a script key runs to the end of the line. */
  function Lex(line: string): Token {
    var cut := Cut(line, '#');
    var comment := if cut.found then "#" + TrimLineEnd(cut.after) else "";
    var stripped := TrimSpace(cut.before);
    if stripped == "" then Filler(comment)
    else
      var kv := Cut(stripped, '=');
      var key := ToLower(TrimSpace(kv.before));
      if kv.found && IsScriptKey(key) then Code(key, true, TrimSpace(Cut(line, '=').after), "")
      else Code(key, kv.found, TrimSpace(kv.after), comment)
  }

  // ----- The state machine -----

  datatype Section = NoSection | InInterface | InPeer(peer: Peer, wsKeys: seq<string>)

  datatype State = State(section: Section, iface: Interface, sawPrivateKey: bool,
                         peers: seq<Peer>, pending: seq<string>)

  const INITIAL := State(NoSection, EMPTY_INTERFACE, false, [], [])

  function SetInterfaceField(cx: Codecs, i: Interface, f: Field, val: string): Result<Interface>
    requires IsInterfaceField(f)
  {
    match f
    case PrivateKey => var k :- ParseKey(cx, val); Ok(i.(privateKey := k))
    case ListenPort => var p :- ParsePort(val); Ok(i.(listenPort := p))
    case MTU => var m :- ParseMTU(val); Ok(i.(mtu := m))
    case Address =>
      var items :- SplitList(val);
      var ps :- ParsePrefixes(cx, items);
      Ok(i.(addresses := i.addresses + ps))
    case DNS =>
      var items :- SplitList(val);
      Ok(i.(dns := i.dns + Servers(cx, items), dnsSearch := i.dnsSearch + SearchDomains(cx, items)))
    case PreUp => Ok(i.(preUp := val))
    case PostUp => Ok(i.(postUp := val))
    case PreDown => Ok(i.(preDown := val))
    case PostDown => Ok(i.(postDown := val))
    case Table => var off :- ParseTableOff(val); Ok(i.(tableOff := off))
  }

  function SetPeerField(cx: Codecs, p: Peer, f: Field, val: string): Result<Peer>
    requires !IsInterfaceField(f)
  {
    match f
    case PublicKey => var k :- ParseKey(cx, val); Ok(p.(publicKey := k))
    case PresharedKey => var k :- ParseKey(cx, val); Ok(p.(presharedKey := k))
    case AllowedIPs =>
      var items :- SplitList(val);
      var ps :- ParsePrefixes(cx, items);
      Ok(p.(allowedIPs := p.allowedIPs + ps))
    case PersistentKeepalive => var k :- ParseKeepalive(val); Ok(p.(persistentKeepalive := k))
    case PeerEndpoint =>
      if IsWSURL(val) then var e :- ParseWSURL(cx, val); Ok(p.(endpoint := e, wsURL := val))
      else var e :- ParseEndpoint(cx, val); Ok(p.(endpoint := e, wsURL := ""))
    case WSModeField => var m :- ParseWSMode(val); Ok(p.(wsMode := m))
    case WSTunnelTarget =>
      if ParseEndpoint(cx, val).Ok? then Ok(p.(wsTunnelTarget := val)) else Err(InvalidTunnelTarget)
    case WSBearer => Ok(p.(wsBearer := val))
    case WSMask => var b :- ParseBool(val); Ok(p.(wsMask := b))
    case WSTLSCA => Ok(p.(wsTLSCA := val))
    case WSTLSCert => Ok(p.(wsTLSCert := val))
    case WSTLSKey => Ok(p.(wsTLSKey := val))
    case WSTLSInsecure => var b :- ParseBool(val); Ok(p.(wsTLSInsecure := b))
    case WSPingInterval => var m :- ParseMillis(val); Ok(p.(wsPingInterval := m))
    case WSBackoffMin => var m :- ParseMillis(val); Ok(p.(wsBackoffMin := m))
    case WSBackoffMax => var m :- ParseMillis(val); Ok(p.(wsBackoffMax := m))
  }

  /** The WS* keys other than WSMode, which only make sense together with it. */
  predicate IsWSSetting(f: Field) {
    IsWSField(f) && !f.WSModeField?
  }

  /** validateWebSocketPeer. */
  function ValidateWSPeer(p: Peer, wsKeys: seq<string>): Result<()> {
    if p.wsURL != "" && p.wsMode.NoWS? then Err(WSEndpointNeedsMode)
    else if p.wsURL == "" && !p.wsMode.NoWS? && p.endpoint.host != "" then Err(WSModeNeedsWSEndpoint)
    else if p.wsMode.WSTunnel? && p.wsURL == "" then Err(WSTunnelNeedsWSEndpoint)
    else if p.wsMode.WSTunnel? && p.wsTunnelTarget == "" then Err(WSTunnelNeedsTarget)
    else if p.wsTunnelTarget != "" && !p.wsMode.WSTunnel? then Err(TargetNeedsWSTunnel)
    else if p.wsMode.NoWS? && wsKeys != [] then Err(WSSettingsNeedMode)
    else Ok(())
  }

  /** finishPeer: the peer being read, if any, is checked and added. */
  function FinishPeer(s: State): (r: Result<State>)
    ensures r.Ok? ==> r.value.iface == s.iface && r.value.pending == s.pending
                      && r.value.sawPrivateKey == s.sawPrivateKey && !r.value.section.InPeer?
  {
    match s.section
    case InPeer(p, wsKeys) =>
      var _ :- ValidateWSPeer(p, wsKeys);
      Ok(s.(peers := s.peers + [p], section := NoSection))
    case _ => Ok(s)
  }

  function JoinSuffix(a: string, b: string): string {
    if b == "" then a else if a == "" then b else a + " " + b
  }

  function CommentsAt(sc: SectionComments, f: Field): Comments {
    if f in sc.lines then sc.lines[f] else NO_COMMENTS
  }

  /** The comments gathered before a key, and the one after it, join what the key has. */
  function AddComment(sc: SectionComments, f: Field, pending: seq<string>, comment: string): SectionComments {
    if pending == [] && comment == "" then sc
    else
      var c := CommentsAt(sc, f);
      sc.(lines := sc.lines[f := Comments(c.before + pending, JoinSuffix(c.suffix, comment))])
  }

  function StepInterfaceHeader(s: State, comment: string): Result<State> {
    var t :- FinishPeer(s);
    var h := t.iface.comments.header;
    var header := Comments(h.before + t.pending, JoinSuffix(h.suffix, comment));
    Ok(t.(section := InInterface, iface := t.iface.(comments := t.iface.comments.(header := header)), pending := []))
  }

  function NewPeer(header: Comments): Peer {
    EMPTY_PEER.(comments := SectionComments(header, map[]))
  }

  function StepPeerHeader(s: State, comment: string): Result<State> {
    var t :- FinishPeer(s);
    Ok(t.(section := InPeer(NewPeer(Comments(t.pending, comment)), []), pending := []))
  }

  function StepInterfaceKey(cx: Codecs, s: State, key: string, val: string, comment: string): Result<State> {
    var f := InterfaceFieldOf(key);
    if f.None? then Err(InvalidInterfaceKey)
    else
      var i :- SetInterfaceField(cx, s.iface, f.value, val);
      var sc := AddComment(s.iface.comments, f.value, s.pending, comment);
      Ok(s.(iface := i.(comments := sc), sawPrivateKey := s.sawPrivateKey || f.value.PrivateKey?, pending := []))
  }

  function StepPeerKey(cx: Codecs, s: State, key: string, val: string, comment: string): Result<State>
    requires s.section.InPeer?
  {
    var f := PeerFieldOf(key);
    if f.None? then Err(InvalidPeerKey)
    else
      var p :- SetPeerField(cx, s.section.peer, f.value, val);
      var sc := AddComment(s.section.peer.comments, f.value, s.pending, comment);
      var wsKeys := s.section.wsKeys + if IsWSSetting(f.value) then [Name(f.value)] else [];
      Ok(s.(section := InPeer(p.(comments := sc), wsKeys), pending := []))
  }

  /** What one line does. */
  function Step(cx: Codecs, s: State, token: Token): Result<State> {
    match token
    case Filler(comment) => Ok(s.(pending := s.pending + [comment]))
    case Code(key, hasValue, val, comment) =>
      if key == "[interface]" && !hasValue then StepInterfaceHeader(s, comment)
      else if key == "[peer]" && !hasValue then StepPeerHeader(s, comment)
      else if s.section.NoSection? then Err(LineOutsideSection)
      else if !hasValue then Err(MissingEquals)
      else if val == "" then Err(MissingValue)
      else if s.section.InInterface? then StepInterfaceKey(cx, s, key, val, comment)
      else StepPeerKey(cx, s, key, val, comment)
  }

  /** What a sequence of lines does, from the first to the last. */
  function Run(cx: Codecs, s: State, lines: seq<string>): Result<State>
    decreases |lines|
  {
    if lines == [] then Ok(s)
    else
      var t :- Step(cx, s, Lex(lines[0]));
      Run(cx, t, lines[1..])
  }

  // ----- Comment pruning -----

  /** Runs of blank lines become one blank line. */
  function Collapse(run: seq<string>): (out: seq<string>)
    ensures |out| <= |run|
  {
    if run == [] then []
    else
      var out := Collapse(run[..|run| - 1]);
      var line := run[|run| - 1];
      if line == "" && out != [] && out[|out| - 1] == "" then out else out + [line]
  }

  function PruneComments(run: seq<string>, dropLeading: bool, dropTrailing: bool): seq<string> {
    var out := Collapse(run);
    var out := if dropLeading && out != [] && out[0] == "" then out[1..] else out;
    var out := if dropTrailing && out != [] && out[|out| - 1] == "" then out[..|out| - 1] else out;
    if out == [""] then [] else out
  }

  function PruneLine(c: Comments): Comments {
    c.(before := PruneComments(c.before, false, false))
  }

  function PruneSection(sc: SectionComments): SectionComments {
    SectionComments(
      sc.header.(before := PruneComments(sc.header.before, true, false)),
      map f | f in sc.lines && PruneLine(sc.lines[f]) != NO_COMMENTS :: PruneLine(sc.lines[f]))
  }

  function PrunePeer(p: Peer): Peer {
    p.(comments := PruneSection(p.comments))
  }

  function PrunePeers(ps: seq<Peer>): seq<Peer> {
    seq(|ps|, i requires 0 <= i < |ps| => PrunePeer(ps[i]))
  }

  predicate AllHaveKeys(ps: seq<Peer>) {
    forall i :: 0 <= i < |ps| ==> ps[i].publicKey != ZeroKey()
  }

  /** What is left to do at the end of the text. */
  function Finish(name: string, s: State): Result<Config> {
    var t :- FinishPeer(s);
    if !t.sawPrivateKey then Err(NoPrivateKey)
    else if !AllHaveKeys(t.peers) then Err(PeerWithoutPublicKey)
    else
      Ok(Config(name, t.iface.(comments := PruneSection(t.iface.comments)),
                PrunePeers(t.peers), PruneComments(t.pending, false, true)))
  }

  /** FromWgQuick, as a function of the text. */
  function Parse(cx: Codecs, text: string, name: string): Result<Config> {
    if !TunnelNameIsValid(name) then Err(InvalidTunnelName)
    else
      var s :- Run(cx, INITIAL, Split(text, '\n'));
      Finish(name, s)
  }
}
