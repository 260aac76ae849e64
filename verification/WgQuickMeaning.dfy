/**
 * What a wg-quick text says (conf/parser.go), in terms of its lines: which lines belong to which
 * section, and what the lines of a section make of its settings.
 */
module WgQuickMeaning {
  import opened Text
  import opened Netip
  import opened Config
  import opened Entries
  import opened WgQuickParser
  import opened WgQuickLaws
  import opened WgQuickInterface
  import opened WgQuickPeer

  // ----- Lines -----

  predicate AllSpace(s: string) {
    forall c :: c in s ==> IsSpace(c)
  }

  /** Nothing, or a comment to the end of the line. */
  predicate IsTail(s: string) {
    s == "" || s[0] == '#'
  }

  function CommentOf(tail: string): string {
    if tail == "" then "" else "#" + TrimLineEnd(tail[1..])
  }

  /** A text without '#', white space around it, and maybe a comment. */
  lemma {:induction false} CutComment(left: string, mid: string, right: string, tail: string)
    requires AllSpace(left) && mid != "" && Trimmed(mid) && '#' !in mid && AllSpace(right) && IsTail(tail)
    ensures var cut := Cut(left + mid + right + tail, '#');
      && TrimSpace(cut.before) == mid
      && (if cut.found then "#" + TrimLineEnd(cut.after) else "") == CommentOf(tail)
  {
    hide TrimSpace, TrimLineEnd, Cut;
    var code := left + mid + right;
    assert '#' !in code;
    if tail == "" {
      assert code + tail == code;
      CutAbsent(code, '#');
    } else {
      assert code + tail == code + ['#'] + tail[1..];
      CutAt(code, '#', tail[1..]);
    }
    TrimSpaceAround(left, mid, right);
  }

  lemma {:induction false} CutKey(key: string, m: string, after: string)
    requires key != "" && Trimmed(key) && '=' !in key && AllSpace(m)
    ensures Cut(key + m + "=" + after, '=') == CutResult(key + m, after, true) && TrimSpace(key + m) == key
  {
    hide TrimSpace, Cut;
    assert key + m + "=" + after == (key + m) + ['='] + after;
    CutAt(key + m, '=', after);
    assert "" + key + m == key + m;
    TrimSpaceAround("", key, m);
  }

  /** What a line with a key and a value is read as, however it is spaced. */
  lemma {:induction false} LexEntry(l: string, key: string, m: string, r: string, val: string, t: string, tail: string)
    requires AllSpace(l) && AllSpace(m) && AllSpace(r) && AllSpace(t) && IsTail(tail)
    requires key != "" && Trimmed(key) && '=' !in key && '#' !in key && !IsScriptKey(ToLower(key))
    requires val != "" && Trimmed(val) && '#' !in val
    ensures Lex(l + (key + m + "=" + (r + val)) + t + tail) == Code(ToLower(key), true, val, CommentOf(tail))
  {
    hide TrimSpace, TrimLineEnd, Cut, IsScriptKey, ToLower;
    var mid := key + m + "=" + (r + val);
    assert mid[0] == key[0] && mid[|mid| - 1] == val[|val| - 1];
    CutComment(l, mid, t, tail);
    CutKey(key, m, r + val);
    assert r + val + "" == r + val;
    TrimSpaceAround(r, val, "");
  }

  /** The value of a script runs to the end of the line, '#' and all. */
  lemma {:induction false} LexScript(l: string, key: string, m: string, r: string, val: string, t: string)
    requires AllSpace(l) && AllSpace(m) && AllSpace(r) && AllSpace(t)
    requires key != "" && Trimmed(key) && '=' !in key && '#' !in key && IsScriptKey(ToLower(key))
    requires val != "" && Trimmed(val)
    ensures Lex(l + key + m + "=" + (r + val + t)) == Code(ToLower(key), true, val, "")
  {
    hide TrimSpace, TrimLineEnd, Cut, IsScriptKey, ToLower;
    var front, rest := key + m + "=", r + val + t;
    var line := l + key + m + "=" + rest;
    assert line == (l + front) + rest;
    var tail := CutKeepsPrefix(l + front, rest, '#');
    TrimScript(l, front, tail);
    CutKey(key, m, TrimRightBy(tail, IsSpace));
    assert line == (l + key + m) + ['='] + rest;
    CutAt(l + key + m, '=', rest);
    TrimSpaceAround(r, val, t);
  }

  lemma {:induction false} TrimScript(l: string, front: string, tail: string)
    requires AllSpace(l) && front != "" && Trimmed(front)
    ensures TrimSpace(l + front + tail) == front + TrimRightBy(tail, IsSpace)
  {
    hide TrimRightBy;
    TrimKeepsPrefix(front, tail);
    TrimLeftUnique(l + front + tail, IsSpace, |l|);
    assert (l + front + tail)[|l|..] == front + tail;
    TrimLeftUnique(front + tail, IsSpace, 0);
    assert (front + tail)[0..] == front + tail;
  }

  /** A line without '='. */
  lemma {:induction false} LexBare(l: string, header: string, t: string, tail: string)
    requires AllSpace(l) && AllSpace(t) && IsTail(tail)
    requires header != "" && Trimmed(header) && '=' !in header && '#' !in header
    ensures Lex(l + header + t + tail) == Code(ToLower(header), false, "", CommentOf(tail))
  {
    hide TrimSpace, TrimLineEnd, Cut, IsScriptKey, ToLower;
    CutComment(l, header, t, tail);
    CutAbsent(header, '=');
    assert "" + header + "" == header;
    TrimSpaceAround("", header, "");
    assert TrimSpace("") == "" by { TrimNothing(); }
  }

  lemma {:induction false} TrimNothing()
    ensures TrimSpace("") == ""
  {
  }

  // ----- Sections of a text -----

  /** The line is a section header of the given name. */
  predicate IsHeader(line: string, header: string) {
    Lex(line).Code? && !Lex(line).hasValue && Lex(line).key == header
  }

  predicate IsAnyHeader(line: string) {
    IsHeader(line, "[interface]") || IsHeader(line, "[peer]")
  }

  /** The key and the value on a line that has them. */
  function EntryOn(line: string): seq<Entry> {
    if Lex(line).Code? then [Entry(Lex(line).key, Lex(line).val)] else []
  }

  /** The keys and values up to the next header. */
  function Body(lines: seq<string>): seq<Entry> {
    if lines == [] || IsAnyHeader(lines[0]) then [] else EntryOn(lines[0]) + Body(lines[1..])
  }

  /** Those of all [Interface] sections together. */
  function InterfaceBody(lines: seq<string>): seq<Entry> {
    if lines == [] then []
    else (if IsHeader(lines[0], "[interface]") then Body(lines[1..]) else []) + InterfaceBody(lines[1..])
  }

  /** Those of every [Peer] section. */
  function PeerBodies(lines: seq<string>): seq<seq<Entry>> {
    if lines == [] then []
    else (if IsHeader(lines[0], "[peer]") then [Body(lines[1..])] else []) + PeerBodies(lines[1..])
  }

  // ----- What the lines of a section say -----

  predicate ReadsKey(cx: Codecs, v: Option<string>, before: Key, after: Key) {
    if v.None? then after == before else cx.decodeKey(v.value) == Some(after)
  }

  /** "off", or one of the ways to say that routes are set. */
  predicate ReadsTable(v: Option<string>, before: bool, after: bool) {
    if v.None? then after == before
    else if v.value == "off" then after
    else !after && (v.value == "auto" || v.value == "main" || IsCount(v.value, 0xffff_ffff))
  }

  /** What lines make of one setting of an interface. */
  predicate InterfaceSaysOf(cx: Codecs, es: seq<Entry>, i: Interface, j: Interface, f: Field) {
    match f
    case PrivateKey => ReadsKey(cx, Last(es, "privatekey"), i.privateKey, j.privateKey)
    case ListenPort => ReadsNumber(Last(es, "listenport"), 0, 65535, i.listenPort, j.listenPort)
    case MTU => ReadsNumber(Last(es, "mtu"), 576, 65535, i.mtu, j.mtu)
    case Address => Appended(cx, AllItems(es, "address"), i.addresses, j.addresses)
    case DNS =>
      && j.dns == i.dns + Servers(cx, AllItems(es, "dns"))
      && j.dnsSearch == i.dnsSearch + SearchDomains(cx, AllItems(es, "dns"))
    case PreUp => ReadsText(Last(es, "preup"), i.preUp, j.preUp)
    case PostUp => ReadsText(Last(es, "postup"), i.postUp, j.postUp)
    case PreDown => ReadsText(Last(es, "predown"), i.preDown, j.preDown)
    case PostDown => ReadsText(Last(es, "postdown"), i.postDown, j.postDown)
    case Table => ReadsTable(Last(es, "table"), i.tableOff, j.tableOff)
    case _ => true
  }

  ghost predicate InterfaceSays(cx: Codecs, es: seq<Entry>, i: Interface, j: Interface) {
    forall f :: InterfaceSaysOf(cx, es, i, j, f)
  }

  /** An endpoint is a URL if it begins with a WebSocket scheme, in any letter case. */
  predicate ReadsEndpoint(cx: Codecs, v: Option<string>, p: Peer, q: Peer) {
    if v.None? then q.endpoint == p.endpoint && q.wsURL == p.wsURL
    else if HasPrefix(ToLower(v.value), "ws://") || HasPrefix(ToLower(v.value), "wss://") then
      q.wsURL == v.value && ParseWSURL(cx, v.value) == Ok(q.endpoint)
    else q.wsURL == "" && ParseEndpoint(cx, v.value) == Ok(q.endpoint)
  }

  /** The text of an endpoint: a host without colons and brackets, or an IPv6 address in brackets;
      then a colon and the port. */
  lemma {:induction false} EndpointText(cx: Codecs, s: string, e: HostPort) returns (port: string)
    requires ParseEndpoint(cx, s) == Ok(e)
    ensures Atoi(port) == Some(e.port) && ':' !in port && 0 <= e.port <= 65535
    ensures if ':' in e.host then s == "[" + e.host + "]:" + port && BracketedIPv6(cx, "[" + e.host + "]")
      else s == e.host + ":" + port && e.host[0] != '[' && e.host[|e.host| - 1] != ']'
  {
    hide BracketedIPv6, Atoi;
    var i := LastIndexOf(s, ':');
    var host := s[..i];
    port := s[i + 1..];
    assert s == host + ":" + port;
    assert ':' !in port by {
      forall k | 0 <= k < |port| ensures port[k] != ':' { assert port[k] == s[i + 1 + k]; }
    }
    if host[0] == '[' || host[|host| - 1] == ']' || ':' in host {
      Bracketed(cx, host);
      assert host == "[" + e.host + "]";
    }
  }

  lemma {:induction false} Bracketed(cx: Codecs, host: string)
    requires BracketedIPv6(cx, host)
    ensures |host| > 3 && host == "[" + host[1..|host| - 1] + "]" && ':' in host[1..|host| - 1]
  {
    var i := IndexOf(host, ':');
    assert host[1..|host| - 1][i - 1] == ':';
  }

  /** A WebSocket URL has scheme, host and port, no user, and a path if there is more behind it; the
      endpoint is its host and its port. */
  lemma {:induction false} WSURLText(cx: Codecs, s: string, e: HostPort)
    requires ParseWSURL(cx, s) == Ok(e)
    ensures cx.parseURL(s).Some?
    ensures var u := cx.parseURL(s).value;
      && (u.scheme == "ws" || u.scheme == "wss") && !u.hasOpaque && !u.hasUser
      && (u.path == "" ==> !u.hasQuery && !u.hasFragment) && u.hostname != "" && u.port != ""
      && (':' !in u.port ==> e.host == u.hostname && Atoi(u.port) == Some(e.port))
  {
    hide ParseEndpoint, Atoi, BracketedIPv6;
    var u := cx.parseURL(s).value;
    var text := InBrackets(u.hostname) + ":" + u.port;
    assert ParseEndpoint(cx, text) == Ok(e);
    var port := EndpointText(cx, text, e);
    if ':' !in u.port {
      assert text == InBrackets(e.host) + ":" + port;
      LastColonSplits(InBrackets(u.hostname), u.port, InBrackets(e.host), port);
      InBracketsTellsHosts(u.hostname, e.host);
    }
  }

  lemma {:induction false} LastColonSplits(a: string, p: string, b: string, q: string)
    requires a + ":" + p == b + ":" + q && ':' !in p && ':' !in q
    ensures a == b && p == q
  {
    var s := a + ":" + p;
    assert s[|a|] == ':' && (b + ":" + q)[|b|] == ':';
    assert |a| == |b|;
    assert a == s[..|a|] == b && p == s[|a| + 1..] == q;
  }

  function InBrackets(host: string): string {
    if ':' in host then "[" + host + "]" else host
  }

  lemma {:induction false} InBracketsTellsHosts(a: string, b: string)
    requires InBrackets(a) == InBrackets(b)
    ensures a == b
  {
    assert ':' in InBrackets(a) <==> ':' in a;
    assert ':' in InBrackets(b) <==> ':' in b;
    if ':' in a { assert a == InBrackets(a)[1..|a| + 1] && b == InBrackets(b)[1..|b| + 1]; }
  }

  predicate ReadsMode(v: Option<string>, before: WSMode, after: WSMode) {
    if v.None? then after == before
    else
      match after
      case WebSocket => ToLower(v.value) == "websocket"
      case WSTunnel => ToLower(v.value) == "wstunnel"
      case NoWS => false
  }

  /** What lines make of one setting of a peer. */
  predicate PeerSaysOf(cx: Codecs, es: seq<Entry>, p: Peer, q: Peer, f: Field) {
    match f
    case PublicKey => ReadsKey(cx, Last(es, "publickey"), p.publicKey, q.publicKey)
    case PresharedKey => ReadsKey(cx, Last(es, "presharedkey"), p.presharedKey, q.presharedKey)
    case AllowedIPs => Appended(cx, AllItems(es, "allowedips"), p.allowedIPs, q.allowedIPs)
    case PeerEndpoint => ReadsEndpoint(cx, Last(es, "endpoint"), p, q)
    case PersistentKeepalive =>
      ReadsKeepalive(Last(es, "persistentkeepalive"), p.persistentKeepalive, q.persistentKeepalive)
    case WSModeField => ReadsMode(Last(es, "wsmode"), p.wsMode, q.wsMode)
    case WSTunnelTarget => ReadsText(Last(es, "wstunneltarget"), p.wsTunnelTarget, q.wsTunnelTarget)
    case WSBearer => ReadsText(Last(es, "wsbearer"), p.wsBearer, q.wsBearer)
    case WSMask => ReadsBool(Last(es, "wsmask"), p.wsMask, q.wsMask)
    case WSTLSCA => ReadsText(Last(es, "wstlsca"), p.wsTLSCA, q.wsTLSCA)
    case WSTLSCert => ReadsText(Last(es, "wstlscert"), p.wsTLSCert, q.wsTLSCert)
    case WSTLSKey => ReadsText(Last(es, "wstlskey"), p.wsTLSKey, q.wsTLSKey)
    case WSTLSInsecure => ReadsBool(Last(es, "wstlsinsecure"), p.wsTLSInsecure, q.wsTLSInsecure)
    case WSPingInterval => ReadsCount(Last(es, "wspinginterval"), MAX_UINT32, p.wsPingInterval, q.wsPingInterval)
    case WSBackoffMin => ReadsCount(Last(es, "wsbackoffmin"), MAX_UINT32, p.wsBackoffMin, q.wsBackoffMin)
    case WSBackoffMax => ReadsCount(Last(es, "wsbackoffmax"), MAX_UINT32, p.wsBackoffMax, q.wsBackoffMax)
    case _ => true
  }

  ghost predicate PeerSays(cx: Codecs, es: seq<Entry>, p: Peer, q: Peer) {
    forall f :: PeerSaysOf(cx, es, p, q, f)
  }

  ghost predicate PeersSay(cx: Codecs, bodies: seq<seq<Entry>>, ps: seq<Peer>) {
    |ps| == |bodies| && forall k :: 0 <= k < |ps| ==> PeerSays(cx, bodies[k], EMPTY_PEER, ps[k])
  }

  // ----- No line, and lines after lines -----

  /** No line about a setting, and the setting stays. */
  lemma {:induction false} InterfaceUnsaid(cx: Codecs, es: seq<Entry>, i: Interface, j: Interface, f: Field)
    requires Last(es, LowerName(f)).None? && AllItems(es, LowerName(f)) == [] && SameInterfaceValue(j, i, f)
    ensures InterfaceSaysOf(cx, es, i, j, f)
  {
    hide Last, AllItems;
    assert i.dns + [] == i.dns && i.dnsSearch + [] == i.dnsSearch;
  }

  lemma {:induction false} PeerUnsaid(cx: Codecs, es: seq<Entry>, p: Peer, q: Peer, f: Field)
    requires Last(es, LowerName(f)).None? && AllItems(es, LowerName(f)) == [] && SamePeerValue(q, p, f)
    ensures PeerSaysOf(cx, es, p, q, f)
  {
    hide Last, AllItems, ParseEndpoint, ParseWSURL;
  }

  lemma {:induction false} NothingSaid(cx: Codecs, i: Interface, p: Peer)
    ensures InterfaceSays(cx, [], i, i) && PeerSays(cx, [], p, p)
  {
    hide InterfaceSaysOf, PeerSaysOf, LowerName;
    forall f ensures InterfaceSaysOf(cx, [], i, i, f) && PeerSaysOf(cx, [], p, p, f) {
      InterfaceUnsaid(cx, [], i, i, f);
      PeerUnsaid(cx, [], p, p, f);
    }
  }

  lemma {:induction false} ServersAppend(cx: Codecs, a: seq<string>, b: seq<string>)
    ensures Servers(cx, a + b) == Servers(cx, a) + Servers(cx, b)
    ensures SearchDomains(cx, a + b) == SearchDomains(cx, a) + SearchDomains(cx, b)
  {
    if a == [] {
      assert a + b == b;
    } else {
      assert (a + b)[1..] == a[1..] + b;
      ServersAppend(cx, a[1..], b);
    }
  }

  lemma {:induction false} InterfaceSaysTwiceOf(cx: Codecs, a: seq<Entry>, b: seq<Entry>,
                                                i: Interface, j: Interface, k: Interface, f: Field)
    requires InterfaceSaysOf(cx, a, i, j, f) && InterfaceSaysOf(cx, b, j, k, f)
    ensures InterfaceSaysOf(cx, a + b, i, k, f)
  {
    hide Appended, AllItems, Last, Servers, SearchDomains, Atoi, AllDigits;
    LastAppend(a, b, LowerName(f));
    AllItemsAppend(a, b, LowerName(f));
    if f.Address? {
      AppendedTwice(cx, AllItems(a, "address"), AllItems(b, "address"), i.addresses, j.addresses, k.addresses);
    } else if f.DNS? {
      ServersAppend(cx, AllItems(a, "dns"), AllItems(b, "dns"));
    }
  }

  lemma {:induction false} InterfaceSaysTwice(cx: Codecs, a: seq<Entry>, b: seq<Entry>,
                                              i: Interface, j: Interface, k: Interface)
    requires InterfaceSays(cx, a, i, j) && InterfaceSays(cx, b, j, k)
    ensures InterfaceSays(cx, a + b, i, k)
  {
    hide InterfaceSaysOf;
    forall f ensures InterfaceSaysOf(cx, a + b, i, k, f) { InterfaceSaysTwiceOf(cx, a, b, i, j, k, f); }
  }

  lemma {:induction false} PeerSaysTwiceOf(cx: Codecs, a: seq<Entry>, b: seq<Entry>,
                                           p: Peer, q: Peer, r: Peer, f: Field)
    requires PeerSaysOf(cx, a, p, q, f) && PeerSaysOf(cx, b, q, r, f)
    ensures PeerSaysOf(cx, a + b, p, r, f)
  {
    hide Appended, AllItems, Last, Atoi, AllDigits, Digits, ParseEndpoint, ParseWSURL, ToLower, HasPrefix;
    LastAppend(a, b, LowerName(f));
    AllItemsAppend(a, b, LowerName(f));
    if f.AllowedIPs? {
      var s, t := AllItems(a, "allowedips"), AllItems(b, "allowedips");
      AppendedTwice(cx, s, t, p.allowedIPs, q.allowedIPs, r.allowedIPs);
    }
  }

  lemma {:induction false} PeerSaysTwice(cx: Codecs, a: seq<Entry>, b: seq<Entry>, p: Peer, q: Peer, r: Peer)
    requires PeerSays(cx, a, p, q) && PeerSays(cx, b, q, r)
    ensures PeerSays(cx, a + b, p, r)
  {
    hide PeerSaysOf;
    forall f ensures PeerSaysOf(cx, a + b, p, r, f) { PeerSaysTwiceOf(cx, a, b, p, q, r, f); }
  }

  // ----- One line -----

  lemma {:induction false} SplitListIsItems(val: string)
    requires SplitList(val).Ok?
    ensures SplitList(val).value == ItemsOf(val)
  {
    TrimPartsAreTrimmed(Split(val, ','));
  }

  lemma {:induction false} TrimPartsAreTrimmed(parts: seq<string>)
    requires TrimParts(parts).Ok?
    ensures forall i :: 0 <= i < |parts| ==> TrimParts(parts).value[i] == TrimSpace(parts[i])
  {
    hide TrimSpace;
    if parts == [] {
    } else {
      TrimPartsAreTrimmed(parts[1..]);
    }
  }

  lemma {:induction false} ParsedPrefixesAppend(cx: Codecs, items: seq<string>, before: seq<Prefix>)
    requires ParsePrefixes(cx, items).Ok?
    ensures Appended(cx, items, before, before + ParsePrefixes(cx, items).value)
    decreases |items|
  {
    if items == [] {
    } else {
      var p := ParseIPCidr(cx, items[0]).value;
      var rest := ParsePrefixes(cx, items[1..]).value;
      ParsedPrefixesAppend(cx, items[1..], before + [p]);
      assert before + [p] + rest == before + ([p] + rest);
      assert items == [items[0]] + items[1..];
      AppendedTwice(cx, [items[0]], items[1..], before, before + [p], before + ([p] + rest));
    }
  }

  /** A line with the key of one setting says nothing about another. */
  lemma {:induction false} OtherKey(f: Field, g: Field)
    requires IsInterfaceField(f) <==> IsInterfaceField(g)
    ensures LowerName(f) == LowerName(g) <==> f == g
  {
    hide LowerName;
    if IsInterfaceField(f) {
      InterfaceFieldOfLowerName(f);
      InterfaceFieldOfLowerName(g);
    } else {
      PeerFieldOfLowerName(f);
      PeerFieldOfLowerName(g);
    }
  }

  lemma {:induction false} InterfaceKeyIsName(key: string)
    requires InterfaceFieldOf(key).Some?
    ensures key == LowerName(InterfaceFieldOf(key).value)
  {
  }

  lemma {:induction false} PeerKeyIsName(key: string)
    requires PeerFieldOf(key).Some?
    ensures key == LowerName(PeerFieldOf(key).value)
  {
  }

  /** The only line there is speaks about setting f; what it says about setting g. */
  lemma {:induction false} Speaks(f: Field, val: string, g: Field)
    requires IsInterfaceField(f) <==> IsInterfaceField(g)
    ensures Last([Entry(LowerName(f), val)], LowerName(g)) == if f == g then Some(val) else None
    ensures AllItems([Entry(LowerName(f), val)], LowerName(g)) == if f == g then ItemsOf(val) else []
  {
    hide LowerName;
    OtherKey(f, g);
    OneEntry(Entry(LowerName(f), val), LowerName(g));
  }

  lemma {:induction false} InterfaceSaid(cx: Codecs, i: Interface, f: Field, val: string)
    requires IsInterfaceField(f) && SetInterfaceField(cx, i, f, val).Ok?
    ensures InterfaceSaysOf(cx, [Entry(LowerName(f), val)], i, SetInterfaceField(cx, i, f, val).value, f)
  {
    hide ItemsOf, Appended, Servers, SearchDomains, Last, AllItems, Atoi;
    OneEntry(Entry(LowerName(f), val), LowerName(f));
    if f.Address? || f.DNS? { SplitListIsItems(val); }
    if f.Address? { ParsedPrefixesAppend(cx, ItemsOf(val), i.addresses); }
  }

  /** What one line makes of an interface. */
  lemma {:induction false} InterfaceLine(cx: Codecs, i: Interface, f: Field, val: string)
    requires IsInterfaceField(f) && SetInterfaceField(cx, i, f, val).Ok?
    ensures InterfaceSays(cx, [Entry(LowerName(f), val)], i, SetInterfaceField(cx, i, f, val).value)
  {
    hide LowerName, InterfaceSaysOf, SetInterfaceField, Last, AllItems;
    var es, j := [Entry(LowerName(f), val)], SetInterfaceField(cx, i, f, val).value;
    SetInterfaceFrame(cx, i, f, val);
    forall g ensures InterfaceSaysOf(cx, es, i, j, g) {
      if g == f {
        InterfaceSaid(cx, i, f, val);
      } else if IsInterfaceField(g) {
        Speaks(f, val, g);
        InterfaceUnsaid(cx, es, i, j, g);
      } else {
        NoInterfaceSetting(cx, es, i, j, g);
      }
    }
  }

  lemma {:induction false} NoInterfaceSetting(cx: Codecs, es: seq<Entry>, i: Interface, j: Interface, f: Field)
    requires !IsInterfaceField(f)
    ensures InterfaceSaysOf(cx, es, i, j, f)
  {
  }

  lemma {:induction false} NoPeerSetting(cx: Codecs, es: seq<Entry>, p: Peer, q: Peer, f: Field)
    requires IsInterfaceField(f)
    ensures PeerSaysOf(cx, es, p, q, f)
  {
  }

  lemma {:induction false} PeerSaid(cx: Codecs, p: Peer, f: Field, val: string)
    requires !IsInterfaceField(f) && SetPeerField(cx, p, f, val).Ok?
    ensures PeerSaysOf(cx, [Entry(LowerName(f), val)], p, SetPeerField(cx, p, f, val).value, f)
  {
    hide LowerName, SetPeerField, PeerSaysOf;
    if IsWSField(f) { WebSocketSaid(cx, p, f, val); } else { WireGuardSaid(cx, p, f, val); }
  }

  lemma {:induction false} WireGuardSaid(cx: Codecs, p: Peer, f: Field, val: string)
    requires !IsInterfaceField(f) && !IsWSField(f) && SetPeerField(cx, p, f, val).Ok?
    ensures PeerSaysOf(cx, [Entry(LowerName(f), val)], p, SetPeerField(cx, p, f, val).value, f)
  {
    hide ItemsOf, Appended, Last, AllItems, Atoi, ParseEndpoint, ParseWSURL, ToLower, HasPrefix;
    hide ParseWSMode, ParseBool, ParseMillis, SplitList, ParsePrefixes;
    OneEntry(Entry(LowerName(f), val), LowerName(f));
    if f.AllowedIPs? {
      SplitListIsItems(val);
      ParsedPrefixesAppend(cx, ItemsOf(val), p.allowedIPs);
    }
  }

  lemma {:induction false} WebSocketSaid(cx: Codecs, p: Peer, f: Field, val: string)
    requires IsWSField(f) && SetPeerField(cx, p, f, val).Ok?
    ensures PeerSaysOf(cx, [Entry(LowerName(f), val)], p, SetPeerField(cx, p, f, val).value, f)
  {
    hide Last, AllItems, Appended, Digits, AllDigits, ToLower, ParseEndpoint, ParseWSURL, SplitList, ParsePrefixes;
    hide ParseKey, ParseKeepalive, IsWSURL;
    OneEntry(Entry(LowerName(f), val), LowerName(f));
  }

  lemma {:induction false} PeerLine(cx: Codecs, p: Peer, f: Field, val: string)
    requires !IsInterfaceField(f) && SetPeerField(cx, p, f, val).Ok?
    ensures PeerSays(cx, [Entry(LowerName(f), val)], p, SetPeerField(cx, p, f, val).value)
  {
    hide LowerName, PeerSaysOf, SetPeerField, Last, AllItems;
    var es, q := [Entry(LowerName(f), val)], SetPeerField(cx, p, f, val).value;
    SetPeerFrame(cx, p, f, val);
    forall g ensures PeerSaysOf(cx, es, p, q, g) {
      if g == f {
        PeerSaid(cx, p, f, val);
      } else if !IsInterfaceField(g) {
        Speaks(f, val, g);
        PeerUnsaid(cx, es, p, q, g);
      } else {
        NoPeerSetting(cx, es, p, q, g);
      }
    }
  }

  // ----- Comments are no settings -----

  lemma {:induction false} CommentsSayNothing(cx: Codecs, es: seq<Entry>, i: Interface, j: Interface,
                                              a: SectionComments, b: SectionComments)
    requires InterfaceSays(cx, es, i, j)
    ensures InterfaceSays(cx, es, i.(comments := a), j.(comments := b))
  {
    hide Last, AllItems, Appended, Servers, SearchDomains;
    forall f ensures InterfaceSaysOf(cx, es, i.(comments := a), j.(comments := b), f) {
      assert InterfaceSaysOf(cx, es, i, j, f);
    }
  }

  lemma {:induction false} PeerCommentsSayNothing(cx: Codecs, es: seq<Entry>, p: Peer, q: Peer,
                                                  a: SectionComments, b: SectionComments)
    requires PeerSays(cx, es, p, q)
    ensures PeerSays(cx, es, p.(comments := a), q.(comments := b))
  {
    hide Last, AllItems, Appended, ParseEndpoint, ParseWSURL;
    forall f ensures PeerSaysOf(cx, es, p.(comments := a), q.(comments := b), f) {
      assert PeerSaysOf(cx, es, p, q, f);
    }
  }

  // ----- All lines -----

  /** What the lines to come make of the peers: the one being read, and those behind it. */
  ghost predicate PeersFrom(cx: Codecs, s: State, lines: seq<string>, ps: seq<Peer>) {
    var n := |s.peers|;
    && n <= |ps| && ps[..n] == s.peers
    && if s.section.InPeer? then
         && n < |ps| && PeerSays(cx, Body(lines), s.section.peer, ps[n])
         && PeersSay(cx, PeerBodies(lines), ps[n + 1..])
       else PeersSay(cx, PeerBodies(lines), ps[n..])
  }

  function InterfaceFrom(s: State, lines: seq<string>): seq<Entry> {
    (if s.section.InInterface? then Body(lines) else []) + InterfaceBody(lines)
  }

  /** From any state on. */
  ghost predicate Says(cx: Codecs, s: State, lines: seq<string>, t: State) {
    && InterfaceSays(cx, InterfaceFrom(s, lines), s.iface, t.iface)
    && FinishPeer(t).Ok? && PeersFrom(cx, s, lines, FinishPeer(t).value.peers)
  }

  lemma {:induction false} FillerSays(cx: Codecs, s: State, line: string, rest: seq<string>, t: State)
    requires Lex(line).Filler? && Says(cx, Step(cx, s, Lex(line)).value, rest, t)
    ensures Says(cx, s, [line] + rest, t)
  {
    hide Lex, Body, InterfaceBody, PeerBodies, InterfaceSays, PeersSay, PeerSays, FinishPeer;
    FillerLine(line, rest);
  }

  lemma {:induction false} FillerLine(line: string, rest: seq<string>)
    requires Lex(line).Filler?
    ensures var lines := [line] + rest;
      && Body(lines) == Body(rest) && InterfaceBody(lines) == InterfaceBody(rest)
      && PeerBodies(lines) == PeerBodies(rest)
  {
    hide Lex;
    assert ([line] + rest)[1..] == rest;
    assert [] + Body(rest) == Body(rest);
  }

  lemma {:induction false} HeaderLine(line: string, rest: seq<string>)
    requires IsAnyHeader(line)
    ensures var lines := [line] + rest;
      && Body(lines) == []
      && InterfaceBody(lines)
        == (if IsHeader(line, "[interface]") then Body(rest) else []) + InterfaceBody(rest)
      && PeerBodies(lines) == (if IsHeader(line, "[peer]") then [Body(rest)] else []) + PeerBodies(rest)
  {
    hide Lex, IsAnyHeader, IsHeader;
    assert ([line] + rest)[1..] == rest;
  }

  lemma {:induction false} KeyLine(line: string, rest: seq<string>)
    requires Lex(line).Code? && !IsAnyHeader(line)
    ensures var lines := [line] + rest;
      && Body(lines) == [Entry(Lex(line).key, Lex(line).val)] + Body(rest)
      && InterfaceBody(lines) == InterfaceBody(rest) && PeerBodies(lines) == PeerBodies(rest)
  {
    hide Lex;
    assert ([line] + rest)[1..] == rest;
  }

  /** The peer being read is finished, and nothing more is said about it. */
  lemma {:induction false} FinishedSays(cx: Codecs, s: State, ps: seq<Peer>)
    requires FinishPeer(s).Ok? && |FinishPeer(s).value.peers| <= |ps|
    requires ps[..|FinishPeer(s).value.peers|] == FinishPeer(s).value.peers
    ensures var n := |s.peers|;
      && n <= |ps| && ps[..n] == s.peers
      && (s.section.InPeer? ==>
        && n < |ps| && PeerSays(cx, [], s.section.peer, ps[n])
        && ps[n + 1..] == ps[|FinishPeer(s).value.peers|..])
      && (!s.section.InPeer? ==> ps[n..] == ps[|FinishPeer(s).value.peers|..])
  {
    hide ValidateWSPeer, PeerSays, InterfaceSays;
    var n, qs := |s.peers|, FinishPeer(s).value.peers;
    assert ps[..n] == ps[..|qs|][..n] == s.peers;
    if s.section.InPeer? {
      NothingSaid(cx, s.iface, s.section.peer);
      assert ps[n] == ps[..|qs|][n] == s.section.peer;
    }
  }

  lemma {:induction false} InterfaceHeaderSays(cx: Codecs, s: State, line: string, rest: seq<string>, t: State)
    requires IsHeader(line, "[interface]") && StepInterfaceHeader(s, Lex(line).comment).Ok?
    requires Says(cx, StepInterfaceHeader(s, Lex(line).comment).value, rest, t)
    ensures Says(cx, s, [line] + rest, t)
  {
    hide Lex, Body, InterfaceBody, PeerBodies, InterfaceSays, PeersSay, PeerSays, FinishPeer;
    var s1 := StepInterfaceHeader(s, Lex(line).comment).value;
    HeaderLine(line, rest);
    FinishedSays(cx, s, FinishPeer(t).value.peers);
    assert [] + PeerBodies(rest) == PeerBodies(rest);
    assert [] + (Body(rest) + InterfaceBody(rest)) == Body(rest) + InterfaceBody(rest);
    CommentsSayNothing(cx, Body(rest) + InterfaceBody(rest), s1.iface, t.iface, s.iface.comments, t.iface.comments);
  }

  lemma {:induction false} PeerHeaderSays(cx: Codecs, s: State, line: string, rest: seq<string>, t: State)
    requires IsHeader(line, "[peer]") && StepPeerHeader(s, Lex(line).comment).Ok?
    requires Says(cx, StepPeerHeader(s, Lex(line).comment).value, rest, t)
    ensures Says(cx, s, [line] + rest, t)
  {
    hide Lex, Body, InterfaceBody, PeerBodies, InterfaceSays, PeerSays, FinishPeer;
    var s1, ps := StepPeerHeader(s, Lex(line).comment).value, FinishPeer(t).value.peers;
    HeaderLine(line, rest);
    FinishedSays(cx, s, ps);
    var n, p := |s1.peers|, s1.section.peer;
    PeerCommentsSayNothing(cx, Body(rest), p, ps[n], NO_SECTION_COMMENTS, ps[n].comments);
    assert p.(comments := NO_SECTION_COMMENTS) == EMPTY_PEER;
    assert ps[n..] == [ps[n]] + ps[n + 1..];
    assert [] + ([] + InterfaceBody(rest)) == InterfaceBody(rest) == [] + InterfaceBody(rest);
  }

  lemma {:induction false} InterfaceKeySays(cx: Codecs, s: State, line: string, rest: seq<string>, t: State)
    requires Lex(line).Code? && !IsAnyHeader(line) && s.section.InInterface?
    requires StepInterfaceKey(cx, s, Lex(line).key, Lex(line).val, Lex(line).comment).Ok?
    requires Says(cx, StepInterfaceKey(cx, s, Lex(line).key, Lex(line).val, Lex(line).comment).value, rest, t)
    ensures Says(cx, s, [line] + rest, t)
  {
    hide Lex, Body, InterfaceBody, PeerBodies, InterfaceSays, PeersSay, PeerSays, FinishPeer, SetInterfaceField;
    hide LowerName, InterfaceFieldOf;
    var key, val := Lex(line).key, Lex(line).val;
    var f := InterfaceFieldOf(key).value;
    var s1 := StepInterfaceKey(cx, s, key, val, Lex(line).comment).value;
    KeyLine(line, rest);
    InterfaceKeyIsName(key);
    InterfaceLine(cx, s.iface, f, val);
    var es, j := [Entry(key, val)], SetInterfaceField(cx, s.iface, f, val).value;
    CommentsSayNothing(cx, es, s.iface, j, s.iface.comments, s1.iface.comments);
    InterfaceSaysTwice(cx, es, Body(rest) + InterfaceBody(rest), s.iface, s1.iface, t.iface);
    assert es + (Body(rest) + InterfaceBody(rest)) == (es + Body(rest)) + InterfaceBody(rest);
  }

  lemma {:induction false} PeerKeySays(cx: Codecs, s: State, line: string, rest: seq<string>, t: State)
    requires Lex(line).Code? && !IsAnyHeader(line) && s.section.InPeer?
    requires StepPeerKey(cx, s, Lex(line).key, Lex(line).val, Lex(line).comment).Ok?
    requires Says(cx, StepPeerKey(cx, s, Lex(line).key, Lex(line).val, Lex(line).comment).value, rest, t)
    ensures Says(cx, s, [line] + rest, t)
  {
    hide Lex, Body, InterfaceBody, PeerBodies, InterfaceSays, PeersSay, PeerSays, FinishPeer, SetPeerField, LowerName;
    hide PeerFieldOf;
    var key, val := Lex(line).key, Lex(line).val;
    var f := PeerFieldOf(key).value;
    var s1 := StepPeerKey(cx, s, key, val, Lex(line).comment).value;
    var p, q, r := s.section.peer, s1.section.peer, FinishPeer(t).value.peers[|s.peers|];
    KeyLine(line, rest);
    PeerKeyIsName(key);
    PeerLine(cx, p, f, val);
    var es, q0 := [Entry(key, val)], SetPeerField(cx, p, f, val).value;
    PeerCommentsSayNothing(cx, es, p, q0, p.comments, q.comments);
    PeerSaysTwice(cx, es, Body(rest), p, q, r);
  }

  lemma {:induction false} StepSays(cx: Codecs, s: State, line: string, rest: seq<string>, t: State)
    requires Step(cx, s, Lex(line)).Ok? && Says(cx, Step(cx, s, Lex(line)).value, rest, t)
    ensures Says(cx, s, [line] + rest, t)
  {
    hide Lex, Says, StepInterfaceHeader, StepPeerHeader, StepInterfaceKey, StepPeerKey;
    if Lex(line).Filler? {
      FillerSays(cx, s, line, rest, t);
    } else if IsHeader(line, "[interface]") {
      InterfaceHeaderSays(cx, s, line, rest, t);
    } else if IsHeader(line, "[peer]") {
      PeerHeaderSays(cx, s, line, rest, t);
    } else if s.section.InInterface? {
      InterfaceKeySays(cx, s, line, rest, t);
    } else {
      PeerKeySays(cx, s, line, rest, t);
    }
  }

  lemma {:induction false} RunSays(cx: Codecs, s: State, lines: seq<string>)
    requires Run(cx, s, lines).Ok? && FinishPeer(Run(cx, s, lines).value).Ok?
    ensures Says(cx, s, lines, Run(cx, s, lines).value)
    decreases |lines|
  {
    hide Step, Lex, Says, FinishPeer;
    if lines == [] {
      EndSays(cx, s);
    } else {
      RunSays(cx, Step(cx, s, Lex(lines[0])).value, lines[1..]);
      StepSays(cx, s, lines[0], lines[1..], Run(cx, s, lines).value);
      assert [lines[0]] + lines[1..] == lines;
    }
  }

  lemma {:induction false} EndSays(cx: Codecs, s: State)
    requires FinishPeer(s).Ok?
    ensures Says(cx, s, [], s)
  {
    hide FinishPeer, InterfaceSays, PeerSays;
    var ps := FinishPeer(s).value.peers;
    assert ps[..|ps|] == ps && ps[|ps|..] == [];
    FinishedSays(cx, s, ps);
    NothingSaid(cx, s.iface, EMPTY_PEER);
    assert [] + InterfaceBody([]) == [];
  }

  // ----- The law -----

  /** Pruning comments changes no setting. */
  lemma {:induction false} PrunedSays(cx: Codecs, bodies: seq<seq<Entry>>, ps: seq<Peer>)
    requires PeersSay(cx, bodies, ps)
    ensures PeersSay(cx, bodies, PrunePeers(ps))
  {
    hide PeerSays, PruneSection;
    forall k | 0 <= k < |ps| ensures PeerSays(cx, bodies[k], EMPTY_PEER, PrunePeers(ps)[k]) {
      PeerCommentsSayNothing(cx, bodies[k], EMPTY_PEER, ps[k], EMPTY_PEER.comments, PrunePeer(ps[k]).comments);
    }
  }

  /** For every text the parser accepts: there is one peer for every [Peer] header, in order, and
      the settings of the interface and of every peer are what the lines of the section say. */
  lemma {:induction false} ParseSays(cx: Codecs, text: string, name: string)
    requires Parse(cx, text, name).Ok?
    ensures var c, lines := Parse(cx, text, name).value, Split(text, '\n');
      && c.name == name
      && InterfaceSays(cx, InterfaceBody(lines), EMPTY_INTERFACE, c.iface)
      && PeersSay(cx, PeerBodies(lines), c.peers)
  {
    hide Run, FinishPeer, InterfaceSays, PeersSay, PruneSection, PrunePeers, PruneComments, AllHaveKeys;
    var lines := Split(text, '\n');
    var t := Run(cx, INITIAL, lines).value;
    RunSays(cx, INITIAL, lines);
    var ps := FinishPeer(t).value.peers;
    assert ps[0..] == ps && [] + InterfaceBody(lines) == InterfaceBody(lines);
    PrunedSays(cx, PeerBodies(lines), ps);
    var c := Parse(cx, text, name).value;
    CommentsSayNothing(cx, InterfaceBody(lines), EMPTY_INTERFACE, t.iface, EMPTY_INTERFACE.comments, c.iface.comments);
  }
}
