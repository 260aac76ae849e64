/**
 * The configurations the wg-quick parser can produce, and what a sequence of comment and
 * key lines does to the parser.
 */
module WgQuickCanonical {
  import opened Text
  import opened Config
  import opened Names
  import opened WgQuickParser
  import opened WgQuickWriter
  import opened WgQuickLaws

  // ----- Canonical configurations -----

  predicate NoDoubleBlank(run: seq<string>) {
    forall i :: 0 < i < |run| ==> run[i - 1] != "" || run[i] != ""
  }

  /** Comment lines that pruning leaves alone. */
  predicate PrunedRun(run: seq<string>) {
    CommentLines(run) && NoDoubleBlank(run) && run != [""]
  }

  predicate ScriptValue(s: string) {
    s == "" || Value(s)
  }

  predicate TextValue(s: string) {
    s == "" || PlainValue(s)
  }

  /** A value the parser can store in a field of the interface. */
  ghost predicate GoodInterfaceField(cx: Codecs, i: Interface, f: Field) {
    match f
    case PrivateKey => GoodKey(cx, i.privateKey)
    case ListenPort => i.listenPort <= 65535
    case Address => forall k :: 0 <= k < |i.addresses| ==> GoodPrefix(cx, i.addresses[k])
    case DNS =>
      && (forall k :: 0 <= k < |i.dns| ==> GoodAddr(cx, i.dns[k]))
      && (forall k :: 0 <= k < |i.dnsSearch| ==> Item(i.dnsSearch[k]) && cx.parseAddr(i.dnsSearch[k]).None?)
    case MTU => i.mtu == 0 || 576 <= i.mtu <= 65535
    case PreUp => ScriptValue(i.preUp)
    case PostUp => ScriptValue(i.postUp)
    case PreDown => ScriptValue(i.preDown)
    case PostDown => ScriptValue(i.postDown)
    case _ => true
  }

  /** A key of the interface that was read: it has a value to print a comment with. */
  predicate ReadInterfaceField(i: Interface, f: Field) {
    match f
    case Address => i.addresses != []
    case DNS => i.dns != [] || i.dnsSearch != []
    case MTU => i.mtu > 0
    case PreUp => i.preUp != ""
    case PostUp => i.postUp != ""
    case PreDown => i.preDown != ""
    case PostDown => i.postDown != ""
    case _ => IsInterfaceField(f)
  }

  /** Comments on a key, as pruning leaves them; a script key has none behind it. */
  predicate PrunedLine(c: Comments, f: Field) {
    PrunedRun(c.before) && CommentLine(c.suffix) && c != NO_COMMENTS && (IsScript(f) ==> c.suffix == "")
  }

  /** One key of the interface: a good value, and comments only where there is a value. */
  ghost predicate GoodInterfaceEntry(cx: Codecs, i: Interface, f: Field) {
    && GoodInterfaceField(cx, i, f)
    && (f in i.comments.lines ==> ReadInterfaceField(i, f) && PrunedLine(i.comments.lines[f], f))
  }

  predicate PrunedHeader(c: Comments) {
    PrunedRun(c.before) && (c.before == [] || c.before[0] != "") && CommentLine(c.suffix)
  }

  ghost predicate GoodInterface(cx: Codecs, i: Interface) {
    PrunedHeader(i.comments.header) && forall f :: GoodInterfaceEntry(cx, i, f)
  }

  ghost predicate GoodPeerField(cx: Codecs, p: Peer, f: Field) {
    match f
    case PublicKey => GoodKey(cx, p.publicKey)
    case PresharedKey => GoodKey(cx, p.presharedKey)
    case AllowedIPs => forall k :: 0 <= k < |p.allowedIPs| ==> GoodPrefix(cx, p.allowedIPs[k])
    case PeerEndpoint =>
      if p.wsURL != "" then PlainValue(p.wsURL) && IsWSURL(p.wsURL) && ParseWSURL(cx, p.wsURL) == Ok(p.endpoint)
      else p.endpoint == NO_ENDPOINT || GoodEndpoint(cx, p.endpoint)
    case PersistentKeepalive => p.persistentKeepalive <= 65535
    case WSTunnelTarget =>
      p.wsTunnelTarget == "" || (PlainValue(p.wsTunnelTarget) && ParseEndpoint(cx, p.wsTunnelTarget).Ok?)
    case WSTLSCA => TextValue(p.wsTLSCA)
    case WSTLSCert => TextValue(p.wsTLSCert)
    case WSTLSKey => TextValue(p.wsTLSKey)
    case WSPingInterval => p.wsPingInterval <= MAX_UINT32
    case WSBackoffMin => p.wsBackoffMin <= MAX_UINT32
    case WSBackoffMax => p.wsBackoffMax <= MAX_UINT32
    case WSBearer => TextValue(p.wsBearer)
    case _ => true
  }

  predicate ReadPeerField(p: Peer, f: Field) {
    match f
    case AllowedIPs => p.allowedIPs != []
    case PeerEndpoint => p.endpoint.host != ""
    case WSModeField => p.wsMode != NoWS
    case WSTunnelTarget => p.wsTunnelTarget != ""
    case WSTLSCA => p.wsTLSCA != ""
    case WSTLSCert => p.wsTLSCert != ""
    case WSTLSKey => p.wsTLSKey != ""
    case WSBearer => p.wsBearer != ""
    case _ => !IsInterfaceField(f)
  }

  ghost predicate GoodPeerEntry(cx: Codecs, p: Peer, f: Field) {
    && GoodPeerField(cx, p, f)
    && (f in p.comments.lines ==> ReadPeerField(p, f) && PrunedLine(p.comments.lines[f], f))
  }

  ghost predicate GoodPeer(cx: Codecs, p: Peer) {
    PrunedHeader(p.comments.header) && forall f :: GoodPeerEntry(cx, p, f)
  }

  /** The peer carries a WebSocket setting, or a comment on one. */
  predicate HasWSSetting(cx: Codecs, p: Peer, f: Field)
    requires IsWSSetting(f)
  {
    Printed(p.comments, f, PeerSlot(cx, p, f))
  }

  /** A finished peer: the WebSocket rules hold for the settings that will be printed. */
  ghost predicate FinishedPeer(cx: Codecs, p: Peer) {
    && p.publicKey != ZeroKey()
    && ValidateWSPeer(p, []).Ok?
    && (p.wsMode.NoWS? ==> forall f :: IsWSSetting(f) ==> !HasWSSetting(cx, p, f))
  }

  /** What the parser can produce, and what round-trips. */
  ghost predicate Canonical(cx: Codecs, c: Config) {
    && TunnelNameIsValid(c.name)
    && GoodInterface(cx, c.iface)
    && (forall k :: 0 <= k < |c.peers| ==> GoodPeer(cx, c.peers[k]) && FinishedPeer(cx, c.peers[k]))
    && PrunedRun(c.trailingComments)
    && (c.trailingComments == [] || c.trailingComments[|c.trailingComments| - 1] != "")
  }

  // ----- Running over lines -----

  lemma {:induction false} RunCons(cx: Codecs, s: State, line: string, rest: seq<string>)
    ensures var r := Step(cx, s, Lex(line));
            Run(cx, s, [line] + rest) == if r.Err? then Err(r.error) else Run(cx, r.value, rest)
  {
    assert ([line] + rest)[1..] == rest;
  }

  lemma {:induction false} RunAppend(cx: Codecs, s: State, a: seq<string>, b: seq<string>)
    requires Run(cx, s, a).Ok?
    ensures Run(cx, s, a + b) == Run(cx, Run(cx, s, a).value, b)
    decreases |a|
  {
    if a == [] {
      assert a + b == b;
    } else {
      assert a == [a[0]] + a[1..] && a + b == [a[0]] + (a[1..] + b);
      RunCons(cx, s, a[0], a[1..]);
      RunCons(cx, s, a[0], a[1..] + b);
      RunAppend(cx, Step(cx, s, Lex(a[0])).value, a[1..], b);
    }
  }

  lemma {:induction false} StepCommentLine(cx: Codecs, s: State, l: string)
    requires CommentLine(l)
    ensures Step(cx, s, Lex(l)) == Ok(s.(pending := s.pending + [l]))
  {
    LexCommentLine(l);
  }

  lemma {:induction false} RunComments(cx: Codecs, s: State, ls: seq<string>)
    requires CommentLines(ls)
    ensures Run(cx, s, ls) == Ok(s.(pending := s.pending + ls))
    decreases |ls|
  {
    hide Step, Lex;
    if ls == [] {
      assert s.pending + ls == s.pending;
    } else {
      var l, rest := ls[0], ls[1..];
      assert ls == [l] + rest;
      StepCommentLine(cx, s, l);
      RunCons(cx, s, l, rest);
      RunComments(cx, s.(pending := s.pending + [l]), rest);
      assert s.pending + ls == s.pending + [l] + rest;
    }
  }

  /** Comments, then one more line. */
  lemma {:induction false} RunCommented(cx: Codecs, s: State, c: Comments, line: string)
    requires CommentLines(c.before)
    ensures Run(cx, s, CommentedLine(c, line))
         == Step(cx, s.(pending := s.pending + c.before), Lex(WithSuffix(line, c.suffix)))
  {
    var last := WithSuffix(line, c.suffix);
    RunComments(cx, s, c.before);
    var t := s.(pending := s.pending + c.before);
    RunAppend(cx, s, c.before, [last]);
    RunCons(cx, t, last, []);
    assert [last] + [] == [last];
  }

  // ----- Comments of one key -----

  /** The two records have the same value and comments for a key. */
  predicate SameComments(a: SectionComments, b: SectionComments, f: Field) {
    && (f in a.lines <==> f in b.lines)
    && (f in a.lines ==> a.lines[f] == b.lines[f])
  }

  /** The comments of a key can be printed and read. */
  predicate PrintableComments(c: Comments, f: Field) {
    CommentLines(c.before) && CommentLine(c.suffix) && (IsScript(f) ==> c.suffix == "")
  }

  /** The comments printed with a key are gathered again. */
  lemma {:induction false} AddPrintedComment(cur: SectionComments, sc: SectionComments, f: Field)
    requires f !in cur.lines && (f in sc.lines ==> sc.lines[f] != NO_COMMENTS)
    ensures var c := CommentsAt(sc, f);
            var r := AddComment(cur, f, c.before, c.suffix);
            && r.header == cur.header && SameComments(r, sc, f)
            && forall g :: g != f ==> SameComments(r, cur, g)
  {
    var c := CommentsAt(sc, f);
    assert [] + c.before == c.before;
  }

  predicate Distinct(fs: seq<Field>) {
    forall j, k :: 0 <= j < k < |fs| ==> fs[j] != fs[k]
  }

  lemma {:induction false} SameSectionComments(a: SectionComments, b: SectionComments)
    requires a.header == b.header && forall f :: SameComments(a, b, f)
    ensures a == b
  {
    assert forall f :: f in a.lines <==> f in b.lines by {
      forall f ensures f in a.lines <==> f in b.lines { assert SameComments(a, b, f); }
    }
    assert forall f :: f in a.lines ==> a.lines[f] == b.lines[f] by {
      forall f | f in a.lines ensures a.lines[f] == b.lines[f] { assert SameComments(a, b, f); }
    }
    assert a.lines == b.lines;
  }

  predicate Bracketed(s: string) {
    |s| >= 2 && s[0] == '[' && s[|s| - 1] == ']' && forall i :: 0 <= i < |s| ==> 'A' <= s[i] <= 'z'
  }

  lemma {:induction false} Headers()
    ensures Bracketed("[Interface]") && ToLower("[Interface]") == "[interface]"
    ensures Bracketed("[Peer]") && ToLower("[Peer]") == "[peer]"
  {
  }

  lemma {:induction false} LexBracketed(header: string, suffix: string)
    requires Bracketed(header) && CommentLine(suffix)
    ensures Lex(WithSuffix(header, suffix)) == Code(ToLower(header), false, "", suffix)
  {
    LexHeader(header, suffix);
  }

  lemma {:induction false} StepHeaders(cx: Codecs, s: State, suffix: string)
    ensures Step(cx, s, Code("[interface]", false, "", suffix)) == StepInterfaceHeader(s, suffix)
    ensures Step(cx, s, Code("[peer]", false, "", suffix)) == StepPeerHeader(s, suffix)
  {
    assert "[interface]" != "[peer]";
  }

  /** The writer prints every key of a section exactly once. */
  lemma {:induction false} InterfaceOrder()
    ensures Distinct(INTERFACE_ORDER)
    ensures forall f :: IsInterfaceField(f) <==> f in INTERFACE_ORDER
  {
  }

  function PeerPlace(f: Field): nat {
    match f
    case PublicKey => 0
    case PresharedKey => 1
    case AllowedIPs => 2
    case PeerEndpoint => 3
    case PersistentKeepalive => 4
    case WSModeField => 5
    case WSTunnelTarget => 6
    case WSMask => 7
    case WSTLSCA => 8
    case WSTLSCert => 9
    case WSTLSKey => 10
    case WSTLSInsecure => 11
    case WSPingInterval => 12
    case WSBackoffMin => 13
    case WSBackoffMax => 14
    case WSBearer => 15
    case _ => |PEER_ORDER|
  }

  lemma {:induction false} PeerPlaces()
    ensures forall j :: 0 <= j < |PEER_ORDER| ==> PeerPlace(PEER_ORDER[j]) == j
  {
  }

  lemma {:induction false} PeerOrder()
    ensures Distinct(PEER_ORDER)
    ensures forall f :: !IsInterfaceField(f) <==> f in PEER_ORDER
  {
    hide PEER_ORDER, PeerPlace;
    PeerPlaces();
    PeerOrderIsWhole();
  }

  lemma {:induction false} PeerOrderIsWhole()
    ensures forall f :: !IsInterfaceField(f) <==> f in PEER_ORDER
  {
  }
}
