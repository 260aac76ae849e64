/**
 * Reading a printed [Peer] section back, key by key.
 */
module WgQuickPeer {
  import opened Text
  import opened Config
  import opened WgQuickParser
  import opened WgQuickWriter
  import opened WgQuickLaws
  import opened WgQuickCanonical

  predicate SamePeerField(a: Peer, b: Peer, f: Field) {
    SameComments(a.comments, b.comments, f) && SamePeerValue(a, b, f)
  }

  predicate SamePeerValue(a: Peer, b: Peer, f: Field) {
    match f
    case PublicKey => a.publicKey == b.publicKey
    case PresharedKey => a.presharedKey == b.presharedKey
    case AllowedIPs => a.allowedIPs == b.allowedIPs
    case PeerEndpoint => a.endpoint == b.endpoint && a.wsURL == b.wsURL
    case PersistentKeepalive => a.persistentKeepalive == b.persistentKeepalive
    case WSModeField => a.wsMode == b.wsMode
    case WSTunnelTarget => a.wsTunnelTarget == b.wsTunnelTarget
    case WSMask => a.wsMask == b.wsMask
    case WSTLSCA => a.wsTLSCA == b.wsTLSCA
    case WSTLSCert => a.wsTLSCert == b.wsTLSCert
    case WSTLSKey => a.wsTLSKey == b.wsTLSKey
    case WSTLSInsecure => a.wsTLSInsecure == b.wsTLSInsecure
    case WSPingInterval => a.wsPingInterval == b.wsPingInterval
    case WSBackoffMin => a.wsBackoffMin == b.wsBackoffMin
    case WSBackoffMax => a.wsBackoffMax == b.wsBackoffMax
    case WSBearer => a.wsBearer == b.wsBearer
    case _ => true
  }

  /** Apart from one key, two records are the same. */
  ghost predicate OnlyPeerField(a: Peer, b: Peer, f: Field) {
    a.comments.header == b.comments.header && forall g :: g != f ==> SamePeerField(a, b, g)
  }

  lemma {:induction false} BoolIsPlain(b: bool)
    ensures PlainValue(ShowBool(b))
  {
  }

  lemma {:induction false} ModeIsPlain(m: WSMode)
    requires m != NoWS
    ensures PlainValue(ShowWSMode(m))
  {
  }

  lemma {:induction false} PeerValueFits(cx: Codecs, p: Peer, f: Field)
    requires GoodPeerField(cx, p, f) && !IsInterfaceField(f) && ReadPeerField(p, f)
    ensures PeerSlot(cx, p, f).Slot? && PlainValue(PeerSlot(cx, p, f).value)
  {
    hide PlainValue, Join, ShowEndpoint, ShowBool, ShowWSMode, Itoa, ParseWSURL, ParseEndpoint, IsWSURL;
    match f
    case WSModeField => ModeIsPlain(p.wsMode);
    case WSMask => BoolIsPlain(p.wsMask);
    case WSTLSInsecure => BoolIsPlain(p.wsTLSInsecure);
    case AllowedIPs => JoinIsPlain(ShowPrefixes(cx, p.allowedIPs));
    case PeerEndpoint =>
      if p.wsURL == "" {
        ShownEndpointIsPlain(cx, p.endpoint);
      }
    case PersistentKeepalive => DigitsArePlain(Itoa(p.persistentKeepalive));
    case WSPingInterval => DigitsArePlain(Itoa(p.wsPingInterval));
    case WSBackoffMin => DigitsArePlain(Itoa(p.wsBackoffMin));
    case WSBackoffMax => DigitsArePlain(Itoa(p.wsBackoffMax));
    case _ =>
  }

  lemma {:induction false} SetPrintedAllowedIPs(cx: Codecs, p: Peer, cur: Peer)
    requires GoodPeerField(cx, p, AllowedIPs) && p.allowedIPs != [] && cur.allowedIPs == []
    ensures SetPeerField(cx, cur, AllowedIPs, PeerSlot(cx, p, AllowedIPs).value) == Ok(cur.(allowedIPs := p.allowedIPs))
  {
    ReadPrefixList(cx, p.allowedIPs);
    assert [] + p.allowedIPs == p.allowedIPs;
  }

  lemma {:induction false} SetPrintedEndpoint(cx: Codecs, p: Peer, cur: Peer)
    requires GoodPeerField(cx, p, PeerEndpoint) && p.endpoint.host != ""
    ensures SetPeerField(cx, cur, PeerEndpoint, PeerSlot(cx, p, PeerEndpoint).value)
         == Ok(cur.(endpoint := p.endpoint, wsURL := p.wsURL))
  {
    if p.wsURL == "" {
      ReadEndpoint(cx, p.endpoint);
      ShownEndpointIsPlain(cx, p.endpoint);
    }
  }

  lemma {:induction false} ReadMillis(n: nat)
    requires n <= MAX_UINT32
    ensures ParseMillis(Itoa(n)) == Ok(n)
  {
  }

  lemma {:induction false} ReadBool(b: bool)
    ensures ParseBool(ShowBool(b)) == Ok(b)
  {
    assert ToLower("true") == "true" && ToLower("false") == "false";
  }

  lemma {:induction false} ReadWSMode(m: WSMode)
    requires m != NoWS
    ensures ParseWSMode(ShowWSMode(m)) == Ok(m)
  {
    assert ToLower("websocket") == "websocket";
    assert ToLower("wstunnel") == "wstunnel";
  }

  /** Reading a printed peer value into a peer that lacks it stores it. */
  lemma {:induction false} SetPrintedPeerField(cx: Codecs, p: Peer, cur: Peer, f: Field)
    requires GoodPeerField(cx, p, f) && !IsInterfaceField(f) && ReadPeerField(p, f)
    requires SamePeerValue(cur, EMPTY_PEER, f)
    requires PeerSlot(cx, p, f).Slot?
    ensures var r := SetPeerField(cx, cur, f, PeerSlot(cx, p, f).value);
            r.Ok? && SamePeerValue(r.value, p, f)
  {
    hide SplitList, ParsePrefixes, IsWSURL, ParseWSURL, ParseEndpoint;
    hide ParseWSMode, ParseMillis, ParseBool, ShowBool, ShowWSMode;
    hide ParseNumber, ShowPrefixes, ShowEndpoint, Itoa, Join, PlainValue;
    match f
    case AllowedIPs => SetPrintedAllowedIPs(cx, p, cur);
    case PeerEndpoint => SetPrintedEndpoint(cx, p, cur);
    case PersistentKeepalive => ReadNumber(p.persistentKeepalive, 0, 65535, InvalidKeepalive);
    case WSModeField => ReadWSMode(p.wsMode);
    case WSMask => ReadBool(p.wsMask);
    case WSTLSInsecure => ReadBool(p.wsTLSInsecure);
    case WSPingInterval => ReadMillis(p.wsPingInterval);
    case WSBackoffMin => ReadMillis(p.wsBackoffMin);
    case WSBackoffMax => ReadMillis(p.wsBackoffMax);
    case _ =>
  }

  lemma {:induction false} SetPeerFrame(cx: Codecs, cur: Peer, f: Field, val: string)
    requires !IsInterfaceField(f) && SetPeerField(cx, cur, f, val).Ok?
    ensures var r := SetPeerField(cx, cur, f, val).value;
            r.comments == cur.comments && forall g :: g != f ==> SamePeerValue(r, cur, g)
  {
    hide ParseKey, SplitList, ParsePrefixes, ParseKeepalive, IsWSURL;
    hide ParseWSURL, ParseEndpoint, ParseWSMode, ParseBool, ParseMillis;
  }

  /** A key that is not printed has the value of an empty peer. */
  lemma {:induction false} UnprintedPeerField(cx: Codecs, p: Peer, f: Field)
    requires GoodPeerEntry(cx, p, f) && !IsInterfaceField(f)
    requires !Printed(p.comments, f, PeerSlot(cx, p, f))
    ensures SamePeerField(p, EMPTY_PEER, f)
  {
  }

  /** The WebSocket keys a peer has set, after one more key. */
  function NoteWSKey(wsKeys: seq<string>, f: Field): seq<string> {
    wsKeys + if IsWSSetting(f) then [Name(f)] else []
  }

  lemma {:induction false} StepPeerEntry(cx: Codecs, s: State, f: Field, val: string, comment: string)
    requires s.section.InPeer? && val != "" && !IsInterfaceField(f)
    ensures Step(cx, s, Code(ToLower(Name(f)), true, val, comment))
         == var r := SetPeerField(cx, s.section.peer, f, val);
            if r.Err? then Err(r.error)
            else
              var sc := AddComment(s.section.peer.comments, f, s.pending, comment);
              Ok(s.(section := InPeer(r.value.(comments := sc),
                                         NoteWSKey(s.section.wsKeys, f)), pending := []))
  {
    FieldOfName(f);
  }

  /** Reading back the lines of one printed peer key is setting it. */
  lemma {:induction false} RunPrintedPeerField(cx: Codecs, s: State, f: Field, val: string, c: Comments)
    requires !IsInterfaceField(f) && s.section.InPeer? && s.pending == []
    requires PlainValue(val) && PrintableComments(c, f)
    requires SetPeerField(cx, s.section.peer, f, val).Ok?
    ensures Run(cx, s, CommentedLine(c, Name(f) + " = " + val))
         == Ok(s.(section := InPeer(SetPeerField(cx, s.section.peer, f, val).value.(
                                      comments := AddComment(s.section.peer.comments, f, c.before, c.suffix)),
                                    NoteWSKey(s.section.wsKeys, f))))
  {
    LexEntry(f, val, c.suffix);
    RunCommented(cx, s, c, Name(f) + " = " + val);
    assert [] + c.before == c.before;
    StepPeerEntry(cx, s.(pending := c.before), f, val, c.suffix);
  }

  lemma {:induction false} PeerFieldArrived(cx: Codecs, cur: Peer, p: Peer, f: Field, val: string)
    requires !IsInterfaceField(f) && SetPeerField(cx, cur, f, val).Ok?
    requires SamePeerValue(SetPeerField(cx, cur, f, val).value, p, f)
    requires f !in cur.comments.lines && (f in p.comments.lines ==> p.comments.lines[f] != NO_COMMENTS)
    ensures var c := CommentsAt(p.comments, f);
            var r := SetPeerField(cx, cur, f, val).value.(comments := AddComment(cur.comments, f, c.before, c.suffix));
            SamePeerField(r, p, f) && OnlyPeerField(r, cur, f)
  {
    SetPeerFrame(cx, cur, f, val);
    AddPrintedComment(cur.comments, p.comments, f);
    var c := CommentsAt(p.comments, f);
    var set0 := SetPeerField(cx, cur, f, val).value;
    var sc := AddComment(cur.comments, f, c.before, c.suffix);
    forall g | g != f
      ensures SamePeerField(set0.(comments := sc), cur, g)
    {
      assert SameComments(sc, cur.comments, g) && SamePeerValue(set0, cur, g);
    }
  }

  lemma {:induction false} RunPeerLine(cx: Codecs, s: State, p: Peer, f: Field) returns (q: Peer)
    requires GoodPeerEntry(cx, p, f) && !IsInterfaceField(f)
    requires s.section.InPeer? && s.pending == []
    requires SamePeerField(s.section.peer, EMPTY_PEER, f)
    requires Printed(p.comments, f, PeerSlot(cx, p, f))
    ensures Run(cx, s, CommentedLine(CommentsAt(p.comments, f), Name(f) + " = " + PeerSlot(cx, p, f).value))
         == Ok(s.(section := InPeer(q, NoteWSKey(s.section.wsKeys, f))))
    ensures SamePeerField(q, p, f) && OnlyPeerField(q, s.section.peer, f)
  {
    assert ReadPeerField(p, f);
    PeerValueFits(cx, p, f);
    var c, val, cur := CommentsAt(p.comments, f), PeerSlot(cx, p, f).value, s.section.peer;
    SetPrintedPeerField(cx, p, cur, f);
    RunPrintedPeerField(cx, s, f, val, c);
    PeerFieldArrived(cx, cur, p, f, val);
    q := SetPeerField(cx, cur, f, val).value.(comments := AddComment(cur.comments, f, c.before, c.suffix));
  }

  /** Reading back the lines of one peer key. */
  lemma {:induction false} RunPeerField(cx: Codecs, s: State, p: Peer, f: Field) returns (q: Peer, ws: seq<string>)
    requires GoodPeerEntry(cx, p, f) && !IsInterfaceField(f)
    requires s.section.InPeer? && s.pending == []
    requires SamePeerField(s.section.peer, EMPTY_PEER, f)
    ensures Run(cx, s, SlotLines(p.comments, f, PeerSlot(cx, p, f))) == Ok(s.(section := InPeer(q, ws)))
    ensures SamePeerField(q, p, f) && OnlyPeerField(q, s.section.peer, f)
    ensures (IsWSSetting(f) && Printed(p.comments, f, PeerSlot(cx, p, f))) || ws == s.section.wsKeys
  {
    hide PeerSlot, SamePeerField, OnlyPeerField, GoodPeerEntry, CommentedLine, Step, Lex;
    if Printed(p.comments, f, PeerSlot(cx, p, f)) {
      q := RunPeerLine(cx, s, p, f);
      ws := NoteWSKey(s.section.wsKeys, f);
      assert !IsWSSetting(f) ==> ws == s.section.wsKeys;
    } else {
      UnprintedPeerField(cx, p, f);
      q, ws := s.section.peer, s.section.wsKeys;
      SamePeerAsEmpty(q, p, f);
    }
  }

  lemma {:induction false} SamePeerAsEmpty(q: Peer, p: Peer, f: Field)
    requires SamePeerField(q, EMPTY_PEER, f) && SamePeerField(p, EMPTY_PEER, f)
    ensures SamePeerField(q, p, f) && OnlyPeerField(q, q, f)
  {
  }

  lemma {:induction false} SamePeerTrans(a: Peer, b: Peer, c: Peer, f: Field)
    requires SamePeerField(a, b, f) && SamePeerField(b, c, f)
    ensures SamePeerField(a, c, f)
  {
  }

  lemma {:induction false} SamePeerRefl(a: Peer)
    ensures forall f :: SamePeerField(a, a, f)
  {
  }

  /** No WebSocket setting is printed. */
  ghost predicate NoWSPrinted(cx: Codecs, p: Peer) {
    forall f :: IsWSSetting(f) ==> !Printed(p.comments, f, PeerSlot(cx, p, f))
  }

  /** Reading back the lines of a list of peer keys. */
  lemma {:induction false} RunPeerFields(cx: Codecs, s: State, p: Peer, fs: seq<Field>)
    returns (q: Peer, ws: seq<string>)
    requires forall f :: GoodPeerEntry(cx, p, f)
    requires Distinct(fs) && forall k :: 0 <= k < |fs| ==> !IsInterfaceField(fs[k])
    requires s.section.InPeer? && s.pending == []
    requires forall k :: 0 <= k < |fs| ==> SamePeerField(s.section.peer, EMPTY_PEER, fs[k])
    ensures Run(cx, s, PeerFieldLines(cx, p, fs)) == Ok(s.(section := InPeer(q, ws)))
    ensures q.comments.header == s.section.peer.comments.header
    ensures forall f :: f in fs ==> SamePeerField(q, p, f)
    ensures forall f :: f !in fs ==> SamePeerField(q, s.section.peer, f)
    ensures NoWSPrinted(cx, p) ==> ws == s.section.wsKeys
    decreases |fs|
  {
    hide PeerSlot, GoodPeerEntry, SamePeerField, Printed, SlotLines, Step, Lex;
    if fs == [] {
      q, ws := s.section.peer, s.section.wsKeys;
      SamePeerRefl(q);
    } else {
      var f, rest := fs[0], fs[1..];
      assert fs == [f] + rest;
      var q1, ws1 := RunPeerField(cx, s, p, f);
      var u := s.(section := InPeer(q1, ws1));
      forall k | 0 <= k < |rest|
        ensures SamePeerField(q1, EMPTY_PEER, rest[k])
      {
        SamePeerTrans(q1, s.section.peer, EMPTY_PEER, rest[k]);
      }
      q, ws := RunPeerFields(cx, u, p, rest);
      RunAppend(cx, s, SlotLines(p.comments, f, PeerSlot(cx, p, f)), PeerFieldLines(cx, p, rest));
      SamePeerTrans(q, q1, p, f);
      forall g | g !in fs
        ensures SamePeerField(q, s.section.peer, g)
      {
        SamePeerTrans(q, q1, s.section.peer, g);
      }
    }
  }

  lemma {:induction false} SamePeerBasics(a: Peer, b: Peer)
    requires forall f :: SamePeerValue(a, b, f)
    ensures a.publicKey == b.publicKey && a.presharedKey == b.presharedKey && a.allowedIPs == b.allowedIPs
    ensures a.endpoint == b.endpoint && a.wsURL == b.wsURL && a.persistentKeepalive == b.persistentKeepalive
  {
    assert SamePeerValue(a, b, PublicKey) && SamePeerValue(a, b, PresharedKey) && SamePeerValue(a, b, AllowedIPs);
    assert SamePeerValue(a, b, PeerEndpoint) && SamePeerValue(a, b, PersistentKeepalive);
  }

  lemma {:induction false} SamePeerTexts(a: Peer, b: Peer)
    requires forall f :: SamePeerValue(a, b, f)
    ensures a.wsMode == b.wsMode && a.wsTunnelTarget == b.wsTunnelTarget && a.wsBearer == b.wsBearer
    ensures a.wsTLSCA == b.wsTLSCA && a.wsTLSCert == b.wsTLSCert && a.wsTLSKey == b.wsTLSKey
  {
    assert SamePeerValue(a, b, WSModeField) && SamePeerValue(a, b, WSTunnelTarget) && SamePeerValue(a, b, WSBearer);
    assert SamePeerValue(a, b, WSTLSCA) && SamePeerValue(a, b, WSTLSCert) && SamePeerValue(a, b, WSTLSKey);
  }

  lemma {:induction false} SamePeerNumbers(a: Peer, b: Peer)
    requires forall f :: SamePeerValue(a, b, f)
    ensures a.wsMask == b.wsMask && a.wsTLSInsecure == b.wsTLSInsecure
    ensures a.wsPingInterval == b.wsPingInterval && a.wsBackoffMin == b.wsBackoffMin && a.wsBackoffMax == b.wsBackoffMax
  {
    assert SamePeerValue(a, b, WSMask) && SamePeerValue(a, b, WSTLSInsecure);
    assert SamePeerValue(a, b, WSPingInterval);
    assert SamePeerValue(a, b, WSBackoffMin) && SamePeerValue(a, b, WSBackoffMax);
  }

  lemma {:induction false} SamePeer(a: Peer, b: Peer)
    requires a.comments == b.comments
    requires forall f :: SamePeerValue(a, b, f)
    ensures a == b
  {
    SamePeerBasics(a, b);
    SamePeerTexts(a, b);
    SamePeerNumbers(a, b);
  }

  /** A blank line and a peer header end the section before and begin a peer. */
  lemma {:induction false} RunPeerHeader(cx: Codecs, s: State, c: Comments)
    requires CommentLines(c.before) && CommentLine(c.suffix)
    requires s.pending == [] && FinishPeer(s).Ok?
    ensures Run(cx, s, [""] + CommentedLine(c, "[Peer]"))
         == Ok(FinishPeer(s).value.(section := InPeer(NewPeer(Comments([""] + c.before, c.suffix)), [])))
  {
    hide Run, Lex, CommentedLine;
    var d := Comments([""] + c.before, c.suffix);
    BlankInFront(c, "[Peer]");
    RunCommented(cx, s, d, "[Peer]");
    Headers();
    LexBracketed("[Peer]", c.suffix);
    assert [] + d.before == d.before;
    var t := s.(pending := d.before);
    StepHeaders(cx, t, c.suffix);
    assert FinishPeer(t).value == FinishPeer(s).value.(pending := d.before);
  }

  lemma {:induction false} BlankInFront(c: Comments, line: string)
    ensures [""] + CommentedLine(c, line) == CommentedLine(Comments([""] + c.before, c.suffix), line)
  {
  }

  /** The peer as it is read back: the blank line before its header is still there. */
  function Reread(p: Peer): Peer {
    p.(comments := p.comments.(header := p.comments.header.(before := [""] + p.comments.header.before)))
  }

  /** Reading a printed peer section gives the peer, not yet pruned. */
  lemma {:induction false} ReadPeer(cx: Codecs, s: State, p: Peer) returns (ws: seq<string>)
    requires GoodPeer(cx, p) && s.pending == [] && FinishPeer(s).Ok?
    ensures Run(cx, s, PeerLines(cx, p)) == Ok(FinishPeer(s).value.(section := InPeer(Reread(p), ws)))
    ensures NoWSPrinted(cx, p) ==> ws == []
  {
    hide Run, FinishPeer, GoodPeerEntry, SamePeerField, PeerFieldLines, CommentedLine, NoWSPrinted;
    var c := p.comments.header;
    RunPeerHeader(cx, s, c);
    var start := NewPeer(Comments([""] + c.before, c.suffix));
    StartIsEmpty(start);
    var t := FinishPeer(s).value.(section := InPeer(start, []));
    PeerOrder();
    var q;
    q, ws := RunPeerFields(cx, t, p, PEER_ORDER);
    RunAppend(cx, s, [""] + CommentedLine(c, "[Peer]"), PeerFieldLines(cx, p, PEER_ORDER));
    PeerIsBack(cx, p, start, q);
  }

  lemma {:induction false} StartIsEmpty(start: Peer)
    requires start.comments.lines == map[] && start == EMPTY_PEER.(comments := start.comments)
    ensures forall f :: SamePeerField(start, EMPTY_PEER, f)
  {
  }

  lemma {:induction false} PeerIsBack(cx: Codecs, p: Peer, start: Peer, end: Peer)
    requires forall f :: GoodPeerEntry(cx, p, f)
    requires start.comments.lines == map[] && end.comments.header == Reread(p).comments.header
    requires forall f :: !IsInterfaceField(f) ==> SamePeerField(end, p, f)
    requires forall f :: IsInterfaceField(f) ==> SamePeerField(end, start, f)
    ensures end == Reread(p)
  {
    forall f
      ensures SameComments(end.comments, Reread(p).comments, f) && SamePeerValue(end, Reread(p), f)
    {
      assert GoodPeerEntry(cx, p, f);
      assert SamePeerField(end, if IsInterfaceField(f) then start else p, f);
    }
    SameSectionComments(end.comments, Reread(p).comments);
    SamePeer(end, Reread(p));
  }
}
