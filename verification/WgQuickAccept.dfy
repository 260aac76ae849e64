/**
 * Which wg-quick texts are accepted (conf/parser.go), in terms of their lines.
 */
module WgQuickAccept {
  import opened Text
  import opened Netip
  import opened Config
  import opened Names
  import opened Entries
  import opened WgQuickParser
  import opened WgQuickInterface
  import opened WgQuickPeer
  import opened WgQuickMeaning

  // ----- Lines -----

  predicate IsNumber(text: string, min: nat, max: nat) {
    Atoi(text).Some? && min <= Atoi(text).value <= max
  }

  predicate IsBool(text: string) {
    text == "true" || text == "false"
  }

  predicate IsPrefixText(cx: Codecs, text: string) {
    text != "" && (cx.parsePrefix(text).Some? || cx.parseAddr(text).Some?)
  }

  predicate ArePrefixes(cx: Codecs, items: seq<string>) {
    forall i :: 0 <= i < |items| ==> IsPrefixText(cx, items[i])
  }

  predicate NoneEmpty(items: seq<string>) {
    forall i :: 0 <= i < |items| ==> items[i] != ""
  }

  predicate InterfaceValueOk(cx: Codecs, f: Field, val: string) {
    match f
    case PrivateKey => cx.decodeKey(val).Some?
    case ListenPort => IsNumber(val, 0, 65535)
    case MTU => IsNumber(val, 576, 65535)
    case Address => ArePrefixes(cx, ItemsOf(val))
    case DNS => NoneEmpty(ItemsOf(val))
    case Table => val == "off" || val == "auto" || val == "main" || IsCount(val, 0xffff_ffff)
    case _ => true
  }

  predicate PeerValueOk(cx: Codecs, f: Field, val: string) {
    match f
    case PublicKey => cx.decodeKey(val).Some?
    case PresharedKey => cx.decodeKey(val).Some?
    case AllowedIPs => ArePrefixes(cx, ItemsOf(val))
    case PersistentKeepalive => val == "off" || IsNumber(val, 0, 65535)
    case PeerEndpoint =>
      if HasPrefix(ToLower(val), "ws://") || HasPrefix(ToLower(val), "wss://") then ParseWSURL(cx, val).Ok?
      else ParseEndpoint(cx, val).Ok?
    case WSModeField => ToLower(val) == "websocket" || ToLower(val) == "wstunnel"
    case WSTunnelTarget => ParseEndpoint(cx, val).Ok?
    case WSMask => IsBool(val)
    case WSTLSInsecure => IsBool(val)
    case WSPingInterval => IsCount(val, 0xffff_ffff)
    case WSBackoffMin => IsCount(val, 0xffff_ffff)
    case WSBackoffMax => IsCount(val, 0xffff_ffff)
    case _ => true
  }

  /** A key of the section, with a value it can have. */
  ghost predicate InterfaceLineOk(cx: Codecs, e: Entry) {
    e.val != "" && exists f :: IsInterfaceField(f) && e.key == LowerName(f) && InterfaceValueOk(cx, f, e.val)
  }

  ghost predicate PeerLineOk(cx: Codecs, e: Entry) {
    e.val != "" && exists f :: !IsInterfaceField(f) && e.key == LowerName(f) && PeerValueOk(cx, f, e.val)
  }

  ghost predicate InterfaceLinesOk(cx: Codecs, es: seq<Entry>) {
    forall i :: 0 <= i < |es| ==> InterfaceLineOk(cx, es[i])
  }

  ghost predicate PeerLinesOk(cx: Codecs, es: seq<Entry>) {
    forall i :: 0 <= i < |es| ==> PeerLineOk(cx, es[i])
  }

  ghost predicate BodiesOk(cx: Codecs, bodies: seq<seq<Entry>>) {
    forall k :: 0 <= k < |bodies| ==> PeerLinesOk(cx, bodies[k])
  }

  /** Every line that is not blank, a comment or a header has an equals sign. */
  predicate HaveValues(lines: seq<string>) {
    forall i :: 0 <= i < |lines| && Lex(lines[i]).Code? && !IsAnyHeader(lines[i]) ==> Lex(lines[i]).hasValue
  }

  // ----- WebSocket rules -----

  /** The settings that only make sense with a mode. */
  predicate IsWSKey(key: string) {
    || key == "wstunneltarget" || key == "wsbearer" || key == "wsmask" || key == "wstlsca" || key == "wstlscert"
    || key == "wstlskey" || key == "wstlsinsecure" || key == "wspinginterval" || key == "wsbackoffmin"
    || key == "wsbackoffmax"
  }

  predicate HasWSLine(es: seq<Entry>) {
    exists i :: 0 <= i < |es| && IsWSKey(es[i].key)
  }

  /** A URL as endpoint needs a mode, and a mode a URL, if there is an endpoint; the mode wstunnel
      needs a URL; it has a target, and no other mode has; without mode there is no setting. */
  predicate RulesHold(p: Peer, settings: bool) {
    && (p.wsURL != "" ==> !p.wsMode.NoWS?)
    && (p.wsURL == "" && !p.wsMode.NoWS? ==> p.endpoint.host == "")
    && (p.wsMode.WSTunnel? ==> p.wsURL != "")
    && (p.wsMode.WSTunnel? <==> p.wsTunnelTarget != "")
    && (p.wsMode.NoWS? ==> !settings)
  }

  lemma {:induction false} ValidatesRules(p: Peer, wsKeys: seq<string>)
    ensures ValidateWSPeer(p, wsKeys).Ok? <==> RulesHold(p, wsKeys != [])
  {
  }

  ghost predicate AllRulesHold(ps: seq<Peer>, bodies: seq<seq<Entry>>) {
    |ps| == |bodies| && forall k :: 0 <= k < |ps| ==> RulesHold(ps[k], HasWSLine(bodies[k]))
  }

  // ----- One line -----

  lemma {:induction false} TrimPartsOk(parts: seq<string>)
    ensures TrimParts(parts).Ok? <==> forall i :: 0 <= i < |parts| ==> TrimSpace(parts[i]) != ""
  {
    hide TrimSpace;
    if parts == [] {
    } else {
      TrimPartsOk(parts[1..]);
      assert parts == [parts[0]] + parts[1..];
    }
  }

  lemma {:induction false} SplitListOk(val: string)
    ensures SplitList(val).Ok? <==> NoneEmpty(ItemsOf(val))
    ensures SplitList(val).Ok? ==> SplitList(val).value == ItemsOf(val)
  {
    hide TrimSpace;
    var parts := Split(val, ',');
    TrimPartsOk(parts);
    assert forall i :: 0 <= i < |parts| ==> ItemsOf(val)[i] == TrimSpace(parts[i]);
    if SplitList(val).Ok? { SplitListIsItems(val); }
  }

  lemma {:induction false} ParsePrefixesOk(cx: Codecs, items: seq<string>)
    requires NoneEmpty(items)
    ensures ParsePrefixes(cx, items).Ok? <==> ArePrefixes(cx, items)
  {
    if items == [] {
    } else {
      ParsePrefixesOk(cx, items[1..]);
      assert items == [items[0]] + items[1..];
    }
  }

  lemma {:induction false} ListOk(cx: Codecs, val: string)
    ensures (SplitList(val).Ok? && ParsePrefixes(cx, SplitList(val).value).Ok?) <==> ArePrefixes(cx, ItemsOf(val))
  {
    hide ItemsOf, SplitList, ParsePrefixes;
    SplitListOk(val);
    if NoneEmpty(ItemsOf(val)) { ParsePrefixesOk(cx, ItemsOf(val)); }
  }

  lemma {:induction false} SetInterfaceOk(cx: Codecs, i: Interface, f: Field, val: string)
    requires IsInterfaceField(f)
    ensures SetInterfaceField(cx, i, f, val).Ok? <==> InterfaceValueOk(cx, f, val)
  {
    hide ItemsOf, SplitList, ParsePrefixes, ArePrefixes, NoneEmpty, Atoi;
    SplitListOk(val);
    ListOk(cx, val);
  }

  lemma {:induction false} SetPeerOk(cx: Codecs, p: Peer, f: Field, val: string)
    requires !IsInterfaceField(f)
    ensures SetPeerField(cx, p, f, val).Ok? <==> PeerValueOk(cx, f, val)
  {
    hide ItemsOf, SplitList, ParsePrefixes, ArePrefixes, Atoi, ParseEndpoint, ParseWSURL, ToLower, HasPrefix, Digits;
    ListOk(cx, val);
  }

  lemma {:induction false} InterfaceLineTaken(cx: Codecs, i: Interface, e: Entry)
    ensures InterfaceLineOk(cx, e) <==>
      e.val != "" && InterfaceFieldOf(e.key).Some? && SetInterfaceField(cx, i, InterfaceFieldOf(e.key).value, e.val).Ok?
  {
    hide LowerName, InterfaceFieldOf, SetInterfaceField, InterfaceValueOk;
    if InterfaceFieldOf(e.key).Some? {
      InterfaceKeyIsName(e.key);
      SetInterfaceOk(cx, i, InterfaceFieldOf(e.key).value, e.val);
    }
    if f :| IsInterfaceField(f) && e.key == LowerName(f) && InterfaceValueOk(cx, f, e.val) {
      InterfaceFieldOfLowerName(f);
      SetInterfaceOk(cx, i, f, e.val);
    }
  }

  lemma {:induction false} PeerLineTaken(cx: Codecs, p: Peer, e: Entry)
    ensures PeerLineOk(cx, e) <==>
      e.val != "" && PeerFieldOf(e.key).Some? && SetPeerField(cx, p, PeerFieldOf(e.key).value, e.val).Ok?
  {
    hide LowerName, PeerFieldOf, SetPeerField, PeerValueOk;
    if PeerFieldOf(e.key).Some? {
      PeerKeyIsName(e.key);
      SetPeerOk(cx, p, PeerFieldOf(e.key).value, e.val);
    }
    if f :| !IsInterfaceField(f) && e.key == LowerName(f) && PeerValueOk(cx, f, e.val) {
      PeerFieldOfLowerName(f);
      SetPeerOk(cx, p, f, e.val);
    }
  }

  lemma {:induction false} WSKeyOfName(f: Field)
    requires !IsInterfaceField(f)
    ensures IsWSKey(LowerName(f)) <==> IsWSSetting(f)
  {
  }

  // ----- Settings are determined -----

  predicate SameSettings(p: Peer, q: Peer) {
    p.(comments := NO_SECTION_COMMENTS) == q.(comments := NO_SECTION_COMMENTS)
  }

  lemma {:induction false} SameSettingsByField(p: Peer, q: Peer)
    requires forall f :: SamePeerValue(p, q, f)
    ensures SameSettings(p, q)
  {
    hide SamePeerValue;
    SamePeerBasics(p, q);
    SamePeerTexts(p, q);
    SamePeerNumbers(p, q);
  }

  /** Without lines the settings stay, all of them. */
  lemma {:induction false} NothingSaidIsSame(cx: Codecs, p: Peer, q: Peer)
    ensures PeerSays(cx, [], p, q) <==> SameSettings(p, q)
  {
    hide PeerSaysOf;
    if PeerSays(cx, [], p, q) {
      forall f ensures SamePeerValue(p, q, f) { UnsaidIsSame(cx, p, q, f); }
      SameSettingsByField(p, q);
    }
    if SameSettings(p, q) {
      NothingSaid(cx, EMPTY_INTERFACE, p);
      PeerCommentsSayNothing(cx, [], p, p, p.comments, q.comments);
      assert p.(comments := q.comments) == q;
    }
  }

  lemma {:induction false} UnsaidIsSame(cx: Codecs, p: Peer, q: Peer, f: Field)
    requires PeerSaysOf(cx, [], p, q, f)
    ensures SamePeerValue(p, q, f)
  {
    hide ParseEndpoint, ParseWSURL, ToLower, HasPrefix;
    assert q.allowedIPs[..|q.allowedIPs|] == q.allowedIPs;
  }

  lemma {:induction false} AppendedUnique(cx: Codecs, s: seq<string>, t: seq<string>,
                                          a: seq<Prefix>, b: seq<Prefix>, c: seq<Prefix>)
    requires Appended(cx, s, a, b) && Appended(cx, s + t, a, c)
    ensures Appended(cx, t, b, c)
  {
    forall i | 0 <= i < |b| ensures c[i] == b[i] {
      if i < |a| {
        assert c[i] == c[..|a|][i] == b[..|a|][i];
      } else {
        assert (s + t)[i - |a|] == s[i - |a|];
        assert ReadsPrefix(cx, s[i - |a|], b[|a| + (i - |a|)]) && ReadsPrefix(cx, (s + t)[i - |a|], c[|a| + (i - |a|)]);
      }
    }
    assert c[..|b|] == b;
    forall i | 0 <= i < |t| ensures ReadsPrefix(cx, t[i], c[|b| + i]) {
      assert (s + t)[|s| + i] == t[i];
      assert ReadsPrefix(cx, (s + t)[|s| + i], c[|a| + (|s| + i)]);
    }
  }

  /** What the first lines say is said; the others say the rest. */
  lemma {:induction false} RestSaysOf(cx: Codecs, a: seq<Entry>, b: seq<Entry>, p: Peer, q: Peer, r: Peer, f: Field)
    requires PeerSaysOf(cx, a, p, q, f) && PeerSaysOf(cx, a + b, p, r, f)
    ensures PeerSaysOf(cx, b, q, r, f)
  {
    hide Appended, AllItems, Last, Atoi, AllDigits, Digits, ParseEndpoint, ParseWSURL, ToLower, HasPrefix;
    LastAppend(a, b, LowerName(f));
    AllItemsAppend(a, b, LowerName(f));
    if f.AllowedIPs? {
      var s, t := AllItems(a, "allowedips"), AllItems(b, "allowedips");
      AppendedUnique(cx, s, t, p.allowedIPs, q.allowedIPs, r.allowedIPs);
    }
  }

  lemma {:induction false} RestSays(cx: Codecs, a: seq<Entry>, b: seq<Entry>, p: Peer, q: Peer, r: Peer)
    requires PeerSays(cx, a, p, q)
    ensures PeerSays(cx, a + b, p, r) <==> PeerSays(cx, b, q, r)
  {
    hide PeerSaysOf;
    if PeerSays(cx, a + b, p, r) {
      forall f ensures PeerSaysOf(cx, b, q, r, f) { RestSaysOf(cx, a, b, p, q, r, f); }
    }
    if PeerSays(cx, b, q, r) { PeerSaysTwice(cx, a, b, p, q, r); }
  }

  // ----- From any state on -----

  /** The peers after the lines to come: those there are, the one being read, and those behind it. */
  ghost predicate Peers(cx: Codecs, s: State, lines: seq<string>, ps: seq<Peer>) {
    var n := |s.peers|;
    && n <= |ps| && (forall k :: 0 <= k < n ==> SameSettings(s.peers[k], ps[k]))
    && if s.section.InPeer? then
         && n < |ps| && PeerSays(cx, Body(lines), s.section.peer, ps[n]) && PeerLinesOk(cx, Body(lines))
         && RulesHold(ps[n], s.section.wsKeys != [] || HasWSLine(Body(lines)))
         && NewPeers(cx, PeerBodies(lines), ps[n + 1..])
       else NewPeers(cx, PeerBodies(lines), ps[n..])
  }

  ghost predicate NewPeers(cx: Codecs, bodies: seq<seq<Entry>>, ps: seq<Peer>) {
    PeersSay(cx, bodies, ps) && BodiesOk(cx, bodies) && AllRulesHold(ps, bodies)
  }

  /** The lines to come are accepted and give these peers. */
  ghost predicate Acceptable(cx: Codecs, s: State, lines: seq<string>, ps: seq<Peer>) {
    && HaveValues(lines)
    && (s.section.NoSection? ==> Body(lines) == [])
    && InterfaceLinesOk(cx, InterfaceFrom(s, lines))
    && Peers(cx, s, lines, ps)
  }

  lemma {:induction false} NewPeersCons(cx: Codecs, body: seq<Entry>, bodies: seq<seq<Entry>>, ps: seq<Peer>)
    ensures NewPeers(cx, [body] + bodies, ps) <==>
      && ps != [] && PeerSays(cx, body, EMPTY_PEER, ps[0]) && PeerLinesOk(cx, body)
      && RulesHold(ps[0], HasWSLine(body)) && NewPeers(cx, bodies, ps[1..])
  {
    hide PeerSays, PeerLinesOk, RulesHold, HasWSLine;
    if NewPeers(cx, [body] + bodies, ps) { NewPeersTail(cx, body, bodies, ps); }
    if ps != [] && PeerSays(cx, body, EMPTY_PEER, ps[0]) && PeerLinesOk(cx, body)
      && RulesHold(ps[0], HasWSLine(body)) && NewPeers(cx, bodies, ps[1..])
    {
      NewPeersHead(cx, body, bodies, ps);
    }
  }

  lemma {:induction false} NewPeersTail(cx: Codecs, body: seq<Entry>, bodies: seq<seq<Entry>>, ps: seq<Peer>)
    requires NewPeers(cx, [body] + bodies, ps)
    ensures ps != [] && NewPeers(cx, bodies, ps[1..])
    ensures PeerSays(cx, body, EMPTY_PEER, ps[0]) && PeerLinesOk(cx, body) && RulesHold(ps[0], HasWSLine(body))
  {
    hide PeerSays, PeerLinesOk, RulesHold, HasWSLine;
    var all := [body] + bodies;
    forall k | 0 <= k < |bodies|
      ensures PeerSays(cx, bodies[k], EMPTY_PEER, ps[1..][k]) && PeerLinesOk(cx, bodies[k])
      ensures RulesHold(ps[1..][k], HasWSLine(bodies[k]))
    {
      assert all[k + 1] == bodies[k] && ps[k + 1] == ps[1..][k];
    }
    assert all[0] == body;
  }

  lemma {:induction false} NewPeersHead(cx: Codecs, body: seq<Entry>, bodies: seq<seq<Entry>>, ps: seq<Peer>)
    requires ps != [] && NewPeers(cx, bodies, ps[1..])
    requires PeerSays(cx, body, EMPTY_PEER, ps[0]) && PeerLinesOk(cx, body) && RulesHold(ps[0], HasWSLine(body))
    ensures NewPeers(cx, [body] + bodies, ps)
  {
    hide PeerSays, PeerLinesOk, RulesHold, HasWSLine;
    var all := [body] + bodies;
    forall k | 0 <= k < |all|
      ensures PeerSays(cx, all[k], EMPTY_PEER, ps[k]) && PeerLinesOk(cx, all[k]) && RulesHold(ps[k], HasWSLine(all[k]))
    {
      if k > 0 { assert all[k] == bodies[k - 1] && ps[k] == ps[1..][k - 1]; }
    }
  }

  // ----- Line by line -----

  lemma {:induction false} RulesOfSame(p: Peer, q: Peer, settings: bool)
    requires SameSettings(p, q)
    ensures RulesHold(p, settings) <==> RulesHold(q, settings)
  {
    var c := NO_SECTION_COMMENTS;
    assert p.(comments := c).wsMode == q.(comments := c).wsMode && p.(comments := c).wsURL == q.(comments := c).wsURL;
    assert p.(comments := c).endpoint == q.(comments := c).endpoint;
    assert p.(comments := c).wsTunnelTarget == q.(comments := c).wsTunnelTarget;
  }

  /** The first peers are these, and the others are new. */
  ghost predicate Then(cx: Codecs, first: seq<Peer>, bodies: seq<seq<Entry>>, ps: seq<Peer>) {
    var n := |first|;
    && n <= |ps| && (forall k :: 0 <= k < n ==> SameSettings(first[k], ps[k]))
    && NewPeers(cx, bodies, ps[n..])
  }

  lemma {:induction false} ThenOne(cx: Codecs, first: seq<Peer>, p: Peer, bodies: seq<seq<Entry>>, ps: seq<Peer>)
    ensures Then(cx, first + [p], bodies, ps) <==>
      && |first| < |ps| && (forall k :: 0 <= k < |first| ==> SameSettings(first[k], ps[k]))
      && SameSettings(p, ps[|first|]) && NewPeers(cx, bodies, ps[|first| + 1..])
  {
    hide SameSettings, NewPeers;
    if Then(cx, first + [p], bodies, ps) {
      forall k | 0 <= k < |first| ensures SameSettings(first[k], ps[k]) { assert (first + [p])[k] == first[k]; }
      assert (first + [p])[|first|] == p;
    }
  }

  /** Where a section ends, the peer being read is finished. */
  lemma {:induction false} FinishAcceptable(cx: Codecs, s: State, lines: seq<string>, ps: seq<Peer>)
    requires Body(lines) == []
    ensures Peers(cx, s, lines, ps) <==>
      FinishPeer(s).Ok? && Then(cx, FinishPeer(s).value.peers, PeerBodies(lines), ps)
  {
    hide Body, PeerBodies, NewPeers, PeerSays, SameSettings, RulesHold, ValidateWSPeer;
    if s.section.InPeer? {
      var p, wsKeys, n := s.section.peer, s.section.wsKeys, |s.peers|;
      ThenOne(cx, s.peers, p, PeerBodies(lines), ps);
      ValidatesRules(p, wsKeys);
      if n < |ps| {
        NothingSaidIsSame(cx, p, ps[n]);
        if SameSettings(p, ps[n]) { RulesOfSame(p, ps[n], wsKeys != []); }
      }
      assert !HasWSLine([]) && PeerLinesOk(cx, []);
    }
  }

  lemma {:induction false} HaveValuesCons(line: string, rest: seq<string>)
    ensures HaveValues([line] + rest) <==>
      (Lex(line).Code? && !IsAnyHeader(line) ==> Lex(line).hasValue) && HaveValues(rest)
  {
    hide Lex, IsAnyHeader;
    var lines := [line] + rest;
    if HaveValues(lines) {
      assert lines[0] == line;
      forall i | 0 <= i < |rest| && Lex(rest[i]).Code? && !IsAnyHeader(rest[i]) ensures Lex(rest[i]).hasValue {
        assert lines[i + 1] == rest[i];
      }
    }
  }

  lemma {:induction false} FillerAcceptable(cx: Codecs, s: State, line: string, rest: seq<string>, ps: seq<Peer>)
    requires Lex(line).Filler?
    ensures Acceptable(cx, s, [line] + rest, ps) <==> Acceptable(cx, Step(cx, s, Lex(line)).value, rest, ps)
  {
    hide Lex, HaveValues, Body, InterfaceBody, PeerBodies, NewPeers, PeerSays, SameSettings, RulesHold;
    hide InterfaceLinesOk, PeerLinesOk, HasWSLine;
    HaveValuesCons(line, rest);
    FillerLine(line, rest);
  }

  lemma {:induction false} InterfaceHeaderAcceptable(cx: Codecs, s: State, line: string, rest: seq<string>,
                                                     ps: seq<Peer>)
    requires IsHeader(line, "[interface]")
    ensures var r := StepInterfaceHeader(s, Lex(line).comment);
      Acceptable(cx, s, [line] + rest, ps) <==> r.Ok? && Acceptable(cx, r.value, rest, ps)
  {
    hide Lex, HaveValues, Body, InterfaceBody, PeerBodies, NewPeers, SameSettings, InterfaceLinesOk, FinishPeer;
    HaveValuesCons(line, rest);
    HeaderLine(line, rest);
    FinishAcceptable(cx, s, [line] + rest, ps);
    assert [] + PeerBodies(rest) == PeerBodies(rest);
    assert [] + (Body(rest) + InterfaceBody(rest)) == Body(rest) + InterfaceBody(rest);
  }

  lemma {:induction false} PeerHeaderAcceptable(cx: Codecs, s: State, line: string, rest: seq<string>, ps: seq<Peer>)
    requires IsHeader(line, "[peer]")
    ensures var r := StepPeerHeader(s, Lex(line).comment);
      Acceptable(cx, s, [line] + rest, ps) <==> r.Ok? && Acceptable(cx, r.value, rest, ps)
  {
    hide Lex, HaveValues, Body, InterfaceBody, PeerBodies, NewPeers, SameSettings, InterfaceLinesOk, FinishPeer;
    hide PeerSays, RulesHold, HasWSLine, PeerLinesOk;
    HaveValuesCons(line, rest);
    HeaderLine(line, rest);
    FinishAcceptable(cx, s, [line] + rest, ps);
    assert [] + ([] + InterfaceBody(rest)) == InterfaceBody(rest) == [] + InterfaceBody(rest);
    if FinishPeer(s).Ok? {
      var s1 := StepPeerHeader(s, Lex(line).comment).value;
      var n, p := |s1.peers|, s1.section.peer;
      if n < |ps| {
        NewPeersCons(cx, Body(rest), PeerBodies(rest), ps[n..]);
        assert ps[n..][0] == ps[n] && ps[n..][1..] == ps[n + 1..];
        EmptyOrNew(cx, Body(rest), p, ps[n]);
      } else if n == |ps| {
        NewPeersCons(cx, Body(rest), PeerBodies(rest), ps[n..]);
      }
    }
  }

  lemma {:induction false} EmptyOrNew(cx: Codecs, es: seq<Entry>, p: Peer, q: Peer)
    requires p == EMPTY_PEER.(comments := p.comments)
    ensures PeerSays(cx, es, EMPTY_PEER, q) <==> PeerSays(cx, es, p, q)
  {
    hide PeerSays;
    if PeerSays(cx, es, EMPTY_PEER, q) { PeerCommentsSayNothing(cx, es, EMPTY_PEER, q, p.comments, q.comments); }
    if PeerSays(cx, es, p, q) { PeerCommentsSayNothing(cx, es, p, q, EMPTY_PEER.comments, q.comments); }
  }

  lemma {:induction false} InterfaceLinesCons(cx: Codecs, e: Entry, es: seq<Entry>)
    ensures InterfaceLinesOk(cx, [e] + es) <==> InterfaceLineOk(cx, e) && InterfaceLinesOk(cx, es)
  {
    hide InterfaceLineOk;
    var all := [e] + es;
    if InterfaceLinesOk(cx, all) {
      assert all[0] == e;
      forall i | 0 <= i < |es| ensures InterfaceLineOk(cx, es[i]) { assert all[i + 1] == es[i]; }
    }
  }

  lemma {:induction false} PeerLinesCons(cx: Codecs, e: Entry, es: seq<Entry>)
    ensures PeerLinesOk(cx, [e] + es) <==> PeerLineOk(cx, e) && PeerLinesOk(cx, es)
    ensures HasWSLine([e] + es) <==> IsWSKey(e.key) || HasWSLine(es)
  {
    hide PeerLineOk, IsWSKey;
    var all := [e] + es;
    assert all[0] == e && forall i :: 0 <= i < |es| ==> all[i + 1] == es[i];
    if PeerLinesOk(cx, all) {
      forall i | 0 <= i < |es| ensures PeerLineOk(cx, es[i]) { assert all[i + 1] == es[i]; }
    }
    if HasWSLine(es) {
      var i :| 0 <= i < |es| && IsWSKey(es[i].key);
      assert all[i + 1] == es[i];
    }
  }

  lemma {:induction false} InterfaceKeyAcceptable(cx: Codecs, s: State, line: string, rest: seq<string>, ps: seq<Peer>)
    requires Lex(line).Code? && !IsAnyHeader(line) && s.section.InInterface?
    ensures Acceptable(cx, s, [line] + rest, ps) <==>
      Step(cx, s, Lex(line)).Ok? && Acceptable(cx, Step(cx, s, Lex(line)).value, rest, ps)
  {
    hide Lex, HaveValues, Body, InterfaceBody, PeerBodies, NewPeers, SameSettings, InterfaceLinesOk, InterfaceLineOk;
    hide InterfaceFieldOf, SetInterfaceField;
    var e := Entry(Lex(line).key, Lex(line).val);
    HaveValuesCons(line, rest);
    KeyLine(line, rest);
    InterfaceLineTaken(cx, s.iface, e);
    InterfaceLinesCons(cx, e, Body(rest) + InterfaceBody(rest));
    assert [e] + (Body(rest) + InterfaceBody(rest)) == ([e] + Body(rest)) + InterfaceBody(rest);
  }

  lemma {:induction false} PeerKeyAcceptable(cx: Codecs, s: State, line: string, rest: seq<string>, ps: seq<Peer>)
    requires Lex(line).Code? && !IsAnyHeader(line) && s.section.InPeer?
    ensures Acceptable(cx, s, [line] + rest, ps) <==>
      Step(cx, s, Lex(line)).Ok? && Acceptable(cx, Step(cx, s, Lex(line)).value, rest, ps)
  {
    hide Lex, HaveValues, Body, InterfaceBody, PeerBodies, NewPeers, SameSettings, InterfaceLinesOk, PeerLinesOk;
    hide PeerLineOk, PeerFieldOf, SetPeerField, PeerSays, RulesHold, HasWSLine, IsWSSetting, IsWSKey;
    var e := Entry(Lex(line).key, Lex(line).val);
    HaveValuesCons(line, rest);
    KeyLine(line, rest);
    PeerLineTaken(cx, s.section.peer, e);
    PeerLinesCons(cx, e, Body(rest));
    if PeerLineOk(cx, e) && Lex(line).hasValue {
      PeerKeySettings(cx, s, line, e, rest);
    }
  }

  /** Where the line is taken, what is left to say is the same. */
  lemma {:induction false} PeerKeySettings(cx: Codecs, s: State, line: string, e: Entry, rest: seq<string>)
    requires Lex(line).Code? && Lex(line).hasValue && !IsAnyHeader(line) && s.section.InPeer?
    requires e == Entry(Lex(line).key, Lex(line).val) && e.val != "" && PeerFieldOf(e.key).Some?
    requires SetPeerField(cx, s.section.peer, PeerFieldOf(e.key).value, e.val).Ok?
    ensures var s1 := StepPeerKey(cx, s, e.key, e.val, Lex(line).comment);
      && s1.Ok? && s1.value.section.InPeer? && Step(cx, s, Lex(line)) == s1
      && s1.value.peers == s.peers && s1.value.iface == s.iface
      && (s1.value.section.wsKeys != [] <==> s.section.wsKeys != [] || IsWSKey(e.key))
      && var p, q := s.section.peer, s1.value.section.peer;
         forall r :: PeerSays(cx, [e] + Body(rest), p, r) <==> PeerSays(cx, Body(rest), q, r)
  {
    hide Lex, Body, PeerFieldOf, SetPeerField, PeerSays, LowerName, IsWSSetting, IsWSKey;
    var f, p := PeerFieldOf(e.key).value, s.section.peer;
    PeerKeyIsName(e.key);
    WSKeyOfName(f);
    PeerLine(cx, p, f, e.val);
    var q0 := SetPeerField(cx, p, f, e.val).value;
    var q := StepPeerKey(cx, s, e.key, e.val, Lex(line).comment).value.section.peer;
    PeerCommentsSayNothing(cx, [e], p, q0, p.comments, q.comments);
    forall r ensures PeerSays(cx, [e] + Body(rest), p, r) <==> PeerSays(cx, Body(rest), q, r) {
      RestSays(cx, [e], Body(rest), p, q, r);
    }
  }

  lemma {:induction false} StepAcceptable(cx: Codecs, s: State, line: string, rest: seq<string>, ps: seq<Peer>)
    ensures Acceptable(cx, s, [line] + rest, ps) <==>
      Step(cx, s, Lex(line)).Ok? && Acceptable(cx, Step(cx, s, Lex(line)).value, rest, ps)
  {
    hide Lex, Acceptable, StepInterfaceHeader, StepPeerHeader, StepInterfaceKey, StepPeerKey;
    if Lex(line).Filler? {
      FillerAcceptable(cx, s, line, rest, ps);
    } else if IsHeader(line, "[interface]") {
      InterfaceHeaderAcceptable(cx, s, line, rest, ps);
    } else if IsHeader(line, "[peer]") {
      PeerHeaderAcceptable(cx, s, line, rest, ps);
    } else if s.section.InInterface? {
      InterfaceKeyAcceptable(cx, s, line, rest, ps);
    } else if s.section.InPeer? {
      PeerKeyAcceptable(cx, s, line, rest, ps);
    } else {
      OutsideIsNot(cx, s, line, rest, ps);
    }
  }

  lemma {:induction false} OutsideIsNot(cx: Codecs, s: State, line: string, rest: seq<string>, ps: seq<Peer>)
    requires Lex(line).Code? && !IsAnyHeader(line) && s.section.NoSection?
    ensures !Acceptable(cx, s, [line] + rest, ps)
  {
    hide Lex, Peers, HaveValues;
    KeyLine(line, rest);
  }

  ghost predicate AllSameSettings(ps: seq<Peer>, qs: seq<Peer>) {
    |ps| == |qs| && forall k :: 0 <= k < |ps| ==> SameSettings(ps[k], qs[k])
  }

  lemma {:induction false} EndAcceptable(cx: Codecs, s: State, ps: seq<Peer>)
    ensures Acceptable(cx, s, [], ps) <==> FinishPeer(s).Ok? && AllSameSettings(FinishPeer(s).value.peers, ps)
  {
    hide Peers, FinishPeer, SameSettings, PeerSays;
    FinishAcceptable(cx, s, [], ps);
    if FinishPeer(s).Ok? && |FinishPeer(s).value.peers| == |ps| { assert ps[|ps|..] == []; }
  }

  lemma {:induction false} RunAcceptable(cx: Codecs, s: State, lines: seq<string>, ps: seq<Peer>)
    ensures Acceptable(cx, s, lines, ps) <==>
      && Run(cx, s, lines).Ok? && FinishPeer(Run(cx, s, lines).value).Ok?
      && AllSameSettings(FinishPeer(Run(cx, s, lines).value).value.peers, ps)
    decreases |lines|
  {
    hide Step, Lex, Acceptable, FinishPeer, AllSameSettings;
    if lines == [] {
      EndAcceptable(cx, s, ps);
    } else {
      assert [lines[0]] + lines[1..] == lines;
      StepAcceptable(cx, s, lines[0], lines[1..], ps);
      if Step(cx, s, Lex(lines[0])).Ok? {
        RunAcceptable(cx, Step(cx, s, Lex(lines[0])).value, lines[1..], ps);
      }
    }
  }

  // ----- The private key -----

  lemma {:induction false} PrivateKeyName(key: string)
    ensures InterfaceFieldOf(key) == Some(PrivateKey) <==> key == "privatekey"
  {
  }

  lemma {:induction false} StepSaw(cx: Codecs, s: State, line: string, rest: seq<string>)
    requires Step(cx, s, Lex(line)).Ok?
    ensures var s1 := Step(cx, s, Lex(line)).value;
      s1.sawPrivateKey || Last(InterfaceFrom(s1, rest), "privatekey").Some? <==>
      s.sawPrivateKey || Last(InterfaceFrom(s, [line] + rest), "privatekey").Some?
  {
    hide Lex, Body, InterfaceBody, PeerBodies, Last, FinishPeer, SetInterfaceField, SetPeerField;
    hide InterfaceFieldOf, PeerFieldOf;
    if Lex(line).Filler? {
      FillerLine(line, rest);
    } else if IsAnyHeader(line) {
      HeaderLine(line, rest);
      assert [] + (Body(rest) + InterfaceBody(rest)) == Body(rest) + InterfaceBody(rest);
      assert [] + ([] + InterfaceBody(rest)) == [] + InterfaceBody(rest);
    } else {
      KeyLine(line, rest);
      var e := Entry(Lex(line).key, Lex(line).val);
      if s.section.InInterface? {
        PrivateKeyName(e.key);
        LastAppend([e], Body(rest) + InterfaceBody(rest), "privatekey");
        OneEntry(e, "privatekey");
        assert [e] + (Body(rest) + InterfaceBody(rest)) == ([e] + Body(rest)) + InterfaceBody(rest);
      }
    }
  }

  lemma {:induction false} RunSaw(cx: Codecs, s: State, lines: seq<string>)
    requires Run(cx, s, lines).Ok?
    ensures Run(cx, s, lines).value.sawPrivateKey <==>
      s.sawPrivateKey || Last(InterfaceFrom(s, lines), "privatekey").Some?
    decreases |lines|
  {
    hide Step, Lex;
    if lines == [] {
    } else {
      hide InterfaceFrom, Last;
      RunSaw(cx, Step(cx, s, Lex(lines[0])).value, lines[1..]);
      assert [lines[0]] + lines[1..] == lines;
      StepSaw(cx, s, lines[0], lines[1..]);
    }
  }

  // ----- The theorem -----

  /** What a text must be like: every line with a key stands in a section, has an equals sign, a key
      of that section and a value of that key; there is a private key; and there are peers that are
      what their lines say, have public keys and keep the WebSocket rules. */
  ghost predicate WellFormed(cx: Codecs, lines: seq<string>) {
    && HaveValues(lines) && Body(lines) == []
    && InterfaceLinesOk(cx, InterfaceBody(lines)) && Last(InterfaceBody(lines), "privatekey").Some?
    && exists ps :: NewPeers(cx, PeerBodies(lines), ps) && AllHaveKeys(ps)
  }

  lemma {:induction false} SameKeys(ps: seq<Peer>, qs: seq<Peer>)
    requires AllSameSettings(ps, qs)
    ensures AllHaveKeys(ps) <==> AllHaveKeys(qs)
  {
    hide ZeroKey;
    forall k | 0 <= k < |ps| ensures ps[k].publicKey == qs[k].publicKey {
      assert SameSettings(ps[k], qs[k]);
      var c := NO_SECTION_COMMENTS;
      assert ps[k].(comments := c).publicKey == qs[k].(comments := c).publicKey;
    }
  }

  lemma {:induction false} FromTheStart(cx: Codecs, lines: seq<string>, ps: seq<Peer>)
    ensures Acceptable(cx, INITIAL, lines, ps) <==>
      && HaveValues(lines) && Body(lines) == [] && InterfaceLinesOk(cx, InterfaceBody(lines))
      && NewPeers(cx, PeerBodies(lines), ps)
  {
    hide HaveValues, Body, InterfaceBody, PeerBodies, NewPeers, InterfaceLinesOk;
    assert ps[0..] == ps && [] + InterfaceBody(lines) == InterfaceBody(lines);
  }

  /** The parser accepts exactly the well-formed texts. */
  lemma {:induction false} ParserAccepts(cx: Codecs, text: string, name: string)
    ensures Parse(cx, text, name).Ok? <==> TunnelNameIsValid(name) && WellFormed(cx, Split(text, '\n'))
  {
    hide Run, FinishPeer, Acceptable, NewPeers, HaveValues, Body, InterfaceBody, PeerBodies, InterfaceLinesOk, Last;
    hide AllHaveKeys, AllSameSettings, TunnelNameIsValid, PruneSection, PrunePeers, PruneComments;
    var lines := Split(text, '\n');
    if Run(cx, INITIAL, lines).Ok? {
      RunSaw(cx, INITIAL, lines);
      assert [] + InterfaceBody(lines) == InterfaceBody(lines);
    }
    if Parse(cx, text, name).Ok? {
      var ps := FinishPeer(Run(cx, INITIAL, lines).value).value.peers;
      AllSameItself(ps);
      RunAcceptable(cx, INITIAL, lines, ps);
      FromTheStart(cx, lines, ps);
    }
    if WellFormed(cx, lines) {
      var ps :| NewPeers(cx, PeerBodies(lines), ps) && AllHaveKeys(ps);
      FromTheStart(cx, lines, ps);
      RunAcceptable(cx, INITIAL, lines, ps);
      SameKeys(FinishPeer(Run(cx, INITIAL, lines).value).value.peers, ps);
    }
  }

  lemma {:induction false} AllSameItself(ps: seq<Peer>)
    ensures AllSameSettings(ps, ps)
  {
  }
}
