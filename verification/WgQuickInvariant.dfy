/**
 * Every configuration the parser accepts is canonical: an invariant of the section state
 * machine, kept by every line of every text, and established for good by the pruning.
 */
module WgQuickInvariant {
  import opened Text
  import opened Netip
  import opened Config
  import opened Names
  import opened WgQuickParser
  import opened WgQuickWriter
  import opened WgQuickLaws
  import opened WgQuickCanonical
  import opened WgQuickInterface
  import opened WgQuickPeer
  import opened WgQuickRoundTrip

  // ----- What a line can say -----

  predicate GoodToken(token: Token) {
    match token
    case Filler(comment) => CommentLine(comment)
    case Code(key, hasValue, val, comment) =>
      && CommentLine(comment)
      && (val == "" || Value(val))
      && (if hasValue && IsScriptKey(key) then comment == "" else '#' !in val)
  }

  lemma {:induction false} TrimmedPart(s: string, c: char)
    ensures Trimmed(TrimSpace(s))
    ensures c !in s ==> c !in TrimSpace(s)
  {
    var cut, end := TrimSpaceKeeps(s);
  }

  lemma {:induction false} LexedComment(after: string)
    requires '\n' !in after
    ensures CommentLine("#" + TrimLineEnd(after))
  {
    var kept := TrimRightKeeps(after, IsLineEnd);
    var l := "#" + after[..kept];
    assert l[|l| - 1] == if kept == 0 then '#' else after[kept - 1];
  }

  lemma {:induction false} CutChars(s: string, sep: char, c: char)
    requires c !in s
    ensures c !in Cut(s, sep).before && c !in Cut(s, sep).after
  {
    var r := Cut(s, sep);
    assert r.found ==> s == r.before + ([sep] + r.after);
  }

  /** What follows the first '=' of a text, trimmed. */
  function ValueIn(s: string): string {
    TrimSpace(Cut(s, '=').after)
  }

  lemma {:induction false} ValueInIsGood(s: string)
    requires '\n' !in s
    ensures ValueIn(s) == "" || Value(ValueIn(s))
    ensures '#' !in s ==> '#' !in ValueIn(s)
  {
    CutChars(s, '=', '\n');
    TrimmedPart(Cut(s, '=').after, '\n');
    if '#' !in s {
      CutChars(s, '=', '#');
      TrimmedPart(Cut(s, '=').after, '#');
    }
  }

  lemma {:induction false} CodeIsGood(line: string)
    requires '\n' !in line
    ensures var val := ValueIn(TrimSpace(Cut(line, '#').before)); '#' !in val && (val == "" || Value(val))
  {
    var code := Cut(line, '#').before;
    CutChars(line, '#', '\n');
    TrimmedPart(code, '\n');
    TrimmedPart(code, '#');
    ValueInIsGood(TrimSpace(code));
  }

  lemma {:induction false} LexIsGood(line: string)
    requires '\n' !in line
    ensures GoodToken(Lex(line))
  {
    hide TrimSpace, TrimLineEnd, IsScriptKey, ToLower, Value, CommentLine;
    CutChars(line, '#', '\n');
    LexedComment(Cut(line, '#').after);
    CodeIsGood(line);
    ValueInIsGood(line);
    EmptyComment();
  }

  lemma {:induction false} EmptyComment()
    ensures CommentLine("")
  {
  }

  // ----- Lists of items -----

  lemma {:induction false} TrimPartsAreItems(parts: seq<string>)
    requires forall i :: 0 <= i < |parts| ==> ',' !in parts[i] && '#' !in parts[i] && '\n' !in parts[i]
    requires TrimParts(parts).Ok?
    ensures Items(TrimParts(parts).value)
  {
    if parts == [] {
    } else {
      TrimmedPart(parts[0], ',');
      TrimmedPart(parts[0], '#');
      TrimmedPart(parts[0], '\n');
      TrimPartsAreItems(parts[1..]);
    }
  }

  lemma {:induction false} SplitListIsItems(val: string)
    requires PlainValue(val) && SplitList(val).Ok?
    ensures Items(SplitList(val).value) && SplitList(val).value != []
  {
    SplitChars(val, ',', ',');
    SplitChars(val, ',', '#');
    SplitChars(val, ',', '\n');
    TrimPartsAreItems(Split(val, ','));
  }

  ghost predicate GoodPrefixes(cx: Codecs, ps: seq<Prefix>) {
    forall k :: 0 <= k < |ps| ==> GoodPrefix(cx, ps[k])
  }

  lemma {:induction false} ParsedPrefixesAreGood(cx: Codecs, items: seq<string>)
    requires Lawful(cx) && ParsePrefixes(cx, items).Ok?
    ensures GoodPrefixes(cx, ParsePrefixes(cx, items).value)
  {
    if items == [] {
    } else {
      assert GoodPrefix(cx, ParseIPCidr(cx, items[0]).value);
      ParsedPrefixesAreGood(cx, items[1..]);
    }
  }

  /** A list read from a line: at least one element, all good. */
  lemma {:induction false} ReadPrefixListIsGood(cx: Codecs, val: string)
    requires Lawful(cx) && PlainValue(val) && SplitList(val).Ok? && ParsePrefixes(cx, SplitList(val).value).Ok?
    ensures var ps := ParsePrefixes(cx, SplitList(val).value).value; ps != [] && GoodPrefixes(cx, ps)
  {
    SplitListIsItems(val);
    ParsedPrefixesAreGood(cx, SplitList(val).value);
  }

  ghost predicate GoodDNS(cx: Codecs, servers: seq<Addr>, domains: seq<string>) {
    && (forall k :: 0 <= k < |servers| ==> GoodAddr(cx, servers[k]))
    && (forall k :: 0 <= k < |domains| ==> Item(domains[k]) && cx.parseAddr(domains[k]).None?)
  }

  lemma {:induction false} ClassifiedItemsAreGood(cx: Codecs, items: seq<string>)
    requires Lawful(cx) && Items(items)
    ensures GoodDNS(cx, Servers(cx, items), SearchDomains(cx, items))
    ensures |Servers(cx, items)| + |SearchDomains(cx, items)| == |items|
  {
    if items == [] {
    } else {
      assert Item(items[0]);
      ClassifiedItemsAreGood(cx, items[1..]);
    }
  }

  // ----- Good values arrive and stay -----

  lemma {:induction false} InterfaceFieldKept(cx: Codecs, a: Interface, b: Interface, f: Field)
    requires SameInterfaceValue(a, b, f)
    ensures GoodInterfaceField(cx, a, f) <==> GoodInterfaceField(cx, b, f)
    ensures ReadInterfaceField(a, f) <==> ReadInterfaceField(b, f)
  {
  }

  lemma {:induction false} PeerFieldKept(cx: Codecs, a: Peer, b: Peer, f: Field)
    requires SamePeerValue(a, b, f)
    ensures GoodPeerField(cx, a, f) <==> GoodPeerField(cx, b, f)
    ensures ReadPeerField(a, f) <==> ReadPeerField(b, f)
  {
  }

  lemma {:induction false} SamePeerDespiteComments(p: Peer, sc: SectionComments, f: Field)
    ensures SamePeerValue(p.(comments := sc), p, f)
  {
  }

  /** The value fits the key: only a script may contain a '#'. */
  predicate ValueFor(f: Field, val: string) {
    Value(val) && (IsScript(f) || '#' !in val)
  }

  lemma {:induction false} AddressIsGood(cx: Codecs, i: Interface, val: string)
    requires Lawful(cx) && PlainValue(val) && GoodInterfaceField(cx, i, Address)
    requires SetInterfaceField(cx, i, Address, val).Ok?
    ensures var r := SetInterfaceField(cx, i, Address, val).value;
            GoodInterfaceField(cx, r, Address) && ReadInterfaceField(r, Address)
  {
    ReadPrefixListIsGood(cx, val);
  }

  lemma {:induction false} DNSIsGood(cx: Codecs, i: Interface, val: string)
    requires Lawful(cx) && PlainValue(val) && GoodInterfaceField(cx, i, DNS)
    requires SetInterfaceField(cx, i, DNS, val).Ok?
    ensures var r := SetInterfaceField(cx, i, DNS, val).value;
            GoodInterfaceField(cx, r, DNS) && ReadInterfaceField(r, DNS)
  {
    SplitListIsItems(val);
    ClassifiedItemsAreGood(cx, SplitList(val).value);
  }

  lemma {:induction false} SetInterfaceFieldIsGood(cx: Codecs, i: Interface, f: Field, val: string)
    requires Lawful(cx) && IsInterfaceField(f) && ValueFor(f, val) && GoodInterfaceField(cx, i, f)
    requires SetInterfaceField(cx, i, f, val).Ok?
    ensures var r := SetInterfaceField(cx, i, f, val).value; GoodInterfaceField(cx, r, f) && ReadInterfaceField(r, f)
  {
    match f
    case PrivateKey => assert GoodKey(cx, SetInterfaceField(cx, i, f, val).value.privateKey);
    case Address => AddressIsGood(cx, i, val);
    case DNS => DNSIsGood(cx, i, val);
    case _ =>
  }

  lemma {:induction false} AllowedIPsIsGood(cx: Codecs, p: Peer, val: string)
    requires Lawful(cx) && PlainValue(val) && GoodPeerField(cx, p, AllowedIPs)
    requires SetPeerField(cx, p, AllowedIPs, val).Ok?
    ensures var r := SetPeerField(cx, p, AllowedIPs, val).value;
            GoodPeerField(cx, r, AllowedIPs) && ReadPeerField(r, AllowedIPs)
  {
    ReadPrefixListIsGood(cx, val);
  }

  lemma {:induction false} EndpointIsGood(cx: Codecs, p: Peer, val: string)
    requires PlainValue(val)
    requires SetPeerField(cx, p, PeerEndpoint, val).Ok?
    ensures var r := SetPeerField(cx, p, PeerEndpoint, val).value;
            GoodPeerField(cx, r, PeerEndpoint) && ReadPeerField(r, PeerEndpoint)
  {
    if !IsWSURL(val) {
      ParsedEndpointIsGood(cx, val);
    }
  }

  lemma {:induction false} SetPeerFieldIsGood(cx: Codecs, p: Peer, f: Field, val: string)
    requires Lawful(cx) && !IsInterfaceField(f) && PlainValue(val) && GoodPeerField(cx, p, f)
    requires SetPeerField(cx, p, f, val).Ok?
    ensures var r := SetPeerField(cx, p, f, val).value; GoodPeerField(cx, r, f) && ReadPeerField(r, f)
  {
    match f
    case PublicKey => assert GoodKey(cx, SetPeerField(cx, p, f, val).value.publicKey);
    case PresharedKey => assert GoodKey(cx, SetPeerField(cx, p, f, val).value.presharedKey);
    case AllowedIPs => AllowedIPsIsGood(cx, p, val);
    case PeerEndpoint => EndpointIsGood(cx, p, val);
    case _ =>
  }

  // ----- Comments before pruning -----

  predicate RawHeader(c: Comments) {
    CommentLines(c.before) && CommentLine(c.suffix)
  }

  lemma {:induction false} JoinedSuffix(a: string, b: string)
    requires CommentLine(a) && CommentLine(b)
    ensures CommentLine(JoinSuffix(a, b))
  {
    var s := a + " " + b;
    assert a != "" && b != "" ==> s[0] == a[0] && s[|s| - 1] == b[|b| - 1];
  }

  /** Gathering comments on one key keeps what is known of all of them. */
  lemma {:induction false} AddCommentIsRaw(sc: SectionComments, f: Field, pending: seq<string>, comment: string)
    requires forall g :: g in sc.lines ==> PrintableComments(sc.lines[g], g)
    requires CommentLines(pending) && CommentLine(comment) && (IsScript(f) ==> comment == "")
    ensures var r := AddComment(sc, f, pending, comment);
            && r.header == sc.header
            && (forall g :: g in r.lines ==> (g == f || g in sc.lines) && PrintableComments(r.lines[g], g))
  {
    var c := CommentsAt(sc, f);
    JoinedSuffix(c.suffix, comment);
    assert PrintableComments(Comments(c.before + pending, JoinSuffix(c.suffix, comment)), f);
  }

  // ----- The invariant -----

  ghost predicate RawInterfaceEntry(cx: Codecs, i: Interface, f: Field) {
    && GoodInterfaceField(cx, i, f)
    && (f in i.comments.lines ==> ReadInterfaceField(i, f) && PrintableComments(i.comments.lines[f], f))
  }

  ghost predicate RawInterface(cx: Codecs, i: Interface) {
    RawHeader(i.comments.header) && forall f :: RawInterfaceEntry(cx, i, f)
  }

  ghost predicate RawPeerEntry(cx: Codecs, p: Peer, f: Field) {
    && GoodPeerField(cx, p, f)
    && (f in p.comments.lines ==> ReadPeerField(p, f) && PrintableComments(p.comments.lines[f], f))
  }

  ghost predicate RawPeer(cx: Codecs, p: Peer) {
    RawHeader(p.comments.header) && forall f :: RawPeerEntry(cx, p, f)
  }

  /** No WebSocket setting was read: none has a value or a comment. */
  ghost predicate NoWSRead(p: Peer) {
    forall f :: IsWSSetting(f) ==> SamePeerField(p, EMPTY_PEER, f)
  }

  ghost predicate RawFinished(cx: Codecs, p: Peer) {
    RawPeer(cx, p) && ValidateWSPeer(p, []).Ok? && (p.wsMode.NoWS? ==> NoWSRead(p))
  }

  ghost predicate RawFinishedAll(cx: Codecs, ps: seq<Peer>) {
    forall k :: 0 <= k < |ps| ==> RawFinished(cx, ps[k])
  }

  ghost predicate RawSection(cx: Codecs, section: Section) {
    section.InPeer? ==> RawPeer(cx, section.peer) && (section.wsKeys == [] ==> NoWSRead(section.peer))
  }

  ghost predicate Inv(cx: Codecs, s: State) {
    && CommentLines(s.pending)
    && RawInterface(cx, s.iface)
    && RawFinishedAll(cx, s.peers)
    && RawSection(cx, s.section)
  }

  lemma {:induction false} FinishPeerKeeps(cx: Codecs, s: State)
    requires Inv(cx, s) && FinishPeer(s).Ok?
    ensures Inv(cx, FinishPeer(s).value)
  {
  }

  lemma {:induction false} InterfaceHeaderKeeps(cx: Codecs, s: State, comment: string)
    requires Inv(cx, s) && CommentLine(comment) && StepInterfaceHeader(s, comment).Ok?
    ensures Inv(cx, StepInterfaceHeader(s, comment).value)
  {
    FinishPeerKeeps(cx, s);
    var i := FinishPeer(s).value.iface;
    JoinedSuffix(i.comments.header.suffix, comment);
    var j := StepInterfaceHeader(s, comment).value.iface;
    forall f
      ensures RawInterfaceEntry(cx, j, f)
    {
      assert RawInterfaceEntry(cx, i, f);
      InterfaceFieldKept(cx, j, i, f);
    }
  }

  lemma {:induction false} EmptyPeerIsRaw(cx: Codecs, c: Comments)
    requires Lawful(cx) && RawHeader(c)
    ensures RawPeer(cx, NewPeer(c)) && NoWSRead(NewPeer(c))
  {
    assert GoodKey(cx, ZeroKey());
  }

  lemma {:induction false} EmptyInterfaceIsRaw(cx: Codecs)
    requires Lawful(cx)
    ensures RawInterface(cx, EMPTY_INTERFACE)
  {
    assert GoodKey(cx, ZeroKey());
  }

  lemma {:induction false} PeerHeaderKeeps(cx: Codecs, s: State, comment: string)
    requires Lawful(cx) && Inv(cx, s) && CommentLine(comment) && StepPeerHeader(s, comment).Ok?
    ensures Inv(cx, StepPeerHeader(s, comment).value)
  {
    FinishPeerKeeps(cx, s);
    EmptyPeerIsRaw(cx, Comments(s.pending, comment));
  }

  lemma {:induction false} SetInterfaceKeeps(cx: Codecs, i: Interface, f: Field, val: string, pending: seq<string>,
    comment: string)
    requires Lawful(cx) && RawInterface(cx, i) && IsInterfaceField(f) && ValueFor(f, val)
    requires CommentLines(pending) && CommentLine(comment) && (IsScript(f) ==> comment == "")
    requires SetInterfaceField(cx, i, f, val).Ok?
    ensures RawInterface(cx,
      SetInterfaceField(cx, i, f, val).value.(comments := AddComment(i.comments, f, pending, comment)))
  {
    assert RawInterfaceEntry(cx, i, f);
    SetInterfaceFieldIsGood(cx, i, f, val);
    SetInterfaceFrame(cx, i, f, val);
    assert forall g :: g in i.comments.lines ==> PrintableComments(i.comments.lines[g], g) by {
      forall g | g in i.comments.lines ensures PrintableComments(i.comments.lines[g], g) {
        assert RawInterfaceEntry(cx, i, g);
      }
    }
    AddCommentIsRaw(i.comments, f, pending, comment);
    var set0 := SetInterfaceField(cx, i, f, val).value;
    var j := set0.(comments := AddComment(i.comments, f, pending, comment));
    forall g
      ensures RawInterfaceEntry(cx, j, g)
    {
      assert RawInterfaceEntry(cx, i, g);
      InterfaceFieldKept(cx, j, set0, g);
      if g != f {
        InterfaceFieldKept(cx, set0, i, g);
      }
    }
  }

  lemma {:induction false} SetPeerKeeps(cx: Codecs, p: Peer, f: Field, val: string, pending: seq<string>,
    comment: string)
    requires Lawful(cx) && RawPeer(cx, p) && !IsInterfaceField(f) && PlainValue(val)
    requires CommentLines(pending) && CommentLine(comment)
    requires SetPeerField(cx, p, f, val).Ok?
    ensures RawPeer(cx, SetPeerField(cx, p, f, val).value.(comments := AddComment(p.comments, f, pending, comment)))
  {
    hide SetPeerField, AddComment, GoodPeerField, ReadPeerField, SamePeerValue, PrintableComments, Lawful;
    assert RawPeerEntry(cx, p, f);
    SetPeerFieldIsGood(cx, p, f, val);
    SetPeerFrame(cx, p, f, val);
    assert forall g :: g in p.comments.lines ==> PrintableComments(p.comments.lines[g], g) by {
      forall g | g in p.comments.lines ensures PrintableComments(p.comments.lines[g], g) {
        assert RawPeerEntry(cx, p, g);
      }
    }
    AddCommentIsRaw(p.comments, f, pending, comment);
    var set0 := SetPeerField(cx, p, f, val).value;
    var q := set0.(comments := AddComment(p.comments, f, pending, comment));
    forall g
      ensures RawPeerEntry(cx, q, g)
    {
      assert RawPeerEntry(cx, p, g);
      assert g != f ==> SamePeerValue(set0, p, g);
      PeerEntryKept(cx, p, set0, q, f, g);
    }
  }

  lemma {:induction false} PeerEntryKept(cx: Codecs, p: Peer, set0: Peer, q: Peer, f: Field, g: Field)
    requires RawPeerEntry(cx, p, g) && q == set0.(comments := q.comments)
    requires GoodPeerField(cx, set0, f) && ReadPeerField(set0, f) && (g != f ==> SamePeerValue(set0, p, g))
    requires g in q.comments.lines ==> (g == f || g in p.comments.lines) && PrintableComments(q.comments.lines[g], g)
    ensures RawPeerEntry(cx, q, g)
  {
    hide GoodPeerField, ReadPeerField, SamePeerValue, PrintableComments;
    SamePeerDespiteComments(set0, q.comments, g);
    PeerFieldKept(cx, q, set0, g);
    if g != f {
      PeerFieldKept(cx, set0, p, g);
    }
  }

  /** A key that is not a WebSocket setting leaves those settings unread. */
  lemma {:induction false} NoWSReadKept(cx: Codecs, p: Peer, f: Field, val: string, pending: seq<string>,
    comment: string)
    requires NoWSRead(p) && !IsInterfaceField(f) && !IsWSSetting(f)
    requires SetPeerField(cx, p, f, val).Ok?
    ensures NoWSRead(SetPeerField(cx, p, f, val).value.(comments := AddComment(p.comments, f, pending, comment)))
  {
    SetPeerFrame(cx, p, f, val);
    var set0 := SetPeerField(cx, p, f, val).value;
    var q := set0.(comments := AddComment(p.comments, f, pending, comment));
    forall g | IsWSSetting(g)
      ensures SamePeerField(q, EMPTY_PEER, g)
    {
      assert SamePeerField(p, EMPTY_PEER, g) && SamePeerValue(set0, p, g);
    }
  }

  lemma {:induction false} FieldsOfScriptKeys(key: string)
    ensures InterfaceFieldOf(key).Some? && IsScript(InterfaceFieldOf(key).value) ==> IsScriptKey(key)
    ensures InterfaceFieldOf(key).Some? && IsScriptKey(key) ==> IsScript(InterfaceFieldOf(key).value)
  {
  }

  lemma {:induction false} NoPeerFieldIsScript(key: string)
    requires PeerFieldOf(key).Some?
    ensures !IsScriptKey(key)
  {
  }

  lemma {:induction false} InterfaceKeyKeeps(cx: Codecs, s: State, key: string, val: string, comment: string)
    requires Lawful(cx) && Inv(cx, s) && val != "" && GoodToken(Code(key, true, val, comment))
    requires StepInterfaceKey(cx, s, key, val, comment).Ok?
    ensures Inv(cx, StepInterfaceKey(cx, s, key, val, comment).value)
  {
    FieldsOfScriptKeys(key);
    SetInterfaceKeeps(cx, s.iface, InterfaceFieldOf(key).value, val, s.pending, comment);
  }

  lemma {:induction false} PeerKeyKeeps(cx: Codecs, s: State, key: string, val: string, comment: string)
    requires Lawful(cx) && Inv(cx, s) && s.section.InPeer? && val != "" && GoodToken(Code(key, true, val, comment))
    requires StepPeerKey(cx, s, key, val, comment).Ok?
    ensures Inv(cx, StepPeerKey(cx, s, key, val, comment).value)
  {
    var f := PeerFieldOf(key).value;
    NoPeerFieldIsScript(key);
    SetPeerKeeps(cx, s.section.peer, f, val, s.pending, comment);
    if s.section.wsKeys == [] && !IsWSSetting(f) {
      NoWSReadKept(cx, s.section.peer, f, val, s.pending, comment);
    }
  }

  /** Every line keeps the invariant. */
  lemma {:induction false} StepKeeps(cx: Codecs, s: State, token: Token)
    requires Lawful(cx) && Inv(cx, s) && GoodToken(token) && Step(cx, s, token).Ok?
    ensures Inv(cx, Step(cx, s, token).value)
  {
    match token
    case Filler(comment) =>
    case Code(key, hasValue, val, comment) =>
      if key == "[interface]" && !hasValue {
        InterfaceHeaderKeeps(cx, s, comment);
      } else if key == "[peer]" && !hasValue {
        PeerHeaderKeeps(cx, s, comment);
      } else if s.section.InInterface? {
        InterfaceKeyKeeps(cx, s, key, val, comment);
      } else {
        PeerKeyKeeps(cx, s, key, val, comment);
      }
  }

  lemma {:induction false} RunKeeps(cx: Codecs, s: State, lines: seq<string>)
    requires Lawful(cx) && Inv(cx, s) && AllOneLine(lines) && Run(cx, s, lines).Ok?
    ensures Inv(cx, Run(cx, s, lines).value)
    decreases |lines|
  {
    hide Inv, Step, Lex, Lawful, GoodToken;
    if lines == [] {
    } else {
      LexIsGood(lines[0]);
      StepKeeps(cx, s, Lex(lines[0]));
      RunKeeps(cx, Step(cx, s, Lex(lines[0])).value, lines[1..]);
    }
  }

  // ----- Pruning -----

  lemma {:induction false} CollapseIsPruned(run: seq<string>)
    requires CommentLines(run)
    ensures CommentLines(Collapse(run)) && NoDoubleBlank(Collapse(run))
    decreases |run|
  {
    if run == [] {
    } else {
      CollapseIsPruned(run[..|run| - 1]);
    }
  }

  lemma {:induction false} PruneIsPruned(run: seq<string>, dropLeading: bool, dropTrailing: bool)
    requires CommentLines(run)
    ensures var out := PruneComments(run, dropLeading, dropTrailing);
            && PrunedRun(out)
            && (dropLeading && out != [] ==> out[0] != "")
            && (dropTrailing && out != [] ==> out[|out| - 1] != "")
  {
    CollapseIsPruned(run);
  }

  lemma {:induction false} PrunedCommentsOf(sc: SectionComments, f: Field)
    requires f in sc.lines ==> PrintableComments(sc.lines[f], f)
    ensures f in PruneSection(sc).lines ==> f in sc.lines && PrunedLine(PruneSection(sc).lines[f], f)
  {
    if f in sc.lines {
      PruneIsPruned(sc.lines[f].before, false, false);
    }
  }

  lemma {:induction false} PrunedInterface(cx: Codecs, i: Interface)
    requires RawInterface(cx, i)
    ensures GoodInterface(cx, i.(comments := PruneSection(i.comments)))
  {
    PruneIsPruned(i.comments.header.before, true, false);
    var j := i.(comments := PruneSection(i.comments));
    forall f
      ensures GoodInterfaceEntry(cx, j, f)
    {
      assert RawInterfaceEntry(cx, i, f);
      InterfaceFieldKept(cx, j, i, f);
      PrunedCommentsOf(i.comments, f);
    }
  }

  lemma {:induction false} PrunedPeer(cx: Codecs, p: Peer)
    requires RawFinished(cx, p) && p.publicKey != ZeroKey()
    ensures GoodPeer(cx, PrunePeer(p)) && FinishedPeer(cx, PrunePeer(p))
  {
    PruneIsPruned(p.comments.header.before, true, false);
    var q := PrunePeer(p);
    forall f
      ensures GoodPeerEntry(cx, q, f)
      ensures p.wsMode.NoWS? && IsWSSetting(f) ==> !HasWSSetting(cx, q, f)
    {
      assert RawPeerEntry(cx, p, f);
      PeerFieldKept(cx, q, p, f);
      PrunedCommentsOf(p.comments, f);
    }
  }

  lemma {:induction false} InitialIsRaw(cx: Codecs)
    requires Lawful(cx)
    ensures Inv(cx, INITIAL)
  {
    hide RawInterface;
    EmptyInterfaceIsRaw(cx);
  }

  lemma {:induction false} FinishedIsCanonical(cx: Codecs, name: string, s: State)
    requires TunnelNameIsValid(name) && Inv(cx, s) && Finish(name, s).Ok?
    ensures Canonical(cx, Finish(name, s).value)
  {
    hide TunnelNameIsValid, FinishPeer, RawInterface, RawFinished, GoodInterface, GoodPeer, FinishedPeer, PruneSection,
      PruneComments;
    FinishPeerKeeps(cx, s);
    var t := FinishPeer(s).value;
    PrunedInterface(cx, t.iface);
    forall k | 0 <= k < |t.peers|
      ensures GoodPeer(cx, PrunePeer(t.peers[k])) && FinishedPeer(cx, PrunePeer(t.peers[k]))
    {
      PrunedPeer(cx, t.peers[k]);
    }
    PruneIsPruned(t.pending, false, true);
  }

  /** What the parser accepts is canonical. */
  lemma {:induction false} ParsedIsCanonical(cx: Codecs, text: string, name: string)
    requires Lawful(cx) && Parse(cx, text, name).Ok?
    ensures Canonical(cx, Parse(cx, text, name).value) && Parse(cx, text, name).value.name == name
  {
    hide Run, Lawful, Inv, Canonical, FinishPeer, TunnelNameIsValid, AllHaveKeys, PrunePeers, PruneComments;
    SplitChars(text, '\n', '\n');
    InitialIsRaw(cx);
    RunKeeps(cx, INITIAL, Split(text, '\n'));
    FinishedIsCanonical(cx, name, Run(cx, INITIAL, Split(text, '\n')).value);
  }

  /** Every text the parser accepts: printing the configuration and parsing again gives
      the same configuration, and its text is a fixed point of printing. */
  lemma {:induction false} RoundTrip(cx: Codecs, text: string, name: string)
    requires Lawful(cx) && Parse(cx, text, name).Ok?
    ensures var c := Parse(cx, text, name).value;
            Parse(cx, Show(cx, c), name) == Ok(c)
  {
    ParsedIsCanonical(cx, text, name);
    ParseShow(cx, Parse(cx, text, name).value);
  }
}
