/**
 * FromWgQuick and ToWgQuick in the form of the original: a reader whose fields change line by
 * line, and a writer that appends to its output.
 */
module WgQuickLoops {
  import opened Text
  import opened Config
  import opened Names
  import opened WgQuickParser
  import opened WgQuickWriter
  import opened WgQuickLaws
  import opened WgQuickInvariant

  datatype Place = NotInASection | InInterfaceSection | InPeerSection

  class Reader {
    var place: Place
    var iface: Interface
    var sawPrivateKey: bool
    var peers: seq<Peer>
    var peer: Option<Peer>
    var peerWSKeys: seq<string>
    var pendingComments: seq<string>

    ghost predicate Valid()
      reads this
    {
      place.InPeerSection? <==> peer.Some?
    }

    ghost function Abs(): State
      reads this
    {
      var section :=
        if peer.Some? then InPeer(peer.value, peerWSKeys)
        else if place.InInterfaceSection? then InInterface
        else NoSection;
      State(section, iface, sawPrivateKey, peers, pendingComments)
    }

    constructor ()
      ensures Valid() && Abs() == INITIAL
    {
      place, iface, sawPrivateKey, peers := NotInASection, EMPTY_INTERFACE, false, [];
      peer, peerWSKeys, pendingComments := None, [], [];
    }

    /** finishPeer. */
    method FinishPeer() returns (e: Option<ParseError>)
      modifies `peers, `peer, `peerWSKeys
      ensures if old(peer).None? then e == None && peers == old(peers)
        else
          var v := ValidateWSPeer(old(peer).value, old(peerWSKeys));
          if v.Err? then e == Some(v.error) else e == None && peers == old(peers) + [old(peer).value]
      ensures if e.None? then peer == None && peerWSKeys == []
        else peer == old(peer) && peerWSKeys == old(peerWSKeys) && peers == old(peers)
    {
      if peer.Some? {
        var v := ValidateWSPeer(peer.value, peerWSKeys);
        if v.Err? {
          return Some(v.error);
        }
        peers := peers + [peer.value];
      }
      peer, peerWSKeys := None, [];
      e := None;
    }

    method ReadInterfaceHeader(comment: string) returns (e: Option<ParseError>)
      requires Valid()
      modifies this
      ensures match e
        case None => Valid() && StepInterfaceHeader(old(Abs()), comment) == Ok(Abs())
        case Some(error) => StepInterfaceHeader(old(Abs()), comment) == Err(error)
    {
      hide ValidateWSPeer;
      e := FinishPeer();
      if e.None? {
        place := InInterfaceSection;
        var h := iface.comments.header;
        h := Comments(h.before + pendingComments, JoinSuffix(h.suffix, comment));
        iface := iface.(comments := iface.comments.(header := h));
        pendingComments := [];
      }
    }

    method ReadPeerHeader(comment: string) returns (e: Option<ParseError>)
      requires Valid()
      modifies this
      ensures match e
        case None => Valid() && StepPeerHeader(old(Abs()), comment) == Ok(Abs())
        case Some(error) => StepPeerHeader(old(Abs()), comment) == Err(error)
    {
      hide ValidateWSPeer;
      e := FinishPeer();
      if e.None? {
        peer := Some(NewPeer(Comments(pendingComments, comment)));
        peerWSKeys := [];
        pendingComments := [];
        place := InPeerSection;
      }
    }

    /** The body of the loop over the lines. */
    method ReadLine(cx: Codecs, line: string) returns (e: Option<ParseError>)
      requires Valid()
      modifies this
      ensures match e
        case None => Valid() && Step(cx, old(Abs()), Lex(line)) == Ok(Abs())
        case Some(error) => Step(cx, old(Abs()), Lex(line)) == Err(error)
    {
      hide TrimSpace, TrimLineEnd, ToLower, IsScriptKey, Step, Cut;
      var cut := Cut(line, '#');
      var comment := "";
      if cut.found {
        comment := "#" + TrimLineEnd(cut.after);
      }
      var stripped := TrimSpace(cut.before);
      if stripped == "" {
        StepFiller(cx, Abs(), comment);
        pendingComments := pendingComments + [comment];
        return None;
      }
      var kv := Cut(stripped, '=');
      var key := ToLower(TrimSpace(kv.before));
      var val := kv.after;
      if kv.found && IsScriptKey(key) {
        val := Cut(line, '=').after;
        comment := "";
      }
      val := TrimSpace(val);
      e := ReadCode(cx, key, kv.found, val, comment);
    }

    /** A line that is not just a comment. */
    method ReadCode(cx: Codecs, key: string, hasValue: bool, val: string, comment: string)
      returns (e: Option<ParseError>)
      requires Valid()
      modifies this
      ensures match e
        case None => Valid() && Step(cx, old(Abs()), Code(key, hasValue, val, comment)) == Ok(Abs())
        case Some(error) => Step(cx, old(Abs()), Code(key, hasValue, val, comment)) == Err(error)
    {
      hide StepInterfaceHeader, StepPeerHeader, StepInterfaceKey, StepPeerKey;
      if key == "[interface]" && !hasValue {
        e := ReadInterfaceHeader(comment);
        return;
      }
      if key == "[peer]" && !hasValue {
        e := ReadPeerHeader(comment);
        return;
      }
      if place.NotInASection? {
        return Some(LineOutsideSection);
      }
      if !hasValue {
        return Some(MissingEquals);
      }
      if val == "" {
        return Some(MissingValue);
      }
      if place.InInterfaceSection? {
        e := ReadInterfaceKey(cx, key, val, comment);
      } else {
        e := ReadPeerKey(cx, key, val, comment);
      }
    }

    method ReadInterfaceKey(cx: Codecs, key: string, val: string, comment: string) returns (e: Option<ParseError>)
      requires Valid() && place.InInterfaceSection?
      modifies `iface, `sawPrivateKey, `pendingComments
      ensures match e
        case None => StepInterfaceKey(cx, old(Abs()), key, val, comment) == Ok(Abs())
        case Some(error) => StepInterfaceKey(cx, old(Abs()), key, val, comment) == Err(error)
    {
      hide SetInterfaceField, InterfaceFieldOf;
      e := None;
      var f := InterfaceFieldOf(key);
      if f.None? {
        return Some(InvalidInterfaceKey);
      }
      var comments := AddComment(iface.comments, f.value, pendingComments, comment);
      pendingComments := [];
      var i := SetInterfaceField(cx, iface, f.value, val);
      if i.Err? {
        return Some(i.error);
      }
      iface := i.value.(comments := comments);
      if f.value.PrivateKey? {
        sawPrivateKey := true;
      }
    }

    method ReadPeerKey(cx: Codecs, key: string, val: string, comment: string) returns (e: Option<ParseError>)
      requires Valid() && place.InPeerSection?
      modifies `peer, `peerWSKeys, `pendingComments
      ensures match e
        case None => Valid() && StepPeerKey(cx, old(Abs()), key, val, comment) == Ok(Abs())
        case Some(error) => StepPeerKey(cx, old(Abs()), key, val, comment) == Err(error)
    {
      hide SetPeerField, PeerFieldOf;
      e := None;
      var f := PeerFieldOf(key);
      if f.None? {
        return Some(InvalidPeerKey);
      }
      var comments := AddComment(peer.value.comments, f.value, pendingComments, comment);
      pendingComments := [];
      var p := SetPeerField(cx, peer.value, f.value, val);
      if p.Err? {
        return Some(p.error);
      }
      peer := Some(p.value.(comments := comments));
      assert peerWSKeys + [] == peerWSKeys;
      if IsWSSetting(f.value) {
        peerWSKeys := peerWSKeys + [Name(f.value)];
      }
    }
  }

  lemma {:induction false} StepFiller(cx: Codecs, s: State, comment: string)
    ensures Step(cx, s, Filler(comment)) == Ok(s.(pending := s.pending + [comment]))
  {
  }

  // ----- Pruning -----

  method CollapseBlanks(run: seq<string>) returns (out: seq<string>)
    ensures out == Collapse(run)
  {
    out := [];
    for i := 0 to |run|
      invariant out == Collapse(run[..i])
    {
      assert run[..i + 1][..i] == run[..i] && run[..i + 1][i] == run[i];
      if run[i] == "" && |out| != 0 && out[|out| - 1] == "" {
        continue;
      }
      out := out + [run[i]];
    }
    assert run[..|run|] == run;
  }

  /** pruneComments. */
  method Prune(run: seq<string>, dropLeading: bool, dropTrailing: bool) returns (out: seq<string>)
    ensures out == PruneComments(run, dropLeading, dropTrailing)
  {
    hide Collapse;
    out := CollapseBlanks(run);
    if dropLeading && |out| != 0 && out[0] == "" {
      out := out[1..];
    }
    if dropTrailing && |out| != 0 && out[|out| - 1] == "" {
      out := out[..|out| - 1];
    }
    if |out| == 0 || (|out| == 1 && out[0] == "") {
      return [];
    }
  }

  /** pruneSectionComments; the keys come in any order. */
  method PruneAll(sc: SectionComments) returns (r: SectionComments)
    ensures r == PruneSection(sc)
  {
    hide PruneComments;
    var before := Prune(sc.header.before, true, false);
    var lines: map<Field, Comments> := map[];
    var rest := sc.lines.Keys;
    while rest != {}
      invariant rest <= sc.lines.Keys
      invariant forall f :: f in lines <==> f in sc.lines && f !in rest && PruneLine(sc.lines[f]) != NO_COMMENTS
      invariant forall f :: f in lines ==> lines[f] == PruneLine(sc.lines[f])
      decreases |rest|
    {
      var f :| f in rest;
      rest := rest - {f};
      var b := Prune(sc.lines[f].before, false, false);
      var c := sc.lines[f].(before := b);
      if c != NO_COMMENTS {
        lines := lines[f := c];
      }
    }
    r := SectionComments(sc.header.(before := before), lines);
  }

  method PruneEach(peers: seq<Peer>) returns (r: seq<Peer>)
    ensures r == PrunePeers(peers)
  {
    hide PruneSection;
    r := [];
    for i := 0 to |peers|
      invariant r == PrunePeers(peers[..i])
    {
      var sc := PruneAll(peers[i].comments);
      r := r + [peers[i].(comments := sc)];
    }
    assert peers[..|peers|] == peers;
  }

  /** FromWgQuick. */
  method FromWgQuick(cx: Codecs, s: string, name: string) returns (r: Result<Config>)
    ensures r == Parse(cx, s, name)
  {
    hide Step, Lex, PruneSection, PrunePeers, PruneComments, ValidateWSPeer, TunnelNameIsValid, Split;
    if !TunnelNameIsValid(name) {
      return Err(InvalidTunnelName);
    }
    var lines := Split(s, '\n');
    var reader := new Reader();
    for i := 0 to |lines|
      invariant reader.Valid() && Run(cx, reader.Abs(), lines[i..]) == Run(cx, INITIAL, lines)
    {
      assert lines[i..][0] == lines[i] && lines[i..][1..] == lines[i + 1..];
      var e := reader.ReadLine(cx, lines[i]);
      if e.Some? {
        return Err(e.value);
      }
    }
    r := Complete(reader, name);
  }

  /** What FromWgQuick does after the last line. */
  method Complete(reader: Reader, name: string) returns (r: Result<Config>)
    requires reader.Valid()
    modifies reader
    ensures r == Finish(name, old(reader.Abs()))
  {
    hide PruneSection, PrunePeers, PruneComments, ValidateWSPeer;
    var e := reader.FinishPeer();
    if e.Some? {
      return Err(e.value);
    }
    var trailing := Prune(reader.pendingComments, false, true);
    var comments := PruneAll(reader.iface.comments);
    var peers := PruneEach(reader.peers);
    if !reader.sawPrivateKey {
      return Err(NoPrivateKey);
    }
    KeysStay(reader.peers);
    for i := 0 to |peers|
      invariant forall k :: 0 <= k < i ==> reader.peers[k].publicKey != ZeroKey()
    {
      if peers[i].publicKey == ZeroKey() {
        return Err(PeerWithoutPublicKey);
      }
    }
    r := Ok(Config(name, reader.iface.(comments := comments), peers, trailing));
  }

  lemma {:induction false} KeysStay(peers: seq<Peer>)
    ensures |PrunePeers(peers)| == |peers|
    ensures forall i :: 0 <= i < |peers| ==> PrunePeers(peers)[i].publicKey == peers[i].publicKey
  {
  }

  // ----- Writing -----

  class Writer {
    var output: string

    constructor ()
      ensures output == ""
    {
      output := "";
    }

    method WriteLine(c: Comments, line: string)
      modifies this
      ensures output == old(output) + Unlines(CommentedLine(c, line))
    {
      hide Unlines;
      WriteAll(c.before);
      output := output + line;
      if |c.suffix| != 0 {
        output := output + " " + c.suffix;
      }
      output := output + "\n";
      UnlinesAppend(c.before, [WithSuffix(line, c.suffix)]);
      UnlinesOne(WithSuffix(line, c.suffix));
    }

    method WriteAll(lines: seq<string>)
      modifies this
      ensures output == old(output) + Unlines(lines)
    {
      hide Unlines;
      UnlinesNone();
      for i := 0 to |lines|
        invariant output == old(output) + Unlines(lines[..i])
      {
        assert lines[..i + 1] == lines[..i] + [lines[i]];
        UnlinesAppend(lines[..i], [lines[i]]);
        UnlinesOne(lines[i]);
        output := output + lines[i];
        output := output + "\n";
      }
      assert lines[..|lines|] == lines;
    }

    method WriteField(sc: SectionComments, f: Field, slot: Slot)
      modifies this
      ensures output == old(output) + Unlines(SlotLines(sc, f, slot))
    {
      hide CommentedLine, Name;
      var c := CommentsAt(sc, f);
      if slot.Absent? || (!slot.present && |c.before| == 0 && |c.suffix| == 0) {
        return;
      }
      WriteLine(c, Name(f) + " = " + slot.value);
    }

    /** One writeField for each key, in the order of the keys. */
    method WriteInterfaceFields(cx: Codecs, i: Interface, fs: seq<Field>)
      requires forall k :: 0 <= k < |fs| ==> IsInterfaceField(fs[k])
      modifies this
      ensures output == old(output) + Unlines(InterfaceFieldLines(cx, i, fs))
    {
      hide Unlines, SlotLines, InterfaceSlot;
      ghost var goal := output + Unlines(InterfaceFieldLines(cx, i, fs));
      for k := 0 to |fs|
        invariant output + Unlines(InterfaceFieldLines(cx, i, fs[k..])) == goal
      {
        assert fs[k..][0] == fs[k] && fs[k..][1..] == fs[k + 1..];
        UnlinesAppend(SlotLines(i.comments, fs[k], InterfaceSlot(cx, i, fs[k])),
          InterfaceFieldLines(cx, i, fs[k + 1..]));
        WriteField(i.comments, fs[k], InterfaceSlot(cx, i, fs[k]));
      }
      UnlinesNone();
      assert fs[|fs|..] == [];
    }

    method WritePeerFields(cx: Codecs, p: Peer, fs: seq<Field>)
      requires forall k :: 0 <= k < |fs| ==> !IsInterfaceField(fs[k])
      modifies this
      ensures output == old(output) + Unlines(PeerFieldLines(cx, p, fs))
    {
      hide Unlines, SlotLines, PeerSlot;
      ghost var goal := output + Unlines(PeerFieldLines(cx, p, fs));
      for k := 0 to |fs|
        invariant output + Unlines(PeerFieldLines(cx, p, fs[k..])) == goal
      {
        assert fs[k..][0] == fs[k] && fs[k..][1..] == fs[k + 1..];
        UnlinesAppend(SlotLines(p.comments, fs[k], PeerSlot(cx, p, fs[k])), PeerFieldLines(cx, p, fs[k + 1..]));
        WriteField(p.comments, fs[k], PeerSlot(cx, p, fs[k]));
      }
      UnlinesNone();
      assert fs[|fs|..] == [];
    }

    method WriteInterface(cx: Codecs, i: Interface)
      modifies this
      ensures output == old(output) + Unlines(InterfaceLines(cx, i))
    {
      hide Unlines, CommentedLine, InterfaceFieldLines;
      WriteLine(i.comments.header, "[Interface]");
      WriteInterfaceFields(cx, i, INTERFACE_ORDER);
      UnlinesAppend(CommentedLine(i.comments.header, "[Interface]"), InterfaceFieldLines(cx, i, INTERFACE_ORDER));
    }

    method WritePeer(cx: Codecs, p: Peer)
      modifies this
      ensures output == old(output) + Unlines(PeerLines(cx, p))
    {
      hide Unlines, CommentedLine, PeerFieldLines;
      ghost var head := CommentedLine(p.comments.header, "[Peer]");
      UnlinesOne("");
      UnlinesAppend([""], head);
      UnlinesAppend([""] + head, PeerFieldLines(cx, p, PEER_ORDER));
      output := output + "\n";
      WriteLine(p.comments.header, "[Peer]");
      WritePeerFields(cx, p, PEER_ORDER);
    }

    method WritePeers(cx: Codecs, peers: seq<Peer>)
      modifies this
      ensures output == old(output) + Unlines(AllPeerLines(cx, peers))
    {
      hide Unlines, PeerLines;
      ghost var goal := output + Unlines(AllPeerLines(cx, peers));
      for i := 0 to |peers|
        invariant output + Unlines(AllPeerLines(cx, peers[i..])) == goal
      {
        assert peers[i..][1..] == peers[i + 1..];
        UnlinesAppend(PeerLines(cx, peers[i]), AllPeerLines(cx, peers[i + 1..]));
        WritePeer(cx, peers[i]);
      }
      UnlinesNone();
      assert peers[|peers|..] == [];
    }
  }

  lemma {:induction false} UnlinesOne(line: string)
    ensures Unlines([line]) == line + "\n"
  {
    assert [line][1..] == [];
  }

  lemma {:induction false} UnlinesNone()
    ensures Unlines([]) == ""
  {
  }

  /** ToWgQuick. */
  method ToWgQuick(cx: Codecs, c: Config) returns (text: string)
    ensures text == Show(cx, c)
  {
    hide Unlines, InterfaceLines, AllPeerLines;
    var w := new Writer();
    w.WriteInterface(cx, c.iface);
    w.WritePeers(cx, c.peers);
    w.WriteAll(c.trailingComments);
    UnlinesAppend(InterfaceLines(cx, c.iface), AllPeerLines(cx, c.peers));
    UnlinesAppend(InterfaceLines(cx, c.iface) + AllPeerLines(cx, c.peers), c.trailingComments);
    text := w.output;
  }

  /** Reading, writing and reading again, with the loops themselves. */
  method Reread(cx: Codecs, s: string, name: string) returns (first: Result<Config>, second: Result<Config>)
    requires Lawful(cx)
    ensures second == first
  {
    hide Parse, Show;
    first := FromWgQuick(cx, s, name);
    second := first;
    if first.Ok? {
      var text := ToWgQuick(cx, first.value);
      second := FromWgQuick(cx, text, name);
      RoundTrip(cx, s, name);
    }
  }
}
