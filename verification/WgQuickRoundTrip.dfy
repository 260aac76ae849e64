/**
 * Printing a canonical configuration and parsing the text gives the configuration back.
 */
module WgQuickRoundTrip {
  import opened Text
  import opened Config
  import opened WgQuickParser
  import opened WgQuickWriter
  import opened WgQuickLaws
  import opened WgQuickCanonical
  import opened WgQuickInterface
  import opened WgQuickPeer

  // ----- No printed line contains a newline -----

  predicate OneLine(s: string) {
    '\n' !in s
  }

  predicate AllOneLine(ls: seq<string>) {
    forall i :: 0 <= i < |ls| ==> OneLine(ls[i])
  }

  lemma {:induction false} CommentedLineIsOneLine(c: Comments, line: string)
    requires CommentLines(c.before) && CommentLine(c.suffix) && OneLine(line)
    ensures AllOneLine(CommentedLine(c, line))
  {
    assert forall i :: 0 <= i < |c.before| ==> CommentLine(c.before[i]);
  }

  lemma {:induction false} AllOneLineAppend(a: seq<string>, b: seq<string>)
    requires AllOneLine(a) && AllOneLine(b)
    ensures AllOneLine(a + b)
  {
  }

  lemma {:induction false} InterfaceFieldsAreLines(cx: Codecs, i: Interface, fs: seq<Field>)
    requires forall f :: GoodInterfaceEntry(cx, i, f)
    requires forall k :: 0 <= k < |fs| ==> IsInterfaceField(fs[k])
    ensures AllOneLine(InterfaceFieldLines(cx, i, fs))
    decreases |fs|
  {
    if fs == [] {
    } else {
      var f := fs[0];
      var slot := InterfaceSlot(cx, i, f);
      assert GoodInterfaceEntry(cx, i, f);
      if Printed(i.comments, f, slot) {
        assert ReadInterfaceField(i, f);
        InterfaceValueFits(cx, i, f);
        NamesAreWords(f);
        CommentedLineIsOneLine(CommentsAt(i.comments, f), Name(f) + " = " + slot.value);
      }
      InterfaceFieldsAreLines(cx, i, fs[1..]);
      AllOneLineAppend(SlotLines(i.comments, f, slot), InterfaceFieldLines(cx, i, fs[1..]));
    }
  }

  lemma {:induction false} PeerFieldsAreLines(cx: Codecs, p: Peer, fs: seq<Field>)
    requires forall f :: GoodPeerEntry(cx, p, f)
    requires forall k :: 0 <= k < |fs| ==> !IsInterfaceField(fs[k])
    ensures AllOneLine(PeerFieldLines(cx, p, fs))
    decreases |fs|
  {
    if fs == [] {
    } else {
      var f := fs[0];
      var slot := PeerSlot(cx, p, f);
      assert GoodPeerEntry(cx, p, f);
      if Printed(p.comments, f, slot) {
        assert ReadPeerField(p, f);
        PeerValueFits(cx, p, f);
        NamesAreWords(f);
        CommentedLineIsOneLine(CommentsAt(p.comments, f), Name(f) + " = " + slot.value);
      }
      PeerFieldsAreLines(cx, p, fs[1..]);
      AllOneLineAppend(SlotLines(p.comments, f, slot), PeerFieldLines(cx, p, fs[1..]));
    }
  }

  ghost predicate GoodPeers(cx: Codecs, ps: seq<Peer>) {
    forall k :: 0 <= k < |ps| ==> GoodPeer(cx, ps[k]) && FinishedPeer(cx, ps[k])
  }

  lemma {:induction false} PeersAreLines(cx: Codecs, ps: seq<Peer>)
    requires GoodPeers(cx, ps)
    ensures AllOneLine(AllPeerLines(cx, ps))
    decreases |ps|
  {
    if ps == [] {
    } else {
      var c := ps[0].comments.header;
      CommentedLineIsOneLine(c, "[Peer]");
      PeerFieldsAreLines(cx, ps[0], PEER_ORDER);
      AllOneLineAppend([""] + CommentedLine(c, "[Peer]"), PeerFieldLines(cx, ps[0], PEER_ORDER));
      PeersAreLines(cx, ps[1..]);
      AllOneLineAppend(PeerLines(cx, ps[0]), AllPeerLines(cx, ps[1..]));
    }
  }

  lemma {:induction false} ConfigIsLines(cx: Codecs, c: Config)
    requires Canonical(cx, c)
    ensures AllOneLine(ConfigLines(cx, c))
  {
    CommentedLineIsOneLine(c.iface.comments.header, "[Interface]");
    InterfaceFieldsAreLines(cx, c.iface, INTERFACE_ORDER);
    AllOneLineAppend(CommentedLine(c.iface.comments.header, "[Interface]"),
      InterfaceFieldLines(cx, c.iface, INTERFACE_ORDER));
    PeersAreLines(cx, c.peers);
    AllOneLineAppend(InterfaceLines(cx, c.iface), AllPeerLines(cx, c.peers));
    assert forall k :: 0 <= k < |c.trailingComments| ==> CommentLine(c.trailingComments[k]);
    AllOneLineAppend(InterfaceLines(cx, c.iface) + AllPeerLines(cx, c.peers), c.trailingComments);
  }

  // ----- Reading the sections back -----

  function RereadAll(ps: seq<Peer>): seq<Peer> {
    if ps == [] then [] else [Reread(ps[0])] + RereadAll(ps[1..])
  }

  lemma {:induction false} RereadEach(ps: seq<Peer>)
    ensures |RereadAll(ps)| == |ps| && forall k :: 0 <= k < |ps| ==> RereadAll(ps)[k] == Reread(ps[k])
  {
    if ps == [] {
    } else {
      RereadEach(ps[1..]);
    }
  }

  lemma {:induction false} FinishReread(cx: Codecs, s: State, p: Peer, ws: seq<string>)
    requires FinishedPeer(cx, p) && (NoWSPrinted(cx, p) ==> ws == [])
    requires s.section == InPeer(Reread(p), ws)
    ensures FinishPeer(s) == Ok(s.(peers := s.peers + [Reread(p)], section := NoSection))
  {
    if p.wsMode.NoWS? {
      assert NoWSPrinted(cx, p) by {
        forall f | IsWSSetting(f) ensures !Printed(p.comments, f, PeerSlot(cx, p, f)) {
          assert !HasWSSetting(cx, p, f);
        }
      }
    }
  }

  /** Reading the printed peers gives them all, the last one still open. */
  lemma {:induction false} ReadPeers(cx: Codecs, s: State, ps: seq<Peer>) returns (t: State)
    requires GoodPeers(cx, ps) && s.pending == [] && FinishPeer(s).Ok?
    ensures Run(cx, s, AllPeerLines(cx, ps)) == Ok(t)
    ensures t.pending == [] && t.iface == s.iface && t.sawPrivateKey == s.sawPrivateKey
    ensures FinishPeer(t).Ok? && FinishPeer(t).value.peers == FinishPeer(s).value.peers + RereadAll(ps)
    decreases |ps|
  {
    hide Step, Lex, PeerLines, GoodPeer, FinishedPeer, NoWSPrinted, FinishPeer, Reread;
    if ps == [] {
      t := s;
      assert FinishPeer(s).value.peers + [] == FinishPeer(s).value.peers;
    } else {
      var p := ps[0];
      var ws := ReadPeer(cx, s, p);
      var u := FinishPeer(s).value.(section := InPeer(Reread(p), ws));
      FinishReread(cx, u, p, ws);
      t := ReadPeers(cx, u, ps[1..]);
      RunAppend(cx, s, PeerLines(cx, p), AllPeerLines(cx, ps[1..]));
      assert FinishPeer(s).value.peers + RereadAll(ps) == FinishPeer(s).value.peers + [Reread(p)] + RereadAll(ps[1..]);
    }
  }

  // ----- Pruning what is already pruned -----

  lemma {:induction false} CollapseNothing(run: seq<string>)
    requires NoDoubleBlank(run)
    ensures Collapse(run) == run
    decreases |run|
  {
    if run == [] {
    } else {
      CollapseNothing(run[..|run| - 1]);
      assert run == run[..|run| - 1] + [run[|run| - 1]];
    }
  }

  lemma {:induction false} PruneHeader(c: Comments)
    requires PrunedHeader(c)
    ensures PruneComments(c.before, true, false) == c.before
    ensures PruneComments([""] + c.before, true, false) == c.before
  {
    CollapseNothing(c.before);
    CollapseNothing([""] + c.before);
    assert ([""] + c.before)[1..] == c.before;
  }

  lemma {:induction false} PruneTrailing(run: seq<string>)
    requires PrunedRun(run) && (run == [] || run[|run| - 1] != "")
    ensures PruneComments(run + [""], false, true) == run
  {
    CollapseNothing(run + [""]);
    assert (run + [""])[..|run|] == run;
  }

  lemma {:induction false} PruneLines(lines: map<Field, Comments>, header: Comments)
    requires forall f :: f in lines ==> PrunedLine(lines[f], f)
    ensures PruneSection(SectionComments(header, lines)).lines == lines
  {
    forall f | f in lines
      ensures PruneLine(lines[f]) == lines[f]
    {
      CollapseNothing(lines[f].before);
    }
  }

  lemma {:induction false} PruneInterface(cx: Codecs, i: Interface)
    requires GoodInterface(cx, i)
    ensures PruneSection(i.comments) == i.comments
  {
    PruneHeader(i.comments.header);
    forall f | f in i.comments.lines ensures PrunedLine(i.comments.lines[f], f) { assert GoodInterfaceEntry(cx, i, f); }
    PruneLines(i.comments.lines, i.comments.header);
  }

  lemma {:induction false} PruneReread(cx: Codecs, p: Peer)
    requires GoodPeer(cx, p)
    ensures PrunePeer(Reread(p)) == p
  {
    PruneHeader(p.comments.header);
    forall f | f in p.comments.lines ensures PrunedLine(p.comments.lines[f], f) { assert GoodPeerEntry(cx, p, f); }
    PruneLines(p.comments.lines, Reread(p).comments.header);
  }

  lemma {:induction false} PruneRereadAll(cx: Codecs, ps: seq<Peer>)
    requires GoodPeers(cx, ps)
    ensures PrunePeers(RereadAll(ps)) == ps && AllHaveKeys(RereadAll(ps))
  {
    RereadEach(ps);
    forall k | 0 <= k < |ps| ensures PrunePeers(RereadAll(ps))[k] == ps[k] { PruneReread(cx, ps[k]); }
  }

  // ----- The theorem -----

  /** The comments at the end wait for a section that does not come. */
  lemma {:induction false} ReadTrailing(cx: Codecs, u: State, comments: seq<string>) returns (t: State)
    requires PrunedRun(comments) && u.pending == [] && FinishPeer(u).Ok?
    ensures Run(cx, u, comments + [""]) == Ok(t) && t == u.(pending := comments + [""])
    ensures FinishPeer(t).Ok? && FinishPeer(t).value.peers == FinishPeer(u).value.peers
  {
    hide Run, ValidateWSPeer;
    var tail := comments + [""];
    RunComments(cx, u, tail);
    assert [] + tail == tail;
    t := u.(pending := tail);
  }

  /** Running over the whole printed text. */
  lemma {:induction false} ReadConfig(cx: Codecs, c: Config) returns (t: State)
    requires Canonical(cx, c)
    ensures Run(cx, INITIAL, ConfigLines(cx, c) + [""]) == Ok(t)
    ensures t.pending == c.trailingComments + [""] && t.iface == c.iface && t.sawPrivateKey
    ensures FinishPeer(t).Ok? && FinishPeer(t).value.peers == RereadAll(c.peers)
  {
    hide Run, InterfaceLines, AllPeerLines, RereadAll, GoodInterface, GoodPeer, FinishedPeer, PrunedRun;
    ReadInterface(cx, c.iface);
    var s := State(InInterface, c.iface, true, [], []);
    var u := ReadPeers(cx, s, c.peers);
    assert [] + RereadAll(c.peers) == RereadAll(c.peers);
    t := ReadTrailing(cx, u, c.trailingComments);
    var ifaceLines, peerLines, tail := InterfaceLines(cx, c.iface), AllPeerLines(cx, c.peers),
      c.trailingComments + [""];
    RunAppend(cx, INITIAL, ifaceLines, peerLines);
    RunAppend(cx, INITIAL, ifaceLines + peerLines, tail);
    assert ConfigLines(cx, c) + [""] == ifaceLines + peerLines + tail;
  }

  /** Parsing undoes printing, comments and all. */
  lemma {:induction false} ParseShow(cx: Codecs, c: Config)
    requires Canonical(cx, c)
    ensures Parse(cx, Show(cx, c), c.name) == Ok(c)
  {
    hide Run, ConfigLines, GoodInterface, GoodPeer, FinishedPeer, PruneSection, PrunePeers, PruneComments;
    ConfigIsLines(cx, c);
    var lines := ConfigLines(cx, c);
    assert forall l :: l in lines ==> '\n' !in l;
    SplitUnlines(lines);
    var t := ReadConfig(cx, c);
    PruneInterface(cx, c.iface);
    PruneRereadAll(cx, c.peers);
    PruneTrailing(c.trailingComments);
  }
}
