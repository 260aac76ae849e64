/**
 * The look of the printed text: it does not begin with a blank line and has no two blank lines
 * in a row.
 */
module WgQuickText {
  import opened Text
  import opened Config
  import opened WgQuickParser
  import opened WgQuickWriter
  import opened WgQuickLaws
  import opened WgQuickCanonical
  import opened WgQuickRoundTrip
  import opened WgQuickInvariant

  /** No two blank lines in a row, and the last line, if any, is not blank. */
  predicate Closed(ls: seq<string>) {
    NoDoubleBlank(ls) && (ls != [] ==> ls[|ls| - 1] != "")
  }

  lemma {:induction false} ClosedAppend(a: seq<string>, b: seq<string>)
    requires Closed(a) && NoDoubleBlank(b)
    ensures NoDoubleBlank(a + b) && (Closed(b) ==> Closed(a + b))
  {
    var s := a + b;
    forall i | 0 < i < |s| ensures s[i - 1] != "" || s[i] != "" {
      assert s[i] == if i < |a| then a[i] else b[i - |a|];
      assert s[i - 1] == if i - 1 < |a| then a[i - 1] else b[i - 1 - |a|];
    }
  }

  lemma {:induction false} CommentedIsClosed(c: Comments, line: string)
    requires NoDoubleBlank(c.before) && line != ""
    ensures Closed(CommentedLine(c, line))
    ensures CommentedLine(c, line)[0] == if c.before == [] then WithSuffix(line, c.suffix) else c.before[0]
  {
  }

  lemma {:induction false} InterfaceFieldsClosed(cx: Codecs, i: Interface, fs: seq<Field>)
    requires forall f :: GoodInterfaceEntry(cx, i, f)
    requires forall k :: 0 <= k < |fs| ==> IsInterfaceField(fs[k])
    ensures Closed(InterfaceFieldLines(cx, i, fs))
    decreases |fs|
  {
    hide GoodInterfaceField, InterfaceSlot, Closed, CommentedLine;
    ClosedNone();
    if fs == [] {
    } else {
      var f := fs[0];
      assert GoodInterfaceEntry(cx, i, f);
      var slot := InterfaceSlot(cx, i, f);
      if Printed(i.comments, f, slot) {
        CommentedIsClosed(CommentsAt(i.comments, f), Name(f) + " = " + slot.value);
      }
      InterfaceFieldsClosed(cx, i, fs[1..]);
      ClosedBoth(SlotLines(i.comments, f, slot), InterfaceFieldLines(cx, i, fs[1..]));
    }
  }

  lemma {:induction false} ClosedNone()
    ensures Closed([])
  {
  }

  lemma {:induction false} ClosedBoth(a: seq<string>, b: seq<string>)
    requires Closed(a) && Closed(b)
    ensures Closed(a + b)
  {
    ClosedAppend(a, b);
  }

  lemma {:induction false} PeerFieldsClosed(cx: Codecs, p: Peer, fs: seq<Field>)
    requires forall f :: GoodPeerEntry(cx, p, f)
    requires forall k :: 0 <= k < |fs| ==> !IsInterfaceField(fs[k])
    ensures Closed(PeerFieldLines(cx, p, fs))
    decreases |fs|
  {
    hide GoodPeerField, PeerSlot, Closed, CommentedLine;
    ClosedNone();
    if fs == [] {
    } else {
      var f := fs[0];
      assert GoodPeerEntry(cx, p, f);
      var slot := PeerSlot(cx, p, f);
      if Printed(p.comments, f, slot) {
        CommentedIsClosed(CommentsAt(p.comments, f), Name(f) + " = " + slot.value);
      }
      PeerFieldsClosed(cx, p, fs[1..]);
      ClosedBoth(SlotLines(p.comments, f, slot), PeerFieldLines(cx, p, fs[1..]));
    }
  }

  /** The blank line before a peer is followed by a line that is not blank. */
  lemma {:induction false} PeerClosed(cx: Codecs, p: Peer)
    requires GoodPeer(cx, p)
    ensures Closed(PeerLines(cx, p))
  {
    hide GoodPeerEntry, PeerFieldLines, Closed;
    var c := p.comments.header;
    var head := CommentedLine(c, "[Peer]");
    CommentedIsClosed(c, "[Peer]");
    BlankAhead(head);
    PeerFieldsClosed(cx, p, PEER_ORDER);
    ClosedBoth([""] + head, PeerFieldLines(cx, p, PEER_ORDER));
  }

  lemma {:induction false} BlankAhead(ls: seq<string>)
    requires Closed(ls) && ls != [] && ls[0] != ""
    ensures Closed([""] + ls)
  {
    var s := [""] + ls;
    forall i | 0 < i < |s| ensures s[i - 1] != "" || s[i] != "" {
      assert s[i] == ls[i - 1];
      assert i > 1 ==> s[i - 1] == ls[i - 2];
    }
  }

  lemma {:induction false} PeersClosed(cx: Codecs, ps: seq<Peer>)
    requires GoodPeers(cx, ps)
    ensures Closed(AllPeerLines(cx, ps))
    decreases |ps|
  {
    hide GoodPeer, FinishedPeer, PeerLines, Closed;
    ClosedNone();
    if ps == [] {
    } else {
      PeerClosed(cx, ps[0]);
      PeersClosed(cx, ps[1..]);
      ClosedBoth(PeerLines(cx, ps[0]), AllPeerLines(cx, ps[1..]));
    }
  }

  lemma {:induction false} LinesAreSpaced(cx: Codecs, c: Config)
    requires Canonical(cx, c)
    ensures var ls := ConfigLines(cx, c); NoDoubleBlank(ls) && ls != [] && ls[0] != ""
  {
    hide GoodInterfaceEntry, GoodPeer, FinishedPeer, InterfaceFieldLines, AllPeerLines, Closed;
    var h := c.iface.comments.header;
    var head := CommentedLine(h, "[Interface]");
    CommentedIsClosed(h, "[Interface]");
    InterfaceFieldsClosed(cx, c.iface, INTERFACE_ORDER);
    ClosedBoth(head, InterfaceFieldLines(cx, c.iface, INTERFACE_ORDER));
    PeersClosed(cx, c.peers);
    var body := InterfaceLines(cx, c.iface) + AllPeerLines(cx, c.peers);
    ClosedBoth(InterfaceLines(cx, c.iface), AllPeerLines(cx, c.peers));
    ClosedAppend(body, c.trailingComments);
    assert head[0] != "" && ConfigLines(cx, c)[0] == head[0];
  }

  /** Three newlines in a row are two blank lines in a row. */
  lemma {:induction false} NoThreeNewlines(ls: seq<string>, i: nat)
    requires AllOneLine(ls) && NoDoubleBlank(ls) && i + 3 <= |Unlines(ls)|
    ensures Unlines(ls)[i..i + 3] != "\n\n\n"
    decreases |ls|
  {
    var text := Unlines(ls);
    if ls != [] && text[i..i + 3] == "\n\n\n" {
      var l, rest := ls[0], Unlines(ls[1..]);
      assert text == l + "\n" + rest;
      assert text[i] == '\n' && text[i + 1] == '\n' && text[i + 2] == '\n';
      assert forall k :: 0 <= k < |l| ==> text[k] == l[k];
      assert forall k :: 0 <= k < |rest| ==> text[|l| + 1 + k] == rest[k];
      assert OneLine(l);
      if i > |l| {
        var k := i - |l| - 1;
        assert rest[k..k + 3] == "\n\n\n";
        NoThreeNewlines(ls[1..], k);
      } else {
        assert i == |l| && rest[0] == '\n' && rest[1] == '\n';
        BlankFront(ls[1..]);
        BlankFront(ls[2..]);
      }
    }
  }

  /** A text that begins with a newline begins with a blank line. */
  lemma {:induction false} BlankFront(ls: seq<string>)
    requires AllOneLine(ls) && |Unlines(ls)| > 0 && Unlines(ls)[0] == '\n'
    ensures ls != [] && ls[0] == "" && Unlines(ls) == "\n" + Unlines(ls[1..])
  {
    assert ls != [] && OneLine(ls[0]);
  }

  predicate NewlinesAt(text: string, i: nat) {
    i + 3 <= |text| && text[i..i + 3] == "\n\n\n"
  }

  predicate Tidy(text: string) {
    (text != "" ==> text[0] != '\n') && forall i :: 0 <= i < |text| ==> !NewlinesAt(text, i)
  }

  /** Whatever text was accepted, the printed one is tidy. */
  lemma {:induction false} PrintedIsTidy(cx: Codecs, text: string, name: string)
    requires Lawful(cx) && Parse(cx, text, name).Ok?
    ensures Tidy(Show(cx, Parse(cx, text, name).value))
  {
    hide Parse, Canonical, ConfigLines, NoDoubleBlank, AllOneLine;
    ParsedIsCanonical(cx, text, name);
    var c := Parse(cx, text, name).value;
    var ls := ConfigLines(cx, c);
    LinesAreSpaced(cx, c);
    ConfigIsLines(cx, c);
    forall i | 0 <= i < |Show(cx, c)| ensures !NewlinesAt(Show(cx, c), i) {
      if i + 3 <= |Show(cx, c)| { NoThreeNewlines(ls, i); }
    }
    if Show(cx, c) != "" && Show(cx, c)[0] == '\n' { BlankFront(ls); }
  }
}
