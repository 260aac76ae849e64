/**
 * Where the comments of a wg-quick text go (conf/parser.go), in terms of its lines: the blank and
 * comment lines before a line go with it, and so does the comment behind it; those of all lines
 * with one key go together.
 */
module WgQuickComments {
  import opened Text
  import opened Config
  import opened WgQuickParser
  import opened WgQuickMeaning

  /** A line that is a header or has a key, with its comments. */
  datatype Note = Note(key: string, bare: bool, before: seq<string>, suffix: string)

  /** The lines of a text, when `pending` came before it. */
  function NotesOf(lines: seq<string>, pending: seq<string>): seq<Note>
    decreases |lines|
  {
    if lines == [] then []
    else
      match Lex(lines[0])
      case Filler(comment) => NotesOf(lines[1..], pending + [comment])
      case Code(key, hasValue, _, comment) => [Note(key, !hasValue, pending, comment)] + NotesOf(lines[1..], [])
  }

  /** What is left behind the last of them. */
  function Trailing(lines: seq<string>, pending: seq<string>): seq<string>
    decreases |lines|
  {
    if lines == [] then pending
    else
      match Lex(lines[0])
      case Filler(comment) => Trailing(lines[1..], pending + [comment])
      case Code(_, _, _, _) => Trailing(lines[1..], [])
  }

  predicate Heads(n: Note, header: string) {
    n.bare && n.key == header
  }

  predicate HeadsAny(n: Note) {
    Heads(n, "[interface]") || Heads(n, "[peer]")
  }

  /** The lines up to the next header. */
  function Below(ns: seq<Note>): seq<Note> {
    if ns == [] || HeadsAny(ns[0]) then [] else [ns[0]] + Below(ns[1..])
  }

  /** All [Interface] sections together, headers included. */
  function InterfaceNotes(ns: seq<Note>): seq<Note> {
    if ns == [] then []
    else (if Heads(ns[0], "[interface]") then [ns[0]] + Below(ns[1..]) else []) + InterfaceNotes(ns[1..])
  }

  /** Every [Peer] section, header included. */
  function PeerNotes(ns: seq<Note>): seq<seq<Note>> {
    if ns == [] then []
    else (if Heads(ns[0], "[peer]") then [[ns[0]] + Below(ns[1..])] else []) + PeerNotes(ns[1..])
  }

  // ----- What the lines say -----

  function Befores(ns: seq<Note>, key: string): seq<string> {
    if ns == [] then [] else (if ns[0].key == key then ns[0].before else []) + Befores(ns[1..], key)
  }

  function Suffixes(ns: seq<Note>, key: string): (r: seq<string>)
    ensures forall i :: 0 <= i < |r| ==> r[i] != ""
  {
    if ns == [] then []
    else (if ns[0].key == key && ns[0].suffix != "" then [ns[0].suffix] else []) + Suffixes(ns[1..], key)
  }

  /** The comments behind the lines, with spaces between them. */
  function Joined(s: string, parts: seq<string>): string {
    Join((if s == "" then [] else [s]) + parts, " ")
  }

  /** What lines make of the comments of one key. */
  predicate CommentsSay(ns: seq<Note>, key: string, c: Comments, d: Comments) {
    d.before == c.before + Befores(ns, key) && d.suffix == Joined(c.suffix, Suffixes(ns, key))
  }

  /** And of all comments of a section. */
  ghost predicate SectionNoted(ns: seq<Note>, iface: bool, a: SectionComments, b: SectionComments) {
    && CommentsSay(ns, if iface then "[interface]" else "[peer]", a.header, b.header)
    && forall f :: IsInterfaceField(f) == iface ==> CommentsSay(ns, LowerName(f), CommentsAt(a, f), CommentsAt(b, f))
  }

  ghost predicate PeersNoted(sections: seq<seq<Note>>, ps: seq<Peer>) {
    |ps| == |sections| && forall k :: 0 <= k < |ps| ==>
      SectionNoted(sections[k], false, NO_SECTION_COMMENTS, ps[k].comments)
  }

  // ----- Lines after lines -----

  lemma {:induction false} BeforesAppend(a: seq<Note>, b: seq<Note>, key: string)
    ensures Befores(a + b, key) == Befores(a, key) + Befores(b, key)
  {
    if a == [] {
      assert a + b == b;
    } else {
      assert (a + b)[1..] == a[1..] + b;
      BeforesAppend(a[1..], b, key);
    }
  }

  lemma {:induction false} SuffixesAppend(a: seq<Note>, b: seq<Note>, key: string)
    ensures Suffixes(a + b, key) == Suffixes(a, key) + Suffixes(b, key)
  {
    if a == [] {
      assert a + b == b;
    } else {
      assert (a + b)[1..] == a[1..] + b;
      SuffixesAppend(a[1..], b, key);
    }
  }

  lemma {:induction false} JoinAppend(a: seq<string>, b: seq<string>)
    requires a != [] && b != []
    ensures Join(a + b, " ") == Join(a, " ") + " " + Join(b, " ")
  {
    if |a| == 1 {
      assert (a + b)[1..] == b;
    } else {
      assert (a + b)[1..] == a[1..] + b;
      JoinAppend(a[1..], b);
    }
  }

  lemma {:induction false} JoinIsNotEmpty(a: seq<string>)
    requires a != [] && a[0] != ""
    ensures Join(a, " ") != ""
  {
  }

  lemma {:induction false} JoinedTwice(s: string, a: seq<string>, b: seq<string>)
    requires forall i :: 0 <= i < |a| ==> a[i] != ""
    ensures Joined(Joined(s, a), b) == Joined(s, a + b)
  {
    var front := (if s == "" then [] else [s]) + a;
    var all := (if s == "" then [] else [s]) + (a + b);
    assert front + b == all;
    if front == [] {
      assert Join(front, " ") == "" && [] + b == b == all;
    } else {
      JoinIsNotEmpty(front);
      var t := Join(front, " ");
      if b == [] {
        assert [t] + b == [t] && all == front;
      } else {
        JoinAppend(front, b);
        JoinAppend([t], b);
      }
    }
  }

  lemma {:induction false} CommentsSayTwice(a: seq<Note>, b: seq<Note>, key: string,
                                            c: Comments, d: Comments, e: Comments)
    requires CommentsSay(a, key, c, d) && CommentsSay(b, key, d, e)
    ensures CommentsSay(a + b, key, c, e)
  {
    hide Befores, Suffixes, Joined;
    BeforesAppend(a, b, key);
    SuffixesAppend(a, b, key);
    JoinedTwice(c.suffix, Suffixes(a, key), Suffixes(b, key));
  }

  lemma {:induction false} SectionNotedTwice(a: seq<Note>, b: seq<Note>, iface: bool,
                                             c: SectionComments, d: SectionComments, e: SectionComments)
    requires SectionNoted(a, iface, c, d) && SectionNoted(b, iface, d, e)
    ensures SectionNoted(a + b, iface, c, e)
  {
    hide CommentsSay, LowerName, CommentsAt;
    CommentsSayTwice(a, b, if iface then "[interface]" else "[peer]", c.header, d.header, e.header);
    forall f | IsInterfaceField(f) == iface
      ensures CommentsSay(a + b, LowerName(f), CommentsAt(c, f), CommentsAt(e, f))
    {
      CommentsSayTwice(a, b, LowerName(f), CommentsAt(c, f), CommentsAt(d, f), CommentsAt(e, f));
    }
  }

  lemma {:induction false} NoNotes(key: string, c: Comments)
    ensures CommentsSay([], key, c, c)
  {
    assert c.before + [] == c.before;
    assert (if c.suffix == "" then [] else [c.suffix]) + [] == if c.suffix == "" then [] else [c.suffix];
  }

  lemma {:induction false} NothingNoted(iface: bool, a: SectionComments)
    ensures SectionNoted([], iface, a, a)
  {
    hide CommentsSay, LowerName, CommentsAt;
    NoNotes(if iface then "[interface]" else "[peer]", a.header);
    forall f | IsInterfaceField(f) == iface ensures CommentsSay([], LowerName(f), CommentsAt(a, f), CommentsAt(a, f)) {
      NoNotes(LowerName(f), CommentsAt(a, f));
    }
  }

  // ----- One line -----

  lemma {:induction false} OneNote(n: Note, key: string, c: Comments)
    ensures CommentsSay([n], key, c,
      if n.key == key then Comments(c.before + n.before, JoinSuffix(c.suffix, n.suffix)) else c)
  {
    assert [n][1..] == [];
    if n.key == key {
      assert Befores([n], key) == n.before;
      assert Suffixes([n], key) == if n.suffix == "" then [] else [n.suffix];
      JoinSuffixIsJoined(c.suffix, n.suffix);
    } else {
      assert Befores([n], key) == [] && Suffixes([n], key) == [];
      NoNotes(key, c);
    }
  }

  lemma {:induction false} JoinSuffixIsJoined(s: string, t: string)
    ensures JoinSuffix(s, t) == Joined(s, if t == "" then [] else [t])
  {
    var front := if s == "" then [] else [s];
    var back := if t == "" then [] else [t];
    if s != "" && t != "" {
      JoinAppend([s], [t]);
    } else {
      assert front + back == if s == "" then back else front;
    }
  }

  lemma {:induction false} NamesAreNoHeaders(f: Field)
    ensures LowerName(f) != "[interface]" && LowerName(f) != "[peer]"
  {
    assert LowerName(f)[0] != '[';
  }

  /** A line with a key adds its comments to those of the key. */
  lemma {:induction false} KeyNoted(f: Field, pending: seq<string>, comment: string, bare: bool, a: SectionComments)
    ensures SectionNoted([Note(LowerName(f), bare, pending, comment)], IsInterfaceField(f), a,
      AddComment(a, f, pending, comment))
  {
    hide CommentsSay, LowerName, JoinSuffix;
    var n, b := Note(LowerName(f), bare, pending, comment), AddComment(a, f, pending, comment);
    NamesAreNoHeaders(f);
    OneNote(n, if IsInterfaceField(f) then "[interface]" else "[peer]", a.header);
    forall g | IsInterfaceField(g) == IsInterfaceField(f)
      ensures CommentsSay([n], LowerName(g), CommentsAt(a, g), CommentsAt(b, g))
    {
      OtherKey(f, g);
      OneNote(n, LowerName(g), CommentsAt(a, g));
      if g == f { AddedComment(a, f, pending, comment); }
    }
  }

  lemma {:induction false} AddedComment(a: SectionComments, f: Field, pending: seq<string>, comment: string)
    ensures var c := CommentsAt(a, f);
      CommentsAt(AddComment(a, f, pending, comment), f) == Comments(c.before + pending, JoinSuffix(c.suffix, comment))
  {
  }

  /** A header adds its comments to those of the header. */
  lemma {:induction false} HeaderNoted(n: Note, a: SectionComments, b: SectionComments)
    requires HeadsAny(n) && b.lines == a.lines
    requires b.header == Comments(a.header.before + n.before, JoinSuffix(a.header.suffix, n.suffix))
    ensures SectionNoted([n], Heads(n, "[interface]"), a, b)
  {
    hide CommentsSay, LowerName, JoinSuffix;
    assert "[interface]" != "[peer]";
    OneNote(n, n.key, a.header);
    forall f ensures CommentsSay([n], LowerName(f), CommentsAt(a, f), CommentsAt(b, f)) {
      NamesAreNoHeaders(f);
      OneNote(n, LowerName(f), CommentsAt(a, f));
    }
  }

  // ----- All lines -----

  function InterfaceFrom(s: State, ns: seq<Note>): seq<Note> {
    (if s.section.InInterface? then Below(ns) else []) + InterfaceNotes(ns)
  }

  ghost predicate PeersFrom(s: State, ns: seq<Note>, ps: seq<Peer>) {
    var n := |s.peers|;
    && n <= |ps| && ps[..n] == s.peers
    && if s.section.InPeer? then
         && n < |ps| && SectionNoted(Below(ns), false, s.section.peer.comments, ps[n].comments)
         && PeersNoted(PeerNotes(ns), ps[n + 1..])
       else PeersNoted(PeerNotes(ns), ps[n..])
  }

  /** What the lines to come make of all comments. */
  ghost predicate Noted(s: State, ns: seq<Note>, t: State) {
    && SectionNoted(InterfaceFrom(s, ns), true, s.iface.comments, t.iface.comments)
    && FinishPeer(t).Ok? && PeersFrom(s, ns, FinishPeer(t).value.peers)
  }

  lemma {:induction false} FinishedNoted(s: State, ps: seq<Peer>)
    requires FinishPeer(s).Ok? && |FinishPeer(s).value.peers| <= |ps|
    requires ps[..|FinishPeer(s).value.peers|] == FinishPeer(s).value.peers
    ensures var n := |s.peers|;
      && n <= |ps| && ps[..n] == s.peers
      && (s.section.InPeer? ==>
        && n < |ps| && SectionNoted([], false, s.section.peer.comments, ps[n].comments)
        && ps[n + 1..] == ps[|FinishPeer(s).value.peers|..])
      && (!s.section.InPeer? ==> ps[n..] == ps[|FinishPeer(s).value.peers|..])
  {
    hide ValidateWSPeer, SectionNoted;
    var n, qs := |s.peers|, FinishPeer(s).value.peers;
    assert ps[..n] == ps[..|qs|][..n] == s.peers;
    if s.section.InPeer? {
      NothingNoted(false, s.section.peer.comments);
      assert ps[n] == ps[..|qs|][n] == s.section.peer;
    }
  }

  lemma {:induction false} HeadNote(n: Note, rest: seq<Note>)
    ensures var ns := [n] + rest;
      && Below(ns) == (if HeadsAny(n) then [] else [n] + Below(rest))
      && InterfaceNotes(ns) == (if Heads(n, "[interface]") then [n] + Below(rest) else []) + InterfaceNotes(rest)
      && PeerNotes(ns) == (if Heads(n, "[peer]") then [[n] + Below(rest)] else []) + PeerNotes(rest)
  {
    hide Heads;
    assert ([n] + rest)[1..] == rest;
  }

  lemma {:induction false} InterfaceHeaderNoted(s: State, n: Note, rest: seq<Note>, t: State)
    requires Heads(n, "[interface]") && n.before == s.pending && StepInterfaceHeader(s, n.suffix).Ok?
    requires Noted(StepInterfaceHeader(s, n.suffix).value, rest, t)
    ensures Noted(s, [n] + rest, t)
  {
    hide Below, InterfaceNotes, PeerNotes, SectionNoted, PeersNoted, FinishPeer, JoinSuffix;
    var s1 := StepInterfaceHeader(s, n.suffix).value;
    HeadNote(n, rest);
    FinishedNoted(s, FinishPeer(t).value.peers);
    HeaderNoted(n, s.iface.comments, s1.iface.comments);
    var more := Below(rest) + InterfaceNotes(rest);
    SectionNotedTwice([n], more, true, s.iface.comments, s1.iface.comments, t.iface.comments);
    assert [n] + more == [n] + Below(rest) + InterfaceNotes(rest) == [] + ([n] + Below(rest) + InterfaceNotes(rest));
    assert [] + PeerNotes(rest) == PeerNotes(rest);
  }

  lemma {:induction false} PeerHeaderNoted(s: State, n: Note, rest: seq<Note>, t: State)
    requires Heads(n, "[peer]") && n.before == s.pending && StepPeerHeader(s, n.suffix).Ok?
    requires Noted(StepPeerHeader(s, n.suffix).value, rest, t)
    ensures Noted(s, [n] + rest, t)
  {
    hide Below, InterfaceNotes, PeerNotes, SectionNoted, FinishPeer;
    var s1, ps := StepPeerHeader(s, n.suffix).value, FinishPeer(t).value.peers;
    var k := |s1.peers|;
    HeadNote(n, rest);
    FinishedNoted(s, ps);
    NewHeader(n, s1.section.peer.comments);
    SectionNotedTwice([n], Below(rest), false, NO_SECTION_COMMENTS, s1.section.peer.comments, ps[k].comments);
    assert ps[k..] == [ps[k]] + ps[k + 1..];
    assert [] + ([] + InterfaceNotes(rest)) == InterfaceNotes(rest) == [] + InterfaceNotes(rest);
  }

  lemma {:induction false} NewHeader(n: Note, b: SectionComments)
    requires Heads(n, "[peer]") && b == SectionComments(Comments(n.before, n.suffix), map[])
    ensures SectionNoted([n], false, NO_SECTION_COMMENTS, b)
  {
    hide SectionNoted;
    assert [] + n.before == n.before;
    assert "[interface]" != "[peer]";
    HeaderNoted(n, NO_SECTION_COMMENTS, b);
  }

  lemma {:induction false} InterfaceKeyNoted(s: State, n: Note, rest: seq<Note>, s1: State, t: State)
    requires s.section.InInterface? && s1.section.InInterface? && !HeadsAny(n) && s1.peers == s.peers
    requires SectionNoted([n], true, s.iface.comments, s1.iface.comments)
    requires Noted(s1, rest, t)
    ensures Noted(s, [n] + rest, t)
  {
    hide Below, InterfaceNotes, PeerNotes, SectionNoted, PeersNoted, FinishPeer, Heads;
    HeadNote(n, rest);
    NotHeads(n);
    var more := Below(rest) + InterfaceNotes(rest);
    SectionNotedTwice([n], more, true, s.iface.comments, s1.iface.comments, t.iface.comments);
    assert [n] + more == ([n] + Below(rest)) + ([] + InterfaceNotes(rest));
    assert [] + PeerNotes(rest) == PeerNotes(rest);
  }

  lemma {:induction false} NotHeads(n: Note)
    requires !HeadsAny(n)
    ensures !Heads(n, "[interface]") && !Heads(n, "[peer]")
  {
  }

  lemma {:induction false} PeerKeyNoted(s: State, n: Note, rest: seq<Note>, s1: State, t: State)
    requires s.section.InPeer? && s1.section.InPeer? && !HeadsAny(n) && s1.peers == s.peers && s1.iface == s.iface
    requires SectionNoted([n], false, s.section.peer.comments, s1.section.peer.comments)
    requires Noted(s1, rest, t)
    ensures Noted(s, [n] + rest, t)
  {
    hide Below, InterfaceNotes, PeerNotes, SectionNoted, PeersNoted, FinishPeer, Heads;
    HeadNote(n, rest);
    NotHeads(n);
    var c := FinishPeer(t).value.peers[|s.peers|].comments;
    SectionNotedTwice([n], Below(rest), false, s.section.peer.comments, s1.section.peer.comments, c);
    assert [] + PeerNotes(rest) == PeerNotes(rest) && [] + InterfaceNotes(rest) == InterfaceNotes(rest);
  }

  lemma {:induction false} CodeNoted(cx: Codecs, s: State, token: Token, rest: seq<Note>, t: State)
    requires token.Code? && Step(cx, s, token).Ok? && Noted(Step(cx, s, token).value, rest, t)
    ensures Noted(s, [Note(token.key, !token.hasValue, s.pending, token.comment)] + rest, t)
    ensures Step(cx, s, token).value.pending == []
  {
    hide Noted, StepInterfaceHeader, StepPeerHeader, SetInterfaceField, SetPeerField, InterfaceFieldOf, PeerFieldOf;
    hide AddComment, SectionNoted, LowerName, FinishPeer;
    var n, s1 := Note(token.key, !token.hasValue, s.pending, token.comment), Step(cx, s, token).value;
    if Heads(n, "[interface]") {
      InterfaceHeaderNoted(s, n, rest, t);
      HeadersTakeComments(s, token.comment);
    } else if Heads(n, "[peer]") {
      PeerHeaderNoted(s, n, rest, t);
      HeadersTakeComments(s, token.comment);
    } else if s.section.InInterface? {
      var f := InterfaceFieldOf(token.key).value;
      InterfaceKeyIsName(token.key);
      KeyNoted(f, s.pending, token.comment, n.bare, s.iface.comments);
      InterfaceKeyNoted(s, n, rest, s1, t);
    } else {
      var f := PeerFieldOf(token.key).value;
      PeerKeyIsName(token.key);
      FieldIsPeers(token.key);
      KeyNoted(f, s.pending, token.comment, n.bare, s.section.peer.comments);
      PeerKeyNoted(s, n, rest, s1, t);
    }
  }

  lemma {:induction false} FieldIsPeers(key: string)
    requires PeerFieldOf(key).Some?
    ensures !IsInterfaceField(PeerFieldOf(key).value)
  {
  }

  lemma {:induction false} HeadersTakeComments(s: State, comment: string)
    ensures StepInterfaceHeader(s, comment).Ok? ==> StepInterfaceHeader(s, comment).value.pending == []
    ensures StepPeerHeader(s, comment).Ok? ==> StepPeerHeader(s, comment).value.pending == []
  {
  }

  lemma {:induction false} RunNoted(cx: Codecs, s: State, lines: seq<string>)
    requires Run(cx, s, lines).Ok? && FinishPeer(Run(cx, s, lines).value).Ok?
    ensures Noted(s, NotesOf(lines, s.pending), Run(cx, s, lines).value)
    ensures Run(cx, s, lines).value.pending == Trailing(lines, s.pending)
    decreases |lines|
  {
    hide Lex, Noted, FinishPeer;
    if lines == [] {
      EndNoted(s);
    } else {
      var token, rest, t := Lex(lines[0]), lines[1..], Run(cx, s, lines).value;
      var s1 := Step(cx, s, token).value;
      RunNoted(cx, s1, rest);
      if token.Code? {
        hide Step;
        CodeNoted(cx, s, token, NotesOf(rest, s1.pending), t);
      } else {
        SameNoted(s, s1, NotesOf(rest, s1.pending), t);
      }
    }
  }

  lemma {:induction false} SameNoted(s: State, s1: State, ns: seq<Note>, t: State)
    requires s1 == s.(pending := s1.pending) && Noted(s1, ns, t)
    ensures Noted(s, ns, t)
  {
  }

  lemma {:induction false} EndNoted(s: State)
    requires FinishPeer(s).Ok?
    ensures Noted(s, [], s)
  {
    hide FinishPeer, SectionNoted;
    var ps := FinishPeer(s).value.peers;
    assert ps[..|ps|] == ps && ps[|ps|..] == [];
    FinishedNoted(s, ps);
    NothingNoted(true, s.iface.comments);
    assert [] + InterfaceNotes([]) == [];
  }

  // ----- Pruning -----

  /** The lines that are not blank. */
  function NonBlank(run: seq<string>): seq<string> {
    if run == [] then [] else NonBlank(run[..|run| - 1]) + if run[|run| - 1] == "" then [] else [run[|run| - 1]]
  }

  lemma {:induction false} NonBlankAppend(run: seq<string>, line: string)
    ensures NonBlank(run + [line]) == NonBlank(run) + if line == "" then [] else [line]
  {
    assert (run + [line])[..|run|] == run;
  }

  lemma {:induction false} NonBlankTail(run: seq<string>)
    requires run != [] && run[0] == ""
    ensures NonBlank(run[1..]) == NonBlank(run)
  {
    if |run| == 1 {
      assert run[1..] == [] && run[..0] == [];
    } else {
      var front, last := run[..|run| - 1], run[|run| - 1];
      NonBlankTail(front);
      assert run[1..] == front[1..] + [last] && run == front + [last];
      NonBlankAppend(front[1..], last);
    }
  }

  lemma {:induction false} CollapseKeeps(run: seq<string>)
    ensures NonBlank(Collapse(run)) == NonBlank(run)
  {
    if run == [] {
    } else {
      var front, last := run[..|run| - 1], run[|run| - 1];
      CollapseKeeps(front);
      NonBlankAppend(Collapse(front), last);
      assert NonBlank(front) + [] == NonBlank(front);
    }
  }

  /** Pruning loses no comment. */
  lemma {:induction false} PruneKeepsComments(run: seq<string>, dropLeading: bool, dropTrailing: bool)
    ensures NonBlank(PruneComments(run, dropLeading, dropTrailing)) == NonBlank(run)
  {
    hide NonBlank, Collapse;
    var out := Collapse(run);
    CollapseKeeps(run);
    if dropLeading && out != [] && out[0] == "" {
      NonBlankTail(out);
      out := out[1..];
    }
    if dropTrailing && out != [] && out[|out| - 1] == "" {
      NonBlankAppend(out[..|out| - 1], "");
      assert out == out[..|out| - 1] + [""];
      out := out[..|out| - 1];
    }
    if out == [""] {
      NonBlankTail(out);
      assert out[1..] == [];
    }
  }

  /** A second blank line makes no difference; what has none stays as it is. */
  lemma {:induction false} CollapseTwo(a: seq<string>, b: seq<string>)
    ensures Collapse(a + ["", ""] + b) == Collapse(a + [""] + b)
    decreases |b|
  {
    if b == [] {
      var one, two := a + [""], a + ["", ""];
      assert one + [] == one && two + [] == two;
      assert two[..|two| - 1] == one && one[..|one| - 1] == a;
      var out := Collapse(a);
      assert Collapse(one) == if out != [] && out[|out| - 1] == "" then out else out + [""];
    } else {
      var front, last := b[..|b| - 1], b[|b| - 1];
      CollapseTwo(a, front);
      assert (a + ["", ""] + b)[..|a| + 2 + |b| - 1] == a + ["", ""] + front;
      assert (a + [""] + b)[..|a| + 1 + |b| - 1] == a + [""] + front;
    }
  }

  // ----- The law -----

  /** The comments of the lines with a key. */
  function Said(ns: seq<Note>, key: string): Comments {
    Comments(Befores(ns, key), Join(Suffixes(ns, key), " "))
  }

  lemma {:induction false} SaidFromNothing(ns: seq<Note>, key: string, c: Comments)
    requires CommentsSay(ns, key, NO_COMMENTS, c)
    ensures c == Said(ns, key)
  {
    hide Befores, Suffixes;
    assert [] + Befores(ns, key) == Befores(ns, key) && [] + Suffixes(ns, key) == Suffixes(ns, key);
  }

  /** The comments of a section are those of its lines, key by key, without needless blank lines. */
  ghost predicate SectionIs(ns: seq<Note>, iface: bool, sc: SectionComments) {
    var h := Said(ns, if iface then "[interface]" else "[peer]");
    && sc.header == Comments(PruneComments(h.before, true, false), h.suffix)
    && forall f :: IsInterfaceField(f) == iface ==>
      var c := Said(ns, LowerName(f));
      CommentsAt(sc, f) == Comments(PruneComments(c.before, false, false), c.suffix)
  }

  lemma {:induction false} PrunedAt(sc: SectionComments, f: Field)
    ensures CommentsAt(PruneSection(sc), f) == PruneLine(CommentsAt(sc, f))
  {
  }

  lemma {:induction false} PrunedIs(ns: seq<Note>, iface: bool, sc: SectionComments)
    requires SectionNoted(ns, iface, NO_SECTION_COMMENTS, sc)
    ensures SectionIs(ns, iface, PruneSection(sc))
  {
    hide PruneComments, CommentsSay, LowerName, Said, CommentsAt;
    SaidFromNothing(ns, if iface then "[interface]" else "[peer]", sc.header);
    assert forall f :: CommentsAt(NO_SECTION_COMMENTS, f) == NO_COMMENTS by { NoComments(); }
    forall f | IsInterfaceField(f) == iface
      ensures var c := Said(ns, LowerName(f));
        CommentsAt(PruneSection(sc), f) == Comments(PruneComments(c.before, false, false), c.suffix)
    {
      SaidFromNothing(ns, LowerName(f), CommentsAt(sc, f));
      PrunedAt(sc, f);
    }
  }

  lemma {:induction false} NoComments()
    ensures forall f :: CommentsAt(NO_SECTION_COMMENTS, f) == NO_COMMENTS
  {
  }

  /** For every text the parser accepts: the comments of the interface, of every peer and at the end
      are those of the text, each with the key or header it stands before or behind. */
  lemma {:induction false} ParseNotes(cx: Codecs, text: string, name: string)
    requires Parse(cx, text, name).Ok?
    ensures var c, lines := Parse(cx, text, name).value, Split(text, '\n');
      var ns := NotesOf(lines, []);
      && SectionIs(InterfaceNotes(ns), true, c.iface.comments)
      && |c.peers| == |PeerNotes(ns)|
      && (forall k :: 0 <= k < |c.peers| ==> SectionIs(PeerNotes(ns)[k], false, c.peers[k].comments))
      && c.trailingComments == PruneComments(Trailing(lines, []), false, true)
  {
    hide Run, FinishPeer, SectionNoted, SectionIs, PruneSection, PruneComments, AllHaveKeys, InterfaceNotes, PeerNotes;
    var lines := Split(text, '\n');
    var t, ns := Run(cx, INITIAL, lines).value, NotesOf(lines, []);
    RunNoted(cx, INITIAL, lines);
    var ps := FinishPeer(t).value.peers;
    assert ps[0..] == ps && [] + InterfaceNotes(ns) == InterfaceNotes(ns);
    PrunedIs(InterfaceNotes(ns), true, t.iface.comments);
    forall k | 0 <= k < |ps| ensures SectionIs(PeerNotes(ns)[k], false, PrunePeer(ps[k]).comments) {
      PrunedIs(PeerNotes(ns)[k], false, ps[k].comments);
    }
  }
}
