/**
 * Reading the printed [Interface] section back, key by key.
 */
module WgQuickInterface {
  import opened Text
  import opened Config
  import opened WgQuickParser
  import opened WgQuickWriter
  import opened WgQuickLaws
  import opened WgQuickCanonical

  predicate SameInterfaceField(a: Interface, b: Interface, f: Field) {
    SameComments(a.comments, b.comments, f) && SameInterfaceValue(a, b, f)
  }

  predicate SameInterfaceValue(a: Interface, b: Interface, f: Field) {
    match f
    case PrivateKey => a.privateKey == b.privateKey
    case ListenPort => a.listenPort == b.listenPort
    case Address => a.addresses == b.addresses
    case DNS => a.dns == b.dns && a.dnsSearch == b.dnsSearch
    case MTU => a.mtu == b.mtu
    case PreUp => a.preUp == b.preUp
    case PostUp => a.postUp == b.postUp
    case PreDown => a.preDown == b.preDown
    case PostDown => a.postDown == b.postDown
    case Table => a.tableOff == b.tableOff
    case _ => true
  }

  /** Apart from one key, two records are the same. */
  ghost predicate OnlyInterfaceField(a: Interface, b: Interface, f: Field) {
    a.comments.header == b.comments.header && forall g :: g != f ==> SameInterfaceField(a, b, g)
  }

  /** A printed interface value fits on a line. */
  lemma {:induction false} InterfaceValueFits(cx: Codecs, i: Interface, f: Field)
    requires GoodInterfaceField(cx, i, f) && IsInterfaceField(f) && ReadInterfaceField(i, f)
    ensures InterfaceSlot(cx, i, f).Slot?
    ensures var val := InterfaceSlot(cx, i, f).value; PlainValue(val) || (IsScript(f) && Value(val))
  {
    match f
    case ListenPort => DigitsArePlain(Itoa(i.listenPort));
    case MTU => DigitsArePlain(Itoa(i.mtu));
    case Address => JoinIsPlain(ShowPrefixes(cx, i.addresses));
    case DNS => JoinIsPlain(ShowAddrs(cx, i.dns) + i.dnsSearch);
    case _ =>
  }

  lemma {:induction false} SetPrintedAddresses(cx: Codecs, i: Interface, cur: Interface)
    requires GoodInterfaceField(cx, i, Address) && i.addresses != [] && cur.addresses == []
    ensures SetInterfaceField(cx, cur, Address, InterfaceSlot(cx, i, Address).value)
         == Ok(cur.(addresses := i.addresses))
  {
    ReadPrefixList(cx, i.addresses);
    assert [] + i.addresses == i.addresses;
  }

  lemma {:induction false} SetPrintedDNS(cx: Codecs, i: Interface, cur: Interface)
    requires GoodInterfaceField(cx, i, DNS) && (i.dns != [] || i.dnsSearch != [])
    requires cur.dns == [] && cur.dnsSearch == []
    ensures SetInterfaceField(cx, cur, DNS, InterfaceSlot(cx, i, DNS).value)
         == Ok(cur.(dns := i.dns, dnsSearch := i.dnsSearch))
  {
    ReadServerList(cx, i.dns, i.dnsSearch);
    assert [] + i.dns == i.dns && [] + i.dnsSearch == i.dnsSearch;
  }

  /** Reading a printed interface value into an interface that lacks it stores it, and
      leaves the other keys and the comments alone. */
  lemma {:induction false} SetPrintedInterfaceField(cx: Codecs, i: Interface, cur: Interface, f: Field)
    requires GoodInterfaceField(cx, i, f) && IsInterfaceField(f) && ReadInterfaceField(i, f)
    requires SameInterfaceValue(cur, EMPTY_INTERFACE, f)
    requires InterfaceSlot(cx, i, f).Slot?
    ensures var r := SetInterfaceField(cx, cur, f, InterfaceSlot(cx, i, f).value);
            r.Ok? && SameInterfaceValue(r.value, i, f)
  {
    match f
    case ListenPort => ReadNumber(i.listenPort, 0, 65535, InvalidPort);
    case MTU => ReadNumber(i.mtu, 576, 65535, InvalidMTU);
    case Address => SetPrintedAddresses(cx, i, cur);
    case DNS => SetPrintedDNS(cx, i, cur);
    case _ =>
  }

  lemma {:induction false} SetInterfaceFrame(cx: Codecs, cur: Interface, f: Field, val: string)
    requires IsInterfaceField(f) && SetInterfaceField(cx, cur, f, val).Ok?
    ensures var r := SetInterfaceField(cx, cur, f, val).value;
            r.comments == cur.comments && forall g :: g != f ==> SameInterfaceValue(r, cur, g)
  {
    hide ParseKey, ParsePort, ParseMTU, SplitList, ParsePrefixes, Servers, SearchDomains, ParseTableOff;
  }

  /** A key that is not printed has the value of an empty interface. */
  lemma {:induction false} UnprintedInterfaceField(cx: Codecs, i: Interface, f: Field)
    requires GoodInterfaceEntry(cx, i, f) && IsInterfaceField(f)
    requires !Printed(i.comments, f, InterfaceSlot(cx, i, f))
    ensures SameInterfaceField(i, EMPTY_INTERFACE, f)
  {
  }

  lemma {:induction false} StepInterfaceEntry(cx: Codecs, s: State, f: Field, val: string, comment: string)
    requires s.section.InInterface? && val != "" && IsInterfaceField(f)
    ensures Step(cx, s, Code(ToLower(Name(f)), true, val, comment))
         == var r := SetInterfaceField(cx, s.iface, f, val);
            if r.Err? then Err(r.error)
            else Ok(s.(iface := r.value.(comments := AddComment(s.iface.comments, f, s.pending, comment)),
                       sawPrivateKey := s.sawPrivateKey || f.PrivateKey?, pending := []))
  {
    FieldOfName(f);
  }

  /** Reading back the lines of one printed interface key is setting it. */
  lemma {:induction false} RunPrintedInterfaceField(cx: Codecs, s: State, f: Field, val: string, c: Comments)
    requires IsInterfaceField(f) && s.section.InInterface? && s.pending == []
    requires PlainValue(val) || (IsScript(f) && Value(val))
    requires PrintableComments(c, f)
    requires SetInterfaceField(cx, s.iface, f, val).Ok?
    ensures Run(cx, s, CommentedLine(c, Name(f) + " = " + val))
         == Ok(s.(iface := SetInterfaceField(cx, s.iface, f, val).value.(
                    comments := AddComment(s.iface.comments, f, c.before, c.suffix)),
                  sawPrivateKey := s.sawPrivateKey || f.PrivateKey?))
  {
    LexEntry(f, val, c.suffix);
    RunCommented(cx, s, c, Name(f) + " = " + val);
    assert [] + c.before == c.before;
    StepInterfaceEntry(cx, s.(pending := c.before), f, val, c.suffix);
  }

  lemma {:induction false} InterfaceFieldArrived(cx: Codecs, cur: Interface, i: Interface, f: Field, val: string)
    requires IsInterfaceField(f) && SetInterfaceField(cx, cur, f, val).Ok?
    requires SameInterfaceValue(SetInterfaceField(cx, cur, f, val).value, i, f)
    requires f !in cur.comments.lines && (f in i.comments.lines ==> i.comments.lines[f] != NO_COMMENTS)
    ensures var c := CommentsAt(i.comments, f);
            var sc := AddComment(cur.comments, f, c.before, c.suffix);
            var r := SetInterfaceField(cx, cur, f, val).value.(comments := sc);
            SameInterfaceField(r, i, f) && OnlyInterfaceField(r, cur, f)
  {
    SetInterfaceFrame(cx, cur, f, val);
    AddPrintedComment(cur.comments, i.comments, f);
    var c := CommentsAt(i.comments, f);
    var set0 := SetInterfaceField(cx, cur, f, val).value;
    var sc := AddComment(cur.comments, f, c.before, c.suffix);
    forall g | g != f
      ensures SameInterfaceField(set0.(comments := sc), cur, g)
    {
      assert SameComments(sc, cur.comments, g) && SameInterfaceValue(set0, cur, g);
    }
  }

  /** Reading back the lines of one interface key. */
  lemma {:induction false} RunInterfaceField(cx: Codecs, s: State, i: Interface, f: Field) returns (t: State)
    requires GoodInterfaceEntry(cx, i, f) && IsInterfaceField(f)
    requires s.section.InInterface? && s.pending == []
    requires SameInterfaceField(s.iface, EMPTY_INTERFACE, f)
    ensures Run(cx, s, SlotLines(i.comments, f, InterfaceSlot(cx, i, f))) == Ok(t)
    ensures t == s.(iface := t.iface, sawPrivateKey := s.sawPrivateKey || f.PrivateKey?)
    ensures SameInterfaceField(t.iface, i, f) && OnlyInterfaceField(t.iface, s.iface, f)
  {
    var slot := InterfaceSlot(cx, i, f);
    if Printed(i.comments, f, slot) {
      t := RunInterfaceLine(cx, s, i, f);
    } else {
      UnprintedInterfaceField(cx, i, f);
      t := s;
    }
  }

  lemma {:induction false} RunInterfaceLine(cx: Codecs, s: State, i: Interface, f: Field) returns (t: State)
    requires GoodInterfaceEntry(cx, i, f) && IsInterfaceField(f)
    requires s.section.InInterface? && s.pending == []
    requires SameInterfaceField(s.iface, EMPTY_INTERFACE, f)
    requires Printed(i.comments, f, InterfaceSlot(cx, i, f))
    ensures Run(cx, s, CommentedLine(CommentsAt(i.comments, f), Name(f) + " = " + InterfaceSlot(cx, i, f).value))
         == Ok(t)
    ensures t == s.(iface := t.iface, sawPrivateKey := s.sawPrivateKey || f.PrivateKey?)
    ensures SameInterfaceField(t.iface, i, f) && OnlyInterfaceField(t.iface, s.iface, f)
  {
    assert ReadInterfaceField(i, f);
    InterfaceValueFits(cx, i, f);
    var c, val := CommentsAt(i.comments, f), InterfaceSlot(cx, i, f).value;
    SetPrintedInterfaceField(cx, i, s.iface, f);
    RunPrintedInterfaceField(cx, s, f, val, c);
    InterfaceFieldArrived(cx, s.iface, i, f, val);
    var sc := AddComment(s.iface.comments, f, c.before, c.suffix);
    t := s.(iface := SetInterfaceField(cx, s.iface, f, val).value.(comments := sc),
            sawPrivateKey := s.sawPrivateKey || f.PrivateKey?);
  }

  lemma {:induction false} SameInterfaceTrans(a: Interface, b: Interface, c: Interface, f: Field)
    requires SameInterfaceField(a, b, f) && SameInterfaceField(b, c, f)
    ensures SameInterfaceField(a, c, f)
  {
  }

  lemma {:induction false} SameInterfaceRefl(a: Interface)
    ensures forall f :: SameInterfaceField(a, a, f)
  {
  }

  /** Reading back the lines of a list of interface keys. */
  lemma {:induction false} RunInterfaceFields(cx: Codecs, s: State, i: Interface, fs: seq<Field>) returns (t: State)
    requires forall f :: GoodInterfaceEntry(cx, i, f)
    requires Distinct(fs) && forall k :: 0 <= k < |fs| ==> IsInterfaceField(fs[k])
    requires s.section.InInterface? && s.pending == []
    requires forall k :: 0 <= k < |fs| ==> SameInterfaceField(s.iface, EMPTY_INTERFACE, fs[k])
    ensures Run(cx, s, InterfaceFieldLines(cx, i, fs)) == Ok(t)
    ensures t == s.(iface := t.iface, sawPrivateKey := s.sawPrivateKey || PrivateKey in fs)
    ensures t.iface.comments.header == s.iface.comments.header
    ensures forall f :: f in fs ==> SameInterfaceField(t.iface, i, f)
    ensures forall f :: f !in fs ==> SameInterfaceField(t.iface, s.iface, f)
    decreases |fs|
  {
    hide InterfaceSlot, GoodInterfaceEntry, SameInterfaceField, Printed, SlotLines, Step, Lex;
    if fs == [] {
      t := s;
      SameInterfaceRefl(t.iface);
    } else {
      var f, rest := fs[0], fs[1..];
      assert fs == [f] + rest;
      var u := RunInterfaceField(cx, s, i, f);
      forall k | 0 <= k < |rest|
        ensures SameInterfaceField(u.iface, EMPTY_INTERFACE, rest[k])
      {
        SameInterfaceTrans(u.iface, s.iface, EMPTY_INTERFACE, rest[k]);
      }
      t := RunInterfaceFields(cx, u, i, rest);
      RunAppend(cx, s, SlotLines(i.comments, f, InterfaceSlot(cx, i, f)), InterfaceFieldLines(cx, i, rest));
      SameInterfaceTrans(t.iface, u.iface, i, f);
      forall g | g !in fs
        ensures SameInterfaceField(t.iface, s.iface, g)
      {
        SameInterfaceTrans(t.iface, u.iface, s.iface, g);
      }
    }
  }

  lemma {:induction false} SameInterface(a: Interface, b: Interface)
    requires a.comments == b.comments
    requires forall f :: SameInterfaceValue(a, b, f)
    ensures a == b
  {
    assert SameInterfaceValue(a, b, PrivateKey) && SameInterfaceValue(a, b, ListenPort)
        && SameInterfaceValue(a, b, Address)
        && SameInterfaceValue(a, b, DNS) && SameInterfaceValue(a, b, MTU) && SameInterfaceValue(a, b, PreUp)
        && SameInterfaceValue(a, b, PostUp) && SameInterfaceValue(a, b, PreDown) && SameInterfaceValue(a, b, PostDown)
        && SameInterfaceValue(a, b, Table);
  }

  lemma {:induction false} RunInterfaceHeader(cx: Codecs, c: Comments)
    requires CommentLines(c.before) && CommentLine(c.suffix)
    ensures Run(cx, INITIAL, CommentedLine(c, "[Interface]"))
         == Ok(State(InInterface, EMPTY_INTERFACE.(comments := SectionComments(c, map[])), false, [], []))
  {
    RunCommented(cx, INITIAL, c, "[Interface]");
    Headers();
    LexBracketed("[Interface]", c.suffix);
    assert [] + c.before == c.before;
    StepHeaders(cx, INITIAL.(pending := c.before), c.suffix);
  }

  /** Reading the printed interface section from the start gives the interface. */
  lemma {:induction false} ReadInterface(cx: Codecs, i: Interface)
    requires GoodInterface(cx, i)
    ensures Run(cx, INITIAL, InterfaceLines(cx, i)) == Ok(State(InInterface, i, true, [], []))
  {
    hide Run, GoodInterfaceEntry, SameInterfaceField, InterfaceFieldLines, CommentedLine;
    RunInterfaceHeader(cx, i.comments.header);
    StartInterfaceIsEmpty(i.comments.header);
    var s := State(InInterface, EMPTY_INTERFACE.(comments := SectionComments(i.comments.header, map[])), false, [], []);
    InterfaceOrder();
    var t := RunInterfaceFields(cx, s, i, INTERFACE_ORDER);
    RunAppend(cx, INITIAL, CommentedLine(i.comments.header, "[Interface]"),
      InterfaceFieldLines(cx, i, INTERFACE_ORDER));
    InterfaceIsBack(cx, i, s.iface, t.iface);
  }

  lemma {:induction false} StartInterfaceIsEmpty(c: Comments)
    ensures forall f :: SameInterfaceField(EMPTY_INTERFACE.(comments := SectionComments(c, map[])), EMPTY_INTERFACE, f)
  {
  }

  lemma {:induction false} InterfaceIsBack(cx: Codecs, i: Interface, start: Interface, end: Interface)
    requires forall f :: GoodInterfaceEntry(cx, i, f)
    requires start.comments.lines == map[] && end.comments.header == i.comments.header
    requires forall f :: IsInterfaceField(f) ==> SameInterfaceField(end, i, f)
    requires forall f :: !IsInterfaceField(f) ==> SameInterfaceField(end, start, f)
    ensures end == i
  {
    forall f
      ensures SameComments(end.comments, i.comments, f) && SameInterfaceValue(end, i, f)
    {
      assert GoodInterfaceEntry(cx, i, f);
      assert SameInterfaceField(end, if IsInterfaceField(f) then i else start, f);
    }
    SameSectionComments(end.comments, i.comments);
    SameInterface(end, i);
  }
}
