/**
 * What the texts and values of a parsed configuration look like, and how single lines of
 * the wg-quick text are read back.
 */
module WgQuickLaws {
  import opened Text
  import opened Netip
  import opened Config
  import opened WgQuickParser
  import opened WgQuickWriter

  // ----- Texts -----

  /** A value as a line can hold it. */
  predicate Value(s: string) {
    s != "" && Trimmed(s) && '\n' !in s
  }

  /** A value that does not run into a comment. */
  predicate PlainValue(s: string) {
    Value(s) && '#' !in s
  }

  /** A value that can be an element of a list. */
  predicate Item(s: string) {
    PlainValue(s) && ',' !in s
  }

  /** A blank line or a comment without trailing blanks. */
  predicate CommentLine(l: string) {
    l == "" || (l[0] == '#' && '\n' !in l && !IsLineEnd(l[|l| - 1]))
  }

  predicate CommentLines(ls: seq<string>) {
    forall i :: 0 <= i < |ls| ==> CommentLine(ls[i])
  }

  // ----- Codec laws -----

  ghost predicate GoodAddr(cx: Codecs, a: Addr) {
    Item(cx.showAddr(a)) && cx.parseAddr(cx.showAddr(a)) == Some(a)
  }

  ghost predicate GoodPrefix(cx: Codecs, p: Prefix) {
    Item(cx.showPrefix(p)) && cx.parsePrefix(cx.showPrefix(p)) == Some(p)
  }

  ghost predicate GoodKey(cx: Codecs, k: Key) {
    PlainValue(cx.encodeKey(k)) && cx.decodeKey(cx.encodeKey(k)) == Some(k)
  }

  /** The laws of the library codecs: what they read prints as text that reads back. */
  ghost predicate Lawful(cx: Codecs) {
    && (forall s :: Item(s) && cx.parseAddr(s).Some? ==> GoodAddr(cx, cx.parseAddr(s).value))
    && (forall s :: cx.parseAddr(s).Some? ==> GoodPrefix(cx, HostPrefix(cx.parseAddr(s).value)))
    && (forall s :: cx.parsePrefix(s).Some? ==> GoodPrefix(cx, cx.parsePrefix(s).value))
    && (forall k :: GoodKey(cx, k))
  }

  // ----- The laws can be met -----

  const SAMPLE_ADDR := Addr(false, 1, "")

  function SampleEncode(k: Key): string {
    seq(KEY_LENGTH, i requires 0 <= i < KEY_LENGTH => (k[i] as int + 0x100) as char)
  }

  predicate IsSampleKey(s: string) {
    |s| == KEY_LENGTH && forall i :: 0 <= i < |s| ==> 0x100 <= s[i] as int < 0x200
  }

  function SampleDecode(s: string): Option<Key> {
    if IsSampleKey(s) then Some(seq(KEY_LENGTH, i requires 0 <= i < KEY_LENGTH => (s[i] as int - 0x100) as byte))
      else None
  }

  /** Codecs for all keys, one address and one prefix. */
  function SampleCodecs(): Codecs {
    Codecs(
      s => if s == "a" then Some(SAMPLE_ADDR) else None, _ => "a",
      s => if s == "p" then Some(HostPrefix(SAMPLE_ADDR)) else None, _ => "p",
      SampleDecode, SampleEncode, _ => None)
  }

  lemma {:induction false} LawsCanBeMet()
    ensures Lawful(SampleCodecs())
  {
    var cx := SampleCodecs();
    assert Item("a") && Item("p");
    forall k: Key ensures GoodKey(cx, k) {
      var s := SampleEncode(k);
      assert forall i :: 0 <= i < |s| ==> !IsSpace(s[i]);
      assert SampleDecode(s).value == k;
    }
  }

  // ----- Lines -----

  lemma {:induction false} LexCommentLine(l: string)
    requires CommentLine(l)
    ensures Lex(l) == Filler(l)
  {
    if l == "" {
      assert TrimSpace("") == "";
    } else {
      assert l == "" + ['#'] + l[1..];
      CutAt("", '#', l[1..]);
      assert TrimSpace("") == "";
      TrimRightUnique(l[1..], IsLineEnd, |l| - 1);
      assert l[1..][..|l| - 1] == l[1..];
      assert l == "#" + l[1..];
    }
  }

  /** The text before the first '#' of a printed line, and the comment behind it. */
  lemma {:induction false} CutSuffix(line: string, suffix: string)
    requires '#' !in line && CommentLine(suffix)
    ensures var cut := Cut(WithSuffix(line, suffix), '#');
            && cut.before == (if suffix == "" then line else line + " ")
            && (if cut.found then "#" + TrimLineEnd(cut.after) else "") == suffix
  {
    if suffix == "" {
      CutAbsent(line, '#');
    } else {
      var rest := suffix[1..];
      assert line + " " + suffix == (line + " ") + ['#'] + rest;
      CutAt(line + " ", '#', rest);
      TrimRightUnique(rest, IsLineEnd, |rest|);
      assert rest[..|rest|] == rest;
      assert suffix == "#" + rest;
    }
  }

  lemma {:induction false} TrimPadded(s: string)
    requires s != "" && Trimmed(s)
    ensures TrimSpace(s) == s && TrimSpace(s + " ") == s && TrimSpace(" " + s) == s
  {
    TrimSpaceAround("", s, "");
    TrimSpaceAround("", s, " ");
    TrimSpaceAround(" ", s, "");
    assert "" + s + "" == s && "" + s + " " == s + " " && " " + s + "" == " " + s;
  }

  /** A section header reads back as itself. */
  lemma {:induction false} LexHeader(header: string, suffix: string)
    requires header != "" && Trimmed(header) && '#' !in header && '=' !in header
    requires CommentLine(suffix)
    ensures Lex(WithSuffix(header, suffix)) == Code(ToLower(header), false, "", suffix)
  {
    CutSuffix(header, suffix);
    TrimPadded(header);
    CutAbsent(header, '=');
    assert TrimSpace("") == "";
  }

  /** A key name: letters only. */
  predicate Word(s: string) {
    s != "" && forall i :: 0 <= i < |s| ==> 'A' <= s[i] <= 'z'
  }

  lemma {:induction false} InterfaceNamesAreWords(f: Field)
    requires IsInterfaceField(f)
    ensures Word(Name(f))
  {
  }

  lemma {:induction false} PeerNamesAreWords(f: Field)
    requires !IsInterfaceField(f) && !IsWSField(f)
    ensures Word(Name(f))
  {
  }

  lemma {:induction false} WSNamesAreWords(f: Field)
    requires IsWSField(f)
    ensures Word(Name(f))
  {
  }

  lemma {:induction false} NamesAreWords(f: Field)
    ensures Word(Name(f))
  {
    if IsInterfaceField(f) {
      InterfaceNamesAreWords(f);
    } else if IsWSField(f) {
      WSNamesAreWords(f);
    } else {
      PeerNamesAreWords(f);
    }
  }

  /** Splitting a trimmed "name =..." at its '='. */
  lemma {:induction false} CutAssignment(name: string, rest: string)
    requires Word(name)
    ensures Cut(name + " =" + rest, '=') == CutResult(name + " ", rest, true)
    ensures TrimSpace(name + " ") == name
  {
    hide Cut, TrimSpace;
    assert name + " =" + rest == (name + " ") + ['='] + rest;
    CutAt(name + " ", '=', rest);
    TrimPadded(name);
  }

  /** "name = value # comment" reads back as its parts. */
  lemma {:induction false} LexAssignment(name: string, val: string, suffix: string)
    requires Word(name) && !IsScriptKey(ToLower(name)) && PlainValue(val) && CommentLine(suffix)
    ensures Lex(WithSuffix(name + " = " + val, suffix)) == Code(ToLower(name), true, val, suffix)
  {
    hide TrimSpace, IsScriptKey, TrimLineEnd;
    var line := name + " = " + val;
    assert line == name + " =" + (" " + val);
    CutSuffix(line, suffix);
    assert Trimmed(line);
    TrimPadded(line);
    CutAssignment(name, " " + val);
    TrimPadded(val);
  }

  /** A script line reads back whole, '#' and all. */
  lemma {:induction false} LexScriptAssignment(name: string, val: string)
    requires Word(name) && IsScriptKey(ToLower(name)) && Value(val)
    ensures Lex(name + " = " + val) == Code(ToLower(name), true, val, "")
  {
    var line := name + " = " + val;
    assert line == name + " =" + (" " + val);
    var tail := CutKeepsPrefix(name + " =", " " + val, '#');
    TrimKeepsPrefix(name + " =", tail);
    CutAssignment(name, TrimRightBy(tail, IsSpace));
    CutAssignment(name, " " + val);
    TrimPadded(val);
  }

  lemma {:induction false} LexEntry(f: Field, val: string, suffix: string)
    requires PlainValue(val) || (IsScript(f) && Value(val))
    requires CommentLine(suffix) && (IsScript(f) ==> suffix == "")
    ensures Lex(WithSuffix(Name(f) + " = " + val, suffix)) == Code(ToLower(Name(f)), true, val, suffix)
  {
    NamesAreWords(f);
    FieldOfName(f);
    if IsScript(f) {
      LexScriptAssignment(Name(f), val);
    } else {
      LexAssignment(Name(f), val, suffix);
    }
  }

  lemma {:induction false} CutKeepsPrefix(prefix: string, rest: string, sep: char) returns (tail: string)
    requires sep !in prefix
    ensures Cut(prefix + rest, sep).before == prefix + tail
  {
    var c := Cut(rest, sep);
    tail := c.before;
    if c.found {
      assert prefix + rest == (prefix + tail) + [sep] + c.after;
      CutAt(prefix + tail, sep, c.after);
    } else {
      CutAbsent(prefix + rest, sep);
    }
  }

  lemma {:induction false} TrimKeepsPrefix(prefix: string, tail: string)
    requires prefix != "" && Trimmed(prefix)
    ensures TrimSpace(prefix + tail) == prefix + TrimRightBy(tail, IsSpace)
  {
    var s := prefix + tail;
    TrimLeftUnique(s, IsSpace, 0);
    assert s[0..] == s;
    var kept := TrimRightKeeps(tail, IsSpace);
    assert forall i :: |prefix| <= i < |s| ==> s[i] == tail[i - |prefix|];
    TrimRightUnique(s, IsSpace, |prefix| + kept);
    assert s[..|prefix| + kept] == prefix + tail[..kept];
  }

  // ----- Lists -----

  lemma {:induction false} TrimPartsCons(part: string, parts: seq<string>)
    requires TrimSpace(part) != ""
    requires TrimParts(parts).Ok?
    ensures TrimParts([part] + parts) == Ok([TrimSpace(part)] + TrimParts(parts).value)
  {
    assert ([part] + parts)[1..] == parts;
  }

  predicate Items(items: seq<string>) {
    forall i :: 0 <= i < |items| ==> Item(items[i])
  }

  lemma {:induction false} SplitPadded(first: string, rest: string, lead: string)
    requires lead == "" || lead == " "
    requires Item(first)
    ensures Split(lead + first, ',') == [lead + first]
    ensures Split(lead + (first + ", " + rest), ',') == [lead + first] + Split(" " + rest, ',')
    ensures TrimSpace(lead + first) == first
  {
    CutAbsent(lead + first, ',');
    assert lead + (first + ", " + rest) == (lead + first) + [','] + (" " + rest);
    SplitAt(lead + first, ',', " " + rest);
    TrimPadded(first);
    assert lead == "" ==> lead + first == first;
  }

  lemma {:induction false} SplitJoin(items: seq<string>, lead: string)
    requires lead == "" || lead == " "
    requires items != [] && Items(items)
    ensures TrimParts(Split(lead + Join(items, ", "), ',')) == Ok(items)
    decreases |items|
  {
    var first, rest := items[0], items[1..];
    assert items == [first] + rest;
    SplitPadded(first, Join(rest, ", "), lead);
    if rest == [] {
      calc {
        TrimParts(Split(lead + Join(items, ", "), ','));
        { assert Join(items, ", ") == first; }
        TrimParts([lead + first]);
        { TrimPartsCons(lead + first, []); assert [lead + first] + [] == [lead + first]; }
        Ok([first] + []);
      }
    } else {
      SplitJoin(rest, " ");
      TrimPartsCons(lead + first, Split(" " + Join(rest, ", "), ','));
    }
  }

  lemma {:induction false} ReadPrefixes(cx: Codecs, ps: seq<Prefix>)
    requires forall i :: 0 <= i < |ps| ==> GoodPrefix(cx, ps[i])
    ensures ParsePrefixes(cx, ShowPrefixes(cx, ps)) == Ok(ps)
  {
    if ps == [] {
    } else {
      ReadPrefixes(cx, ps[1..]);
      assert ShowPrefixes(cx, ps)[1..] == ShowPrefixes(cx, ps[1..]);
      assert ps == [ps[0]] + ps[1..];
    }
  }

  /** A printed list of prefixes reads back as the list. */
  lemma {:induction false} ReadPrefixList(cx: Codecs, ps: seq<Prefix>)
    requires ps != []
    requires forall i :: 0 <= i < |ps| ==> GoodPrefix(cx, ps[i])
    ensures SplitList(Join(ShowPrefixes(cx, ps), ", ")) == Ok(ShowPrefixes(cx, ps))
    ensures ParsePrefixes(cx, ShowPrefixes(cx, ps)) == Ok(ps)
  {
    var items := ShowPrefixes(cx, ps);
    SplitJoin(items, "");
    assert "" + Join(items, ", ") == Join(items, ", ");
    ReadPrefixes(cx, ps);
  }

  lemma {:induction false} ReadServers(cx: Codecs, servers: seq<Addr>, domains: seq<string>)
    requires forall i :: 0 <= i < |servers| ==> GoodAddr(cx, servers[i])
    requires forall i :: 0 <= i < |domains| ==> cx.parseAddr(domains[i]).None?
    ensures Servers(cx, ShowAddrs(cx, servers) + domains) == servers
    ensures SearchDomains(cx, ShowAddrs(cx, servers) + domains) == domains
    decreases |servers|
  {
    hide Servers, SearchDomains, ShowAddrs;
    if servers == [] {
      assert ShowAddrs(cx, servers) + domains == domains;
      ReadDomains(cx, domains);
    } else {
      var rest := ShowAddrs(cx, servers[1..]) + domains;
      ShowFirstServer(cx, servers, domains);
      assert servers == [servers[0]] + servers[1..];
      ReadServers(cx, servers[1..], domains);
      ReadServer(cx, servers[0], rest);
    }
  }

  lemma {:induction false} ShowFirstServer(cx: Codecs, servers: seq<Addr>, domains: seq<string>)
    requires servers != []
    ensures ShowAddrs(cx, servers) + domains
      == [cx.showAddr(servers[0])] + (ShowAddrs(cx, servers[1..]) + domains)
  {
  }

  lemma {:induction false} ReadServer(cx: Codecs, server: Addr, rest: seq<string>)
    requires GoodAddr(cx, server)
    ensures Servers(cx, [cx.showAddr(server)] + rest) == [server] + Servers(cx, rest)
    ensures SearchDomains(cx, [cx.showAddr(server)] + rest) == SearchDomains(cx, rest)
  {
    assert ([cx.showAddr(server)] + rest)[1..] == rest;
  }

  lemma {:induction false} ReadDomains(cx: Codecs, domains: seq<string>)
    requires forall i :: 0 <= i < |domains| ==> cx.parseAddr(domains[i]).None?
    ensures Servers(cx, domains) == [] && SearchDomains(cx, domains) == domains
    decreases |domains|
  {
    if domains == [] {
    } else {
      ReadDomains(cx, domains[1..]);
      assert domains == [domains[0]] + domains[1..];
    }
  }

  lemma {:induction false} ReadServerList(cx: Codecs, servers: seq<Addr>, domains: seq<string>)
    requires servers != [] || domains != []
    requires forall i :: 0 <= i < |servers| ==> GoodAddr(cx, servers[i])
    requires forall i :: 0 <= i < |domains| ==> Item(domains[i]) && cx.parseAddr(domains[i]).None?
    ensures var items := ShowAddrs(cx, servers) + domains;
            && SplitList(Join(items, ", ")) == Ok(items)
            && Servers(cx, items) == servers
            && SearchDomains(cx, items) == domains
  {
    var items := ShowAddrs(cx, servers) + domains;
    SplitJoin(items, "");
    assert "" + Join(items, ", ") == Join(items, ", ");
    ReadServers(cx, servers, domains);
  }

  /** A joined list of items is itself a value that fits on a line. */
  lemma {:induction false} JoinIsPlain(items: seq<string>)
    requires items != []
    requires forall i :: 0 <= i < |items| ==> Item(items[i])
    ensures PlainValue(Join(items, ", "))
  {
    if |items| > 1 {
      JoinIsPlain(items[1..]);
      var rest := Join(items[1..], ", ");
      var all := items[0] + ", " + rest;
      assert all[0] == items[0][0] && all[|all| - 1] == rest[|rest| - 1];
    }
  }

  // ----- Numbers, keys, endpoints -----

  lemma {:induction false} DigitsArePlain(s: string)
    requires s != "" && AllDigits(s)
    ensures PlainValue(s)
  {
  }

  lemma {:induction false} ReadNumber(n: nat, min: nat, max: nat, error: ParseError)
    requires min <= n <= max <= MAX_INT
    ensures ParseNumber(Itoa(n), min, max, error) == Ok(n)
    ensures PlainValue(Itoa(n)) && Itoa(n) != "off"
  {
    AtoiItoa(n);
    DigitsArePlain(Itoa(n));
    assert !IsDigit("off"[0]);
  }

  /** An endpoint as the parser makes it. */
  ghost predicate GoodEndpoint(cx: Codecs, e: HostPort) {
    && e.host != "" && '\n' !in e.host && '#' !in e.host && e.port <= 65535
    && (if ':' in e.host then BracketedIPv6(cx, "[" + e.host + "]")
        else !IsSpace(e.host[0]) && e.host[0] != '[' && e.host[|e.host| - 1] != ']')
  }

  lemma {:induction false} LastColon(host: string, port: string)
    requires AllDigits(port)
    ensures LastIndexOf(host + ":" + port, ':') == |host|
  {
    var s := host + ":" + port;
    assert s[|host|] == ':';
    assert forall k :: |host| < k < |s| ==> s[k] == port[k - |host| - 1];
  }

  lemma {:induction false} NotWSURL(host: string, port: string)
    requires port != "" && AllDigits(port) && host != ""
    requires ':' !in host || host[0] == '['
    ensures !IsWSURL(host + ":" + port)
  {
    var s := host + ":" + port;
    var l := ToLower(s);
    assert l[0] == LowerChar(host[0]) && l[|host| + 1] == LowerChar(port[0]);
    assert forall k :: 0 <= k < |host| && host[k] != ':' ==> l[k] != ':';
    assert forall k :: |host| < k < |s| ==> s[k] == port[k - |host| - 1] && l[k] != ':';
    NotPrefix(l, "ws://", if host[0] == '[' then 0 else if |host| != 2 then 2 else 3);
    NotPrefix(l, "wss://", if host[0] == '[' then 0 else if |host| != 3 then 3 else 4);
  }

  lemma {:induction false} NotPrefix(s: string, prefix: string, i: nat)
    requires i < |prefix| && (|s| <= i || s[i] != prefix[i])
    ensures !HasPrefix(s, prefix)
  {
    assert |s| > i ==> s[..i + 1][i] == s[i];
  }

  /** parseEndpoint undoes Endpoint.String. */
  lemma {:induction false} ReadEndpoint(cx: Codecs, e: HostPort)
    requires GoodEndpoint(cx, e)
    ensures ParseEndpoint(cx, ShowEndpoint(e)) == Ok(e)
  {
    hide Itoa, LastIndexOf, ParseNumber, ParseEndpoint, BracketedIPv6;
    var port := Itoa(e.port);
    ReadNumber(e.port, 0, 65535, InvalidPort);
    var host := if ':' in e.host then "[" + e.host + "]" else e.host;
    assert ShowEndpoint(e) == host + ":" + port;
    SplitEndpoint(host, port);
    ReadHostPort(cx, host + ":" + port, host, port, e.port);
    assert ':' in e.host ==> host[1..|host| - 1] == e.host;
  }

  lemma {:induction false} ReadHostPort(cx: Codecs, s: string, host: string, port: string, n: nat)
    requires LastIndexOf(s, ':') == |host| && s[..|host|] == host && s[|host| + 1..] == port
    requires host != "" && ParsePort(port) == Ok(n)
    ensures host[0] != '[' && host[|host| - 1] != ']' && ':' !in host ==>
      ParseEndpoint(cx, s) == Ok(HostPort(host, n))
    ensures BracketedIPv6(cx, host) ==> ParseEndpoint(cx, s) == Ok(HostPort(host[1..|host| - 1], n))
  {
    hide LastIndexOf, ParsePort;
  }

  lemma {:induction false} SplitEndpoint(host: string, port: string)
    requires AllDigits(port)
    ensures var s := host + ":" + port;
            LastIndexOf(s, ':') == |host| && s[..|host|] == host && s[|host| + 1..] == port
  {
    LastColon(host, port);
  }

  lemma {:induction false} ShownEndpointIsPlain(cx: Codecs, e: HostPort)
    requires GoodEndpoint(cx, e)
    ensures PlainValue(ShowEndpoint(e)) && !IsWSURL(ShowEndpoint(e))
  {
    hide Itoa, IsWSURL, ParseEndpoint, BracketedIPv6;
    var port := Itoa(e.port);
    DigitsArePlain(port);
    var host := if ':' in e.host then "[" + e.host + "]" else e.host;
    var s := host + ":" + port;
    assert ShowEndpoint(e) == s && s[|s| - 1] == port[|port| - 1] && s[0] == host[0];
    NotWSURL(host, port);
  }

  /** A host in brackets has a colon inside, and its characters come from the brackets. */
  lemma {:induction false} BracketedHost(cx: Codecs, host: string)
    requires BracketedIPv6(cx, host)
    ensures var inner := host[1..|host| - 1]; host == "[" + inner + "]" && ':' in inner
  {
    hide LastIndexOf;
    var inner := host[1..|host| - 1];
    assert inner[IndexOf(host, ':') - 1] == ':';
  }

  /** What parseEndpoint accepts is such an endpoint. */
  lemma {:induction false} ParsedEndpointIsGood(cx: Codecs, s: string)
    requires PlainValue(s) && ParseEndpoint(cx, s).Ok?
    ensures GoodEndpoint(cx, ParseEndpoint(cx, s).value)
  {
    hide BracketedIPv6, LastIndexOf, ParsePort;
    var host := s[..LastIndexOf(s, ':')];
    if BracketedIPv6(cx, host) {
      BracketedHost(cx, host);
    }
    assert host[0] == s[0];
  }
}
