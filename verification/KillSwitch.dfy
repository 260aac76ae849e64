/**
 * The kill switch: the editor's rewriting of the allowed IPs (ui/editdialog.go), the firewall's
 * decision (tunnel/addressconfig.go) and the test for a default route
 * (tunnel/defaultroutemonitor.go).
 */
module KillSwitch {
  import opened Text
  import opened Netip
  import opened Config
  import opened WgQuickParser
  import opened WgQuickWriter
  import opened WgQuickLaws
  import opened WgQuickCanonical
  import opened WgQuickRoundTrip
  import opened WgQuickInvariant

  const TWO_31: nat := 0x8000_0000
  const TWO_127: nat := 0x8000_0000_0000_0000_0000_0000_0000_0000

  /** The whole family, and its lower and upper halves. */
  function All(is6: bool): Prefix {
    Prefix(Addr(is6, 0, ""), 0)
  }

  function Low(is6: bool): Prefix {
    Prefix(Addr(is6, 0, ""), 1)
  }

  function High(is6: bool): Prefix {
    Prefix(Addr(is6, if is6 then TWO_127 else TWO_31, ""), 1)
  }

  // ----- Addresses -----

  /** The address has the network bits of the prefix. */
  predicate Covers(p: Prefix, a: Addr) {
    && p.addr.is6 == a.is6 && p.bits <= BitLen(p.addr)
    && p.addr.value / Power2(HostBits(p)) == a.value / Power2(HostBits(p))
  }

  predicate Covered(ips: seq<Prefix>, a: Addr) {
    exists p :: p in ips && Covers(p, a)
  }

  lemma {:induction false} Doubling(n: nat)
    ensures Power2(n + 4) == 16 * Power2(n)
  {
    assert Power2(n + 4) == 2 * Power2(n + 3) && Power2(n + 3) == 2 * Power2(n + 2)
      && Power2(n + 2) == 2 * Power2(n + 1);
  }

  lemma {:induction false} Doubling16(n: nat)
    ensures Power2(n + 16) == 0x1_0000 * Power2(n)
  {
    hide Power2;
    Doubling(n);
    Doubling(n + 4);
    Doubling(n + 8);
    Doubling(n + 12);
  }

  lemma {:induction false} Twice(n: nat)
    ensures Power2(0) == 1 && Power2(n + 1) == 2 * Power2(n)
  {
  }

  lemma {:induction false} Powers2()
    ensures Power2(32) == TWO_32 && Power2(31) == TWO_31 && Power2(128) == TWO_128 && Power2(127) == TWO_127
  {
    hide Power2;
    Twice(31);
    Twice(127);
    Doubling16(0);
    Doubling16(16);
    Doubling16(32);
    Doubling16(48);
    Doubling16(64);
    Doubling16(80);
    Doubling16(96);
    Doubling16(112);
  }

  /** The two halves cover what the whole covers. */
  lemma {:induction false} Halves(is6: bool, a: Addr)
    requires ValidAddr(a)
    ensures Covers(All(is6), a) <==> a.is6 == is6
    ensures Covers(All(is6), a) <==> Covers(Low(is6), a) || Covers(High(is6), a)
  {
    Powers2();
    var half := if is6 then TWO_127 else TWO_31;
    assert HostBits(All(is6)) == if is6 then 128 else 32;
    assert HostBits(Low(is6)) == HostBits(High(is6)) == if is6 then 127 else 31;
    if a.is6 == is6 {
      assert a.value / half == 0 || a.value / half == 1;
    }
  }

  // ----- The rewriting -----

  function Without(ips: seq<Prefix>, drop: set<Prefix>): seq<Prefix> {
    if ips == [] then []
    else Without(ips[..|ips| - 1], drop) + if ips[|ips| - 1] in drop then [] else [ips[|ips| - 1]]
  }

  const HALVES := {Low(false), High(false), Low(true), High(true)}
  const WHOLES := {All(false), All(true)}

  /** What the halves of a family become when the switch goes on. */
  function Joined(ips: seq<Prefix>, is6: bool): seq<Prefix> {
    if Low(is6) in ips && High(is6) in ips then [All(is6)]
    else if Low(is6) in ips then [Low(is6)]
    else if High(is6) in ips then [High(is6)]
    else []
  }

  predicate BothHalves(ips: seq<Prefix>, is6: bool) {
    Low(is6) in ips && High(is6) in ips
  }

  function On(ips: seq<Prefix>): Option<seq<Prefix>> {
    if BothHalves(ips, false) || BothHalves(ips, true) then
      Some(Without(ips, HALVES) + Joined(ips, false) + Joined(ips, true))
    else None
  }

  function Halved(ips: seq<Prefix>, is6: bool): seq<Prefix> {
    if All(is6) in ips then [Low(is6), High(is6)] else []
  }

  function Off(ips: seq<Prefix>): Option<seq<Prefix>> {
    if All(false) in ips || All(true) in ips then
      Some(Without(ips, WHOLES) + Halved(ips, false) + Halved(ips, true))
    else None
  }

  function Toggled(ips: seq<Prefix>, block: bool): Option<seq<Prefix>> {
    if block then On(ips) else Off(ips)
  }

  lemma {:induction false} InWithout(ips: seq<Prefix>, drop: set<Prefix>, p: Prefix)
    ensures p in Without(ips, drop) <==> p in ips && p !in drop
  {
    if ips == [] {
    } else {
      assert ips == ips[..|ips| - 1] + [ips[|ips| - 1]];
      InWithout(ips[..|ips| - 1], drop, p);
    }
  }

  predicate InJoined(ips: seq<Prefix>, is6: bool, p: Prefix) {
    if BothHalves(ips, is6) then p == All(is6) else (p == Low(is6) || p == High(is6)) && p in ips
  }

  predicate InHalved(ips: seq<Prefix>, is6: bool, p: Prefix) {
    (p == Low(is6) || p == High(is6)) && All(is6) in ips
  }

  lemma {:induction false} InOn(ips: seq<Prefix>, p: Prefix)
    requires On(ips).Some?
    ensures p in On(ips).value <==> (p in ips && p !in HALVES) || InJoined(ips, false, p) || InJoined(ips, true, p)
  {
    InWithout(ips, HALVES, p);
    assert p in Joined(ips, false) <==> InJoined(ips, false, p);
    assert p in Joined(ips, true) <==> InJoined(ips, true, p);
  }

  lemma {:induction false} InOff(ips: seq<Prefix>, p: Prefix)
    requires Off(ips).Some?
    ensures p in Off(ips).value <==> (p in ips && p !in WHOLES) || InHalved(ips, false, p) || InHalved(ips, true, p)
  {
    InWithout(ips, WHOLES, p);
    assert p in Halved(ips, false) <==> InHalved(ips, false, p);
    assert p in Halved(ips, true) <==> InHalved(ips, true, p);
  }

  lemma {:induction false} ToggledIsValid(ips: seq<Prefix>, block: bool)
    requires ValidPrefixes(ips) && Toggled(ips, block).Some?
    ensures ValidPrefixes(Toggled(ips, block).value) && Toggled(ips, block).value != []
  {
    hide On, Off;
    forall p | p in Toggled(ips, block).value ensures ValidPrefix(p) {
      if block { InOn(ips, p); } else { InOff(ips, p); }
    }
    NotEmpty(ips, block);
  }

  lemma {:induction false} NotEmpty(ips: seq<Prefix>, block: bool)
    requires Toggled(ips, block).Some?
    ensures Toggled(ips, block).value != []
  {
  }

  // ----- The addresses covered stay the same -----

  lemma {:induction false} OnCovers(ips: seq<Prefix>, a: Addr)
    requires On(ips).Some? && ValidAddr(a)
    ensures Covered(On(ips).value, a) <==> Covered(ips, a)
  {
    hide On, Covers;
    Halves(false, a);
    Halves(true, a);
    if Covered(On(ips).value, a) {
      var p :| p in On(ips).value && Covers(p, a);
      InOn(ips, p);
      assert p !in ips ==> BothHalves(ips, p.addr.is6) && p == All(p.addr.is6);
    }
    if Covered(ips, a) {
      var p :| p in ips && Covers(p, a);
      InOn(ips, p);
      InOn(ips, All(p.addr.is6));
      assert p !in On(ips).value ==> All(p.addr.is6) in On(ips).value && Covers(All(p.addr.is6), a);
    }
  }

  lemma {:induction false} OffCovers(ips: seq<Prefix>, a: Addr)
    requires Off(ips).Some? && ValidAddr(a)
    ensures Covered(Off(ips).value, a) <==> Covered(ips, a)
  {
    hide Off, Covers;
    Halves(false, a);
    Halves(true, a);
    if Covered(Off(ips).value, a) {
      var p :| p in Off(ips).value && Covers(p, a);
      InOff(ips, p);
      assert p !in ips ==> All(p.addr.is6) in ips && Covers(All(p.addr.is6), a);
    }
    if Covered(ips, a) {
      var p :| p in ips && Covers(p, a);
      var is6 := p.addr.is6;
      InOff(ips, p);
      InOff(ips, Low(is6));
      InOff(ips, High(is6));
      assert p !in Off(ips).value ==> p == All(is6) && Low(is6) in Off(ips).value && High(is6) in Off(ips).value;
    }
  }

  // ----- The default route stays -----

  /** hasDefaultRoute on one list. */
  predicate HasDefault(ips: seq<Prefix>, is6: bool) {
    All(is6) in ips || BothHalves(ips, is6)
  }

  lemma {:induction false} ToggleKeepsDefault(ips: seq<Prefix>, block: bool, is6: bool)
    requires Toggled(ips, block).Some?
    ensures HasDefault(Toggled(ips, block).value, is6) <==> HasDefault(ips, is6)
  {
    hide On, Off;
    if block {
      InOn(ips, All(is6));
      InOn(ips, Low(is6));
      InOn(ips, High(is6));
    } else {
      InOff(ips, All(is6));
      InOff(ips, Low(is6));
      InOff(ips, High(is6));
    }
  }

  /** For the configuration as a whole, which has one peer. */
  lemma {:induction false} ToggleKeepsDefaultRoute(c: Config, block: bool, is6: bool)
    requires |c.peers| == 1 && Toggled(c.peers[0].allowedIPs, block).Some?
    ensures var c' := WithIPs(c, Toggled(c.peers[0].allowedIPs, block).value);
      HasDefault(Flatten(c'.peers), is6) <==> HasDefault(Flatten(c.peers), is6)
  {
    hide HasDefault, Toggled;
    var ips := c.peers[0].allowedIPs;
    ToggleKeepsDefault(ips, block, is6);
    assert c.peers[..0] == [] && [] + ips == ips;
    var after := Toggled(ips, block).value;
    var ps := WithIPs(c, after).peers;
    assert ps[..0] == [] && [] + after == after;
  }

  // ----- The firewall -----

  predicate IsWhole(p: Prefix) {
    p.bits == 0 && p == Masked(p)
  }

  /** enableFirewall blocks what is not tunnelled. */
  predicate Restricts(c: Config) {
    |c.peers| == 1 && !c.iface.tableOff && exists p :: p in c.peers[0].allowedIPs && IsWhole(p)
  }

  lemma {:induction false} WholeIsAll(p: Prefix)
    requires ValidPrefix(p)
    ensures IsWhole(p) <==> p == All(p.addr.is6)
  {
    Powers2();
    if p.bits == 0 { assert HostBits(p) == if p.addr.is6 then 128 else 32; }
  }

  function WithIPs(c: Config, ips: seq<Prefix>): Config
    requires |c.peers| == 1
  {
    c.(peers := [c.peers[0].(allowedIPs := ips)])
  }

  /** On, the firewall restricts; off, it does not; and never when the routes are left alone. */
  lemma {:induction false} ToggleDecides(c: Config, block: bool)
    requires |c.peers| == 1
    requires ValidPrefixes(c.peers[0].allowedIPs) && Toggled(c.peers[0].allowedIPs, block).Some?
    ensures Restricts(WithIPs(c, Toggled(c.peers[0].allowedIPs, block).value)) <==> block && !c.iface.tableOff
  {
    hide On, Off, IsWhole;
    var ips := c.peers[0].allowedIPs;
    var after := Toggled(ips, block).value;
    ToggledIsValid(ips, block);
    if block {
      var is6 := JoinedFamily(ips);
      InOn(ips, All(is6));
      WholeIsAll(All(is6));
      assert WithIPs(c, after).peers[0].allowedIPs == after;
    } else {
      forall p | p in after ensures !IsWhole(p) {
        WholeIsAll(p);
        InOff(ips, p);
      }
    }
  }

  lemma {:induction false} JoinedFamily(ips: seq<Prefix>) returns (is6: bool)
    requires On(ips).Some?
    ensures BothHalves(ips, is6)
  {
    is6 := BothHalves(ips, true);
  }

  // ----- The editor's text -----

  /** The rewritten configuration is one the parser could have read, so the editor's new text
      reads back as exactly that configuration. */
  lemma {:induction false} ToggledText(cx: Codecs, text: string, name: string, block: bool)
    requires Lawful(cx) && Parse(cx, text, name).Ok?
    requires forall is6 :: GoodPrefix(cx, All(is6)) && GoodPrefix(cx, Low(is6)) && GoodPrefix(cx, High(is6))
    requires var c := Parse(cx, text, name).value; |c.peers| == 1 && Toggled(c.peers[0].allowedIPs, block).Some?
    ensures var c := Parse(cx, text, name).value;
      var c' := WithIPs(c, Toggled(c.peers[0].allowedIPs, block).value);
      Parse(cx, Show(cx, c'), name) == Ok(c')
  {
    hide Parse, Show, GoodInterface, Toggled;
    var c := Parse(cx, text, name).value;
    var ips := Toggled(c.peers[0].allowedIPs, block).value;
    ParsedIsCanonical(cx, text, name);
    ToggledIsGood(cx, c.peers[0], block);
    WithIPsIsCanonical(cx, c, ips);
    ParseShow(cx, WithIPs(c, ips));
  }

  lemma {:induction false} ToggledIsGood(cx: Codecs, p: Peer, block: bool)
    requires GoodPeer(cx, p) && Toggled(p.allowedIPs, block).Some?
    requires forall is6 :: GoodPrefix(cx, All(is6)) && GoodPrefix(cx, Low(is6)) && GoodPrefix(cx, High(is6))
    ensures GoodPrefixes(cx, Toggled(p.allowedIPs, block).value) && Toggled(p.allowedIPs, block).value != []
  {
    hide On, Off, GoodPrefix;
    assert GoodPeerEntry(cx, p, AllowedIPs);
    var ips := Toggled(p.allowedIPs, block).value;
    forall k | 0 <= k < |ips| ensures GoodPrefix(cx, ips[k]) {
      if block { InOn(p.allowedIPs, ips[k]); } else { InOff(p.allowedIPs, ips[k]); }
    }
    NotEmpty(p.allowedIPs, block);
  }

  lemma {:induction false} WithIPsIsCanonical(cx: Codecs, c: Config, ips: seq<Prefix>)
    requires Canonical(cx, c) && |c.peers| == 1 && GoodPrefixes(cx, ips) && ips != []
    ensures Canonical(cx, WithIPs(c, ips))
  {
    hide GoodInterface, GoodPrefix, PrunedRun, ValidateWSPeer;
    var p, q := c.peers[0], WithIPs(c, ips).peers[0];
    forall f ensures GoodPeerEntry(cx, q, f) && (p.wsMode.NoWS? && IsWSSetting(f) ==> !HasWSSetting(cx, q, f)) {
      assert GoodPeerEntry(cx, p, f);
      SlotStays(cx, p, ips, f);
    }
    WSRulesStay(p, ips);
  }

  lemma {:induction false} SlotStays(cx: Codecs, p: Peer, ips: seq<Prefix>, f: Field)
    ensures IsWSSetting(f) ==> PeerSlot(cx, p.(allowedIPs := ips), f) == PeerSlot(cx, p, f)
  {
  }

  lemma {:induction false} WSRulesStay(p: Peer, ips: seq<Prefix>)
    ensures ValidateWSPeer(p.(allowedIPs := ips), []) == ValidateWSPeer(p, [])
  {
  }

  // ----- The loops -----

  /** The handler with the switch going on. */
  method SwitchOn(ips: seq<Prefix>) returns (r: Option<seq<Prefix>>)
    ensures r == On(ips)
  {
    var newIPs: seq<Prefix> := [];
    var foundLow4, foundHigh4, foundLow6, foundHigh6 := false, false, false, false;
    for i := 0 to |ips|
      invariant newIPs == Without(ips[..i], HALVES)
      invariant foundLow4 <==> Low(false) in ips[..i]
      invariant foundHigh4 <==> High(false) in ips[..i]
      invariant foundLow6 <==> Low(true) in ips[..i]
      invariant foundHigh6 <==> High(true) in ips[..i]
    {
      var ip := ips[i];
      assert ips[..i + 1] == ips[..i] + [ip];
      if ip == Low(true) {
        foundLow6 := true;
      } else if ip == High(true) {
        foundHigh6 := true;
      } else if ip == Low(false) {
        foundLow4 := true;
      } else if ip == High(false) {
        foundHigh4 := true;
      } else {
        newIPs := newIPs + [ip];
      }
    }
    assert ips[..|ips|] == ips;
    ghost var rest := newIPs;
    if !((foundLow4 && foundHigh4) || (foundLow6 && foundHigh6)) {
      return None;
    }
    if foundLow4 && foundHigh4 {
      newIPs := newIPs + [All(false)];
    } else if foundLow4 {
      newIPs := newIPs + [Low(false)];
    } else if foundHigh4 {
      newIPs := newIPs + [High(false)];
    }
    assert newIPs == rest + Joined(ips, false);
    if foundLow6 && foundHigh6 {
      newIPs := newIPs + [All(true)];
    } else if foundLow6 {
      newIPs := newIPs + [Low(true)];
    } else if foundHigh6 {
      newIPs := newIPs + [High(true)];
    }
    assert newIPs == rest + Joined(ips, false) + Joined(ips, true);
    r := Some(newIPs);
  }

  method SwitchOff(ips: seq<Prefix>) returns (r: Option<seq<Prefix>>)
    ensures r == Off(ips)
  {
    var newIPs: seq<Prefix> := [];
    var found4, found6 := false, false;
    for i := 0 to |ips|
      invariant newIPs == Without(ips[..i], WHOLES)
      invariant found4 <==> All(false) in ips[..i]
      invariant found6 <==> All(true) in ips[..i]
    {
      var ip := ips[i];
      assert ips[..i + 1] == ips[..i] + [ip];
      if ip == All(true) {
        found6 := true;
      } else if ip == All(false) {
        found4 := true;
      } else {
        newIPs := newIPs + [ip];
      }
    }
    assert ips[..|ips|] == ips;
    ghost var rest := newIPs;
    if !(found4 || found6) {
      return None;
    }
    if found4 {
      newIPs := newIPs + [Low(false)];
      newIPs := newIPs + [High(false)];
    }
    assert newIPs == rest + Halved(ips, false);
    if found6 {
      newIPs := newIPs + [Low(true)];
      newIPs := newIPs + [High(true)];
    }
    assert newIPs == rest + Halved(ips, false) + Halved(ips, true);
    r := Some(newIPs);
  }

  /** enableFirewall's decision. */
  method DoNotRestrict(c: Config) returns (doNotRestrict: bool)
    ensures doNotRestrict <==> !Restricts(c)
    ensures c.iface.tableOff || |c.peers| != 1 ==> doNotRestrict
  {
    doNotRestrict := true;
    if |c.peers| == 1 && !c.iface.tableOff {
      var ips := c.peers[0].allowedIPs;
      for i := 0 to |ips|
        invariant doNotRestrict && forall p :: p in ips[..i] ==> !IsWhole(p)
      {
        assert ips[..i + 1] == ips[..i] + [ips[i]];
        if ips[i].bits == 0 && ips[i] == Masked(ips[i]) {
          doNotRestrict := false;
          assert ips[i] in ips && IsWhole(ips[i]);
          return;
        }
      }
      assert ips[..|ips|] == ips;
    }
  }

  /** hasDefaultRoute over all peers. */
  method HasDefaultRoute(c: Config, is6: bool) returns (r: bool)
    ensures r <==> HasDefault(Flatten(c.peers), is6)
  {
    var foundHalf0, foundHalf1, foundFull := false, false, false;
    for i := 0 to |c.peers|
      invariant foundFull <==> All(is6) in Flatten(c.peers[..i])
      invariant foundHalf0 <==> Low(is6) in Flatten(c.peers[..i])
      invariant foundHalf1 <==> High(is6) in Flatten(c.peers[..i])
    {
      assert c.peers[..i + 1][..i] == c.peers[..i];
      var ips := c.peers[i].allowedIPs;
      ghost var before := Flatten(c.peers[..i]);
      for j := 0 to |ips|
        invariant foundFull <==> All(is6) in before + ips[..j]
        invariant foundHalf0 <==> Low(is6) in before + ips[..j]
        invariant foundHalf1 <==> High(is6) in before + ips[..j]
      {
        assert before + ips[..j + 1] == before + ips[..j] + [ips[j]];
        if ips[j] == All(is6) {
          foundFull := true;
        } else if ips[j] == Low(is6) {
          foundHalf0 := true;
        } else if ips[j] == High(is6) {
          foundHalf1 := true;
        }
      }
      assert before + ips[..|ips|] == Flatten(c.peers[..i + 1]);
    }
    assert c.peers[..|c.peers|] == c.peers;
    r := foundFull || (foundHalf0 && foundHalf1);
  }

  /** The allowed IPs of all peers. */
  function Flatten(ps: seq<Peer>): seq<Prefix> {
    if ps == [] then [] else Flatten(ps[..|ps| - 1]) + ps[|ps| - 1].allowedIPs
  }
}
