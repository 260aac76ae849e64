/**
 * Lines of the form key and value, and what a list of them says about a setting: the last line
 * with a key decides a single value, and all of them together make up a list.
 */
module Entries {
  import opened Text
  import opened Netip
  import opened Config
  import opened WgQuickParser

  datatype Entry = Entry(key: string, val: string)

  /** The value on the last line with the key. */
  function Last(es: seq<Entry>, key: string): Option<string> {
    if es == [] then None
    else
      var later := Last(es[1..], key);
      if later.Some? then later else if es[0].key == key then Some(es[0].val) else None
  }

  /** The values on all lines with the key, in order. */
  function Values(es: seq<Entry>, key: string): seq<string> {
    if es == [] then [] else (if es[0].key == key then [es[0].val] else []) + Values(es[1..], key)
  }

  /** The trimmed items of a comma-separated list. */
  function ItemsOf(val: string): (r: seq<string>)
    ensures |r| == |Split(val, ',')|
  {
    var parts := Split(val, ',');
    seq(|parts|, i requires 0 <= i < |parts| => TrimSpace(parts[i]))
  }

  /** The items of the lists on all lines with the key, in order. */
  function AllItems(es: seq<Entry>, key: string): seq<string> {
    if es == [] then [] else (if es[0].key == key then ItemsOf(es[0].val) else []) + AllItems(es[1..], key)
  }

  lemma {:induction false} LastAppend(a: seq<Entry>, b: seq<Entry>, key: string)
    ensures Last(a + b, key) == if Last(b, key).Some? then Last(b, key) else Last(a, key)
  {
    if a == [] {
      assert a + b == b;
    } else {
      assert (a + b)[1..] == a[1..] + b;
      LastAppend(a[1..], b, key);
    }
  }

  lemma {:induction false} ValuesAppend(a: seq<Entry>, b: seq<Entry>, key: string)
    ensures Values(a + b, key) == Values(a, key) + Values(b, key)
  {
    if a == [] {
      assert a + b == b;
    } else {
      assert (a + b)[1..] == a[1..] + b;
      ValuesAppend(a[1..], b, key);
    }
  }

  lemma {:induction false} AllItemsAppend(a: seq<Entry>, b: seq<Entry>, key: string)
    ensures AllItems(a + b, key) == AllItems(a, key) + AllItems(b, key)
  {
    hide ItemsOf;
    if a == [] {
      assert a + b == b;
    } else {
      assert (a + b)[1..] == a[1..] + b;
      AllItemsAppend(a[1..], b, key);
    }
  }

  /** A list of one line. */
  lemma {:induction false} OneEntry(e: Entry, key: string)
    ensures Last([e], key) == if e.key == key then Some(e.val) else None
    ensures Values([e], key) == if e.key == key then [e.val] else []
    ensures AllItems([e], key) == if e.key == key then ItemsOf(e.val) else []
  {
    assert [e][1..] == [];
  }

  // ----- What a value says -----

  /** An address range, or an address standing for itself alone. */
  predicate ReadsPrefix(cx: Codecs, text: string, p: Prefix) {
    if cx.parsePrefix(text).Some? then p == cx.parsePrefix(text).value
    else
      var a := cx.parseAddr(text);
      a.Some? && p == Prefix(a.value.(zone := ""), if a.value.is6 then 128 else 32)
  }

  /** The texts, in order, say what was added to a list. */
  predicate Appended(cx: Codecs, texts: seq<string>, before: seq<Prefix>, after: seq<Prefix>) {
    && |after| == |before| + |texts| && after[..|before|] == before
    && forall i :: 0 <= i < |texts| ==> ReadsPrefix(cx, texts[i], after[|before| + i])
  }

  lemma {:induction false} AppendedTwice(cx: Codecs, s: seq<string>, t: seq<string>,
                                         a: seq<Prefix>, b: seq<Prefix>, c: seq<Prefix>)
    requires Appended(cx, s, a, b) && Appended(cx, t, b, c)
    ensures Appended(cx, s + t, a, c)
  {
    hide ReadsPrefix;
    assert c[..|a|] == c[..|b|][..|a|] == a;
    forall i | 0 <= i < |s + t| ensures ReadsPrefix(cx, (s + t)[i], c[|a| + i]) {
      if i < |s| {
        assert c[|a| + i] == c[..|b|][|a| + i] == b[|a| + i];
        assert ReadsPrefix(cx, s[i], b[|a| + i]);
      } else {
        assert ReadsPrefix(cx, t[i - |s|], c[|b| + (i - |s|)]);
      }
    }
  }

  /** A number: the one given, or the one there was. */
  predicate ReadsNumber(v: Option<string>, min: nat, max: nat, before: nat, after: nat) {
    if v.None? then after == before else Atoi(v.value) == Some(after) && min <= after <= max
  }

  predicate IsCount(text: string, max: nat) {
    text != "" && AllDigits(text) && Digits(text) <= max
  }

  /** Without sign. */
  predicate ReadsCount(v: Option<string>, max: nat, before: nat, after: nat) {
    if v.None? then after == before else IsCount(v.value, max) && after == Digits(v.value)
  }

  /** "off", or a number of seconds. */
  predicate ReadsKeepalive(v: Option<string>, before: nat, after: nat) {
    if v == Some("off") then after == 0 else ReadsNumber(v, 0, 65535, before, after)
  }

  predicate ReadsText(v: Option<string>, before: string, after: string) {
    after == if v.None? then before else v.value
  }

  predicate ReadsBool(v: Option<string>, before: bool, after: bool) {
    if v.None? then after == before else v.value == if after then "true" else "false"
  }
}
