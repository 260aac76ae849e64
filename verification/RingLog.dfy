/**
 * The log shared between the processes (ringlogger/ringlogger.go): 2048 slots of 512 bytes
 * and a 32-bit counter that wraps around. A complete write is one step.
 */
module RingLog {
  import opened Config
  import opened Bytes
  import opened Netip

  const MAX_LINE := 512
  const MAX_TAG := 5
  const MAX_LINES := 2048
  const CURSOR_ALL := TWO_32 - 1

  // ----- Lines -----

  /** The UTF-8 encodings of the characters for which unicode.IsSpace holds. */
  const SPACES: seq<seq<byte>> := [
    [9], [10], [11], [12], [13], [32], [0xC2, 0x85], [0xC2, 0xA0], [0xE1, 0x9A, 0x80],
    [0xE2, 0x80, 0x80], [0xE2, 0x80, 0x81], [0xE2, 0x80, 0x82], [0xE2, 0x80, 0x83], [0xE2, 0x80, 0x84],
    [0xE2, 0x80, 0x85],
    [0xE2, 0x80, 0x86], [0xE2, 0x80, 0x87], [0xE2, 0x80, 0x88], [0xE2, 0x80, 0x89], [0xE2, 0x80, 0x8A],
    [0xE2, 0x80, 0xA8], [0xE2, 0x80, 0xA9], [0xE2, 0x80, 0xAF], [0xE2, 0x81, 0x9F], [0xE3, 0x80, 0x80]]

  predicate InSpaces(s: seq<byte>) {
    s in SPACES
  }

  predicate IsSpaceRune(s: seq<byte>) {
    0 < |s| <= 3 && InSpaces(s)
  }

  /** The length of the white space at the front, 0 if there is none. */
  function SpaceInFront(p: seq<byte>): (k: nat)
    ensures k <= |p|
  {
    if |p| >= 1 && IsSpaceRune(p[..1]) then 1
    else if |p| >= 2 && IsSpaceRune(p[..2]) then 2
    else if |p| >= 3 && IsSpaceRune(p[..3]) then 3
    else 0
  }

  function SpaceAtEnd(p: seq<byte>): (k: nat)
    ensures k <= |p|
  {
    if |p| >= 1 && IsSpaceRune(p[|p| - 1..]) then 1
    else if |p| >= 2 && IsSpaceRune(p[|p| - 2..]) then 2
    else if |p| >= 3 && IsSpaceRune(p[|p| - 3..]) then 3
    else 0
  }

  lemma {:induction false} NoSpaceInFront(p: seq<byte>, j: nat)
    requires SpaceInFront(p) == 0 && j <= |p|
    ensures !IsSpaceRune(p[..j])
  {
    hide InSpaces;
    assert j == 1 || j == 2 || j == 3 || !IsSpaceRune(p[..j]);
  }

  lemma {:induction false} NoSpaceAtEnd(p: seq<byte>, j: nat)
    requires SpaceAtEnd(p) == 0 && j <= |p|
    ensures !IsSpaceRune(p[|p| - j..])
  {
    hide InSpaces;
    assert j == 1 || j == 2 || j == 3 || !IsSpaceRune(p[|p| - j..]);
  }

  function TrimFront(p: seq<byte>): seq<byte>
    decreases |p|
  {
    var k := SpaceInFront(p);
    if k == 0 then p else TrimFront(p[k..])
  }

  function TrimEnd(p: seq<byte>): seq<byte>
    decreases |p|
  {
    var k := SpaceAtEnd(p);
    if k == 0 then p else TrimEnd(p[..|p| - k])
  }

  /** bytes.TrimSpace. */
  function Trim(p: seq<byte>): seq<byte> {
    TrimEnd(TrimFront(p))
  }

  /** The bytes before the first NUL. */
  function UpToNul(s: seq<byte>): seq<byte> {
    if s == [] || s[0] == 0 then [] else [s[0]] + UpToNul(s[1..])
  }

  /** bytes.IndexByte for NUL. */
  function IndexNul(s: seq<byte>): int {
    if s == [] then -1
    else if s[0] == 0 then 0
    else
      var i := IndexNul(s[1..]);
      if i < 0 then -1 else i + 1
  }

  function Min(a: int, b: int): int {
    if a <= b then a else b
  }

  const LEFT: byte := 91
  const RIGHT: byte := 93
  const SPACE: byte := 32

  /** The bracketed tag and the message, cut to 511 bytes. */
  function LineText(tag: seq<byte>, p: seq<byte>): (r: seq<byte>)
    requires |tag| <= MAX_TAG
    ensures |r| < MAX_LINE
  {
    [LEFT] + tag + [RIGHT, SPACE] + p[..Min(|p|, MAX_LINE - 4 - |tag|)]
  }

  lemma {:induction false} IndexOfPadded(s: seq<byte>, n: nat)
    requires n > 0
    ensures IndexNul(s + Zeros(n)) == |UpToNul(s)| <= |s|
    ensures s[..|UpToNul(s)|] == UpToNul(s)
  {
    var t := s + Zeros(n);
    if s != [] && s[0] != 0 {
      assert t[1..] == s[1..] + Zeros(n);
      IndexOfPadded(s[1..], n);
    } else if s == [] {
      assert t[0] == 0;
    }
  }

  /** A line without NUL is shown whole. */
  lemma {:induction false} NulFree(s: seq<byte>)
    requires 0 !in s
    ensures UpToNul(s) == s
  {
    if s == [] {
    } else {
      NulFree(s[1..]);
    }
  }

  function Concat(ss: seq<seq<byte>>): seq<byte> {
    if ss == [] then [] else ss[0] + Concat(ss[1..])
  }

  lemma {:induction false} ConcatAppend(ss: seq<seq<byte>>, s: seq<byte>)
    ensures Concat(ss + [s]) == Concat(ss) + s
  {
    if ss == [] {
      assert [s][1..] == [];
    } else {
      assert (ss + [s])[1..] == ss[1..] + [s];
      ConcatAppend(ss[1..], s);
    }
  }

  predicate AllSpaces(ss: seq<seq<byte>>) {
    forall s :: s in ss ==> IsSpaceRune(s)
  }

  lemma {:induction false} SpaceStarts(p: seq<byte>)
    requires SpaceInFront(p) > 0
    ensures IsSpaceRune(p[..SpaceInFront(p)])
  {
    hide InSpaces;
  }

  lemma {:induction false} FrontTrimmed(p: seq<byte>) returns (a: seq<seq<byte>>)
    ensures AllSpaces(a) && p == Concat(a) + TrimFront(p)
    ensures SpaceInFront(TrimFront(p)) == 0
    decreases |p|
  {
    hide IsSpaceRune, SpaceInFront;
    var k := SpaceInFront(p);
    a := [];
    if k == 0 {
    } else {
      var rest := FrontTrimmed(p[k..]);
      SpaceStarts(p);
      a := [p[..k]] + rest;
      assert a[1..] == rest;
    }
  }

  lemma {:induction false} SpaceEnds(p: seq<byte>)
    requires SpaceAtEnd(p) > 0
    ensures IsSpaceRune(p[|p| - SpaceAtEnd(p)..])
  {
    hide InSpaces;
  }

  lemma {:induction false} ConcatNone()
    ensures Concat([]) == []
  {
  }

  lemma {:induction false} EndTrimmed(p: seq<byte>) returns (b: seq<seq<byte>>)
    ensures AllSpaces(b) && p == TrimEnd(p) + Concat(b)
    ensures SpaceAtEnd(TrimEnd(p)) == 0
    decreases |p|
  {
    hide IsSpaceRune, SpaceAtEnd, Concat;
    var k := SpaceAtEnd(p);
    b := [];
    ConcatNone();
    if k == 0 {
    } else {
      var rest := EndTrimmed(p[..|p| - k]);
      SpaceEnds(p);
      b := rest + [p[|p| - k..]];
      ConcatAppend(rest, p[|p| - k..]);
    }
  }

  /** Trimming takes away white space only, and all of it on both sides. */
  lemma {:induction false} Trimmed(p: seq<byte>) returns (a: seq<seq<byte>>, b: seq<seq<byte>>)
    ensures AllSpaces(a) && AllSpaces(b) && p == Concat(a) + Trim(p) + Concat(b)
    ensures forall j :: 0 <= j <= |Trim(p)| ==> !IsSpaceRune(Trim(p)[..j]) && !IsSpaceRune(Trim(p)[j..])
  {
    hide IsSpaceRune, TrimFront, TrimEnd, Concat, SpaceInFront, SpaceAtEnd;
    a := FrontTrimmed(p);
    b := EndTrimmed(TrimFront(p));
    forall j | 0 <= j <= |Trim(p)| ensures !IsSpaceRune(Trim(p)[..j]) && !IsSpaceRune(Trim(p)[j..]) {
      assert Trim(p)[..j] == TrimFront(p)[..j];
      NoSpaceInFront(TrimFront(p), j);
      NoSpaceAtEnd(Trim(p), |Trim(p)| - j);
    }
  }

  /** Up to 503 bytes no tag makes a message too long, and a message without NUL is shown whole. */
  lemma {:induction false} ShortLineIsWhole(tag: seq<byte>, p: seq<byte>)
    requires |tag| <= MAX_TAG && |p| <= MAX_LINE - 1 - MAX_TAG - 3
    ensures LineText(tag, p) == [LEFT] + tag + [RIGHT, SPACE] + p
    ensures 0 !in tag && 0 !in p ==> UpToNul(LineText(tag, p)) == LineText(tag, p)
  {
    if 0 !in tag && 0 !in p { NulFree(LineText(tag, p)); }
  }

  // ----- The log -----

  datatype Slot = Slot(timeNs: int, line: seq<byte>)

  /** A line of the log as a reader sees it. */
  datatype Entry = Entry(timeNs: int, text: seq<byte>)

  predicate Stores(slot: Slot, e: Entry) {
    && slot.timeNs == e.timeNs
    && 0 < IndexNul(slot.line) == |e.text| <= |slot.line|
    && slot.line[..|e.text|] == e.text
  }

  /** The last 2048 lines. */
  function Window(h: seq<Entry>): seq<Entry> {
    if |h| <= MAX_LINES then h else h[|h| - MAX_LINES..]
  }

  /** The lines a reader takes: a zero timestamp marks a slot that is empty or being written. */
  function Visible(es: seq<Entry>): seq<Entry> {
    if es == [] then []
    else Visible(es[..|es| - 1]) + if es[|es| - 1].timeNs != 0 then [es[|es| - 1]] else []
  }

  predicate Stamped(es: seq<Entry>) {
    forall e :: e in es ==> e.timeNs != 0
  }

  lemma {:induction false} VisibleAll(es: seq<Entry>)
    requires Stamped(es)
    ensures Visible(es) == es
  {
    if es == [] {
    } else {
      VisibleAll(es[..|es| - 1]);
    }
  }

  /** How many lines there are up to the last visible one. */
  function UpToVisible(es: seq<Entry>): (r: nat)
    ensures r <= |es|
  {
    if es == [] then 0
    else if es[|es| - 1].timeNs != 0 then |es|
    else UpToVisible(es[..|es| - 1])
  }

  /** The lines before the first one with a zero timestamp. */
  function Leading(es: seq<Entry>): seq<Entry> {
    if es == [] || es[0].timeNs == 0 then [] else [es[0]] + Leading(es[1..])
  }

  lemma {:induction false} LeadingAll(es: seq<Entry>)
    requires Stamped(es)
    ensures Leading(es) == es
  {
    if es == [] {
    } else {
      assert es[0] in es;
      LeadingAll(es[1..]);
    }
  }

  lemma {:induction false} LeadingPrefix(es: seq<Entry>, k: nat)
    requires k <= |es| && Stamped(es[..k]) && (k < |es| ==> es[k].timeNs == 0)
    ensures Leading(es) == es[..k]
  {
    if k == 0 {
    } else {
      assert es[0] == es[..k][0];
      assert es[1..][..k - 1] == es[..k][1..];
      LeadingPrefix(es[1..], k - 1);
    }
  }

  /** The slots from the cursor to the next one to write. */
  function Backlog(n: nat, cursor: int): nat {
    (n - cursor) % MAX_LINES
  }

  /** What a poll from the cursor returns, the log being h. */
  function Fetched(h: seq<Entry>, cursor: int): seq<Entry> {
    if cursor == CURSOR_ALL then Visible(Window(h))
    else if Backlog(|h|, cursor) > |h| then []
    else Leading(h[|h| - Backlog(|h|, cursor)..])
  }

  /** The cursor for the next poll. */
  function NextCursor(h: seq<Entry>, cursor: int): int {
    if cursor == CURSOR_ALL then
      var w := Window(h);
      if UpToVisible(w) == 0 then cursor else (|h| - |w| + UpToVisible(w)) % MAX_LINES
    else if Fetched(h, cursor) == [] then cursor
    else (cursor + |Fetched(h, cursor)|) % MAX_LINES
  }

  // ----- Arithmetic of the counter -----

  /** The wrap-around of the counter does not show in the slot number. */
  lemma {:induction false} WrapIsAligned(x: nat)
    ensures x % TWO_32 % MAX_LINES == x % MAX_LINES
  {
    var q := x / TWO_32;
    assert x == q * TWO_32 + x % TWO_32;
    assert q * TWO_32 == (q * 0x20_0000) * MAX_LINES;
    AddMultiple(x % TWO_32, q * 0x20_0000);
  }

  lemma {:induction false} AddMultiple(x: int, k: int)
    ensures (x + k * MAX_LINES) % MAX_LINES == x % MAX_LINES
  {
  }

  lemma {:induction false} SlotsDiffer(i: int, j: int)
    requires 0 < j - i < MAX_LINES
    ensures i % MAX_LINES != j % MAX_LINES
  {
  }

  lemma {:induction false} CounterSteps(n: nat, i: nat, l: nat)
    requires i == (n + l) % TWO_32
    ensures (i + 1) % TWO_32 == (n + l + 1) % TWO_32
    ensures i % MAX_LINES == (n + l) % MAX_LINES
  {
    WrapIsAligned(n + l);
  }

  class LogMem {
    var nextIndex: int
    const slots: array<Slot>
    ghost var history: seq<Entry>

    /** Slot j holds the newest of the lines numbered j, j + 2048, …; a slot not yet written
        has a zero timestamp. */
    ghost predicate Valid()
      reads this, slots
    {
      && slots.Length == MAX_LINES
      && nextIndex == |history| % TWO_32
      && (forall i {:trigger history[i]} :: 0 <= i < |history| && |history| - MAX_LINES <= i ==>
        Stores(slots[i % MAX_LINES], history[i]))
      && (forall j :: |history| <= j < MAX_LINES ==> slots[j].timeNs == 0)
    }

    /** A mapping without the magic number is zeroed. */
    constructor ()
      ensures Valid() && history == [] && fresh(slots)
    {
      nextIndex := 0;
      slots := new Slot[MAX_LINES](_ => Slot(0, Zeros(MAX_LINE)));
      history := [];
    }

    /** The slot l places after the next one to write holds the line numbered n - 2048 + l. */
    lemma {:induction false} SlotHolds(l: nat)
      requires Valid() && l < MAX_LINES
      ensures var n := |history|; var e := n - MAX_LINES + l; var slot := slots[(n + l) % MAX_LINES];
        if e >= 0 then Stores(slot, history[e]) else slot.timeNs == 0
    {
      var n := |history|;
      var e := n - MAX_LINES + l;
      AddMultiple(n + l, -1);
      assert e >= 0 ==> Stores(slots[e % MAX_LINES], history[e]);
    }

    /** The bytes of a line, built in the order of the original. */
    static method Render(tag: seq<byte>, msg: seq<byte>) returns (r: seq<byte>)
      requires |tag| <= MAX_TAG
      ensures r == LineText(tag, msg) + Zeros(MAX_LINE - |LineText(tag, msg)|)
    {
      var line := new byte[MAX_LINE];
      var p := msg;
      for i := 0 to MAX_LINE
        invariant forall k :: 0 <= k < i ==> line[k] == 0
      {
        line[i] := 0;
      }
      var textLen := 3 + |p| + |tag|;
      if textLen > MAX_LINE - 1 {
        p := p[..MAX_LINE - 1 - 3 - |tag|];
        textLen := MAX_LINE - 1;
      }
      line[textLen] := 0;
      line[0] := 0;
      Fill(line, tag, p);
      r := line[..];
      assert p == msg[..Min(|msg|, MAX_LINE - 4 - |tag|)];
    }

    /** The tag in brackets and the message; the opening bracket comes last. */
    static method Fill(line: array<byte>, tag: seq<byte>, p: seq<byte>)
      requires 3 + |tag| + |p| <= line.Length && line[0] == 0
      modifies line
      ensures line[..] == [LEFT] + tag + [RIGHT, SPACE] + p + old(line[3 + |tag| + |p|..])
    {
      Copy(line, 1, tag);
      line[1 + |tag|] := RIGHT;
      line[2 + |tag|] := SPACE;
      Copy(line, 3 + |tag|, p);
      line[0] := LEFT;
    }

    static method Copy(dst: array<byte>, at: nat, src: seq<byte>)
      requires at + |src| <= dst.Length
      modifies dst
      ensures forall k :: 0 <= k < dst.Length ==> dst[k] == if at <= k < at + |src| then src[k - at] else old(dst[k])
    {
      for i := 0 to |src|
        invariant forall k :: 0 <= k < dst.Length ==> dst[k] == if at <= k < at + i then src[k - at] else old(dst[k])
      {
        dst[at + i] := src[i];
      }
    }

    /** One complete write of a trimmed message. */
    method Put(tag: seq<byte>, p: seq<byte>, ts: int)
      requires Valid() && |tag| <= MAX_TAG
      modifies this, slots
      ensures Valid()
      ensures history == old(history) + [Entry(ts, UpToNul(LineText(tag, p)))]
    {
      var index := nextIndex;
      nextIndex := (nextIndex + 1) % TWO_32;
      var line := Render(tag, p);
      slots[index % MAX_LINES] := Slot(ts, line);
      ghost var e := Entry(ts, UpToNul(LineText(tag, p)));
      ghost var n := |history|;
      history := history + [e];
      IndexOfPadded(LineText(tag, p), MAX_LINE - |LineText(tag, p)|);
      assert LineText(tag, p)[0] == LEFT;
      CounterSteps(n, index, 0);
      forall i | 0 <= i < |history| && |history| - MAX_LINES <= i ensures Stores(slots[i % MAX_LINES], history[i]) {
        if i < n { SlotsDiffer(i, n); assert Stores(old(slots[i % MAX_LINES]), old(history[i])); }
      }
    }

    /** WriteTo: the lines from the oldest, for as long as the writer takes them. */
    method Dump(room: nat) returns (lines: seq<Entry>, ok: bool)
      requires Valid()
      ensures ok <==> |Visible(Window(history))| <= room
      ensures lines == Visible(Window(history))[..Min(room, |Visible(Window(history))|)]
    {
      hide Visible, Oldest, Stores, IndexNul, Window;
      lines := [];
      var i := nextIndex;
      OldestNone(history);
      for l := 0 to MAX_LINES
        invariant lines == Visible(Oldest(history, l)) && |lines| <= room
      {
        CounterSteps(|history|, (i + l) % TWO_32, l);
        var slot := slots[(i + l) % TWO_32 % MAX_LINES];
        SlotReads(l);
        DumpStep(history, l);
        if slot.timeNs != 0 {
          var index := IndexNul(slot.line);
          if index >= 1 {
            if |lines| == room {
              ok := false;
              return;
            }
            lines := lines + [Entry(slot.timeNs, slot.line[..index])];
          }
        }
      }
      ok := true;
    }

    /** FollowFromCursor: the lines since the cursor, and the cursor for the next poll. */
    method Follow(cursor: int) returns (lines: seq<Entry>, next: int)
      requires Valid() && 0 <= cursor < TWO_32
      ensures lines == Fetched(history, cursor)
      ensures next == NextCursor(history, cursor)
      ensures 0 <= next < TWO_32
    {
      hide Fetched, NextCursor, AllProgress, CursorProgress, Stores, IndexNul;
      hide Backlog, Visible, Oldest, Window, Leading, UpToVisible;
      lines := [];
      next := cursor;
      var i := if cursor == CURSOR_ALL then nextIndex else cursor;
      ghost var start := if cursor == CURSOR_ALL then |history| else cursor;
      ProgressStarts(history, cursor);
      for l := 0 to MAX_LINES
        invariant i == (start + l) % TWO_32 && 0 <= next < TWO_32
        invariant if cursor == CURSOR_ALL then AllProgress(history, l, lines, next)
          else CursorProgress(history, cursor, l, lines, next)
      {
        CounterSteps(start, i, l);
        WrapIsAligned(|history|);
        var slot := slots[i % MAX_LINES];
        if cursor != CURSOR_ALL && i % MAX_LINES == nextIndex % MAX_LINES {
          CursorArrives(history, cursor, l, lines, next);
          return;
        }
        if cursor == CURSOR_ALL {
          SlotReads(l);
          AllStep(history, l, lines, next);
        } else {
          CursorSlot(history, cursor, l, lines, next);
          SlotReads(MAX_LINES - Backlog(|history|, cursor) + l);
          CursorStep(history, cursor, l, lines, next);
        }
        if slot.timeNs == 0 {
          if cursor == CURSOR_ALL {
            i := (i + 1) % TWO_32;
            continue;
          } else {
            return;
          }
        }
        var index := IndexNul(slot.line);
        if index > 0 {
          lines := lines + [Entry(slot.timeNs, slot.line[..index])];
        }
        i := (i + 1) % TWO_32;
        next := i % MAX_LINES;
        WrapIsAligned(start + l + 1);
      }
      ProgressEnds(history, cursor, lines, next);
    }

    /** What a reader finds in the slot l places after the next one to write. */
    lemma {:induction false} SlotReads(l: nat)
      requires Valid() && l < MAX_LINES
      ensures var e := |history| - MAX_LINES + l; var slot := slots[(|history| + l) % MAX_LINES];
        if slot.timeNs == 0 then e < 0 || history[e].timeNs == 0
        else
          && e >= 0 && 0 < IndexNul(slot.line) <= |slot.line|
          && history[e] == Entry(slot.timeNs, slot.line[..IndexNul(slot.line)])
    {
      SlotHolds(l);
    }
  }

  /** The lines among the last 2048 found in the first l slots from the oldest. */
  function Oldest(h: seq<Entry>, l: nat): seq<Entry>
    requires l <= MAX_LINES
  {
    if |h| - MAX_LINES + l <= 0 then []
    else if |h| <= MAX_LINES then h[..|h| - MAX_LINES + l]
    else h[|h| - MAX_LINES..|h| - MAX_LINES + l]
  }

  lemma {:induction false} OldestGrows(h: seq<Entry>, l: nat)
    requires l < MAX_LINES
    ensures var e := |h| - MAX_LINES + l; Oldest(h, l + 1) == Oldest(h, l) + if e >= 0 then [h[e]] else []
  {
  }

  lemma {:induction false} VisibleAppend(a: seq<Entry>, b: seq<Entry>)
    ensures Visible(a + b) == Visible(a) + Visible(b)
  {
    if b == [] {
      assert a + b == a;
    } else {
      assert (a + b)[..|a + b| - 1] == a + b[..|b| - 1];
      VisibleAppend(a, b[..|b| - 1]);
    }
  }

  lemma {:induction false} VisibleOne(e: Entry)
    ensures Visible([e]) == if e.timeNs != 0 then [e] else []
  {
  }

  lemma {:induction false} OldestNone(h: seq<Entry>)
    ensures Visible(Oldest(h, 0)) == [] && Oldest(h, MAX_LINES) == Window(h)
  {
  }

  lemma {:induction false} DumpStep(h: seq<Entry>, l: nat)
    requires l < MAX_LINES
    ensures var e := |h| - MAX_LINES + l;
      Visible(Oldest(h, l + 1)) == Visible(Oldest(h, l)) + if e >= 0 && h[e].timeNs != 0 then [h[e]] else []
    ensures Visible(Oldest(h, l + 1)) <= Visible(Window(h))
  {
    hide Visible;
    var e := |h| - MAX_LINES + l;
    OldestGrows(h, l);
    if e >= 0 {
      VisibleAppend(Oldest(h, l), [h[e]]);
      VisibleOne(h[e]);
    }
    var w, o := Window(h), Oldest(h, l + 1);
    assert w == o + w[|o|..];
    VisibleAppend(o, w[|o|..]);
  }

  // ----- A poll, slot by slot -----

  /** A poll from CURSOR_ALL after l slots. */
  predicate AllProgress(h: seq<Entry>, l: nat, lines: seq<Entry>, next: int) {
    && l <= MAX_LINES
    && lines == Visible(Oldest(h, l))
    && var k := UpToVisible(Oldest(h, l));
       next == if k == 0 then CURSOR_ALL else (|h| - |Window(h)| + k) % MAX_LINES
  }

  /** A poll from another cursor after l slots. */
  predicate CursorProgress(h: seq<Entry>, cursor: int, l: nat, lines: seq<Entry>, next: int) {
    var d := Backlog(|h|, cursor);
    && l <= d
    && (if l == 0 then lines == [] else d <= |h| && lines == h[|h| - d..|h| - d + l] && Stamped(lines))
    && next == if l == 0 then cursor else (cursor + l) % MAX_LINES
  }

  lemma {:induction false} ProgressStarts(h: seq<Entry>, cursor: int)
    requires 0 <= cursor < TWO_32
    ensures cursor == CURSOR_ALL ==> AllProgress(h, 0, [], cursor)
    ensures cursor != CURSOR_ALL ==> CursorProgress(h, cursor, 0, [], cursor)
  {
    OldestNone(h);
  }

  lemma {:induction false} ProgressEnds(h: seq<Entry>, cursor: int, lines: seq<Entry>, next: int)
    requires if cursor == CURSOR_ALL then AllProgress(h, MAX_LINES, lines, next)
      else CursorProgress(h, cursor, MAX_LINES, lines, next)
    ensures lines == Fetched(h, cursor) && next == NextCursor(h, cursor)
  {
    OldestNone(h);
  }

  lemma {:induction false} AllStep(h: seq<Entry>, l: nat, lines: seq<Entry>, next: int)
    requires l < MAX_LINES && AllProgress(h, l, lines, next)
    ensures var e := |h| - MAX_LINES + l;
      if e >= 0 && h[e].timeNs != 0 then AllProgress(h, l + 1, lines + [h[e]], (|h| + l + 1) % MAX_LINES)
      else AllProgress(h, l + 1, lines, next)
  {
    hide Visible, Oldest, UpToVisible;
    var e := |h| - MAX_LINES + l;
    DumpStep(h, l);
    OldestGrows(h, l);
    if e >= 0 {
      var o := Oldest(h, l);
      UpToVisibleGrows(o, h[e]);
      OldestLength(h, l);
      AddMultiple(e + 1, 1);
    } else {
      assert Oldest(h, l) + [] == Oldest(h, l);
    }
  }

  lemma {:induction false} UpToVisibleGrows(es: seq<Entry>, e: Entry)
    ensures UpToVisible(es + [e]) == if e.timeNs != 0 then |es| + 1 else UpToVisible(es)
  {
    assert (es + [e])[..|es + [e]| - 1] == es;
  }

  lemma {:induction false} OldestLength(h: seq<Entry>, l: nat)
    requires l <= MAX_LINES && |h| - MAX_LINES + l >= 0
    ensures |h| - |Window(h)| + |Oldest(h, l)| == |h| - MAX_LINES + l
  {
  }

  /** The slot of a cursor, counted from the next one to write. */
  lemma {:induction false} CursorSlot(h: seq<Entry>, cursor: int, l: nat, lines: seq<Entry>, next: int)
    requires CursorProgress(h, cursor, l, lines, next) && (cursor + l) % MAX_LINES != |h| % MAX_LINES
    ensures l < Backlog(|h|, cursor) < MAX_LINES
    ensures (cursor + l) % MAX_LINES == (|h| + (MAX_LINES - Backlog(|h|, cursor) + l)) % MAX_LINES
  {
    var d := Backlog(|h|, cursor);
    var q := (|h| - cursor) / MAX_LINES;
    assert cursor + l + (q + 1) * MAX_LINES == |h| + (MAX_LINES - d + l);
    AddMultiple(cursor + l, q + 1);
    if l == d { AddMultiple(|h|, 1); }
  }

  lemma {:induction false} CursorArrives(h: seq<Entry>, cursor: int, l: nat, lines: seq<Entry>, next: int)
    requires cursor != CURSOR_ALL && CursorProgress(h, cursor, l, lines, next)
    requires (cursor + l) % MAX_LINES == |h| % MAX_LINES
    ensures lines == Fetched(h, cursor) && next == NextCursor(h, cursor)
  {
    var d := Backlog(|h|, cursor);
    var q := (|h| - cursor) / MAX_LINES;
    assert |h| == cursor + d + q * MAX_LINES;
    AddMultiple(cursor + d, q);
    if l < d { SlotsDiffer(cursor + l, cursor + d); }
    assert l == d;
    if d > 0 { LeadingAll(h[|h| - d..]); }
  }

  lemma {:induction false} CursorStep(h: seq<Entry>, cursor: int, l: nat, lines: seq<Entry>, next: int)
    requires cursor != CURSOR_ALL && CursorProgress(h, cursor, l, lines, next) && l < Backlog(|h|, cursor)
    ensures var e := |h| - Backlog(|h|, cursor) + l;
      if e < 0 || h[e].timeNs == 0 then lines == Fetched(h, cursor) && next == NextCursor(h, cursor)
      else CursorProgress(h, cursor, l + 1, lines + [h[e]], (cursor + l + 1) % MAX_LINES)
  {
    hide Leading, Visible, Window, UpToVisible;
    var d := Backlog(|h|, cursor);
    var e := |h| - d + l;
    if d <= |h| {
      if h[e].timeNs == 0 {
        assert h[|h| - d..][..l] == lines;
        LeadingPrefix(h[|h| - d..], l);
      }
    }
  }

  // ----- Writers and readers -----

  datatype WriteResult = Wrote(n: nat) | ShortWrite | EndOfFile

  /** The line a message adds; a blank message adds none. */
  function Added(tag: seq<byte>, p: seq<byte>, ts: int): seq<Entry>
    requires |tag| <= MAX_TAG
  {
    if Trim(p) == [] then [] else [Entry(ts, UpToNul(LineText(tag, Trim(p))))]
  }

  class Ringlogger {
    const tag: seq<byte>
    const readOnly: bool
    var log: LogMem?

    ghost predicate Valid()
      reads this, log, if log == null then {} else {log.slots}
    {
      && (readOnly || |tag| <= MAX_TAG)
      && (log == null || log.Valid())
    }

    constructor (log: LogMem, tag: seq<byte>, readOnly: bool)
      requires log.Valid() && (readOnly || |tag| <= MAX_TAG)
      ensures Valid() && this.log == log && this.tag == tag && this.readOnly == readOnly
    {
      this.log, this.tag, this.readOnly := log, tag, readOnly;
    }

    /** NewRinglogger refuses a long tag; an inherited mapping is only read. Opening, sizing or
        mapping the file may fail. */
    static method Open(log: LogMem, tag: seq<byte>, inherited: bool, mapped: bool) returns (rl: Ringlogger?)
      requires log.Valid()
      ensures rl == null <==> !mapped || (!inherited && |tag| > MAX_TAG)
      ensures rl != null ==> rl.Valid() && rl.log == log && rl.tag == tag && rl.readOnly == inherited && fresh(rl)
    {
      if !inherited && |tag| > MAX_TAG {
        return null;
      }
      if !mapped {
        return null;
      }
      rl := new Ringlogger(log, tag, inherited);
    }

    method WriteWithTimestamp(p: seq<byte>, ts: int) returns (r: WriteResult)
      requires Valid()
      modifies log, if log == null then {} else {log.slots}
      ensures Valid()
      ensures r == if readOnly then ShortWrite else if Trim(p) == [] || log != null then Wrote(|p|) else EndOfFile
      ensures log != null ==> log.history == old(log.history) + if readOnly then [] else Added(tag, p, ts)
    {
      if readOnly {
        return ShortWrite;
      }
      var q := Trim(p);
      if |q| == 0 {
        return Wrote(|p|);
      }
      if log == null {
        return EndOfFile;
      }
      log.Put(tag, q, ts);
      r := Wrote(|p|);
    }

    method FollowFromCursor(cursor: int) returns (lines: seq<Entry>, next: int)
      requires Valid() && 0 <= cursor < TWO_32
      ensures 0 <= next < TWO_32
      ensures log == null ==> lines == [] && next == cursor
      ensures log != null ==> lines == Fetched(log.history, cursor) && next == NextCursor(log.history, cursor)
    {
      if log == null {
        return [], cursor;
      }
      lines, next := log.Follow(cursor);
    }

    method WriteTo(room: nat) returns (lines: seq<Entry>, ok: bool)
      requires Valid()
      ensures log == null ==> lines == [] && !ok
      ensures log != null ==> (ok <==> |Visible(Window(log.history))| <= room)
      ensures log != null ==> lines == Visible(Window(log.history))[..Min(room, |Visible(Window(log.history))|)]
    {
      if log == null {
        return [], false;
      }
      lines, ok := log.Dump(room);
    }

    method Close()
      requires Valid()
      modifies this
      ensures Valid() && log == null
    {
      log := null;
    }
  }

  // ----- Writes and polls in any order -----

  /** A tag as NewRinglogger accepts it. */
  type Tag = t: seq<byte> | |t| <= MAX_TAG witness []

  /** A write by any of the processes, each with its own tag, or a poll by the reader. */
  datatype Event = Write(tag: Tag, p: seq<byte>, ts: int) | Poll

  /** The lines all polls return, one after the other. */
  function Polled(events: seq<Event>, h: seq<Entry>, cursor: int): seq<Entry> {
    if events == [] then []
    else match events[0]
      case Write(tag, p, ts) => Polled(events[1..], h + Added(tag, p, ts), cursor)
      case Poll => Fetched(h, cursor) + Polled(events[1..], h, NextCursor(h, cursor))
  }

  /** The lines there were to return: those written before the last poll. */
  function Awaited(events: seq<Event>, pending: seq<Entry>): seq<Entry> {
    if events == [] then []
    else match events[0]
      case Write(tag, p, ts) => Awaited(events[1..], pending + Added(tag, p, ts))
      case Poll => pending + Awaited(events[1..], [])
  }

  /** Between polls fewer than 2048 lines are written; before the first that finds a line,
      2048 are still allowed. */
  predicate KeepsUp(events: seq<Event>, pending: nat, first: bool) {
    if events == [] then true
    else match events[0]
      case Write(tag, p, ts) => KeepsUp(events[1..], pending + |Added(tag, p, ts)|, first)
      case Poll =>
        && pending + (if first then 0 else 1) <= MAX_LINES
        && KeepsUp(events[1..], 0, first && pending == 0)
  }

  /** The pending lines are the ones the cursor has not passed. */
  predicate Behind(h: seq<Entry>, cursor: int, pending: seq<Entry>) {
    && |pending| <= |h| && pending == h[|h| - |pending|..]
    && if cursor == CURSOR_ALL then |pending| == |h|
       else |pending| < |h| && cursor == (|h| - |pending|) % MAX_LINES
  }

  /** The number of pending lines a poll returns. */
  function Share(cursor: int, pending: nat): nat {
    if cursor == CURSOR_ALL then Min(pending, MAX_LINES) else pending % MAX_LINES
  }

  /** A poll returns the newest of the pending lines: all of them, or their number modulo 2048. */
  lemma {:induction false} PollFetches(h: seq<Entry>, cursor: int, pending: seq<Entry>)
    requires Stamped(pending) && Behind(h, cursor, pending)
    ensures var k := Share(cursor, |pending|); k <= |pending| && Fetched(h, cursor) == h[|h| - k..]
    ensures Behind(h, NextCursor(h, cursor), [])
    ensures NextCursor(h, cursor) == CURSOR_ALL <==> h == []
  {
    hide Fetched, NextCursor, Stamped;
    if cursor == CURSOR_ALL {
      assert pending == h;
      FirstPoll(h);
    } else {
      LaterPoll(h, cursor, pending);
    }
  }

  lemma {:induction false} PollIsWhole(h: seq<Entry>, cursor: int, pending: seq<Entry>)
    requires Stamped(pending) && Behind(h, cursor, pending)
    ensures Behind(h, NextCursor(h, cursor), [])
    ensures NextCursor(h, cursor) == CURSOR_ALL <==> cursor == CURSOR_ALL && pending == []
    ensures |Fetched(h, cursor)| <= |pending|
    ensures Fetched(h, cursor) == pending <==> |pending| + (if cursor == CURSOR_ALL then 0 else 1) <= MAX_LINES
  {
    hide Fetched, NextCursor;
    PollFetches(h, cursor, pending);
  }

  lemma {:induction false} FirstPoll(h: seq<Entry>)
    requires Stamped(h)
    ensures Fetched(h, CURSOR_ALL) == Window(h)
    ensures NextCursor(h, CURSOR_ALL) == if h == [] then CURSOR_ALL else |h| % MAX_LINES
  {
    var w := Window(h);
    VisibleAll(w);
    if h != [] { assert w[|w| - 1] in h; }
  }

  lemma {:induction false} LaterPoll(h: seq<Entry>, cursor: int, pending: seq<Entry>)
    requires Stamped(pending) && cursor != CURSOR_ALL && Behind(h, cursor, pending)
    ensures Fetched(h, cursor) == h[|h| - |pending| % MAX_LINES..]
    ensures NextCursor(h, cursor) == |h| % MAX_LINES
  {
    hide Leading, Visible, Window, UpToVisible;
    CursorIsBehind(|h|, |pending|);
    var d := Backlog(|h|, cursor);
    StampedEnd(h, pending, d);
    LeadingAll(h[|h| - d..]);
  }

  lemma {:induction false} StampedEnd(h: seq<Entry>, pending: seq<Entry>, d: nat)
    requires d <= |pending| <= |h| && pending == h[|h| - |pending|..] && Stamped(pending)
    ensures Stamped(h[|h| - d..])
  {
    assert h[|h| - d..] == pending[|pending| - d..];
  }

  lemma {:induction false} CursorIsBehind(n: nat, k: nat)
    requires k <= n
    ensures var c := (n - k) % MAX_LINES;
      (n - c) % MAX_LINES == k % MAX_LINES && (c + k % MAX_LINES) % MAX_LINES == n % MAX_LINES
  {
    var q, c := (n - k) / MAX_LINES, (n - k) % MAX_LINES;
    AddMultiple(k, q);
    assert n == c + k % MAX_LINES + (q + k / MAX_LINES) * MAX_LINES;
    AddMultiple(c + k % MAX_LINES, q + k / MAX_LINES);
  }

  // ----- What a reader is shown is stamped -----

  lemma {:induction false} VisibleIsStamped(es: seq<Entry>)
    ensures Stamped(Visible(es))
  {
    if es == [] {
    } else {
      VisibleIsStamped(es[..|es| - 1]);
    }
  }

  lemma {:induction false} LeadingIsStamped(es: seq<Entry>)
    ensures Stamped(Leading(es))
  {
    if es == [] {
    } else {
      LeadingIsStamped(es[1..]);
    }
  }

  lemma {:induction false} FetchedIsStamped(h: seq<Entry>, cursor: int)
    ensures Stamped(Fetched(h, cursor))
  {
    hide Visible, Leading, Window;
    VisibleIsStamped(Window(h));
    if Backlog(|h|, cursor) <= |h| { LeadingIsStamped(h[|h| - Backlog(|h|, cursor)..]); }
  }

  lemma {:induction false} PolledIsStamped(events: seq<Event>, h: seq<Entry>, cursor: int)
    ensures Stamped(Polled(events, h, cursor))
  {
    hide Fetched, NextCursor, Added;
    if events == [] {
    } else {
      match events[0]
      case Write(tag, p, ts) =>
        PolledIsStamped(events[1..], h + Added(tag, p, ts), cursor);
      case Poll =>
        FetchedIsStamped(h, cursor);
        PolledIsStamped(events[1..], h, NextCursor(h, cursor));
    }
  }

  // ----- The follower -----

  /** As long as no awaited line has a zero timestamp, keeping up decides. */
  lemma {:induction false} StampedFollower(events: seq<Event>, h: seq<Entry>, cursor: int, pending: seq<Entry>)
    requires Behind(h, cursor, pending) && Stamped(Awaited(events, pending))
    ensures |Polled(events, h, cursor)| <= |Awaited(events, pending)|
    ensures Polled(events, h, cursor) == Awaited(events, pending) <==> KeepsUp(events, |pending|, cursor == CURSOR_ALL)
  {
    hide Fetched, NextCursor, Added, Behind, Stamped;
    if events == [] {
    } else {
      var rest := events[1..];
      match events[0]
      case Write(tag, p, ts) =>
        AddedBehind(h, cursor, pending, tag, p, ts);
        StampedFollower(rest, h + Added(tag, p, ts), cursor, pending + Added(tag, p, ts));
      case Poll =>
        StampedParts(pending, Awaited(rest, []));
        PollIsWhole(h, cursor, pending);
        StampedFollower(rest, h, NextCursor(h, cursor), []);
        PollsAddUp(Fetched(h, cursor), Polled(rest, h, NextCursor(h, cursor)), pending, Awaited(rest, []));
    }
  }

  lemma {:induction false} StampedParts(a: seq<Entry>, b: seq<Entry>)
    requires Stamped(a + b)
    ensures Stamped(a) && Stamped(b)
  {
    assert forall e :: e in a || e in b ==> e in a + b;
  }

  /** For every interleaving of writes and polls, the polls together return each line once and
      in order if and only if the reader keeps up and none of the lines has a zero timestamp. */
  lemma {:induction false} FollowerSeesAll(events: seq<Event>, h: seq<Entry>, cursor: int, pending: seq<Entry>)
    requires Behind(h, cursor, pending)
    ensures Polled(events, h, cursor) == Awaited(events, pending)
      <==> KeepsUp(events, |pending|, cursor == CURSOR_ALL) && Stamped(Awaited(events, pending))
  {
    hide Polled, Awaited, KeepsUp, Behind;
    PolledIsStamped(events, h, cursor);
    if Stamped(Awaited(events, pending)) { StampedFollower(events, h, cursor, pending); }
  }

  lemma {:induction false} AddedBehind(h: seq<Entry>, cursor: int, pending: seq<Entry>, tag: Tag, p: seq<byte>, ts: int)
    requires Behind(h, cursor, pending)
    ensures var a := Added(tag, p, ts); Behind(h + a, cursor, pending + a)
  {
    hide Trim, LineText, UpToNul;
    var a := Added(tag, p, ts);
    assert (h + a)[|h + a| - |pending + a|..] == pending + a;
  }

  lemma {:induction false} PollsAddUp(a: seq<Entry>, b: seq<Entry>, c: seq<Entry>, d: seq<Entry>)
    requires |a| <= |c| && |b| <= |d|
    ensures a + b == c + d <==> a == c && b == d
  {
    if a + b == c + d {
      assert |a| == |c|;
      assert a == (a + b)[..|a|] && c == (c + d)[..|c|];
      assert b == (a + b)[|a|..] && d == (c + d)[|c|..];
    }
  }

  /** A reader that starts from CURSOR_ALL, whatever the log holds by then. */
  lemma {:induction false} ReaderSeesAll(events: seq<Event>, h: seq<Entry>)
    ensures Polled(events, h, CURSOR_ALL) == Awaited(events, h)
      <==> KeepsUp(events, |h|, true) && Stamped(Awaited(events, h))
  {
    FollowerSeesAll(events, h, CURSOR_ALL, h);
  }

  /** The log as a bounded queue: WriteTo gives the newest lines, at most 2048, the oldest
      first, if and only if none of them has a zero timestamp. */
  lemma {:induction false} LogIsQueue(h: seq<Entry>)
    ensures Visible(Window(h)) == h[|h| - Min(|h|, MAX_LINES)..] <==> Stamped(Window(h))
  {
    hide Visible;
    VisibleIsStamped(Window(h));
    assert Window(h) == h[|h| - Min(|h|, MAX_LINES)..];
    if Stamped(Window(h)) { VisibleAll(Window(h)); }
  }

  // ----- A line with a zero timestamp -----

  /** The dump skips such a line. */
  lemma {:induction false} ZeroStampSkipped(h: seq<Entry>, e: Entry, more: seq<Entry>)
    requires e.timeNs == 0
    ensures Visible(h + [e] + more) == Visible(h) + Visible(more)
  {
    VisibleAppend(h + [e], more);
    VisibleAppend(h, [e]);
    VisibleOne(e);
  }

  /** A follower that has come to such a line gets nothing more, and stays there, until its slot
      is written again. */
  lemma {:induction false} ZeroStampStops(h: seq<Entry>, e: Entry, more: seq<Entry>)
    requires e.timeNs == 0 && |more| < MAX_LINES
    ensures var cursor := |h| % MAX_LINES;
      Fetched(h + [e] + more, cursor) == [] && NextCursor(h + [e] + more, cursor) == cursor
  {
    hide Visible, Window, UpToVisible;
    var all := h + [e] + more;
    var d := Backlog(|all|, |h| % MAX_LINES);
    CursorIsBehind(|all|, 1 + |more|);
    assert d == if |more| + 1 < MAX_LINES then |more| + 1 else 0;
    assert d > 0 ==> all[|all| - d..][0] == e;
  }

  /** A single write stamped zero and a poll: the reader keeps up and sees nothing. */
  lemma {:induction false} ZeroStampedWrite(tag: Tag)
    ensures var events := [Write(tag, [65], 0), Poll];
      KeepsUp(events, 0, true) && Polled(events, [], CURSOR_ALL) == [] && |Awaited(events, [])| == 1
  {
    hide LineText, UpToNul;
    var events := [Write(tag, [65], 0), Poll];
    LetterStays();
    var a := Added(tag, [65], 0);
    assert events[1..] == [Poll] && [Poll][1..] == [];
    assert [] + a == a && a[..0] == [] && Visible(a) == Visible(a[..0]);
    assert Polled([Poll], a, CURSOR_ALL) == Fetched(a, CURSOR_ALL) + Polled([], a, NextCursor(a, CURSOR_ALL));
    assert Awaited([Poll], a) == a + Awaited([], []);
    assert KeepsUp([Poll], 1, true);
  }

  lemma {:induction false} LetterIsNoSpace(s: seq<byte>)
    requires s != [] && s[0] == 65
    ensures !InSpaces(s)
  {
  }

  lemma {:induction false} LetterStays()
    ensures Trim([65]) == [65]
  {
    hide InSpaces;
    var s: seq<byte> := [65];
    assert s[..1] == s && s[|s| - 1..] == s;
    LetterIsNoSpace(s);
  }

  /** The events carried out on a log that many processes write and another reads. */
  method Replay(reader: Ringlogger, log: LogMem, events: seq<Event>) returns (delivered: seq<Entry>)
    requires reader.Valid() && reader.log == log
    modifies log, log.slots
    ensures delivered == Polled(events, old(log.history), CURSOR_ALL)
    ensures log.Valid()
  {
    hide Added, Fetched, NextCursor;
    delivered := [];
    var cursor := CURSOR_ALL;
    for i := 0 to |events|
      invariant log.Valid() && 0 <= cursor < TWO_32
      invariant delivered + Polled(events[i..], log.history, cursor) == Polled(events, old(log.history), CURSOR_ALL)
    {
      assert events[i..][0] == events[i] && events[i..][1..] == events[i + 1..];
      match events[i]
      case Write(tag, p, ts) =>
        var writer := Ringlogger.Open(log, tag, false, true);
        var _ := writer.WriteWithTimestamp(p, ts);
      case Poll =>
        var lines;
        lines, cursor := reader.FollowFromCursor(cursor);
        delivered := delivered + lines;
    }
  }
}
