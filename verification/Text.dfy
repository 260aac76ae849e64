/**
 * The string operations the configuration code is built from: strings.Cut, Split, Join,
 * TrimSpace, TrimRight, ToLower, the decimal readers of strconv and the %d verb of fmt.
 * A string is a sequence of Unicode scalar values.
 */
module Text {

  datatype Option<+T> = None | Some(value: T)

  /** unicode.IsSpace. */
  predicate IsSpace(c: char) {
    || '\t' <= c <= '\r'
    || c == ' ' || c == '\U{0085}' || c == '\U{00A0}' || c == '\U{1680}'
    || '\U{2000}' <= c <= '\U{200A}'
    || c == '\U{2028}' || c == '\U{2029}' || c == '\U{202F}' || c == '\U{205F}' || c == '\U{3000}'
  }

  predicate IsDigit(c: char) {
    '0' <= c <= '9'
  }

  /** unicode.ToLower on the characters whose lower case is an ASCII letter; no other
      character can become part of a key name, a scheme, a mode or a file name. */
  function LowerChar(c: char): char {
    if 'A' <= c <= 'Z' then c + 32 as char
    else if c == '\U{212A}' then 'k'
    else if c == '\U{0130}' then 'i'
    else c
  }

  function ToLower(s: string): string {
    seq(|s|, i requires 0 <= i < |s| => LowerChar(s[i]))
  }

  // ----- Cut -----

  datatype CutResult = CutResult(before: string, after: string, found: bool)

  /** strings.Cut around the first occurrence of a one-character separator. */
  function Cut(s: string, sep: char): (r: CutResult)
    ensures sep !in r.before
    ensures r.found ==> s == r.before + [sep] + r.after
    ensures !r.found ==> r.before == s && r.after == ""
    ensures r.found <==> sep in s
  {
    if s == "" then CutResult("", "", false)
    else if s[0] == sep then CutResult("", s[1..], true)
    else
      var r := Cut(s[1..], sep);
      assert s == [s[0]] + s[1..];
      CutResult([s[0]] + r.before, r.after, r.found)
  }

  lemma {:induction false} CutAt(before: string, sep: char, after: string)
    requires sep !in before
    ensures Cut(before + [sep] + after, sep) == CutResult(before, after, true)
  {
    var s := before + [sep] + after;
    if before == "" {
      assert s[1..] == after;
    } else {
      assert s[1..] == before[1..] + [sep] + after;
      CutAt(before[1..], sep, after);
      assert before == [before[0]] + before[1..];
    }
  }

  lemma {:induction false} CutAbsent(s: string, sep: char)
    requires sep !in s
    ensures Cut(s, sep) == CutResult(s, "", false)
  {
  }

  // ----- Trimming -----

  function TrimLeftBy(s: string, drop: char -> bool): string {
    if s == "" || !drop(s[0]) then s else TrimLeftBy(s[1..], drop)
  }

  function TrimRightBy(s: string, drop: char -> bool): string {
    if s == "" || !drop(s[|s| - 1]) then s else TrimRightBy(s[..|s| - 1], drop)
  }

  /** strings.TrimSpace. */
  function TrimSpace(s: string): string {
    TrimRightBy(TrimLeftBy(s, IsSpace), IsSpace)
  }

  /** Neither end of the text is white space. */
  predicate Trimmed(s: string) {
    s == "" || (!IsSpace(s[0]) && !IsSpace(s[|s| - 1]))
  }

  lemma {:induction false} TrimRightUnique(s: string, drop: char -> bool, kept: nat)
    requires kept <= |s|
    requires kept == 0 || !drop(s[kept - 1])
    requires forall i :: kept <= i < |s| ==> drop(s[i])
    ensures TrimRightBy(s, drop) == s[..kept]
  {
    if kept < |s| {
      TrimRightUnique(s[..|s| - 1], drop, kept);
      assert s[..|s| - 1][..kept] == s[..kept];
    } else {
      assert s[..kept] == s;
    }
  }

  lemma {:induction false} TrimLeftUnique(s: string, drop: char -> bool, cut: nat)
    requires cut <= |s|
    requires cut == |s| || !drop(s[cut])
    requires forall i :: 0 <= i < cut ==> drop(s[i])
    ensures TrimLeftBy(s, drop) == s[cut..]
  {
    if cut > 0 {
      TrimLeftUnique(s[1..], drop, cut - 1);
      assert s[1..][cut - 1..] == s[cut..];
    } else {
      assert s[cut..] == s;
    }
  }

  /** What TrimRight keeps is a prefix that ends in something else. */
  lemma {:induction false} TrimRightKeeps(s: string, drop: char -> bool) returns (kept: nat)
    ensures kept <= |s| && TrimRightBy(s, drop) == s[..kept]
    ensures kept == 0 || !drop(s[kept - 1])
    ensures forall i :: kept <= i < |s| ==> drop(s[i])
  {
    kept := |s|;
    while kept > 0 && drop(s[kept - 1])
      invariant kept <= |s|
      invariant forall i :: kept <= i < |s| ==> drop(s[i])
    {
      kept := kept - 1;
    }
    TrimRightUnique(s, drop, kept);
  }

  lemma {:induction false} TrimLeftKeeps(s: string, drop: char -> bool) returns (cut: nat)
    ensures cut <= |s| && TrimLeftBy(s, drop) == s[cut..]
    ensures cut == |s| || !drop(s[cut])
  {
    cut := 0;
    while cut < |s| && drop(s[cut])
      invariant cut <= |s|
      invariant forall i :: 0 <= i < cut ==> drop(s[i])
    {
      cut := cut + 1;
    }
    TrimLeftUnique(s, drop, cut);
  }

  /** TrimSpace leaves no white space at either end and invents no character. */
  lemma {:induction false} TrimSpaceKeeps(s: string) returns (cut: nat, end: nat)
    ensures cut <= end <= |s| && TrimSpace(s) == s[cut..end]
    ensures Trimmed(TrimSpace(s))
  {
    cut := TrimLeftKeeps(s, IsSpace);
    var left := s[cut..];
    var kept := TrimRightKeeps(left, IsSpace);
    end := cut + kept;
    assert left[..kept] == s[cut..end];
  }

  /** White space around text that starts and ends with something else is what is trimmed. */
  lemma {:induction false} TrimSpaceAround(left: string, mid: string, right: string)
    requires mid != "" && Trimmed(mid)
    requires forall c :: c in left || c in right ==> IsSpace(c)
    ensures TrimSpace(left + mid + right) == mid
  {
    var s, t := left + mid + right, mid + right;
    TrimLeftUnique(s, IsSpace, |left|);
    assert s[|left|..] == t;
    assert t[|mid| - 1] == mid[|mid| - 1];
    TrimRightUnique(t, IsSpace, |mid|);
    assert t[..|mid|] == mid;
  }

  // ----- Split and join -----

  /** strings.Split on a one-character separator: never empty. */
  function Split(s: string, sep: char): (r: seq<string>)
    ensures |r| >= 1
    decreases |s|
  {
    var c := Cut(s, sep);
    if c.found then [c.before] + Split(c.after, sep) else [s]
  }

  lemma {:induction false} SplitAt(first: string, sep: char, rest: string)
    requires sep !in first
    ensures Split(first + [sep] + rest, sep) == [first] + Split(rest, sep)
  {
    CutAt(first, sep, rest);
  }

  lemma {:induction false} SplitChars(s: string, sep: char, c: char)
    requires c == sep || c !in s
    ensures forall i :: 0 <= i < |Split(s, sep)| ==> c !in Split(s, sep)[i]
    decreases |s|
  {
    var cut := Cut(s, sep);
    if cut.found {
      SplitChars(cut.after, sep, c);
    }
  }

  /** strings.Join. */
  function Join(parts: seq<string>, sep: string): string {
    if parts == [] then ""
    else if |parts| == 1 then parts[0]
    else parts[0] + sep + Join(parts[1..], sep)
  }

  /** Every line followed by a newline. */
  function Unlines(lines: seq<string>): string {
    if lines == [] then "" else lines[0] + "\n" + Unlines(lines[1..])
  }

  lemma {:induction false} UnlinesAppend(a: seq<string>, b: seq<string>)
    ensures Unlines(a + b) == Unlines(a) + Unlines(b)
  {
    if a == [] {
      assert a + b == b;
    } else {
      assert (a + b)[1..] == a[1..] + b;
      UnlinesAppend(a[1..], b);
    }
  }

  lemma {:induction false} SplitNothing(sep: char)
    ensures Split("", sep) == [""]
  {
  }

  /** Splitting a text of terminated lines gives back the lines and one empty rest. */
  lemma {:induction false} SplitUnlines(lines: seq<string>)
    requires forall l :: l in lines ==> '\n' !in l
    ensures Split(Unlines(lines), '\n') == lines + [""]
  {
    hide Cut;
    SplitNothing('\n');
    if lines == [] {
    } else {
      var rest := Unlines(lines[1..]);
      assert Unlines(lines) == lines[0] + ['\n'] + rest;
      SplitAt(lines[0], '\n', rest);
      SplitUnlines(lines[1..]);
      assert lines + [""] == [lines[0]] + (lines[1..] + [""]);
    }
  }

  // ----- Decimal numbers -----

  function DigitValue(c: char): nat
    requires IsDigit(c)
  {
    (c - '0') as nat
  }

  predicate AllDigits(s: string) {
    forall i :: 0 <= i < |s| ==> IsDigit(s[i])
  }

  function Digits(s: string): nat
    requires AllDigits(s)
  {
    if s == "" then 0 else Digits(s[..|s| - 1]) * 10 + DigitValue(s[|s| - 1])
  }

  const MAX_UINT64: nat := 0xffff_ffff_ffff_ffff

  /** strconv.ParseUint(s, 10, bits) for a maximum value of max. */
  function ParseUint(s: string, max: nat): (r: Option<nat>)
    ensures r.Some? ==> r.value <= max
  {
    if s == "" || !AllDigits(s) || Digits(s) > max then None else Some(Digits(s))
  }

  const MAX_INT: nat := 0x7fff_ffff_ffff_ffff

  /** strconv.Atoi: an optional sign, then digits, within 64 bits. */
  function Atoi(s: string): (r: Option<int>) {
    if s != "" && s[0] == '-' then
      var m := ParseUint(s[1..], MAX_INT + 1);
      if m.Some? then Some(0 - m.value as int) else None
    else
      ParseUint(if s != "" && s[0] == '+' then s[1..] else s, MAX_INT)
  }

  /** The %d verb on a non-negative number. */
  function Itoa(n: nat): (s: string)
    ensures s != "" && AllDigits(s)
    ensures Digits(s) == n
    decreases n
  {
    var last := [(n % 10) as char + '0'];
    if n < 10 then
      assert last[..0] == "";
      last
    else
      var front := Itoa(n / 10);
      assert (front + last)[..|front|] == front;
      front + last
  }

  lemma {:induction false} AtoiItoa(n: nat)
    requires n <= MAX_INT
    ensures Atoi(Itoa(n)) == Some(n)
  {
  }

  // ----- Positions -----

  /** strings.IndexByte. */
  function IndexOf(s: string, c: char): (i: int)
    ensures -1 <= i < |s|
    ensures i >= 0 ==> s[i] == c
    ensures forall k :: 0 <= k < (if i < 0 then |s| else i) ==> s[k] != c
  {
    if s == "" then -1
    else if s[0] == c then 0
    else
      var r := IndexOf(s[1..], c);
      assert forall k :: 1 <= k < |s| ==> s[k] == s[1..][k - 1];
      if r < 0 then -1 else r + 1
  }

  /** strings.LastIndexByte. */
  function LastIndexOf(s: string, c: char): (i: int)
    ensures -1 <= i < |s|
    ensures i >= 0 ==> s[i] == c
    ensures forall k :: i < k < |s| ==> s[k] != c
  {
    if s == "" then -1
    else if s[|s| - 1] == c then |s| - 1
    else LastIndexOf(s[..|s| - 1], c)
  }

  predicate HasPrefix(s: string, prefix: string) {
    |prefix| <= |s| && s[..|prefix|] == prefix
  }
}
