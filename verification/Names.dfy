/**
 * Tunnel names (conf/name.go): which ones are allowed, and the order they are listed in.
 */
module Names {
  import opened Text

  predicate IsReserved(name: string) {
    var base := ToLower(Cut(name, '.').before);
    || base == "con" || base == "prn" || base == "aux" || base == "nul"
    || (|base| == 4 && (base[..3] == "com" || base[..3] == "lpt") && '1' <= base[3] <= '9')
  }

  predicate IsNameChar(c: char) {
    'a' <= c <= 'z' || 'A' <= c <= 'Z' || IsDigit(c) || c == '_' || c == '=' || c == '+' || c == '.' || c == '-'
  }

  /** TunnelNameIsValid. The characters a name may have exclude all the forbidden ones. */
  predicate TunnelNameIsValid(name: string) {
    && 1 <= |name| <= 32
    && (forall i :: 0 <= i < |name| ==> IsNameChar(name[i]))
    && name[0] != '.' && name[|name| - 1] != '.'
    && !IsReserved(name)
  }

  // ----- The natural order -----

  datatype SortToken = Numeral(n: int) | Letters(s: string)

  /** strings.Fields: the parts between white space. */
  function Fields(s: string): seq<string>
    decreases |s|
  {
    if s == "" then []
    else if IsSpace(s[0]) then Fields(s[1..])
    else
      var k := WordLength(s);
      [s[..k]] + Fields(s[k..])
  }

  function WordLength(s: string): (k: nat)
    ensures k <= |s| && (s != "" && !IsSpace(s[0]) ==> k > 0)
  {
    if s == "" || IsSpace(s[0]) then 0 else 1 + WordLength(s[1..])
  }

  /** The length of the longest run at the front that is all digits, or all others. */
  function RunLength(s: string, digits: bool): (k: nat)
    ensures k <= |s| && (s != "" && IsDigit(s[0]) == digits ==> k > 0)
  {
    if s == "" || IsDigit(s[0]) != digits then 0 else 1 + RunLength(s[1..], digits)
  }

  /** A run of digits is a number, unless it does not fit; anything else is a word. */
  function TokenOf(s: string): SortToken {
    var n := Atoi(s);
    if n.Some? then Numeral(n.value) else Letters(s)
  }

  /** The runs of digits and of other characters. */
  function Runs(s: string): seq<string>
    decreases |s|
  {
    if s == "" then []
    else
      var k := RunLength(s, IsDigit(s[0]));
      [s[..k]] + Runs(s[k..])
  }

  function TokensOf(runs: seq<string>): (r: seq<SortToken>)
    ensures |r| == |runs| && forall i :: 0 <= i < |runs| ==> r[i] == TokenOf(runs[i])
  {
    seq(|runs|, i requires 0 <= i < |runs| => TokenOf(runs[i]))
  }

  /** newNaturalSortString. strings.ToLower is a parameter. */
  function Tokens(lower: string -> string, name: string): seq<SortToken> {
    TokensOf(Runs(lower(Join(Fields(name), " "))))
  }

  predicate StringLess(a: string, b: string) {
    b != "" && (a == "" || a[0] < b[0] || (a[0] == b[0] && StringLess(a[1..], b[1..])))
  }

  /** naturalSortToken.Cmp: numbers before words. */
  function Cmp(a: SortToken, b: SortToken): int {
    match (a, b)
    case (Numeral(m), Numeral(n)) => if m < n then -1 else if m > n then 1 else 0
    case (Numeral(_), Letters(_)) => -1
    case (Letters(_), Numeral(_)) => 1
    case (Letters(s), Letters(t)) => if StringLess(t, s) then 1 else if StringLess(s, t) then -1 else 0
  }

  predicate TokensLess(a: seq<SortToken>, b: seq<SortToken>) {
    b != [] && (a == [] || Cmp(a[0], b[0]) < 0 || (Cmp(a[0], b[0]) == 0 && TokensLess(a[1..], b[1..])))
  }

  /** TunnelNameIsLess, as a relation. */
  predicate NameIsLess(lower: string -> string, a: string, b: string) {
    a != b && TokensLess(Tokens(lower, a), Tokens(lower, b))
  }

  lemma {:induction false} StringTrichotomy(a: string, b: string)
    ensures a == b <==> !StringLess(a, b) && !StringLess(b, a)
    ensures !(StringLess(a, b) && StringLess(b, a))
  {
    if a == "" || b == "" {
    } else {
      StringTrichotomy(a[1..], b[1..]);
      assert a == [a[0]] + a[1..] && b == [b[0]] + b[1..];
    }
  }

  lemma {:induction false} StringTransitive(a: string, b: string, c: string)
    requires StringLess(a, b) && StringLess(b, c)
    ensures StringLess(a, c)
  {
    if a != "" && a[0] == b[0] == c[0] { StringTransitive(a[1..], b[1..], c[1..]); }
  }

  lemma {:induction false} CmpTrichotomy(a: SortToken, b: SortToken)
    ensures Cmp(a, b) == 0 <==> a == b
    ensures Cmp(a, b) < 0 <==> Cmp(b, a) > 0
  {
    if a.Letters? && b.Letters? { StringTrichotomy(a.s, b.s); }
  }

  lemma {:induction false} CmpTransitive(a: SortToken, b: SortToken, c: SortToken)
    requires Cmp(a, b) < 0 && Cmp(b, c) < 0
    ensures Cmp(a, c) < 0
  {
    if a.Letters? && b.Letters? && c.Letters? {
      StringTransitive(a.s, b.s, c.s);
      StringTrichotomy(a.s, c.s);
    }
  }

  lemma {:induction false} TokensTrichotomy(a: seq<SortToken>, b: seq<SortToken>)
    ensures a == b <==> !TokensLess(a, b) && !TokensLess(b, a)
    ensures !(TokensLess(a, b) && TokensLess(b, a))
  {
    if a == [] || b == [] {
    } else {
      CmpTrichotomy(a[0], b[0]);
      TokensTrichotomy(a[1..], b[1..]);
      assert a == [a[0]] + a[1..] && b == [b[0]] + b[1..];
    }
  }

  lemma {:induction false} TokensTransitive(a: seq<SortToken>, b: seq<SortToken>, c: seq<SortToken>)
    requires TokensLess(a, b) && TokensLess(b, c)
    ensures TokensLess(a, c)
  {
    if a == [] {
    } else {
      CmpTrichotomy(a[0], b[0]);
      CmpTrichotomy(b[0], c[0]);
      if Cmp(a[0], b[0]) < 0 && Cmp(b[0], c[0]) < 0 {
        CmpTransitive(a[0], b[0], c[0]);
      } else if Cmp(a[0], b[0]) == 0 && Cmp(b[0], c[0]) == 0 {
        TokensTransitive(a[1..], b[1..], c[1..]);
      }
    }
  }

  /** TunnelNameIsLess is a strict weak order, and the names it does not tell apart are those
      with the same tokens. */
  lemma {:induction false} NameOrder(lower: string -> string, a: string, b: string, c: string)
    ensures !NameIsLess(lower, a, a)
    ensures NameIsLess(lower, a, b) && NameIsLess(lower, b, c) ==> NameIsLess(lower, a, c)
    ensures !NameIsLess(lower, a, b) && !NameIsLess(lower, b, a) <==> Tokens(lower, a) == Tokens(lower, b)
  {
    hide Tokens, TokensLess;
    var s, t, u := Tokens(lower, a), Tokens(lower, b), Tokens(lower, c);
    TokensTrichotomy(s, s);
    TokensTrichotomy(s, t);
    if NameIsLess(lower, a, b) && NameIsLess(lower, b, c) {
      TokensTransitive(s, t, u);
    }
  }

  /** The runs make up the text, and each is all digits or has none. */
  lemma {:induction false} RunsAreWhole(s: string)
    ensures Join(Runs(s), "") == s
    ensures forall r :: r in Runs(s) ==> r != "" && (AllDigits(r) || forall i :: 0 <= i < |r| ==> !IsDigit(r[i]))
    decreases |s|
  {
    if s == "" {
    } else {
      var k := RunLength(s, IsDigit(s[0]));
      RunIsUniform(s, IsDigit(s[0]));
      RunsAreWhole(s[k..]);
      JoinFirst(s[..k], Runs(s[k..]));
    }
  }

  lemma {:induction false} JoinFirst(first: string, rest: seq<string>)
    ensures Join([first] + rest, "") == first + Join(rest, "")
  {
    assert ([first] + rest)[1..] == rest;
  }

  lemma {:induction false} RunIsUniform(s: string, digits: bool)
    ensures forall i :: 0 <= i < RunLength(s, digits) ==> IsDigit(s[i]) == digits
  {
    if s != "" && IsDigit(s[0]) == digits {
      RunIsUniform(s[1..], digits);
      forall i | 0 <= i < RunLength(s, digits) ensures IsDigit(s[i]) == digits {
        assert i > 0 ==> s[i] == s[1..][i - 1];
      }
    }
  }

  // ----- What the order means -----

  /** A name that is read as it is: no white space, and already lower-case. */
  predicate Plain(lower: string -> string, s: string) {
    lower(s) == s && forall i :: 0 <= i < |s| ==> !IsSpace(s[i])
  }

  predicate NoDigits(s: string) {
    forall i :: 0 <= i < |s| ==> !IsDigit(s[i])
  }

  predicate IsRun(s: string) {
    s != "" && (AllDigits(s) || NoDigits(s))
  }

  /** A run ends where the two texts meet. */
  predicate Boundary(a: string, b: string) {
    a == "" || b == "" || IsDigit(a[|a| - 1]) != IsDigit(b[0])
  }

  /** The order of strings: the first difference decides, and a proper prefix comes first. */
  ghost predicate Precedes(a: string, b: string) {
    exists k :: 0 <= k <= |a| && k < |b| && a[..k] == b[..k] && (k == |a| || a[k] < b[k])
  }

  lemma {:induction false} WordLengthOfWord(s: string)
    requires forall i :: 0 <= i < |s| ==> !IsSpace(s[i])
    ensures WordLength(s) == |s|
  {
    if s == "" {
    } else {
      WordLengthOfWord(s[1..]);
    }
  }

  lemma {:induction false} PlainTokens(lower: string -> string, s: string)
    requires Plain(lower, s)
    ensures Tokens(lower, s) == TokensOf(Runs(s))
  {
    WordLengthOfWord(s);
    if s == "" {
    } else {
      assert s[..|s|] == s && s[|s|..] == "";
      assert Fields(s) == [s];
    }
  }

  lemma {:induction false} RunLengthAppend(a: string, b: string, digits: bool)
    requires a != "" && Boundary(a, b) && IsDigit(a[0]) == digits
    ensures RunLength(a + b, digits) == RunLength(a, digits)
  {
    assert (a + b)[1..] == a[1..] + b;
    if |a| == 1 {
      assert a[1..] == "" && a[1..] + b == b;
    } else if IsDigit(a[1]) == digits {
      RunLengthAppend(a[1..], b, digits);
    }
  }

  lemma {:induction false} RunsAppend(a: string, b: string)
    requires Boundary(a, b)
    ensures Runs(a + b) == Runs(a) + Runs(b)
    decreases |a|
  {
    hide RunLength;
    if a == "" {
      assert a + b == b;
    } else {
      var k := RunLength(a, IsDigit(a[0]));
      RunLengthAppend(a, b, IsDigit(a[0]));
      assert (a + b)[..k] == a[..k] && (a + b)[k..] == a[k..] + b;
      RunsAppend(a[k..], b);
      assert [a[..k]] + (Runs(a[k..]) + Runs(b)) == Runs(a) + Runs(b);
    }
  }

  lemma {:induction false} RunLengthOfRun(s: string, digits: bool)
    requires forall i :: 0 <= i < |s| ==> IsDigit(s[i]) == digits
    ensures RunLength(s, digits) == |s|
  {
    if s == "" {
    } else {
      RunLengthOfRun(s[1..], digits);
    }
  }

  lemma {:induction false} RunsOfRun(s: string)
    requires IsRun(s)
    ensures Runs(s) == [s]
  {
    RunLengthOfRun(s, IsDigit(s[0]));
    assert s[..|s|] == s && s[|s|..] == "";
  }

  lemma {:induction false} SplitTokens(lower: string -> string, p: string, r: string, x: string)
    requires Plain(lower, p + r + x) && IsRun(r) && Boundary(p, r) && Boundary(r, x)
    ensures Tokens(lower, p + r + x) == TokensOf(Runs(p)) + ([TokenOf(r)] + TokensOf(Runs(x)))
  {
    hide Tokens, Runs, TokenOf, Plain;
    PlainTokens(lower, p + r + x);
    assert p + r + x == p + (r + x);
    RunsAppend(p, r + x);
    RunsAppend(r, x);
    RunsOfRun(r);
  }

  lemma {:induction false} SameFront(c: seq<SortToken>, a: seq<SortToken>, b: seq<SortToken>)
    ensures TokensLess(c + a, c + b) <==> TokensLess(a, b)
  {
    if c == [] {
      assert c + a == a && c + b == b;
    } else {
      CmpTrichotomy(c[0], c[0]);
      assert (c + a)[1..] == c[1..] + a && (c + b)[1..] == c[1..] + b;
      SameFront(c[1..], a, b);
    }
  }

  /** After equal runs, the next ones decide. */
  lemma {:induction false} RunDecides(lower: string -> string, p: string, r: string, x: string, q: string, y: string)
    requires Plain(lower, p + r + x) && IsRun(r) && Boundary(p, r) && Boundary(r, x)
    requires Plain(lower, p + q + y) && IsRun(q) && Boundary(p, q) && Boundary(q, y)
    requires Cmp(TokenOf(r), TokenOf(q)) < 0
    ensures NameIsLess(lower, p + r + x, p + q + y)
  {
    hide Tokens, Runs, TokenOf, Cmp, Plain;
    SplitTokens(lower, p, r, x);
    SplitTokens(lower, p, q, y);
    var a, b := [TokenOf(r)] + TokensOf(Runs(x)), [TokenOf(q)] + TokensOf(Runs(y));
    SameFront(TokensOf(Runs(p)), a, b);
    TokensTrichotomy(Tokens(lower, p + r + x), Tokens(lower, p + q + y));
  }

  lemma {:induction false} TokenOfNumber(d: string)
    requires d != "" && AllDigits(d)
    ensures TokenOf(d) == if Digits(d) <= MAX_INT then Numeral(Digits(d)) else Letters(d)
  {
  }

  lemma {:induction false} TokenOfWord(s: string)
    requires s != "" && NoDigits(s)
    ensures TokenOf(s) == Letters(s)
  {
    if |s| > 1 { assert !AllDigits(s[1..]) by { assert !IsDigit(s[1..][0]); } }
  }

  /** Runs of digits compare as numbers. */
  lemma {:induction false} NumbersInOrder(lower: string -> string, p: string, d: string, x: string,
                                          e: string, y: string)
    requires Plain(lower, p + d + x) && d != "" && AllDigits(d) && Boundary(p, d) && Boundary(d, x)
    requires Plain(lower, p + e + y) && e != "" && AllDigits(e) && Boundary(p, e) && Boundary(e, y)
    requires Digits(d) < Digits(e) <= MAX_INT
    ensures NameIsLess(lower, p + d + x, p + e + y)
  {
    TokenOfNumber(d);
    TokenOfNumber(e);
    RunDecides(lower, p, d, x, e, y);
  }

  /** Numbers come before everything else, also before digits that make too large a number. */
  lemma {:induction false} NumbersFirst(lower: string -> string, p: string, d: string, x: string,
                                        w: string, y: string)
    requires Plain(lower, p + d + x) && d != "" && AllDigits(d) && Boundary(p, d) && Boundary(d, x)
    requires Plain(lower, p + w + y) && IsRun(w) && Boundary(p, w) && Boundary(w, y)
    requires Digits(d) <= MAX_INT && (AllDigits(w) ==> Digits(w) > MAX_INT)
    ensures NameIsLess(lower, p + d + x, p + w + y)
  {
    TokenOfNumber(d);
    if AllDigits(w) { TokenOfNumber(w); } else { TokenOfWord(w); }
    RunDecides(lower, p, d, x, w, y);
  }

  lemma {:induction false} StringLessIsPrecedes(a: string, b: string)
    ensures StringLess(a, b) <==> Precedes(a, b)
  {
    hide Precedes;
    if a == "" || b == "" {
      PrecedesEmpty(a, b);
    } else {
      StringLessIsPrecedes(a[1..], b[1..]);
      PrecedesCons(a, b);
    }
  }

  lemma {:induction false} PrecedesEmpty(a: string, b: string)
    requires a == "" || b == ""
    ensures Precedes(a, b) <==> b != ""
  {
    if b != "" { assert a[..0] == b[..0]; }
  }

  lemma {:induction false} PrecedesCons(a: string, b: string)
    requires a != "" && b != ""
    ensures Precedes(a, b) <==> a[0] < b[0] || (a[0] == b[0] && Precedes(a[1..], b[1..]))
  {
    var s, t := a[1..], b[1..];
    if a[0] < b[0] {
      assert a[..0] == b[..0];
    } else if a[0] == b[0] && Precedes(s, t) {
      var k :| 0 <= k <= |s| && k < |t| && s[..k] == t[..k] && (k == |s| || s[k] < t[k]);
      assert a[..k + 1] == [a[0]] + s[..k] && b[..k + 1] == [b[0]] + t[..k];
    }
    if Precedes(a, b) { PrecedesTail(a, b); }
  }

  lemma {:induction false} PrecedesTail(a: string, b: string)
    requires a != "" && b != "" && Precedes(a, b)
    ensures a[0] < b[0] || (a[0] == b[0] && Precedes(a[1..], b[1..]))
  {
    var k :| 0 <= k <= |a| && k < |b| && a[..k] == b[..k] && (k == |a| || a[k] < b[k]);
    if k > 0 {
      assert a[..k][0] == b[..k][0];
      assert a[1..][..k - 1] == a[..k][1..] == b[..k][1..] == b[1..][..k - 1];
    }
  }

  /** Runs without digits compare as strings. */
  lemma {:induction false} WordsInOrder(lower: string -> string, p: string, r: string, x: string, q: string, y: string)
    requires Plain(lower, p + r + x) && r != "" && NoDigits(r) && Boundary(p, r) && Boundary(r, x)
    requires Plain(lower, p + q + y) && q != "" && NoDigits(q) && Boundary(p, q) && Boundary(q, y)
    requires Precedes(r, q)
    ensures NameIsLess(lower, p + r + x, p + q + y)
  {
    TokenOfWord(r);
    TokenOfWord(q);
    StringLessIsPrecedes(r, q);
    StringTrichotomy(r, q);
    RunDecides(lower, p, r, x, q, y);
  }

  /** Names with the same beginning and a number at the end are in the order of the numbers. */
  lemma {:induction false} NumberedNames(lower: string -> string, s: string, m: nat, n: nat)
    requires NoDigits(s) && m <= MAX_INT && n <= MAX_INT
    requires Plain(lower, s + Itoa(m)) && Plain(lower, s + Itoa(n))
    ensures NameIsLess(lower, s + Itoa(m), s + Itoa(n)) <==> m < n
  {
    hide NameIsLess, Plain, Itoa, Tokens;
    assert s + Itoa(m) + "" == s + Itoa(m) && s + Itoa(n) + "" == s + Itoa(n);
    if m < n {
      NumbersInOrder(lower, s, Itoa(m), "", Itoa(n), "");
    } else if n < m {
      NumbersInOrder(lower, s, Itoa(n), "", Itoa(m), "");
    }
    NameOrder(lower, s + Itoa(m), s + Itoa(n), s + Itoa(m));
    NameOrder(lower, s + Itoa(n), s + Itoa(n), s + Itoa(n));
  }

  /** Names without digits are in the order of strings. */
  lemma {:induction false} LetteredNames(lower: string -> string, a: string, b: string)
    requires NoDigits(a) && NoDigits(b) && Plain(lower, a) && Plain(lower, b)
    ensures NameIsLess(lower, a, b) <==> Precedes(a, b)
  {
    hide Precedes;
    PlainTokens(lower, a);
    PlainTokens(lower, b);
    if a != "" { RunsOfRun(a); TokenOfWord(a); }
    if b != "" { RunsOfRun(b); TokenOfWord(b); }
    StringLessIsPrecedes(a, b);
    StringTrichotomy(a, b);
  }

  method NewNaturalSortString(lower: string -> string, name: string) returns (tokens: array<SortToken>)
    ensures fresh(tokens) && tokens[..] == Tokens(lower, name)
  {
    var x := Runs(lower(Join(Fields(name), " ")));
    tokens := new SortToken[|x|](_ => Numeral(0));
    for i := 0 to |x|
      invariant forall k :: 0 <= k < i ==> tokens[k] == TokenOf(x[k])
    {
      var n := Atoi(x[i]);
      if n.Some? {
        tokens[i] := Numeral(n.value);
      } else {
        tokens[i] := Letters(x[i]);
      }
    }
  }

  /** TunnelNameIsLess. */
  method TunnelNameIsLess(lower: string -> string, a: string, b: string) returns (r: bool)
    ensures r <==> NameIsLess(lower, a, b)
  {
    hide Cmp, Tokens;
    if a == b {
      return false;
    }
    var na := NewNaturalSortString(lower, a);
    var nb := NewNaturalSortString(lower, b);
    for i := 0 to nb.Length
      invariant i <= na.Length && na[..] == Tokens(lower, a) && nb[..] == Tokens(lower, b)
      invariant TokensLess(na[..], nb[..]) <==> TokensLess(na[i..], nb[i..])
    {
      if i == na.Length {
        assert na[i..] == [] && |nb[i..]| > 0;
        return true;
      }
      assert na[i..][1..] == na[i + 1..] && nb[i..][1..] == nb[i + 1..];
      var cmp := Cmp(na[i], nb[i]);
      if cmp == -1 {
        return true;
      } else if cmp == 1 {
        return false;
      }
      CmpIsSign(na[i], nb[i]);
    }
    r := false;
  }

  lemma {:induction false} CmpIsSign(a: SortToken, b: SortToken)
    ensures Cmp(a, b) in {-1, 0, 1}
  {
  }
}
