/**
 * The names of the TLS files kept with a tunnel (conf/wstls.go): at most 64 characters that
 * Windows takes as a plain file name.
 */
module TlsNames {
  import opened Text
  import opened Names

  const MAX_LENGTH := 64
  const FALLBACK := "ws-tls"

  predicate IsLetter(c: char) {
    'a' <= c <= 'z' || 'A' <= c <= 'Z'
  }

  predicate IsFileChar(c: char) {
    IsLetter(c) || IsDigit(c) || c == '_' || c == '-' || c == '.'
  }

  predicate IsDot(c: char) {
    c == '.'
  }

  predicate AllFileChars(s: string) {
    forall i :: 0 <= i < |s| ==> IsFileChar(s[i])
  }

  /** WSTLSFileNameIsValid. */
  predicate IsFileName(name: string) {
    && 0 < |name| <= MAX_LENGTH
    && AllFileChars(name)
    && name[0] != '.' && name[|name| - 1] != '.'
    && !IsReserved(name)
  }

  /** IsWSTLSLocalPath. */
  predicate IsLocalPath(path: string) {
    |path| >= 3 && IsLetter(path[0]) && path[1] == ':' && (path[2] == '\\' || path[2] == '/')
  }

  /** filepath.Ext on Windows. */
  function Ext(name: string): (e: string)
    ensures e != "" ==>
      |e| <= |name| && name == name[..|name| - |e|] + e && e[0] == '.' && forall k :: 0 < k < |e| ==> e[k] != '.'
  {
    var i := LastIndexOf(name, '.');
    if i < 0 || '\\' in name[i..] || '/' in name[i..] then "" else name[i..]
  }

  /** The extension, unless it would take more than half of a name. */
  function ShortExt(name: string): (e: string)
    ensures |e| <= MAX_LENGTH / 2 && |e| <= |name| && name == name[..|name| - |e|] + e
    ensures e != "" ==> e[0] == '.'
  {
    var e := Ext(name);
    if |e| > MAX_LENGTH / 2 then "" else e
  }

  // ----- Sanitising -----

  function Cleaned(base: string): string {
    seq(|base|, i requires 0 <= i < |base| => if IsFileChar(base[i]) then base[i] else '_')
  }

  function TrimDots(s: string): string {
    TrimRightBy(TrimLeftBy(s, IsDot), IsDot)
  }

  function Shortened(name: string): string {
    if |name| <= MAX_LENGTH then name
    else TrimRightBy(name[..MAX_LENGTH - |ShortExt(name)|], IsDot) + ShortExt(name)
  }

  /** A reserved name gets an underscore in front. */
  function Unreserved(name: string): string {
    if IsReserved(name) then "_" + name else name
  }

  function Sanitized(base: string): string {
    var name := TrimDots(Cleaned(base));
    if name == "" then FALLBACK else Shortened(Unreserved(name))
  }

  /** A name but for its length. */
  predicate IsLongName(name: string) {
    0 < |name| && AllFileChars(name) && name[0] != '.' && name[|name| - 1] != '.' && !IsReserved(name)
  }

  lemma {:induction false} LongIsNotReserved(name: string)
    requires |Cut(name, '.').before| > 4
    ensures !IsReserved(name)
  {
  }

  /** The part before the first dot, when the first dot is at k. */
  lemma {:induction false} FirstPart(name: string, k: nat)
    requires k <= |name| && '.' !in name[..k] && (k < |name| ==> name[k] == '.')
    ensures Cut(name, '.').before == name[..k]
  {
    if k < |name| {
      assert name == name[..k] + ['.'] + name[k + 1..];
      CutAt(name[..k], '.', name[k + 1..]);
    } else {
      assert name[..k] == name;
    }
  }

  lemma {:induction false} UnderscoreIsNotReserved(name: string)
    ensures !IsReserved("_" + name)
  {
    var s := "_" + name;
    var part := Cut(s, '.').before;
    assert s[0] == '_' && part != "" && part[0] == '_';
    assert ToLower(part)[0] == '_';
    UnderscoreInPart(ToLower(part));
  }

  lemma {:induction false} UnderscoreInPart(base: string)
    requires base != "" && base[0] == '_'
    ensures base != "con" && base != "prn" && base != "aux" && base != "nul"
    ensures !(|base| == 4 && (base[..3] == "com" || base[..3] == "lpt") && '1' <= base[3] <= '9')
  {
    assert |base| == 4 ==> base[..3][0] == '_';
  }

  /** Names with the same part before the first dot are reserved together. */
  lemma {:induction false} SamePart(a: string, b: string)
    requires Cut(a, '.').before == Cut(b, '.').before
    ensures IsReserved(a) == IsReserved(b)
  {
  }

  lemma {:induction false} ShortenedIsValid(name: string)
    requires IsLongName(name)
    ensures IsFileName(Shortened(name))
  {
    hide IsReserved, TrimRightBy, ShortExt;
    if |name| > MAX_LENGTH {
      var ext := ShortExt(name);
      var room := MAX_LENGTH - |ext|;
      var kept := TrimRightKeeps(name[..room], IsDot);
      assert kept > 0 by { assert name[..room][0] == name[0]; }
      assert name[..room][..kept] == name[..kept];
      JoinedIsValid(name, kept, ext);
      assert forall i :: kept <= i < room ==> IsDot(name[..room][i]) && name[..room][i] == name[i];
      ShortenedPart(name, room, kept, ext);
    }
  }

  lemma {:induction false} JoinedIsValid(name: string, kept: nat, ext: string)
    requires 0 < kept <= |name| - |ext| && AllFileChars(name) && name[0] != '.' && name[|name| - 1] != '.'
    requires name == name[..|name| - |ext|] + ext && (ext == "" ==> name[kept - 1] != '.')
    ensures var r := name[..kept] + ext; AllFileChars(r) && r[0] != '.' && r[|r| - 1] != '.'
  {
    var r := name[..kept] + ext;
    forall i | 0 <= i < |r| ensures IsFileChar(r[i]) {
      assert r[i] == if i < kept then name[i] else name[|name| - |ext| + i - kept];
    }
    assert ext != "" ==> r[|r| - 1] == ext[|ext| - 1] == name[|name| - 1];
  }

  lemma {:induction false} ShortenedPart(name: string, room: nat, kept: nat, ext: string)
    requires kept <= room < |name| && 4 < room && !IsReserved(name)
    requires forall i :: kept <= i < room ==> name[i] == '.'
    requires ext != "" ==> ext[0] == '.'
    ensures !IsReserved(name[..kept] + ext)
  {
    hide IsReserved;
    var r := name[..kept] + ext;
    var k := IndexOf(name[..room], '.');
    assert kept < room ==> name[..room][kept] == '.';
    if k < 0 {
      NoDots(name[..room]);
      FirstPart(r, room);
      LongIsNotReserved(r);
    } else {
      NoDots(name[..room][..k]);
      assert name[..room][..k] == name[..k] == r[..k];
      FirstPart(name, k);
      FirstPart(r, k);
      SamePart(r, name);
    }
  }

  lemma {:induction false} NoDots(s: string)
    requires forall i :: 0 <= i < |s| ==> s[i] != '.'
    ensures '.' !in s
  {
  }

  lemma {:induction false} TrimDotsKeeps(s: string)
    ensures var r := TrimDots(s); r != "" ==> r[0] != '.' && r[|r| - 1] != '.'
    ensures AllFileChars(s) ==> AllFileChars(TrimDots(s))
  {
    var cut := TrimLeftKeeps(s, IsDot);
    var kept := TrimRightKeeps(s[cut..], IsDot);
  }

  /** The result is a stored file name, and only stored file names stay as they are. */
  lemma {:induction false} SanitizedIsValid(base: string)
    ensures IsFileName(Sanitized(base))
    ensures Sanitized(base) == base <==> IsFileName(base)
  {
    hide IsReserved;
    var name := TrimDots(Cleaned(base));
    TrimDotsKeeps(Cleaned(base));
    if name == "" {
      FallbackIsValid();
    } else {
      if IsReserved(name) { UnderscoreIsNotReserved(name); }
      ShortenedIsValid(Unreserved(name));
    }
    if IsFileName(base) { ValidStays(base); }
  }

  lemma {:induction false} FallbackIsValid()
    ensures IsFileName(FALLBACK)
  {
    hide IsReserved;
    assert '.' !in FALLBACK;
    assert FALLBACK[..6] == FALLBACK;
    FirstPart(FALLBACK, 6);
    LongIsNotReserved(FALLBACK);
  }

  lemma {:induction false} ValidStays(base: string)
    requires IsFileName(base)
    ensures Sanitized(base) == base
  {
    hide IsReserved;
    assert Cleaned(base) == base;
    TrimLeftUnique(base, IsDot, 0);
    TrimRightUnique(base, IsDot, |base|);
    assert base[0..] == base && base[..|base|] == base;
  }

  /** Letters, digits, underscores, hyphens and dots stay; an underscore stands for anything else. */
  predicate CleanedChar(c: char, r: char) {
    if 'a' <= c <= 'z' || 'A' <= c <= 'Z' || '0' <= c <= '9' || c == '_' || c == '-' || c == '.' then r == c
    else r == '_'
  }

  lemma {:induction false} CleanedKeepsPlaces(base: string)
    ensures |Cleaned(base)| == |base| && forall i :: 0 <= i < |base| ==> CleanedChar(base[i], Cleaned(base)[i])
  {
  }

  lemma {:induction false} NothingToTrim(s: string)
    requires s != "" && s[0] != '.' && s[|s| - 1] != '.'
    ensures TrimDots(s) == s
  {
  }

  /** In a short name without dots at its ends every character has its place; a reserved name gets
      an underscore in front. */
  lemma {:induction false} SanitizedKeepsPlaces(base: string)
    requires 0 < |base| < MAX_LENGTH && base[0] != '.' && base[|base| - 1] != '.'
    ensures var r := Sanitized(base);
      var from := |r| - |base|;
      && from == (if IsReserved(Cleaned(base)) then 1 else 0) && (from == 1 ==> r[0] == '_')
      && forall i :: 0 <= i < |base| ==> CleanedChar(base[i], r[from + i])
  {
    hide TrimDots, IsReserved, Cleaned, Ext;
    var name, r := Cleaned(base), Sanitized(base);
    CleanedKeepsPlaces(base);
    assert CleanedChar(base[0], name[0]) && CleanedChar(base[|base| - 1], name[|base| - 1]);
    NothingToTrim(name);
    assert r == Unreserved(name);
    forall i | 0 <= i < |base| ensures CleanedChar(base[i], r[|r| - |base| + i]) {
      assert r[|r| - |base| + i] == name[i];
    }
  }

  method Clean(base: string) returns (b: string)
    ensures b == Cleaned(base)
  {
    hide IsFileChar;
    b := "";
    for i := 0 to |base|
      invariant b == Cleaned(base[..i])
    {
      assert base[..i + 1][..i] == base[..i];
      b := b + [if IsFileChar(base[i]) then base[i] else '_'];
    }
    assert base[..|base|] == base;
  }

  /** sanitizeWSTLSFileName. */
  method Sanitize(base: string) returns (name: string)
    ensures name == Sanitized(base)
  {
    hide IsReserved, TrimDots, TrimRightBy, Ext, Cleaned;
    var b := Clean(base);
    name := TrimDots(b);
    if name == "" {
      return FALLBACK;
    }
    if IsReserved(name) {
      name := "_" + name;
    }
    if |name| > MAX_LENGTH {
      var ext := Ext(name);
      if |ext| > MAX_LENGTH / 2 {
        ext := "";
      }
      name := TrimRightBy(name[..MAX_LENGTH - |ext|], IsDot) + ext;
    }
  }

  // ----- Unique names -----

  function Suffix(i: nat): string {
    "-" + Itoa(i)
  }

  /** The name with a number before its extension, shortened to fit. */
  function Candidate(name: string, i: nat): string
    requires |Suffix(i)| <= MAX_LENGTH / 2
  {
    var ext := ShortExt(name);
    var stem := name[..|name| - |ext|];
    var room := MAX_LENGTH - |Suffix(i)| - |ext|;
    (if |stem| > room then stem[..room] else stem) + Suffix(i) + ext
  }

  function Power10(k: nat): nat {
    if k == 0 then 1 else 10 * Power10(k - 1)
  }

  lemma {:induction false} ItoaLength(n: nat, k: nat)
    requires k > 0 && n < Power10(k)
    ensures |Itoa(n)| <= k
  {
    if n >= 10 {
      assert k > 1 by { assert Power10(1) == 10 * Power10(0); }
      ItoaLength(n / 10, k - 1);
    }
  }

  /** A 64-bit number has at most 19 digits. */
  lemma {:induction false} SuffixFits(i: nat)
    requires i <= MAX_INT
    ensures |Suffix(i)| <= 20
  {
    assert Power10(4) == 10000 by { assert Power10(2) == 100; }
    assert Power10(8) == 1_0000_0000 by { assert Power10(6) == 1_000_000; }
    assert Power10(12) == 1_0000_0000_0000 by { assert Power10(10) == 1_00_0000_0000; }
    assert Power10(16) == 1_0000_0000_0000_0000 by { assert Power10(14) == 1_00_0000_0000_0000; }
    assert Power10(19) == 1_000_0000_0000_0000_0000 by { assert Power10(18) == 1_00_0000_0000_0000_0000; }
    ItoaLength(i, 19);
  }

  lemma {:induction false} LowerDigits(s: string)
    requires AllDigits(s)
    ensures ToLower(s) == s
  {
  }

  lemma {:induction false} LowerAppend(a: string, b: string)
    ensures ToLower(a + b) == ToLower(a) + ToLower(b)
  {
  }

  /** What follows the last hyphen is determined when it consists of digits. */
  lemma {:induction false} LastHyphen(a: string, b: string, d: string, e: string)
    requires AllDigits(d) && AllDigits(e) && a + "-" + d == b + "-" + e
    ensures d == e
  {
    var s := a + "-" + d;
    assert s[|a|] == '-' && s[|b|] == '-';
    assert forall k :: |a| < k < |s| ==> s[k] == d[k - |a| - 1];
    assert forall k :: |b| < k < |s| ==> s[k] == e[k - |b| - 1];
    assert |a| == |b|;
    assert d == s[|a| + 1..] && e == s[|b| + 1..];
  }

  /** Neither cutting the stem nor lower case makes two candidates the same. */
  lemma {:induction false} CandidatesDiffer(name: string, i: nat, j: nat)
    requires i <= MAX_INT && j <= MAX_INT && i != j
    requires |Suffix(i)| <= 20 && |Suffix(j)| <= 20
    ensures ToLower(Candidate(name, i)) != ToLower(Candidate(name, j))
  {
    hide ToLower;
    if ToLower(Candidate(name, i)) == ToLower(Candidate(name, j)) {
      var ext := ToLower(ShortExt(name));
      var a := LowerCandidate(name, i);
      var b := LowerCandidate(name, j);
      AppendCancels(a + "-" + Itoa(i), b + "-" + Itoa(j), ext);
      LastHyphen(a, b, Itoa(i), Itoa(j));
    }
  }

  lemma {:induction false} AppendCancels(a: string, b: string, c: string)
    requires a + c == b + c
    ensures a == b
  {
    assert |a| == |b|;
    assert a == (a + c)[..|a|] && b == (b + c)[..|b|];
  }

  lemma {:induction false} LowerCandidate(name: string, i: nat) returns (a: string)
    requires |Suffix(i)| <= 20
    ensures ToLower(Candidate(name, i)) == a + "-" + Itoa(i) + ToLower(ShortExt(name))
  {
    hide ToLower, ShortExt;
    var ext := ShortExt(name);
    var stem := name[..|name| - |ext|];
    var room := MAX_LENGTH - |Suffix(i)| - |ext|;
    var kept := if |stem| > room then stem[..room] else stem;
    a := ToLower(kept);
    LowerAppend(kept + Suffix(i), ext);
    LowerAppend(kept, Suffix(i));
    LowerAppend("-", Itoa(i));
    LowerDigits(Itoa(i));
    LowerHyphen();
    assert a + ("-" + Itoa(i)) == a + "-" + Itoa(i);
  }

  lemma {:induction false} LowerHyphen()
    ensures ToLower("-") == "-"
  {
  }

  lemma {:induction false} CandidateIsValid(name: string, i: nat)
    requires IsFileName(name) && |Suffix(i)| <= 20
    ensures IsFileName(Candidate(name, i))
  {
    hide IsReserved, ShortExt, Suffix, AllFileChars;
    var ext := ShortExt(name);
    var room := MAX_LENGTH - |Suffix(i)| - |ext|;
    var stem := name[..|name| - |ext|];
    var kept := if |stem| > room then room else |stem|;
    StemIsNotEmpty(name);
    assert Candidate(name, i) == name[..kept] + Suffix(i) + ext;
    CandidateChars(name, kept, i, ext);
    CandidatePart(name, kept, i, ext);
  }

  lemma {:induction false} CandidatePart(name: string, kept: nat, i: nat, ext: string)
    requires kept <= |name| && !IsReserved(name) && (ext != "" ==> ext[0] == '.')
    ensures !IsReserved(name[..kept] + Suffix(i) + ext)
  {
    hide IsReserved, Itoa;
    var r := name[..kept] + Suffix(i) + ext;
    var k := IndexOf(name[..kept], '.');
    if k < 0 {
      NoDots(name[..kept]);
      HyphenIsNotReserved(name[..kept], Itoa(i), ext);
    } else {
      NoDots(name[..kept][..k]);
      assert name[..kept][..k] == name[..k] == r[..k];
      FirstPart(name, k);
      FirstPart(r, k);
      SamePart(r, name);
    }
  }

  lemma {:induction false} StemIsNotEmpty(name: string)
    requires IsFileName(name)
    ensures |ShortExt(name)| < |name|
  {
    hide IsReserved;
    assert |ShortExt(name)| == |name| ==> name == ShortExt(name);
  }

  lemma {:induction false} CandidateChars(name: string, kept: nat, i: nat, ext: string)
    requires 0 < kept <= |name| - |ext| && AllFileChars(name) && name[0] != '.' && name[|name| - 1] != '.'
    requires name == name[..|name| - |ext|] + ext
    ensures var r := name[..kept] + Suffix(i) + ext; AllFileChars(r) && r[0] != '.' && r[|r| - 1] != '.'
  {
    var r := name[..kept] + Suffix(i) + ext;
    forall k | 0 <= k < |r| ensures IsFileChar(r[k]) {
      if k < kept {
        assert r[k] == name[k];
      } else if k < kept + |Suffix(i)| {
        assert k > kept ==> r[k] == Itoa(i)[k - kept - 1];
      } else {
        assert r[k] == name[|name| - |ext| + k - kept - |Suffix(i)|];
      }
    }
    assert ext != "" ==> r[|r| - 1] == ext[|ext| - 1] == name[|name| - 1];
    assert ext == "" ==> r[|r| - 1] == Itoa(i)[|Itoa(i)| - 1];
  }

  lemma {:induction false} HyphenIsNotReserved(stem: string, digits: string, ext: string)
    requires '.' !in stem && AllDigits(digits) && (ext != "" ==> ext[0] == '.')
    ensures !IsReserved(stem + ("-" + digits) + ext)
  {
    var r := stem + ("-" + digits) + ext;
    var k := |stem| + 1 + |digits|;
    var part := stem + ("-" + digits);
    assert r[..k] == part;
    assert '.' !in part;
    FirstPart(r, k);
    var lower := ToLower(part);
    assert lower[|stem|] == '-';
    HyphenInPart(lower, |stem|);
  }

  lemma {:induction false} HyphenInPart(base: string, k: nat)
    requires k < |base| && base[k] == '-'
    ensures base != "con" && base != "prn" && base != "aux" && base != "nul"
    ensures !(|base| == 4 && (base[..3] == "com" || base[..3] == "lpt") && '1' <= base[3] <= '9')
  {
    assert |base| == 4 && k < 3 ==> base[..3][k] == '-';
  }

  lemma {:induction false} Pigeons(seen: set<string>, taken: set<string>)
    requires seen <= taken
    ensures |seen| <= |taken|
  {
    if seen != {} {
      var x :| x in seen;
      Pigeons(seen - {x}, taken - {x});
    }
  }

  /** uniqueWSTLSFileName: the name, or else its first free candidate, found within one more
      candidate than there are names taken. */
  method Unique(name: string, taken: set<string>) returns (r: string, i: nat)
    requires |taken| + 2 <= MAX_INT
    ensures ToLower(r) !in taken
    ensures i == 0 ==> r == name
    ensures i != 0 ==> ToLower(name) in taken && 2 <= i <= |taken| + 2 && |Suffix(i)| <= 20 && r == Candidate(name, i)
    ensures forall k :: 2 <= k < i ==> |Suffix(k)| <= 20 && ToLower(Candidate(name, k)) in taken
    ensures IsFileName(name) ==> IsFileName(r)
  {
    hide ToLower, IsReserved, Itoa, Candidate;
    if ToLower(name) !in taken {
      return name, 0;
    }
    ghost var seen: set<string> := {};
    i := 2;
    SuffixFits(2);
    r := Next(name, 2);
    while ToLower(r) in taken
      invariant 2 <= i <= |taken| + 2 && |Suffix(i)| <= 20 && r == Candidate(name, i)
      invariant seen <= taken && |seen| == i - 2
      invariant forall k :: 2 <= k < i ==> |Suffix(k)| <= 20 && ToLower(Candidate(name, k)) in seen
      invariant forall x :: x in seen ==>
        exists k :: 2 <= k < i && |Suffix(k)| <= 20 && x == ToLower(Candidate(name, k))
      decreases |taken| + 2 - i
    {
      assert ToLower(r) !in seen by {
        if ToLower(r) in seen {
          var k :| 2 <= k < i && |Suffix(k)| <= 20 && ToLower(r) == ToLower(Candidate(name, k));
          CandidatesDiffer(name, k, i);
        }
      }
      seen := seen + {ToLower(r)};
      Pigeons(seen, taken);
      i := i + 1;
      SuffixFits(i);
      r := Next(name, i);
    }
    if IsFileName(name) { CandidateIsValid(name, i); }
  }

  method Next(name: string, i: nat) returns (candidate: string)
    requires |Suffix(i)| <= 20
    ensures candidate == Candidate(name, i)
  {
    hide Ext, Suffix;
    var ext := Ext(name);
    if |ext| > MAX_LENGTH / 2 {
      ext := "";
    }
    var suffix := Suffix(i);
    candidate := name[..|name| - |ext|];
    if |candidate| + |suffix| + |ext| > MAX_LENGTH {
      candidate := candidate[..MAX_LENGTH - |suffix| - |ext|];
    }
    candidate := candidate + suffix + ext;
  }
}
