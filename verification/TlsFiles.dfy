/**
 * Taking the TLS files of a configuration into the store, and checking a configuration that
 * comes with stored files (conf/wstls.go).
 */
module TlsFiles {
  import opened Text
  import opened Config
  import opened TlsNames

  const MAX_FILE_SIZE := 0x10_0000
  const MAX_FILES := 64

  datatype Read = Data(bytes: seq<byte>) | Unreadable

  datatype TlsError = CannotRead(ref: string) | TooLarge(ref: string) | TooMany(n: nat)

  datatype Collected = Stored(names: map<string, string>) | Failed(error: TlsError)

  /** What the validator accepts: the references are stored names with their files, or local
      paths; the files are exactly the referenced ones, at most 64, and their names differ in
      more than letter case. */
  predicate Accepts(refs: seq<string>, files: map<string, seq<byte>>) {
    && (forall i :: 0 <= i < |refs| && refs[i] != "" ==> RefOk(refs[i], files))
    && |files| <= MAX_FILES
    && (forall n :: n in files ==> FileOk(n, refs, files))
    && (forall m, n :: m in files && n in files && ToLower(m) == ToLower(n) ==> m == n)
  }

  predicate RefOk(ref: string, files: map<string, seq<byte>>) {
    if IsFileName(ref) then ref in files else IsLocalPath(ref)
  }

  predicate FileOk(name: string, refs: seq<string>, files: map<string, seq<byte>>)
    requires name in files
  {
    IsFileName(name) && name in refs && |files[name]| <= MAX_FILE_SIZE
  }

  /** The names given so far: each is valid and taken, and no two differ only in letter case. */
  ghost predicate NamesOk(names: map<string, string>, taken: set<string>) {
    (forall r :: r in names ==> NameOk(names, r, taken)) && Distinct(names)
  }

  ghost predicate Distinct(names: map<string, string>) {
    forall r, r' :: r in names && r' in names && ToLower(names[r]) == ToLower(names[r']) ==> SameFile(names, r, r')
  }

  /** A reference that is a stored name stays that name, but for letter case. */
  predicate KeepsStored(names: map<string, string>) {
    forall r :: r in names && IsFileName(r) ==> ToLower(names[r]) == ToLower(r)
  }

  predicate NameOk(names: map<string, string>, ref: string, taken: set<string>)
    requires ref in names
  {
    IsFileName(names[ref]) && ToLower(names[ref]) in taken && (IsFileName(ref) ==> ToLower(names[ref]) == ToLower(ref))
  }

  /** Two references have the same name only if they are the same text, or both stored names
      that differ in letter case at most. */
  predicate SameFile(names: map<string, string>, r: string, r': string)
    requires r in names && r' in names
  {
    names[r] == names[r'] && (r == r' || (IsFileName(r) && IsFileName(r') && ToLower(r) == ToLower(r')))
  }

  lemma {:induction false} NewName(names: map<string, string>, taken: set<string>, ref: string, name: string)
    requires NamesOk(names, taken) && ref !in names && !IsFileName(ref)
    requires IsFileName(name) && ToLower(name) !in taken
    ensures NamesOk(names[ref := name], taken + {ToLower(name)})
  {
    hide IsFileName, ToLower;
    var names', taken' := names[ref := name], taken + {ToLower(name)};
    forall r | r in names' ensures NameOk(names', r, taken') { assert r != ref ==> NameOk(names, r, taken); }
    forall r, r' | r in names' && r' in names' && ToLower(names'[r]) == ToLower(names'[r'])
      ensures SameFile(names', r, r')
    {
      assert r != ref ==> NameOk(names, r, taken);
      assert r' != ref ==> NameOk(names, r', taken);
      assert r != ref && r' != ref ==> SameFile(names, r, r');
    }
  }

  /** Every name is the spelling of the reference in lower case. */
  ghost predicate Spelled(names: map<string, string>, spellings: map<string, string>) {
    && NamesOk(names, spellings.Keys)
    && (forall r :: r in names ==> IsFileName(r) && ToLower(r) in spellings && names[r] == spellings[ToLower(r)])
    && forall l :: l in spellings ==> IsFileName(spellings[l]) && ToLower(spellings[l]) == l
  }

  /** A stored name keeps the spelling in which it came first. */
  lemma {:induction false} KeptName(names: map<string, string>, spellings: map<string, string>, ref: string)
    requires Spelled(names, spellings) && IsFileName(ref)
    ensures var l := ToLower(ref); var spellings' := if l in spellings then spellings else spellings[l := ref];
      Spelled(names[ref := spellings'[l]], spellings')
  {
    hide IsFileName, ToLower;
    var l := ToLower(ref);
    var spellings' := if l in spellings then spellings else spellings[l := ref];
    var names' := names[ref := spellings'[l]];
    forall r | r in names' ensures NameOk(names', r, spellings'.Keys) {
      assert r != ref ==> NameOk(names, r, spellings.Keys);
    }
    forall r, r' | r in names' && r' in names' && ToLower(names'[r]) == ToLower(names'[r'])
      ensures SameFile(names', r, r')
    {
      assert r != ref ==> NameOk(names, r, spellings.Keys);
      assert r' != ref ==> NameOk(names, r', spellings.Keys);
    }
  }

  lemma {:induction false} NoNamesYet()
    ensures Spelled(map[], map[])
  {
  }

  predicate Part(a: map<string, string>, b: map<string, string>) {
    forall r :: r in a ==> r in b && a[r] == b[r]
  }

  /** All stored names among the references have a name. */
  predicate Claimed(refs: seq<string>, names: map<string, string>) {
    forall r :: r in refs && IsFileName(r) ==> r in names
  }

  /** Every reference has become its name; there are names for the references only. */
  ghost predicate Rewritten(refs: seq<string>, names: map<string, string>, cells: seq<string>) {
    && |cells| == |refs|
    && (forall r :: r in names <==> r in refs && r != "")
    && forall i :: 0 <= i < |refs| ==> cells[i] == if refs[i] in names then names[refs[i]] else ""
  }

  /** The files are those named in the cells. */
  predicate FilesOk(cells: seq<string>, files: map<string, seq<byte>>) {
    && (forall c :: c in cells && c != "" ==> c in files)
    && forall n :: n in files ==> FileOk(n, cells, files)
  }

  ghost predicate WasRead(name: string, bytes: seq<byte>, names: map<string, string>, read: (nat, string) -> Read) {
    exists k, ref :: ref in names && names[ref] == name && read(k, ref) == Data(bytes)
  }

  ghost predicate ErrorOk(e: TlsError, refs: seq<string>, read: (nat, string) -> Read) {
    match e
    case CannotRead(ref) => ref in refs && exists k :: read(k, ref) == Unreadable
    case TooLarge(ref) => ref in refs && exists k :: read(k, ref).Data? && |read(k, ref).bytes| > MAX_FILE_SIZE
    case TooMany(n) => n > MAX_FILES
  }

  /** After the first references: `cells` is what they have become. */
  ghost predicate Progress(refs: seq<string>, cells: seq<string>, names: map<string, string>,
    stored: map<string, string>,
    collected: map<string, seq<byte>>, read: (nat, string) -> Read)
  {
    && Rewritten(refs, stored, cells) && Part(stored, names) && FilesOk(cells, collected)
    && forall n :: n in collected ==> WasRead(n, collected[n], stored, read)
  }

  lemma {:induction false} NothingYet(names: map<string, string>, read: (nat, string) -> Read)
    ensures Progress([], [], names, map[], map[], read)
  {
  }

  lemma {:induction false} ProgressStays(refs: seq<string>, cells: seq<string>, names: map<string, string>,
    names': map<string, string>,
    stored: map<string, string>, collected: map<string, seq<byte>>, read: (nat, string) -> Read)
    requires Progress(refs, cells, names, stored, collected, read) && Part(names, names')
    ensures Progress(refs, cells, names', stored, collected, read)
  {
  }

  lemma {:induction false} ErrorIsOk(e: TlsError, ref: string, refs: seq<string>, read: (nat, string) -> Read, k: nat)
    requires ref in refs && e == if read(k, ref).Unreadable? then CannotRead(ref) else TooLarge(ref)
    requires read(k, ref).Data? ==> |read(k, ref).bytes| > MAX_FILE_SIZE
    ensures ErrorOk(e, refs, read)
  {
    assert read(k, ref) == Unreadable || read(k, ref).Data?;
  }

  lemma {:induction false} TooManyIsOk(n: nat, refs: seq<string>, read: (nat, string) -> Read)
    requires n > MAX_FILES
    ensures ErrorOk(TooMany(n), refs, read)
  {
  }

  lemma {:induction false} FilesSize(cells: seq<string>, files: map<string, seq<byte>>, name: string)
    requires FilesOk(cells, files) && name in files
    ensures |files[name]| <= MAX_FILE_SIZE
  {
    assert FileOk(name, cells, files);
  }

  lemma {:induction false} Skip(refs: seq<string>, cells: seq<string>, names: map<string, string>,
    stored: map<string, string>,
    files: map<string, seq<byte>>, read: (nat, string) -> Read)
    requires Progress(refs, cells, names, stored, files, read)
    ensures Progress(refs + [""], cells + [""], names, stored, files, read)
  {
    hide IsFileName;
    assert forall n :: n in files ==> FileOk(n, cells, files);
  }

  lemma {:induction false} RewriteGrows(refs: seq<string>, stored: map<string, string>, names: map<string, string>,
    cells: seq<string>, ref: string)
    requires Rewritten(refs, stored, cells) && Part(stored, names) && ref != "" && ref in names
    ensures var stored' := stored[ref := names[ref]];
      Rewritten(refs + [ref], stored', cells + [names[ref]]) && Part(stored', names) && Part(stored, stored')
  {
    assert ref in stored ==> stored[ref] == names[ref];
  }

  lemma {:induction false} ReadStays(name: string, bytes: seq<byte>, stored: map<string, string>,
    names: map<string, string>,
    read: (nat, string) -> Read, ref: string)
    requires WasRead(name, bytes, stored, read) && Part(stored, names) && ref in names
    ensures WasRead(name, bytes, stored[ref := names[ref]], read)
  {
    var k, r :| r in stored && stored[r] == name && read(k, r) == Data(bytes);
    assert stored[ref := names[ref]][r] == name;
  }

  lemma {:induction false} FilesGrow(cells: seq<string>, files: map<string, seq<byte>>, name: string, bytes: seq<byte>)
    requires FilesOk(cells, files) && IsFileName(name) && |bytes| <= MAX_FILE_SIZE
    requires name in files ==> files[name] == bytes
    ensures FilesOk(cells + [name], files[name := bytes])
  {
    hide IsFileName;
    assert forall n :: n in files ==> FileOk(n, cells, files);
  }

  lemma {:induction false} StoredIsDistinct(stored: map<string, string>, names: map<string, string>, taken: set<string>)
    requires NamesOk(names, taken) && Part(stored, names)
    ensures Distinct(stored) && KeepsStored(stored)
  {
    hide IsFileName, ToLower;
    forall r, r' | r in stored && r' in stored && ToLower(stored[r]) == ToLower(stored[r'])
      ensures SameFile(stored, r, r')
    {
      assert SameFile(names, r, r');
    }
    forall r | r in stored && IsFileName(r) ensures ToLower(stored[r]) == ToLower(r) {
      assert NameOk(names, r, taken);
    }
  }

  lemma {:induction false} CollectedIsAccepted(refs: seq<string>, stored: map<string, string>,
    names: map<string, string>,
    taken: set<string>, cells: seq<string>, files: map<string, seq<byte>>, read: (nat, string) -> Read)
    requires NamesOk(names, taken) && Progress(refs, cells, names, stored, files, read) && |files| <= MAX_FILES
    ensures Accepts(cells, files) && Distinct(stored) && KeepsStored(stored) && Rewritten(refs, stored, cells)
    ensures forall n :: n in files ==> WasRead(n, files[n], stored, read)
  {
    hide IsFileName, ToLower, NamesOk, KeepsStored, Rewritten;
    StoredIsDistinct(stored, names, taken);
    forall i | 0 <= i < |cells| && cells[i] != "" ensures RefOk(cells[i], files) {
      assert cells[i] in cells && FileOk(cells[i], cells, files);
    }
    forall m, n | m in files && n in files && ToLower(m) == ToLower(n) ensures m == n {
      var r, r' := RefOf(refs, stored, cells, files, m), RefOf(refs, stored, cells, files, n);
      assert SameFile(stored, r, r');
    }
  }

  ghost function RefOf(refs: seq<string>, stored: map<string, string>, cells: seq<string>,
    files: map<string, seq<byte>>, n: string): (r: string)
    requires Rewritten(refs, stored, cells) && FilesOk(cells, files) && n in files
    ensures r in stored && stored[r] == n
  {
    assert FileOk(n, cells, files);
    EmptyIsNoName();
    var i :| 0 <= i < |cells| && cells[i] == n;
    refs[i]
  }

  /** The TLS fields of a configuration: the files of peer i are cells 3i to 3i + 2, and an
      empty cell is an absent reference. */
  class TlsConfig {
    const cells: array<string>
    var files: map<string, seq<byte>>

    constructor (refs: seq<string>, files: map<string, seq<byte>>)
      ensures cells[..] == refs && this.files == files && fresh(cells)
    {
      cells := new string[|refs|](i requires 0 <= i < |refs| => refs[i]);
      this.files := files;
    }

    /** The first loop of CollectWSTLSFiles: names of stored files stay as they are. */
    method ClaimStored() returns (names: map<string, string>, taken: set<string>)
      ensures NamesOk(names, taken) && Claimed(cells[..], names) && |taken| <= cells.Length
    {
      hide IsFileName, ToLower, NamesOk;
      names := map[];
      var spellings: map<string, string> := map[];
      NoNamesYet();
      for i := 0 to cells.Length
        invariant |spellings.Keys| <= i && Spelled(names, spellings) && Claimed(cells[..i], names)
      {
        hide Spelled;
        var ref := cells[i];
        if IsFileName(ref) {
          KeptName(names, spellings, ref);
          var lower := ToLower(ref);
          if lower !in spellings {
            assert spellings[lower := ref].Keys == spellings.Keys + {lower};
            spellings := spellings[lower := ref];
          }
          names := names[ref := spellings[lower]];
        }
        assert cells[..i + 1] == cells[..i] + [ref];
      }
      assert cells[..cells.Length] == cells[..];
      taken := spellings.Keys;
    }

    /** CollectWSTLSFiles. The reader may answer differently at every call. A success leaves a
        configuration the validator accepts, in which every reference is the name of its copy. */
    method Collect(read: (nat, string) -> Read, base: string -> string) returns (r: Collected)
      requires 2 * cells.Length + 2 <= MAX_INT
      modifies this, cells
      ensures r.Stored? ==> Accepts(cells[..], files)
      ensures r.Stored? ==> Rewritten(old(cells[..]), r.names, cells[..]) && Distinct(r.names) && KeepsStored(r.names)
      ensures r.Stored? ==> forall n :: n in files ==> WasRead(n, files[n], r.names, read)
      ensures r.Failed? ==> files == old(files) && ErrorOk(r.error, old(cells[..]), read)
    {
      hide IsFileName, ToLower, Distinct, NamesOk, Claimed, Progress, Rewritten, Accepts, WasRead, ErrorOk;
      ghost var refs := cells[..];
      var names, taken := ClaimStored();
      var stored: map<string, string> := map[];
      var collected: map<string, seq<byte>> := map[];
      var calls := 0;
      NothingYet(names, read);
      for i := 0 to cells.Length
        invariant |taken| <= cells.Length + i && files == old(files) && cells[i..] == refs[i..]
        invariant NamesOk(names, taken) && Claimed(refs, names)
        invariant Progress(refs[..i], cells[..i], names, stored, collected, read)
      {
        var ref := cells[i];
        assert ref == cells[i..][0] == refs[i];
        assert refs[..i + 1] == refs[..i] + [ref];
        ghost var before := cells[..i];
        if ref == "" {
          Skip(refs[..i], before, names, stored, collected, read);
          assert cells[..i + 1] == before + [""];
        } else {
          assert ref in refs;
          ghost var names0 := names;
          var name;
          names, taken, name := NameOf(refs, ref, names, taken, base);
          ProgressStays(refs[..i], before, names0, names, stored, collected, read);
          var error;
          error, stored, collected := Take(refs[..i], before, ref, names, stored, collected, read, calls);
          if error.Some? {
            ErrorIsOk(error.value, ref, refs, read, calls);
            return Failed(error.value);
          }
          calls := calls + 1;
          cells[i] := name;
          assert cells[..i + 1] == before + [name];
        }
      }
      assert cells[..cells.Length] == cells[..] && refs[..cells.Length] == refs;
      if |collected| > MAX_FILES {
        TooManyIsOk(|collected|, refs, read);
        return Failed(TooMany(|collected|));
      }
      files := collected;
      r := Stored(stored);
      CollectedIsAccepted(refs, stored, names, taken, cells[..], collected, read);
    }

    /** Reads the file of a reference, unless its name already has contents. */
    static method Take(ghost refs: seq<string>, ghost cells: seq<string>, ref: string, names: map<string, string>,
      stored: map<string, string>, collected: map<string, seq<byte>>, read: (nat, string) -> Read, calls: nat)
      returns (error: Option<TlsError>, stored': map<string, string>, collected': map<string, seq<byte>>)
      requires Progress(refs, cells, names, stored, collected, read) && ref != ""
      requires ref in names && IsFileName(names[ref])
      ensures error.None? ==> Progress(refs + [ref], cells + [names[ref]], names, stored', collected', read)
      ensures error.Some? ==> error.value == if read(calls, ref).Unreadable? then CannotRead(ref) else TooLarge(ref)
      ensures error.Some? && read(calls, ref).Data? ==> |read(calls, ref).bytes| > MAX_FILE_SIZE
    {
      hide IsFileName, ToLower, Rewritten, FilesOk, Part;
      var name := names[ref];
      RewriteGrows(refs, stored, names, cells, ref);
      forall n | n in collected ensures WasRead(n, collected[n], stored[ref := name], read) {
        ReadStays(n, collected[n], stored, names, read, ref);
      }
      error, stored', collected' := None, stored[ref := name], collected;
      if name !in collected {
        match read(calls, ref)
        case Unreadable =>
          error := Some(CannotRead(ref));
        case Data(bytes) =>
          if |bytes| > MAX_FILE_SIZE {
            error := Some(TooLarge(ref));
          } else {
            FilesGrow(cells, collected, name, bytes);
            assert read(calls, ref) == Data(bytes) && stored'[ref] == name;
            assert WasRead(name, bytes, stored', read);
            collected' := collected[name := bytes];
          }
      } else {
        FilesSize(cells, collected, name);
        FilesGrow(cells, collected, name, collected[name]);
        assert collected[name := collected[name]] == collected;
      }
    }

    /** The name of a reference: the one it has, or a new one made from the file name. */
    static method NameOf(ghost refs: seq<string>, ref: string, names: map<string, string>, taken: set<string>,
      base: string -> string)
      returns (names': map<string, string>, taken': set<string>, name: string)
      requires NamesOk(names, taken) && Claimed(refs, names) && ref in refs && |taken| + 2 <= MAX_INT
      ensures NamesOk(names', taken') && Claimed(refs, names') && Part(names, names') && |taken'| <= |taken| + 1
      ensures ref in names' && names'[ref] == name && IsFileName(name)
    {
      hide IsFileName, ToLower;
      if ref in names {
        names', taken', name := names, taken, names[ref];
        assert NameOk(names, ref, taken);
      } else {
        var clean := Sanitize(base(ref));
        SanitizedIsValid(base(ref));
        var i;
        name, i := Unique(clean, taken);
        NewName(names, taken, ref, name);
        names', taken' := names[ref := name], taken + {ToLower(name)};
      }
    }

    /** ValidateWSTLSFiles. The files are looked at in no particular order. */
    method Validate() returns (ok: bool)
      ensures ok <==> Accepts(cells[..], files)
    {
      hide IsFileName, ToLower, IsLocalPath;
      ghost var refs := cells[..];
      var referenced: set<string> := {};
      for i := 0 to cells.Length
        invariant forall k :: 0 <= k < i && refs[k] != "" ==> RefOk(refs[k], files)
        invariant forall n :: n in referenced <==> IsFileName(n) && n in refs[..i] && n != ""
      {
        var ref := cells[i];
        assert refs[..i + 1] == refs[..i] + [ref];
        if ref != "" {
          if IsFileName(ref) {
            referenced := referenced + {ref};
            if ref !in files {
              assert !RefOk(refs[i], files);
              return false;
            }
          } else if !IsLocalPath(ref) {
            assert !RefOk(refs[i], files);
            return false;
          }
        }
      }
      assert refs[..cells.Length] == refs;
      if |files| > MAX_FILES {
        return false;
      }
      EmptyIsNoName();
      ok := CheckFiles(referenced, refs);
    }

    method CheckFiles(referenced: set<string>, ghost refs: seq<string>) returns (ok: bool)
      requires forall n :: n in referenced <==> IsFileName(n) && n in refs
      ensures ok <==>
        && (forall n :: n in files ==> FileOk(n, refs, files))
        && (forall m, n :: m in files && n in files && ToLower(m) == ToLower(n) ==> m == n)
    {
      hide IsFileName, ToLower;
      var rest := files.Keys;
      var lowerNames: set<string> := {};
      while rest != {}
        invariant rest <= files.Keys
        invariant forall n :: n in files && n !in rest ==> FileOk(n, refs, files) && ToLower(n) in lowerNames
        invariant forall l :: l in lowerNames ==> exists n :: n in files && n !in rest && ToLower(n) == l
        invariant forall m, n ::
          m in files && n in files && m !in rest && n !in rest && ToLower(m) == ToLower(n) ==> m == n
        decreases |rest|
      {
        var name :| name in rest;
        if ToLower(name) in lowerNames {
          return false;
        }
        lowerNames := lowerNames + {ToLower(name)};
        rest := rest - {name};
        if !IsFileName(name) || name !in referenced {
          assert !FileOk(name, refs, files);
          return false;
        }
        if |files[name]| > MAX_FILE_SIZE {
          assert !FileOk(name, refs, files);
          return false;
        }
      }
      ok := true;
    }
  }

  lemma {:induction false} EmptyIsNoName()
    ensures !IsFileName("")
  {
  }
}
