/** Sealing an evidence bundle: the manifest, its validation and its verification against the files. */
module Manifest {
  import opened Basics
  import opened Paging
  import opened ByteStrings

  type Path = Bytes

  /** The regular files of a bundle by relative path. */
  type Files = map<Path, Bytes>

  const MANIFEST_PATH: Path := Ascii("manifest.v1.json")
  const RECEIPT_PATH: Path := Ascii("receipt.v1.json")
  const RESULT_PATH: Path := Ascii("verification-result.v1.json")
  const EXCLUDED: seq<Path> := [MANIFEST_PATH, RECEIPT_PATH, RESULT_PATH]

  datatype Entry = Entry(path: Path, sha256: Bytes, length: int)

  datatype Header = Header(schema: string, algorithm: string, root: string, excluded: seq<Path>)

  datatype Manifest = Manifest(header: Header, entries: seq<Entry>)

  function FrozenHeader(): Header {
    Header("ag.clean-host-evidence-manifest/v1", "sha256", ".", EXCLUDED)
  }

  /** One of the three files that report on the bundle from inside it. */
  ghost predicate IsResult(path: Path) {
    || path == Ascii("manifest.v1.json")
    || path == Ascii("receipt.v1.json")
    || path == Ascii("verification-result.v1.json")
  }

  ghost predicate IsFrozen(header: Header) {
    && header.schema == "ag.clean-host-evidence-manifest/v1" && header.algorithm == "sha256" && header.root == "."
    && header.excluded == [Ascii("manifest.v1.json"), Ascii("receipt.v1.json"), Ascii("verification-result.v1.json")]
  }

  lemma ResultsAreExcluded(path: Path)
    ensures IsResult(path) <==> path in EXCLUDED
  {
    hide Ascii;
  }

  lemma FrozenMeans(header: Header)
    ensures header == FrozenHeader() <==> IsFrozen(header)
  {
    hide Ascii;
  }

  function Paths(entries: seq<Entry>): (paths: seq<Path>)
    ensures |paths| == |entries| && forall i :: 0 <= i < |entries| ==> paths[i] == entries[i].path
  {
    seq(|entries|, i requires 0 <= i < |entries| => entries[i].path)
  }

  /** The entry says what the file at its path is. */
  ghost predicate Describes(digest: Bytes -> Bytes, files: Files, entry: Entry) {
    entry.path in files && entry.sha256 == digest(files[entry.path]) && entry.length == |files[entry.path]|
  }

  ghost function Covered(files: Files): set<Path> {
    NotResults(files.Keys)
  }

  ghost function NotResults(paths: set<Path>): set<Path> {
    set path | path in paths && !IsResult(path)
  }

  // ------------------------------------------------------------ field syntax

  /** The path as that library writes it back. */
  function Normalized(path: Path): Path {
    var parts := Meaningful(Split(path, SLASH));
    if parts == [] then [DOT] else Join(parts, SLASH)
  }

  /** The test as it is made: on the text, then on the library's components, then against the normalized text. */
  predicate PathPasses(path: Path) {
    && path != [] && path != [DOT] && BACKSLASH !in path && NUL !in path
    && path[0] != SLASH
    && (forall part :: part in Meaningful(Split(path, SLASH)) ==> part != [DOT, DOT])
    && Normalized(path) == path
  }

  /** Every slash-separated piece names something below the root. */
  ghost predicate IsPlainPath(path: Path) {
    && '\\' as int !in path && 0 !in path
    && var pieces := Split(path, '/' as int);
       [] !in pieces && Ascii(".") !in pieces && Ascii("..") !in pieces
  }

  lemma DotsAreAscii()
    ensures Ascii(".") == [DOT] && Ascii("..") == [DOT, DOT]
  {
  }

  /** The test accepts exactly those. */
  lemma PathPassesIff(path: Path)
    ensures PathPasses(path) <==> IsPlainPath(path)
  {
    DotsAreAscii();
    hide Ascii;
    var pieces := Split(path, SLASH);
    PiecesLackSeparator(path, SLASH);
    JoinSplit(path, SLASH);
    assert pieces[0] in pieces;
    if path == [] || path[0] == SLASH {
      assert pieces[0] == [];
    }
    if path == [DOT] {
      SplitWhole(path, SLASH);
    }
    if forall piece :: piece in pieces ==> !IsEmptyOrDot(piece) {
      NothingDropped(pieces);
    } else if PathPasses(path) {
      SplitJoin(Meaningful(pieces), SLASH);
    }
  }

  predicate IsDigest(text: Bytes) {
    && |text| == 71 && text[..7] == Ascii("sha256:")
    && forall byte :: byte in text[7..] ==> 48 <= byte <= 57 || 97 <= byte <= 102
  }

  /** "sha256:" and sixty-four lower-case hexadecimal digits. */
  ghost predicate IsSha256(text: Bytes) {
    exists hex: Bytes :: text == Ascii("sha256:") + hex && |hex| == 64 && forall digit :: digit in hex ==> IsHex(digit)
  }

  ghost predicate IsHex(digit: nat) {
    '0' as int <= digit <= '9' as int || 'a' as int <= digit <= 'f' as int
  }

  lemma DigestFormIff(text: Bytes)
    ensures IsDigest(text) <==> IsSha256(text)
  {
    if IsDigest(text) {
      assert text == Ascii("sha256:") + text[7..];
    }
    if IsSha256(text) {
      var hex :| text == Ascii("sha256:") + hex && |hex| == 64 && forall digit :: digit in hex ==> IsHex(digit);
      assert text[7..] == hex && text[..7] == Ascii("sha256:");
    }
  }

  predicate EntryPasses(entry: Entry) {
    PathPasses(entry.path) && IsDigest(entry.sha256) && entry.length >= 0
  }

  ghost predicate EntryIsSound(entry: Entry) {
    IsPlainPath(entry.path) && IsSha256(entry.sha256) && entry.length >= 0
  }

  lemma EntryPassesIff(entry: Entry)
    ensures EntryPasses(entry) <==> EntryIsSound(entry)
  {
    hide PathPasses, IsPlainPath, IsDigest, IsSha256;
    PathPassesIff(entry.path);
    DigestFormIff(entry.sha256);
  }

  /** The names found while walking pass the same test; the three result names always do. */
  ghost predicate Walkable(files: Files) {
    forall path :: path in Covered(files) ==> IsPlainPath(path)
  }

  // ------------------------------------------------------------ what a sealed bundle is

  /** The manifest is the increasing list of what the covered files are, and nothing else. */
  ghost predicate Sealed(digest: Bytes -> Bytes, files: Files, manifest: Manifest) {
    && IsFrozen(manifest.header)
    && Increasing(Below, Paths(manifest.entries))
    && Elements(Paths(manifest.entries)) == Covered(files)
    && forall e :: e in manifest.entries ==> Describes(digest, files, e)
  }

  /** A bundle has at most one manifest. */
  lemma ManifestIsUnique(digest: Bytes -> Bytes, files: Files, a: Manifest, b: Manifest)
    requires Sealed(digest, files, a) && Sealed(digest, files, b)
    ensures a == b
  {
    ListingIsUnique(Paths(a.entries), Paths(b.entries));
    forall i | 0 <= i < |a.entries| ensures a.entries[i] == b.entries[i] {
      assert Paths(a.entries)[i] == Paths(b.entries)[i];
      assert a.entries[i] in a.entries && b.entries[i] in b.entries;
    }
  }

  ghost predicate LooksAlike(digest: Bytes -> Bytes, a: Bytes, b: Bytes) {
    digest(a) == digest(b) && |a| == |b|
  }

  /** A manifest that seals one bundle seals another exactly when the covered files are the same paths with the same
      digests and lengths: adding, removing or altering one is caught unless the digest itself collides. */
  lemma ChangesAreCaught(digest: Bytes -> Bytes, files: Files, later: Files, manifest: Manifest)
    requires Sealed(digest, files, manifest)
    ensures Sealed(digest, later, manifest) <==>
            && Covered(later) == Covered(files)
            && forall path :: path in Covered(files) ==> LooksAlike(digest, files[path], later[path])
  {
    hide IsResult;
    var paths := Paths(manifest.entries);
    if Sealed(digest, later, manifest) {
      forall path | path in Covered(files) ensures LooksAlike(digest, files[path], later[path]) {
        assert path in Elements(paths);
        var i :| 0 <= i < |paths| && paths[i] == path;
        assert manifest.entries[i] in manifest.entries;
      }
    }
    if Covered(later) == Covered(files) && forall path :: path in Covered(files) ==> LooksAlike(digest, files[path], later[path]) {
      forall e | e in manifest.entries ensures Describes(digest, later, e) {
        var i :| 0 <= i < |manifest.entries| && manifest.entries[i] == e;
        assert paths[i] in Elements(paths);
      }
    }
  }

  // ------------------------------------------------------------ building

  method SortedPaths(paths: set<Path>) returns (listing: seq<Path>)
    ensures listing == Sorted(paths)
  {
    BelowIsTotalOrder();
    listing := [];
    var rest := paths;
    while rest != {}
      invariant rest <= paths && Increasing(Below, listing) && Elements(listing) == paths - rest
      invariant forall p, q :: p in listing && q in rest ==> Below(p, q)
      decreases |rest|
    {
      LeastExists(Below, rest);
      var least :| least in rest && forall k :: k in rest ==> k == least || Below(least, k);
      ElementsAppend(listing, [least]);
      listing := listing + [least];
      rest := rest - {least};
    }
    ListingIsUnique(listing, Sorted(paths));
  }

  /** The entries are what the first paths of the listing call for. */
  ghost predicate Built(digest: Bytes -> Bytes, files: Files, done: seq<Path>, entries: seq<Entry>) {
    && Increasing(Below, Paths(entries))
    && Elements(Paths(entries)) == NotResults(Elements(done))
    && forall e :: e in entries ==> Describes(digest, files, e)
  }

  lemma BuiltNext(digest: Bytes -> Bytes, files: Files, listing: seq<Path>, i: nat, entries: seq<Entry>, entry: Entry)
    requires i < |listing| && Increasing(Below, listing) && entry.path == listing[i] && Describes(digest, files, entry)
    requires Built(digest, files, listing[..i], entries)
    ensures Built(digest, files, listing[..i + 1], if IsResult(listing[i]) then entries else entries + [entry])
  {
    hide IsResult, Below;
    var path := listing[i];
    assert listing[..i + 1] == listing[..i] + [path];
    ElementsAppend(listing[..i], [path]);
    AppendEntry(entries, entry, listing, i);
    assert NotResults(Elements(listing[..i + 1])) ==
           NotResults(Elements(listing[..i])) + if IsResult(path) then {} else {path};
  }

  /** Walks the sorted paths once, skipping the three result files. */
  method BuildManifest(digest: Bytes -> Bytes, files: Files) returns (r: Option<Manifest>)
    ensures r.Some? <==> Walkable(files)
    ensures r.Some? ==> Sealed(digest, files, r.value)
  {
    hide IsResult, FrozenHeader, IsFrozen, Below, PathPasses, IsPlainPath;
    forall path ensures (IsResult(path) <==> path in EXCLUDED) && (PathPasses(path) <==> IsPlainPath(path)) {
      ResultsAreExcluded(path);
      PathPassesIff(path);
    }
    if exists path :: path in files && path !in EXCLUDED && !PathPasses(path) {
      return None;
    }
    var listing := SortedPaths(files.Keys);
    var entries: seq<Entry> := [];
    var i := 0;
    assert Elements(Paths(entries)) == NotResults(Elements(listing[..0]));
    while i < |listing|
      invariant i <= |listing| && Built(digest, files, listing[..i], entries)
    {
      var path := listing[i];
      assert path in Elements(listing);
      var content := files[path];
      var entry := Entry(path, digest(content), |content|);
      BuiltNext(digest, files, listing, i, entries, entry);
      if path !in EXCLUDED {
        entries := entries + [entry];
      }
      i := i + 1;
    }
    assert listing[..i] == listing;
    FrozenMeans(FrozenHeader());
    return Some(Manifest(FrozenHeader(), entries));
  }

  lemma AppendEntry(entries: seq<Entry>, entry: Entry, listing: seq<Path>, i: nat)
    requires i < |listing| && Increasing(Below, listing) && entry.path == listing[i]
    requires Increasing(Below, Paths(entries)) && Elements(Paths(entries)) <= Elements(listing[..i])
    ensures Increasing(Below, Paths(entries + [entry]))
    ensures Elements(Paths(entries + [entry])) == Elements(Paths(entries)) + {entry.path}
  {
    var paths, more := Paths(entries), Paths(entries + [entry]);
    assert more == paths + [entry.path];
    ElementsAppend(paths, [entry.path]);
    forall j | 0 <= j < |paths| ensures Below(paths[j], entry.path) {
      assert paths[j] in Elements(paths);
      var k :| 0 <= k < i && listing[k] == paths[j];
    }
  }

  // ------------------------------------------------------------ validating and verifying

  ghost predicate EntriesAreSound(entries: seq<Entry>) {
    forall e :: e in entries ==> EntryIsSound(e)
  }

  /** A manifest in the only form sealing produces: frozen header, sound entries, covered paths only, strictly
      increasing. */
  ghost predicate WellFormed(manifest: Manifest) {
    && IsFrozen(manifest.header)
    && EntriesAreSound(manifest.entries)
    && Increasing(Below, Paths(manifest.entries))
    && forall e :: e in manifest.entries ==> !IsResult(e.path)
  }

  /** Nondecreasing neighbours, which is what comparing a list with its sorted copy tests. */
  method IsSorted(paths: seq<Path>) returns (sorted: bool)
    ensures sorted <==> forall i, j :: 0 <= i < j < |paths| ==> !Below(paths[j], paths[i])
  {
    BelowIsTotalOrder();
    var i := 0;
    while i < |paths|
      invariant i <= |paths|
      invariant forall j, k :: 0 <= j < k < i ==> !Below(paths[k], paths[j])
    {
      if i > 0 && Below(paths[i], paths[i - 1]) {
        return false;
      }
      forall j | 0 <= j < i ensures !Below(paths[i], paths[j]) {
        assert j < i - 1 ==> !Below(paths[i - 1], paths[j]);
        BelowConnects(paths[j], paths[i - 1]);
      }
      i := i + 1;
    }
    return true;
  }

  /** One pass collects the paths, refusing excluded and repeated ones, then compares them with their sorted copy. */
  method ValidateManifest(manifest: Manifest) returns (valid: bool)
    ensures valid <==> WellFormed(manifest)
  {
    hide IsResult, IsFrozen, FrozenHeader, Below, EntryIsSound, EntryPasses;
    FrozenMeans(manifest.header);
    if manifest.header != FrozenHeader() {
      return false;
    }
    var entries, paths := manifest.entries, Paths(manifest.entries);
    var seen: set<Path> := {};
    var ordered: seq<Path> := [];
    var i := 0;
    while i < |entries|
      invariant i <= |entries| && ordered == paths[..i] && seen == Elements(ordered)
      invariant forall j :: 0 <= j < i ==> EntryIsSound(entries[j]) && !IsResult(entries[j].path)
      invariant forall j, k :: 0 <= j < k < i ==> paths[j] != paths[k]
    {
      var path := entries[i].path;
      EntryPassesIff(entries[i]);
      ResultsAreExcluded(path);
      if !EntryPasses(entries[i]) {
        assert entries[i] in entries;
        return false;
      }
      if path in EXCLUDED {
        assert entries[i] in entries;
        return false;
      }
      if path in seen {
        RepeatIsNotIncreasing(paths, i);
        return false;
      }
      ElementsAppend(ordered, [path]);
      seen := seen + {path};
      ordered := ordered + [path];
      i := i + 1;
    }
    assert ordered == paths;
    valid := IsSorted(ordered);
    SortedAndDistinct(paths);
  }

  lemma RepeatIsNotIncreasing(paths: seq<Path>, i: nat)
    requires i < |paths| && paths[i] in Elements(paths[..i])
    ensures !Increasing(Below, paths)
  {
    BelowIsTotalOrder();
    var j :| 0 <= j < i && paths[j] == paths[i];
    assert !Below(paths[j], paths[i]);
  }

  lemma SortedAndDistinct(paths: seq<Path>)
    requires forall j, k :: 0 <= j < k < |paths| ==> paths[j] != paths[k]
    ensures Increasing(Below, paths) <==> forall i, j :: 0 <= i < j < |paths| ==> !Below(paths[j], paths[i])
  {
    BelowIsTotalOrder();
    if Increasing(Below, paths) {
      forall i, j | 0 <= i < j < |paths| ensures !Below(paths[j], paths[i]) {
        assert Below(paths[i], paths[j]);
      }
    } else if forall i, j :: 0 <= i < j < |paths| ==> !Below(paths[j], paths[i]) {
      forall i, j | 0 <= i < j < |paths| ensures Below(paths[i], paths[j]) {
        BelowConnects(paths[i], paths[j]);
      }
    }
  }

  ghost predicate Matches(digest: Bytes -> Bytes, files: Files, manifest: Manifest) {
    && Elements(Paths(manifest.entries)) == Covered(files)
    && forall e :: e in manifest.entries ==> Describes(digest, files, e)
  }

  /** One pass over the files: nothing missing, nothing extra, every digest and length as declared. */
  method VerifyPass(digest: Bytes -> Bytes, files: Files, manifest: Manifest) returns (ok: bool)
    ensures ok <==> Matches(digest, files, manifest)
  {
    hide IsResult;
    forall path ensures IsResult(path) <==> path in EXCLUDED {
      ResultsAreExcluded(path);
    }
    var entries := manifest.entries;
    var expected := set path | path in files && path !in EXCLUDED;
    assert expected == Covered(files);
    if Elements(Paths(entries)) != expected {
      return false;
    }
    var i := 0;
    while i < |entries|
      invariant i <= |entries|
      invariant forall j :: 0 <= j < i ==> Describes(digest, files, entries[j])
    {
      assert Paths(entries)[i] in Elements(Paths(entries));
      var content := files[entries[i].path];
      if digest(content) != entries[i].sha256 || |content| != entries[i].length {
        assert entries[i] in entries;
        return false;
      }
      i := i + 1;
    }
    return true;
  }

  lemma SealedMeans(digest: Bytes -> Bytes, files: Files, manifest: Manifest)
    ensures Sealed(digest, files, manifest) && EntriesAreSound(manifest.entries) <==>
            WellFormed(manifest) && Matches(digest, files, manifest)
  {
    if Sealed(digest, files, manifest) {
      hide IsResult;
      forall e | e in manifest.entries ensures !IsResult(e.path) {
        var i :| 0 <= i < |manifest.entries| && manifest.entries[i] == e;
        assert Paths(manifest.entries)[i] in Elements(Paths(manifest.entries));
      }
    }
  }

  /** Verification reads the bundle twice and accepts exactly when the manifest seals what each reading found. */
  method VerifyManifestCoverage(digest: Bytes -> Bytes, first: Files, second: Files, manifest: Manifest)
    returns (ok: bool)
    ensures ok <==>
            EntriesAreSound(manifest.entries) && Sealed(digest, first, manifest) && Sealed(digest, second, manifest)
  {
    hide WellFormed, Matches, Sealed, EntriesAreSound;
    SealedMeans(digest, first, manifest);
    SealedMeans(digest, second, manifest);
    var valid := ValidateManifest(manifest);
    if !valid {
      return false;
    }
    var once := VerifyPass(digest, first, manifest);
    if !once {
      return false;
    }
    ok := VerifyPass(digest, second, manifest);
  }

  /** Every covered file has a digest of the expected form; a real SHA-256 always does. */
  ghost predicate DigestsAreSound(digest: Bytes -> Bytes, files: Files) {
    forall path :: path in Covered(files) ==> IsSha256(digest(files[path]))
  }

  lemma SoundnessOfSeal(digest: Bytes -> Bytes, files: Files, manifest: Manifest)
    requires Sealed(digest, files, manifest)
    ensures EntriesAreSound(manifest.entries) <==> Walkable(files) && DigestsAreSound(digest, files)
  {
    hide IsPlainPath, IsSha256, IsResult;
    var paths := Paths(manifest.entries);
    forall path | path in Covered(files) ensures exists e :: e in manifest.entries && e.path == path {
      assert path in Elements(paths);
      var i :| 0 <= i < |paths| && paths[i] == path;
      assert manifest.entries[i] in manifest.entries;
    }
    forall e | e in manifest.entries ensures e.path in Covered(files) {
      var i :| 0 <= i < |manifest.entries| && manifest.entries[i] == e;
      assert paths[i] in Elements(paths);
    }
  }

  /** Sealing writes the manifest exactly once, into a bundle of well-named files that holds none of the three result
      files, and what it wrote verifies.  A sealing that does not succeed writes nothing. */
  method SealBundle(digest: Bytes -> Bytes, encode: Manifest -> Bytes, files: Files)
    returns (after: Files, manifest: Option<Manifest>)
    ensures manifest.Some? <==>
            (forall path :: path in files ==> !IsResult(path)) && Walkable(files) && DigestsAreSound(digest, files)
    ensures manifest.None? ==> after == files
    ensures manifest.Some? ==> after == files[Ascii("manifest.v1.json") := encode(manifest.value)]
    ensures manifest.Some? ==> Sealed(digest, files, manifest.value) && Sealed(digest, after, manifest.value)
  {
    hide Walkable, DigestsAreSound, Sealed, WellFormed, Matches, EntriesAreSound;
    after := files;
    if MANIFEST_PATH in files || RECEIPT_PATH in files || RESULT_PATH in files {
      return files, None;
    }
    manifest := BuildManifest(digest, files);
    if manifest.None? {
      return;
    }
    SealedMeans(digest, files, manifest.value);
    SoundnessOfSeal(digest, files, manifest.value);
    SealedMatches(digest, files, manifest.value);
    var valid := ValidateManifest(manifest.value);
    if !valid {
      return files, None;
    }
    after := files[MANIFEST_PATH := encode(manifest.value)];
    ResultsAreNotCovered(digest, files, after, manifest.value);
    var verified := VerifyManifestCoverage(digest, after, after, manifest.value);
    if !verified {
      assert false;
      return files, None;
    }
  }

  lemma SealedMatches(digest: Bytes -> Bytes, files: Files, manifest: Manifest)
    requires Sealed(digest, files, manifest)
    ensures Matches(digest, files, manifest)
    ensures WellFormed(manifest) ==> EntriesAreSound(manifest.entries)
  {
  }

  /** Writing, changing or removing a result file never breaks a seal. */
  lemma ResultsAreNotCovered(digest: Bytes -> Bytes, files: Files, later: Files, manifest: Manifest)
    requires Sealed(digest, files, manifest)
    requires forall path :: !IsResult(path) ==> (path in files <==> path in later)
    requires forall path :: path in files && path in later && !IsResult(path) ==> later[path] == files[path]
    ensures Sealed(digest, later, manifest)
  {
    hide IsResult;
    ChangesAreCaught(digest, files, later, manifest);
    assert Covered(later) == Covered(files);
  }
}
