/** The facts store, addressed by content, and the pointer table in front of it. */
module Facts {
  import opened Prelude
  import opened Text

  const FILESYSTEM_SCHEME := "fs"

  datatype FactsPointer = FactsPointer(scheme: string, path: string) {
    function Text(): string { if scheme == "" then path else scheme + ":" + path }
  }

  datatype StoreError =
    | FactsNotFound | UnsupportedScheme | EmptyPath | AbsolutePath | EscapesRoot
    | EmptyPointerScheme | EmptyPointerPath | Unavailable

  function PointerHash(sha: Sha, p: FactsPointer): Hash128 { Truncated(sha, p.Text()) }

  // ----- paths -----

  /** The components of a path, one per stretch between slashes. */
  function Split(path: string): (r: seq<string>)
    ensures r != [] && forall i :: 0 <= i < |r| ==> '/' !in r[i]
  {
    if path == "" then [""]
    else
      var rest := Split(path[1..]);
      if path[0] == '/' then [""] + rest else [[path[0]] + rest[0]] + rest[1..]
  }

  function Join(components: seq<string>): string {
    if components == [] then "" else if |components| == 1 then components[0]
    else components[0] + "/" + Join(components[1..])
  }

  /** One component applied to the components kept so far. */
  function Enter(kept: seq<string>, c: string): seq<string> {
    if c == "" || c == "." then kept
    else if c == ".." && kept != [] && kept[|kept| - 1] != ".." then kept[..|kept| - 1]
    else kept + [c]
  }

  function Resolve(components: seq<string>): seq<string> {
    if components == [] then [] else Enter(Resolve(components[..|components| - 1]), components[|components| - 1])
  }

  /** `filepath.Clean` of a relative path. */
  function Clean(path: string): string {
    var kept := Resolve(Split(path));
    if kept == [] then "." else Join(kept)
  }

  function CleanRelativePath(path: string): Result<string, StoreError> {
    if path == "" then Err(EmptyPath)
    else if path[0] == '/' then Err(AbsolutePath)
    else
      var clean := Clean(path);
      if clean == "." || "../" <= clean || clean == ".." then Err(EscapesRoot)
      else Ok(clean)
  }

  /** How deep below the root a walk along `components` ends, or nothing when it ever climbs
      above the root. */
  function Depth(components: seq<string>): Option<nat> {
    if components == [] then Some(0)
    else match Depth(components[..|components| - 1])
      case None => None
      case Some(d) =>
        var c := components[|components| - 1];
        if c == "" || c == "." then Some(d)
        else if c == ".." then (if d == 0 then None else Some(d - 1))
        else Some(d + 1)
  }

  ghost predicate PlainNames(kept: seq<string>) {
    forall i :: 0 <= i < |kept| ==> kept[i] != "" && kept[i] != "." && kept[i] != ".." && '/' !in kept[i]
  }

  /** What walking along some components has kept, against how deep it ends. */
  ghost predicate WalkFits(kept: seq<string>, depth: Option<nat>) {
    && (depth.Some? ==> PlainNames(kept) && |kept| == depth.value)
    && (depth.None? ==> kept != [] && kept[0] == "..")
    && (forall i :: 0 <= i < |kept| ==> '/' !in kept[i] && kept[i] != "" && kept[i] != ".")
    && (forall i, j :: 0 <= i < j < |kept| && kept[j] == ".." ==> kept[i] == "..")
  }

  lemma EnterDown(kept: seq<string>, depth: Option<nat>, c: string)
    requires WalkFits(kept, depth) && '/' !in c && c != "" && c != "." && c != ".."
    ensures WalkFits(Enter(kept, c), if depth == None then None else Some(depth.value + 1))
  {}

  lemma EnterUp(kept: seq<string>, depth: Option<nat>)
    requires WalkFits(kept, depth)
    ensures WalkFits(Enter(kept, ".."), if depth == None || depth.value == 0 then None else Some(depth.value - 1))
  {}

  lemma {:induction false} ResolveDepth(components: seq<string>)
    requires forall i :: 0 <= i < |components| ==> '/' !in components[i]
    ensures WalkFits(Resolve(components), Depth(components))
  {
    if components != [] {
      var front, c := components[..|components| - 1], components[|components| - 1];
      ResolveDepth(front);
      if c == ".." {
        EnterUp(Resolve(front), Depth(front));
      } else if c != "" && c != "." {
        EnterDown(Resolve(front), Depth(front), c);
      }
    }
  }

  lemma JoinFirst(kept: seq<string>)
    requires kept != [] && '/' !in kept[0]
    ensures Join(kept) == ".." || "../" <= Join(kept) <==> kept[0] == ".."
    ensures Join(kept) == "." ==> kept == ["."]
  {
    var j := Join(kept);
    if |kept| > 1 {
      assert j[|kept[0]|] == '/';
      assert forall i :: 0 <= i < |kept[0]| ==> j[i] == kept[0][i];
      if kept[0] == ".." {
        assert j[..3] == "../";
      }
      if "../" <= j {
        assert j[2] == '/' && j[0] == '.' && j[1] == '.';
        assert |kept[0]| == 2;
        assert kept[0] == "..";
      }
    } else {
      assert forall i :: 0 <= i < |j| ==> j[i] != '/';
      assert "../"[2] == '/';
    }
  }

  /** A path is accepted exactly when it is a relative walk that never climbs above the root
      and ends below it. */
  lemma AcceptedPaths(path: string)
    ensures CleanRelativePath(path).Ok? <==>
            path != "" && path[0] != '/' && Depth(Split(path)).Some? && Depth(Split(path)).value > 0
    ensures CleanRelativePath(path).Ok? ==>
            exists kept :: kept != [] && PlainNames(kept) && CleanRelativePath(path).value == Join(kept)
  {
    var kept := Resolve(Split(path));
    ResolveDepth(Split(path));
    if kept != [] {
      JoinFirst(kept);
    }
    if CleanRelativePath(path).Ok? {
      assert kept != [] && PlainNames(kept) && CleanRelativePath(path).value == Join(kept);
    }
  }

  lemma {:induction false} SplitJoin(kept: seq<string>)
    requires kept != [] && forall i :: 0 <= i < |kept| ==> '/' !in kept[i]
    ensures Split(Join(kept)) == kept
    decreases |kept|, |kept[0]|
  {
    var first := kept[0];
    var j := Join(kept);
    if first == "" {
      if |kept| > 1 {
        SplitJoin(kept[1..]);
        assert j == ['/'] + Join(kept[1..]);
        assert j[1..] == Join(kept[1..]);
        assert kept == [""] + kept[1..];
      }
    } else {
      var shorter := kept[0 := first[1..]];
      assert j == [first[0]] + Join(shorter);
      SplitJoin(shorter);
      assert first == [first[0]] + first[1..];
      assert j[1..] == Join(shorter);
      assert kept == [first] + shorter[1..];
    }
  }

  lemma {:induction false} ResolvePlain(kept: seq<string>)
    requires PlainNames(kept)
    ensures Resolve(kept) == kept
  {
    if kept != [] {
      ResolvePlain(kept[..|kept| - 1]);
    }
  }

  /** A path built from plain names is its own clean form. */
  lemma CleanPlain(kept: seq<string>)
    requires kept != [] && PlainNames(kept)
    ensures CleanRelativePath(Join(kept)) == Ok(Join(kept))
  {
    SplitJoin(kept);
    ResolvePlain(kept);
    JoinFirst(kept);
    assert Join(kept)[0] == kept[0][0];
  }

  // ----- the facts store -----

  function ContentNames(sha: Sha, facts: string): seq<string> {
    var encoded := Hex(sha(facts));
    [encoded[..2], encoded[2..4], encoded + ".facts"]
  }

  /** Where a document is kept: a path spelled from the digest of its bytes. */
  function DeterministicPath(sha: Sha, facts: string): string { Join(ContentNames(sha, facts)) }

  function PointerFor(sha: Sha, facts: string): FactsPointer {
    FactsPointer(FILESYSTEM_SCHEME, DeterministicPath(sha, facts))
  }

  type Files = map<string, string>

  function FilePut(sha: Sha, files: Files, facts: string): Files { files[DeterministicPath(sha, facts) := facts] }

  function FileGet(files: Files, p: FactsPointer): Result<string, StoreError> {
    if p.scheme != FILESYSTEM_SCHEME then Err(UnsupportedScheme)
    else match CleanRelativePath(p.path)
      case Err(e) => Err(e)
      case Ok(path) => if path in files then Ok(files[path]) else Err(FactsNotFound)
  }

  lemma ContentNamesPlain(sha: Sha, facts: string)
    ensures PlainNames(ContentNames(sha, facts))
  {
    var encoded := Hex(sha(facts));
    var names := ContentNames(sha, facts);
    assert |encoded| == 64;
    forall i | 0 <= i < |names| ensures names[i] != "" && names[i] != "." && names[i] != ".." && '/' !in names[i] {
      assert names[i][0] == if i == 1 then encoded[2] else encoded[0];
      assert IsHex(names[i][0]);
    }
  }

  /** Reading a content pointer looks up exactly the path its document was written to. */
  lemma GetByContent(sha: Sha, files: Files, facts: string)
    ensures FileGet(files, PointerFor(sha, facts)) ==
            if DeterministicPath(sha, facts) in files then Ok(files[DeterministicPath(sha, facts)])
                else Err(FactsNotFound)
  {
    ContentNamesPlain(sha, facts);
    CleanPlain(ContentNames(sha, facts));
  }

  /** Documents that share a path share a digest. */
  lemma PathDeterminesDigest(sha: Sha, a: string, b: string)
    requires DeterministicPath(sha, a) == DeterministicPath(sha, b)
    ensures sha(a) == sha(b)
  {
    ContentNamesPlain(sha, a);
    ContentNamesPlain(sha, b);
    SplitJoin(ContentNames(sha, a));
    SplitJoin(ContentNames(sha, b));
    assert ContentNames(sha, a)[2] == ContentNames(sha, b)[2];
    SplitFixed(Hex(sha(a)), Hex(sha(b)), ".facts", ".facts");
    HexInjective(sha(a), sha(b));
  }

  /** What was put is what is read back, and other documents stay readable unless they share
      the new document's digest. */
  lemma FileRoundTrip(sha: Sha, files: Files, facts: string, other: string)
    ensures FileGet(FilePut(sha, files, facts), PointerFor(sha, facts)) == Ok(facts)
    ensures sha(other) != sha(facts) ==>
            FileGet(FilePut(sha, files, facts), PointerFor(sha, other)) == FileGet(files, PointerFor(sha, other))
  {
    GetByContent(sha, FilePut(sha, files, facts), facts);
    GetByContent(sha, FilePut(sha, files, facts), other);
    GetByContent(sha, files, other);
    if DeterministicPath(sha, other) == DeterministicPath(sha, facts) {
      PathDeterminesDigest(sha, other, facts);
    }
  }

  class FilesystemStore {
    const sha: Sha
    var files: Files

    constructor (sha: Sha)
      ensures this.sha == sha && files == map[]
    {
      this.sha := sha;
      files := map[];
    }

    /** `up` says whether the disk takes the write. */
    method Put(facts: string, up: bool) returns (r: Result<FactsPointer, StoreError>)
      modifies this
      ensures r == if up then Ok(PointerFor(sha, facts)) else Err(Unavailable)
      ensures files == if up then FilePut(sha, old(files), facts) else old(files)
    {
      if !up {
        return Err(Unavailable);
      }
      var path := DeterministicPath(sha, facts);
      files := files[path := facts];
      r := Ok(FactsPointer(FILESYSTEM_SCHEME, path));
    }

    method Get(p: FactsPointer) returns (r: Result<string, StoreError>)
      ensures r == FileGet(files, p)
    {
      r := FileGet(files, p);
    }
  }

  // ----- the pointer table -----

  type Pointers = map<string, FactsPointer>

  function PointerKey(sha: Sha, p: FactsPointer): string { Hex(PointerHash(sha, p)) }

  function PointerGet(rows: Pointers, hash: Hash128): Result<FactsPointer, StoreError> {
    if Hex(hash) in rows then Ok(rows[Hex(hash)]) else Err(FactsNotFound)
  }

  /** The pointer a write was for is found under its hash, and every other hash finds what it found
      before. */
  lemma PointerRoundTrip(sha: Sha, rows: Pointers, p: FactsPointer, hash: Hash128)
    ensures PointerGet(rows[PointerKey(sha, p) := p], hash) == if hash == PointerHash(sha, p) then Ok(p)
            else PointerGet(rows, hash)
  {
    if Hex(hash) == PointerKey(sha, p) {
      HexInjective(hash, PointerHash(sha, p));
    }
  }

  class PostgresPointerStore {
    const sha: Sha
    var rows: Pointers

    constructor (sha: Sha)
      ensures this.sha == sha && rows == map[]
    {
      this.sha := sha;
      rows := map[];
    }

    method PutFactsPointer(p: FactsPointer, up: bool) returns (r: Option<StoreError>)
      modifies this
      ensures p.scheme == "" ==> r == Some(EmptyPointerScheme)
      ensures p.scheme != "" && p.path == "" ==> r == Some(EmptyPointerPath)
      ensures p.scheme != "" && p.path != "" ==> r == if up then None else Some(Unavailable)
      ensures rows == if r == None then old(rows)[PointerKey(sha, p) := p] else old(rows)
    {
      if p.scheme == "" {
        return Some(EmptyPointerScheme);
      }
      if p.path == "" {
        return Some(EmptyPointerPath);
      }
      if !up {
        return Some(Unavailable);
      }
      rows := rows[PointerKey(sha, p) := p];
      r := None;
    }

    method ResolveFactsPointer(hash: Hash128) returns (r: Result<FactsPointer, StoreError>)
      ensures r.Ok? <==> Hex(hash) in rows
      ensures r.Ok? ==> rows[Hex(hash)] == r.value
      ensures r.Err? ==> r.error == FactsNotFound
    {
      var factsHash := Hex(hash);
      if factsHash !in rows {
        return Err(FactsNotFound);
      }
      r := Ok(rows[factsHash]);
    }
  }
}
