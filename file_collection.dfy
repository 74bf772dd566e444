/** The file collection of the asset loader: three independent,
    order-preserving, duplicate-free lists (local files and watch files, both
    canonical paths; remote files, URLs kept as given) and a root directory
    fixed at construction. */
module WebLoader {
  import opened UniqueList
  import opened PathResolution

  /** The list and the outcome after adding paths one by one, left to right,
      each canonicalised first; the first path that does not resolve stops
      the batch, and the paths before it stay added. */
  function AddFilesOutcome(env: Resolver, s: seq<string>, paths: seq<string>): (r: (seq<string>, Result<()>))
    ensures r.1.FileNotFound? ==> r.1.path in paths
    ensures |s| <= |r.0| <= |s| + |paths|
    decreases |paths|
  {
    if paths == [] then (s, Ok(()))
    else
      match Canonicalize(env, paths[0])
      case FileNotFound(p) => (s, FileNotFound(p))
      case Ok(c) => AddFilesOutcome(env, AddUnique(s, c), paths[1..])
  }

  /** When every path resolves, the batch adds all canonical paths. */
  lemma {:induction false} AddFilesAllFound(env: Resolver, s: seq<string>, paths: seq<string>)
    requires CanonicalizeAll(env, paths).Ok?
    ensures AddFilesOutcome(env, s, paths) == (AddAll(s, CanonicalizeAll(env, paths).value), Ok(()))
    decreases |paths|
  {
    if paths != [] {
      var cs := CanonicalizeAll(env, paths).value;
      assert Canonicalize(env, paths[0]) == Ok(cs[0]);
      AddFilesAllFound(env, AddUnique(s, cs[0]), paths[1..]);
      assert CanonicalizeAll(env, paths[1..]).value == cs[1..];
    }
  }

  /** When path i is the first that does not resolve, the paths before it are
      added, the error names path i, and nothing after it is processed. */
  lemma {:induction false} AddFilesFirstMissing(env: Resolver, s: seq<string>, paths: seq<string>, i: nat)
    requires i < |paths|
    requires CanonicalizeAll(env, paths[..i]).Ok?
    requires Canonicalize(env, paths[i]).FileNotFound?
    ensures AddFilesOutcome(env, s, paths) ==
              (AddAll(s, CanonicalizeAll(env, paths[..i]).value), FileNotFound(paths[i]))
    decreases i
  {
    if i > 0 {
      var cs := CanonicalizeAll(env, paths[..i]).value;
      assert paths[..i][0] == paths[0];
      assert Canonicalize(env, paths[0]) == Ok(cs[0]);
      var rest := paths[1..];
      assert rest[..i - 1] == paths[..i][1..];
      assert rest[i - 1] == paths[i];
      AddFilesFirstMissing(env, AddUnique(s, cs[0]), rest, i - 1);
      assert CanonicalizeAll(env, rest[..i - 1]).value == cs[1..];
    }
  }

  /** The batch reports success exactly when every path resolves. */
  lemma AddFilesSucceedsIff(env: Resolver, s: seq<string>, paths: seq<string>)
    ensures AddFilesOutcome(env, s, paths).1 == Ok(()) <==> CanonicalizeAll(env, paths).Ok?
  {
    if CanonicalizeAll(env, paths).Ok? {
      AddFilesAllFound(env, s, paths);
    } else {
      var i :| && 0 <= i < |paths|
               && Canonicalize(env, paths[i]).FileNotFound?
               && forall j :: 0 <= j < i ==> Canonicalize(env, paths[j]).Ok?;
      assert CanonicalizeAll(env, paths[..i]).Ok? by {
        assert forall j :: 0 <= j < i ==> paths[..i][j] == paths[j];
      }
      AddFilesFirstMissing(env, s, paths, i);
    }
  }

  class FileCollection {
    /** The files root for relative paths, fixed at construction. */
    const root: Option<string>
    /** The path normaliser, an uninterpreted pure function. */
    const normalize: string -> string

    var files: seq<string>
    var watchFiles: seq<string>
    var remoteFiles: seq<string>

    /** No list holds a value twice. */
    ghost predicate Valid()
      reads this
    {
      NoDup(files) && NoDup(watchFiles) && NoDup(remoteFiles)
    }

    /** Path resolution with the filesystem as it is during one call. */
    function Env(existing: set<string>): Resolver {
      Resolver(root, normalize, existing)
    }

    constructor (root: Option<string>, normalize: string -> string)
      ensures Valid()
      ensures this.root == root && this.normalize == normalize
      ensures files == [] && watchFiles == [] && remoteFiles == []
    {
      this.root := root;
      this.normalize := normalize;
      files, watchFiles, remoteFiles := [], [], [];
    }

    method GetFiles() returns (r: seq<string>)
      requires Valid()
      ensures r == files && NoDup(r)
    {
      r := files;
    }

    method GetWatchFiles() returns (r: seq<string>)
      requires Valid()
      ensures r == watchFiles && NoDup(r)
    {
      r := watchFiles;
    }

    method GetRemoteFiles() returns (r: seq<string>)
      requires Valid()
      ensures r == remoteFiles && NoDup(r)
    {
      r := remoteFiles;
    }

    method GetRoot() returns (r: Option<string>)
      ensures r == root
    {
      r := root;
    }

    /** `cannonicalizePath`: the resolution order (root-relative candidate
        first, then the path on its own) is stated and proved on
        `Canonicalize`, which this method evaluates for the filesystem as it
        is during the call. */
    method CanonicalizePath(existing: set<string>, path: string) returns (r: Result<string>)
      ensures r == Canonicalize(Env(existing), path)
    {
      r := Canonicalize(Env(existing), path);
    }

    /** Canonicalise, then append unless already present. The error is raised
        before any list is touched. */
    method AddFile(existing: set<string>, file: string) returns (o: Result<()>)
      requires Valid()
      modifies this`files
      ensures Valid()
      ensures watchFiles == old(watchFiles) && remoteFiles == old(remoteFiles)
      ensures match Canonicalize(Env(existing), file)
              case Ok(c) => o == Ok(()) && files == AddUnique(old(files), c)
              case FileNotFound(p) => o == FileNotFound(p) && files == old(files)
    {
      var r := CanonicalizePath(existing, file);
      if r.FileNotFound? {
        return FileNotFound(r.path);
      }
      var c := r.value;
      if c in files {
        return Ok(());
      }
      files := files + [c];
      o := Ok(());
    }

    method AddFiles(existing: set<string>, paths: seq<string>) returns (o: Result<()>)
      requires Valid()
      modifies this`files
      ensures Valid()
      ensures watchFiles == old(watchFiles) && remoteFiles == old(remoteFiles)
      ensures (files, o) == AddFilesOutcome(Env(existing), old(files), paths)
    {
      var i := 0;
      while i < |paths|
        invariant 0 <= i <= |paths|
        invariant Valid()
        invariant AddFilesOutcome(Env(existing), files, paths[i..])
                  == AddFilesOutcome(Env(existing), old(files), paths)
      {
        assert paths[i..][1..] == paths[i + 1..];
        o := AddFile(existing, paths[i]);
        if o.FileNotFound? {
          return;
        }
        i := i + 1;
      }
      o := Ok(());
    }

    /** Canonicalise every path first, then drop every canonical path from
        the local files; one path that does not resolve leaves them as they
        were. */
    method RemoveFiles(existing: set<string>, paths: seq<string>) returns (o: Result<()>)
      requires Valid()
      modifies this`files
      ensures Valid()
      ensures watchFiles == old(watchFiles) && remoteFiles == old(remoteFiles)
      ensures match CanonicalizeAll(Env(existing), paths)
              case Ok(cs) => o == Ok(()) && files == Without(old(files), cs)
              case FileNotFound(p) => o == FileNotFound(p) && files == old(files)
    {
      var r := CanonicalizeAll(Env(existing), paths);
      match r
      case FileNotFound(p) =>
        o := FileNotFound(p);
      case Ok(cs) =>
        WithoutNoDup(files, cs);
        files := Without(files, cs);
        o := Ok(());
    }

    /** Exactly RemoveFiles of the one-element batch. */
    method RemoveFile(existing: set<string>, file: string) returns (o: Result<()>)
      requires Valid()
      modifies this`files
      ensures Valid()
      ensures watchFiles == old(watchFiles) && remoteFiles == old(remoteFiles)
      ensures match CanonicalizeAll(Env(existing), [file])
              case Ok(cs) => o == Ok(()) && files == Without(old(files), cs)
              case FileNotFound(p) => o == FileNotFound(p) && files == old(files)
      ensures Canonicalize(Env(existing), file).Ok? ==>
                Canonicalize(Env(existing), file).value !in files
    {
      CanonicalizeOne(Env(existing), file);
      o := RemoveFiles(existing, [file]);
    }

    /** Append the URL unless already present; no canonicalisation. */
    method AddRemoteFile(url: string)
      requires Valid()
      modifies this`remoteFiles
      ensures Valid()
      ensures files == old(files) && watchFiles == old(watchFiles)
      ensures remoteFiles == AddUnique(old(remoteFiles), url)
    {
      if url in remoteFiles {
        return;
      }
      remoteFiles := remoteFiles + [url];
    }

    method AddRemoteFiles(urls: seq<string>)
      requires Valid()
      modifies this`remoteFiles
      ensures Valid()
      ensures files == old(files) && watchFiles == old(watchFiles)
      ensures remoteFiles == AddAll(old(remoteFiles), urls)
    {
      var i := 0;
      while i < |urls|
        invariant 0 <= i <= |urls|
        invariant Valid()
        invariant AddAll(remoteFiles, urls[i..]) == AddAll(old(remoteFiles), urls)
      {
        assert urls[i..][1..] == urls[i + 1..];
        AddRemoteFile(urls[i]);
        i := i + 1;
      }
    }

    /** Empty all three lists; the root stays. */
    method Clear()
      modifies this`files, this`watchFiles, this`remoteFiles
      ensures Valid()
      ensures files == [] && watchFiles == [] && remoteFiles == []
    {
      files, watchFiles, remoteFiles := [], [], [];
    }

    /** AddFile for the independent watch list. */
    method AddWatchFile(existing: set<string>, file: string) returns (o: Result<()>)
      requires Valid()
      modifies this`watchFiles
      ensures Valid()
      ensures files == old(files) && remoteFiles == old(remoteFiles)
      ensures match Canonicalize(Env(existing), file)
              case Ok(c) => o == Ok(()) && watchFiles == AddUnique(old(watchFiles), c)
              case FileNotFound(p) => o == FileNotFound(p) && watchFiles == old(watchFiles)
    {
      var r := CanonicalizePath(existing, file);
      if r.FileNotFound? {
        return FileNotFound(r.path);
      }
      var c := r.value;
      if c in watchFiles {
        return Ok(());
      }
      watchFiles := watchFiles + [c];
      o := Ok(());
    }

    method AddWatchFiles(existing: set<string>, paths: seq<string>) returns (o: Result<()>)
      requires Valid()
      modifies this`watchFiles
      ensures Valid()
      ensures files == old(files) && remoteFiles == old(remoteFiles)
      ensures (watchFiles, o) == AddFilesOutcome(Env(existing), old(watchFiles), paths)
    {
      var i := 0;
      while i < |paths|
        invariant 0 <= i <= |paths|
        invariant Valid()
        invariant AddFilesOutcome(Env(existing), watchFiles, paths[i..])
                  == AddFilesOutcome(Env(existing), old(watchFiles), paths)
      {
        assert paths[i..][1..] == paths[i + 1..];
        o := AddWatchFile(existing, paths[i]);
        if o.FileNotFound? {
          return;
        }
        i := i + 1;
      }
      o := Ok(());
    }
  }

  /** A client: the walk-through of a root "/assets" holding "app.js", with
      the identity as normaliser. */
  method AssetsWalkThrough() {
    var existing := {"/assets/app.js"};
    var c := new FileCollection(Some("/assets"), p => p);
    assert RootRelative(c.root, "app.js") == "/assets/app.js";
    assert Canonicalize(c.Env(existing), "app.js") == Ok("/assets/app.js");
    var o := c.AddFile(existing, "app.js");
    assert o == Ok(()) && c.files == ["/assets/app.js"];
    o := c.AddFile(existing, "app.js");
    assert c.files == ["/assets/app.js"];
    o := c.RemoveFile(existing, "app.js");
    assert o == Ok(()) && c.files == [];
    assert RootRelative(c.root, "missing.js") == "/assets/missing.js";
    o := c.AddFile(existing, "missing.js");
    assert o == FileNotFound("missing.js") && c.files == [];
    c.AddRemoteFiles(["https://cdn.example.com/a.js", "https://cdn.example.com/a.js"]);
    assert c.remoteFiles == ["https://cdn.example.com/a.js"];
    c.Clear();
    var root := c.GetRoot();
    assert root == Some("/assets");
  }
}
