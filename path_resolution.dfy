/** Turning a path given by a caller into the canonical path of an existing
    file. The filesystem and the path normaliser are not part of the model:
    a Resolver carries the collection's root, the normaliser as an
    uninterpreted function, and the set of paths that exist during the call. */
module PathResolution {

  datatype Option<T> = None | Some(value: T)

  /** A value, or the FileNotFound error carrying the path the caller gave;
      an operation that yields nothing reports `Ok(())`. */
  datatype Result<T> = Ok(value: T) | FileNotFound(path: string)

  /** Everything path resolution consults. */
  datatype Resolver = Resolver(
    root: Option<string>,
    normalize: string -> string,
    existing: set<string>)

  /** The root-relative candidate `root . "/" . path`, before normalisation;
      a missing root concatenates as the empty string. */
  function RootRelative(root: Option<string>, path: string): (r: string)
    ensures root.None? ==> r == "/" + path
    ensures root.Some? ==> |r| == |root.value| + 1 + |path| && r[..|root.value|] == root.value
    ensures r[|r| - |path| - 1] == '/' && r[|r| - |path|..] == path
  {
    (match root case Some(dir) => dir case None => "") + "/" + path
  }

  /** Resolution order: the normalised root-relative candidate if it exists,
      otherwise the normalised path itself if it exists, otherwise
      FileNotFound with the path as given. */
  function Canonicalize(env: Resolver, path: string): (r: Result<string>)
    ensures r.Ok? ==> r.value in env.existing
    ensures r.Ok? ==> r.value == env.normalize(RootRelative(env.root, path))
                      || r.value == env.normalize(path)
    ensures env.normalize(RootRelative(env.root, path)) in env.existing ==>
              r == Ok(env.normalize(RootRelative(env.root, path)))
    ensures env.normalize(path) in env.existing ==> r.Ok?
    ensures r.FileNotFound? ==> r.path == path
  {
    var rel := env.normalize(RootRelative(env.root, path));
    if rel in env.existing then Ok(rel)
    else
      var abs := env.normalize(path);
      if abs in env.existing then Ok(abs) else FileNotFound(path)
  }

  /** Canonicalize every path, left to right (`array_map`); the first path
      that does not resolve ends the whole call with its error. */
  function CanonicalizeAll(env: Resolver, paths: seq<string>): (r: Result<seq<string>>)
    ensures r.Ok? ==>
              && |r.value| == |paths|
              && forall i :: 0 <= i < |paths| ==> Canonicalize(env, paths[i]) == Ok(r.value[i])
    ensures r.FileNotFound? ==>
              exists i :: && 0 <= i < |paths|
                          && Canonicalize(env, paths[i]) == FileNotFound(r.path)
                          && forall j :: 0 <= j < i ==> Canonicalize(env, paths[j]).Ok?
  {
    if paths == [] then Ok([])
    else
      match Canonicalize(env, paths[0])
      case FileNotFound(p) => FileNotFound(p)
      case Ok(c) =>
        match CanonicalizeAll(env, paths[1..])
        case FileNotFound(p) =>
          var i :| && 0 <= i < |paths[1..]|
                   && Canonicalize(env, paths[1..][i]) == FileNotFound(p)
                   && forall j :: 0 <= j < i ==> Canonicalize(env, paths[1..][j]).Ok?;
          assert Canonicalize(env, paths[i + 1]) == FileNotFound(p);
          assert forall j :: 0 <= j < i + 1 ==> Canonicalize(env, paths[j]).Ok? by {
            forall j | 0 <= j < i + 1 ensures Canonicalize(env, paths[j]).Ok? {
              if j > 0 { assert paths[j] == paths[1..][j - 1]; }
            }
          }
          FileNotFound(p)
        case Ok(cs) => Ok([c] + cs)
  }

  /** Without a root, the first candidate is `"/" . path`. */
  lemma NoRootMeansSlashPrefixed(env: Resolver, path: string)
    requires env.root.None?
    requires env.normalize("/" + path) in env.existing
    ensures Canonicalize(env, path) == Ok(env.normalize("/" + path))
  {
    assert RootRelative(env.root, path) == "/" + path;
  }

  /** FileNotFound exactly when neither candidate exists. */
  lemma NotFoundIffNeitherExists(env: Resolver, path: string)
    ensures Canonicalize(env, path) == FileNotFound(path) <==>
              && env.normalize(RootRelative(env.root, path)) !in env.existing
              && env.normalize(path) !in env.existing
  {
  }

  /** The batch of one path is the single resolution. */
  lemma CanonicalizeOne(env: Resolver, path: string)
    ensures CanonicalizeAll(env, [path]) ==
              match Canonicalize(env, path)
              case Ok(c) => Ok([c])
              case FileNotFound(p) => FileNotFound(p)
  {
    assert [path][1..] == [];
    assert CanonicalizeAll(env, []) == Ok([]);
    assert forall c: string :: [c] + [] == [c];
  }
}
