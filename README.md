# WebLoader FileCollection in Dafny

This project models the `FileCollection` class of WebLoader, an asset loader for PHP. The class is bookkeeping for the files an asset page uses. It holds three independent lists, each in insertion order and without duplicates:

- **files**: canonical paths of local files;
- **watch files**: canonical paths whose change should trigger a rebuild;
- **remote files**: URLs, kept exactly as given.

It also holds a root directory, fixed at construction, against which relative paths are resolved.

The project has three modules:

- `UniqueList` (`unique_list.dfy`): duplicate-free lists. `NoDup` is the invariant. `AddUnique` is the source's `in_array` test followed by an append. `AddAll` is a batch of those, left to right. `Without` is `array_diff` followed by `array_values`. Lemmas prove that the old list stays a prefix, which values end up in the list, that no duplicate appears, and that the values keep the order of their first occurrence. For removal they prove that the survivors keep their relative order.
- `PathResolution` (`path_resolution.dfy`): `cannonicalizePath` (spelt `CanonicalizePath` here) as the function `Canonicalize`, and the `array_map` over it as `CanonicalizeAll`. A `Resolver` value bundles the three things resolution needs: the root (`Option<string>`; a missing root is PHP's `NULL`, which concatenates as the empty string), the path normaliser, and the set of paths that exist during the call.
- `WebLoader` (`file_collection.dfy`): the class `FileCollection`. Its three lists are `seq<string>` fields that its methods reassign. Each method has a `modifies` frame naming exactly the list it may change. `Valid()` says that no list holds a duplicate, and every method keeps it. The plural adders are loops, proved against the function `AddFilesOutcome` (local and watch files) or `AddAll` (remote files). Lemmas characterise `AddFilesOutcome`: paths before the first unresolvable one stay added, and nothing after it is processed. `AssetsWalkThrough` is a client that runs through a short session: add a file twice, remove it, add a missing file, add a remote URL twice, clear.

The source throws `FileNotFoundException`. Here, operations that can fail return a `Result` whose error carries the path the caller passed in. State changes happen only on the success path, which models "the error is raised before any list is touched". `removeFiles` canonicalises all of its arguments before it touches `files`, so a failing argument leaves `files` unchanged. The code is fail-fast here, not best-effort, and the model follows the code.

## Model

| member | source | states |
|---|---|---|
| PathResolution.Canonicalize | WebLoader/FileCollection.php:48-61 | a result is an existing path and one of the two normalised candidates; if the root-relative candidate exists it is the result; if the path on its own exists the call succeeds; the error carries the path as given |
| PathResolution.NotFoundIffNeitherExists | WebLoader/FileCollection.php:50-60 | the call fails exactly when neither the normalised `root/path` nor the normalised path exists |
| PathResolution.NoRootMeansSlashPrefixed | WebLoader/FileCollection.php:50 | with no root, the first candidate tried is the normalised `"/" + path` |
| PathResolution.RootRelative | WebLoader/FileCollection.php:50 | the root-relative candidate `root . "/" . path`: it starts with the root, has one `/` before the path and ends with the path; with no root (PHP's NULL concatenates as "") it is `"/" + path` |
| PathResolution.CanonicalizeAll | WebLoader/FileCollection.php:110 | on success: one canonical path per argument, position by position; on failure: the error is that of some argument i, and every argument before i resolves, so i is the first failure |
| PathResolution.CanonicalizeOne | WebLoader/FileCollection.php:98-101 | canonicalising the one-element batch is the single canonicalisation |
| UniqueList.AddUnique | WebLoader/FileCollection.php:73-77 | the result holds the old values and x, nothing else; the old list is its prefix; it grows by one exactly when x was absent; duplicate-freedom is kept |
| UniqueList.AddAll | WebLoader/FileCollection.php:132-137 | the reference definition of the remote-file foreach (one AddUnique per URL, left to right); its own contract bounds the growth by the batch size, and AddAllPrefix, AddAllMembers, AddAllNoDup, AddAllSnoc and AddAllFirstOccurrenceOrder characterise it |
| UniqueList.AddAllPrefix | WebLoader/FileCollection.php:86-91 | a batch of adds keeps the old list as a prefix: earlier entries keep their positions |
| UniqueList.AddAllMembers | WebLoader/FileCollection.php:132-137 | after a batch, a value is in the list exactly when it was there before or is in the batch |
| UniqueList.AddAllNoDup | WebLoader/FileCollection.php:132-137 | a batch of adds never introduces a duplicate |
| UniqueList.AddAllSnoc | WebLoader/FileCollection.php:134-136 | one more element at the end of the batch equals one more single add after the batch |
| UniqueList.AddAllFirstOccurrenceOrder | WebLoader/FileCollection.php:132-137 | starting duplicate-free, the list after a batch holds only values of old list + batch, in the order of their first occurrence there |
| UniqueList.OrderAppend | WebLoader/FileCollection.php:121-125 | one add keeps the first-occurrence order once the added value is appended to the history |
| UniqueList.AddAllPresent | WebLoader/FileCollection.php:121-123 | a batch whose values are all present changes nothing |
| UniqueList.AddAllIdempotent | WebLoader/FileCollection.php:132-137 | adding the same batch a second time changes nothing |
| UniqueList.Without | WebLoader/FileCollection.php:111 | the survivors are exactly the old values that are not removed; the list never grows |
| UniqueList.WithoutNoDup | WebLoader/FileCollection.php:111 | removal keeps the list duplicate-free |
| UniqueList.WithoutKeepsOrder | WebLoader/FileCollection.php:111 | the survivors keep their relative order |
| UniqueList.WithoutAbsent | WebLoader/FileCollection.php:111 | removing values that are not present is a no-op |
| WebLoader.AddFilesOutcome | WebLoader/FileCollection.php:86-91 | the reference definition of the addFiles/addWatchFiles foreach, including the throw that stops it; its own contract says an error names one of the batch's paths and the list grows by at most the batch size; AddFilesAllFound, AddFilesFirstMissing and AddFilesSucceedsIff characterise it |
| WebLoader.AddFilesAllFound | WebLoader/FileCollection.php:86-91 | when every path resolves, the batch adds all canonical paths in order and succeeds |
| WebLoader.AddFilesFirstMissing | WebLoader/FileCollection.php:86-91 | when path i is the first that fails, paths 0..i-1 stay added, the error names path i, and no later path is processed |
| WebLoader.AddFilesSucceedsIff | WebLoader/FileCollection.php:86-91 | the batch succeeds exactly when every path resolves |
| WebLoader.FileCollection.constructor | WebLoader/FileCollection.php:28-31 | the root is the argument and all three lists are empty |
| WebLoader.FileCollection.GetFiles | WebLoader/FileCollection.php:37-40 | returns the local files, duplicate-free |
| WebLoader.FileCollection.GetWatchFiles | WebLoader/FileCollection.php:197-200 | returns the watch files, duplicate-free |
| WebLoader.FileCollection.GetRemoteFiles | WebLoader/FileCollection.php:152-155 | returns the remote files, duplicate-free |
| WebLoader.FileCollection.GetRoot | WebLoader/FileCollection.php:160-163 | returns the root given to the constructor |
| WebLoader.FileCollection.CanonicalizePath | WebLoader/FileCollection.php:48-61 | the public method returns `Canonicalize` of the call's filesystem; the resolution order is stated and proved there |
| WebLoader.FileCollection.AddFile | WebLoader/FileCollection.php:69-78 | on success the canonical path is added once (AddUnique); on failure the error carries the path and no list changes; watch and remote lists never change |
| WebLoader.FileCollection.AddFiles | WebLoader/FileCollection.php:86-91 | the new list and the outcome are those of `AddFilesOutcome`; the other lists never change |
| WebLoader.FileCollection.RemoveFiles | WebLoader/FileCollection.php:108-112 | if every argument resolves, files loses every canonical argument (Without); otherwise files is unchanged and the error names the first failing argument; the other lists never change |
| WebLoader.FileCollection.RemoveFile | WebLoader/FileCollection.php:98-101 | the same new state and outcome as RemoveFiles of the one-element batch; on success the canonical path is absent afterwards |
| WebLoader.FileCollection.AddRemoteFile | WebLoader/FileCollection.php:119-126 | remote files becomes AddUnique of the URL, with no canonicalisation; the other lists never change |
| WebLoader.FileCollection.AddRemoteFiles | WebLoader/FileCollection.php:132-137 | remote files becomes AddAll of the URLs; the other lists never change |
| WebLoader.FileCollection.Clear | WebLoader/FileCollection.php:142-147 | all three lists are empty; the root is a constant and stays |
| WebLoader.FileCollection.AddWatchFile | WebLoader/FileCollection.php:170-179 | like AddFile, but for the watch list only |
| WebLoader.FileCollection.AddWatchFiles | WebLoader/FileCollection.php:186-191 | like AddFiles, but for the watch list only, through the same `AddFilesOutcome` |

## Left out

- Filesystem access (`file_exists`): each call receives the set of paths that exist during that call. Files appearing or disappearing during a call are not modelled.
- `Path::normalize`: its code is not part of this model. It is an uninterpreted function `string -> string` fixed at construction, and no lexical property of `.`, `..` or repeated separators is claimed.
- AddRemoteFile: the source's `in_array` without the strict flag compares loosely, so in PHP two distinct numeric-looking strings such as `"1e1"` and `"10"` count as equal. The model compares strings exactly.
- PHP array keys: `array_diff` leaves gaps in the keys, and `array_values` renumbers them. Every list is a plain `seq<string>`, which is the renumbered view.
- The `(string)` casts and `Traversable` arguments: callers pass `seq<string>` directly.
- The exception class and its message text: the error carries only the offending input path.
- The `IFileCollection` interface that the class implements is not part of this model.
- The source's `removeFiles` and `removeFile` return nothing. Here they return a `Result<()>`, which stands for whether the exception was thrown.
