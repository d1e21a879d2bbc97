# SFTP storage provider — a Dafny model

This project models the provider layer of a storage connector that presents a
remote SFTP filesystem as containers (directories under a configured root)
holding files. The class `SFTPProvider` of `index.js` validates the caller's
container and file names, builds remote paths under the root, and maps each
storage operation onto the remote primitives `readdir`, `stat`, `mkdir`,
`unlink` and `rmdir`. It assembles Container and File records from stat
results, or decides which stream to open for upload and download.

Modules, one per concern:

- `Outcomes` (`outcomes.dfy`): `Option`, `Result` and the error taxonomy. There
  are two validation errors, one per message of `validateName`, and remote
  errors reported verbatim.
- `Names` (`names.dfy`): `validateName` on a POSIX host. Each regular
  expression is modelled as the search the JavaScript engine does.
  `CONTAINS_DOT_DOT_PATHS.test` tries every position. `NAME_PATTERN.exec` gives
  the leftmost, longest run of characters other than `/`. The module proves
  exactly which names are accepted.
- `Paths` (`paths.dfy`): `normalizePath`, the joins of root, container and file,
  the parent of a path, and the safety property. A valid name joined to a root
  without `..` segments gives a path without `..` segments.
- `RemoteFs` (`remote_fs.dfy`): the remote filesystem as state, a map from a path
  to a directory (with its listing in order), a regular file or another kind of
  node. Each primitive is a function giving the new state and the result. The
  class `FileSystem` holds the state and applies those functions.
- `Records` (`records.dfy`): the Container and File values, and the property
  record `Props` that `populateMetadata` fills in place.
- `ProviderSpec` (`provider_spec.dfy`): each operation as a function of the
  filesystem state.
- `ProviderProperties` (`provider_properties.dfy`): properties of those functions.
  Validation comes before any remote call. For `destroyContainer`, the model
  proves that every success had a flat container, and gives the exact new
  state of every success and what is kept on failure. It also proves
  create-then-get, and that listings pair each name with its own stat.
- `Provider` (`provider.dfy`): the class `SftpProvider`. Its listing and mutation
  methods are loops and sequential calls over `FileSystem`, each proved equal to
  its `ProviderSpec` function. `Upload`, `Download` and `GetUrl` are pure
  decision functions.

Notes on the model:

- The source pairs each stat result with its entry name by
  `files[fileStats.indexOf(fileStat)]`. `indexOf` compares objects by
  identity, and every stat call yields a distinct object, so the name is always
  the one at the same position. The model pairs name and stat by position.
- `getFiles` keeps the entries whose stat `isFile()`, as the code does. Entries
  that are neither directories nor regular files (sockets, fifos) are in neither
  listing. This is narrower than "every non-directory entry".
- `Promise.all` runs the stats and unlinks concurrently. The model runs them
  in listing order. A failed stat ends a listing with that error, which is
  what the joined promise reports. For `destroyContainer`, every unlink is
  attempted, and the error reported is the first in listing order.
- validateName accepts `.` and `\`. Node's `path.join` collapses `.`, and
  the server resolves the `/r//` that `\` gives (`Paths.BackslashNameAddressesRoot`)
  to the root. So in the source `destroyContainer(".")` lists the root itself
  and unlinks each entry. It calls `rmdir` on the root only if every unlink
  succeeded. An unlink of a directory fails, so the root is removed only
  when it holds no directory. The model's join keeps `root/.` as a path of its
  own, and its state is keyed by exact strings (see "## Left out"), so
  neither case is reproduced here.
- On POSIX, `NAME_PATTERN` is `[^//]+`, so a backslash is allowed in a name.
  That name is not a single path segment once `normalizePath` has turned the
  backslash into `/`: `Paths.BackslashNameSpansTwoSegments` shows that `a\b`
  is accepted and addresses `/r/a/b`. Such a path still has no `..` segment.
- An entry's stat is looked up at the normalised joined path, as in the
  source. So an entry whose listed name contains a backslash is looked up at
  another path: its stat fails or describes a different node.
- The server clock is a parameter: `created` gives the attributes that `mkdir`
  stamps on a new directory. The SSH session is the `FileSystem` object given
  to the constructor.

## Model

| member | source | states |
|---|---|---|
| Names.ValidateName | index.js:40-50 | a name with a bounded `..` gets the dot-dot error, checked first; every error names the rejected name and is one of the two messages; an accepted name is non-empty, has no `/` and no bounded `..` |
| Names.DotDotSearch | index.js:11 | the search of CONTAINS_DOT_DOT_PATHS from a position succeeds iff some later position holds `..` bounded by start or `/` or `\` on the left, and by `/` or `\` or end on the right |
| Names.ExecNamePattern | index.js:44 | NAME_PATTERN's match is absent iff the name is all `/`; otherwise it is the leftmost, maximal run of characters other than `/` |
| Names.WholeNameMatch | index.js:44-46 | the match covers the whole name from index 0 iff the name is non-empty and holds no `/` |
| Names.ValidNameCharacterization | index.js:40-50 | a name is accepted iff it is non-empty, has no `/`, and has no bounded `..` |
| Names.ValidateNameErrors | index.js:41-48 | the dot-dot error is raised iff a bounded `..` is present; the segment error iff there is none but the name is empty or holds `/` |
| Names.ValidateNameRejects | index.js:40-50 | `""`, `..`, `a/b`, `x\..` and `../etc` are rejected, each with the error the two regular expressions give it |
| Names.ValidateNameAccepts | index.js:40-50 | `a..b`, `...` and `.x`, whose dots are not a bounded `..`, are accepted |
| Paths.NormalizePath | index.js:82-84 | the result has the same length, maps every `\` to `/`, leaves every other character in place, and holds no `\` |
| Paths.Join | index.js:144 | `path.join` of a base and one segment, modelled as base + `/` + segment (the simplification under "## Left out"): the result is one character longer than the two parts, with `/` right after the base; every join of the provider goes through it (index.js:114, 144, 167, 171, 189, 215, 222, 254, 274, 309, 353, 365) |
| Paths.ContainerPath | index.js:144 | the normalised join of root and container name (also index.js:167, 189, 215): one character longer than the two, `/` right after the root, and no `\` |
| Paths.ObjectPath | index.js:254 | the normalised join of root, container and file (also index.js:274, 309, 353, 365): two characters longer than the three, `/` after the root and after the container, and no `\` |
| Paths.EntryPath | index.js:171 | the normalised join of a directory and a listed entry (also index.js:114, 222), the same two-part join as ContainerPath applied to an entry of any directory: one character longer than the two, `/` right after the directory, and no `\` |
| Paths.NormalizeIdempotent | index.js:82-84 | normalising twice equals normalising once; a path without `\` is its own normal form |
| Paths.NormalizeKeepsDotDot | index.js:11 | a `..` that CONTAINS_DOT_DOT_PATHS finds at a position is exactly a `..` segment of the normalised path there |
| Paths.TraversalInJoin | index.js:144 | a `..` segment of a joined path lies wholly in the base or wholly in the segment |
| Paths.JoinValidNameHasNoTraversal | index.js:187-189 | a root without `..` segments joined with an accepted name and normalised has no `..` segment |
| Paths.ObjectPathHasNoTraversal | index.js:251-254 | the same for a root joined with an accepted container and an accepted file name |
| Paths.BackslashNameSpansTwoSegments | index.js:10 | on POSIX, `a\b` is accepted, and its container path under `/r` normalises to `/r/a/b` |
| Paths.BackslashNameAddressesRoot | index.js:187-189 | on POSIX, `\` is accepted, and its container path under `/r` is `/r//`, the root with a trailing separator |
| Paths.ParentOfJoin | index.js:171 | the raw join `dir + "/" + name`, before normalisation, of a name without `/` has `dir` as parent and the name as last component |
| Paths.JoinInjective | index.js:171 | two names give the same raw join `dir + "/" + name` only if they are equal |
| Paths.EntryPathParent | index.js:171 | the normalised entry path of a name in a directory without `\` has that directory as parent iff the name holds neither `/` nor `\`, and then the name is its last component |
| Paths.EntryPathInjective | index.js:171 | two names without `\` give the same normalised entry path only if they are equal |
| Paths.BackslashEntriesCollide | index.js:171 | the names `a\b` and `a/b` give the same normalised entry path, so the restriction to names without `\` is needed |
| RemoteFs.StatsOf | index.js:119 | a stat reports a directory iff the node is a directory, a file iff it is a regular file, and carries the node's attributes |
| RemoteFs.UnlinkFrame | fs-ssh.js:202-205 | unlink succeeds iff the target exists and is not a directory; it removes the target only; on success the parent directory's listing loses the target's name and the parent is otherwise unchanged; every other path is unchanged; it never removes or replaces a directory |
| RemoteFs.UnlinkEntry | fs-ssh.js:202-205 | unlinking a non-directory entry of a directory removes it and drops its name from that directory's listing |
| RemoteFs.FileSystem.Readdir | fs-ssh.js:129-132 | returns the directory's listing in order, and an error for a missing path or a non-directory |
| RemoteFs.FileSystem.Stat | fs-ssh.js:181-184 | returns the stat of the node at the path, and an error for a missing path |
| RemoteFs.FileSystem.Mkdir | fs-ssh.js:119-122 | creates an empty directory with the requested mode, appended to its parent's listing (the model's choice of order, see "## Left out"); an error, with the state unchanged, if the path exists or its parent is missing or is not a directory |
| RemoteFs.FileSystem.Unlink | fs-ssh.js:202-205 | the new state and result are those of unlink on the old state |
| RemoteFs.FileSystem.Rmdir | fs-ssh.js:171-174 | removes an empty directory and drops it from its parent's listing; an error, with the state unchanged, otherwise |
| Records.ContainerFor | index.js:148-149 | the Container that `new Container(populateMetadata(stat, {name}))` builds (also index.js:120-122, 192-193): the given name and the stat's size, atime, mtime and ctime |
| Records.FileFor | index.js:256 | the File that `new File(populateMetadata(stat, {container, name}))` builds (also index.js:229-231): the given container and name and the stat's size, atime, mtime and ctime |
| Records.PopulateMetadata | index.js:57-64 | sets size, atime, mtime and ctime of the record from the stat, leaves name and container unchanged, and returns the same record |
| ProviderSpec.StatAll | index.js:113-114 | on success, one stat per entry in listing order, each the stat of that entry's path; on failure, the error of the first entry whose stat fails |
| ProviderSpec.StatAllPrefixError | index.js:113-115 | a stat failure among the first entries is the failure of the whole listing |
| ProviderSpec.Positions | index.js:118-119 | the increasing positions of exactly the stats of a given kind |
| ProviderSpec.DirectoryContainers | index.js:116-124 | at most one Container per entry, each named by an entry of the listing |
| ProviderSpec.RegularFiles | index.js:225-233 | at most one File per entry, each with the given container and named by an entry of the listing |
| ProviderSpec.DirectoryContainersFollowListing | index.js:116-124 | the containers are one per directory stat, in listing order, the j-th named by the entry at the j-th directory position and carrying that entry's stat |
| ProviderSpec.RegularFilesFollowListing | index.js:225-233 | the files are one per regular-file stat, in listing order, each with the given container, and the name and stat of the entry at its position |
| ProviderSpec.GetContainers | index.js:105-133 | a successful listing implies the root is a directory; it has at most one Container per root entry, each named by a root entry |
| ProviderSpec.CreateContainer | index.js:140-156 | on failure the filesystem is unchanged; on success the name is valid, the directory did not exist and is now the only new path, an empty directory with the requested mode, and the Container carries the name and its attributes; on success the parent is an existing directory whose listing gains the container's name (appended, the model's choice of order), and every other existing path is unchanged |
| ProviderSpec.UnlinkAllFrame | index.js:169-171 | the unlinks add no path, keep every directory and each remaining path's kind, and remove every entry that was not a directory, even after an earlier unlink failed |
| ProviderSpec.UnlinkOutcomesPrefix | index.js:169-171 | the outcomes of the unlinks of the first k entries are the first k outcomes of the unlinks of all entries |
| ProviderSpec.UnlinkOutcomesAreSteps | index.js:169-171 | the i-th unlink outcome is the result of unlinking entry i in the state the unlinks of the entries before it left |
| ProviderSpec.FirstError | index.js:169-172 | the error of a run of outcomes is absent iff every outcome succeeded, and otherwise is the error of the first failing outcome, all before it having succeeded |
| ProviderSpec.UnlinkAllFirstFailure | index.js:169-172 | the error the unlinks of destroyContainer report is the first error among their outcomes in listing order |
| ProviderSpec.DestroyContainer | index.js:163-178 | destroyContainer adds no path; on success the container existed and is gone; no directory other than the container is removed or replaced; the exact new state of a success is given by ProviderProperties.DestroySuccessState |
| ProviderSpec.GetContainer | index.js:185-198 | succeeds iff the name is valid and its path exists, and then returns that name with the stat of the path |
| ProviderSpec.GetFiles | index.js:206-241 | a successful result implies a valid container that is a directory; at most one File per entry, each with that container and named by an entry |
| ProviderSpec.GetFile | index.js:249-261 | succeeds iff both names are valid and the object path exists; the File is then the one built from the container, the file name and the stat of the object path |
| ProviderSpec.RemoveFile | index.js:269-280 | succeeds iff both names are valid and the object path holds a non-directory; on success exactly that path is removed, on failure nothing changes; for valid names the new state and result are those of unlink at the object path, so the parent's listing loses the name and nothing else changes (RemoteFs.UnlinkFrame) |
| ProviderProperties.InvalidNamesTouchNothing | index.js:140-280 | every name-taking operation returns the validation error and leaves the filesystem unchanged for an invalid name; getFile and removeFile check the container before the file |
| ProviderProperties.UnlinkAllReportsDirectory | index.js:170-174 | an entry that is a directory makes the unlinks report an error, so rmdir is not reached |
| ProviderProperties.UnlinkAllClears | index.js:169-171 | after the first k unlinks of a directory of distinct plain file entries, those entries are gone from the filesystem and from the listing, and nothing else changed |
| ProviderProperties.DestroyRemovesFlatContainer | index.js:163-178 | destroyContainer of a flat container succeeds: its entry names are distinct, hold no `/` and no `\`, and each names an existing non-directory (a file named `a\b` is unlinked at `dir/a/b`, another path, so the destroy fails); the files and the directory are gone; the parent's listing loses the container's name and the parent is otherwise unchanged; every other path is unchanged |
| ProviderProperties.DestroyUnlinksNonDirectories | index.js:169-173 | every entry of the container that is not a directory is gone after destroyContainer, whether it succeeds or fails |
| ProviderProperties.DestroyKeepsSubdirectory | index.js:169-174 | destroyContainer of a container holding a sub-directory fails, and both the sub-directory and the container remain directories |
| ProviderProperties.UnlinkAllKeepsDeepName | index.js:169-171 | an entry whose name holds `/` or `\` stays in the container's listing through all the unlinks, since its normalised path lies below a sub-directory |
| ProviderProperties.UnlinkedEntry | index.js:169-172 | when no unlink failed, each entry named an existing non-directory that was still present at its turn |
| ProviderProperties.UnlinkedEntriesDistinct | index.js:169-172 | when no unlink failed, no entry name is listed twice |
| ProviderProperties.DestroyOkIsFlat | index.js:163-178 | every successful destroyContainer had a valid name and a flat container: distinct entry names without `/` or `\`, each naming an existing non-directory |
| ProviderProperties.DestroySuccessState | index.js:163-178 | every successful destroyContainer removes exactly the container and its former entries, drops the container's name from the parent's listing, and leaves every other path unchanged |
| ProviderProperties.DestroySucceedsIffRemoved | index.js:169-174 | for an existing container, destroyContainer succeeds iff the directory is gone afterwards |
| ProviderProperties.CreateThenGet | index.js:140-198 | a successful createContainer returns the name with the attributes of a new empty directory with the requested mode, and getContainer of that name then returns the same Container |
| ProviderProperties.CreateInRoot | index.js:142-149 | a valid name without backslashes, absent from an existing root directory, is created and its name is added to the root's listing (appended, the model's choice of order) |
| ProviderProperties.StatAllOk | index.js:113-115 | when every entry's stat succeeds, the joined stats are exactly those stats |
| ProviderProperties.GetContainersListsDirectories | index.js:105-133 | when the listing and every stat succeed, getContainers returns exactly one Container per directory entry, in order, named by the entry at its position |
| ProviderProperties.GetFilesListsRegularFiles | index.js:206-241 | when the listing and every stat succeed, getFiles returns exactly one File per regular-file entry, in order, with the container and the entry at its position |
| Provider.FilesCallback | index.js:206-209 | a function passed as options receives the result; otherwise the given callback does, or else the default one |
| Provider.SftpProvider.constructor | index.js:94-99 | the provider keeps the root and the filesystem session |
| Provider.SftpProvider.StatEntries | index.js:221-222 | the loop computes StatAll of the entries |
| Provider.SftpProvider.GetContainers | index.js:105-133 | the method returns the specification's result: listing, stats, then the directory containers built in the loop |
| Provider.SftpProvider.CreateContainer | index.js:140-156 | new state and result are those of the specification: validate, mkdir, stat, Container |
| Provider.SftpProvider.DestroyContainer | index.js:163-178 | new state and result are those of the specification: validate, list, every unlink attempted, rmdir only when none failed |
| Provider.SftpProvider.GetContainer | index.js:185-198 | returns the specification's result: validate, stat, Container |
| Provider.SftpProvider.GetFiles | index.js:206-241 | the callback receiving the result is the one FilesCallback picks from the options and callback arguments; the result is the specification's: validate, list, stats, then the regular files built in the loop |
| Provider.SftpProvider.GetFile | index.js:249-261 | returns the specification's result: validate container then file, stat, File |
| Provider.SftpProvider.RemoveFile | index.js:269-280 | new state and result are those of the specification: validate container then file, unlink |
| Provider.SftpProvider.Upload | index.js:288-317 | an error stream iff the container or remote name is invalid, with the container's error first; otherwise a write stream on root/container/remote with flags `w+`, encoding null and mode 0o666 for each falsy option |
| Provider.SftpProvider.Download | index.js:325-357 | the same error streams; otherwise a read stream on root/container/remote with flags `r` and autoClose, and a start/end range iff start is truthy |
| Provider.SftpProvider.GetUrl | index.js:364-366 | the result holds no `\` and is the normalised root, container and path joined by `/` |
| Provider.UploadFallsBackToDefaults | index.js:307-313 | empty flags and encoding and mode 0, or all absent, give flags `w+`, encoding null and mode 438 (0o666) |
| Provider.DownloadRange | index.js:344-350 | start 0 gives no range; a non-zero start without end gives the range from start to end of file |
| Provider.StreamsStayUnderRoot | index.js:288-357 | the path of every stream opened for valid names has no `..` segment when the root has none |
| Provider.GetUrlExample | index.js:364-366 | root `/r`, container `c`, path `p` give `/r/c/p` |
| Provider.GetUrlNormalizesBackslashes | index.js:364-366 | a backslash in the container becomes a forward slash in the URL |
| Provider.GetUrlDoesNotValidate | index.js:364-366 | getUrl of container `x\..\..` under `/r` is `/r/x/../../p`, a path with `..` segments that resolves outside the root |
| Provider.EscapingNameRejected | index.js:40-50 | validateName rejects that container `x\..\..` with the dot-dot error |

## Left out

- The readiness gate of `fs-ssh.js` (`_waitWhileNotReady` and the connect callback): asynchronous event coordination with no effect on the state. The model starts from an established session.
- The other `fs-ssh.js` wrappers (chmod, chown, exists, futimes, lstat, readFile, readlink, rename, symlink, writeFile): the provider core does not call them.
- The stream objects: Node stream plumbing. This covers `createReadStream` and `createWriteStream`, the error emitted on `process.nextTick` by `streamError`, and the shared error streams bound in the constructor. Upload and download return which stream would be opened, or the error it would emit.
- Callbacks: every operation returns its result, so the `console.log` default callback and the strong-globalize message formatting are left out. The same goes for `removeFile` throwing when called without a callback: it has no default callback.
- Concurrency of `Promise.all`: stats and unlinks are taken one at a time in listing order. With real concurrency, the error reported is the first to arrive, which need not be the first in listing order.
- `path.join` normalisation: a join is the base, one `/` and the segment. Node also collapses `.` and `..` segments, doubled separators and an empty base. So a name `.` addresses the root itself in the source but `root/.` in the model.
- The Windows variant of `NAME_PATTERN`: the model is for a POSIX host only.
- Arguments that are not strings (an undefined name makes `name.length` throw): every name is a string here.
- Upload and download options of other JavaScript types (a string-valued start, `NaN`): each option is modelled as absent, a string, or a number only.
- Timestamps and sizes are opaque integers.
- The createContainer options go to `mkdir` whole; the model passes on `mode` only, the one attribute it gives a new directory. Other attributes the SFTP `mkdir` may honour are not modelled.
- Server errors other than the ones the state decides: each primitive fails only for a missing path, a node of the wrong kind, a non-empty directory or an existing path. Permission, I/O and connection errors are not modelled, because they depend on the server and the session rather than on the filesystem's shape. So several claims hold for an idealised server only: the "succeeds iff" contracts of ProviderSpec.GetContainer, ProviderSpec.GetFile and ProviderSpec.RemoveFile; the success claims of ProviderProperties.CreateInRoot and ProviderProperties.DestroyRemovesFlatContainer; and ProviderSpec.CreateContainer's "on failure the filesystem is unchanged". That last one holds because `stat` cannot fail after a successful `mkdir` in the model. In the source (index.js:146-152) such a failing `stat` reports its error and leaves the new directory behind.
- RemoteFs.FileSystem.Mkdir, ProviderSpec.CreateContainer and ProviderProperties.CreateInRoot: a new directory is appended to its parent's listing by the model's choice. The order `readdir` returns belongs to the SFTP server, and nothing in the source fixes it, so "appended" is not a promise of the source.
- The server's path resolution: the state is keyed by exact strings, so `//`, `/.` and a trailing `/` are not resolved as the server does. For instance the accepted name `\` gives the container path `/r//` (Paths.BackslashNameAddressesRoot), which the server takes as the root `/r` but the model keeps as a path of its own.
- The "copy every non-function property" rule of the Container and File classes, which rests on the unseen pkgcloud base class. The records hold the fixed fields only.
