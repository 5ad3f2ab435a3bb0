# Elisa Viihde FUSE adapter, modelled in Dafny

This project models the core of `elisa_viihde_fuse.py`, a read-only FUSE
filesystem that shows a remote video-recording service as a directory tree.
Folders of the service appear as directories. Recordings appear as files named
`"{name} {time}.mpg"`. The model covers four parts:

- **The filename codec** (module `Filename`). `_create_filename` writes the
  name, a space, a time token and `.mpg`. The token is the catalog's
  `DD.MM.YYYY HH.MM` start time verbatim when `formatted_time` is set. Otherwise
  it is its `_get_iso_time` rearrangement `YYYY-MM-DD HH:MM`.
  - `_parse_filename` is modelled as the `re.match` of the dialect's pattern.
  - The name group is the greedy `.*`: the longest prefix without a line feed
    that is followed by a space, a time token and `.mpg`.
  - Text after `.mpg` is accepted, because `re.match` anchors only at the start.
  - `_get_type` classifies a path by its `.mpg` suffix.
- **The path resolver** (module `Resolver`). `_get_folder_id` and
  `_get_program_info` are specification functions over a catalog value.
  `/` and `""` are folder 0. Any other path is split with `rsplit('/', 1)`, its
  parent is resolved first, and its listing is scanned for the first match.
  Error codes: EIO when a listing call fails, ENOENT when nothing matches or
  the leaf does not decode.
- **The directory cache** (class `Adapter.ElisaViihdeFuse`). `opendir` stores
  a folder's listings under its id, `readdir` lists them, and `releasedir`
  forgets them.
- **The stream-URI cache and the `Range` logic of `read`** (module
  `ReadRequest` and `ElisaViihdeFuse.Read`).
  - A cached URI younger than 3600 seconds is reused and re-stamped.
  - Otherwise `getstreamuri` is consulted; EACCES when it fails.
  - The request carries `Range: bytes=<offset>-<offset+size>`.
  - At most `size` bytes come back.

The remote catalog is a `Catalog` value of three maps: folder id to folder
listing, folder id to recording listing, program id to stream URI. A key that
is absent stands for the remote call raising. The clock (`now`, whole
seconds), the ranged GET (`fetch`), the HEAD probe's Content-Length, the uid
and the gid are parameters.

Notes on the model:

- The methods of `ElisaViihdeFuse` follow the source's loops: the `for`-`else`
  scans and the `append` loops of `readdir`. Each method is proved equal to a
  specification function or states the new cache contents.
- A stream-URI cache would be expected to store a freshly fetched URI; this
  code never does. The branch of `read` that asks `getstreamuri` (lines
  200-204) leaves the cache as it is, and the only write (line 199)
  re-stamps an entry that already exists. So the cache never gains an entry,
  and every `read` asks `getstreamuri` again (`Adapter.ReadNeverCaches`).
- In `_get_program_info`, the parent folder is resolved before the leaf is
  decoded (lines 90-97), so a failing parent wins over an undecodable leaf.
- The `Range` header names an inclusive byte range, so it asks for one byte
  more than `size`. `response.read(size)` drops the surplus
  (`ReadRequest.RangeSpansOneMore`, `ReadRequest.ReadPrefix`).
- Children of the root have the empty string as parent, as `rsplit` gives
  for `/name`. Paths handed in are `""` or begin with `/`
  (`Resolver.IsFusePath`), as FUSE passes them. On a path without a slash,
  `rsplit` returns a one-element list. Unpacking that list into two names
  (lines 76 and 91) raises ValueError, and taking its `[1]` (line 94) raises
  IndexError. The model requires a slash there.

## Model

| member | source | states |
|---|---|---|
| Filename.IsoTime | elisa_viihde_fuse.py:171-172 | `_get_iso_time` on a valid formatted time: the digits of `DD.MM.YYYY HH.MM` moved into `YYYY-MM-DD HH:MM` order (a definition; its meaning is `IsoTimeMeaning`) |
| Filename.IsoTimeMeaning | elisa_viihde_fuse.py:171-172 | the `_get_iso_time` of a valid formatted time matches TIME_ISO and denotes the same year, month, day, hour and minute |
| Filename.IsoTimeInjective | elisa_viihde_fuse.py:171-172 | distinct valid start times give distinct ISO tokens |
| Filename.FormattedAlphabet | elisa_viihde_fuse.py:37 | a TIME_FORMATTED token consists only of digits, `.` and space |
| Filename.IsoAlphabet | elisa_viihde_fuse.py:38 | a TIME_ISO token consists only of digits, `-`, space and `:` |
| Filename.MatchesAt | elisa_viihde_fuse.py:39-40 | the dialect's filename pattern fits with the name group ending at `k`: no line feed before `k`, then a space, a 16-character time token of the dialect's pattern and `.mpg` (a definition) |
| Filename.LastMatch | elisa_viihde_fuse.py:39-40 | backtracking of the greedy name group: the largest split point up to `k` at which the pattern fits, or none |
| Filename.ParseFilename | elisa_viihde_fuse.py:166-169 | no match exactly when no split point fits the dialect's pattern; otherwise the groups are the name before the longest fitting split point and the 16-character time after it |
| Filename.GetType | elisa_viihde_fuse.py:120-124 | a path is a program exactly when it ends with `.mpg`, otherwise a folder |
| Filename.EncodedTime | elisa_viihde_fuse.py:160-163 | the time token of a filename: the start time verbatim in the formatted dialect, `_get_iso_time` of it otherwise (a definition; its meaning is `EncodedTimeMatchesPattern`) |
| Filename.EncodedTimeMatchesPattern | elisa_viihde_fuse.py:159-169 | for a well-formed start time, the token written matches the time pattern of the same dialect's parser, and is the start time verbatim in the formatted dialect |
| Filename.CreateFilename | elisa_viihde_fuse.py:159-164 | the filename is the name, a space, the encoded start time and `.mpg`, that is, five characters more than the name and the token |
| Filename.ParseCreateRoundTrip | elisa_viihde_fuse.py:159-169 | in either dialect, parsing the created filename of a recording whose name has no line feed gives back its name, and its start time verbatim (formatted) or its `_get_iso_time` (ISO) |
| Filename.NewlineNameNeverDecodes | elisa_viihde_fuse.py:39-40 | a name holding a line feed never comes back from the created filename |
| Filename.TrailingTextTolerated | elisa_viihde_fuse.py:166-169 | characters appended after a matching filename never make it fail to match |
| Filename.IsoFilenameRejectedWhenFormatted | elisa_viihde_fuse.py:166-169 | an ISO-dialect filename whose name has no `.` does not parse in the formatted dialect |
| Filename.FormattedFilenameRejectedWhenIso | elisa_viihde_fuse.py:166-169 | a formatted-dialect filename whose name has no `:` does not parse in the ISO dialect |
| Filename.CreatedFilenameIsProgram | elisa_viihde_fuse.py:159-164 | every created filename is classified as a program |
| Filename.CreatedFilenameIsComponent | elisa_viihde_fuse.py:159-164 | a created filename holds no `/` when the recording's name holds none |
| Decimal.ToDecimal | elisa_viihde_fuse.py:206 | `'{}'.format(n)` for a non-negative int: a non-empty digit string without leading zero that denotes `n` |
| Resolver.SplitLast | elisa_viihde_fuse.py:76 | `rsplit('/', 1)`: the path is the parent, a slash and a last component without a slash |
| Resolver.SplitLastOfJoin | elisa_viihde_fuse.py:76 | splitting `parent + "/" + name` gives back `parent` and `name` when `name` has no slash |
| Resolver.ParentIsFusePath | elisa_viihde_fuse.py:76-78 | the parent of an absolute path is a shorter path of the same form, so the recursion ends |
| Resolver.FindFolder | elisa_viihde_fuse.py:83-87 | the id of the first folder of the listing with the given name; none exactly when no folder has that name |
| Resolver.LookupChild | elisa_viihde_fuse.py:79-87 | EIO exactly when `getfolders` fails; ENOENT exactly when it succeeds and no folder matches; otherwise the first match's id |
| Resolver.ResolveFolder | elisa_viihde_fuse.py:73-87 | `_get_folder_id` fails with ENOENT or EIO only |
| Resolver.RootNeedsNoCatalog | elisa_viihde_fuse.py:74-75 | `/` and `""` resolve to 0 whatever the catalog holds, even when every call fails |
| Resolver.ResolveFolderIsWalk | elisa_viihde_fuse.py:73-87 | resolving a path back to front by recursion equals walking its components from the root front to back |
| Resolver.ResolveFolderSameFolders | elisa_viihde_fuse.py:73-87 | folder resolution reads only the folder listings of the catalog |
| Resolver.FolderEntryResolves | elisa_viihde_fuse.py:83-85 | a folder listed under a resolved directory, the first of its name there, resolves to its own id |
| Resolver.FindRecordingFrom | elisa_viihde_fuse.py:105-115 | the position of the first recording from a given index whose name and encoded time equal the decoded groups; none exactly when there is none |
| Resolver.FindRecording | elisa_viihde_fuse.py:105-115 | the first recording whose name and encoded time equal the decoded groups; none exactly when no recording matches |
| Resolver.RecordingListing | elisa_viihde_fuse.py:98-104 | the listing of an open folder is the cached one; for any other folder, the catalog's, and none exactly when `getrecordings` fails |
| Resolver.ProgramInFolder | elisa_viihde_fuse.py:95-115 | EIO exactly when the leaf decodes and `getrecordings` fails for an unopened folder; a recording returned is in the listing and carries the decoded name and time; other errors are ENOENT |
| Resolver.ProgramInfo | elisa_viihde_fuse.py:89-115 | `_get_program_info` fails with ENOENT or EIO only |
| Resolver.ProgramInfoWithHandle | elisa_viihde_fuse.py:89-94 | passing the parent's id as `dir_id` gives the same result as resolving the parent |
| Resolver.UndecodableLeafNotFound | elisa_viihde_fuse.py:95-97 | a leaf that does not decode never resolves, whatever the caches and the catalog hold |
| Resolver.OpenFolderIgnoresCatalogRecordings | elisa_viihde_fuse.py:98-104 | while the folder is in the directory cache, the result does not depend on the catalog's recordings |
| Resolver.OpenParentIgnoresCatalogRecordings | elisa_viihde_fuse.py:98-104 | the same without a handle, provided the folder listings agree and the parent resolves to the cached folder |
| Resolver.ListedRecordingResolves | elisa_viihde_fuse.py:89-115 | the created filename of a listed recording, joined to the parent path, resolves to that recording (with or without the handle) when it round-trips and no earlier recording has the same name and time |
| ReadRequest.CacheHit | elisa_viihde_fuse.py:195-197 | the condition of the reuse branch: the handle has a cached URI stamped less than 3600 seconds before `now` (a definition) |
| ReadRequest.RangeHeader | elisa_viihde_fuse.py:205-207 | the header text `bytes=<offset>-<offset+size>` in decimal (a definition; its meaning is `RangeHeaderParses`) |
| ReadRequest.RangeHeaderParses | elisa_viihde_fuse.py:205-207 | the `Range` header reads back as the byte range from `offset` to `offset + size` |
| ReadRequest.RangeHeaderInjective | elisa_viihde_fuse.py:205-207 | distinct offsets or sizes give distinct headers |
| ReadRequest.RangeSpansOneMore | elisa_viihde_fuse.py:205-207 | the inclusive range in the header covers `size + 1` bytes |
| ReadRequest.ReadPrefix | elisa_viihde_fuse.py:211 | `response.read(size)`: a prefix of the body of at most `size` bytes, all of it when it is shorter |
| Adapter.FolderMode | elisa_viihde_fuse.py:149 | the folder mode has the directory file type and permission bits `0o555` |
| Adapter.ProgramMode | elisa_viihde_fuse.py:134 | the program mode has the regular-file type and permission bits `0o444` |
| Adapter.FolderStat | elisa_viihde_fuse.py:148-157 | folder attributes: that mode, one link, the given uid and gid, size 4096, no block size, all times 0 |
| Adapter.StatFolder | elisa_viihde_fuse.py:145-157 | succeeds exactly when `dir_id` is given or the path resolves, with the fixed folder attributes; otherwise the resolution's error |
| Adapter.ProgramStat | elisa_viihde_fuse.py:126-143 | program attributes: read-only regular file mode, one link, the Content-Length or 4096 as size, block size 131072, all three times equal to `startTimeUTC / 1000` |
| Adapter.ListingUnique | elisa_viihde_fuse.py:213-221 | a directory cache entry determines its listing |
| Adapter.ListingRecordingsArePrograms | elisa_viihde_fuse.py:219-220 | every recording entry of a listing is classified as a program |
| Adapter.ListedEntryResolves | elisa_viihde_fuse.py:213-221 | a recording entry that `readdir` lists resolves through `_get_program_info` to the recording it came from, with or without the handle |
| Adapter.ElisaViihdeFuse.constructor | elisa_viihde_fuse.py:63-67 | the dialect flag is stored and both caches start empty |
| Adapter.ElisaViihdeFuse.GetFolderId | elisa_viihde_fuse.py:73-87 | the recursive method with its scan loop returns exactly `ResolveFolder` |
| Adapter.ElisaViihdeFuse.ScanRecordings | elisa_viihde_fuse.py:105-115 | the scan loop returns exactly `FindRecording` of the listing |
| Adapter.ElisaViihdeFuse.LookupProgram | elisa_viihde_fuse.py:95-115 | decoding, the choice of the cached or fetched listing and the scan return exactly `ProgramInFolder` |
| Adapter.ElisaViihdeFuse.GetProgramInfo | elisa_viihde_fuse.py:89-94 | returns exactly `ProgramInfo` under the current directory cache |
| Adapter.ElisaViihdeFuse.GetProgramId | elisa_viihde_fuse.py:117-118 | the program id of the recording `ProgramInfo` resolves, or its error |
| Adapter.ElisaViihdeFuse.Open | elisa_viihde_fuse.py:181-182 | the handle is the program id of the path's recording, or the resolution error |
| Adapter.ElisaViihdeFuse.GetAttr | elisa_viihde_fuse.py:174-179 | folder attributes for a path not ending in `.mpg`; otherwise the attributes of the recording it resolves to, or the resolution error |
| Adapter.ElisaViihdeFuse.Opendir | elisa_viihde_fuse.py:184-192 | on success the cache entry for the resolved id is exactly the fetched folders and recordings, replacing any earlier one, and the id is returned; on a resolution error or a failed listing (EIO) the cache is unchanged |
| Adapter.ElisaViihdeFuse.Readdir | elisa_viihde_fuse.py:213-221 | EIO exactly when the handle is not open; otherwise `.`, `..`, the folder names in order and the created filename of each recording in order, `2 + folders + recordings` entries; nothing changes |
| Adapter.ElisaViihdeFuse.Releasedir | elisa_viihde_fuse.py:223-227 | returns 0; the directory cache loses the key `fh` and nothing else |
| Adapter.ElisaViihdeFuse.Read | elisa_viihde_fuse.py:194-211 | a fresh cached URI is reused and re-stamped with `now`; otherwise the catalog's URI is used and the cache is left unchanged, EACCES when there is none; the body is the ranged fetch cut to at most `size` bytes |
| Adapter.ReadNeverCaches | elisa_viihde_fuse.py:194-204 | starting from the empty stream-URI cache, `read` leaves it empty and always uses a freshly fetched URI |
| Adapter.ReadTwice | elisa_viihde_fuse.py:194-204 | two reads of a handle whose URI is fresh at `now`: the first reuses it and re-stamps it with `now`; a second read before `now + 3600` reuses it again and re-stamps it with its own time (a sliding window); from `now + 3600` on, it uses the catalog's URI, or fails with EACCES |
| Adapter.ReleaseTwice | elisa_viihde_fuse.py:223-227 | releasing a handle twice returns 0 both times and leaves the directory cache without `fh` and otherwise as before, as releasing it once does |
| Adapter.OpenListRelease | elisa_viihde_fuse.py:184-227 | after a successful `opendir`, `readdir` on the returned handle lists the folder's catalog entries, and after `releasedir` it fails with EIO |

## Left out

- Login, `destroy`, command-line handling, the logging `__call__` wrapper and `LoggingMixIn`: session and process plumbing around the core.
- The `elisaviihde` client calls: they become the `Catalog` maps, assumed to answer the same within one callback (the second `_get_folder_id` of `opendir` therefore returns the first's result).
- HTTP: the HEAD probe of `_stat_program` and the ranged GET of `read` are parameters (`contentLength`, `fetch`). The status check with float division `getcode() / 100` is not modelled.
- Adapter.ElisaViihdeFuse.GetAttr: a failing `getstreamuri` in `_stat_program` raises a non-FUSE exception; the model does not represent that failure and takes the Content-Length as given.
- Adapter.ProgramStat: `startTimeUTC / 1000` is a Python float; the model uses an exact real.
- Adapter.ElisaViihdeFuse.Read: the two `datetime.now()` readings of the hit branch are one `now` in whole seconds.
- `os.getuid()` and `os.getgid()` are parameters.
- Filename.IsoTime: `strptime` validation is a precondition: two-digit fields, a real calendar date (leap years included), hour at most 23, minute at most 59, and year at least 1000 (below that `strftime('%Y')` padding differs by platform). Single-digit fields that `strptime` also accepts are not modelled.
- Filename.ParseFilename: `\d` is modelled as ASCII digits only; Python's `\d` also matches other Unicode decimal digits.
- Concurrency: the source takes no locks and the model is sequential.
- Adapter.ElisaViihdeFuse.GetProgramInfo, Adapter.ElisaViihdeFuse.GetProgramId, Adapter.ElisaViihdeFuse.Open and the program branch of Adapter.ElisaViihdeFuse.GetAttr assume (`CatalogEncodable`) that in the ISO dialect every recording of the catalog has a start time `strptime` accepts. The source calls `_get_iso_time` only on recordings whose name matches (line 111), and raises ValueError on a bad one; the model neither narrows the assumption to those recordings nor models that exception.
- Adapter.ElisaViihdeFuse.Opendir and Adapter.ElisaViihdeFuse.Readdir: the invariant `Valid` assumes that every cached recording has a start time `strptime` accepts in the ISO dialect. `Opendir` requires this only of the listing it stores (`OpenedEncodable`). The source stores any listing and raises ValueError in `readdir` (line 220) on a bad one; the model does not represent that exception.
