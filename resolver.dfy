/** The path resolver of elisa_viihde_fuse.py as specification functions:
    `_get_folder_id` (ResolveFolder) and `_get_program_info` (ProgramInfo),
    together with the path splitting they share. The adapter's methods are
    proved equal to these. */
module Resolver {
  import opened Types
  import opened Filename

  /** A path as the FUSE runtime hands it over: absolute, or the empty
      string that the parent of a top-level entry becomes. */
  predicate IsFusePath(path: string) {
    path == "" || path[0] == '/'
  }

  /** Index of the last `c` in `s`, or -1. */
  function LastIndexOf(s: string, c: char): (r: int)
    ensures -1 <= r < |s|
    ensures r >= 0 ==> s[r] == c
    ensures forall j :: r < j < |s| ==> s[j] != c
    decreases |s|
  {
    if |s| == 0 then -1
    else if s[|s| - 1] == c then |s| - 1
    else LastIndexOf(s[..|s| - 1], c)
  }

  /** `path.rsplit('/', 1)` on a path holding a `/`: the path is the parent,
      a slash and a last component with no slash in it. */
  function SplitLast(path: string): (parts: (string, string))
    requires '/' in path
    ensures path == parts.0 + "/" + parts.1
    ensures '/' !in parts.1
  {
    var k := LastIndexOf(path, '/');
    assert k >= 0 by {
      var i :| 0 <= i < |path| && path[i] == '/';
    }
    assert path == path[..k] + "/" + path[k + 1..];
    (path[..k], path[k + 1..])
  }

  /** Splitting undoes joining on a component without a slash. */
  lemma SplitLastOfJoin(parent: string, name: string)
    requires '/' !in name
    ensures '/' in parent + "/" + name
    ensures SplitLast(parent + "/" + name) == (parent, name)
  {
    var s := parent + "/" + name;
    assert s[|parent|] == '/';
    var k := LastIndexOf(s, '/');
    assert k == |parent|;
    assert s[..k] == parent;
    assert s[k + 1..] == name;
  }

  /** The parent of a FUSE path is a shorter FUSE path. */
  lemma ParentIsFusePath(path: string)
    requires IsFusePath(path) && '/' in path
    ensures IsFusePath(SplitLast(path).0) && |SplitLast(path).0| < |path|
  {
    var (parent, name) := SplitLast(path);
    if parent != "" {
      assert path[0] == parent[0];
    }
  }

  /** The `for folder in listing` scan: the id of the first folder called
      `name`. */
  function FindFolder(listing: seq<Folder>, name: string): (r: Option<int>)
    ensures r.None? <==> forall i :: 0 <= i < |listing| ==> listing[i].name != name
    ensures r.Some? ==> exists i :: && 0 <= i < |listing| && listing[i].name == name
                                    && listing[i].id == r.value
                                    && forall j :: 0 <= j < i ==> listing[j].name != name
    decreases |listing|
  {
    if |listing| == 0 then None
    else if listing[0].name == name then Some(listing[0].id)
    else
      var r := FindFolder(listing[1..], name);
      assert forall i :: 1 <= i < |listing| ==> listing[1..][i - 1] == listing[i];
      r
  }

  /** One step of `_get_folder_id` below a known parent: `getfolders`
      (EIO when it raises) and the scan (ENOENT when nothing matches). */
  function LookupChild(c: Catalog, parentId: int, name: string): (r: Result<int>)
    ensures r == Err(EIO) <==> parentId !in c.folders
    ensures r == Err(ENOENT) <==> parentId in c.folders && FindFolder(c.folders[parentId], name).None?
    ensures r.Ok? ==> parentId in c.folders && FindFolder(c.folders[parentId], name) == Some(r.value)
  {
    if parentId !in c.folders then Err(EIO)
    else match FindFolder(c.folders[parentId], name)
      case None => Err(ENOENT)
      case Some(id) => Ok(id)
  }

  /** `_get_folder_id(path, dir_id)`. `/` and the empty path are the root,
      folder 0, whatever the catalog holds; otherwise the parent is
      resolved first (unless `dirId` names it) and the last component is
      looked up in its listing. It fails with ENOENT or EIO only. */
  function ResolveFolder(c: Catalog, path: string, dirId: Option<int>): (r: Result<int>)
    requires IsFusePath(path)
    ensures r.Err? ==> r.error == ENOENT || r.error == EIO
    decreases |path|
  {
    if path == "/" || path == "" then Ok(0)
    else
      ParentIsFusePath(path);
      var (parent, name) := SplitLast(path);
      var parentId := if dirId.Some? then Ok(dirId.value) else ResolveFolder(c, parent, None);
      if parentId.Err? then parentId else LookupChild(c, parentId.value, name)
  }

  /** The root resolves without the catalog: even a catalog on which every
      call fails gives folder 0. */
  lemma RootNeedsNoCatalog(c: Catalog, dirId: Option<int>)
    ensures ResolveFolder(c, "/", dirId) == Ok(0)
    ensures ResolveFolder(c, "", dirId) == Ok(0)
    ensures ResolveFolder(Catalog(map[], map[], map[]), "/", dirId) == Ok(0)
  {
  }

  /** The path whose components are `names`, root first. */
  function JoinPath(names: seq<string>): (p: string)
    ensures |p| >= |names|
    ensures |names| > 0 ==> p[0] == '/'
    decreases |names|
  {
    if |names| == 0 then "" else JoinPath(names[..|names| - 1]) + "/" + names[|names| - 1]
  }

  /** An independent reference for folder resolution: descend from `from`
      one component at a time, front to back. */
  function Walk(c: Catalog, from: int, names: seq<string>): Result<int>
    decreases |names|
  {
    if |names| == 0 then Ok(from)
    else
      var next := LookupChild(c, from, names[0]);
      if next.Err? then next else Walk(c, next.value, names[1..])
  }

  lemma {:induction false} WalkSnoc(c: Catalog, from: int, names: seq<string>, last: string)
    ensures Walk(c, from, names + [last])
            == (var p := Walk(c, from, names); if p.Err? then p else LookupChild(c, p.value, last))
    decreases |names|
  {
    if |names| > 0 {
      assert (names + [last])[1..] == names[1..] + [last];
      var next := LookupChild(c, from, names[0]);
      if next.Ok? {
        WalkSnoc(c, next.value, names[1..], last);
      }
    }
  }

  /** Resolving a path, which `_get_folder_id` does back to front by
      recursion on `rsplit`, is walking its components from the root front
      to back. The one exception is a first component that is empty: `/`
      itself is the root, not a folder named "" under it. */
  lemma {:induction false} ResolveFolderIsWalk(c: Catalog, names: seq<string>)
    requires forall i :: 0 <= i < |names| ==> '/' !in names[i]
    requires |names| == 0 || names[0] != ""
    ensures IsFusePath(JoinPath(names))
    ensures ResolveFolder(c, JoinPath(names), None) == Walk(c, 0, names)
    decreases |names|
  {
    if |names| > 0 {
      var n := |names| - 1;
      var init, last := names[..n], names[n];
      var p := JoinPath(names);
      assert p == JoinPath(init) + "/" + last;
      assert p != "/" by {
        if n == 0 { assert |p| == 1 + |names[0]|; }
      }
      ResolveFolderIsWalk(c, init);
      SplitLastOfJoin(JoinPath(init), last);
      WalkSnoc(c, 0, init, last);
      assert init + [last] == names;
    }
  }

  /** A folder listed under a resolved directory resolves to its own id
      when it is the first of that name there. */
  lemma FolderEntryResolves(c: Catalog, parent: string, d: int, i: int)
    requires IsFusePath(parent) && ResolveFolder(c, parent, None) == Ok(d)
    requires d in c.folders && 0 <= i < |c.folders[d]|
    requires '/' !in c.folders[d][i].name
    requires parent != "" || c.folders[d][i].name != ""
    requires forall j :: 0 <= j < i ==> c.folders[d][j].name != c.folders[d][i].name
    ensures IsFusePath(parent + "/" + c.folders[d][i].name)
    ensures ResolveFolder(c, parent + "/" + c.folders[d][i].name, None) == Ok(c.folders[d][i].id)
  {
    var f := c.folders[d][i];
    var path := parent + "/" + f.name;
    SplitLastOfJoin(parent, f.name);
    if parent == "" {
      assert |path| == 1 + |f.name|;
    } else {
      assert path[0] == parent[0];
    }
    var found := FindFolder(c.folders[d], f.name);
    assert found.Some?;
    var k :| && 0 <= k < |c.folders[d]| && c.folders[d][k].name == f.name
             && c.folders[d][k].id == found.value
             && forall j :: 0 <= j < k ==> c.folders[d][j].name != f.name;
    assert k == i;
  }

  /** Every cached (or catalog) recording can have its filename built in
      the active dialect. */
  predicate CacheEncodable(formatted: bool, cache: map<int, DirCache>) {
    forall d :: d in cache ==> AllEncodable(formatted, cache[d].recordings)
  }

  predicate CatalogEncodable(formatted: bool, c: Catalog) {
    forall d :: d in c.recordings ==> AllEncodable(formatted, c.recordings[d])
  }

  /** Position of the first recording of `recs[from..]` whose filename key
      is `m`: the `for recording in listing` scan of `_get_program_info`. */
  function FindRecordingFrom(formatted: bool, recs: seq<Recording>, m: FilenameMatch, from: nat): (r: Option<nat>)
    requires AllEncodable(formatted, recs)
    requires from <= |recs|
    ensures r.None? <==> forall i :: from <= i < |recs| ==> FilenameKey(formatted, recs[i]) != m
    ensures r.Some? ==> && from <= r.value < |recs| && FilenameKey(formatted, recs[r.value]) == m
                        && forall j :: from <= j < r.value ==> FilenameKey(formatted, recs[j]) != m
    decreases |recs| - from
  {
    if from == |recs| then None
    else if FilenameKey(formatted, recs[from]) == m then Some(from)
    else FindRecordingFrom(formatted, recs, m, from + 1)
  }

  /** The recording `_get_program_info` returns from a listing: the first
      one whose name and encoded start time equal the decoded groups. */
  function FindRecording(formatted: bool, recs: seq<Recording>, m: FilenameMatch): (r: Option<Recording>)
    requires AllEncodable(formatted, recs)
    ensures r.None? <==> forall i :: 0 <= i < |recs| ==> FilenameKey(formatted, recs[i]) != m
    ensures r.Some? ==> exists i :: && 0 <= i < |recs| && recs[i] == r.value
                                    && FilenameKey(formatted, recs[i]) == m
                                    && forall j :: 0 <= j < i ==> FilenameKey(formatted, recs[j]) != m
  {
    match FindRecordingFrom(formatted, recs, m, 0)
    case None => None
    case Some(i) => Some(recs[i])
  }

  /** The recordings `_get_program_info` searches: the directory cache's
      when the folder is open, otherwise a fresh `getrecordings` (None when
      it raises). */
  function RecordingListing(cache: map<int, DirCache>, c: Catalog, d: int): (r: Option<seq<Recording>>)
    ensures d in cache ==> r == Some(cache[d].recordings)
    ensures d !in cache ==> (r.Some? <==> d in c.recordings)
    ensures d !in cache && r.Some? ==> r.value == c.recordings[d]
  {
    if d in cache then Some(cache[d].recordings)
    else if d in c.recordings then Some(c.recordings[d])
    else None
  }

  /** The part of `_get_program_info` after the folder is known: decode
      the leaf (ENOENT when it does not decode), take the listing (EIO when
      `getrecordings` raises) and return the first matching recording
      (ENOENT when none matches). A recording returned is one of the
      listing, and its name and encoded start time are the decoded
      groups. */
  function ProgramInFolder(formatted: bool, cache: map<int, DirCache>, c: Catalog,
                           d: int, leaf: string): (r: Result<Recording>)
    requires CacheEncodable(formatted, cache) && CatalogEncodable(formatted, c)
    ensures r.Err? ==> r.error == ENOENT || r.error == EIO
    ensures r == Err(EIO) <==> ParseFilename(formatted, leaf).Some? && RecordingListing(cache, c, d).None?
    ensures r.Ok? ==> && ParseFilename(formatted, leaf).Some? && RecordingListing(cache, c, d).Some?
                      && r.value in RecordingListing(cache, c, d).value
                      && FilenameKey(formatted, r.value) == ParseFilename(formatted, leaf).value
  {
    match ParseFilename(formatted, leaf)
    case None => Err(ENOENT)
    case Some(m) =>
      match RecordingListing(cache, c, d)
      case None => Err(EIO)
      case Some(recs) =>
        match FindRecording(formatted, recs, m)
        case None => Err(ENOENT)
        case Some(rec) => Ok(rec)
  }

  /** `_get_program_info(path, dir_id)`: resolve the parent folder (unless
      `dirId` names it), then look the leaf up in it. */
  function ProgramInfo(formatted: bool, cache: map<int, DirCache>, c: Catalog,
                       path: string, dirId: Option<int>): (r: Result<Recording>)
    requires IsFusePath(path) && '/' in path
    requires CacheEncodable(formatted, cache) && CatalogEncodable(formatted, c)
    ensures r.Err? ==> r.error == ENOENT || r.error == EIO
  {
    ParentIsFusePath(path);
    var (parent, leaf) := SplitLast(path);
    var folder := if dirId.Some? then Ok(dirId.value) else ResolveFolder(c, parent, None);
    if folder.Err? then Err(folder.error)
    else ProgramInFolder(formatted, cache, c, folder.value, leaf)
  }

  /** Passing the handle of the parent folder changes nothing. */
  lemma ProgramInfoWithHandle(formatted: bool, cache: map<int, DirCache>, c: Catalog, path: string, d: int)
    requires IsFusePath(path) && '/' in path
    requires CacheEncodable(formatted, cache) && CatalogEncodable(formatted, c)
    requires ParentIsFusePathHolds(path) && ResolveFolder(c, SplitLast(path).0, None) == Ok(d)
    ensures ProgramInfo(formatted, cache, c, path, Some(d)) == ProgramInfo(formatted, cache, c, path, None)
  {
  }

  /** A filename that does not decode never resolves, whatever the caches
      and the catalog hold. */
  lemma UndecodableLeafNotFound(formatted: bool, cache: map<int, DirCache>, c: Catalog,
                                path: string, dirId: Option<int>)
    requires IsFusePath(path) && '/' in path
    requires CacheEncodable(formatted, cache) && CatalogEncodable(formatted, c)
    requires ParseFilename(formatted, SplitLast(path).1).None?
    ensures ProgramInfo(formatted, cache, c, path, dirId).Err?
  {
  }

  /** While a folder is open, resolving a file in it does not depend on
      what `getrecordings` would return: the cached listing is used. */
  lemma OpenFolderIgnoresCatalogRecordings(formatted: bool, cache: map<int, DirCache>,
                                           c: Catalog, c': Catalog, path: string, d: int)
    requires IsFusePath(path) && '/' in path
    requires CacheEncodable(formatted, cache) && CatalogEncodable(formatted, c) && CatalogEncodable(formatted, c')
    requires d in cache
    ensures ProgramInfo(formatted, cache, c', path, Some(d)) == ProgramInfo(formatted, cache, c, path, Some(d))
  {
    assert RecordingListing(cache, c', d) == RecordingListing(cache, c, d);
  }

  /** The same holds without a directory handle, as long as the folder
      listings agree, so the parent still resolves to the open folder. */
  lemma OpenParentIgnoresCatalogRecordings(formatted: bool, cache: map<int, DirCache>,
                                           c: Catalog, c': Catalog, path: string, d: int)
    requires IsFusePath(path) && '/' in path
    requires CacheEncodable(formatted, cache) && CatalogEncodable(formatted, c) && CatalogEncodable(formatted, c')
    requires c'.folders == c.folders && d in cache
    requires ParentIsFusePathHolds(path) && ResolveFolder(c, SplitLast(path).0, None) == Ok(d)
    ensures ProgramInfo(formatted, cache, c', path, None) == ProgramInfo(formatted, cache, c, path, None)
  {
    ResolveFolderSameFolders(c, c', SplitLast(path).0);
    assert ProgramInFolder(formatted, cache, c', d, SplitLast(path).1)
           == ProgramInFolder(formatted, cache, c, d, SplitLast(path).1) by {
      assert RecordingListing(cache, c', d) == RecordingListing(cache, c, d);
    }
  }

  predicate ParentIsFusePathHolds(path: string)
    requires '/' in path
  {
    IsFusePath(SplitLast(path).0)
  }

  /** Folder resolution reads only the folder listings of the catalog. */
  lemma {:induction false} ResolveFolderSameFolders(c: Catalog, c': Catalog, path: string)
    requires IsFusePath(path) && c'.folders == c.folders
    ensures ResolveFolder(c', path, None) == ResolveFolder(c, path, None)
    decreases |path|
  {
    if path != "/" && path != "" {
      ParentIsFusePath(path);
      ResolveFolderSameFolders(c, c', SplitLast(path).0);
    }
  }

  /** Every recording of a folder's listing resolves back from its filename
      to itself, when no earlier recording has the same name and encoded
      time (the uniqueness the codec relies on). */
  lemma ListedRecordingResolves(formatted: bool, cache: map<int, DirCache>, c: Catalog,
                                parent: string, d: int, recs: seq<Recording>, i: int)
    requires IsFusePath(parent) && ResolveFolder(c, parent, None) == Ok(d)
    requires CacheEncodable(formatted, cache) && CatalogEncodable(formatted, c)
    requires RecordingListing(cache, c, d) == Some(recs)
    requires 0 <= i < |recs| && RoundTrips(formatted, recs[i]) && '/' !in recs[i].name
    requires forall j :: 0 <= j < i ==> FilenameKey(formatted, recs[j]) != FilenameKey(formatted, recs[i])
    ensures IsFusePath(parent + "/" + CreateFilename(formatted, recs[i]))
    ensures '/' in parent + "/" + CreateFilename(formatted, recs[i])
    ensures ProgramInfo(formatted, cache, c, parent + "/" + CreateFilename(formatted, recs[i]), None)
            == Ok(recs[i])
    ensures ProgramInfo(formatted, cache, c, parent + "/" + CreateFilename(formatted, recs[i]), Some(d))
            == Ok(recs[i])
  {
    var r := recs[i];
    var leaf := CreateFilename(formatted, r);
    var path := parent + "/" + leaf;
    CreatedFilenameIsComponent(formatted, r);
    SplitLastOfJoin(parent, leaf);
    if parent != "" {
      assert path[0] == parent[0];
    }
    ParseCreateRoundTrip(formatted, r);
    var m := FilenameKey(formatted, r);
    assert AllEncodable(formatted, recs);
    var found := FindRecordingFrom(formatted, recs, m, 0);
    assert found.Some? && found.value == i;
    assert ProgramInFolder(formatted, cache, c, d, leaf) == Ok(r);
    ProgramInfoWithHandle(formatted, cache, c, path, d);
  }
}
