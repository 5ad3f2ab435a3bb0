/** The `ElisaviihdeFUSE` class of elisa_viihde_fuse.py: the directory cache
    and the stream-URI cache as map fields, and the filesystem callbacks as
    methods over a catalog passed in as a value. Each method is proved equal
    to the specification functions of the Resolver and ReadRequest modules,
    or states the new state of the caches outright. */
module Adapter {
  import opened Types
  import opened Filename
  import opened Resolver
  import opened ReadRequest

  /** `stat.S_IFDIR`, `stat.S_IFREG` and the file-type mask `stat.S_IFMT`. */
  const S_IFDIR: bv32 := 0x4000
  const S_IFREG: bv32 := 0x8000
  const S_IFMT: bv32 := 0xF000

  /** Block size reported for programs, `128*1024`. */
  const ProgramBlockSize := 131072
  /** Size reported for folders, and for programs whose HEAD response has no
      Content-Length. */
  const DefaultSize := 4096

  /** `0o555 | stat.S_IFDIR`: a directory, readable and searchable by all,
      writable by none. */
  function FolderMode(): (m: bv32)
    ensures m == 0x416D
    ensures m & S_IFMT == S_IFDIR && m & 0x1FF == 0x16D
  {
    0x16D | S_IFDIR
  }

  /** `0o444 | stat.S_IFREG`: a regular file, readable by all, writable and
      executable by none. */
  function ProgramMode(): (m: bv32)
    ensures m == 0x8124
    ensures m & S_IFMT == S_IFREG && m & 0x1FF == 0x124
  {
    0x124 | S_IFREG
  }

  /** The dictionary `_stat_folder` returns. */
  function FolderStat(uid: int, gid: int): (s: Stat)
    ensures s.mode == FolderMode() && s.nlink == 1 && s.size == DefaultSize
    ensures s.uid == uid && s.gid == gid && s.blksize.None?
    ensures s.atime == 0.0 && s.mtime == 0.0 && s.ctime == 0.0
  {
    Stat(FolderMode(), 1, uid, gid, DefaultSize, None, 0.0, 0.0, 0.0)
  }

  /** `_stat_folder(path, dir_id)`: the fixed folder attributes, once the
      folder resolves (unless `dirId` is given, when nothing is looked up).
      The id it resolves to plays no part in the result. */
  function StatFolder(c: Catalog, path: string, dirId: Option<int>, uid: int, gid: int): (r: Result<Stat>)
    requires IsFusePath(path)
    ensures r.Ok? <==> dirId.Some? || ResolveFolder(c, path, None).Ok?
    ensures r.Ok? ==> r.value == FolderStat(uid, gid)
    ensures r.Err? ==> r.error == ResolveFolder(c, path, None).error
  {
    if dirId.Some? then Ok(FolderStat(uid, gid))
    else
      match ResolveFolder(c, path, None)
      case Err(e) => Err(e)
      case Ok(_) => Ok(FolderStat(uid, gid))
  }

  /** The dictionary `_stat_program` returns for a recording: read-only
      file attributes, the size from the HEAD response (4096 when the header
      is absent) and the start time in seconds as all three time stamps. */
  function ProgramStat(rec: Recording, contentLength: Option<int>, uid: int, gid: int): (s: Stat)
    ensures s.mode == ProgramMode() && s.nlink == 1 && s.uid == uid && s.gid == gid
    ensures s.size == (if contentLength.Some? then contentLength.value else DefaultSize)
    ensures s.blksize == Some(ProgramBlockSize)
    ensures s.atime == s.mtime == s.ctime && s.mtime * 1000.0 == rec.startTimeUTC as real
  {
    var time := rec.startTimeUTC as real / 1000.0;
    Stat(ProgramMode(), 1, uid, gid,
         if contentLength.Some? then contentLength.value else DefaultSize,
         Some(ProgramBlockSize), time, time, time)
  }

  /** The listing `readdir` returns for a cache entry: `.` and `..`, the
      folder names in order, then the filename of each recording in
      order. */
  predicate IsListing(formatted: bool, e: DirCache, l: seq<string>)
    requires AllEncodable(formatted, e.recordings)
  {
    && |l| == 2 + |e.folders| + |e.recordings|
    && l[0] == "." && l[1] == ".."
    && (forall i :: 0 <= i < |e.folders| ==> l[2 + i] == e.folders[i].name)
    && (forall j :: 0 <= j < |e.recordings| ==> l[2 + |e.folders| + j] == CreateFilename(formatted, e.recordings[j]))
  }

  /** A cache entry has one listing. */
  lemma ListingUnique(formatted: bool, e: DirCache, l: seq<string>, l': seq<string>)
    requires AllEncodable(formatted, e.recordings)
    requires IsListing(formatted, e, l) && IsListing(formatted, e, l')
    ensures l == l'
  {
    forall k | 0 <= k < |l| ensures l[k] == l'[k] {
      if 2 <= k < 2 + |e.folders| {
        var i := k - 2;
        assert l[2 + i] == e.folders[i].name == l'[2 + i];
      } else if 2 + |e.folders| <= k {
        var j := k - 2 - |e.folders|;
        assert l[2 + |e.folders| + j] == CreateFilename(formatted, e.recordings[j]) == l'[2 + |e.folders| + j];
      }
    }
  }

  /** Every recording entry of a listing is a program path component. */
  lemma ListingRecordingsArePrograms(formatted: bool, e: DirCache, l: seq<string>, j: int)
    requires AllEncodable(formatted, e.recordings) && IsListing(formatted, e, l)
    requires 0 <= j < |e.recordings|
    ensures GetType(l[2 + |e.folders| + j]) == ProgramType
  {
    CreatedFilenameIsProgram(formatted, e.recordings[j]);
  }

  /** What `readdir` lists resolves back: a recording's entry, joined to the
      path of the open folder, is that recording, whether or not the
      directory handle is passed along, provided the recording round-trips
      and no earlier recording carries the same filename. Children of the
      root have the empty parent, as `rsplit` gives for `/name`. */
  lemma ListedEntryResolves(formatted: bool, cache: map<int, DirCache>, c: Catalog,
                            parent: string, d: int, l: seq<string>, j: int)
    requires CacheEncodable(formatted, cache) && CatalogEncodable(formatted, c)
    requires IsFusePath(parent) && ResolveFolder(c, parent, None) == Ok(d)
    requires d in cache && IsListing(formatted, cache[d], l)
    requires 0 <= j < |cache[d].recordings|
    requires RoundTrips(formatted, cache[d].recordings[j]) && '/' !in cache[d].recordings[j].name
    requires forall i :: 0 <= i < j ==> FilenameKey(formatted, cache[d].recordings[i])
                                         != FilenameKey(formatted, cache[d].recordings[j])
    ensures IsFusePath(parent + "/" + l[2 + |cache[d].folders| + j])
    ensures '/' in parent + "/" + l[2 + |cache[d].folders| + j]
    ensures ProgramInfo(formatted, cache, c, parent + "/" + l[2 + |cache[d].folders| + j], None)
            == Ok(cache[d].recordings[j])
    ensures ProgramInfo(formatted, cache, c, parent + "/" + l[2 + |cache[d].folders| + j], Some(d))
            == Ok(cache[d].recordings[j])
  {
    var recs := cache[d].recordings;
    assert l[2 + |cache[d].folders| + j] == CreateFilename(formatted, recs[j]);
    ListedRecordingResolves(formatted, cache, c, parent, d, recs, j);
  }

  /** The recordings `opendir` would store for `path` can be given
      filenames in the dialect (which `readdir` then does). */
  predicate OpenedEncodable(formatted: bool, c: Catalog, path: string)
    requires IsFusePath(path)
  {
    var d := ResolveFolder(c, path, None);
    d.Ok? && d.value in c.recordings ==> AllEncodable(formatted, c.recordings[d.value])
  }

  class ElisaViihdeFuse {
    /** `formatted_time`: which filename dialect is in use. */
    const formattedTime: bool
    /** `_dir_cache`: listings of the open directories, by folder id. */
    var dirCache: map<int, DirCache>
    /** `_stream_uri_cache`: stream URIs with the time they were stamped,
        by program id. */
    var streamUriCache: map<int, StreamUriCache>

    /** Every cached recording can be given a filename in the dialect. */
    ghost predicate Valid()
      reads this
    {
      CacheEncodable(formattedTime, dirCache)
    }

    /** `__init__` without the login: both caches start empty. */
    constructor(formattedTime: bool)
      ensures this.formattedTime == formattedTime
      ensures dirCache == map[] && streamUriCache == map[]
      ensures Valid()
    {
      this.formattedTime := formattedTime;
      dirCache := map[];
      streamUriCache := map[];
    }

    /** `_get_folder_id`: recursion on the parent and the `for`-`else` scan
        of its listing. */
    method GetFolderId(c: Catalog, path: string, dirId: Option<int>) returns (r: Result<int>)
      requires IsFusePath(path)
      ensures r == ResolveFolder(c, path, dirId)
      decreases |path|
    {
      if path == "/" || path == "" {
        return Ok(0);
      }
      ParentIsFusePath(path);
      var (parent, name) := SplitLast(path);
      var parentId: int;
      if dirId.None? {
        var p := GetFolderId(c, parent, None);
        if p.Err? {
          return p;
        }
        parentId := p.value;
      } else {
        parentId := dirId.value;
      }
      if parentId !in c.folders {
        return Err(EIO);
      }
      var listing := c.folders[parentId];
      var i := 0;
      while i < |listing|
        invariant 0 <= i <= |listing|
        invariant forall j :: 0 <= j < i ==> listing[j].name != name
      {
        if listing[i].name == name {
          var found := FindFolder(listing, name);
          var k :| && 0 <= k < |listing| && listing[k].name == name
                   && listing[k].id == found.value
                   && forall j :: 0 <= j < k ==> listing[j].name != name;
          assert k == i;
          return Ok(listing[i].id);
        }
        i := i + 1;
      }
      return Err(ENOENT);
    }

    /** The `for`-`else` scan of `_get_program_info`: the first recording
        whose name equals the decoded name and whose start time, in the
        dialect's encoding, equals the decoded time. */
    method ScanRecordings(listing: seq<Recording>, m: FilenameMatch) returns (r: Option<Recording>)
      requires AllEncodable(formattedTime, listing)
      ensures r == FindRecording(formattedTime, listing, m)
    {
      var i := 0;
      while i < |listing|
        invariant 0 <= i <= |listing|
        invariant forall j :: 0 <= j < i ==> FilenameKey(formattedTime, listing[j]) != m
      {
        var rec := listing[i];
        if rec.name == m.name {
          var startTime := if formattedTime then rec.startTime else IsoTime(rec.startTime);
          if startTime == m.time {
            assert FilenameKey(formattedTime, rec) == m;
            var found := FindRecordingFrom(formattedTime, listing, m, 0);
            assert found == Some(i);
            return Some(rec);
          }
        }
        i := i + 1;
      }
      return None;
    }

    /** `_get_program_info`: the parent folder (unless `dirId` is given),
        the decoded leaf, the listing (cached, or fetched) and the scan. */
    method GetProgramInfo(c: Catalog, path: string, dirId: Option<int>) returns (r: Result<Recording>)
      requires IsFusePath(path) && '/' in path
      requires Valid() && CatalogEncodable(formattedTime, c)
      ensures r == ProgramInfo(formattedTime, dirCache, c, path, dirId)
    {
      ParentIsFusePath(path);
      var (parent, leaf) := SplitLast(path);
      var d: int;
      if dirId.None? {
        var p := GetFolderId(c, parent, None);
        if p.Err? {
          return Err(p.error);
        }
        d := p.value;
      } else {
        d := dirId.value;
      }
      r := LookupProgram(c, d, leaf);
    }

    /** The rest of `_get_program_info` once the folder id `d` is known. */
    method LookupProgram(c: Catalog, d: int, leaf: string) returns (r: Result<Recording>)
      requires Valid() && CatalogEncodable(formattedTime, c)
      ensures r == ProgramInFolder(formattedTime, dirCache, c, d, leaf)
    {
      var m := ParseFilename(formattedTime, leaf);
      if m.None? {
        return Err(ENOENT);
      }
      var listing: seq<Recording>;
      if d !in dirCache {
        if d !in c.recordings {
          return Err(EIO);
        }
        listing := c.recordings[d];
      } else {
        listing := dirCache[d].recordings;
      }
      assert RecordingListing(dirCache, c, d) == Some(listing);
      var found := ScanRecordings(listing, m.value);
      if found.None? {
        return Err(ENOENT);
      }
      return Ok(found.value);
    }

    /** `_get_program_id`: the program id of the resolved recording. */
    method GetProgramId(c: Catalog, path: string, dirId: Option<int>) returns (r: Result<int>)
      requires IsFusePath(path) && '/' in path
      requires Valid() && CatalogEncodable(formattedTime, c)
      ensures var info := ProgramInfo(formattedTime, dirCache, c, path, dirId);
              r == if info.Ok? then Ok(info.value.programId) else Err(info.error)
    {
      var info := GetProgramInfo(c, path, dirId);
      if info.Err? {
        return Err(info.error);
      }
      return Ok(info.value.programId);
    }

    /** `open`: the file handle is the program id. The flags are ignored. */
    method Open(c: Catalog, path: string, flags: int) returns (r: Result<int>)
      requires IsFusePath(path) && '/' in path
      requires Valid() && CatalogEncodable(formattedTime, c)
      ensures var info := ProgramInfo(formattedTime, dirCache, c, path, None);
              r == if info.Ok? then Ok(info.value.programId) else Err(info.error)
    {
      r := GetProgramId(c, path, None);
    }

    /** `getattr` with the HEAD probe's Content-Length passed in: folder
        attributes for a path not ending in `.mpg`, otherwise the attributes
        of the recording it resolves to. */
    method GetAttr(c: Catalog, path: string, uid: int, gid: int, contentLength: Option<int>)
      returns (r: Result<Stat>)
      requires IsFusePath(path)
      requires Valid() && (GetType(path) == ProgramType ==> CatalogEncodable(formattedTime, c))
      ensures GetType(path) == FolderType ==> r == StatFolder(c, path, None, uid, gid)
      ensures GetType(path) == ProgramType ==>
                '/' in path &&
                var info := ProgramInfo(formattedTime, dirCache, c, path, None);
                r == if info.Ok? then Ok(ProgramStat(info.value, contentLength, uid, gid)) else Err(info.error)
    {
      if GetType(path) == FolderType {
        return StatFolder(c, path, None, uid, gid);
      }
      assert path[|path| - 4..] == ".mpg";
      assert '/' in path by {
        assert path[0] == '/';
      }
      var info := GetProgramInfo(c, path, None);
      if info.Err? {
        return Err(info.error);
      }
      return Ok(ProgramStat(info.value, contentLength, uid, gid));
    }

    /** `opendir`: resolve the folder, fetch both of its listings (EIO
        when either call raises), store them in the directory cache over
        any earlier entry, and return the folder id, resolved a second
        time. */
    method Opendir(c: Catalog, path: string) returns (r: Result<int>)
      requires IsFusePath(path)
      requires Valid() && OpenedEncodable(formattedTime, c, path)
      modifies this
      ensures Valid()
      ensures streamUriCache == old(streamUriCache)
      ensures var d := ResolveFolder(c, path, None);
              if d.Err? then r == d && dirCache == old(dirCache)
              else if d.value !in c.folders || d.value !in c.recordings then
                r == Err(EIO) && dirCache == old(dirCache)
              else
                r == d && dirCache == old(dirCache)[d.value := DirCache(c.folders[d.value], c.recordings[d.value])]
    {
      var d := GetFolderId(c, path, None);
      if d.Err? {
        return d;
      }
      if d.value !in c.folders || d.value !in c.recordings {
        return Err(EIO);
      }
      var folders := c.folders[d.value];
      var recordings := c.recordings[d.value];
      dirCache := dirCache[d.value := DirCache(folders, recordings)];
      r := GetFolderId(c, path, None);
    }

    /** `readdir`: EIO for a handle that is not open, otherwise the
        listing built by the two `append` loops. */
    method Readdir(fh: int) returns (r: Result<seq<string>>)
      requires Valid()
      ensures fh !in dirCache <==> r == Err(EIO)
      ensures fh in dirCache ==> r.Ok? && IsListing(formattedTime, dirCache[fh], r.value)
    {
      if fh !in dirCache {
        return Err(EIO);
      }
      var e := dirCache[fh];
      var listing := [".", ".."];
      var i := 0;
      while i < |e.folders|
        invariant 0 <= i <= |e.folders|
        invariant |listing| == 2 + i && listing[0] == "." && listing[1] == ".."
        invariant forall k :: 0 <= k < i ==> listing[2 + k] == e.folders[k].name
      {
        listing := listing + [e.folders[i].name];
        i := i + 1;
      }
      var j := 0;
      while j < |e.recordings|
        invariant 0 <= j <= |e.recordings|
        invariant |listing| == 2 + |e.folders| + j && listing[0] == "." && listing[1] == ".."
        invariant forall k :: 0 <= k < |e.folders| ==> listing[2 + k] == e.folders[k].name
        invariant forall k :: 0 <= k < j ==> listing[2 + |e.folders| + k] == CreateFilename(formattedTime, e.recordings[k])
      {
        listing := listing + [CreateFilename(formattedTime, e.recordings[j])];
        j := j + 1;
      }
      return Ok(listing);
    }

    /** `releasedir`: forget the handle's entry, if there is one, and
        return 0. */
    method Releasedir(fh: int) returns (r: int)
      requires Valid()
      modifies this
      ensures r == 0
      ensures dirCache == old(dirCache) - {fh}
      ensures streamUriCache == old(streamUriCache)
      ensures Valid()
    {
      if fh !in dirCache {
        return 0;
      }
      dirCache := dirCache - {fh};
      return 0;
    }

    /** `read` with the ranged GET passed in as `fetch` (URI and `Range`
        header to response body): a fresh cached URI is reused and
        re-stamped with `now`; otherwise `getstreamuri` is asked (EACCES
        when it raises) and the cache is left as it was. */
    method Read(c: Catalog, size: nat, offset: nat, fh: int, now: int,
                fetch: (string, string) -> seq<bv8>) returns (r: Result<seq<bv8>>)
      modifies this
      ensures dirCache == old(dirCache)
      ensures CacheHit(old(streamUriCache), fh, now) ==>
                var uri := old(streamUriCache)[fh].uri;
                && streamUriCache == old(streamUriCache)[fh := StreamUriCache(uri, now)]
                && r == Ok(ReadPrefix(fetch(uri, RangeHeader(offset, size)), size))
      ensures !CacheHit(old(streamUriCache), fh, now) ==>
                && streamUriCache == old(streamUriCache)
                && r == if fh in c.streamUris
                        then Ok(ReadPrefix(fetch(c.streamUris[fh], RangeHeader(offset, size)), size))
                        else Err(EACCES)
      ensures r.Ok? ==> |r.value| <= size
      ensures r.Err? ==> r.error == EACCES
    {
      var uri: string;
      if fh in streamUriCache && now - streamUriCache[fh].time < CacheInvalidateTime {
        uri := streamUriCache[fh].uri;
        streamUriCache := streamUriCache[fh := StreamUriCache(uri, now)];
      } else {
        if fh !in c.streamUris {
          return Err(EACCES);
        }
        uri := c.streamUris[fh];
      }
      var body := fetch(uri, RangeHeader(offset, size));
      return Ok(ReadPrefix(body, size));
    }
  }

  /** Nothing but the hit branch of `read` writes the stream-URI cache, and
      it only overwrites an entry that exists, so the cache never gains an
      entry: from the empty cache of a new adapter, every `read` fetches a
      fresh URI. */
  method ReadNeverCaches(a: ElisaViihdeFuse, c: Catalog, size: nat, offset: nat, fh: int, now: int,
                         fetch: (string, string) -> seq<bv8>) returns (r: Result<seq<bv8>>)
    requires a.streamUriCache == map[]
    modifies a
    ensures a.streamUriCache == map[]
    ensures r == if fh in c.streamUris
                 then Ok(ReadPrefix(fetch(c.streamUris[fh], RangeHeader(offset, size)), size))
                 else Err(EACCES)
  {
    r := a.Read(c, size, offset, fh, now, fetch);
  }

  /** An `opendir` followed by `readdir` on the handle it returns lists the
      folder's catalog entries; `releasedir` then closes it, and a second
      `readdir` on the handle fails. */
  method OpenListRelease(a: ElisaViihdeFuse, c: Catalog, path: string)
    returns (handle: Result<int>, listed: Result<seq<string>>, closed: Result<seq<string>>)
    requires IsFusePath(path)
    requires a.Valid() && OpenedEncodable(a.formattedTime, c, path)
    modifies a
    ensures handle.Ok? ==> handle == ResolveFolder(c, path, None)
    ensures handle.Ok? ==>
              var d := handle.value;
              && d in c.folders && d in c.recordings
              && listed.Ok? && IsListing(a.formattedTime, DirCache(c.folders[d], c.recordings[d]), listed.value)
              && closed == Err(EIO)
    ensures a.Valid()
  {
    handle := a.Opendir(c, path);
    if handle.Err? {
      listed, closed := Err(handle.error), Err(handle.error);
      return;
    }
    listed := a.Readdir(handle.value);
    var _ := a.Releasedir(handle.value);
    closed := a.Readdir(handle.value);
  }

  /** Two `read` calls on a handle whose URI is fresh at `now`: the first
      reuses the URI and re-stamps it with `now`, so the window slides. A
      second read within the hour after `now` reuses the URI again;
      from `now + 3600` on, it asks the catalog. */
  method ReadTwice(a: ElisaViihdeFuse, c: Catalog, fh: int, now: int, now2: int,
                   size: nat, offset: nat, size2: nat, offset2: nat,
                   fetch: (string, string) -> seq<bv8>) returns (r1: Result<seq<bv8>>, r2: Result<seq<bv8>>)
    requires CacheHit(a.streamUriCache, fh, now)
    modifies a
    ensures var uri := old(a.streamUriCache)[fh].uri;
            r1 == Ok(ReadPrefix(fetch(uri, RangeHeader(offset, size)), size))
    ensures var uri := old(a.streamUriCache)[fh].uri;
            now2 < now + CacheInvalidateTime ==>
              && r2 == Ok(ReadPrefix(fetch(uri, RangeHeader(offset2, size2)), size2))
              && a.streamUriCache == old(a.streamUriCache)[fh := StreamUriCache(uri, now2)]
    ensures var uri := old(a.streamUriCache)[fh].uri;
            now + CacheInvalidateTime <= now2 ==>
              && r2 == (if fh in c.streamUris
                        then Ok(ReadPrefix(fetch(c.streamUris[fh], RangeHeader(offset2, size2)), size2))
                        else Err(EACCES))
              && a.streamUriCache == old(a.streamUriCache)[fh := StreamUriCache(uri, now)]
    ensures a.dirCache == old(a.dirCache)
  {
    r1 := a.Read(c, size, offset, fh, now, fetch);
    r2 := a.Read(c, size2, offset2, fh, now2, fetch);
  }

  /** `releasedir` is idempotent: releasing a handle twice leaves the cache
      as releasing it once does, and both calls return 0. */
  method ReleaseTwice(a: ElisaViihdeFuse, fh: int) returns (r1: int, r2: int)
    requires a.Valid()
    modifies a
    ensures r1 == 0 && r2 == 0
    ensures a.dirCache == old(a.dirCache) - {fh}
    ensures a.streamUriCache == old(a.streamUriCache)
    ensures a.Valid()
  {
    r1 := a.Releasedir(fh);
    r2 := a.Releasedir(fh);
    assert old(a.dirCache) - {fh} - {fh} == old(a.dirCache) - {fh};
  }
}
