/** Values shared by the filesystem adapter: the error taxonomy, the catalog
    entities and the two cache entry kinds. */
module Types {

  datatype Option<+T> = None | Some(value: T)

  /** The three errno values the adapter raises through FuseOSError. */
  datatype Errno = ENOENT | EIO | EACCES

  /** Either a value or the errno a FuseOSError would carry. */
  datatype Result<+T> = Ok(value: T) | Err(error: Errno)

  /** A folder entry of a catalog listing: `{'id': ..., 'name': ...}`. */
  datatype Folder = Folder(id: int, name: string)

  /** A recording entry of a catalog listing. `startTime` is the catalog's
      text in the `DD.MM.YYYY HH.MM` format; `startTimeUTC` is epoch
      milliseconds. */
  datatype Recording = Recording(programId: int, name: string, startTime: string, startTimeUTC: int)

  /** The remote catalog, frozen for the duration of one call. A folder id
      absent from `folders` (or `recordings`) stands for a `getfolders`
      (or `getrecordings`) call that raises; a program id absent from
      `streamUris` stands for a `getstreamuri` call that raises. */
  datatype Catalog = Catalog(
    folders: map<int, seq<Folder>>,
    recordings: map<int, seq<Recording>>,
    streamUris: map<int, string>)

  /** An entry of the directory cache, the `DirCache` named tuple. */
  datatype DirCache = DirCache(folders: seq<Folder>, recordings: seq<Recording>)

  /** An entry of the stream-URI cache, the `StreamUriCache` named tuple;
      `time` is the clock reading in whole seconds. */
  datatype StreamUriCache = StreamUriCache(uri: string, time: int)

  /** The attribute dictionary returned by getattr. `blksize` is absent for
      folders. The mode is the `st_mode` bit pattern. Times are exact reals
      standing for Python floats. */
  datatype Stat = Stat(
    mode: bv32, nlink: int, uid: int, gid: int, size: int,
    blksize: Option<int>, atime: real, mtime: real, ctime: real)
}
