/** What the sources act on: the mutable stores (the `World`) and the
    read-only collaborators they call (the `Env`). Libraries the sources only
    call into (ImageMagick, EXIFR, MD5, Base64, the network, Rails helpers)
    are uninterpreted functions here. */
module Environment {
  import opened Outcomes
  import opened Text
  import opened Uris
  import opened Metadata
  import opened HttpFetch

  // ---------------------------------------------------------------------------
  // Images
  // ---------------------------------------------------------------------------

  /** A decoded `Magick::Image`: its size, MIME type string, file size and EXIF
      entries (`None` when reading them raises). */
  datatype Image = Image(
    rows: nat,
    columns: nat,
    mimeType: string,
    filesize: nat,
    exif: Option<map<string, string>>)

  /** A `Geometry`: a bounding box (`WxH`, with `>` meaning shrink only) or a
      pixel-count bound (`N@`). */
  datatype Geometry = Box(width: nat, height: nat, shrinkOnly: bool) | Area(pixels: nat)

  /** ImageMagick: reading data in an optional explicit format, resizing to a
      geometry, encoding, and the format table for MIME types. */
  datatype Magick = Magick(
    read: (Option<string>, Bytes) -> Image,
    resize: (Image, Geometry) -> Image,
    toBlob: Image -> Bytes,
    formats: map<Mime, string>)

  /** An `EXIFR::JPEG`: its EXIF hash when present and its dimensions. */
  datatype ExifImage = ExifImage(exif: Option<Meta>, height: Option<nat>, width: Option<nat>)

  // ---------------------------------------------------------------------------
  // Stores
  // ---------------------------------------------------------------------------

  datatype FileEntry = FileEntry(content: Bytes, mode: nat)

  datatype S3Key = S3Key(bucket: string, key: string)

  datatype S3Object = S3Object(content: Bytes, contentType: Option<string>)

  /** The stores: the Memory source's class-level hash (Ruby allows a nil key),
      the file system (files and directories by absolute path), the S3
      buckets, and the `attachment_blobs` table with its next fresh id. */
  datatype World = World(
    memory: map<Option<string>, Option<Bytes>>,
    files: map<string, FileEntry>,
    dirs: set<string>,
    s3: map<S3Key, S3Object>,
    rows: map<nat, Bytes>,
    nextRow: nat)

  /** Row ids are handed out in order: every stored row is below the next id. */
  predicate RowsBelowNext(w: World) {
    forall id :: id in w.rows ==> id < w.nextRow
  }

  /** The environment of the running application. */
  datatype Env = Env(
    railsRoot: string,
    publicPath: string,
    cwd: string,
    home: string,
    extensions: map<string, Mime>,
    mimeTypes: map<string, Mime>,
    md5: Bytes -> Bytes,
    base64Decode: string -> Bytes,
    web: Web,
    magick: Magick,
    parseTime: string -> Option<string>,
    exifr: Bytes -> ExifImage,
    s3Url: S3Key -> Uri,
    imagePath: string -> string)

  /** A path as the operating system resolves it: relative paths are taken
      from the working directory, and `.` and `..` are folded. */
  function Resolve(env: Env, path: string): string
  {
    ExpandPath(env.cwd, path)
  }

  /** `File.expand_path(path)`: as the operating system resolves it, except
      that a leading `~` stands for the home directory. */
  function ExpandUser(env: Env, path: string): string
  {
    if path == "~" || (|path| >= 2 && path[..2] == "~/") then ExpandPath(env.cwd, env.home + path[1..])
    else Resolve(env, path)
  }

  /** An expanded path is canonical: its components are clean and the
      operating system resolves it to itself. */
  lemma ExpandUserCanonical(env: Env, path: string)
    ensures Clean(Components(ExpandUser(env, path)))
    ensures Resolve(env, ExpandUser(env, path)) == ExpandUser(env, path)
    ensures !(path == "~" || (|path| >= 2 && path[..2] == "~/")) ==> ExpandUser(env, path) == Resolve(env, path)
  {
    if path == "~" || (|path| >= 2 && path[..2] == "~/") {
      ExpandPathClean(env.cwd, env.home + path[1..]);
    } else {
      ExpandPathClean(env.cwd, path);
    }
  }

  /** `Errno::ENOENT#to_s`. */
  function Enoent(path: string): string
  {
    "No such file or directory - " + path
  }

  /** The bucket (second `/`-segment) and key (last `/`-segment) of an
      `s3:/<bucket>/<key>` URI. */
  function S3Location(u: Uri): (r: Option<S3Key>)
    ensures r.Some? ==> Segment(u.path, 1) == Some(r.value.bucket) && LastSegment(u.path) == Some(r.value.key)
    ensures r.None? ==> Segment(u.path, 1).None? || LastSegment(u.path).None?
  {
    match (Segment(u.path, 1), LastSegment(u.path))
    case (Some(b), Some(k)) => Some(S3Key(b, k))
    case _ => None
  }

  /** `S3Object.find(key, bucket)`, with a missing object as nil. */
  function S3Find(w: World, u: Uri): (r: Option<S3Object>)
    ensures r.Some? <==> S3Location(u).Some? && S3Location(u).value in w.s3
  {
    match S3Location(u)
    case None => None
    case Some(k) => if k in w.s3 then Some(w.s3[k]) else None
  }
}
