/** The Source abstraction: one record per source object, a `Kind` per
    subclass of `Sources::Base`, and the instance methods every source
    answers (`uri`, `persistent?`, `readonly?`, `blob`, `tempfile`,
    `mime_type`, `filename`, `size`, `digest`, `metadata`, `public_uri`),
    each dispatched on the kind as Ruby's method lookup would. */
module Sources {
  import opened Outcomes
  import opened Text
  import opened Uris
  import opened Metadata
  import opened HttpFetch
  import opened Environment
  import opened ExifTime

  /** What `@error` holds: nil, a message, or the `false` that
      `Memory#valid?` stores. */
  datatype ErrorSlot = NoError | Message(text: string) | FalseValue

  /** An `AttachmentBlob` row. */
  datatype Row = Row(id: nat, blob: Bytes)

  /** The instance variables of an RMagick wrapper besides the wrapped source. */
  datatype RmagickState = RmagickState(
    image: Option<Image>,
    aspect: Option<string>,
    uri: Option<Uri>,
    blob: Option<Bytes>,
    tempfile: Option<Bytes>,
    persistent: bool)

  /** The subclass of a source and the state specific to it. */
  datatype Kind =
    | Bare                                      // Base itself, as `Base.load(nil)` builds it
    | BlobKind(data: Option<Bytes>)             // primer data; nil once destroyed
    | MemoryKind(uri: Uri)
    | FileKind(uri: Uri)
    | LocalAssetKind(uri: Uri)
    | ActiveRecordKind(row: Option<Row>)        // the record; nil once destroyed
    | S3Kind(uri: Uri)
    | HttpKind(uri: Uri, cache: Cache)
    | RmagickKind(inner: Source, state: RmagickState)
    | ExifrKind(inner: Source)

  /** A source object: its kind, the primer metadata hash (nil once Base#destroy
      has cleared it), the error slot and whether it is frozen. */
  datatype Source = Source(kind: Kind, primer: Option<Meta>, error: ErrorSlot, frozen: bool)

  /** `Kind.new(..., metadata)`: a fresh, unfrozen source without error. */
  function Make(kind: Kind, primer: Meta): Source
  {
    Source(kind, Some(primer), NoError, false)
  }

  // ---------------------------------------------------------------------------
  // Reading the primer metadata
  // ---------------------------------------------------------------------------

  /** `@metadata[key]`. */
  function PrimerGet(src: Source, key: string): (r: Result<Value>)
    ensures src.primer.None? <==> r.Err?
    ensures src.primer.Some? ==> r == Ok(Lookup(src.primer.value, key))
  {
    match src.primer
    case None => Err(NilReceiver("[]"))
    case Some(h) => Ok(Lookup(h, key))
  }

  /** `@metadata[key] || fallback` for a fallback that cannot fail. */
  function PrimerOr(src: Source, key: string, fallback: Value): (r: Result<Value>)
    ensures src.primer.None? <==> r.Err?
    ensures r.Ok? && Truthy(Lookup(src.primer.value, key)) ==> r.value == src.primer.value[key]
    ensures r.Ok? && !Truthy(Lookup(src.primer.value, key)) ==> r.value == fallback
  {
    var v :- PrimerGet(src, key);
    Ok(Or(v, fallback))
  }

  function SegmentValue(s: Option<string>): Value
  {
    if s.Some? then Str(s.value) else Nil
  }

  // ---------------------------------------------------------------------------
  // Store lookups
  // ---------------------------------------------------------------------------

  /** `_store[key]` of the Memory source. */
  function MemoryRead(w: World, key: Option<string>): Option<Bytes>
  {
    if key in w.memory then w.memory[key] else None
  }

  /** `File.join(RAILS_ROOT, 'public', uri.path)`: where a local asset lives. */
  function AssetPath(env: Env, u: Uri): string
  {
    Resolve(env, JoinPath(JoinPath(env.railsRoot, "public"), u.path))
  }

  // ---------------------------------------------------------------------------
  // Flags and identity
  // ---------------------------------------------------------------------------

  /** `uri`. */
  function UriOf(src: Source): (r: Result<Option<Uri>>)
    ensures src.kind.ActiveRecordKind? ==>
      (src.kind.row.Some? <==> r.Ok?) &&
      (r.Ok? ==> r.value == Some(DbUri(src.kind.row.value.id)))
    ensures src.kind.Bare? || src.kind.BlobKind? ==> r == Ok(None)
    ensures (src.kind.MemoryKind? || src.kind.FileKind? || src.kind.LocalAssetKind? ||
             src.kind.S3Kind? || src.kind.HttpKind?) ==> r == Ok(Some(src.kind.uri))
    ensures src.kind.RmagickKind? ==> r == Ok(src.kind.state.uri)
    ensures src.kind.ExifrKind? ==> r == UriOf(src.kind.inner)
  {
    match src.kind
    case Bare => Ok(None)
    case BlobKind(_) => Ok(None)
    case MemoryKind(u) => Ok(Some(u))
    case FileKind(u) => Ok(Some(u))
    case LocalAssetKind(u) => Ok(Some(u))
    case ActiveRecordKind(row) =>
      if row.Some? then Ok(Some(DbUri(row.value.id))) else Err(NilReceiver("id"))
    case S3Kind(u) => Ok(Some(u))
    case HttpKind(u, _) => Ok(Some(u))
    case RmagickKind(_, st) => Ok(st.uri)
    case ExifrKind(inner) => UriOf(inner)
  }

  /** `persistent?`: Base raises "Not yet implemented"; every storage backend
      answers true; an RMagick wrapper answers its own flag; EXIFR delegates. */
  function PersistentOf(src: Source): (r: Result<bool>)
    ensures src.kind.Bare? || src.kind.BlobKind? ==> r == Err(NotImplemented)
    ensures (src.kind.MemoryKind? || src.kind.FileKind? || src.kind.LocalAssetKind? ||
             src.kind.ActiveRecordKind? || src.kind.S3Kind? || src.kind.HttpKind?) ==> r == Ok(true)
    ensures src.kind.RmagickKind? ==> r == Ok(src.kind.state.persistent)
    ensures src.kind.ExifrKind? ==> r == PersistentOf(src.kind.inner)
  {
    match src.kind
    case Bare => Err(NotImplemented)
    case BlobKind(_) => Err(NotImplemented)
    case RmagickKind(_, st) => Ok(st.persistent)
    case ExifrKind(inner) => PersistentOf(inner)
    case _ => Ok(true)
  }

  /** `readonly?`: Base raises; File answers true once frozen and otherwise
      calls the undefined `Pathname#writeable?`; Http is read-only; the
      writable stores and RMagick are not; EXIFR delegates. */
  function ReadonlyOf(src: Source): (r: Result<bool>)
    ensures src.kind.Bare? || src.kind.BlobKind? ==> r == Err(NotImplemented)
    ensures (src.kind.MemoryKind? || src.kind.ActiveRecordKind? || src.kind.S3Kind? ||
             src.kind.RmagickKind?) ==> r == Ok(false)
    ensures src.kind.HttpKind? ==> r == Ok(true)
    ensures src.kind.FileKind? || src.kind.LocalAssetKind? ==>
      (src.frozen ==> r == Ok(true)) && (!src.frozen ==> r == Err(UndefinedMethod("writeable?")))
    ensures src.kind.ExifrKind? ==> r == ReadonlyOf(src.kind.inner)
  {
    match src.kind
    case Bare => Err(NotImplemented)
    case BlobKind(_) => Err(NotImplemented)
    case FileKind(_) => if src.frozen then Ok(true) else Err(UndefinedMethod("writeable?"))
    case LocalAssetKind(_) => if src.frozen then Ok(true) else Err(UndefinedMethod("writeable?"))
    case HttpKind(_, _) => Ok(true)
    case ExifrKind(inner) => ReadonlyOf(inner)
    case _ => Ok(false)
  }

  // ---------------------------------------------------------------------------
  // Data and the metadata that needs it
  //
  // These five call one another; a call on the same object goes to a lower
  // rank, a call on a wrapped source goes to a smaller object.
  // ---------------------------------------------------------------------------

  /** `blob`: the source's data (nil for Base, for a destroyed Blob and for a
      missing Memory key). */
  function BlobOf(env: Env, w: World, src: Source): Result<Option<Bytes>>
    decreases src, 1
  {
    match src.kind
    case Bare => Ok(None)
    case BlobKind(d) => Ok(d)
    case MemoryKind(u) => Ok(MemoryRead(w, LastSegment(u.path)))
    case FileKind(u) =>
      var p := Resolve(env, u.path);
      if p in w.files then Ok(Some(w.files[p].content)) else Err(MissingSource(Enoent(u.path)))
    case LocalAssetKind(u) =>
      var p := AssetPath(env, u);
      if p in w.files then Ok(Some(w.files[p].content)) else Err(NoSuchFile(p))
    case ActiveRecordKind(row) =>
      if row.Some? then Ok(Some(row.value.blob)) else Err(NilReceiver("blob"))
    case S3Kind(u) =>
      var o := S3Find(w, u);
      if o.Some? then Ok(Some(o.value.content)) else Err(NilReceiver("value"))
    case HttpKind(u, c) =>
      var resp :- Fetch(env.web, u, c, src.frozen, Get).0;
      if resp.Some? then Ok(Some(resp.value.body)) else Err(NilReceiver("body"))
    case RmagickKind(inner, st) =>
      if st.blob.Some? then Ok(st.blob)
      else
        var img :- ImageOf(env, w, inner, st);
        Ok(Some(env.magick.toBlob(img)))
    case ExifrKind(inner) => BlobOf(env, w, inner)
  }

  /** `mime_type`. */
  function MimeTypeOf(env: Env, w: World, src: Source): Result<Value>
    decreases src, 2
  {
    match src.kind
    case MemoryKind(_) =>
      var p :- PrimerGet(src, MIME_TYPE);
      if Truthy(p) then Ok(p) else Err(UndefinedMethod("s3obj"))
    case FileKind(u) => PrimerOr(src, MIME_TYPE, MimeFromName(env.extensions, u.path))
    case LocalAssetKind(u) => PrimerOr(src, MIME_TYPE, MimeFromName(env.extensions, u.path))
    case S3Kind(u) =>
      var p :- PrimerGet(src, MIME_TYPE);
      if Truthy(p) then Ok(p)
      else
        var o := S3Find(w, u);
        if o.None? then Err(NilReceiver("content_type"))
        else if o.value.contentType.Some? then Ok(LookupExtension(env.extensions, o.value.contentType.value))
        else
          var name := Or(Lookup(src.primer.value, FILENAME), SegmentValue(LastSegment(u.path)));
          if name.Str? then Ok(MimeFromName(env.extensions, name.s)) else Err(TypeMismatch("File.extname"))
    case HttpKind(u, c) =>
      var resp :- Fetch(env.web, u, c, src.frozen, Head).0;
      if resp.Some? then Ok(MimeValue(LookupMime(env.mimeTypes, resp.value.contentType)))
      else Err(NilReceiver("content_type"))
    case RmagickKind(inner, st) =>
      var img :- ImageOf(env, w, inner, st);
      Ok(MimeValue(LookupMime(env.mimeTypes, img.mimeType)))
    case ExifrKind(inner) => MimeTypeOf(env, w, inner)
    case _ => PrimerGet(src, MIME_TYPE)
  }

  /** `filename`. */
  function FilenameOf(env: Env, w: World, src: Source): Result<Value>
    decreases src, 3
  {
    match src.kind
    case MemoryKind(u) => PrimerOr(src, FILENAME, SegmentValue(LastSegment(u.path)))
    case S3Kind(u) => PrimerOr(src, FILENAME, SegmentValue(LastSegment(u.path)))
    case FileKind(u) => PrimerOr(src, FILENAME, Str(Basename(u.path)))
    case LocalAssetKind(u) => PrimerOr(src, FILENAME, Str(Basename(u.path)))
    case HttpKind(u, _) => Ok(SegmentValue(LastSegment(u.path)))
    case RmagickKind(inner, st) =>
      var name :- FilenameOf(env, w, inner);
      if !name.Str? then Err(TypeMismatch("Pathname.new"))
      else
        var img :- ImageOf(env, w, inner, st);
        Ok(Str(ResizedName(name.s, st.aspect, LookupMime(env.mimeTypes, img.mimeType).symbol)))
    case ExifrKind(inner) => FilenameOf(env, w, inner)
    case _ => PrimerOr(src, FILENAME, Str("attachment"))
  }

  /** The RMagick file name: the wrapped name without its extension, `_aspect`
      when processed, then `.` and the MIME symbol (empty when unregistered). */
  function ResizedName(name: string, aspect: Option<string>, symbol: Option<string>): string
  {
    BasenameWithout(name, Extname(name)) + (if aspect.Some? then "_" + aspect.value else "") + "." + SymbolText(symbol)
  }

  /** The contents of `tempfile`. Creating the temp file evaluates `filename`
      first, so its errors come first. */
  function TempfileOf(env: Env, w: World, src: Source): Result<Bytes>
    decreases src, 5
  {
    match src.kind
    case FileKind(u) =>
      var _ :- FilenameOf(env, w, src);
      var p := Resolve(env, u.path);
      if p in w.files then Ok(w.files[p].content) else Err(NoSuchFile(u.path))
    case LocalAssetKind(u) =>
      var _ :- FilenameOf(env, w, src);
      var p := Resolve(env, u.path);
      if p in w.files then Ok(w.files[p].content) else Err(NoSuchFile(u.path))
    case S3Kind(u) =>
      var _ :- FilenameOf(env, w, src);
      var o := S3Find(w, u);
      if o.Some? then Ok(o.value.content) else Err(NilReceiver("value"))
    case RmagickKind(inner, st) =>
      if st.tempfile.Some? then Ok(st.tempfile.value)
      else
        var _ :- FilenameOf(env, w, src);
        var img :- ImageOf(env, w, inner, st);
        Ok(env.magick.toBlob(img))
    case _ => BaseTempfile(env, w, src)
  }

  /** `Base#tempfile`: the blob written to a temp file (nil writes nothing). */
  function BaseTempfile(env: Env, w: World, src: Source): Result<Bytes>
    decreases src, 4
  {
    var _ :- FilenameOf(env, w, src);
    var b :- BlobOf(env, w, src);
    Ok(if b.Some? then b.value else [])
  }

  /** `Rmagick#image`: the cached image, or the wrapped source's temp file read
      in the ImageMagick format registered for its MIME type. */
  function ImageOf(env: Env, w: World, inner: Source, st: RmagickState): Result<Image>
    decreases inner, 6
  {
    if st.image.Some? then Ok(st.image.value)
    else
      var mt :- MimeTypeOf(env, w, inner);
      var format := FormatFor(env.magick, mt);
      var data :- TempfileOf(env, w, inner);
      Ok(env.magick.read(format, data))
  }

  /** `format_for_mime_type(mt)`. */
  function FormatFor(magick: Magick, mt: Value): Option<string>
  {
    if mt.MimeValue? && mt.m in magick.formats then Some(magick.formats[mt.m]) else None
  }

  // ---------------------------------------------------------------------------
  // Size, digest, metadata
  // ---------------------------------------------------------------------------

  /** `size`: the byte length of the blob; Http answers the Content-Length of
      the HEAD response and RMagick the image's file size. */
  function SizeOf(env: Env, w: World, src: Source): (r: Result<Value>)
    ensures !src.kind.HttpKind? && !src.kind.RmagickKind? ==> r == BaseSize(env, w, src)
  {
    match src.kind
    case HttpKind(u, c) =>
      var resp :- Fetch(env.web, u, c, src.frozen, Head).0;
      if resp.None? then Err(NilReceiver("content_length"))
      else if resp.value.contentLength.Some? then Ok(Int(resp.value.contentLength.value))
      else Ok(Nil)
    case RmagickKind(inner, st) =>
      var img :- ImageOf(env, w, inner, st);
      Ok(Int(img.filesize))
    case _ => BaseSize(env, w, src)
  }

  /** `Base#size`: `blob.size`. */
  function BaseSize(env: Env, w: World, src: Source): (r: Result<Value>)
    ensures r.Ok? <==> BlobOf(env, w, src).Ok? && BlobOf(env, w, src).value.Some?
    ensures r.Ok? ==> r.value == Int(|BlobOf(env, w, src).value.value|)
  {
    var b :- BlobOf(env, w, src);
    if b.Some? then Ok(Int(|b.value|)) else Err(NilReceiver("size"))
  }

  /** `Digest::MD5.digest(blob)`. */
  function BlobDigest(env: Env, b: Option<Bytes>): (r: Result<Value>)
    ensures r.Ok? <==> b.Some?
    ensures r.Ok? ==> r.value == Binary(env.md5(b.value))
  {
    if b.Some? then Ok(Binary(env.md5(b.value))) else Err(TypeMismatch("Digest::MD5.digest"))
  }

  /** `digest`: MD5 of the blob; Http prefers the decoded Content-MD5 header of
      the HEAD response, and otherwise hashes the GET body. */
  function DigestOf(env: Env, w: World, src: Source): (r: Result<Value>)
    ensures !src.kind.HttpKind? ==> r == BaseDigest(env, w, src)
  {
    match src.kind
    case HttpKind(u, c) =>
      var (head, c1) := Fetch(env.web, u, c, src.frozen, Head);
      var resp :- head;
      if resp.None? then Err(NilReceiver("[]"))
      else if resp.value.contentMd5.Some? then Ok(Binary(env.base64Decode(resp.value.contentMd5.value)))
      else
        var b :- BlobOf(env, w, src.(kind := HttpKind(u, c1)));
        BlobDigest(env, b)
    case _ => BaseDigest(env, w, src)
  }

  /** `Base#digest`. */
  function BaseDigest(env: Env, w: World, src: Source): (r: Result<Value>)
    ensures r.Ok? <==> BlobOf(env, w, src).Ok? && BlobOf(env, w, src).value.Some?
    ensures r.Ok? ==> r.value == Binary(env.md5(BlobOf(env, w, src).value.value))
  {
    var b :- BlobOf(env, w, src);
    BlobDigest(env, b)
  }

  /** `Base#metadata`: the primer hash with the mime type (when known),
      filename, digest and size written into it. */
  function BaseMetadata(env: Env, w: World, src: Source): (r: Result<Meta>)
    ensures r.Ok? ==> src.primer.Some?
    ensures r.Ok? ==>
      var mt, name, d, sz := MimeTypeOf(env, w, src), FilenameOf(env, w, src), DigestOf(env, w, src), SizeOf(env, w, src);
      mt.Ok? && name.Ok? && d.Ok? && sz.Ok? &&
      r.value == SetIf(SetIf(SetIf(SetIf(src.primer.value, MIME_TYPE, mt.value), FILENAME, name.value), DIGEST, d.value), SIZE, sz.value)
  {
    var mt :- MimeTypeOf(env, w, src);
    var name :- FilenameOf(env, w, src);
    var d :- DigestOf(env, w, src);
    var sz :- SizeOf(env, w, src);
    match src.primer
    case None => Err(NilReceiver("[]="))
    case Some(h) => Ok(SetIf(SetIf(SetIf(SetIf(h, MIME_TYPE, mt), FILENAME, name), DIGEST, d), SIZE, sz))
  }

  /** `Rmagick#exif_data`: the EXIF `DateTime` (else `DateTimeOriginal`),
      normalised and parsed, as `:time`; any failure leaves the hash empty. */
  function ExifData(env: Env, img: Image): (r: Meta)
    ensures r.Keys <= {TIME}
    ensures TIME in r ==> img.exif.Some? && r[TIME].Time?
  {
    match img.exif
    case None => map[]
    case Some(entries) =>
      var stamp :=
        if "DateTime" in entries then Some(entries["DateTime"])
        else if "DateTimeOriginal" in entries then Some(entries["DateTimeOriginal"])
        else None;
      if stamp.None? then map[]
      else
        match env.parseTime(NormalizeTimestamp(stamp.value))
        case None => map[]
        case Some(t) => map[TIME := Time(t)]
  }

  /** `EXIFR#image`: only a `:jpg` or `:tif` source is handed to EXIFR. */
  function ExifrImage(env: Env, w: World, inner: Source): (r: Result<ExifImage>)
    ensures r.Ok? ==> var mt := MimeTypeOf(env, w, inner);
      mt.Ok? && ToSym(mt.value).Ok? && ToSym(mt.value).value in {Some("jpg"), Some("tif")}
  {
    var mt :- MimeTypeOf(env, w, inner);
    var sym :- ToSym(mt);
    if sym == Some("jpg") || sym == Some("tif") then
      var data :- TempfileOf(env, w, inner);
      Ok(env.exifr(data))
    else Err(UnsupportedMime)
  }

  /** The EXIFR additions to a metadata hash: EXIF entries reverse-merged,
      height and width when known, and `:time` taken from
      `:date_time_original` (removed) or, when that is missing or nil, from
      `:date_time` (then removed too); a present `:date_time_original` leaves
      `:date_time` in place. */
  function AugmentWithExif(h: Meta, img: ExifImage): Meta
  {
    var h1 := if img.exif.Some? then ReverseMerge(h, img.exif.value) else h;
    var h2 := if img.height.Some? then h1[HEIGHT := Int(img.height.value)] else h1;
    var h3 := if img.width.Some? then h2[WIDTH := Int(img.width.value)] else h2;
    var original := Lookup(h3, DATE_TIME_ORIGINAL);
    if Truthy(original) then (h3 - {DATE_TIME_ORIGINAL})[TIME := original]
    else (h3 - {DATE_TIME_ORIGINAL, DATE_TIME})[TIME := Lookup(h3, DATE_TIME)]
  }

  /** `metadata`. */
  function MetadataOf(env: Env, w: World, src: Source): (r: Result<Meta>)
    ensures !src.kind.RmagickKind? && !src.kind.ExifrKind? ==> r == BaseMetadata(env, w, src)
    ensures r.Ok? ==> BaseMetadata(env, w, src).Ok?
  {
    match src.kind
    case RmagickKind(inner, st) =>
      var h :- BaseMetadata(env, w, src);
      var img :- ImageOf(env, w, inner, st);
      Ok((h + ExifData(env, img))[HEIGHT := Int(img.rows)][WIDTH := Int(img.columns)])
    case ExifrKind(inner) =>
      var h :- BaseMetadata(env, w, src);
      var img :- ExifrImage(env, w, inner);
      Ok(AugmentWithExif(h, img))
    case _ => BaseMetadata(env, w, src)
  }

  // ---------------------------------------------------------------------------
  // Public location
  // ---------------------------------------------------------------------------

  /** Whether a resolved path names a file or a directory. */
  predicate Exists(w: World, p: string) {
    p in w.files || p in w.dirs
  }

  /** `File#public_uri`: the file's path and then the public root are resolved
      (`realpath` raises when either is missing); the result is `/` plus the
      file's path relative to the root, or nil when that relative path climbs
      out of it. */
  function FilePublicUri(env: Env, w: World, path: string): (r: Result<Option<Uri>>)
    ensures var dest, root := Resolve(env, path), Resolve(env, env.publicPath);
      (r.Ok? <==> Exists(w, dest) && Exists(w, root)) &&
      (r.Err? ==> r.error == NoSuchFile(if Exists(w, dest) then root else dest))
    ensures r.Ok? && r.value.Some? ==>
      var rel := RelativePath(Components(Resolve(env, path)), Components(Resolve(env, env.publicPath)));
      !HasDoubleDot(rel) && r.value.value == PathUri("/" + rel)
    ensures r.Ok? && r.value.None? ==>
      HasDoubleDot(RelativePath(Components(Resolve(env, path)), Components(Resolve(env, env.publicPath))))
  {
    var dest := Resolve(env, path);
    var root := Resolve(env, env.publicPath);
    if !Exists(w, dest) then Err(NoSuchFile(dest))
    else if !Exists(w, root) then Err(NoSuchFile(root))
    else
      var rel := RelativePath(Components(dest), Components(root));
      if HasDoubleDot(rel) then Ok(None) else Ok(Some(PathUri("/" + rel)))
  }

  /** `public_uri`, defined by File (and so LocalAsset), S3 and Http only. */
  function PublicUriOf(env: Env, w: World, src: Source): (r: Result<Option<Uri>>)
    ensures src.kind.HttpKind? ==> r == Ok(Some(src.kind.uri))
    ensures src.kind.S3Kind? ==>
      (r.Ok? <==> S3Find(w, src.kind.uri).Some?) &&
      (r.Ok? ==> r.value == Some(env.s3Url(S3Location(src.kind.uri).value)))
    ensures src.kind.FileKind? || src.kind.LocalAssetKind? ==> r == FilePublicUri(env, w, src.kind.uri.path)
    ensures (src.kind.Bare? || src.kind.BlobKind? || src.kind.MemoryKind? || src.kind.ActiveRecordKind? ||
             src.kind.RmagickKind? || src.kind.ExifrKind?) ==> r == Err(UndefinedMethod("public_uri"))
  {
    match src.kind
    case FileKind(u) => FilePublicUri(env, w, u.path)
    case LocalAssetKind(u) => FilePublicUri(env, w, u.path)
    case S3Kind(u) =>
      if S3Find(w, u).Some? then Ok(Some(env.s3Url(S3Location(u).value))) else Err(NilReceiver("url"))
    case HttpKind(u, _) => Ok(Some(u))
    case _ => Err(UndefinedMethod("public_uri"))
  }

  // ---------------------------------------------------------------------------
  // Base validity and destruction
  // ---------------------------------------------------------------------------

  /** The outcome of `valid?`: the answer (or the exception) and the source
      with whatever `valid?` wrote into it. */
  datatype Validation = Validation(outcome: Result<bool>, source: Source)

  /** The outcome of `destroy`: the exception that escaped, if any, the source
      afterwards and the stores afterwards. */
  datatype Destruction = Destruction(raised: Option<Error>, source: Source, world: World)

  /** `Base#valid?`: valid exactly when no error has been recorded. */
  function BaseValid(src: Source): (r: Validation)
    ensures r.source == src
    ensures r.outcome.Ok? && (r.outcome.value <==> src.error.NoError?)
  {
    Validation(Ok(src.error == NoError), src)
  }

  /** What `@data = nil` clears: the primer data of a Blob and the record of an
      ActiveRecord source. Every other kind keeps its state elsewhere. */
  function ClearData(k: Kind): Kind
  {
    match k
    case BlobKind(_) => BlobKind(None)
    case ActiveRecordKind(_) => ActiveRecordKind(None)
    case _ => k
  }

  /** `Base#destroy`: clears the data and the primer metadata and freezes; on
      an already frozen source the first assignment raises. */
  function BaseDestroy(src: Source, w: World): (r: Destruction)
    ensures r.world == w
    ensures src.frozen ==> r.raised == Some(FrozenObject) && r.source == src
    ensures !src.frozen ==>
      (r.raised.None? && r.source.frozen && r.source.primer.None? &&
       r.source.error == src.error && r.source.kind == ClearData(src.kind))
  {
    if src.frozen then Destruction(Some(FrozenObject), src, w)
    else Destruction(None, Source(ClearData(src.kind), None, src.error, true), w)
  }
}
