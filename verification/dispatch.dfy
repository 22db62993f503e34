/** The class-level entry points of `Sources::Base`: `load`, `reload`,
    `store`, `process` and `icon_path`. Each is a case analysis on the kind of
    raw input, the URI scheme or the transform name. */
module Dispatch {
  import opened Outcomes
  import opened Text
  import opened Uris
  import opened Metadata
  import opened Environment
  import opened Sources
  import BlobSource
  import MemorySource
  import FileSource
  import LocalAssetSource
  import ActiveRecordSource
  import S3Source
  import HttpSource
  import RmagickSource
  import ExifrSource

  /** What `Base.load` can be handed: a URI, an open `::File` (by its path),
      a String of data, nil, or an object of some other class. */
  datatype Raw =
    | RawUri(uri: Uri)
    | RawFile(path: string)
    | RawString(data: Bytes)
    | RawNil
    | RawOther(className: string)

  predicate IsHttp(scheme: Option<string>) {
    scheme == Some("http") || scheme == Some("https")
  }

  /** `Base.load(raw, metadata)`. A URI loads only over http(s) or without a
      scheme; a `::File` becomes a File source around the file object, whose
      `path` serves as its URI; `nil` gives a bare Base that ignores the
      metadata. */
  function Load(env: Env, raw: Raw, m: Meta): (r: Result<Source>)
    ensures raw.RawUri? ==> (r.Ok? <==> IsHttp(raw.uri.scheme) || raw.uri.scheme.None?)
    ensures raw.RawUri? && r.Err? ==> r.error == UnsupportedScheme(Loading, raw.uri.scheme)
    ensures raw.RawUri? && r.Ok? ==> UriOf(r.value) == Ok(Some(raw.uri)) && r.value.primer == Some(m)
    ensures raw.RawUri? && IsHttp(raw.uri.scheme) ==> r == Ok(HttpSource.New(raw.uri, m))
    ensures raw.RawUri? && raw.uri.scheme.None? ==> r == Ok(LocalAssetSource.New(raw.uri, m))
    ensures raw.RawString? ==> r == Ok(BlobSource.New(raw.data, m))
    ensures raw.RawFile? ==> r.Ok? && r.value.kind.FileKind? && r.value.kind.uri.path == raw.path
    ensures raw.RawNil? ==> r.Ok? && r.value.kind.Bare? && r.value.primer == Some(map[])
    ensures raw.RawOther? ==> r == Err(UnknownInput(raw.className))
  {
    match raw
    case RawUri(u) =>
      if IsHttp(u.scheme) then Ok(HttpSource.New(u, m))
      else if u.scheme.None? then Ok(LocalAssetSource.New(u, m))
      else Err(UnsupportedScheme(Loading, u.scheme))
    case RawFile(path) => Ok(Make(FileKind(PathUri(path)), m))
    case RawString(data) => Ok(BlobSource.New(data, m))
    case RawNil => Ok(Make(Bare, map[]))
    case RawOther(c) => Err(UnknownInput(c))
  }

  /** `Base.reload(uri, metadata)`: http(s), db, file, s3 and scheme-less URIs
      reload; every other scheme, `memory` included, raises. */
  function Reload(env: Env, w: World, u: Uri, m: Meta): (r: Result<Source>)
    ensures !(IsHttp(u.scheme) || u.scheme in {Some("db"), Some("file"), Some("s3"), None}) ==>
      r == Err(UnsupportedScheme(Reloading, u.scheme))
    ensures u.scheme != Some("db") && r.Ok? ==> UriOf(r.value) == Ok(Some(u))
    ensures u.scheme != Some("db") && (IsHttp(u.scheme) || u.scheme in {Some("file"), Some("s3"), None}) ==> r.Ok?
    ensures IsHttp(u.scheme) ==> r == Ok(HttpSource.New(u, m))
    ensures u.scheme == Some("db") ==> r == ActiveRecordSource.Reload(w, u, m)
    ensures u.scheme == Some("file") ==> r == Ok(FileSource.Reload(u, m))
    ensures u.scheme == Some("s3") ==> r == Ok(S3Source.Reload(u, m))
    ensures u.scheme.None? ==> r == Ok(LocalAssetSource.New(u, m))
    ensures r.Ok? ==> r.value.primer == Some(m) && PersistentOf(r.value) == Ok(true)
  {
    if IsHttp(u.scheme) then Ok(HttpSource.New(u, m))
    else if u.scheme == Some("db") then ActiveRecordSource.Reload(w, u, m)
    else if u.scheme == Some("file") then Ok(FileSource.Reload(u, m))
    else if u.scheme == Some("s3") then Ok(S3Source.Reload(u, m))
    else if u.scheme.None? then Ok(LocalAssetSource.New(u, m))
    else Err(UnsupportedScheme(Reloading, u.scheme))
  }

  /** `Base.store(source, uri)`: file and scheme-less URIs go to the file
      system, s3 to S3, db to the blob table; any other scheme, http(s) and
      `memory` included, raises without touching a store. */
  function Store(env: Env, w: World, src: Source, u: Uri): (r: (Result<Source>, World))
    ensures !(u.scheme in {Some("file"), None, Some("s3"), Some("db")}) ==>
      r == (Err(UnsupportedScheme(Storing, u.scheme)), w)
    ensures u.scheme in {Some("file"), None} ==> r == FileSource.Store(env, w, src, u)
    ensures u.scheme == Some("s3") ==> r == S3Source.Store(env, w, src, u)
    ensures u.scheme == Some("db") ==> r == ActiveRecordSource.Store(env, w, src, u)
  {
    if u.scheme == Some("file") || u.scheme.None? then FileSource.Store(env, w, src, u)
    else if u.scheme == Some("s3") then S3Source.Store(env, w, src, u)
    else if u.scheme == Some("db") then ActiveRecordSource.Store(env, w, src, u)
    else (Err(UnsupportedScheme(Storing, u.scheme)), w)
  }

  /** Load and reload agree on the URIs both accept. */
  lemma LoadAgreesWithReload(env: Env, w: World, u: Uri, m: Meta)
    requires Load(env, RawUri(u), m).Ok?
    ensures Reload(env, w, u, m) == Load(env, RawUri(u), m)
  {
  }

  /** Round trip: for the file, s3 and db schemes, reloading the URI of a stored
      source (with any metadata) yields a source that reads the same data. */
  lemma StoreThenReload(env: Env, w: World, src: Source, u: Uri, m: Meta)
    requires u.scheme in {Some("file"), Some("s3"), Some("db")}
    requires Store(env, w, src, u).0.Ok?
    ensures var (s, w1) := Store(env, w, src, u);
      UriOf(s.value).Ok? && UriOf(s.value).value.Some? &&
      Reload(env, w1, UriOf(s.value).value.value, m).Ok? &&
      BlobOf(env, w1, Reload(env, w1, UriOf(s.value).value.value, m).value) == BlobOf(env, w1, s.value)
  {
    if u.scheme == Some("db") {
      DbStoreThenReload(env, w, src, u, m);
    } else if u.scheme == Some("s3") {
      S3StoreThenReload(env, w, src, u, m);
    } else {
      FileStoreThenReload(env, w, src, u, m);
    }
  }

  lemma FileStoreThenReload(env: Env, w: World, src: Source, u: Uri, m: Meta)
    requires u.scheme == Some("file")
    requires Store(env, w, src, u).0.Ok?
    ensures var (s, w1) := Store(env, w, src, u);
      UriOf(s.value).Ok? && UriOf(s.value).value.Some? &&
      Reload(env, w1, UriOf(s.value).value.value, m).Ok? &&
      BlobOf(env, w1, Reload(env, w1, UriOf(s.value).value.value, m).value) == BlobOf(env, w1, s.value)
  {
  }

  lemma S3StoreThenReload(env: Env, w: World, src: Source, u: Uri, m: Meta)
    requires u.scheme == Some("s3")
    requires Store(env, w, src, u).0.Ok?
    ensures var (s, w1) := Store(env, w, src, u);
      UriOf(s.value).Ok? && UriOf(s.value).value.Some? &&
      Reload(env, w1, UriOf(s.value).value.value, m).Ok? &&
      BlobOf(env, w1, Reload(env, w1, UriOf(s.value).value.value, m).value) == BlobOf(env, w1, s.value)
  {
  }

  lemma DbStoreThenReload(env: Env, w: World, src: Source, u: Uri, m: Meta)
    requires u.scheme == Some("db")
    requires Store(env, w, src, u).0.Ok?
    ensures var (s, w1) := Store(env, w, src, u);
      UriOf(s.value).Ok? && UriOf(s.value).value.Some? &&
      Reload(env, w1, UriOf(s.value).value.value, m).Ok? &&
      BlobOf(env, w1, Reload(env, w1, UriOf(s.value).value.value, m).value) == BlobOf(env, w1, s.value)
  {
    ActiveRecordSource.StoreThenReload(env, w, src, u, m);
    assert DbUri(w.nextRow).scheme == Some("db");
  }

  /** The icon's image name: `mime_type_icons/<type with / as _>.png`. */
  function IconName(mt: Value): string
  {
    "mime_type_icons/" + ReplaceChar(ToS(mt), '/', '_') + ".png"
  }

  /** The icon name holds the MIME type string with every `/` turned into `_`
      and every other character kept, between a fixed prefix and suffix. */
  lemma IconNameShape(mt: Value)
    ensures var name, t := IconName(mt), ToS(mt);
      |name| == |t| + 20 &&
      name[..16] == "mime_type_icons/" && name[|name| - 4..] == ".png" &&
      '/' !in name[16..|name| - 4] &&
      forall i :: 0 <= i < |t| ==> name[16 + i] == (if t[i] == '/' then '_' else t[i])
  {
    var t := ToS(mt);
    var mid := ReplaceChar(t, '/', '_');
    var name := IconName(mt);
    assert name[16..|name| - 4] == mid;
    ReplaceCharRemoves(t, '/', '_');
  }

  /** The names the image-processing presets answer to. */
  function AvailableImageProcessing(): set<string>
  {
    RmagickSource.Presets.Keys
  }

  /** `Base.process(source, transform)`: `icon` gives the local asset of the
      MIME type's icon; a preset resizes through RMagick; `info` wraps a
      `:jpg` or `:tiff` source in EXIFR and returns any other source itself;
      every other name raises. */
  function Process(env: Env, w: World, src: Source, transform: string): (r: Result<Source>)
    ensures transform != "icon" && transform != "info" && transform !in AvailableImageProcessing() ==>
      r == Err(UnknownTransform(transform))
    ensures transform == "icon" ==> (r.Ok? <==> MimeTypeOf(env, w, src).Ok?)
    ensures transform == "icon" && r.Err? ==> MimeTypeOf(env, w, src).Err? && r.error == MimeTypeOf(env, w, src).error
    ensures transform == "icon" && r.Ok? ==>
      MimeTypeOf(env, w, src).Ok? &&
      r.value == LocalAssetSource.New(ParseRelative(env.imagePath(IconName(MimeTypeOf(env, w, src).value))), map[])
    ensures transform in AvailableImageProcessing() ==>
      (r.Ok? <==> RmagickSource.New(env, w, src).Ok? &&
                  RmagickSource.Process(env, w, RmagickSource.New(env, w, src).value, transform).Ok?)
    ensures transform in AvailableImageProcessing() && r.Ok? ==>
      r == RmagickSource.Process(env, w, RmagickSource.New(env, w, src).value, transform)
    ensures transform in AvailableImageProcessing() && r.Ok? ==>
      UriOf(r.value) == Ok(None) && PersistentOf(r.value) == Ok(false) &&
      r.value.kind.RmagickKind? && r.value.kind.inner == src && r.value.kind.state.aspect == Some(transform)
    ensures transform == "info" ==>
      (r.Ok? <==> MimeTypeOf(env, w, src).Ok? && ToSym(MimeTypeOf(env, w, src).value).Ok?)
    ensures transform == "info" && r.Ok? ==>
      var sym := ToSym(MimeTypeOf(env, w, src).value).value;
      (sym == Some("jpg") || sym == Some("tiff") ==> r.value == ExifrSource.New(src)) &&
      (sym != Some("jpg") && sym != Some("tiff") ==> r.value == src)
  {
    if transform == "icon" then
      var mt :- MimeTypeOf(env, w, src);
      Ok(LocalAssetSource.New(ParseRelative(env.imagePath(IconName(mt))), map[]))
    else if transform in RmagickSource.Presets then
      var s :- RmagickSource.New(env, w, src);
      RmagickSource.Process(env, w, s, transform)
    else if transform == "info" then
      var mt :- MimeTypeOf(env, w, src);
      var sym :- ToSym(mt);
      if sym == Some("jpg") || sym == Some("tiff") then Ok(ExifrSource.Process(ExifrSource.New(src), transform))
      else Ok(src)
    else Err(UnknownTransform(transform))
  }

  /** An asset id that `image_path` appends as a query is not part of the
      icon's path. */
  lemma IconAssetId(env: Env, w: World, src: Source, p: string, id: string)
    requires MimeTypeOf(env, w, src).Ok?
    requires env.imagePath(IconName(MimeTypeOf(env, w, src).value)) == p + "?" + id
    requires '?' !in p && '#' !in p
    ensures Process(env, w, src, "icon") == Ok(LocalAssetSource.New(PathUri(p), map[]))
  {
    ParseRelativePath(p, id);
  }

  /** The default transform, `identity`, is not one `process` knows. */
  lemma IdentityRaises(env: Env, w: World, src: Source)
    ensures Process(env, w, src, "identity") == Err(UnknownTransform("identity"))
  {
  }
}
